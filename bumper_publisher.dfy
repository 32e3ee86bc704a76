/** Model of hardware/gpio_bmp_publisher.py: six bumper switches, each with
  * a trigger (the time it fired, or none) and the pigpio tick of its last
  * accepted edge. A pin callback debounces edges and latches the trigger;
  * the listener loop publishes one trigger at a time in a fixed order and
  * clears it. Wall time and pigpio ticks are parameters. */
module BumperPublishers {
  import opened Wrappers

  /** The six bumpers: port, centre and starboard at the front, port aft,
    * mast and starboard aft. */
  datatype Bumper = Port | Cntr | Stbd | Paft | Mast | Saft

  /** The listener's precedence: a smaller rank is published first. */
  function Rank(b: Bumper): nat {
    match b
    case Mast => 0
    case Cntr => 1
    case Port => 2
    case Stbd => 3
    case Paft => 4
    case Saft => 5
  }

  lemma RankInjective(b: Bumper, c: Bumper)
    ensures Rank(b) == Rank(c) ==> b == c
  {
    match b
    case Port =>
    case Cntr =>
    case Stbd =>
    case Paft =>
    case Mast =>
    case Saft =>
  }

  /** One value per bumper, as the publisher keeps one field per bumper. */
  datatype Six<T> = Six(port: T, cntr: T, stbd: T, paft: T, mast: T, saft: T)
  {
    function Get(b: Bumper): T {
      match b
      case Port => port
      case Cntr => cntr
      case Stbd => stbd
      case Paft => paft
      case Mast => mast
      case Saft => saft
    }

    function Set(b: Bumper, v: T): (r: Six<T>)
      ensures r.Get(b) == v
      ensures forall c :: c != b ==> r.Get(c) == Get(c)
    {
      match b
      case Port => this.(port := v)
      case Cntr => this.(cntr := v)
      case Stbd => this.(stbd := v)
      case Paft => this.(paft := v)
      case Mast => this.(mast := v)
      case Saft => this.(saft := v)
    }
  }

  function All<T>(v: T): (r: Six<T>)
    ensures forall b :: r.Get(b) == v
  {
    Six(v, v, v, v, v, v)
  }

  /** The event handed to `_reset_trigger` / `_reset_ticks`: one bumper's
    * event, `Event.ANY`, or any other event. */
  datatype ResetEvent = OneBumper(bumper: Bumper) | AnyEvent | OtherEvent

  /** `_reset_trigger` (with `cleared` none) and `_reset_ticks` (with
    * `cleared` 0): a bumper event clears that bumper only, ANY clears all
    * six, any other event clears nothing. */
  function Reset<T>(s: Six<T>, e: ResetEvent, cleared: T): (r: Six<T>)
    ensures e.OneBumper? ==> r.Get(e.bumper) == cleared
                             && forall c :: c != e.bumper ==> r.Get(c) == s.Get(c)
    ensures e.AnyEvent? ==> forall c :: r.Get(c) == cleared
    ensures e.OtherEvent? ==> r == s
  {
    match e
    case OneBumper(b) => s.Set(b, cleared)
    case AnyEvent => All(cleared)
    case OtherEvent => s
  }

  /** One pin callback of bumper `b` at tick `ticks` and time `now`. A
    * bumper that is not triggered, or any bumper when not one-shot, fires
    * when more than `debounceUs` ticks have passed since its last accepted
    * edge, recording the time and the tick; a triggered one-shot bumper
    * instead has its tick counter reset. Other bumpers are untouched. */
  function CallbackStep(triggers: Six<Option<real>>, ticksAt: Six<int>, oneShot: bool, debounceUs: int,
                        b: Bumper, ticks: int, now: real): (r: (Six<Option<real>>, Six<int>))
    ensures forall c :: c != b ==> r.0.Get(c) == triggers.Get(c) && r.1.Get(c) == ticksAt.Get(c)
    ensures var armed := triggers.Get(b).None? || !oneShot;
            && (armed && ticks - ticksAt.Get(b) > debounceUs ==> r.0.Get(b) == Some(now) && r.1.Get(b) == ticks)
            && (armed && ticks - ticksAt.Get(b) <= debounceUs ==> r == (triggers, ticksAt))
            && (!armed ==> r.0 == triggers && r.1.Get(b) == 0)
    ensures r.0.Get(b) != triggers.Get(b) ==> ticks - ticksAt.Get(b) > debounceUs && r.0.Get(b) == Some(now)
  {
    if triggers.Get(b).None? || !oneShot then
      if ticks - ticksAt.Get(b) > debounceUs then (triggers.Set(b, Some(now)), ticksAt.Set(b, ticks))
      else (triggers, ticksAt)
    else
      (triggers, Reset(ticksAt, OneBumper(b), 0))
  }

  /** The listener's if-chain: the triggered bumper of least rank, or none
    * when nothing is triggered. */
  function Pick(triggers: Six<Option<real>>): (r: Option<Bumper>)
    ensures r.None? <==> forall c :: triggers.Get(c).None?
    ensures r.Some? ==> triggers.Get(r.value).Some?
                        && forall c :: Rank(c) < Rank(r.value) ==> triggers.Get(c).None?
  {
    if triggers.Get(Mast).Some? then Some(Mast)
    else if triggers.Get(Cntr).Some? then Some(Cntr)
    else if triggers.Get(Port).Some? then Some(Port)
    else if triggers.Get(Stbd).Some? then Some(Stbd)
    else if triggers.Get(Paft).Some? then Some(Paft)
    else if triggers.Get(Saft).Some? then Some(Saft)
    else None
  }

  /** A published message: the bumper's event and its trigger time. */
  datatype BumperMessage = BumperMessage(event: Bumper, value: real)

  /** One pass of the listener loop: publish the picked trigger, if any,
    * and reset that trigger alone. */
  function ListenerStep(triggers: Six<Option<real>>): (r: (Option<BumperMessage>, Six<Option<real>>))
    ensures r.0.None? <==> forall c :: triggers.Get(c).None?
    ensures r.0.None? ==> r.1 == triggers
    ensures r.0.Some? ==> triggers.Get(r.0.value.event) == Some(r.0.value.value)
                          && r.1 == triggers.Set(r.0.value.event, None)
                          && forall c :: Rank(c) < Rank(r.0.value.event) ==> triggers.Get(c).None?
  {
    match Pick(triggers)
    case None => (None, triggers)
    case Some(b) => (Some(BumperMessage(b, triggers.Get(b).value)), Reset(triggers, OneBumper(b), None))
  }

  /** The number of bumpers triggered. */
  function Count(triggers: Six<Option<real>>): nat {
    (if triggers.port.Some? then 1 else 0) + (if triggers.cntr.Some? then 1 else 0)
    + (if triggers.stbd.Some? then 1 else 0) + (if triggers.paft.Some? then 1 else 0)
    + (if triggers.mast.Some? then 1 else 0) + (if triggers.saft.Some? then 1 else 0)
  }

  /** The events published by `n` passes of the listener with no callback
    * in between. */
  function Drain(triggers: Six<Option<real>>, n: nat): seq<Bumper>
    decreases n
  {
    if n == 0 then []
    else
      var (m, rest) := ListenerStep(triggers);
      if m.None? then [] else [m.value.event] + Drain(rest, n - 1)
  }

  /** Passes of the listener with no callback in between publish only
    * triggered bumpers, each at most once and in order of rank; as many
    * passes as there are triggers publish every one of them. */
  lemma {:induction false} DrainPublishesInRankOrder(triggers: Six<Option<real>>, n: nat)
    ensures forall i :: 0 <= i < |Drain(triggers, n)| ==> triggers.Get(Drain(triggers, n)[i]).Some?
    ensures forall i, j :: 0 <= i < j < |Drain(triggers, n)| ==> Rank(Drain(triggers, n)[i]) < Rank(Drain(triggers, n)[j])
    ensures n >= Count(triggers) ==> forall c :: triggers.Get(c).Some? ==> c in Drain(triggers, n)
    decreases n
  {
    var d := Drain(triggers, n);
    if n > 0 {
      var m, rest := ListenerStep(triggers).0, ListenerStep(triggers).1;
      if m.Some? {
        var b := m.value.event;
        DrainPublishesInRankOrder(rest, n - 1);
        var tail := Drain(rest, n - 1);
        assert forall k :: 0 <= k < |tail| ==> rest.Get(tail[k]).Some?;
        assert d == [b] + tail;
        assert Count(rest) == Count(triggers) - 1 by {
          match b
          case Port =>
          case Cntr =>
          case Stbd =>
          case Paft =>
          case Mast =>
          case Saft =>
        }
        forall i | 0 <= i < |tail|
          ensures triggers.Get(tail[i]).Some? && Rank(b) < Rank(tail[i])
        {
          var x := tail[i];
          assert rest.Get(x).Some? && rest.Get(b).None?;
          RankInjective(x, b);
        }
        forall i, j | 0 <= i < j < |d|
          ensures Rank(d[i]) < Rank(d[j])
        {
          if i > 0 {
            assert d[i] == tail[i - 1] && d[j] == tail[j - 1];
          } else {
            assert d[j] == tail[j - 1];
          }
        }
        forall c | n >= Count(triggers) && triggers.Get(c).Some?
          ensures c in d
        {
          if c != b {
            assert c in tail;
          }
        }
      }
    }
  }

  /** The events handed to a sequence of pin callbacks: the bumper, its
    * pigpio tick and the wall time. */
  datatype Edge = Edge(bumper: Bumper, ticks: int, now: real)

  function RunCallbacks(triggers: Six<Option<real>>, ticksAt: Six<int>, oneShot: bool, debounceUs: int,
                        edges: seq<Edge>): (Six<Option<real>>, Six<int>)
    decreases |edges|
  {
    if edges == [] then (triggers, ticksAt)
    else
      var (t, k) := CallbackStep(triggers, ticksAt, oneShot, debounceUs, edges[0].bumper, edges[0].ticks, edges[0].now);
      RunCallbacks(t, k, oneShot, debounceUs, edges[1..])
  }

  /** Callbacks never clear a trigger, and in one-shot mode a trigger keeps
    * its first time however many edges follow, until the listener
    * publishes it. */
  lemma {:induction false} CallbacksLatch(triggers: Six<Option<real>>, ticksAt: Six<int>, oneShot: bool,
                                          debounceUs: int, edges: seq<Edge>, c: Bumper)
    requires triggers.Get(c).Some?
    ensures RunCallbacks(triggers, ticksAt, oneShot, debounceUs, edges).0.Get(c).Some?
    ensures oneShot ==> RunCallbacks(triggers, ticksAt, oneShot, debounceUs, edges).0.Get(c) == triggers.Get(c)
    decreases |edges|
  {
    if edges != [] {
      var (t, k) := CallbackStep(triggers, ticksAt, oneShot, debounceUs, edges[0].bumper, edges[0].ticks, edges[0].now);
      CallbacksLatch(t, k, oneShot, debounceUs, edges[1..], c);
    }
  }

  class GpioBumperPublisher {
    /** If true, a triggered bumper must be reset before it fires again. */
    const oneShot: bool
    /** The debounce interval in pigpio ticks (microseconds). */
    const debounceUs: int
    var portTriggered: Option<real>
    var cntrTriggered: Option<real>
    var stbdTriggered: Option<real>
    var paftTriggered: Option<real>
    var mastTriggered: Option<real>
    var saftTriggered: Option<real>
    var portTicks: int
    var cntrTicks: int
    var stbdTicks: int
    var paftTicks: int
    var mastTicks: int
    var saftTicks: int

    function Triggers(): Six<Option<real>>
      reads this
    {
      Six(portTriggered, cntrTriggered, stbdTriggered, paftTriggered, mastTriggered, saftTriggered)
    }

    function Ticks(): Six<int>
      reads this
    {
      Six(portTicks, cntrTicks, stbdTicks, paftTicks, mastTicks, saftTicks)
    }

    /** Construction clears every trigger and every tick counter; the
      * debounce interval is configured in milliseconds. */
    constructor (oneShot: bool, debounceMs: int)
      ensures this.oneShot == oneShot && debounceUs == debounceMs * 1000
      ensures Triggers() == All(None) && Ticks() == All(0)
    {
      this.oneShot := oneShot;
      debounceUs := debounceMs * 1000;
      new;
      ResetTrigger(AnyEvent);
      ResetTicks(AnyEvent);
    }

    /** `_reset_trigger`. */
    method ResetTrigger(e: ResetEvent)
      modifies this
      ensures Triggers() == Reset(old(Triggers()), e, None)
      ensures Ticks() == old(Ticks())
    {
      if e == OneBumper(Port) {
        portTriggered := None;
      } else if e == OneBumper(Cntr) {
        cntrTriggered := None;
      } else if e == OneBumper(Stbd) {
        stbdTriggered := None;
      } else if e == OneBumper(Paft) {
        paftTriggered := None;
      } else if e == OneBumper(Mast) {
        mastTriggered := None;
      } else if e == OneBumper(Saft) {
        saftTriggered := None;
      } else if e == AnyEvent {
        portTriggered, cntrTriggered, stbdTriggered := None, None, None;
        paftTriggered, mastTriggered, saftTriggered := None, None, None;
      }
    }

    /** `_reset_ticks`. */
    method ResetTicks(e: ResetEvent)
      modifies this
      ensures Ticks() == Reset(old(Ticks()), e, 0)
      ensures Triggers() == old(Triggers())
    {
      if e == OneBumper(Port) {
        portTicks := 0;
      } else if e == OneBumper(Cntr) {
        cntrTicks := 0;
      } else if e == OneBumper(Stbd) {
        stbdTicks := 0;
      } else if e == OneBumper(Paft) {
        paftTicks := 0;
      } else if e == OneBumper(Mast) {
        mastTicks := 0;
      } else if e == OneBumper(Saft) {
        saftTicks := 0;
      } else if e == AnyEvent {
        portTicks, cntrTicks, stbdTicks := 0, 0, 0;
        paftTicks, mastTicks, saftTicks := 0, 0, 0;
      }
    }

    /** Records a trigger and its tick for one bumper. */
    method Fire(b: Bumper, ticks: int, now: real)
      modifies this
      ensures Triggers() == old(Triggers()).Set(b, Some(now))
      ensures Ticks() == old(Ticks()).Set(b, ticks)
    {
      match b
      case Port => portTriggered, portTicks := Some(now), ticks;
      case Cntr => cntrTriggered, cntrTicks := Some(now), ticks;
      case Stbd => stbdTriggered, stbdTicks := Some(now), ticks;
      case Paft => paftTriggered, paftTicks := Some(now), ticks;
      case Mast => mastTriggered, mastTicks := Some(now), ticks;
      case Saft => saftTriggered, saftTicks := Some(now), ticks;
    }

    /** The pin callback of bumper `b` (`_port_callback_method` and its five
      * siblings). */
    method Callback(b: Bumper, ticks: int, now: real)
      modifies this
      ensures (Triggers(), Ticks()) == CallbackStep(old(Triggers()), old(Ticks()), oneShot, debounceUs, b, ticks, now)
    {
      if Triggers().Get(b).None? || !oneShot {
        if ticks - Ticks().Get(b) > debounceUs {
          Fire(b, ticks, now);
        }
      } else {
        ResetTicks(OneBumper(b));
      }
    }

    /** One pass of `_bmp_listener_loop`: the message published, if any. */
    method PublishNext() returns (m: Option<BumperMessage>)
      modifies this
      ensures (m, Triggers()) == ListenerStep(old(Triggers()))
      ensures Ticks() == old(Ticks())
    {
      m := None;
      if mastTriggered.Some? {
        m := Some(BumperMessage(Mast, mastTriggered.value));
      } else if cntrTriggered.Some? {
        m := Some(BumperMessage(Cntr, cntrTriggered.value));
      } else if portTriggered.Some? {
        m := Some(BumperMessage(Port, portTriggered.value));
      } else if stbdTriggered.Some? {
        m := Some(BumperMessage(Stbd, stbdTriggered.value));
      } else if paftTriggered.Some? {
        m := Some(BumperMessage(Paft, paftTriggered.value));
      } else if saftTriggered.Some? {
        m := Some(BumperMessage(Saft, saftTriggered.value));
      }
      if m.Some? {
        ResetTrigger(OneBumper(m.value.event));
      }
    }
  }
}
