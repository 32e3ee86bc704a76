/** Model of core/subscriber.py: the event filter of an ordinary
  * subscriber, the garbage collector's acceptance rule, the consume step
  * that acknowledges a message, and the enable / disable / close flags. */
module Subscribers {
  import opened Wrappers
  import Events
  import M = Messages

  /** `acceptable` on values: raises TypeError when no event filter was
    * set (`in None`); otherwise true iff the event passes the filter and
    * `self` has not yet acknowledged the message. */
  function Accepts<S>(events: Option<seq<Events.Event>>, event: Events.Event,
                      acks: map<S, bool>, self: S): (r: Result<bool>)
    ensures events.None? <==> r == Err(TypeError)
    ensures r == Ok(true) <==> events.Some? && event in events.value && !M.AckedBy(acks, self)
    ensures M.AckedBy(acks, self) ==> r != Ok(true)
  {
    match events
    case None => Err(TypeError)
    case Some(evs) =>
      if event in evs then
        if M.AckedBy(acks, self) then Ok(false) else Ok(true)
      else Ok(false)
  }

  /** One `consume` by `self` of a peeked message: a garbage-collected
    * message raises; an acceptable one is acknowledged (which may raise
    * itself); `Ok(true)` means the message was consumed. */
  function ConsumeStep<S>(events: Option<seq<Events.Event>>, event: Events.Event,
                          gcd: bool, acks: map<S, bool>, self: S): (r: (map<S, bool>, Result<bool>))
    ensures gcd ==> r == (acks, Err(PlainException))
    ensures r.1 == Ok(true) ==> Accepts(events, event, acks, self) == Ok(true)
                                && r.0 == acks[self := true]
    ensures r.1 != Ok(true) ==> r.0 == acks
  {
    if gcd then (acks, Err(PlainException))
    else
      match Accepts(events, event, acks, self)
      case Err(e) => (acks, Err(e))
      case Ok(ok) =>
        if !ok then (acks, Ok(false))
        else
          var ack := M.AckStep(acks, self);
          if ack.1 == Done then (ack.0, Ok(true)) else (acks, Err(ack.1.error))
  }

  /** Once a subscriber has consumed a message it has acknowledged it, so
    * it finds the message unacceptable from then on. */
  lemma ConsumeOnlyOnce<S>(events: Option<seq<Events.Event>>, event: Events.Event,
                           acks: map<S, bool>, self: S)
    requires ConsumeStep(events, event, false, acks, self).1 == Ok(true)
    ensures M.AckedBy(ConsumeStep(events, event, false, acks, self).0, self)
    ensures Accepts(events, event, ConsumeStep(events, event, false, acks, self).0, self) == Ok(false)
  {
  }

  /** Consume steps by the subscribers in `calls`, in that order, on one
    * message that is not garbage collected: the final flags and the
    * subscribers that consumed, in order. `filter` gives each subscriber's
    * event list. */
  function ConsumeAll<S>(filter: S -> Option<seq<Events.Event>>, event: Events.Event,
                         acks: map<S, bool>, calls: seq<S>): (map<S, bool>, seq<S>)
    decreases |calls|
  {
    if calls == [] then (acks, [])
    else
      var step := ConsumeStep(filter(calls[0]), event, false, acks, calls[0]);
      var rest := ConsumeAll(filter, event, step.0, calls[1..]);
      (rest.0, (if step.1 == Ok(true) then [calls[0]] else []) + rest.1)
  }

  /** Exactly-once delivery: over any interleaving of consume steps no
    * subscriber consumes a message twice, one that had already acknowledged
    * it never consumes it, every consumer ends up acknowledged, and the
    * registered keys never change. */
  lemma {:induction false} ConsumeAllAtMostOnce<S>(filter: S -> Option<seq<Events.Event>>,
                                                  event: Events.Event,
                                                  acks: map<S, bool>, calls: seq<S>)
    ensures ConsumeAll(filter, event, acks, calls).0.Keys == acks.Keys
    ensures forall s :: multiset(ConsumeAll(filter, event, acks, calls).1)[s]
                        <= (if M.AckedBy(acks, s) then 0 else 1)
    ensures forall s :: s in ConsumeAll(filter, event, acks, calls).1 ==>
                        M.AckedBy(ConsumeAll(filter, event, acks, calls).0, s)
    ensures forall s :: M.AckedBy(acks, s) ==> M.AckedBy(ConsumeAll(filter, event, acks, calls).0, s)
    decreases |calls|
  {
    if calls != [] {
      var c := calls[0];
      var step := ConsumeStep(filter(c), event, false, acks, c);
      ConsumeAllAtMostOnce(filter, event, step.0, calls[1..]);
      var rest := ConsumeAll(filter, event, step.0, calls[1..]);
      var head := if step.1 == Ok(true) then [c] else [];
      assert ConsumeAll(filter, event, acks, calls) == (rest.0, head + rest.1);
      assert multiset(head + rest.1) == multiset(head) + multiset(rest.1);
      if step.1 == Ok(true) {
        assert M.AckedBy(step.0, c);
        assert forall s :: s != c ==> (M.AckedBy(step.0, s) <==> M.AckedBy(acks, s));
      }
    }
  }

  /** Every registered subscriber whose filter accepts the event and that
    * gets a consume step ends up having acknowledged the message. */
  lemma {:induction false} ConsumeAllReachesEveryAccepter<S>(filter: S -> Option<seq<Events.Event>>,
                                                            event: Events.Event,
                                                            acks: map<S, bool>, calls: seq<S>, s: S)
    requires s in acks && s in calls
    requires filter(s).Some? && event in filter(s).value
    ensures M.AckedBy(ConsumeAll(filter, event, acks, calls).0, s)
    decreases |calls|
  {
    var c := calls[0];
    var step := ConsumeStep(filter(c), event, false, acks, c);
    ConsumeAllAtMostOnce(filter, event, step.0, calls[1..]);
    if c == s {
      assert M.AckedBy(step.0, s);
    } else {
      ConsumeAllReachesEveryAccepter(filter, event, step.0, calls[1..], s);
    }
  }

  /** `GarbageCollector.acceptable` on values: the if-chain accepts an
    * expired message, a fully acknowledged one, or both. */
  function GcAccepts(expired: bool, fullyAcked: bool): (r: bool)
    ensures r <==> expired || fullyAcked
  {
    if expired && fullyAcked then true
    else if expired then true
    else if fullyAcked then true
    else false
  }

  /** `MessageBus.is_expired`: manually expired or older than the maximum
    * age. */
  predicate IsExpired<S>(m: M.Message<S>, now: int)
    reads m
  {
    m.expired || m.Age(now) > M.MaxAgeMs
  }

  datatype Kind = Ordinary | Collector

  /** `enable` as written: `_closed` is read before any assignment, and the
    * constructor never creates it, so `None` stands for the missing
    * attribute. The result is the new enabled flag. */
  function EnableAsWritten(closed: Option<bool>, enabled: bool): (r: Result<bool>)
    ensures closed.None? <==> r == Err(AttributeError)
    ensures closed == Some(false) ==> r == Ok(true)
    ensures closed == Some(true) ==> r == Ok(enabled)
  {
    match closed
    case None => Err(AttributeError)
    case Some(c) => if !c then Ok(true) else Ok(enabled)
  }

  /** `close` as written, on the same representation: the result is the
    * new enabled flag and the new closed flag. */
  function CloseAsWritten(closed: Option<bool>, enabled: bool): (r: Result<(bool, bool)>)
    ensures closed.None? <==> r == Err(AttributeError)
    ensures closed.Some? ==> r == Ok((if closed.value then enabled else false, true))
  {
    match closed
    case None => Err(AttributeError)
    case Some(c) => if !c then Ok((false, true)) else Ok((enabled, true))
  }

  /** What the constructor leaves in `_closed`: nothing. */
  const ClosedAfterInitAsWritten: Option<bool> := None

  /** A freshly constructed subscriber can neither be enabled nor closed. */
  lemma FreshSubscriberEnableCloseRaise()
    ensures EnableAsWritten(ClosedAfterInitAsWritten, true) == Err(AttributeError)
    ensures CloseAsWritten(ClosedAfterInitAsWritten, true) == Err(AttributeError)
  {
  }

  class Subscriber {
    const name: string
    const kind: Kind
    /** The acceptable event types; `None` until set. */
    var events: Option<seq<Events.Event>>
    var enabled: bool
    /** Initialised to false here, which the source omits. */
    var closed: bool

    predicate Valid()
      reads this
    {
      closed ==> !enabled
    }

    /** `is_gc`: only the garbage collector's kind answers true. */
    function IsGc(): (r: bool)
      ensures r <==> kind.Collector?
    {
      kind == Kind.Collector
    }

    /** An ordinary subscriber: no filter, enabled, not a collector. */
    constructor (name: string)
      ensures Valid() && this.name == name && !IsGc()
      ensures events == None && enabled && !closed
    {
      this.name := name;
      kind := Ordinary;
      events := None;
      enabled := true;
      closed := false;
    }

    /** A garbage collector: the same state with `is_gc` true. */
    constructor Collector(name: string)
      ensures Valid() && this.name == name && IsGc()
      ensures events == None && enabled && !closed
    {
      this.name := name;
      kind := Kind.Collector;
      events := None;
      enabled := true;
      closed := false;
    }

    /** The `events` setter. */
    method SetEvents(evs: Option<seq<Events.Event>>)
      modifies this
      ensures events == evs && enabled == old(enabled) && closed == old(closed)
    {
      events := evs;
    }

    /** `add_event`: appends one event; with no list set it raises
      * AttributeError (`None.append`). */
    method AddEvent(e: Events.Event) returns (st: Status)
      modifies this
      ensures old(events).None? ==> st == Raised(AttributeError) && events == None
      ensures old(events).Some? ==> st == Done && events == Some(old(events).value + [e])
      ensures enabled == old(enabled) && closed == old(closed)
    {
      if events.None? {
        st := Raised(AttributeError);
      } else {
        events := Some(events.value + [e]);
        st := Done;
      }
    }

    /** `acceptable` of an ordinary subscriber; asks the message whether it
      * was acknowledged by this subscriber. */
    method Acceptable(m: M.Message<Subscriber>) returns (r: Result<bool>)
      ensures r == Accepts(events, m.event, m.subscribers, this)
    {
      var ackd := m.AcknowledgedBy(this);
      if events.None? {
        return Err(TypeError);
      }
      if m.event in events.value {
        if ackd {
          r := Ok(false);
        } else {
          r := Ok(true);
        }
      } else {
        r := Ok(false);
      }
    }

    /** The synchronous part of `consume` on the peeked message: it
      * raises on a garbage-collected message and acknowledges an
      * acceptable one. */
    method Consume(m: M.Message<Subscriber>) returns (r: Result<bool>)
      modifies m
      ensures (m.subscribers, r) == ConsumeStep(events, m.event, old(m.gcd), old(m.subscribers), this)
      ensures m.processors == old(m.processors) && m.saved == old(m.saved)
      ensures m.expired == old(m.expired) && m.gcd == old(m.gcd)
    {
      if m.gcd {
        return Err(PlainException);
      }
      r := Acceptable(m);
      if r == Ok(true) {
        var st := m.Acknowledge(this);
        if st.Raised? {
          r := Err(st.error);
        }
      }
    }

    /** `GarbageCollector.acceptable` at time `now`. */
    method GcAcceptable(m: M.Message<Subscriber>, now: int) returns (r: bool)
      ensures r <==> IsExpired(m, now) || M.FullyAcked(m.subscribers)
    {
      var fully := m.FullyAcknowledged();
      r := GcAccepts(IsExpired(m, now), fully);
    }

    /** `GarbageCollector.consume`: an already collected message only draws
      * a warning; an acceptable message is collected, which raises if it
      * already was. */
    method GcConsume(m: M.Message<Subscriber>, now: int) returns (r: Result<bool>)
      modifies m
      ensures var accept := old(IsExpired(m, now) || M.FullyAcked(m.subscribers));
              if accept then m.gcd && r == (if old(m.gcd) then Err(PlainException) else Ok(true))
              else m.gcd == old(m.gcd) && r == Ok(false)
      ensures m.subscribers == old(m.subscribers) && m.processors == old(m.processors)
      ensures m.saved == old(m.saved) && m.expired == old(m.expired)
    {
      var accept := GcAcceptable(m, now);
      if accept {
        var st := m.Gc();
        r := if st == Done then Ok(true) else Err(PlainException);
      } else {
        r := Ok(false);
      }
    }

    /** `enable`, with `_closed` initialised. */
    method Enable()
      requires Valid()
      modifies this
      ensures Valid()
      ensures enabled == !old(closed) && closed == old(closed) && events == old(events)
    {
      if !closed {
        if !enabled {
          enabled := true;
        }
      }
    }

    method Disable()
      requires Valid()
      modifies this
      ensures Valid()
      ensures !enabled && closed == old(closed) && events == old(events)
    {
      if enabled {
        enabled := false;
      }
    }

    /** `close`: disables and closes; a second close changes nothing. */
    method Close()
      requires Valid()
      modifies this
      ensures Valid()
      ensures closed && !enabled && events == old(events)
    {
      if !closed {
        Disable();
        closed := true;
      }
    }
  }
}
