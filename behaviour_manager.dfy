/** Model of behave/behaviour_manager.py: subsumption by priority. The
  * manager maps each event to the behaviour registered for it, remembers
  * the active (released) behaviour, and on each message suppresses or
  * releases behaviours so that at most one is released at a time. The
  * suppress / release flags of a behaviour are a `Components.Component`. */
module BehaviourManagers {
  import opened Wrappers
  import Events
  import C = Components
  import M = Messages
  import Subscribers

  /** What `process_message` does with the behaviour of the message's
    * event, by branch of its if-chain. */
  datatype Decision =
    | Ignore          // no behaviour for the event
    | SuppressTarget  // the target was released: suppress it
    | ReleaseTarget   // no active behaviour: the target becomes active
    | KeepActive      // the target is already active, or is not more urgent
    | Preempt         // the target is more urgent than the active behaviour

  /** The if-chain of `process_message` for a registered target: whether
    * it is suppressed, whether a behaviour is active, whether that is the
    * target itself, and `compare_to_priority_of` against the active one. */
  function Decide(targetSuppressed: bool, hasActive: bool, activeIsTarget: bool, compare: int): (d: Decision)
    ensures d != Ignore
    ensures d == SuppressTarget <==> !targetSuppressed
    ensures d == ReleaseTarget <==> targetSuppressed && !hasActive
    ensures d == Preempt <==> targetSuppressed && hasActive && !activeIsTarget && compare == 1
  {
    if !targetSuppressed then SuppressTarget
    else if !hasActive then ReleaseTarget
    else if activeIsTarget then KeepActive
    else if compare == 1 then Preempt
    else KeepActive
  }

  /** Subsumption by priority: a suppressed target displaces a different
    * active behaviour exactly when its event has a smaller priority
    * number; an equally or less urgent one leaves everything as it is. */
  lemma DecidePreemptsByPriority(targetEvent: Events.Event, activeEvent: Events.Event, activeIsTarget: bool)
    ensures var d := Decide(true, true, activeIsTarget, Events.CompareToPriorityOf(targetEvent, activeEvent));
            (d == Preempt <==> !activeIsTarget && Events.Priority(targetEvent) < Events.Priority(activeEvent))
            && (d != Preempt ==> d == KeepActive)
  {
  }

  class Behaviour {
    const name: string
    const event: Events.Event
    /** The enable / suppress / close flags of this behaviour. */
    const state: C.Component

    /** A new behaviour is suppressed and disabled. */
    constructor (name: string, event: Events.Event)
      ensures this.name == name && this.event == event
      ensures fresh(state) && state.Valid()
      ensures state.suppressed && !state.enabled && !state.closed
    {
      this.name := name;
      this.event := event;
      state := new C.Component.Default();
    }
  }

  class BehaviourManager {
    /** The subscriber whose event list the manager extends. */
    const subscriber: Subscribers.Subscriber
    var behaviours: map<Events.Event, Behaviour>
    var active: Option<Behaviour>

    /** Every behaviour the manager refers to. */
    function Members(): set<Behaviour>
      reads this
    {
      behaviours.Values + (if active.Some? then {active.value} else {})
    }

    function States(): set<C.Component>
      reads this
    {
      set b | b in Members() :: b.state
    }

    /** Each behaviour is stored under its own event, distinct behaviours
      * have distinct flags, and every flag set is consistent. */
    predicate Valid()
      reads this, States()
    {
      (forall e :: e in behaviours ==> behaviours[e].event == e)
      && (forall b1, b2 :: b1 in Members() && b2 in Members() && b1 != b2 ==> b1.state != b2.state)
      && (forall b :: b in Members() ==> b.state.Valid())
    }

    /** The subsumption invariant: the only behaviour that may be released
      * is the active one. */
    predicate Subsumes()
      reads this, States()
    {
      forall b :: b in Members() && !b.state.suppressed ==> active == Some(b)
    }

    /** What `process_message` decides for a message carrying `e`. */
    function DecisionFor(e: Events.Event): Decision
      reads this, States()
    {
      if e !in behaviours then Ignore
      else
        var t := behaviours[e];
        Decide(t.state.suppressed, active.Some?, active == Some(t),
               if active.Some? then Events.CompareToPriorityOf(e, active.value.event) else 0)
    }

    constructor ()
      ensures Valid() && Subsumes()
      ensures behaviours == map[] && active == None
      ensures fresh(subscriber) && subscriber.events == None
    {
      subscriber := new Subscribers.Subscriber("beh-mgr");
      behaviours := map[];
      active := None;
    }

    /** `get_behavior_for_event`. */
    function GetBehaviourForEvent(e: Events.Event): (r: Option<Behaviour>)
      reads this
      ensures r.Some? <==> e in behaviours
      ensures r.Some? ==> r.value == behaviours[e]
    {
      if e in behaviours then Some(behaviours[e]) else None
    }

    /** `_register_behaviour`: maps the behaviour's event to it, then adds
      * the event to the subscriber's list (which raises when no list was
      * set). A behaviour registered while suppressed keeps subsumption. */
    method RegisterBehaviour(b: Behaviour) returns (st: Status)
      requires Valid()
      requires b.state.Valid()
      requires forall x :: x in Members() && x != b ==> x.state != b.state
      modifies this, subscriber
      ensures Valid()
      ensures behaviours == old(behaviours)[b.event := b] && active == old(active)
      ensures GetBehaviourForEvent(b.event) == Some(b)
      ensures old(subscriber.events).None? ==> st == Raised(AttributeError) && subscriber.events == None
      ensures old(subscriber.events).Some? ==>
                st == Done && subscriber.events == Some(old(subscriber.events).value + [b.event])
      ensures old(Subsumes()) && b.state.suppressed ==> Subsumes()
    {
      behaviours := behaviours[b.event := b];
      st := subscriber.AddEvent(b.event);
    }

    /** Branch 1: a released target is suppressed, and stops being the
      * active behaviour if it was. */
    method SuppressTarget(t: Behaviour)
      requires Valid() && t in behaviours.Values && !t.state.suppressed
      modifies this, t.state
      ensures Valid() && behaviours == old(behaviours) && Members() <= old(Members())
      ensures t.state.suppressed
      ensures t.state.enabled == old(t.state.enabled) && t.state.closed == old(t.state.closed)
      ensures active == (if old(active) == Some(t) then None else old(active))
      ensures old(Subsumes()) ==> Subsumes()
    {
      t.state.Suppress();
      if active == Some(t) {
        active := None;
      }
    }

    /** Branch 2: with no active behaviour the target becomes active and is
      * released. */
    method ReleaseTarget(t: Behaviour)
      requires Valid() && t in behaviours.Values && active.None?
      modifies this, t.state
      ensures Valid() && behaviours == old(behaviours) && Members() == old(Members())
      ensures !t.state.suppressed && active == Some(t)
      ensures t.state.enabled == old(t.state.enabled) && t.state.closed == old(t.state.closed)
      ensures old(Subsumes()) ==> Subsumes()
    {
      active := Some(t);
      t.state.Release();
    }

    /** Branch 5: the active behaviour is suppressed and the more urgent
      * target replaces it, released. */
    method Preempt(t: Behaviour, a: Behaviour)
      requires Valid() && t in behaviours.Values && active == Some(a) && a != t
      modifies this, t.state, a.state
      ensures Valid() && behaviours == old(behaviours) && Members() <= old(Members())
      ensures !t.state.suppressed && a.state.suppressed && active == Some(t)
      ensures t.state.enabled == old(t.state.enabled) && t.state.closed == old(t.state.closed)
      ensures a.state.enabled == old(a.state.enabled) && a.state.closed == old(a.state.closed)
      ensures old(Subsumes()) ==> Subsumes()
    {
      assert a in Members();
      a.state.Suppress();
      active := Some(t);
      t.state.Release();
    }

    /** `process_message` without the call to the superclass. A
      * garbage-collected message raises NameError: the exception class it
      * names is never defined. */
    method ProcessMessage<S>(m: M.Message<S>) returns (st: Status)
      requires Valid()
      modifies this, States()
      ensures Valid() && behaviours == old(behaviours)
      ensures st == (if old(m.gcd) then Raised(NameError) else Done)
      ensures old(Subsumes()) ==> Subsumes()
      ensures forall b :: b in old(Members()) ==>
                b.state.enabled == old(b.state.enabled) && b.state.closed == old(b.state.closed)
      ensures var d := if old(m.gcd) then Ignore else old(DecisionFor(m.event));
              match d
              case Ignore =>
                active == old(active)
                && forall b :: b in old(Members()) ==> b.state.suppressed == old(b.state.suppressed)
              case KeepActive =>
                active == old(active)
                && forall b :: b in old(Members()) ==> b.state.suppressed == old(b.state.suppressed)
              case SuppressTarget =>
                var t := behaviours[m.event];
                t.state.suppressed
                && active == (if old(active) == Some(t) then None else old(active))
                && forall b :: b in old(Members()) && b != t ==> b.state.suppressed == old(b.state.suppressed)
              case ReleaseTarget =>
                var t := behaviours[m.event];
                !t.state.suppressed && active == Some(t)
                && forall b :: b in old(Members()) && b != t ==> b.state.suppressed == old(b.state.suppressed)
              case Preempt =>
                var t := behaviours[m.event];
                var a := old(active).value;
                !t.state.suppressed && a.state.suppressed && active == Some(t)
                && forall b :: b in old(Members()) && b != t && b != a ==> b.state.suppressed == old(b.state.suppressed)
    {
      if m.gcd {
        return Raised(NameError);
      }
      st := Done;
      var event := m.event;
      var target := GetBehaviourForEvent(event);
      if target.None? {
        return;
      }
      var t := target.value;
      assert t in Members();
      if !t.state.suppressed {
        SuppressTarget(t);
      } else if active.None? {
        ReleaseTarget(t);
      } else if active == Some(t) {
      } else {
        var a := active.value;
        var compare := Events.CompareToPriorityOf(event, a.event);
        if compare == 1 {
          Preempt(t, a);
        } else if compare == -1 {
        } else {
        }
      }
    }
  }
}
