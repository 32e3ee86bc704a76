/** Model of core/fsm.py: the lifecycle state machine NONE → INITIAL →
  * STARTED → ENABLED ⇄ DISABLED → CLOSED, with its transition table. */
module Fsm {
  import W = Wrappers

  datatype State = None | Initial | Started | Enabled | Disabled | Closed

  /** The number each state carries in its definition tuple. */
  function Number(s: State): nat {
    match s
    case None => 0
    case Initial => 1
    case Started => 2
    case Enabled => 3
    case Disabled => 4
    case Closed => 5
  }

  /** How the table judges a transition: permitted, permitted with a
    * "suspect transition" warning, or refused with IllegalStateError. */
  datatype Verdict = Legal | Suspect | Illegal

  /** `__transition__`'s table. */
  function Check(from: State, to: State): (v: Verdict)
    ensures from == None ==> (v != Illegal <==> to == Initial)
    ensures from == Initial ==> (v != Illegal <==> to in {Started, Disabled, Closed})
    ensures from == Started ==> (v != Illegal <==> to in {Enabled, Disabled, Closed})
    ensures from == Enabled ==> (v != Illegal <==> to in {Enabled, Disabled, Closed})
    ensures from == Disabled ==> (v != Illegal <==> to in {Enabled, Disabled, Closed})
    ensures from == Closed ==> v == Illegal
    ensures v == Suspect <==> from == to && (from == Enabled || from == Disabled)
  {
    match from
    case None => if to == Initial then Legal else Illegal
    case Initial => if to == Started || to == Disabled || to == Closed then Legal else Illegal
    case Started => if to == Enabled || to == Disabled || to == Closed then Legal else Illegal
    case Enabled =>
      if to == Disabled || to == Closed then Legal
      else if to == Enabled then Suspect
      else Illegal
    case Disabled =>
      if to == Enabled || to == Closed then Legal
      else if to == Disabled then Suspect
      else Illegal
    case Closed => Illegal
  }

  /** The state after a sequence of requested transitions, where a refused
    * one leaves the state as it was. */
  function Run(s: State, requests: seq<State>): State
    decreases |requests|
  {
    if requests == [] then s
    else
      var next := if Check(s, requests[0]) == Illegal then s else requests[0];
      Run(next, requests[1..])
  }

  /** After construction no request sequence leads back to NONE or
    * INITIAL, and once CLOSED the machine stays CLOSED. */
  lemma {:induction false} RunNeverReturns(s: State, requests: seq<State>)
    requires s != None
    ensures Run(s, requests) != None
    ensures s != Initial ==> Run(s, requests) != Initial
    ensures s == Closed ==> Run(s, requests) == Closed
    decreases |requests|
  {
    if requests != [] {
      var next := if Check(s, requests[0]) == Illegal then s else requests[0];
      RunNeverReturns(next, requests[1..]);
    }
  }

  /** ENABLED is reached from INITIAL only through STARTED or DISABLED:
    * without either request the machine stays INITIAL or closes. */
  lemma {:induction false} EnableNeedsStartOrDisable(s: State, requests: seq<State>)
    requires s in {Initial, Closed} && Started !in requests && Disabled !in requests
    ensures Run(s, requests) in {Initial, Closed}
    decreases |requests|
  {
    if requests != [] {
      var next := if Check(s, requests[0]) == Illegal then s else requests[0];
      assert requests[0] != Disabled && requests[0] != Started;
      EnableNeedsStartOrDisable(next, requests[1..]);
    }
  }

  /** The table lets a machine that was never started be enabled, by way
    * of DISABLED. This illustrates the one request sequence that shows it;
    * EnableNeedsStartOrDisable is the statement for all sequences. */
  lemma EnabledWithoutStart()
    ensures Run(Initial, [Disabled, Enabled]) == Enabled
  {
  }

  class FiniteStateMachine {
    var state: State

    /** Construction makes the NONE → INITIAL transition. */
    constructor ()
      ensures state == Initial
    {
      state := None;
      new;
      var st, warned := Transition(Initial);
    }

    /** `__transition__`: a refused transition raises and leaves the state
      * unchanged; an accepted one sets it, warning for a suspect one. */
    method Transition(next: State) returns (st: W.Status, warned: bool)
      modifies this
      ensures Check(old(state), next) == Illegal ==> st == W.Raised(W.IllegalStateError) && state == old(state)
      ensures Check(old(state), next) != Illegal ==> st == W.Done && state == next
      ensures warned <==> Check(old(state), next) == Suspect
    {
      var v := Check(state, next);
      warned := v == Suspect;
      if v == Illegal {
        st := W.Raised(W.IllegalStateError);
      } else {
        state := next;
        st := W.Done;
      }
    }

    method Start() returns (st: W.Status)
      modifies this
      ensures st == W.Done <==> old(state) == Initial
      ensures state == if st == W.Done then Started else old(state)
    {
      var warned;
      st, warned := Transition(Started);
    }

    method Enable() returns (st: W.Status)
      modifies this
      ensures st == W.Done <==> old(state) in {Started, Enabled, Disabled}
      ensures state == if st == W.Done then Enabled else old(state)
    {
      var warned;
      st, warned := Transition(Enabled);
    }

    method Disable() returns (st: W.Status)
      modifies this
      ensures st == W.Done <==> old(state) in {Initial, Started, Enabled, Disabled}
      ensures state == if st == W.Done then Disabled else old(state)
    {
      var warned;
      st, warned := Transition(Disabled);
    }

    method Close() returns (st: W.Status)
      modifies this
      ensures st == W.Done <==> old(state) in {Initial, Started, Enabled, Disabled}
      ensures state == if st == W.Done then Closed else old(state)
    {
      var warned;
      st, warned := Transition(Closed);
    }
  }
}
