/** Model of core/message.py: a message carries an event, a map from each
  * expected subscriber to its acknowledgement flag, the set of processors
  * that have processed it, and expired / garbage-collected / saved state.
  * Subscribers and processors are object identities (Python dict keys
  * without `__eq__`), so the class is generic in their type `S`. */
module Messages {
  import opened Wrappers
  import Events

  /** Maximum message age in milliseconds (core/message_bus.py). */
  const MaxAgeMs: int := 20

  /** The subscribers whose acknowledgement flag is still false. */
  function Unacked<S>(acks: map<S, bool>): set<S> {
    set s | s in acks.Keys && !acks[s]
  }

  /** `acknowledged_by`: registered and flagged true. */
  predicate AckedBy<S>(acks: map<S, bool>, s: S) {
    s in acks && acks[s]
  }

  /** `fully_acknowledged`: no flag is false (vacuously true when empty). */
  predicate FullyAcked<S>(acks: map<S, bool>) {
    forall s :: s in acks ==> acks[s]
  }

  lemma FullyAckedIffNoneUnacked<S>(acks: map<S, bool>)
    ensures FullyAcked(acks) <==> Unacked(acks) == {}
  {
    if !FullyAcked(acks) {
      var s :| s in acks && !acks[s];
      assert s in Unacked(acks);
    }
  }

  /** One call of `acknowledge(s)` on the flag map `acks`: the new map and
    * whether it raised. */
  function AckStep<S>(acks: map<S, bool>, s: S): (r: (map<S, bool>, Status))
    ensures |acks| == 0 ==> r == (acks, Raised(PlainException))
    ensures |acks| > 0 && s !in acks ==> r == (acks, Raised(KeyError))
    ensures s in acks ==> r.1 == Done && r.0 == acks[s := true]
    ensures r.0.Keys == acks.Keys
  {
    if |acks| == 0 then (acks, Raised(PlainException))
    else if s !in acks then (acks, Raised(KeyError))
    else if acks[s] then (acks, Done)
    else (acks[s := true], Done)
  }

  /** A successful acknowledgement makes `acknowledged_by` true. */
  lemma AckStepAcknowledges<S>(acks: map<S, bool>, s: S)
    ensures AckStep(acks, s).1 == Done <==> s in acks
    ensures AckStep(acks, s).1 == Done ==> AckedBy(AckStep(acks, s).0, s)
  {
  }

  /** Acknowledging twice is a no-op: the second call changes nothing. */
  lemma AckStepIdempotent<S>(acks: map<S, bool>, s: S)
    ensures AckStep(AckStep(acks, s).0, s) == AckStep(acks, s)
  {
  }

  /** Acknowledging an already acknowledged subscriber keeps every flag,
    * so no count changes. */
  lemma AckAgainKeepsCount<S>(acks: map<S, bool>, s: S)
    requires AckedBy(acks, s)
    ensures AckStep(acks, s) == (acks, Done)
    ensures |Unacked(AckStep(acks, s).0)| == |Unacked(acks)|
  {
  }

  /** Acknowledging a registered, not yet acknowledged subscriber removes it
    * from the unacknowledged set and lowers the count by exactly one; the
    * other flags are untouched. */
  lemma AckFreshLowersCount<S>(acks: map<S, bool>, s: S)
    requires s in acks && !acks[s]
    ensures Unacked(AckStep(acks, s).0) == Unacked(acks) - {s}
    ensures |Unacked(AckStep(acks, s).0)| == |Unacked(acks)| - 1
    ensures forall t :: t in acks && t != s ==> AckStep(acks, s).0[t] == acks[t]
  {
    var after := AckStep(acks, s).0;
    assert after == acks[s := true];
    assert Unacked(after) == Unacked(acks) - {s};
    assert s in Unacked(acks);
  }

  /** One call of `process(p)`: a processor processes a message at most once. */
  function ProcessStep<S>(procs: set<S>, p: S): (r: (set<S>, Status))
    ensures p in procs ==> r == (procs, Raised(PlainException))
    ensures p !in procs ==> r.1 == Done && r.0 == procs + {p} && |r.0| == |procs| + 1
  {
    if p in procs then (procs, Raised(PlainException)) else (procs + {p}, Done)
  }

  /** The processor set after a sequence of `process` calls, and how many
    * of those calls raised. */
  function ProcessAll<S>(procs: set<S>, calls: seq<S>): (set<S>, nat)
    decreases |calls|
  {
    if calls == [] then (procs, 0)
    else
      var step := ProcessStep(procs, calls[0]);
      var rest := ProcessAll(step.0, calls[1..]);
      (rest.0, rest.1 + (if step.1 == Done then 0 else 1))
  }

  /** `processed` counts distinct processors: after any sequence of calls
    * the set holds exactly the processors that called, and every call
    * either added one new processor or raised. */
  lemma {:induction false} ProcessAllCountsDistinct<S>(procs: set<S>, calls: seq<S>)
    ensures ProcessAll(procs, calls).0 == procs + set c | c in calls
    ensures |ProcessAll(procs, calls).0| + ProcessAll(procs, calls).1 == |procs| + |calls|
    decreases |calls|
  {
    if calls != [] {
      var step := ProcessStep(procs, calls[0]);
      ProcessAllCountsDistinct(step.0, calls[1..]);
      assert (set c | c in calls) == {calls[0]} + set c | c in calls[1..];
    }
  }

  class Message<S(==)> {
    const event: Events.Event
    /** Creation time in milliseconds on the caller's clock. */
    const timestamp: int
    var saved: nat
    var expired: bool
    var gcd: bool
    var processors: set<S>
    var subscribers: map<S, bool>

    constructor (event: Events.Event, now: int)
      ensures this.event == event && timestamp == now
      ensures saved == 0 && !expired && !gcd
      ensures processors == {} && subscribers == map[]
    {
      this.event := event;
      timestamp := now;
      saved := 0;
      expired := false;
      gcd := false;
      processors := {};
      subscribers := map[];
    }

    /** `set_subscribers`: each listed subscriber gets a false flag, which
      * also resets one that had already acknowledged. */
    method SetSubscribers(subs: seq<S>)
      modifies this
      ensures subscribers == old(subscribers) + map s | s in subs :: false
      ensures forall s :: s in subs ==> s in Unacked(subscribers)
      ensures processors == old(processors) && saved == old(saved)
      ensures expired == old(expired) && gcd == old(gcd)
    {
      for i := 0 to |subs|
        invariant subscribers == old(subscribers) + map s | s in subs[..i] :: false
        invariant processors == old(processors) && saved == old(saved)
        invariant expired == old(expired) && gcd == old(gcd)
      {
        assert subs[..i + 1] == subs[..i] + [subs[i]];
        subscribers := subscribers[subs[i] := false];
      }
      assert subs[..|subs|] == subs;
    }

    /** `age` in milliseconds at time `now`. */
    function Age(now: int): (r: int)
      reads this
      ensures timestamp + r == now
      ensures timestamp <= now ==> 0 <= r
    {
      now - timestamp
    }

    /** `processed`. */
    function Processed(): (r: nat)
      reads this
      ensures r == |processors| && (r == 0 <==> processors == {})
    {
      |processors|
    }

    method Process(p: S) returns (st: Status)
      modifies this
      ensures (processors, st) == ProcessStep(old(processors), p)
      ensures subscribers == old(subscribers) && saved == old(saved)
      ensures expired == old(expired) && gcd == old(gcd)
    {
      if p in processors {
        st := Raised(PlainException);
      } else {
        processors := processors + {p};
        st := Done;
      }
    }

    method Expire()
      modifies this
      ensures expired
      ensures subscribers == old(subscribers) && processors == old(processors)
      ensures saved == old(saved) && gcd == old(gcd)
    {
      expired := true;
    }

    /** `gc`: sets the flag; a second call raises and leaves it set. */
    method Gc() returns (st: Status)
      modifies this
      ensures gcd
      ensures st == (if old(gcd) then Raised(PlainException) else Done)
      ensures subscribers == old(subscribers) && processors == old(processors)
      ensures saved == old(saved) && expired == old(expired)
    {
      if gcd {
        st := Raised(PlainException);
      } else {
        gcd := true;
        st := Done;
      }
    }

    method Save()
      modifies this
      ensures saved == old(saved) + 1
      ensures subscribers == old(subscribers) && processors == old(processors)
      ensures expired == old(expired) && gcd == old(gcd)
    {
      saved := saved + 1;
    }

    /** `unacknowledged_count`: scans every subscriber once. */
    method UnacknowledgedCount() returns (count: nat)
      ensures count == |Unacked(subscribers)|
    {
      count := 0;
      var remaining := subscribers.Keys;
      while remaining != {}
        invariant remaining <= subscribers.Keys
        invariant count == |Unacked(subscribers) - remaining|
        decreases remaining
      {
        var s :| s in remaining;
        ghost var before := Unacked(subscribers) - remaining;
        if !subscribers[s] {
          assert Unacked(subscribers) - (remaining - {s}) == before + {s};
          assert s !in before;
          count := count + 1;
        } else {
          assert Unacked(subscribers) - (remaining - {s}) == before;
        }
        remaining := remaining - {s};
      }
      assert Unacked(subscribers) - {} == Unacked(subscribers);
    }

    /** `fully_acknowledged`: returns false at the first false flag. */
    method FullyAcknowledged() returns (r: bool)
      ensures r <==> FullyAcked(subscribers)
      ensures r <==> Unacked(subscribers) == {}
    {
      FullyAckedIffNoneUnacked(subscribers);
      var remaining := subscribers.Keys;
      while remaining != {}
        invariant remaining <= subscribers.Keys
        invariant forall s :: s in subscribers && s !in remaining ==> subscribers[s]
        decreases remaining
      {
        var s :| s in remaining;
        if !subscribers[s] {
          return false;
        }
        remaining := remaining - {s};
      }
      return true;
    }

    /** `acknowledged_by`: looks for `subscriber` among the keys. */
    method AcknowledgedBy(subscriber: S) returns (r: bool)
      ensures r <==> AckedBy(subscribers, subscriber)
    {
      var remaining := subscribers.Keys;
      while remaining != {}
        invariant remaining <= subscribers.Keys
        invariant subscriber in subscribers && subscriber !in remaining ==> !subscribers[subscriber]
        decreases remaining
      {
        var s :| s in remaining;
        if s == subscriber && subscribers[subscriber] {
          return true;
        }
        remaining := remaining - {s};
      }
      return false;
    }

    /** `acknowledge`: raises when no subscribers were set or when the
      * subscriber is not registered; otherwise sets its flag. */
    method Acknowledge(subscriber: S) returns (st: Status)
      modifies this
      ensures (subscribers, st) == AckStep(old(subscribers), subscriber)
      ensures processors == old(processors) && saved == old(saved)
      ensures expired == old(expired) && gcd == old(gcd)
    {
      if |subscribers| == 0 {
        st := Raised(PlainException);
      } else if subscriber !in subscribers {
        st := Raised(KeyError);
      } else if subscribers[subscriber] {
        st := Done;
      } else {
        subscribers := subscribers[subscriber := true];
        st := Done;
      }
    }
  }
}
