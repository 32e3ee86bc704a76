/** Model of upy/debouncer.py: a debouncer over a boolean reading, keeping
  * the debounced value, the last raw (unstable) reading and a changed
  * flag as three bits of one state byte. The clock and the predicate are
  * parameters: each update is handed the current time and the reading. */
module Debouncers {
  const DebouncedState: bv8 := 0x01
  const UnstableState: bv8 := 0x02
  const ChangedState: bv8 := 0x04
  /** The bits the state never uses. */
  const UnusedBits: bv8 := 0xF8

  /** `_get_state(bits)`. */
  predicate Has(state: bv8, bits: bv8) {
    state & bits != 0
  }

  /** The fields one update reads and writes. */
  datatype Snapshot = Snapshot(state: bv8, lastBounce: real, lastDuration: real, changedAt: real)

  /** One `update()` at time `now` with raw reading `reading`: CHANGED is
    * cleared; a reading that differs from UNSTABLE toggles UNSTABLE and
    * restarts the bounce timer; a reading that agrees with UNSTABLE, held
    * for at least `interval` and different from DEBOUNCED, toggles
    * DEBOUNCED, sets CHANGED and records the durations. */
  function Step(s: Snapshot, interval: real, now: real, reading: bool): (r: Snapshot)
    ensures Has(r.state, UnstableState) == reading
    ensures !Has(r.state, ChangedState) ==> Has(r.state, DebouncedState) == Has(s.state, DebouncedState)
    ensures Has(r.state, ChangedState) <==> Has(r.state, DebouncedState) != Has(s.state, DebouncedState)
    ensures reading != Has(s.state, UnstableState) ==>
              !Has(r.state, ChangedState) && r.lastBounce == now
              && r.lastDuration == s.lastDuration && r.changedAt == s.changedAt
    ensures Has(r.state, ChangedState) ==>
              reading == Has(s.state, UnstableState) && now - s.lastBounce >= interval
              && Has(r.state, DebouncedState) == reading
              && r.lastBounce == now && r.lastDuration == now - s.changedAt && r.changedAt == now
    ensures reading == Has(s.state, UnstableState) && now - s.lastBounce >= interval ==>
              Has(r.state, DebouncedState) == reading
    ensures r.state & UnusedBits == s.state & UnusedBits
  {
    var st := s.state & !ChangedState;
    if reading != Has(st, UnstableState) then
      Snapshot(st ^ UnstableState, now, s.lastDuration, s.changedAt)
    else if now - s.lastBounce >= interval && reading != Has(st, DebouncedState) then
      Snapshot((st ^ DebouncedState) | ChangedState, now, now - s.changedAt, now)
    else
      s.(state := st)
  }

  /** The debounced value follows a reading held steady: two updates with
    * the same reading, at least `interval` apart and not before the last
    * bounce, leave that reading as the debounced value. */
  lemma SettlesAfterInterval(s: Snapshot, interval: real, t1: real, t2: real, reading: bool)
    requires s.lastBounce <= t1 <= t2 && t2 - t1 >= interval
    ensures Has(Step(Step(s, interval, t1, reading), interval, t2, reading).state, DebouncedState) == reading
  {
    var s1 := Step(s, interval, t1, reading);
    assert s1.lastBounce == s.lastBounce || s1.lastBounce == t1;
  }

  /** A reading that keeps bouncing never changes the debounced value:
    * alternating readings, each differing from the last, only toggle
    * UNSTABLE. */
  lemma BouncingKeepsValue(s: Snapshot, interval: real, now: real)
    ensures var r := Step(s, interval, now, !Has(s.state, UnstableState));
            Has(r.state, DebouncedState) == Has(s.state, DebouncedState) && !Has(r.state, ChangedState)
  {
  }

  class Debouncer {
    var state: bv8
    var lastBounce: real
    var lastDuration: real
    var changedAt: real
    var interval: real

    function Snap(): Snapshot
      reads this
    {
      Snapshot(state, lastBounce, lastDuration, changedAt)
    }

    /** Only the three state bits are ever set. */
    predicate Valid()
      reads this
    {
      state & UnusedBits == 0
    }

    /** The predicate is read once: a true reading starts both DEBOUNCED
      * and UNSTABLE set, a false one starts with no bit set. */
    constructor (initial: bool, interval: real)
      ensures Valid()
      ensures Has(state, DebouncedState) == initial && Has(state, UnstableState) == initial
      ensures !Has(state, ChangedState)
      ensures lastBounce == 0.0 && lastDuration == 0.0 && changedAt == 0.0
      ensures this.interval == interval
    {
      state := 0x00;
      new;
      if initial {
        SetState(DebouncedState | UnstableState);
      }
      lastBounce := 0.0;
      lastDuration := 0.0;
      changedAt := 0.0;
      this.interval := interval;
    }

    /** `_set_state`. */
    method SetState(bits: bv8)
      modifies this
      ensures state == old(state) | bits
      ensures forall b: bv8 :: Has(old(state), b) ==> Has(state, b)
      ensures lastBounce == old(lastBounce) && lastDuration == old(lastDuration)
      ensures changedAt == old(changedAt) && interval == old(interval)
    {
      state := state | bits;
    }

    /** `update()`, with time and reading passed in. */
    method Update(now: real, reading: bool)
      requires Valid()
      modifies this
      ensures Valid()
      ensures Snap() == Step(old(Snap()), interval, now, reading)
      ensures interval == old(interval)
    {
      state := state & !ChangedState;
      var currentState := reading;
      if currentState != Has(state, UnstableState) {
        lastBounce := now;
        state := state ^ UnstableState;
      } else {
        if now - lastBounce >= interval {
          if currentState != Has(state, DebouncedState) {
            lastBounce := now;
            state := state ^ DebouncedState;
            state := state | ChangedState;
            lastDuration := now - changedAt;
            changedAt := now;
          }
        }
      }
    }

    /** `value`: the debounced reading. */
    function Value(): (r: bool)
      reads this
      ensures r <==> Has(state, DebouncedState)
    {
      Has(state, DebouncedState)
    }

    /** `rose`: the last update changed the value to true. */
    function Rose(): (r: bool)
      reads this
      ensures r <==> Value() && Has(state, ChangedState)
      ensures r ==> !Fell()
    {
      Has(state, DebouncedState) && Has(state, ChangedState)
    }

    /** `fell`: the last update changed the value to false. */
    function Fell(): (r: bool)
      reads this
      ensures r <==> !Value() && Has(state, ChangedState)
    {
      !Has(state, DebouncedState) && Has(state, ChangedState)
    }

    /** `current_duration`: time since the last change, at `now`. */
    function CurrentDuration(now: real): (r: real)
      reads this
      ensures changedAt + r == now
      ensures changedAt <= now ==> 0.0 <= r
    {
      now - changedAt
    }
  }

  /** An edge is reported exactly when an update changes the value: after
    * `Update`, `rose` holds iff the value went from false to true and
    * `fell` iff it went from true to false. */
  method UpdateReportsEdges(d: Debouncer, now: real, reading: bool) returns (rose: bool, fell: bool)
    requires d.Valid()
    modifies d
    ensures rose <==> !old(d.Value()) && d.Value()
    ensures fell <==> old(d.Value()) && !d.Value()
    ensures !(rose && fell)
  {
    d.Update(now, reading);
    rose := d.Rose();
    fell := d.Fell();
  }
}
