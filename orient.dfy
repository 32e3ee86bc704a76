/** Model of core/orient.py: the `Speed` ladder with its `get_slower_than`
  * lookup, and the eight `Cardinal` headings with
  * `get_heading_from_degrees`. Floats are modelled as reals. */
module Orient {
  // ------------------------------------------------------------------ Speed

  datatype Speed = Stop | DeadSlow | Slow | Half | TwoThirds | ThreeQuarter | Full | Emergency | Maximum

  /** The number in each speed's definition tuple. */
  function Number(s: Speed): nat {
    match s
    case Stop => 1
    case DeadSlow => 2
    case Slow => 3
    case Half => 4
    case TwoThirds => 5
    case ThreeQuarter => 6
    case Full => 7
    case Emergency => 8
    case Maximum => 9
  }

  /** The speed value in each definition tuple. */
  function Value(s: Speed): real {
    match s
    case Stop => 0.0
    case DeadSlow => 20.0
    case Slow => 30.0
    case Half => 50.0
    case TwoThirds => 66.7
    case ThreeQuarter => 75.0
    case Full => 90.0
    case Emergency => 100.0
    case Maximum => 100.000001
  }

  /** The speeds `get_slower_than` chooses from. */
  predicate OnLadder(s: Speed) {
    Number(s) <= Number(Full)
  }

  /** `get_slower_than(speed)`: the fastest speed from STOP up to FULL
    * whose value does not exceed `speed`, and STOP below DEAD_SLOW. */
  function SlowerThan(speed: real): (r: Speed)
    ensures OnLadder(r)
    ensures speed < Value(DeadSlow) ==> r == Stop
    ensures speed >= Value(Full) ==> r == Full
    ensures r != Stop ==> Value(r) <= speed
    ensures forall s :: OnLadder(s) && Value(s) <= speed ==> Value(s) <= Value(r)
  {
    if speed < Value(DeadSlow) then Stop
    else if speed < Value(Slow) then DeadSlow
    else if speed < Value(Half) then Slow
    else if speed < Value(TwoThirds) then Half
    else if speed < Value(ThreeQuarter) then TwoThirds
    else if speed < Value(Full) then ThreeQuarter
    else Full
  }

  /** Along the ladder a larger number is a larger value. */
  lemma NumberOrdersValue(s: Speed, t: Speed)
    ensures Number(s) < Number(t) <==> Value(s) < Value(t)
  {
  }

  /** A larger input never yields a slower speed. */
  lemma SlowerThanMonotone(a: real, b: real)
    requires a <= b
    ensures Number(SlowerThan(a)) <= Number(SlowerThan(b))
  {
    var sa, sb := SlowerThan(a), SlowerThan(b);
    if sa != Stop {
      assert Value(sa) <= Value(sb);
      NumberOrdersValue(sb, sa);
    }
  }

  // --------------------------------------------------------------- Cardinal

  datatype Cardinal = North | NorthEast | East | SouthEast | South | SouthWest | West | NorthWest

  /** The `_array` of `get_heading_from_degrees`, in order of the cardinal
    * numbers. */
  const Cardinals: seq<Cardinal> := [North, NorthEast, East, SouthEast, South, SouthWest, West, NorthWest]

  /** Python's `round` on a float: to the nearest integer, halves to the
    * even neighbour. */
  function Round(x: real): (r: int)
    ensures x - 0.5 <= r as real <= x + 0.5
    ensures r as real == x - 0.5 || r as real == x + 0.5 ==> r % 2 == 0
  {
    var f := x.Floor;
    var frac := x - f as real;
    if frac < 0.5 then f
    else if frac > 0.5 then f + 1
    else if f % 2 == 0 then f
    else f + 1
  }

  /** `get_heading_from_degrees(degrees)` as written: the index is
    * `round(degrees / 45 + 0.5)` taken modulo 8. */
  function HeadingAsWritten(degrees: real): (r: Cardinal)
    ensures r in Cardinals
  {
    Cardinals[Round(degrees / 45.0 + 0.5) % 8]
  }

  /** Since `round` already rounds to the nearest integer, the added half
    * shifts every sector by half its width: strictly between `45(k-1)` and
    * `45k` degrees the heading is the k-th cardinal. */
  lemma HeadingAsWrittenSector(degrees: real, k: int)
    requires 45.0 * (k - 1) as real < degrees < 45.0 * k as real
    ensures HeadingAsWritten(degrees) == Cardinals[k % 8]
  {
    var x := degrees / 45.0 + 0.5;
    assert (k as real) - 0.5 < x < (k as real) + 0.5;
    assert Round(x) == k;
  }

  /** The heading to the nearest cardinal, rounding half a sector upwards
    * as `int(degrees / 45 + 0.5)` would for positive headings. */
  function Heading(degrees: real): (r: Cardinal)
    ensures r in Cardinals
  {
    Cardinals[(degrees / 45.0 + 0.5).Floor % 8]
  }

  /** Within 22.5 degrees either side of `45k` degrees (the upper edge
    * excluded) the heading is the k-th cardinal. */
  lemma HeadingSector(degrees: real, k: int)
    requires 45.0 * k as real - 22.5 <= degrees < 45.0 * k as real + 22.5
    ensures Heading(degrees) == Cardinals[k % 8]
  {
    var x := degrees / 45.0 + 0.5;
    assert k as real <= x < (k + 1) as real;
  }

  /** Ten degrees off north: the code as written heads north-east, the
    * nearest cardinal is north. */
  lemma HeadingAsWrittenShifted()
    ensures HeadingAsWritten(10.0) == NorthEast
    ensures Heading(10.0) == North
  {
    HeadingAsWrittenSector(10.0, 1);
    HeadingSector(10.0, 0);
  }
}
