/** The static helpers of `core/util.py`: truthiness of configuration
  * values, string repeat and ellipsis, range remapping, clipping and the
  * binary/decimal conversions. Floats are modelled as reals. */
module Util {
  import opened Wrappers
  import opened PyValues

  // ---------------------------------------------------------------- is_true

  /** Lower-case mapping of a character, for the ASCII letters. */
  function AsciiLower(c: char): char {
    if 'A' <= c <= 'Z' then (c as int + 32) as char else c
  }

  /** `str.lower()` restricted to the ASCII letters. */
  function Lower(s: string): (r: string)
    ensures |r| == |s|
    ensures forall k :: 0 <= k < |s| ==> r[k] == AsciiLower(s[k])
  {
    if s == [] then [] else [AsciiLower(s[0])] + Lower(s[1..])
  }

  /** Upper-case mapping of a character, for the ASCII letters. */
  function AsciiUpper(c: char): char {
    if 'a' <= c <= 'z' then (c as int - 32) as char else c
  }

  /** `str.upper()` restricted to the ASCII letters. */
  function Upper(s: string): (r: string)
    ensures |r| == |s|
    ensures forall k :: 0 <= k < |s| ==> r[k] == AsciiUpper(s[k])
  {
    if s == [] then [] else [AsciiUpper(s[0])] + Upper(s[1..])
  }

  /** `a` and `b` spell the same word when case is ignored. */
  predicate SameIgnoringCase(a: string, b: string) {
    |a| == |b| && forall k :: 0 <= k < |a| ==> AsciiLower(a[k]) == AsciiLower(b[k])
  }

  lemma LowerMatches(s: string, w: string)
    requires forall k :: 0 <= k < |w| ==> AsciiLower(w[k]) == w[k]
    ensures Lower(s) == w <==> SameIgnoringCase(s, w)
  {
    if SameIgnoringCase(s, w) {
      assert forall k :: 0 <= k < |w| ==> Lower(s)[k] == w[k];
    }
  }

  /** Strings equal up to case have the same upper-case form. */
  lemma UpperIgnoresCase(a: string, b: string)
    requires SameIgnoringCase(a, b)
    ensures Upper(a) == Upper(b)
  {
    forall k | 0 <= k < |a| ensures Upper(a)[k] == Upper(b)[k] {
      UpperOfSameLower(a[k], b[k]);
    }
  }

  lemma UpperOfSameLower(c: char, d: char)
    requires AsciiLower(c) == AsciiLower(d)
    ensures AsciiUpper(c) == AsciiUpper(d)
  {
  }

  /** `Util.is_true`: an integer 1 (True counts, being an int) or one of the
    * words "1", "y", "yes", "true" in any case; false for a falsy value. */
  function IsTrue(v: PyValue): (r: bool)
    ensures r <==> (v == PInt(1) || v == PBool(true) ||
                    (v.PStr? && (SameIgnoringCase(v.s, "1") || SameIgnoringCase(v.s, "y") ||
                                 SameIgnoringCase(v.s, "yes") || SameIgnoringCase(v.s, "true"))))
    ensures !Truthy(v) ==> !r
  {
    if Truthy(v) then
      match v
      case PBool(b) => b
      case PInt(i) => i == 1
      case PStr(s) =>
        LowerMatches(s, "1"); LowerMatches(s, "y"); LowerMatches(s, "yes"); LowerMatches(s, "true");
        var w := Lower(s);
        w == "1" || w == "y" || w == "yes" || w == "true"
      case PNone => false
    else
      false
  }

  // ------------------------------------------------------- Python slicing

  /** `s[:stop]` with Python's reading of a negative or too large stop. */
  function SliceTo(s: string, stop: int): (r: string)
    ensures stop >= 0 ==> r == s[..if stop < |s| then stop else |s|]
    ensures stop < 0 ==> r == s[..if |s| + stop > 0 then |s| + stop else 0]
  {
    if stop >= 0 then s[..if stop < |s| then stop else |s|]
    else s[..if |s| + stop > 0 then |s| + stop else 0]
  }

  /** `s * k`: the empty string for k <= 0. */
  function Times(s: string, k: int): string {
    if k <= 0 then [] else s + Times(s, k - 1)
  }

  lemma {:induction false} TimesAt(s: string, k: nat, i: int)
    requires s != [] && 0 <= i < k * |s|
    ensures |Times(s, k)| == k * |s|
    ensures Times(s, k)[i] == s[i % |s|]
  {
    var L := |s|;
    TimesLength(s, k);
    TimesLength(s, k - 1);
    assert k * L == L + (k - 1) * L;
    if i < L {
      ModUnique(i, L, 0, i);
    } else {
      TimesAt(s, k - 1, i - L);
      ModUnique(i, L, (i - L) / L + 1, (i - L) % L);
    }
  }

  /** The remainder is determined by any decomposition `i = q * L + r`. */
  lemma ModUnique(i: int, L: int, q: int, r: int)
    requires L > 0 && 0 <= r < L && i == q * L + r
    ensures i % L == r
  {
    var q', r' := i / L, i % L;
    assert i == q' * L + r';
    assert (q - q') * L == r' - r;
    if q' != q {
      MulMagnitude(q - q', L);
    }
  }

  lemma MulMagnitude(x: int, L: int)
    requires L > 0 && x != 0
    ensures x * L >= L || x * L <= -L
  {
  }

  lemma {:induction false} TimesLength(s: string, k: nat)
    ensures |Times(s, k)| == k * |s|
  {
    if k > 0 { TimesLength(s, k - 1); }
  }

  // ------------------------------------------------------------------ repeat

  /** `Util.repeat`: `s` repeated cyclically up to `n` characters; the
    * integer division by `len(s)` raises for the empty string. */
  function Repeat(s: string, n: int): (r: Result<string>)
    ensures s == [] <==> r == Err(ZeroDivisionError)
    ensures s != [] && n >= 0 ==>
      r.Ok? && |r.value| == n && forall i :: 0 <= i < n ==> r.value[i] == s[i % |s|]
    ensures s != [] && n < 0 ==> r == Ok([])
  {
    if s == [] then Err(ZeroDivisionError)
    else
      var k := n / |s| + 1;
      var t := Times(s, k);
      if n >= 0 then
        assert n < k * |s| by { assert n == (n / |s|) * |s| + n % |s|; }
        TimesLength(s, k);
        forall i | 0 <= i < n ensures SliceTo(t, n)[i] == s[i % |s|] { TimesAt(s, k, i); }
        Ok(SliceTo(t, n))
      else
        Ok(SliceTo(t, n))
  }

  // ---------------------------------------------------------------- ellipsis

  const Ellipsis: char := '…'

  /** `Util.ellipsis`: a string shorter than `maxLength` is kept; otherwise
    * it is cut to `maxLength - 1` characters (with Python's negative stop
    * when `maxLength < 1`) and an ellipsis character is appended. */
  function Abbreviate(s: string, maxLength: int): (r: string)
    ensures |s| < maxLength ==> r == s
    ensures 1 <= maxLength <= |s| ==> |r| == maxLength && r == s[..maxLength - 1] + [Ellipsis]
    ensures maxLength < 1 ==>
      |r| == 1 + (if |s| + maxLength - 1 > 0 then |s| + maxLength - 1 else 0) &&
      r[|r| - 1] == Ellipsis && r[..|r| - 1] == s[..|r| - 1]
  {
    if |s| < maxLength then s else SliceTo(s, maxLength - 1) + [Ellipsis]
  }

  // ------------------------------------------------------------ remap_range

  /** `Util.remap_range`: raises for an empty input or output range; the
    * reversed input and output ranges are handled by separate branches. */
  function RemapRange(value: real, inMin: real, inMax: real, outMin: real, outMax: real): (r: Result<real>)
    ensures r.Err? <==> inMin == inMax || outMin == outMax
    ensures r.Err? ==> r.error == ValueError
  {
    if inMin == inMax then Err(ValueError)
    else if outMin == outMax then Err(ValueError)
    else
      var oldMin := if inMin < inMax then inMin else inMax;
      var oldMax := if inMin < inMax then inMax else inMin;
      var newMin := if outMin < outMax then outMin else outMax;
      var newMax := if outMin < outMax then outMax else outMin;
      var portion :=
        if oldMin != inMin then (oldMax - value) * (newMax - newMin) / (oldMax - oldMin)
        else (value - oldMin) * (newMax - newMin) / (oldMax - oldMin);
      Ok(if newMin != outMin then newMax - portion else portion + newMin)
  }

  /** Whatever the orientation of the two ranges, the result is the affine
    * map sending `inMin` to `outMin` and `inMax` to `outMax`. */
  lemma RemapRangeIsAffine(value: real, inMin: real, inMax: real, outMin: real, outMax: real)
    requires inMin != inMax && outMin != outMax
    ensures RemapRange(value, inMin, inMax, outMin, outMax).Ok?
    ensures RemapRange(value, inMin, inMax, outMin, outMax).value
         == outMin + (value - inMin) * (outMax - outMin) / (inMax - inMin)
  {
    if inMin < inMax {
      if outMin < outMax { RemapForward(value, inMin, inMax, outMin, outMax); }
      else { RemapOutputReversed(value, inMin, inMax, outMin, outMax); }
    } else {
      if outMin < outMax { RemapInputReversed(value, inMin, inMax, outMin, outMax); }
      else { RemapBothReversed(value, inMin, inMax, outMin, outMax); }
    }
  }

  lemma RemapForward(value: real, inMin: real, inMax: real, outMin: real, outMax: real)
    requires inMin < inMax && outMin < outMax
    ensures RemapRange(value, inMin, inMax, outMin, outMax).Ok?
    ensures RemapRange(value, inMin, inMax, outMin, outMax).value
         == outMin + (value - inMin) * (outMax - outMin) / (inMax - inMin)
  {
  }

  lemma RemapOutputReversed(value: real, inMin: real, inMax: real, outMin: real, outMax: real)
    requires inMin < inMax && outMax < outMin
    ensures RemapRange(value, inMin, inMax, outMin, outMax).Ok?
    ensures RemapRange(value, inMin, inMax, outMin, outMax).value
         == outMin + (value - inMin) * (outMax - outMin) / (inMax - inMin)
  {
    var a, w, d := value - inMin, inMax - inMin, outMax - outMin;
    assert RemapRange(value, inMin, inMax, outMin, outMax).value == outMin - a * (-d) / w;
    NegatedQuotient(a * d, w);
    assert a * (-d) == -(a * d);
  }

  lemma RemapInputReversed(value: real, inMin: real, inMax: real, outMin: real, outMax: real)
    requires inMax < inMin && outMin < outMax
    ensures RemapRange(value, inMin, inMax, outMin, outMax).Ok?
    ensures RemapRange(value, inMin, inMax, outMin, outMax).value
         == outMin + (value - inMin) * (outMax - outMin) / (inMax - inMin)
  {
    var a, w, d := value - inMin, inMax - inMin, outMax - outMin;
    assert RemapRange(value, inMin, inMax, outMin, outMax).value == (-a) * d / (-w) + outMin;
    NegatedQuotient(a * d, w);
    assert (-a) * d == -(a * d);
  }

  lemma RemapBothReversed(value: real, inMin: real, inMax: real, outMin: real, outMax: real)
    requires inMax < inMin && outMax < outMin
    ensures RemapRange(value, inMin, inMax, outMin, outMax).Ok?
    ensures RemapRange(value, inMin, inMax, outMin, outMax).value
         == outMin + (value - inMin) * (outMax - outMin) / (inMax - inMin)
  {
    var a, w, d := value - inMin, inMax - inMin, outMax - outMin;
    assert RemapRange(value, inMin, inMax, outMin, outMax).value == outMin - (-a) * (-d) / (-w);
    NegatedQuotient(a * d, w);
    assert (-a) * (-d) == a * d;
  }

  lemma NegatedQuotient(x: real, w: real)
    requires w != 0.0
    ensures (-x) / w == -(x / w) && x / (-w) == -(x / w) && (-x) / (-w) == x / w
  {
  }

  lemma RemapRangeEndpoints(inMin: real, inMax: real, outMin: real, outMax: real)
    requires inMin != inMax && outMin != outMax
    ensures RemapRange(inMin, inMin, inMax, outMin, outMax).Ok?
    ensures RemapRange(inMin, inMin, inMax, outMin, outMax).value == outMin
    ensures RemapRange(inMax, inMin, inMax, outMin, outMax).value == outMax
  {
    RemapRangeIsAffine(inMin, inMin, inMax, outMin, outMax);
    RemapRangeIsAffine(inMax, inMin, inMax, outMin, outMax);
    var w, d := inMax - inMin, outMax - outMin;
    assert (inMin - inMin) * d / w == 0.0 by { assert inMin - inMin == 0.0; }
    assert (inMax - inMin) * d / w == d by { MulDivCancel(d, w); assert (inMax - inMin) * d == d * w; }
  }

  lemma MulDivCancel(x: real, w: real)
    requires w != 0.0
    ensures x * w / w == x
  {
  }

  // -------------------------------------------------------------------- clip

  /** `Util.clip`, the replacement for numpy's clip. */
  function Clip(value: real, lo: real, hi: real): (r: real)
    ensures lo <= hi ==> lo <= r <= hi
    ensures lo < value < hi ==> r == value
    ensures value <= lo ==> r == lo
    ensures lo < value && hi <= value ==> r == hi
  {
    if value <= lo then lo else if value >= hi then hi else value
  }

  // ------------------------------------------------------ to_bin / to_decimal

  /** Binary digits of `n`, most significant first, without leading zeros. */
  function Bits(n: nat): (r: string)
    ensures r != [] && IsBinary(r)
  {
    if n < 2 then [if n == 0 then '0' else '1']
    else Bits(n / 2) + [if n % 2 == 0 then '0' else '1']
  }

  function Zeros(k: nat): (r: string)
    ensures |r| == k && forall j :: 0 <= j < k ==> r[j] == '0'
  {
    if k == 0 then [] else Zeros(k - 1) + ['0']
  }

  /** `'{:0Wb}'`: zero-padded on the left to at least `width` digits. */
  function ZeroPad(s: string, width: nat): (r: string)
    ensures |r| >= width && |r| >= |s|
    ensures IsBinary(s) ==> IsBinary(r)
  {
    if |s| < width then Zeros(width - |s|) + s else s
  }

  /** `Util.to_bin`: `'{0:08b}'.format(decimal)`; a negative number keeps
    * its sign in front of seven or more digits. */
  function ToBin(decimal: int): (r: string)
    ensures decimal >= 0 ==> |r| >= 8 && AllDigits(r) && IsBinary(r)
    ensures decimal < 0 ==> |r| >= 8 && r[0] == '-' && !AllDigits(r) && IsBinary(r[1..])
  {
    if decimal >= 0 then
      BitsValue(decimal);
      ZeroPadDigits(Bits(decimal), 8);
      ZeroPad(Bits(decimal), 8)
    else
      "-" + ZeroPad(Bits(-decimal), 7)
  }

  /** Every character is a binary digit. */
  predicate IsBinary(s: string) {
    forall k :: 0 <= k < |s| ==> s[k] == '0' || s[k] == '1'
  }

  predicate AllDigits(s: string) {
    forall k :: 0 <= k < |s| ==> '0' <= s[k] <= '9'
  }

  /** The positional base-2 value of a digit string: each character counts
    * `int(c)` times its place value, so digits above 1 are accepted. */
  function PositionalValue(s: string): nat
    requires AllDigits(s)
  {
    if s == [] then 0
    else 2 * PositionalValue(s[..|s| - 1]) + (s[|s| - 1] as int - '0' as int)
  }

  /** `Util.to_decimal`: the loop weighs each character by the power of two
    * of its remaining place; `int(c)` raises for a non-digit. */
  method ToDecimal(binary: string) returns (r: Result<int>)
    ensures AllDigits(binary) ==> r == Ok(PositionalValue(binary))
    ensures !AllDigits(binary) ==> r == Err(ValueError)
  {
    var binaryLen := |binary|;
    var decimal := 0;
    var i := 0;
    while i < |binary|
      invariant 0 <= i <= |binary| && binaryLen == |binary| - i
      invariant AllDigits(binary[..i])
      invariant decimal == PositionalValue(binary[..i]) * Pow2(binaryLen)
    {
      var x := binary[i];
      if !('0' <= x <= '9') {
        return Err(ValueError);
      }
      binaryLen := binaryLen - 1;
      PositionalStep(binary, i);
      WeightStep(PositionalValue(binary[..i]), x as int - '0' as int, Pow2(binaryLen));
      decimal := decimal + Pow2(binaryLen) * (x as int - '0' as int);
      i := i + 1;
    }
    assert binary[..i] == binary;
    return Ok(decimal);
  }

  lemma PositionalStep(s: string, i: nat)
    requires i < |s| && AllDigits(s[..i]) && '0' <= s[i] <= '9'
    ensures AllDigits(s[..i + 1])
    ensures PositionalValue(s[..i + 1]) == 2 * PositionalValue(s[..i]) + (s[i] as int - '0' as int)
  {
    assert s[..i + 1][..i] == s[..i];
  }

  lemma WeightStep(p: int, d: int, w: int)
    ensures p * (2 * w) + w * d == (2 * p + d) * w
  {
  }

  function Pow2(k: nat): (r: nat)
    ensures r >= 1
  {
    if k == 0 then 1 else 2 * Pow2(k - 1)
  }

  lemma {:induction false} ZeroPadDigits(s: string, width: nat)
    requires AllDigits(s)
    ensures AllDigits(ZeroPad(s, width))
    ensures PositionalValue(ZeroPad(s, width)) == PositionalValue(s)
  {
    if |s| < width { LeadingZeros(width - |s|, s); }
  }

  lemma {:induction false} LeadingZeros(k: nat, s: string)
    requires AllDigits(s)
    ensures AllDigits(Zeros(k) + s)
    ensures PositionalValue(Zeros(k) + s) == PositionalValue(s)
  {
    if s == [] {
      assert Zeros(k) + s == Zeros(k);
      ZerosValue(k);
    } else {
      var init := s[..|s| - 1];
      LeadingZeros(k, init);
      assert (Zeros(k) + s)[..|Zeros(k) + s| - 1] == Zeros(k) + init;
    }
  }

  lemma {:induction false} ZerosValue(k: nat)
    ensures AllDigits(Zeros(k)) && PositionalValue(Zeros(k)) == 0
  {
    if k > 0 {
      ZerosValue(k - 1);
      assert Zeros(k)[..k - 1] == Zeros(k - 1);
    }
  }

  lemma {:induction false} BitsValue(n: nat)
    ensures AllDigits(Bits(n)) && PositionalValue(Bits(n)) == n
  {
    if n >= 2 {
      BitsValue(n / 2);
      var b := Bits(n);
      assert b[..|b| - 1] == Bits(n / 2);
    }
  }

  /** `to_decimal(to_bin(n)) == n` for every non-negative `n`. */
  lemma ToDecimalOfToBin(n: nat)
    ensures AllDigits(ToBin(n)) && PositionalValue(ToBin(n)) == n
  {
    BitsValue(n);
    ZeroPadDigits(Bits(n), 8);
  }
}
