/** The dynamically typed Python values that the registry, the string
  * builder and `Util.is_true` accept: None, booleans, integers and strings.
  * Python's truthiness and `str()` are written out for them. */
module PyValues {
  datatype PyValue = PNone | PBool(b: bool) | PInt(i: int) | PStr(s: string)

  /** Python truthiness: None, False, 0 and '' are falsy. */
  function Truthy(v: PyValue): (r: bool)
    ensures !r <==> v == PNone || v == PBool(false) || v == PInt(0) || v == PStr("")
  {
    match v
    case PNone => false
    case PBool(b) => b
    case PInt(i) => i != 0
    case PStr(s) => s != []
  }

  function DigitChar(d: nat): (c: char)
    requires d < 10
    ensures '0' <= c <= '9'
  {
    ['0', '1', '2', '3', '4', '5', '6', '7', '8', '9'][d]
  }

  /** Decimal digits of a natural number, most significant first. */
  function NatDigits(n: nat): (r: string)
    ensures r != []
    ensures forall k :: 0 <= k < |r| ==> '0' <= r[k] <= '9'
  {
    if n < 10 then [DigitChar(n)] else NatDigits(n / 10) + [DigitChar(n % 10)]
  }

  /** Distinct numbers have distinct decimal forms. */
  lemma {:induction false} NatDigitsInjective(n: nat, m: nat)
    requires NatDigits(n) == NatDigits(m)
    ensures n == m
    decreases n
  {
    if n < 10 && m < 10 {
      DigitCharInjective(n, m);
    } else if 10 <= n && 10 <= m {
      var a, b := NatDigits(n), NatDigits(m);
      assert a[..|a| - 1] == NatDigits(n / 10) && b[..|b| - 1] == NatDigits(m / 10);
      NatDigitsInjective(n / 10, m / 10);
      assert a[|a| - 1] == DigitChar(n % 10) && b[|b| - 1] == DigitChar(m % 10);
      DigitCharInjective(n % 10, m % 10);
    }
  }

  lemma DigitCharInjective(d: nat, e: nat)
    requires d < 10 && e < 10 && DigitChar(d) == DigitChar(e)
    ensures d == e
  {
  }

  /** `str(v)` for the modelled values: a string is itself, an integer its
    * decimal form with a leading minus sign exactly when negative. */
  function Str(v: PyValue): (r: string)
    ensures v.PStr? ==> r == v.s
    ensures v.PInt? ==> r != [] && (r[0] == '-' <==> v.i < 0)
    ensures v.PInt? && 0 <= v.i ==> forall k :: 0 <= k < |r| ==> '0' <= r[k] <= '9'
  {
    match v
    case PNone => "None"
    case PBool(b) => if b then "True" else "False"
    case PInt(i) => if i < 0 then "-" + NatDigits(-i) else NatDigits(i)
    case PStr(s) => s
  }

  /** Distinct integers print differently. */
  lemma {:induction false} StrIntInjective(i: int, j: int)
    requires Str(PInt(i)) == Str(PInt(j))
    ensures i == j
  {
    var a, b := Str(PInt(i)), Str(PInt(j));
    assert (i < 0) == (j < 0) by { assert a[0] == b[0]; }
    if i < 0 {
      NegativeStr(i);
      NegativeStr(j);
      NatDigitsInjective(-i, -j);
    } else {
      assert a == NatDigits(i) && b == NatDigits(j);
      NatDigitsInjective(i, j);
    }
  }

  lemma NegativeStr(i: int)
    requires i < 0
    ensures Str(PInt(i))[1..] == NatDigits(-i)
  {
    assert Str(PInt(i)) == "-" + NatDigits(-i);
  }
}
