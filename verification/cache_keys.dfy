/** Keys of the distributed cache. A product is cached there under
    `"product:"` followed by the decimal rendering of its identifier, which is
    what Java's string concatenation produces for a `Long`. The rendering is
    shown injective by exhibiting its inverse. */
module CacheKeys {
  import opened Wrappers

  const ProductPrefix: string := "product:"

  predicate IsDigit(c: char) {
    '0' <= c <= '9'
  }

  predicate AllDigits(s: string) {
    forall i :: 0 <= i < |s| ==> IsDigit(s[i])
  }

  function DigitChar(d: int): (c: char)
    requires 0 <= d < 10
    ensures IsDigit(c) && DigitValue(c) == d
  {
    ('0' as int + d) as char
  }

  function DigitValue(c: char): (d: int)
    requires IsDigit(c)
  {
    c as int - '0' as int
  }

  /** Decimal digits of a natural number, most significant first, with no
      leading zero. */
  function NatToString(n: nat): (s: string)
    ensures |s| >= 1 && AllDigits(s)
    ensures s[0] == '0' <==> n == 0
    decreases n
  {
    if n < 10 then [DigitChar(n)] else NatToString(n / 10) + [DigitChar(n % 10)]
  }

  /** `Long.toString`: a minus sign before the digits of the magnitude. */
  function IntToString(i: int): (s: string)
    ensures |s| >= 1
    ensures s[0] == '-' <==> i < 0
  {
    if i < 0 then "-" + NatToString(-i) else NatToString(i)
  }

  /** The distributed-cache key of a product identifier. */
  function DistKey(id: int): (key: string)
    ensures |key| > |ProductPrefix| && key[..|ProductPrefix|] == ProductPrefix
  {
    ProductPrefix + IntToString(id)
  }

  /** Value of a non-empty digit string, read most significant digit first. */
  function ParseNat(s: string): (n: nat)
    requires |s| >= 1 && AllDigits(s)
    decreases |s|
  {
    if |s| == 1 then DigitValue(s[0]) as nat
    else ParseNat(s[..|s| - 1]) * 10 + DigitValue(s[|s| - 1]) as nat
  }

  /** Inverse of `IntToString`; `None` on text it never produces. */
  function ParseInt(s: string): (r: Option<int>) {
    if |s| >= 2 && s[0] == '-' && AllDigits(s[1..]) then
      var magnitude: int := ParseNat(s[1..]); Some(-magnitude)
    else if |s| >= 1 && AllDigits(s) then Some(ParseNat(s))
    else None
  }

  /** Inverse of `DistKey`; `None` on keys that do not name a product. */
  function IdOfDistKey(key: string): (r: Option<int>) {
    if |key| >= |ProductPrefix| && key[..|ProductPrefix|] == ProductPrefix
    then ParseInt(key[|ProductPrefix|..])
    else None
  }

  lemma {:induction false} ParseNatOfNatToString(n: nat)
    ensures ParseNat(NatToString(n)) == n
    decreases n
  {
    if n >= 10 {
      var s := NatToString(n);
      assert s[..|s| - 1] == NatToString(n / 10);
      ParseNatOfNatToString(n / 10);
    }
  }

  lemma ParseIntOfIntToString(i: int)
    ensures ParseInt(IntToString(i)) == Some(i)
  {
    var s := IntToString(i);
    if i < 0 {
      assert s[1..] == NatToString(-i);
      ParseNatOfNatToString(-i);
    } else {
      ParseNatOfNatToString(i);
    }
  }

  /** Decoding the key of an identifier gives the identifier back. */
  lemma IdOfDistKeyRoundTrip(id: int)
    ensures IdOfDistKey(DistKey(id)) == Some(id)
  {
    assert DistKey(id)[|ProductPrefix|..] == IntToString(id);
    ParseIntOfIntToString(id);
  }

  /** Distinct identifiers never share a distributed-cache entry. */
  lemma DistKeyInjective(a: int, b: int)
    ensures DistKey(a) == DistKey(b) <==> a == b
  {
    IdOfDistKeyRoundTrip(a);
    IdOfDistKeyRoundTrip(b);
  }
}
