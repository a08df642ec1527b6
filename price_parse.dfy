/** Exact-decimal model of JavaScript's `parseFloat` and of the price buckets the
    recommendation filter compares a parsed price against. */
module PriceParse {
  import opened Wrappers
  import opened Text

  /** A parsed number: `mantissa * 10^exponent`, or a signed infinity. NaN is
      represented by the absence of a number (`None`). */
  datatype Number = Finite(mantissa: int, exponent: int) | Infinite(negative: bool)

  function Pow10(n: nat): (r: nat)
    ensures r >= 1
  {
    if n == 0 then 1 else 10 * Pow10(n - 1)
  }

  /** The longest prefix of `s` made of decimal digits. */
  function LeadingDigits(s: string): (r: string)
    ensures |r| <= |s| && r == s[..|r|]
    ensures forall i :: 0 <= i < |r| ==> IsDigit(r[i])
    ensures |r| < |s| ==> !IsDigit(s[|r|])
  {
    if s != [] && IsDigit(s[0]) then [s[0]] + LeadingDigits(s[1..]) else []
  }

  /** The value of an ExponentPart (`e` or `E`, an optional sign, at least one
      digit) at the start of `s`; 0 when `s` does not start with one, in which
      case parsing stops before the `e`. */
  function ExponentPart(s: string): int {
    if |s| >= 2 && (s[0] == 'e' || s[0] == 'E') then
      var signed := s[1] == '+' || s[1] == '-';
      var digits := LeadingDigits(if signed then s[2..] else s[1..]);
      var v: int := if digits == [] then 0 else DigitsValue(digits);
      if s[1] == '-' then -v else v
    else 0
  }

  /** The longest prefix of `s` that is a StrUnsignedDecimalLiteral: `Infinity`,
      or digits with an optional fraction and exponent, at least one digit in all. */
  function UnsignedPrefix(s: string): Option<Number> {
    if StartsWith(s, "Infinity") then Some(Infinite(false))
    else
      var intPart := LeadingDigits(s);
      var rest := s[|intPart|..];
      var hasDot := rest != [] && rest[0] == '.';
      var frac := if hasDot then LeadingDigits(rest[1..]) else [];
      if intPart == [] && frac == [] then None
      else
        var after := if hasDot then rest[1 + |frac|..] else rest;
        Some(Decimal(intPart, frac, after))
  }

  /** The number written `intPart.frac` followed by the exponent part at
      the start of `after`. */
  function Decimal(intPart: string, frac: string, after: string): (n: Number)
    requires forall i :: 0 <= i < |intPart| ==> IsDigit(intPart[i])
    requires forall i :: 0 <= i < |frac| ==> IsDigit(frac[i])
    ensures n.Finite? && n.exponent == ExponentPart(after) - |frac|
  {
    var m := intPart + frac;
    assert forall i :: 0 <= i < |m| ==> IsDigit(m[i]) by {
      forall i | 0 <= i < |m| ensures IsDigit(m[i]) {
        if i < |intPart| { assert m[i] == intPart[i]; } else { assert m[i] == frac[i - |intPart|]; }
      }
    }
    Finite(DigitsValue(m), ExponentPart(after) - |frac|)
  }

  function Negate(n: Number): Number {
    match n
    case Finite(m, e) => Finite(-m, e)
    case Infinite(neg) => Infinite(!neg)
  }

  /** `parseFloat(s)`: leading white space is skipped, then an optional sign and the
      longest numeric prefix are read; `None` stands for NaN. */
  function ParseFloat(s: string): Option<Number> {
    var t := TrimStart(s);
    if t != [] && (t[0] == '+' || t[0] == '-') then
      match UnsignedPrefix(t[1..])
      case None => None
      case Some(n) => Some(if t[0] == '-' then Negate(n) else n)
    else UnsignedPrefix(t)
  }

  /** `n < c`. */
  predicate Below(n: Number, c: int) {
    match n
    case Infinite(neg) => neg
    case Finite(m, e) => if e >= 0 then m * Pow10(e) < c else m < c * Pow10(-e)
  }

  /** `n >= c`. */
  predicate AtLeast(n: Number, c: int) {
    match n
    case Infinite(neg) => !neg
    case Finite(m, e) => if e >= 0 then m * Pow10(e) >= c else m >= c * Pow10(-e)
  }

  /** The number a menu price denotes: `parseFloat(price.replace('$', ''))`. */
  function PriceOf(price: string): Option<Number> {
    ParseFloat(RemoveFirst(price, '$'))
  }

  /** A string that starts with "$" has no numeric prefix: `parseFloat` gives NaN. */
  lemma DollarIsNotANumber(s: string)
    requires s != [] && s[0] == '$'
    ensures ParseFloat(s) == None
  {
    assert TrimStart(s) == s;
    assert !StartsWith(s, "Infinity") by {
      assert |s| >= 8 ==> s[..8][0] == '$';
    }
    assert LeadingDigits(s) == [];
  }

  /** `n < c` and `n >= c` are complementary. */
  lemma BelowIffNotAtLeast(n: Number, c: int)
    ensures Below(n, c) <==> !AtLeast(n, c)
  {
  }

  /** Below a bound means below every larger bound. */
  lemma BelowMonotone(n: Number, c: int, d: int)
    requires c <= d && Below(n, c)
    ensures Below(n, d)
  {
    match n
    case Infinite(neg) =>
    case Finite(m, e) =>
      if e < 0 {
        var p := Pow10(-e);
        assert c * p <= d * p by { MulMonotone(c, d, p); }
      }
  }

  lemma MulMonotone(c: int, d: int, p: nat)
    requires c <= d
    ensures c * p <= d * p
  {
  }

  /** The price-range switch over a parsed price (`None` is NaN): `low` is below
      10, `medium` from 10 up to but not including 15, `high` from 15 up; NaN
      compares false under every bucket, and any other range value keeps the item. */
  predicate InRange(p: Option<Number>, range: string) {
    if range == "low" then p.Some? && Below(p.value, 10)
    else if range == "medium" then p.Some? && AtLeast(p.value, 10) && Below(p.value, 15)
    else if range == "high" then p.Some? && AtLeast(p.value, 15)
    else true
  }

  /** The filter's test of one item's price string against a range value. */
  predicate InBucket(price: string, range: string) {
    InRange(PriceOf(price), range)
  }

  /** A number falls in exactly one of the three buckets. */
  lemma BucketsPartitionNumbers(n: Number)
    ensures InRange(Some(n), "low") || InRange(Some(n), "medium") || InRange(Some(n), "high")
    ensures !(InRange(Some(n), "low") && InRange(Some(n), "medium"))
    ensures !(InRange(Some(n), "low") && InRange(Some(n), "high"))
    ensures !(InRange(Some(n), "medium") && InRange(Some(n), "high"))
  {
    BelowIffNotAtLeast(n, 10);
    BelowIffNotAtLeast(n, 15);
    if Below(n, 10) {
      BelowMonotone(n, 10, 15);
    }
  }

  /** NaN fails every bucket, while a range value outside the three buckets keeps
      every item, numeric or not. */
  lemma UnparseableFailsEveryBucket(p: Option<Number>, range: string)
    ensures p.None? && range in {"low", "medium", "high"} ==> !InRange(p, range)
    ensures range !in {"low", "medium", "high"} ==> InRange(p, range)
  {
  }

  /** `dollars.cc` with two cent digits, the format of every sample price. */
  function CentsText(dollars: nat, cents: nat): string
    requires cents < 100
  {
    NatToString(dollars) + "." + [DigitChar(cents / 10), DigitChar(cents % 10)]
  }

  lemma {:induction false} LeadingDigitsBeforeNonDigit(d: string, rest: string)
    requires forall i :: 0 <= i < |d| ==> IsDigit(d[i])
    requires rest == [] || !IsDigit(rest[0])
    ensures LeadingDigits(d + rest) == d
  {
    if d != [] {
      assert (d + rest)[1..] == d[1..] + rest;
      LeadingDigitsBeforeNonDigit(d[1..], rest);
    }
  }

  lemma {:induction false} DigitsValueAppend(a: string, b: string)
    requires forall i :: 0 <= i < |a| ==> IsDigit(a[i])
    requires forall i :: 0 <= i < |b| ==> IsDigit(b[i])
    ensures DigitsValue(a + b) == DigitsValue(a) * Pow10(|b|) + DigitsValue(b)
  {
    if b == [] {
      assert a + b == a;
    } else {
      var n := |b| - 1;
      var b' := b[..n];
      var ab := a + b;
      assert ab[..|ab| - 1] == a + b';
      assert ab[|ab| - 1] == b[n];
      DigitsValueAppend(a, b');
      var x, y, p, z := DigitsValue(a), DigitsValue(b'), Pow10(n), DigitValue(b[n]);
      assert DigitsValue(ab) == DigitsValue(a + b') * 10 + z;
      assert DigitsValue(b) == y * 10 + z;
      assert Pow10(|b|) == p * 10;
      ShiftDigit(x, p, y, z);
    }
  }

  lemma ShiftDigit(x: int, p: int, y: int, z: int)
    ensures (x * p + y) * 10 + z == x * (p * 10) + (y * 10 + z)
  {
  }

  /** A plain decimal `d.t` (digits, a point, digits) is read whole. */
  lemma {:induction false} UnsignedPrefixOfDecimal(d: string, t: string)
    requires d != [] && forall i :: 0 <= i < |d| ==> IsDigit(d[i])
    requires forall i :: 0 <= i < |t| ==> IsDigit(t[i])
    ensures UnsignedPrefix(d + "." + t) == Some(Finite(DigitsValue(d + t), -|t|))
  {
    var rest := "." + t;
    var s := d + rest;
    assert d + "." + t == s;
    DigitFirstNotInfinity(s);
    IntegerPartOfDecimal(d, rest, s);
    FractionOfDecimal(t, rest);
    DecimalShape(s, d, rest, t);
    assert ExponentPart([]) == 0;
    assert Decimal(d, t, []) == Finite(DigitsValue(d + t), -|t|);
  }

  lemma IntegerPartOfDecimal(d: string, rest: string, s: string)
    requires forall i :: 0 <= i < |d| ==> IsDigit(d[i])
    requires rest != [] && rest[0] == '.' && s == d + rest
    ensures LeadingDigits(s) == d && s[|d|..] == rest
  {
    LeadingDigitsBeforeNonDigit(d, rest);
  }

  lemma FractionOfDecimal(t: string, rest: string)
    requires forall i :: 0 <= i < |t| ==> IsDigit(t[i])
    requires rest == "." + t
    ensures LeadingDigits(rest[1..]) == t && rest[1 + |t|..] == []
  {
    assert rest[1..] == t + [];
    LeadingDigitsBeforeNonDigit(t, []);
  }

  lemma DigitFirstNotInfinity(s: string)
    requires s != [] && IsDigit(s[0])
    ensures !StartsWith(s, "Infinity")
  {
  }

  /** `UnsignedPrefix` on a string with digits, a point, digits and nothing
      else. */
  lemma DecimalShape(s: string, intPart: string, rest: string, frac: string)
    requires !StartsWith(s, "Infinity") && intPart == LeadingDigits(s) && intPart != []
    requires rest == s[|intPart|..] && rest != [] && rest[0] == '.'
    requires frac == LeadingDigits(rest[1..]) && rest[1 + |frac|..] == []
    ensures UnsignedPrefix(s) == Some(Decimal(intPart, frac, []))
  {
  }

  /** A string that starts with a digit is parsed without skipping or a sign. */
  lemma ParseFloatFromDigit(s: string)
    requires s != [] && IsDigit(s[0])
    ensures ParseFloat(s) == UnsignedPrefix(s)
  {
    assert !IsJsSpace(s[0]);
  }

  lemma TwoDigitsValue(cents: nat)
    requires cents < 100
    ensures DigitsValue([DigitChar(cents / 10), DigitChar(cents % 10)]) == cents
  {
    var t := [DigitChar(cents / 10), DigitChar(cents % 10)];
    assert t[..1] == [DigitChar(cents / 10)];
    assert t[..1][..0] == [];
    assert DigitValue(t[0]) == cents / 10;
    assert DigitValue(t[1]) == cents % 10;
    assert DigitsValue(t[..1]) == cents / 10;
  }

  /** The leading '$' is what `replace('$', '')` removes. */
  lemma PriceOfDollarPrefix(s: string)
    ensures PriceOf("$" + s) == ParseFloat(s)
  {
    assert ("$" + s)[1..] == s;
  }

  /** A `$d.cc` price parses to exactly `d + cc/100`. */
  lemma CentsPriceValue(dollars: nat, cents: nat)
    requires cents < 100
    ensures PriceOf("$" + CentsText(dollars, cents)) == Some(Finite(100 * dollars + cents, -2))
  {
    var s := CentsText(dollars, cents);
    CentsParse(dollars, cents, s, PriceOf("$" + s));
  }

  lemma CentsParse(dollars: nat, cents: nat, s: string, p: Option<Number>)
    requires cents < 100 && s == CentsText(dollars, cents) && p == PriceOf("$" + s)
    ensures p == Some(Finite(100 * dollars + cents, -2))
  {
    assert s[0] == NatToString(dollars)[0];
    PriceOfDigitsAfterDollar(s);
    CentsUnsigned(dollars, cents, s, p);
  }

  lemma CentsUnsigned(dollars: nat, cents: nat, s: string, p: Option<Number>)
    requires cents < 100 && s == CentsText(dollars, cents) && p == UnsignedPrefix(s)
    ensures p == Some(Finite(100 * dollars + cents, -2))
  {
    var d := NatToString(dollars);
    var t := [DigitChar(cents / 10), DigitChar(cents % 10)];
    assert s == d + "." + t;
    DecimalPrefixValue(d, t, s, p);
    MantissaIsCents(dollars, cents, p);
  }

  lemma DecimalPrefixValue(d: string, t: string, s: string, q: Option<Number>)
    requires d != [] && forall i :: 0 <= i < |d| ==> IsDigit(d[i])
    requires forall i :: 0 <= i < |t| ==> IsDigit(t[i])
    requires s == d + "." + t && q == UnsignedPrefix(s)
    ensures q == Some(Finite(DigitsValue(d + t), -|t|))
  {
    UnsignedPrefixOfDecimal(d, t);
  }

  lemma MantissaIsCents(dollars: nat, cents: nat, p: Option<Number>)
    requires cents < 100
    requires p == Some(Finite(DigitsValue(NatToString(dollars) + [DigitChar(cents / 10), DigitChar(cents % 10)]), -2))
    ensures p == Some(Finite(100 * dollars + cents, -2))
  {
    DecimalValue(dollars, cents);
  }

  lemma PriceOfDigitsAfterDollar(s: string)
    requires s != [] && IsDigit(s[0])
    ensures PriceOf("$" + s) == UnsignedPrefix(s)
  {
    PriceOfDollarPrefix(s);
    ParseFloatFromDigit(s);
  }

  lemma DecimalValue(dollars: nat, cents: nat)
    requires cents < 100
    ensures DigitsValue(NatToString(dollars) + [DigitChar(cents / 10), DigitChar(cents % 10)]) == 100 * dollars + cents
  {
    var d := NatToString(dollars);
    var t := [DigitChar(cents / 10), DigitChar(cents % 10)];
    DigitsValueAppend(d, t);
    DigitsValueOfNatToString(dollars);
    TwoDigitsValue(cents);
    assert Pow10(|t|) == 100;
  }

  /** The bucket of a `$d.cc` price is decided by its dollars alone. */
  lemma CentsPriceBucket(dollars: nat, cents: nat)
    requires cents < 100
    ensures InBucket("$" + CentsText(dollars, cents), "low") <==> dollars < 10
    ensures InBucket("$" + CentsText(dollars, cents), "medium") <==> 10 <= dollars < 15
    ensures InBucket("$" + CentsText(dollars, cents), "high") <==> 15 <= dollars
  {
    CentsPriceValue(dollars, cents);
    CentsNumberBuckets(dollars, cents);
  }

  /** The buckets of the exact number `d.cc`. */
  lemma CentsNumberBuckets(dollars: nat, cents: nat)
    requires cents < 100
    ensures var p := Some(Finite(100 * dollars + cents, -2));
      && (InRange(p, "low") <==> dollars < 10)
      && (InRange(p, "medium") <==> 10 <= dollars < 15)
      && (InRange(p, "high") <==> 15 <= dollars)
  {
    assert Pow10(2) == 100 by { assert Pow10(1) == 10; }
  }

  /** "$9.99" is low; "$10.00" is medium and not low; "$14.99" is medium and
      "$15.00" high. */
  lemma BoundaryPrices()
    ensures InBucket("$9.99", "low") && !InBucket("$9.99", "medium")
    ensures InBucket("$10.00", "medium") && !InBucket("$10.00", "low")
    ensures InBucket("$14.99", "medium") && InBucket("$15.00", "high")
  {
    assert NatToString(9) == "9";
    CentsPriceBucketOf("$9.99", 9, 99);
    TenDollars();
    FourteenNinetyNine();
    FifteenDollars();
  }

  lemma TenDollars()
    ensures InBucket("$10.00", "medium") && !InBucket("$10.00", "low")
  {
    assert CentsText(10, 0) == "10.00" by { TwoDigitsText(10, 0, "10", '0', '0'); }
    CentsPriceBucketOf("$10.00", 10, 0);
  }

  lemma FourteenNinetyNine()
    ensures InBucket("$14.99", "medium")
  {
    assert CentsText(14, 99) == "14.99" by { TwoDigitsText(14, 99, "14", '9', '9'); }
    CentsPriceBucketOf("$14.99", 14, 99);
  }

  lemma FifteenDollars()
    ensures InBucket("$15.00", "high")
  {
    assert CentsText(15, 0) == "15.00" by { TwoDigitsText(15, 0, "15", '0', '0'); }
    CentsPriceBucketOf("$15.00", 15, 0);
  }

  lemma TwoDigitsText(dollars: nat, cents: nat, d: string, hi: char, lo: char)
    requires cents < 100 && NatToString(dollars) == d
    requires DigitChar(cents / 10) == hi && DigitChar(cents % 10) == lo
    ensures CentsText(dollars, cents) == d + "." + [hi, lo]
  {
  }

  lemma CentsPriceBucketOf(price: string, dollars: nat, cents: nat)
    requires cents < 100 && price == "$" + CentsText(dollars, cents)
    ensures InBucket(price, "low") <==> dollars < 10
    ensures InBucket(price, "medium") <==> 10 <= dollars < 15
    ensures InBucket(price, "high") <==> 15 <= dollars
  {
    CentsPriceBucket(dollars, cents);
  }
}
