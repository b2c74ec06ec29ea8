/** Decimal numerals, and the rounding of an integer to an IEEE 754 double. */
module Numerals {
  import opened Text

  function DigitValue(c: char): (v: nat)
    requires IsDigit(c)
    ensures v < 10
  {
    c as int - '0' as int
  }

  function DigitChar(v: nat): (c: char)
    requires v < 10
    ensures IsDigit(c) && DigitValue(c) == v
  {
    ('0' as int + v) as char
  }

  /** `n.toString()` for a natural below 10^21. */
  function Decimal(n: nat): (s: string)
    ensures |s| > 0 && AllDigits(s)
  {
    if n < 10 then [DigitChar(n)] else Decimal(n / 10) + [DigitChar(n % 10)]
  }

  function IntText(n: int): string {
    if n < 0 then "-" + Decimal(-n) else Decimal(n)
  }

  function ToNat(s: string): (n: nat)
    requires AllDigits(s)
  {
    if s == "" then 0 else ToNat(s[..|s| - 1]) * 10 + DigitValue(s[|s| - 1])
  }

  /** No leading zero, except in "0" itself. */
  predicate Canonical(digits: string) {
    AllDigits(digits) && (|digits| == 1 || (|digits| > 1 && digits[0] != '0'))
  }

  function Pow10(k: nat): (p: nat)
    ensures p > 0
  {
    if k == 0 then 1 else 10 * Pow10(k - 1)
  }

  lemma Pow10Fifteen()
    ensures Pow10(15) == 1_000_000_000_000_000
  {
    assert Pow10(5) == 100_000;
    assert Pow10(10) == 100_000 * Pow10(5) by { Pow10Add(5, 5); }
    assert Pow10(15) == Pow10(10) * Pow10(5) by { Pow10Add(10, 5); }
  }

  lemma {:induction false} Pow10Add(j: nat, k: nat)
    ensures Pow10(j + k) == Pow10(j) * Pow10(k)
  {
    if j > 0 {
      Pow10Add(j - 1, k);
    }
  }

  lemma {:induction false} ToNatOfDecimal(n: nat)
    ensures ToNat(Decimal(n)) == n
    ensures Canonical(Decimal(n))
  {
    if n >= 10 {
      ToNatOfDecimal(n / 10);
      assert Decimal(n)[..|Decimal(n)| - 1] == Decimal(n / 10);
    } else {
      assert Decimal(n)[..0] == "";
    }
  }

  lemma {:induction false} CanonicalPositive(digits: string)
    requires AllDigits(digits) && digits != "" && digits[0] != '0'
    ensures ToNat(digits) > 0
  {
    if |digits| > 1 {
      CanonicalPositive(digits[..|digits| - 1]);
    }
  }

  lemma {:induction false} DecimalOfToNat(digits: string)
    requires Canonical(digits)
    ensures Decimal(ToNat(digits)) == digits
  {
    var front := digits[..|digits| - 1];
    if |digits| == 1 {
      assert front == "";
    } else {
      CanonicalPositive(front);
      DecimalOfToNat(front);
    }
    assert digits == front + [digits[|digits| - 1]];
  }

  /** The ten digits, and what one more digit does to a number. */
  lemma DecimalIs(n: nat, d: nat)
    requires d < 10
    ensures Decimal(d) == ["0123456789"[d]]
    ensures Decimal(10 * n + d) == (if n == 0 then "" else Decimal(n)) + ["0123456789"[d]]
    ensures ToNat(Decimal(n) + ["0123456789"[d]]) == 10 * n + d
  {
    var digits := Decimal(n);
    ToNatOfDecimal(n);
    assert (digits + [DigitChar(d)])[..|digits|] == digits;
  }

  lemma DecimalInjective(a: nat, b: nat)
    requires Decimal(a) == Decimal(b)
    ensures a == b
  {
    ToNatOfDecimal(a);
    ToNatOfDecimal(b);
  }

  lemma {:induction false} ToNatBound(digits: string)
    requires AllDigits(digits)
    ensures ToNat(digits) < Pow10(|digits|)
  {
    if digits != "" {
      ToNatBound(digits[..|digits| - 1]);
    }
  }

  lemma {:induction false} Pow10Monotone(j: nat, k: nat)
    requires j <= k
    ensures Pow10(j) <= Pow10(k)
  {
    if j < k {
      Pow10Monotone(j, k - 1);
    }
  }

  // ---- doubles -----------------------------------------------------------------------------------

  /** 2^53: every natural up to here is a double (section 6.1.6.1 of ECMA-262). */
  const SAFE_LIMIT: nat := 0x20_0000_0000_0000

  /** The distance between doubles around `a`: the least power of two `u` with `a < 2^53 * u`. */
  function UlpFrom(a: nat, u: nat): (r: nat)
    requires u > 0
    ensures r >= u && a < SAFE_LIMIT * r
    decreases a - u
  {
    if a < SAFE_LIMIT * u then u else UlpFrom(a, 2 * u)
  }

  /** The double nearest to `a`, ties to the even multiple. */
  function NearestDouble(a: nat): nat {
    var u := UlpFrom(a, 1);
    var q := a / u;
    var r := a % u;
    if 2 * r < u || (2 * r == u && q % 2 == 0) then q * u else (q + 1) * u
  }

  lemma SafeIsExact(a: nat)
    requires a < SAFE_LIMIT
    ensures NearestDouble(a) == a
  {
  }

  function Pow2(k: nat): (p: nat)
    ensures p > 0
  {
    if k == 0 then 1 else 2 * Pow2(k - 1)
  }

  /** A natural that is a double: at most 53 binary digits, and then zeros. */
  ghost predicate IsDouble(n: nat) {
    exists m: nat, e: nat :: m < 0x20_0000_0000_0000 && n == Scaled(m, e)
  }

  function Scaled(m: nat, e: nat): nat {
    m * Pow2(e)
  }

  function Distance(a: int, b: int): nat {
    if a < b then b - a else a - b
  }

  /** The distance found is a power of two, and half of it would be too small. */
  lemma {:induction false} UlpIs(a: nat, k: nat) returns (j: nat)
    requires k > 0 ==> SAFE_LIMIT * Pow2(k - 1) <= a
    ensures UlpFrom(a, Pow2(k)) == Pow2(j) && a < SAFE_LIMIT * Pow2(j)
    ensures j > 0 ==> SAFE_LIMIT * Pow2(j - 1) <= a
    decreases a - Pow2(k)
  {
    if a < SAFE_LIMIT * Pow2(k) {
      j := k;
    } else {
      assert Pow2(k + 1) == 2 * Pow2(k);
      j := UlpIs(a, k + 1);
    }
  }

  lemma {:induction false} Pow2Add(j: nat, k: nat)
    ensures Pow2(j + k) == Pow2(j) * Pow2(k)
  {
    if j > 0 {
      Pow2Add(j - 1, k);
    }
  }

  lemma MulOrder(a: nat, b: nat, u: nat)
    ensures a <= b ==> a * u <= b * u
  {
  }

  /** Rounding goes to the nearest multiple of the distance. */
  lemma NearestMultiple(a: nat, u: nat, t: nat)
    requires u > 0
    ensures var q, r := a / u, a % u;
      var n := if 2 * r < u || (2 * r == u && q % 2 == 0) then q * u else (q + 1) * u;
      Distance(a, n) <= Distance(a, t * u) && Distance(a, n) <= r
  {
    var q, r := a / u, a % u;
    assert a == q * u + r && (q + 1) * u == q * u + u;
    MulOrder(t, q, u);
    MulOrder(q + 1, t, u);
  }

  lemma MulAssociates(a: nat, b: nat, c: nat)
    ensures (a * b) * c == a * (b * c)
  {
  }

  lemma ScaledUp(m: nat, e: nat, j: nat)
    requires j <= e
    ensures Scaled(m, e) == m * Pow2(e - j) * Pow2(j)
  {
    Pow2Add(e - j, j);
    MulAssociates(m, Pow2(e - j), Pow2(j));
  }

  lemma ScaledBelow(m: nat, e: nat, a: nat, j: nat)
    requires m < SAFE_LIMIT && e < j && SAFE_LIMIT * Pow2(j - 1) <= a
    ensures Scaled(m, e) <= a / Pow2(j) * Pow2(j)
  {
    var half := SAFE_LIMIT / 2;
    Pow2Monotone(e, j - 1);
    ProductBelow(m, SAFE_LIMIT, Pow2(e), Pow2(j - 1));
    MulAssociates(half, 2, Pow2(j - 1));
    MultipleBelow(half, a, Pow2(j));
  }

  /** A double is a multiple of the distance around `a`, or lies below all of the multiples near `a`. */
  lemma DoubleIsMultiple(d: nat, a: nat, j: nat) returns (t: nat)
    requires IsDouble(d) && (j > 0 ==> SAFE_LIMIT * Pow2(j - 1) <= a)
    ensures d == t * Pow2(j) || d <= a / Pow2(j) * Pow2(j)
  {
    hide Pow2, Scaled;
    var m: nat, e: nat :| m < SAFE_LIMIT && d == Scaled(m, e);
    if e >= j {
      ScaledUp(m, e, j);
      t := m * Pow2(e - j);
    } else {
      ScaledBelow(m, e, a, j);
      t := 0;
    }
  }

  lemma MultipleBelow(h: nat, a: nat, u: nat)
    requires u > 0 && h * u <= a
    ensures h * u <= a / u * u
  {
    var q := a / u;
    assert a == q * u + a % u && (q + 1) * u == q * u + u;
    MulOrder(q + 1, h, u);
    MulOrder(h, q, u);
  }

  lemma ProductBelow(m: nat, n: nat, p: nat, q: nat)
    requires m <= n && p <= q
    ensures m * p <= n * q
  {
    MulOrder(m, n, p);
    assert n * p <= n * q;
  }

  lemma {:induction false} Pow2Monotone(j: nat, k: nat)
    requires j <= k
    ensures Pow2(j) <= Pow2(k)
  {
    if j < k {
      Pow2Monotone(j, k - 1);
    }
  }

  lemma QuotientBelow(a: nat, u: nat, n: nat)
    requires u > 0 && a < n * u
    ensures a / u < n
  {
    assert a == a / u * u + a % u;
    MulOrder(n, a / u, u);
  }

  lemma ScaledIsDouble(m: nat, e: nat)
    requires m <= SAFE_LIMIT
    ensures IsDouble(Scaled(m, e))
  {
    if m == SAFE_LIMIT {
      var half := SAFE_LIMIT / 2;
      MulAssociates(half, 2, Pow2(e));
      assert Scaled(m, e) == Scaled(half, e + 1);
    }
  }

  /** The rounding goes to one of the two multiples around. */
  lemma NearestDoubleIs(a: nat, j: nat)
    requires UlpFrom(a, 1) == Pow2(j)
    ensures NearestDouble(a) == Scaled(a / Pow2(j), j) || NearestDouble(a) == Scaled(a / Pow2(j) + 1, j)
  {
    hide UlpFrom, Pow2;
  }

  lemma NearestOfUnit(a: nat, u: nat, t: nat)
    requires u > 0 && UlpFrom(a, 1) == u
    ensures Distance(a, NearestDouble(a)) <= Distance(a, t * u) && Distance(a, NearestDouble(a)) <= a % u
  {
    hide UlpFrom, Distance;
    NearestMultiple(a, u, t);
  }

  lemma NoneIsNearer(a: nat, u: nat, n: nat, t: nat, d: nat)
    requires u > 0 && Distance(a, n) <= Distance(a, t * u) && Distance(a, n) <= a % u
    requires d == t * u || d <= a / u * u
    ensures Distance(a, n) <= Distance(a, d)
  {
    var below := a / u * u;
    assert a == below + a % u;
  }

  lemma NearestDoubleIsDouble(a: nat, j: nat)
    requires UlpFrom(a, 1) == Pow2(j) && a < SAFE_LIMIT * Pow2(j)
    ensures IsDouble(NearestDouble(a))
  {
    hide UlpFrom, Pow2, Scaled, IsDouble, NearestDouble;
    QuotientBelow(a, Pow2(j), SAFE_LIMIT);
    NearestDoubleIs(a, j);
    ScaledIsDouble(a / Pow2(j), j);
    ScaledIsDouble(a / Pow2(j) + 1, j);
  }

  /** The rounding gives a double, and no double is nearer. */
  lemma NearestDoubleIsNearest(a: nat, d: nat)
    requires IsDouble(d)
    ensures IsDouble(NearestDouble(a)) && Distance(a, NearestDouble(a)) <= Distance(a, d)
  {
    hide IsDouble, UlpFrom, NearestDouble, Distance, Pow2;
    var j := UlpOf(a);
    NearestDoubleIsDouble(a, j);
    var t := DoubleIsMultiple(d, a, j);
    NearestOfUnit(a, Pow2(j), t);
    NoneIsNearer(a, Pow2(j), NearestDouble(a), t, d);
  }

  lemma UlpOf(a: nat) returns (j: nat)
    ensures UlpFrom(a, 1) == Pow2(j) && a < SAFE_LIMIT * Pow2(j) && (j > 0 ==> SAFE_LIMIT * Pow2(j - 1) <= a)
  {
    hide UlpFrom;
    assert Pow2(0) == 1;
    j := UlpIs(a, 0);
  }

  /** Between two doubles that are equally near, the one with the even last digit is taken. */
  lemma TiesGoToEven(a: nat)
    ensures var u := UlpFrom(a, 1);
      2 * (a % u) == u ==> NearestDouble(a) % (2 * u) == 0
  {
    hide UlpFrom;
    var u := UlpFrom(a, 1);
    var q := a / u;
    var even := if q % 2 == 0 then q else q + 1;
    if 2 * (a % u) == u {
      assert even == 2 * (even / 2);
      assert even * u == (even / 2) * (2 * u);
      assert NearestDouble(a) == even * u;
      MultipleLeavesNothing(even / 2, 2 * u);
    }
  }

  lemma MultipleLeavesNothing(k: nat, u: nat)
    requires u > 0
    ensures k * u % u == 0
  {
    assert k * u == k * u + 0;
    var q, r := k * u / u, k * u % u;
    assert k * u == q * u + r;
    assert (k - q) * u == r;
    if k > q { MulOrder(1, k - q, u); }
  }

  /** 2^53 + 1 has sixteen digits and is not a double. */
  lemma FirstInexact()
    ensures NearestDouble(SAFE_LIMIT + 1) == SAFE_LIMIT
  {
    var a := SAFE_LIMIT + 1;
    assert UlpFrom(a, 1) == UlpFrom(a, 2) == 2;
    assert a / 2 == SAFE_LIMIT / 2 && a % 2 == 1;
    assert (SAFE_LIMIT / 2) % 2 == 0;
  }

  /** `Number(text)`: digits give a number; every other case is kept as it stands. */
  datatype Numeric = Whole(n: nat) | Other(text: Option<string>)

  function NumberOf(text: Option<string>): Numeric {
    if text.Some? && text.value != "" && AllDigits(text.value) then Whole(NearestDouble(ToNat(text.value)))
    else Other(text)
  }

  lemma NumberOfDecimal(n: nat)
    ensures NumberOf(Some(Decimal(n))) == Whole(NearestDouble(n))
    ensures n < SAFE_LIMIT ==> NumberOf(Some(Decimal(n))) == Whole(n)
  {
    hide NearestDouble;
    ToNatOfDecimal(n);
    if n < SAFE_LIMIT { SafeIsExact(n); }
  }

  /** Exactly the nonempty texts of digits are told apart from the rest. */
  lemma WholeIffDigits(text: Option<string>)
    ensures NumberOf(text).Whole? <==> text.Some? && text.value != "" && forall c | c in text.value :: c in "0123456789"
    ensures NumberOf(text).Other? ==> NumberOf(text).text == text
  {
    hide NearestDouble, ToNat;
    DigitsAreListed();
    if text.Some? {
      assert forall i | 0 <= i < |text.value| :: text.value[i] in text.value;
    }
  }

  lemma DigitsAreListed()
    ensures forall c :: IsDigit(c) <==> c in "0123456789"
  {
    forall c
      ensures IsDigit(c) <==> c in "0123456789"
    {
      if IsDigit(c) { assert "0123456789"[c as int - '0' as int] == c; }
    }
  }
}
