/** The values `parseValue` makes of a token, and the literals a message is printed with. */
module Values {
  import opened Text
  import opened Numerals

  /** `parseFloat` on a token with a fraction or an exponent stays opaque: it keeps the token. */
  datatype Number = Int(n: int) | Float(token: string)

  datatype Json =
    | Str(text: string)
    | Num(number: Number)
    | Bool(b: bool)
    | Arr(items: seq<Json>)
    | Obj(fields: map<string, Json>)

  const BIG_NUMBER_THRESHOLD: nat := 15

  function Unsigned(token: string): string {
    if token != "" && token[0] == '-' then token[1..] else token
  }

  /** The length of the longest run of digits at the start of `s`: what `\d+` matches there. */
  function DigitRun(s: string): (n: nat)
    ensures n <= |s| && AllDigits(s[..n]) && (n < |s| ==> !IsDigit(s[n]))
  {
    if s == "" || !IsDigit(s[0]) then 0
    else
      var n := DigitRun(s[1..]);
      assert s[..n + 1] == [s[0]] + s[1..][..n];
      n + 1
  }

  function AfterFraction(s: string): string {
    if s != "" && s[0] == '.' && DigitRun(s[1..]) > 0 then s[1 + DigitRun(s[1..])..] else s
  }

  function AfterExponent(s: string): string {
    if s == "" || (s[0] != 'e' && s[0] != 'E') then s
    else
      var digits := if |s| > 1 && (s[1] == '+' || s[1] == '-') then s[2..] else s[1..];
      if DigitRun(digits) > 0 then digits[DigitRun(digits)..] else s
  }

  /** `/^-?\d+(\.\d+)?([eE][+-]?\d+)?$/` */
  predicate NumberShape(token: string) {
    var t := Unsigned(token);
    DigitRun(t) > 0 && AfterExponent(AfterFraction(t[DigitRun(t)..])) == ""
  }

  /** `/^-?\d+$/` */
  predicate IntegerShape(token: string) {
    Unsigned(token) != "" && AllDigits(Unsigned(token))
  }

  function IntegerOf(token: string): int
    requires IntegerShape(token)
  {
    var m: int := ToNat(Unsigned(token));
    if token[0] == '-' then -m else m
  }

  function ParseFloat(token: string): Number {
    if IntegerShape(token) then
      var m: int := NearestDouble(ToNat(Unsigned(token)));
      Int(if token[0] == '-' then -m else m)
    else
      Float(token)
  }

  predicate SurroundedBy(token: string, quote: char) {
    token != "" && token[0] == quote && token[|token| - 1] == quote
  }

  function ToLower(s: string): (r: string)
    ensures |r| == |s|
  {
    seq(|s|, i requires 0 <= i < |s| =>
      if 'A' <= s[i] <= 'Z' then (s[i] as int - 'A' as int + 'a' as int) as char else s[i])
  }

  function ParseValue(token: string): Json {
    if SurroundedBy(token, '"') || SurroundedBy(token, '\'') then
      // slice(1, -1) of a lone quote is empty
      Str(if |token| == 1 then "" else token[1..|token| - 1])
    else if NumberShape(token) then
      if DigitRun(Unsigned(token)) > BIG_NUMBER_THRESHOLD then Str(token) else Num(ParseFloat(token))
    else if ToLower(token) == "true" || ToLower(token) == "false" then
      Bool(ToLower(token) == "true")
    else
      Str(token)
  }

  /** `value.toString()` */
  function Show(v: Json): string
    requires v.Str? || v.Num?
  {
    match v
    case Str(s) => s
    case Num(Int(n)) => IntText(n)
    case Num(Float(token)) => token
  }

  // ---- integers ----------------------------------------------------------------------------------

  lemma {:induction false} DigitRunOfDigits(s: string)
    requires AllDigits(s)
    ensures DigitRun(s) == |s|
  {
    if s != "" {
      DigitRunOfDigits(s[1..]);
    }
  }

  lemma IntegerIsNumber(token: string)
    requires IntegerShape(token)
    ensures NumberShape(token)
  {
    var digits := Unsigned(token);
    DigitRunOfDigits(digits);
    assert digits[|digits|..] == "";
  }

  lemma IntegerTokenValue(token: string)
    requires IntegerShape(token)
    ensures |Unsigned(token)| > BIG_NUMBER_THRESHOLD ==> ParseValue(token) == Str(token)
    ensures |Unsigned(token)| <= BIG_NUMBER_THRESHOLD ==> ParseValue(token) == Num(Int(IntegerOf(token)))
  {
    var digits := Unsigned(token);
    DigitRunOfDigits(digits);
    assert digits[|digits|..] == "";
    if |digits| <= BIG_NUMBER_THRESHOLD {
      ToNatBound(digits);
      Pow10Monotone(|digits|, BIG_NUMBER_THRESHOLD);
      Pow10Fifteen();
      SafeIsExact(ToNat(digits));
    }
  }

  predicate CanonicalInteger(token: string) {
    IntegerShape(token) && Canonical(Unsigned(token)) && token != "-0"
  }

  lemma PrintsBackIffCanonical(digits: string)
    requires AllDigits(digits) && digits != ""
    ensures Decimal(ToNat(digits)) == digits <==> Canonical(digits)
    ensures Canonical(digits) && ToNat(digits) == 0 ==> digits == "0"
  {
    ToNatOfDecimal(ToNat(digits));
    if Canonical(digits) {
      DecimalOfToNat(digits);
      if digits[0] != '0' { CanonicalPositive(digits); }
    }
  }

  /** An integer token of any length prints back as itself iff it is canonical or kept as a string. */
  lemma IntegerTokensPrintBack(token: string)
    requires IntegerShape(token)
    ensures ParseValue(token).Str? || ParseValue(token).Num?
    ensures Show(ParseValue(token)) == token
       <==> CanonicalInteger(token) || |Unsigned(token)| > BIG_NUMBER_THRESHOLD
  {
    IntegerTokenValue(token);
    var digits := Unsigned(token);
    if |digits| <= BIG_NUMBER_THRESHOLD {
      ShortIntegersPrintBack(token, digits);
    }
  }

  lemma ShortIntegersPrintBack(token: string, digits: string)
    requires IntegerShape(token) && digits == Unsigned(token)
    ensures IntText(IntegerOf(token)) == token <==> CanonicalInteger(token)
  {
    PrintsBackIffCanonical(digits);
    var m: int := ToNat(digits);
    if token[0] == '-' {
      assert token == "-" + digits;
      if m == 0 {
        assert IntText(-m) == "0";
        assert token[0] != "0"[0];
        if Canonical(digits) { assert token == "-0"; }
      } else {
        assert IntText(-m) == "-" + Decimal(m);
        assert IntText(-m)[1..] == Decimal(m);
        assert token[1..] == digits;
        assert "-0"[1..] == "0";
        assert ToNat("0") == 0 by { assert "0"[..0] == ""; }
      }
    } else {
      assert token[0] != "-0"[0];
    }
  }

  /** Printing every canonical natural of at most `threshold` digits back from a double. */
  ghost predicate ExactThreshold(threshold: nat) {
    forall digits | Canonical(digits) && |digits| <= threshold ::
      Decimal(NearestDouble(ToNat(digits))) == digits
  }

  /** Fifteen is the largest threshold at which reading a token as a double loses nothing. */
  lemma ThresholdIsLargest(threshold: nat)
    ensures ExactThreshold(threshold) <==> threshold <= BIG_NUMBER_THRESHOLD
  {
    hide Decimal, NearestDouble, ToNat;
    if threshold <= BIG_NUMBER_THRESHOLD {
      forall digits | Canonical(digits) && |digits| <= threshold
        ensures Decimal(NearestDouble(ToNat(digits))) == digits
      {
        FifteenDigitsAreExact(digits);
      }
    } else {
      SixteenDigitsAreNot();
    }
  }

  lemma FifteenDigitsAreExact(digits: string)
    requires Canonical(digits) && |digits| <= 15
    ensures Decimal(NearestDouble(ToNat(digits))) == digits
  {
    hide NearestDouble, Decimal, Pow10;
    ToNatBound(digits);
    Pow10Monotone(|digits|, 15);
    Pow10Fifteen();
    SafeIsExact(ToNat(digits));
    DecimalOfToNat(digits);
  }

  /** The first natural that is no double has sixteen digits. */
  lemma SixteenDigitsAreNot()
    ensures var digits := Decimal(SAFE_LIMIT + 1);
      Canonical(digits) && |digits| <= 16 && Decimal(NearestDouble(ToNat(digits))) != digits
  {
    hide NearestDouble, Decimal, ToNat;
    var inexact := SAFE_LIMIT + 1;
    ToNatOfDecimal(inexact);
    FirstInexact();
    SafeLimitIsShort();
    DecimalLength(inexact, 16);
    if Decimal(SAFE_LIMIT) == Decimal(inexact) {
      DecimalInjective(SAFE_LIMIT, inexact);
    }
  }

  lemma SafeLimitIsShort()
    ensures SAFE_LIMIT + 1 < Pow10(16)
  {
    Pow10Fifteen();
    assert Pow10(16) == 10 * Pow10(15);
  }

  lemma {:induction false} DecimalLength(n: nat, k: nat)
    requires k > 0 && n < Pow10(k)
    ensures |Decimal(n)| <= k
  {
    if n >= 10 {
      assert k > 1 by { assert Pow10(1) == 10 * Pow10(0); }
      DecimalLength(n / 10, k - 1);
    }
  }

  const STEAM_BASE: int := 76561197960265728

  /** `BigInt(steam_id.toString()) - BigInt('76561197960265728')`, on a parsed integer of any length. */
  function Steam32(v: Json): int
    requires v.Str? || v.Num?
    requires IntegerShape(Show(v))
  {
    IntegerOf(Show(v)) - STEAM_BASE
  }

  /** The subtraction is exact whatever the token's length, and even when its zeros are not canonical. */
  lemma SteamIdIsExact(token: string)
    requires IntegerShape(token)
    ensures var v := ParseValue(token);
      (v.Str? || v.Num?) && IntegerShape(Show(v)) && Steam32(v) == IntegerOf(token) - 76561197960265728
  {
    IntegerTokenValue(token);
    if |Unsigned(token)| <= BIG_NUMBER_THRESHOLD {
      var m: int := ToNat(Unsigned(token));
      ToNatOfDecimal(m);
      if token[0] == '-' && m > 0 {
        assert IntText(-m)[1..] == Decimal(m);
      }
    }
  }

  // ---- numbers as they are written ---------------------------------------------------------------

  predicate IsDigits(s: string) {
    s != "" && forall i | 0 <= i < |s| :: '0' <= s[i] <= '9'
  }

  type Digits = s: string | IsDigits(s) witness "0"

  datatype Exponent = Exponent(letter: char, sign: string, digits: Digits)
  {
    predicate Valid() {
      (letter == 'e' || letter == 'E') && (sign == "" || sign == "+" || sign == "-")
    }

    function Text(): string {
      [letter] + sign + digits
    }
  }

  /** A number, part by part. */
  datatype Numeral = Numeral(minus: bool, whole: Digits, fraction: Option<Digits>, exponent: Option<Exponent>)
  {
    predicate Valid() {
      exponent.Some? ==> exponent.value.Valid()
    }

    function Tail(): string {
      (if fraction.Some? then "." + fraction.value else "") + if exponent.Some? then exponent.value.Text() else ""
    }

    function Text(): string {
      (if minus then "-" else "") + (whole + Tail())
    }

    /** A number with more than fifteen digits before the point stays text; a fraction or an exponent stays opaque. */
    function Value(): Json {
      var n: int := ToNat(whole);
      if |whole| > 15 then Str(Text())
      else if fraction.None? && exponent.None? then Num(Int(if minus then -n else n))
      else Num(Float(Text()))
    }
  }

  lemma {:induction false} DigitRunStops(digits: string, rest: string)
    requires AllDigits(digits) && (rest == "" || !IsDigit(rest[0]))
    ensures DigitRun(digits + rest) == |digits|
  {
    if digits == "" {
      assert digits + rest == rest;
    } else {
      assert (digits + rest)[1..] == digits[1..] + rest;
      DigitRunStops(digits[1..], rest);
    }
  }

  lemma ExponentIsRead(e: Exponent)
    requires e.Valid()
    ensures AfterExponent(e.Text()) == ""
  {
    hide DigitRun;
    DigitRunOfDigits(e.digits);
    var s := e.Text();
    if e.sign == "" {
      assert s[1..] == e.digits;
    } else {
      assert s[2..] == e.digits;
    }
    assert e.digits[|e.digits|..] == "";
  }

  lemma TailIsRead(n: Numeral)
    requires n.Valid()
    ensures AfterExponent(AfterFraction(n.Tail())) == ""
    ensures n.Tail() == "" <==> n.fraction.None? && n.exponent.None?
    ensures n.Tail() == "" || !IsDigit(n.Tail()[0])
  {
    hide DigitRun, AfterExponent, AfterFraction;
    var e := if n.exponent.Some? then n.exponent.value.Text() else "";
    if n.exponent.Some? { ExponentIsRead(n.exponent.value); } else { EmptyExponent(); }
    if n.fraction.Some? {
      FractionIsRead(n.fraction.value, e);
      assert n.Tail() == "." + n.fraction.value + e;
    } else {
      assert n.Tail() == e;
      NoFractionIsRead(e);
    }
  }

  lemma FractionIsRead(f: Digits, e: string)
    requires e == "" || !IsDigit(e[0])
    ensures AfterFraction("." + f + e) == e
  {
    hide DigitRun;
    var s := "." + f + e;
    DigitRunStops(f, e);
    assert s[1..] == f + e && s[1 + |f|..] == e;
  }

  lemma NoFractionIsRead(e: string)
    requires e == "" || e[0] != '.'
    ensures AfterFraction(e) == e
  {
  }

  lemma EmptyExponent()
    ensures AfterExponent("") == ""
  {
  }

  /** Without its sign a number is its digits and what follows them. */
  lemma UnsignedNumeral(n: Numeral)
    requires n.Valid()
    ensures Unsigned(n.Text()) == n.whole + n.Tail()
    ensures n.Text() != "" && (n.Text()[0] == '-' <==> n.minus) && (n.minus || n.Text()[0] == n.whole[0])
    ensures DigitRun(n.whole + n.Tail()) == |n.whole| && (n.whole + n.Tail())[|n.whole|..] == n.Tail()
  {
    hide DigitRun;
    TailIsRead(n);
    DigitRunStops(n.whole, n.Tail());
    if n.minus { assert n.Text()[1..] == n.whole + n.Tail(); } else { assert n.Text() == n.whole + n.Tail(); }
  }

  lemma NumeralHasNumberShape(n: Numeral)
    requires n.Valid()
    ensures NumberShape(n.Text()) && DigitRun(Unsigned(n.Text())) == |n.whole|
    ensures IntegerShape(n.Text()) <==> n.fraction.None? && n.exponent.None?
  {
    hide DigitRun, AfterFraction, AfterExponent, Unsigned;
    UnsignedNumeral(n);
    TailIsRead(n);
    var t := n.whole + n.Tail();
    if n.Tail() == "" {
      assert t == n.whole;
    } else {
      assert t[|n.whole|] == n.Tail()[0];
    }
  }

  /** The parts of an exponent that the regular expression finds. */
  lemma ExponentOf(s: string) returns (e: Option<Exponent>)
    requires AfterExponent(s) == ""
    ensures (if e.Some? then e.value.Text() else "") == s && (e.Some? ==> e.value.Valid())
  {
    if s == "" {
      e := None;
    } else {
      var signed := |s| > 1 && (s[1] == '+' || s[1] == '-');
      var digits := if signed then s[2..] else s[1..];
      assert digits[..|digits|] == digits;
      e := Some(Exponent(s[0], if signed then [s[1]] else "", digits));
      assert s == e.value.Text();
    }
  }

  lemma FractionIs(rest: string)
    ensures var after := AfterFraction(rest);
      && |after| <= |rest|
      && (after != rest ==>
            && |after| < |rest| && IsDigits(rest[1..|rest| - |after|])
            && rest == "." + rest[1..|rest| - |after|] + after)
  {
    hide DigitRun;
    if rest != "" && rest[0] == '.' && DigitRun(rest[1..]) > 0 {
      var n := DigitRun(rest[1..]);
      assert rest[1..1 + n] == rest[1..][..n];
      assert rest == [rest[0]] + rest[1..1 + n] + rest[1 + n..];
    }
  }

  /** The fraction and the exponent that the regular expression finds. */
  lemma TailOf(rest: string) returns (fraction: Option<Digits>, e: Option<Exponent>)
    requires AfterExponent(AfterFraction(rest)) == ""
    ensures e.Some? ==> e.value.Valid()
    ensures (if fraction.Some? then "." + fraction.value else "") + (if e.Some? then e.value.Text() else "") == rest
  {
    hide AfterExponent, AfterFraction, DigitRun;
    var after := AfterFraction(rest);
    FractionIs(rest);
    e := ExponentOf(after);
    if after == rest {
      fraction := None;
      assert "" + rest == rest;
    } else {
      fraction := Some(rest[1..|rest| - |after|]);
    }
  }

  /** Whatever the regular expression matches is a number written part by part. */
  lemma NumeralOf(token: string) returns (n: Numeral)
    requires NumberShape(token)
    ensures n.Valid() && n.Text() == token
  {
    hide AfterExponent, AfterFraction, DigitRun;
    var t := Unsigned(token);
    var w := DigitRun(t);
    var fraction, e := TailOf(t[w..]);
    n := Numeral(token[0] == '-', t[..w], fraction, e);
    assert n.Tail() == t[w..] && t == t[..w] + t[w..];
    assert token == if token[0] == '-' then "-" + t else t;
  }

  /** The regular expression matches exactly the numbers. */
  lemma NumberShapeIff(token: string)
    ensures NumberShape(token) <==> exists n: Numeral :: n.Valid() && n.Text() == token
  {
    hide NumberShape;
    if NumberShape(token) {
      var n := NumeralOf(token);
    }
    if n: Numeral :| n.Valid() && n.Text() == token {
      NumeralHasNumberShape(n);
    }
  }

  // ---- literals ----------------------------------------------------------------------------------

  /** `true` in any letter case. */
  predicate SpelledTrue(w: string) {
    && |w| == 4
    && (w[0] == 't' || w[0] == 'T') && (w[1] == 'r' || w[1] == 'R')
    && (w[2] == 'u' || w[2] == 'U') && (w[3] == 'e' || w[3] == 'E')
  }

  /** `false` in any letter case. */
  predicate SpelledFalse(w: string) {
    && |w| == 5
    && (w[0] == 'f' || w[0] == 'F') && (w[1] == 'a' || w[1] == 'A') && (w[2] == 'l' || w[2] == 'L')
    && (w[3] == 's' || w[3] == 'S') && (w[4] == 'e' || w[4] == 'E')
  }

  predicate IsQuoted(w: string) {
    w != "" && w[0] == w[|w| - 1] && (w[0] == '"' || w[0] == '\'')
  }

  /** What a scalar field of a message can hold, with the spelling it is printed in. */
  datatype Literal =
    | Integer(n: int)
    | Numbered(numeral: Numeral)
    | Truth(b: bool, spelling: string)
    | Quoted(text: string, quote: char)
    | Bare(word: string)
  {
    ghost predicate Valid() {
      match this
      case Integer(_) => true
      case Numbered(numeral) => numeral.Valid()
      case Truth(b, spelling) => if b then SpelledTrue(spelling) else SpelledFalse(spelling)
      case Quoted(_, quote) => quote == '"' || quote == '\''
      case Bare(w) =>
        && !IsQuoted(w) && !SpelledTrue(w) && !SpelledFalse(w)
        && forall n: Numeral | n.Valid() :: n.Text() != w
    }

    function Token(): string {
      match this
      case Integer(n) => IntText(n)
      case Numbered(numeral) => numeral.Text()
      case Truth(_, spelling) => spelling
      case Quoted(text, quote) => [quote] + text + [quote]
      case Bare(w) => w
    }

    /** Integers too long for an exact double are kept as their digits. */
    function Value(): Json {
      match this
      case Integer(n) =>
        if -1_000_000_000_000_000 < n < 1_000_000_000_000_000 then Num(Int(n)) else Str(IntText(n))
      case Numbered(numeral) => numeral.Value()
      case Truth(b, _) => Bool(b)
      case Quoted(text, _) => Str(text)
      case Bare(w) => Str(w)
    }
  }

  lemma {:induction false} DecimalIsLong(n: nat, k: nat)
    requires n >= Pow10(k)
    ensures |Decimal(n)| > k
  {
    if k > 0 {
      assert n >= 10 by { assert Pow10(k) == 10 * Pow10(k - 1); }
      DecimalIsLong(n / 10, k - 1);
    }
  }

  lemma IntegerTextShape(n: int)
    ensures IntegerShape(IntText(n)) && IntegerOf(IntText(n)) == n
    ensures Unsigned(IntText(n)) == Decimal(if n < 0 then -n else n)
  {
    var m: nat := if n < 0 then -n else n;
    ToNatOfDecimal(m);
    var token := IntText(n);
    if n < 0 {
      assert token[1..] == Decimal(m);
    }
  }

  lemma IntegerTextValue(n: int)
    ensures ParseValue(IntText(n)) == Integer(n).Value()
  {
    hide ParseValue, IntText, Decimal, ToNat, IntegerShape, IntegerOf, Unsigned;
    var m: nat := if n < 0 then -n else n;
    IntegerTextShape(n);
    IntegerTokenValue(IntText(n));
    Pow10Fifteen();
    if m < Pow10(15) {
      DecimalLength(m, 15);
    } else {
      DecimalIsLong(m, 15);
    }
  }

  lemma NumeralIsNotQuoted(n: Numeral)
    requires n.Valid()
    ensures !SurroundedBy(n.Text(), '"') && !SurroundedBy(n.Text(), '\'')
  {
    hide Numeral.Text;
    UnsignedNumeral(n);
  }

  /** What `parseValue` does with a number. */
  lemma NumberIsRead(token: string)
    requires NumberShape(token) && !SurroundedBy(token, '"') && !SurroundedBy(token, '\'')
    ensures ParseValue(token)
         == if DigitRun(Unsigned(token)) > BIG_NUMBER_THRESHOLD then Str(token) else Num(ParseFloat(token))
  {
    hide NumberShape, SurroundedBy, ToLower, ParseFloat, DigitRun;
  }

  lemma NumeralValue(n: Numeral)
    requires n.Valid()
    ensures ParseValue(n.Text()) == n.Value()
  {
    hide NumberShape, IntegerShape, SurroundedBy, DigitRun, NearestDouble, ToNat, ToLower, ParseValue, Numeral.Text,
         Numeral.Tail;
    NumeralHasNumberShape(n);
    NumeralIsNotQuoted(n);
    UnsignedNumeral(n);
    NumberIsRead(n.Text());
    if n.fraction.None? && n.exponent.None? {
      TailIsRead(n);
      assert n.whole + n.Tail() == n.whole;
      IntegerTokenValue(n.Text());
    }
  }

  lemma TruthIff(w: string)
    ensures ToLower(w) == "true" <==> SpelledTrue(w)
    ensures ToLower(w) == "false" <==> SpelledFalse(w)
  {
    if |w| == 4 {
      assert forall i | 0 <= i < 4 :: ToLower(w)[i] == "true"[i] <==> w[i] == "true"[i] || w[i] == "TRUE"[i];
    }
    if |w| == 5 {
      assert forall i | 0 <= i < 5 :: ToLower(w)[i] == "false"[i] <==> w[i] == "false"[i] || w[i] == "FALSE"[i];
    }
  }

  lemma WordIsNoNumber(w: string)
    requires w != "" && !IsDigit(w[0]) && w[0] != '-'
    ensures !NumberShape(w)
  {
  }

  lemma TruthValue(b: bool, w: string)
    requires if b then SpelledTrue(w) else SpelledFalse(w)
    ensures ParseValue(w) == Bool(b)
  {
    hide NumberShape, ToLower;
    WordIsNoNumber(w);
    TruthIff(w);
  }

  lemma QuotedValue(text: string, quote: char)
    requires quote == '"' || quote == '\''
    ensures ParseValue([quote] + text + [quote]) == Str(text)
  {
    hide NumberShape, ToLower;
    var token := [quote] + text + [quote];
    assert token[1..|token| - 1] == text;
  }

  lemma BareValue(w: string)
    requires Bare(w).Valid()
    ensures ParseValue(w) == Str(w)
  {
    hide NumberShape, ToLower;
    TruthIff(w);
    NumberShapeIff(w);
  }

  /** `parseValue` inverts the printing of every literal. */
  lemma ParseValueInvertsToken(lit: Literal)
    requires lit.Valid()
    ensures ParseValue(lit.Token()) == lit.Value()
  {
    hide ParseValue, IntText, Numeral.Value, Numeral.Text;
    match lit
    case Integer(n) => IntegerTextValue(n);
    case Numbered(numeral) => NumeralValue(numeral);
    case Truth(b, spelling) => TruthValue(b, spelling);
    case Quoted(text, quote) => QuotedValue(text, quote);
    case Bare(w) => BareValue(w);
  }

  /** Every token is some literal's, but for a quote on its own, which is read as the empty text. */
  lemma EveryTokenIsLiteral(token: string) returns (lit: Literal)
    ensures token != "\"" && token != "\'" ==> lit.Valid() && lit.Token() == token
    ensures token == "\"" || token == "\'" ==> ParseValue(token) == Str("")
  {
    hide NumberShape, ToLower;
    NumberShapeIff(token);
    if IsQuoted(token) && |token| > 1 {
      lit := Quoted(token[1..|token| - 1], token[0]);
      assert token == [token[0]] + token[1..|token| - 1] + [token[|token| - 1]];
    } else if NumberShape(token) {
      var n := NumeralOf(token);
      lit := Numbered(n);
    } else if SpelledTrue(token) || SpelledFalse(token) {
      lit := Truth(SpelledTrue(token), token);
    } else {
      lit := Bare(token);
      assert |token| == 1 ==> token == [token[0]];
    }
  }
}
