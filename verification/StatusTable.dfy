/** The rows of the server's `status` table, split by a scanner that pairs quotes, whatever the names hold. */
module StatusTable {
  import opened Text
  import opened Numerals

  const QUOTE: char := '"'

  predicate HasQuote(s: string) {
    QUOTE in s
  }

  /** The index of the first quote, or the length. */
  function QuoteIndex(s: string): (n: nat)
    ensures n <= |s| && !HasQuote(s[..n]) && (n < |s| ==> s[n] == QUOTE)
  {
    if s == "" || s[0] == QUOTE then 0 else 1 + QuoteIndex(s[1..])
  }

  /** What `(?:[^\s"]+|"[^"]*")+` matches at the start of `s`; a quote with no partner stops it. */
  function MatchRun(s: string): (n: nat)
    ensures n <= |s|
    decreases |s|
  {
    if s == "" then 0
    else if s[0] == QUOTE then
      var q := QuoteIndex(s[1..]);
      if q == |s| - 1 then 0 else q + 2 + MatchRun(s[q + 2..])
    else if IsSpace(s[0]) then 0
    else 1 + MatchRun(s[1..])
  }

  /** `s.match(sep)`, with the empty list for `null`. */
  function SplitFields(s: string): seq<string>
    decreases |s|
  {
    if s == "" then []
    else if MatchRun(s) == 0 then SplitFields(s[1..])
    else [s[..MatchRun(s)]] + SplitFields(s[MatchRun(s)..])
  }

  datatype Metric = Metric(
    userid: Numeric, name: string, steam_id: string, connected: Option<string>,
    ping: Numeric, loss: Numeric, state: Option<string>, rate: Numeric, adr: Option<string>)

  datatype RowResult = Player(metric: Metric) | Bot | Thrown

  function Field(fields: seq<string>, i: nat): Option<string> {
    if i < |fields| then Some(fields[i]) else None
  }

  /** `s.lastIndexOf('"')` */
  function LastQuote(s: string): (r: int)
    ensures -1 <= r < |s| && (r >= 0 ==> s[r] == QUOTE)
  {
    if s == "" then -1 else if s[|s| - 1] == QUOTE then |s| - 1 else LastQuote(s[..|s| - 1])
  }

  function FirstQuote(s: string): int {
    if HasQuote(s) then QuoteIndex(s) else -1
  }

  /** `s.substring(from, to)`: bounds are clamped, and swapped when out of order. */
  function Substring(s: string, from: int, to: int): string {
    var a := if from < 0 then 0 else if from > |s| then |s| else from;
    var b := if to < 0 then 0 else if to > |s| then |s| else to;
    if a <= b then s[a..b] else s[b..a]
  }

  function ParseStatusRow(row: string): RowResult {
    var spaced := SplitFields(row);
    if spaced == [] then Thrown
    else if |spaced| < 7 then Bot
    else
      var end := LastQuote(row);
      var tail := SplitFields(Substring(row, end, |row|));
      if tail == [] then Thrown
      else
        Player(Metric(
          NumberOf(Field(spaced, 2)),
          Trim(Slice(row, FirstQuote(row) + 1, end)),
          Substring(tail[0], 5, |tail[0]| - 1),
          Field(tail, 1), NumberOf(Field(tail, 2)), NumberOf(Field(tail, 3)),
          Field(tail, 4), NumberOf(Field(tail, 5)), Field(tail, 6)))
  }

  // ---- rows as they stand ------------------------------------------------------------------------

  /** The bounds of `substring` may come in either order, and are taken into the string (section 22.1.3 of ECMA-262). */
  lemma SubstringIs(s: string, from: int, to: int)
    ensures Substring(s, from, to) == Substring(s, to, from)
    ensures 0 <= from <= to <= |s| ==> Substring(s, from, to) == s[from..to]
    ensures from < 0 ==> Substring(s, from, to) == Substring(s, 0, to)
    ensures from > |s| ==> Substring(s, from, to) == Substring(s, |s|, to)
  {
  }

  /** A row with no quote at all: its fields are taken twice, and its name is all but the last character. */
  lemma UnquotedRowIs(row: string)
    requires '"' !in row && |SplitFields(row)| >= 7
    ensures var f := SplitFields(row);
      ParseStatusRow(row) == Player(Metric(
        NumberOf(Some(f[2])), Trim(row[..|row| - 1]), Substring(f[0], 5, |f[0]| - 1), Some(f[1]),
        NumberOf(Some(f[2])), NumberOf(Some(f[3])), Some(f[4]), NumberOf(Some(f[5])), Some(f[6])))
  {
    hide SplitFields, Trim, NumberOf;
    assert row != "" by { EmptyHasNoFields(); }
    assert row[..|row|] == row;
  }

  lemma EmptyHasNoFields()
    ensures SplitFields("") == []
  {
  }

  // ---- rows that throw ---------------------------------------------------------------------------

  /** All but this quote is white space. */
  predicate OnlyQuoteAt(s: string, i: nat) {
    i < |s| && s[i] == '"' && AllSpace(s[..i]) && AllSpace(s[i + 1..])
  }

  /** White space, and at most one quote. */
  ghost predicate HasNoField(s: string) {
    AllSpace(s) || exists i: nat :: OnlyQuoteAt(s, i)
  }

  lemma QuoteIsNoSpace()
    ensures !IsSpace('"')
  {
  }

  lemma AllSpaceInFront(c: char, s: string)
    requires IsSpace(c)
    ensures AllSpace([c] + s) <==> AllSpace(s)
  {
    hide IsSpace;
    assert forall i | 0 <= i < |s| :: ([c] + s)[i + 1] == s[i];
  }

  lemma OnlyQuoteShifts(c: char, s: string, i: nat)
    requires IsSpace(c)
    ensures OnlyQuoteAt([c] + s, i + 1) <==> OnlyQuoteAt(s, i)
  {
    hide IsSpace, AllSpace;
    var t := [c] + s;
    if i < |s| {
      assert t[i + 1] == s[i] && t[..i + 1] == [c] + s[..i] && t[i + 2..] == s[i + 1..];
      AllSpaceInFront(c, s[..i]);
    }
  }

  lemma SpaceInFront(c: char, s: string)
    requires IsSpace(c)
    ensures HasNoField([c] + s) <==> HasNoField(s)
  {
    hide IsSpace, AllSpace;
    QuoteIsNoSpace();
    AllSpaceInFront(c, s);
    if i: nat :| OnlyQuoteAt([c] + s, i) {
      assert ([c] + s)[0] == c;
      OnlyQuoteShifts(c, s, i - 1);
    }
    if i: nat :| OnlyQuoteAt(s, i) {
      OnlyQuoteShifts(c, s, i);
    }
  }

  lemma QuoteInFront(s: string)
    ensures HasNoField(['"'] + s) <==> AllSpace(s)
  {
    hide IsSpace;
    QuoteIsNoSpace();
    var t := ['"'] + s;
    assert t[0] == '"' && t[1..] == s;
    assert AllSpace(s) ==> OnlyQuoteAt(t, 0);
    forall i: nat | 0 < i < |t|
      ensures !OnlyQuoteAt(t, i)
    {
      assert t[..i][0] == '"';
    }
  }

  lemma {:induction false} NoFieldIff(s: string)
    ensures SplitFields(s) == [] <==> HasNoField(s)
    decreases |s|
  {
    hide IsSpace, HasNoField;
    if s == "" {
      EmptyHasNoField();
    } else {
      var c, rest := s[0], s[1..];
      assert s == [c] + rest;
      if c == '"' {
        QuoteInFront(rest);
        NoFieldIff(rest);
        UnquotedNoField(rest);
      } else if IsSpace(c) {
        SpaceInFront(c, rest);
        NoFieldIff(rest);
      } else {
        WordHasField(s);
      }
    }
  }

  lemma EmptyHasNoField()
    ensures HasNoField("")
  {
  }

  lemma UnquotedNoField(s: string)
    ensures QuoteIndex(s) == |s| ==> (HasNoField(s) <==> AllSpace(s))
    ensures QuoteIndex(s) < |s| ==> !AllSpace(s)
  {
    QuoteIsNoSpace();
  }

  lemma WordHasField(s: string)
    requires s != "" && s[0] != '"' && !IsSpace(s[0])
    ensures !HasNoField(s)
  {
    assert forall i | 0 < i <= |s| :: s[..i][0] == s[0];
  }

  lemma {:induction false} NoQuoteFollows(s: string)
    ensures LastQuote(s) == -1 <==> !HasQuote(s)
    ensures LastQuote(s) >= 0 ==> !HasQuote(s[LastQuote(s) + 1..])
  {
    if s != "" && s[|s| - 1] != QUOTE {
      var front, last := s[..|s| - 1], s[|s| - 1];
      NoQuoteFollows(front);
      var n := LastQuote(front) + 1;
      assert s == front + [last] && s[n..] == front[n..] + [last];
    }
  }

  predicate SpaceFollowsQuote(s: string, i: nat) {
    i < |s| && s[i] == '"' && AllSpace(s[i + 1..])
  }

  /** Some quote has only white space after it. */
  ghost predicate EndsAtQuote(s: string) {
    exists i: nat :: SpaceFollowsQuote(s, i)
  }

  lemma OnlyLastQuoteEnds(s: string, end: nat)
    requires end < |s| && s[end] == '"' && !HasQuote(s[end + 1..])
    ensures EndsAtQuote(s) <==> AllSpace(s[end + 1..])
  {
    hide IsSpace;
    QuoteIsNoSpace();
    assert AllSpace(s[end + 1..]) ==> SpaceFollowsQuote(s, end);
    forall i: nat | i < end
      ensures !SpaceFollowsQuote(s, i)
    {
      assert s[i + 1..][end - i - 1] == '"';
    }
    forall i: nat | end < i < |s|
      ensures !SpaceFollowsQuote(s, i)
    {
      assert s[i] == s[end + 1..][i - end - 1];
    }
  }

  lemma SubstringToEnd(s: string, from: int)
    requires -1 <= from < |s|
    ensures Substring(s, from, |s|) == if from < 0 then s else [s[from]] + s[from + 1..]
  {
  }

  lemma TailIsEmptyIff(row: string)
    requires SplitFields(row) != []
    ensures SplitFields(Substring(row, LastQuote(row), |row|)) == [] <==> EndsAtQuote(row)
  {
    hide SplitFields, AllSpace, HasNoField, LastQuote, Substring, EndsAtQuote;
    var end := LastQuote(row);
    NoQuoteFollows(row);
    SubstringToEnd(row, end);
    if end == -1 {
      NoQuoteEnds(row);
    } else {
      hide HasQuote;
      OnlyLastQuoteEnds(row, end);
      NoFieldIff(['"'] + row[end + 1..]);
      QuoteInFront(row[end + 1..]);
    }
  }

  lemma NoQuoteEnds(s: string)
    requires !HasQuote(s)
    ensures !EndsAtQuote(s)
  {
  }

  /**
   * A row throws exactly when nothing matches in it, which is to say it is white space with at most one quote, or
   * when it has the fields of a player and only white space after its last quote.
   */
  lemma RowThrowsIff(row: string)
    ensures ParseStatusRow(row).Thrown? <==>
      HasNoField(row) || (|SplitFields(row)| >= 7 && EndsAtQuote(row))
  {
    hide SplitFields, HasNoField, EndsAtQuote, LastQuote, FirstQuote, Trim, Slice, NumberOf, Substring;
    NoFieldIff(row);
    if SplitFields(row) != [] { TailIsEmptyIff(row); }
  }

  // ---- printed rows ------------------------------------------------------------------------------

  /** What can stand as a field of its own: no white space and no quote. */
  predicate PlainWord(w: string) {
    w != "" && forall i | 0 <= i < |w| :: !IsSpace(w[i]) && w[i] != QUOTE
  }

  /** White space on one line, possibly none. */
  predicate Blank(s: string) {
    AllSpace(s) && '\n' !in s
  }

  predicate Gaps(gaps: seq<string>) {
    forall i | 0 <= i < |gaps| :: gaps[i] != "" && Blank(gaps[i])
  }

  /** Words with a gap before each. */
  function Spaced(gaps: seq<string>, words: seq<string>): string
    requires |gaps| == |words|
  {
    if words == [] then "" else gaps[0] + words[0] + Spaced(gaps[1..], words[1..])
  }

  /** The fields that a name with its quotes is split into. */
  function NameFields(name: string): seq<string> {
    SplitFields([QUOTE] + name + [QUOTE])
  }

  /** A row as the server prints it: a gap stands before each field but the `#`, and the first may be empty. */
  datatype StatusRow =
    | Human(slot: string, userid: nat, name: string, account: string, connected: string,
            ping: nat, loss: nat, state: string, rate: nat, adr: string,
            gaps: seq<string>, lead: string, trail: string)
    | Robot(id: string, name: string, gaps: seq<string>, lead: string, trail: string)
  {
    predicate Valid() {
      && '\n' !in name && Blank(lead) && Blank(trail)
      && |gaps| == |Head()| + 1 + |Tail()| && Blank(gaps[0]) && Gaps(gaps[1..])
      && match this
         case Human(slot, userid, _, account, connected, ping, loss, state, rate, adr, _, _, _) =>
           && PlainWord(slot) && PlainWord("[U:1:" + account + "]") && PlainWord(connected)
           && PlainWord(state) && PlainWord(adr)
           && userid < SAFE_LIMIT && ping < SAFE_LIMIT && loss < SAFE_LIMIT && rate < SAFE_LIMIT
         case Robot(id, _, _, _, _) => PlainWord(id)
    }

    /** The fields before the name. */
    function Head(): (words: seq<string>)
      ensures words != []
    {
      match this
      case Human(slot, userid, _, _, _, _, _, _, _, _, _, _, _) => [slot, Decimal(userid)]
      case Robot(id, _, _, _, _) => [id]
    }

    /** The fields after the name. */
    function Tail(): (words: seq<string>)
      ensures words != []
    {
      match this
      case Human(_, _, _, account, connected, ping, loss, state, rate, adr, _, _, _) =>
        ["[U:1:" + account + "]", connected, Decimal(ping), Decimal(loss), state, Decimal(rate), adr]
      case Robot(_, _, _, _, _) => ["BOT", "active"]
    }

    function Front(): string
      requires Valid()
    {
      var h := |Head()|;
      lead + ("#" + gaps[0] + Head()[0]) + Spaced(gaps[1..h], Head()[1..]) + gaps[h]
    }

    function Back(): string
      requires Valid()
    {
      var h := |Head()|;
      Spaced(gaps[h + 1..], Tail()) + trail
    }

    function Print(): string
      requires Valid()
    {
      Front() + [QUOTE] + name + [QUOTE] + Back()
    }

    /** The fields before the name when the row is split: without a gap the `#` and the number after it are one. */
    function HeadFields(): seq<string>
      requires Valid()
    {
      (if gaps[0] == "" then ["#" + Head()[0]] else ["#", Head()[0]]) + Head()[1..]
    }

    /** The row is told for what it is: a human's number stands in its place, a bot's fields are few. */
    predicate Legible()
      requires Valid()
    {
      if Human? then gaps[0] != "" else |HeadFields()| + |NameFields(name)| + |Tail()| < 7
    }

    /** What a reader of the table should learn of a human; names come back trimmed. */
    function Meaning(): Metric
      requires Human?
    {
      Metric(Whole(userid), Trim(name), account, Some(connected), Whole(ping), Whole(loss), Some(state), Whole(rate),
        Some(adr))
    }
  }

  // ---- splitting ---------------------------------------------------------------------------------

  predicate Ends(rest: string) {
    rest == "" || IsSpace(rest[0])
  }

  lemma {:induction false} MatchRunOfWord(w: string, rest: string)
    requires (forall i | 0 <= i < |w| :: !IsSpace(w[i]) && w[i] != QUOTE) && Ends(rest)
    ensures MatchRun(w + rest) == |w|
  {
    if w == "" {
      assert w + rest == rest;
      SpaceIsNoQuote(rest);
    } else {
      assert (w + rest)[1..] == w[1..] + rest;
      MatchRunOfWord(w[1..], rest);
    }
  }

  lemma SpaceIsNoQuote(rest: string)
    requires Ends(rest)
    ensures rest != "" ==> rest[0] != QUOTE
    ensures MatchRun(rest) == 0
  {
  }

  lemma {:induction false} SplitPastGap(gap: string, rest: string)
    requires AllSpace(gap)
    ensures SplitFields(gap + rest) == SplitFields(rest)
  {
    if gap == "" {
      assert gap + rest == rest;
    } else {
      assert (gap + rest)[1..] == gap[1..] + rest;
      SpaceIsNoQuote(gap + rest);
      SplitPastGap(gap[1..], rest);
    }
  }

  lemma SplitPastWord(w: string, rest: string)
    requires PlainWord(w) && Ends(rest)
    ensures SplitFields(w + rest) == [w] + SplitFields(rest)
  {
    MatchRunOfWord(w, rest);
    assert (w + rest)[..|w|] == w && (w + rest)[|w|..] == rest;
  }

  lemma GapsSplit(gaps: seq<string>, k: nat)
    requires Gaps(gaps) && k < |gaps|
    ensures Gaps(gaps[..k]) && Gaps(gaps[k + 1..]) && Blank(gaps[k]) && gaps[k] != ""
  {
    hide Blank;
  }

  lemma {:induction false} SplitOfSpaced(gaps: seq<string>, words: seq<string>, rest: string)
    requires |gaps| == |words| && Gaps(gaps) && Ends(rest)
    requires forall w | w in words :: PlainWord(w)
    ensures SplitFields(Spaced(gaps, words) + rest) == words + SplitFields(rest)
    ensures Ends(Spaced(gaps, words) + rest)
  {
    hide PlainWord, IsSpace, AllSpace, SplitFields, Gaps, Ends;
    if words == [] {
      assert Spaced(gaps, words) + rest == rest;
    } else {
      var after := Spaced(gaps[1..], words[1..]) + rest;
      GapsSplit(gaps, 0);
      SpaceEnds(gaps[0], words[0] + after);
      assert words[0] in words;
      SplitOfSpaced(gaps[1..], words[1..], rest);
      assert Spaced(gaps, words) + rest == gaps[0] + (words[0] + after);
      SplitPastGap(gaps[0], words[0] + after);
      SplitPastWord(words[0], after);
    }
  }

  lemma {:induction false} QuoteIndexOfConcat(u: string, rest: string)
    requires rest != "" && rest[0] == QUOTE
    ensures QuoteIndex(u + rest) == QuoteIndex(u) <= |u|
  {
    if u == "" {
      assert u + rest == rest;
    } else if u[0] != QUOTE {
      assert (u + rest)[1..] == u[1..] + rest;
      QuoteIndexOfConcat(u[1..], rest);
    }
  }

  lemma {:induction false} NoQuoteIndex(s: string)
    requires !HasQuote(s)
    ensures QuoteIndex(s) == |s|
  {
    if s != "" {
      NoQuoteIndex(s[1..]);
    }
  }

  lemma MatchStep(s: string)
    requires s != "" && s[0] != QUOTE
    ensures MatchRun(s) == if IsSpace(s[0]) then 0 else 1 + MatchRun(s[1..])
  {
  }

  lemma MatchPair(s: string, q: nat)
    requires s != "" && s[0] == QUOTE && q == QuoteIndex(s[1..]) && q + 1 < |s|
    ensures MatchRun(s) == q + 2 + MatchRun(s[q + 2..])
  {
    hide QuoteIndex;
  }

  /** A quote in a name pairs up with the next one, at the latest with the one that closes the name. */
  lemma MatchPastPair(u: string, rest: string, q: nat)
    requires u != "" && u[0] == QUOTE && rest != "" && rest[0] == QUOTE && q == QuoteIndex(u[1..])
    ensures q < |u|
    ensures MatchRun(u + rest) == q + 2 + MatchRun((u + rest)[q + 2..])
  {
    hide HasQuote, MatchRun, QuoteIndex;
    NextQuoteIs(u, rest);
    MatchPair(u + rest, q);
  }

  lemma NextQuoteIs(u: string, rest: string)
    requires u != "" && rest != "" && rest[0] == QUOTE
    ensures QuoteIndex((u + rest)[1..]) == QuoteIndex(u[1..]) < |u|
  {
    hide HasQuote, QuoteIndex;
    assert (u + rest)[1..] == u[1..] + rest;
    QuoteIndexOfConcat(u[1..], rest);
  }

  /**
   * No field that begins in a name runs past the quote that closes it, however the quotes inside pair up, and where it
   * ends does not depend on what follows.
   */
  lemma {:induction false} MatchStaysInName(u: string, tail: string)
    requires !HasQuote(tail) && Ends(tail)
    ensures MatchRun(u + ([QUOTE] + tail)) == MatchRun(u + [QUOTE]) <= |u| + 1
    ensures u != "" && u[0] == QUOTE ==> MatchRun(u + [QUOTE]) > 0
    decreases |u|
  {
    hide IsSpace, HasQuote, MatchRun, QuoteIndex, Ends;
    var rest := [QUOTE] + tail;
    if u == "" {
      assert u + rest == rest && u + [QUOTE] == [QUOTE] == [QUOTE] + "";
      LoneQuote(tail);
      LoneQuote("") by { NoQuoteInNothing(); }
    } else if u[0] == QUOTE {
      var q := QuoteIndex(u[1..]);
      MatchPastPair(u, rest, q);
      MatchPastPair(u, [QUOTE], q);
      if q == |u| - 1 {
        assert (u + rest)[q + 2..] == tail && (u + [QUOTE])[q + 2..] == "";
        SpaceIsNoQuote(tail);
        SpaceIsNoQuote("") by { NothingToSplit(); }
      } else {
        assert (u + rest)[q + 2..] == u[q + 2..] + rest && (u + [QUOTE])[q + 2..] == u[q + 2..] + [QUOTE];
        MatchStaysInName(u[q + 2..], tail);
      }
    } else {
      MatchStep(u + rest);
      MatchStep(u + [QUOTE]);
      assert (u + rest)[1..] == u[1..] + rest && (u + [QUOTE])[1..] == u[1..] + [QUOTE];
      MatchStaysInName(u[1..], tail);
    }
  }

  lemma NoQuoteInNothing()
    ensures !HasQuote("")
  {
  }

  lemma LoneQuote(tail: string)
    requires !HasQuote(tail)
    ensures MatchRun([QUOTE] + tail) == 0
  {
    assert ([QUOTE] + tail)[1..] == tail;
    NoQuoteIndex(tail);
  }

  lemma SplitStep(s: string, n: nat)
    requires s != "" && n == MatchRun(s)
    ensures SplitFields(s) == if n == 0 then SplitFields(s[1..]) else [s[..n]] + SplitFields(s[n..])
  {
  }

  /** So a name, and what follows it, are split as they would be without each other. */
  lemma {:induction false} SplitPastName(u: string, tail: string)
    requires !HasQuote(tail) && Ends(tail)
    ensures SplitFields(u + ([QUOTE] + tail)) == SplitFields(u + [QUOTE]) + SplitFields(tail)
    decreases |u|
  {
    hide IsSpace, HasQuote, MatchRun, SplitFields, Ends;
    var rest := [QUOTE] + tail;
    var s, s0 := u + rest, u + [QUOTE];
    MatchStaysInName(u, tail);
    var n := MatchRun(s);
    SplitStep(s, n);
    SplitStep(s0, n);
    NothingToSplit();
    if u == "" {
      assert s == rest && s[1..] == tail && s0 == [QUOTE] && s0[1..] == "";
      LoneQuote(tail);
    } else if n == 0 {
      assert s[1..] == u[1..] + rest && s0[1..] == u[1..] + [QUOTE];
      SplitPastName(u[1..], tail);
    } else if n == |u| + 1 {
      assert s[n..] == tail && s0[n..] == "" && s[..n] == s0[..n];
    } else {
      assert s[n..] == u[n..] + rest && s0[n..] == u[n..] + [QUOTE] && s[..n] == s0[..n];
      SplitPastName(u[n..], tail);
    }
  }

  lemma NothingToSplit()
    ensures SplitFields("") == [] && Ends("")
  {
  }

  // ---- rows --------------------------------------------------------------------------------------

  lemma PlainDecimal(n: nat)
    ensures PlainWord(Decimal(n))
  {
    assert forall c | IsDigit(c) :: !IsSpace(c) && c != QUOTE;
  }

  lemma PrintedWordsArePlain(row: StatusRow)
    requires row.Valid()
    ensures (forall w | w in row.Head() :: PlainWord(w)) && (forall w | w in row.Tail() :: PlainWord(w))
  {
    match row
    case Human(_, userid, _, _, _, ping, loss, _, rate, _, _, _, _) =>
      PlainDecimal(userid);
      PlainDecimal(ping);
      PlainDecimal(loss);
      PlainDecimal(rate);
    case Robot(_, _, _, _, _) =>
  }

  lemma {:induction false} SpacedHasNo(gaps: seq<string>, words: seq<string>, c: char)
    requires |gaps| == |words| && Gaps(gaps) && forall w | w in words :: PlainWord(w)
    requires c == QUOTE || c == '\n'
    ensures c !in Spaced(gaps, words)
  {
    hide PlainWord, Blank, Gaps;
    if words != [] {
      GapsSplit(gaps, 0);
      BlankHasNo(gaps[0]);
      assert words[0] in words;
      WordHasNo(words[0]);
      SpacedHasNo(gaps[1..], words[1..], c);
    }
  }

  /** A name gives at least one field, which begins with its quote, and only one when there is no quote in it. */
  lemma NameIsSplit(name: string)
    ensures NameFields(name) != [] && NameFields(name)[0] != "" && NameFields(name)[0][0] == QUOTE
    ensures !HasQuote(name) ==> NameFields(name) == [[QUOTE] + name + [QUOTE]]
  {
    hide SplitFields, MatchRun;
    var s := [QUOTE] + name + [QUOTE];
    NothingToSplit();
    MatchStaysInName([QUOTE] + name, "");
    var n := MatchRun(s);
    SplitStep(s, n);
    if !HasQuote(name) {
      MatchOfPlainName(name);
      assert s[|s|..] == "" && s[..|s|] == s;
    }
  }

  lemma MatchOfPlainName(name: string)
    requires !HasQuote(name)
    ensures MatchRun([QUOTE] + name + [QUOTE]) == |name| + 2
  {
    hide HasQuote, QuoteIndex;
    var s := [QUOTE] + name + [QUOTE];
    assert s[1..] == name + [QUOTE];
    QuoteIndexOfConcat(name, [QUOTE]);
    NoQuoteIndex(name);
    assert s[|name| + 2..] == "";
  }

  lemma SplitOfTail(gaps: seq<string>, words: seq<string>, trail: string)
    requires |gaps| == |words| && Gaps(gaps) && (forall w | w in words :: PlainWord(w)) && AllSpace(trail)
    ensures SplitFields(Spaced(gaps, words) + trail) == words
    ensures Ends(Spaced(gaps, words) + trail)
  {
    hide IsSpace, PlainWord, SplitFields, Gaps, Spaced;
    NothingToSplit();
    SplitPastGap(trail, "");
    assert trail + "" == trail;
    SpaceEnds(trail, "");
    SplitOfSpaced(gaps, words, trail);
  }

  lemma SpaceEnds(gap: string, rest: string)
    requires AllSpace(gap) && (gap != "" || Ends(rest))
    ensures Ends(gap + rest)
  {
    if gap == "" { assert gap + rest == rest; }
  }

  /** The `#`, and the number after it with or without a gap. */
  lemma SplitOfHash(gap: string, word: string, rest: string)
    requires AllSpace(gap) && PlainWord(word) && Ends(rest)
    ensures SplitFields("#" + gap + word + rest)
         == (if gap == "" then ["#" + word] else ["#", word]) + SplitFields(rest)
  {
    hide IsSpace, SplitFields, Ends;
    if gap == "" {
      HashedWordIsPlain(word);
      SplitPastWord("#" + word, rest);
      assert "#" + gap + word + rest == "#" + word + rest;
    } else {
      SpaceEnds(gap, word + rest);
      HashedWordIsPlain("");
      assert "#" + "" == "#";
      SplitPastWord("#", gap + (word + rest));
      SplitPastGap(gap, word + rest);
      SplitPastWord(word, rest);
      assert "#" + gap + word + rest == "#" + (gap + (word + rest));
    }
  }

  lemma HashedWordIsPlain(word: string)
    requires word == "" || PlainWord(word)
    ensures PlainWord("#" + word)
  {
  }

  /** The gaps of a row. */
  lemma RowGaps(row: StatusRow)
    requires row.Valid()
    ensures var h := |row.Head()|;
      && h > 0 && |row.gaps| == h + 1 + |row.Tail()| && Blank(row.gaps[0]) && Blank(row.lead) && Blank(row.trail)
      && Gaps(row.gaps[1..h]) && Gaps(row.gaps[h + 1..]) && Blank(row.gaps[h]) && row.gaps[h] != ""
  {
    hide PlainWord, Blank, Gaps, StatusRow.Head, StatusRow.Tail;
    var h := |row.Head()|;
    var later := row.gaps[1..];
    GapsSplit(later, h - 1);
    assert later[h - 1] == row.gaps[h];
    assert row.gaps[1..h] == later[..h - 1] && row.gaps[h + 1..] == later[h..];
  }

  /** The quotes of a row are those of its name. */
  lemma RowQuotes(row: StatusRow)
    requires row.Valid()
    requires (forall w | w in row.Head() :: PlainWord(w)) && (forall w | w in row.Tail() :: PlainWord(w))
    ensures QUOTE !in row.Front() && QUOTE !in row.Back() && '\n' !in row.Front() && '\n' !in row.Back()
  {
    hide PlainWord, Blank, Gaps, Spaced, StatusRow.Valid, StatusRow.Head, StatusRow.Tail;
    RowGaps(row);
    var h := |row.Head()|;
    WordHasNo(row.Head()[0]);
    BlankHasNo(row.lead);
    BlankHasNo(row.trail);
    BlankHasNo(row.gaps[0]);
    BlankHasNo(row.gaps[h]);
    SpacedHasNo(row.gaps[1..h], row.Head()[1..], QUOTE);
    SpacedHasNo(row.gaps[1..h], row.Head()[1..], '\n');
    SpacedHasNo(row.gaps[h + 1..], row.Tail(), QUOTE);
    SpacedHasNo(row.gaps[h + 1..], row.Tail(), '\n');
  }

  lemma WordHasNo(w: string)
    requires PlainWord(w)
    ensures QUOTE !in w && '\n' !in w
  {
  }

  lemma BlankHasNo(s: string)
    requires Blank(s)
    ensures QUOTE !in s && '\n' !in s && AllSpace(s)
  {
  }

  lemma SplitOfFront(row: StatusRow, rest: string)
    requires row.Valid() && forall w | w in row.Head() :: PlainWord(w)
    ensures SplitFields(row.Front() + rest) == row.HeadFields() + SplitFields(rest)
  {
    hide IsSpace, PlainWord, SplitFields, Gaps, Blank, AllSpace, Spaced, Ends, StatusRow.Head, StatusRow.Valid;
    RowGaps(row);
    var head, gap, h := row.Head(), row.gaps[|row.Head()|], |row.Head()|;
    BlankHasNo(row.lead);
    BlankHasNo(row.gaps[0]);
    BlankHasNo(gap);
    SpaceEnds(gap, rest);
    SplitPastGap(gap, rest);
    SplitOfSpaced(row.gaps[1..h], head[1..], gap + rest);
    var words := Spaced(row.gaps[1..h], head[1..]) + (gap + rest);
    SplitOfHash(row.gaps[0], head[0], words);
    var hash := "#" + row.gaps[0] + head[0];
    SplitPastGap(row.lead, hash + words);
    assert row.Front() + rest == row.lead + (hash + words);
  }

  lemma SplitOfQuoted(name: string, back: string)
    requires !HasQuote(back) && Ends(back)
    ensures SplitFields([QUOTE] + name + ([QUOTE] + back)) == NameFields(name) + SplitFields(back)
    ensures SplitFields([QUOTE] + back) == SplitFields(back)
  {
    hide SplitFields, HasQuote, Ends;
    SplitPastName([QUOTE] + name, back);
    SplitPastName("", back);
    assert "" + ([QUOTE] + back) == [QUOTE] + back && "" + [QUOTE] == [QUOTE];
    LoneQuoteSplits();
    assert [] + SplitFields(back) == SplitFields(back);
  }

  /** A printed row splits into the fields before its name, those of its name, and those after it. */
  lemma SplitOfRow(row: StatusRow)
    requires row.Valid()
    ensures SplitFields(row.Print()) == row.HeadFields() + NameFields(row.name) + row.Tail()
    ensures SplitFields([QUOTE] + row.Back()) == row.Tail()
    ensures QUOTE !in row.Front() && QUOTE !in row.Back() && '\n' !in row.Front() && '\n' !in row.Back()
  {
    hide PlainWord, SplitFields, Gaps, Blank, AllSpace, Spaced, Ends, StatusRow.Head, StatusRow.Tail,
         StatusRow.Valid, StatusRow.HeadFields, StatusRow.Front, NameFields;
    PrintedWordsArePlain(row);
    RowGaps(row);
    RowQuotes(row);
    var back := row.Back();
    BlankHasNo(row.trail);
    SplitOfTail(row.gaps[|row.Head()| + 1..], row.Tail(), row.trail);
    SplitOfQuoted(row.name, back);
    var rest := [QUOTE] + row.name + ([QUOTE] + back);
    SplitOfFront(row, rest);
    assert row.Print() == row.Front() + rest;
  }

  lemma LoneQuoteSplits()
    ensures SplitFields([QUOTE]) == []
  {
    LoneQuote("");
    assert [QUOTE] + "" == [QUOTE] && [QUOTE][1..] == "";
  }

  lemma {:induction false} LastQuoteIs(before: string, after: string)
    requires !HasQuote(after)
    ensures LastQuote(before + [QUOTE] + after) == |before|
  {
    var s := before + [QUOTE] + after;
    if after != "" {
      assert s[..|s| - 1] == before + [QUOTE] + after[..|after| - 1];
      LastQuoteIs(before, after[..|after| - 1]);
    }
  }

  lemma NameOfRow(front: string, name: string, back: string)
    requires !HasQuote(front) && !HasQuote(back)
    ensures var row := front + [QUOTE] + name + [QUOTE] + back;
      && LastQuote(row) == |front| + 1 + |name|
      && FirstQuote(row) == |front|
      && Slice(row, FirstQuote(row) + 1, LastQuote(row)) == name
      && Substring(row, LastQuote(row), |row|) == [QUOTE] + back
  {
    hide HasQuote, Slice, LastQuote, FirstQuote;
    var row := front + [QUOTE] + name + [QUOTE] + back;
    var rest := [QUOTE] + name + [QUOTE] + back;
    assert row == front + rest;
    FirstQuoteIs(front, rest);
    LastQuoteIs(front + [QUOTE] + name, back);
    SliceIs(front + [QUOTE], name, [QUOTE] + back);
    assert row == front + [QUOTE] + name + ([QUOTE] + back);
    assert row[|front| + 1 + |name|..] == [QUOTE] + back;
  }

  lemma FirstQuoteIs(front: string, rest: string)
    requires !HasQuote(front) && rest != "" && rest[0] == QUOTE
    ensures FirstQuote(front + rest) == |front|
  {
    QuoteIndexOfConcat(front, rest);
    NoQuoteIndex(front);
    assert (front + rest)[|front|] == QUOTE;
  }

  /** What the parser makes of a printed row. */
  lemma ParseOfPrint(row: StatusRow)
    requires row.Valid()
    ensures var fields := row.HeadFields() + NameFields(row.name) + row.Tail();
      ParseStatusRow(row.Print()) ==
      if |fields| < 7 then Bot
      else
        var tail := row.Tail();
        Player(Metric(
          NumberOf(Field(fields, 2)), Trim(row.name), Substring(tail[0], 5, |tail[0]| - 1),
          Field(tail, 1), NumberOf(Field(tail, 2)), NumberOf(Field(tail, 3)),
          Field(tail, 4), NumberOf(Field(tail, 5)), Field(tail, 6)))
  {
    hide SplitFields, MatchRun, PlainWord, IsSpace, Spaced, Trim, LastQuote, FirstQuote, Slice, NumberOf, Substring,
         StatusRow.Front, StatusRow.Back, StatusRow.Tail, Decimal, StatusRow.Valid, StatusRow.HeadFields, NameFields;
    SplitOfRow(row);
    NameOfRow(row.Front(), row.name, row.Back());
  }

  /**
   * Every field of every printed human row is read back, whatever its name: quotes in it, odd or even in number,
   * change neither the fields before it nor those after. Only the user id is lost, exactly when no gap follows the `#`.
   */
  lemma HumanRowIsRead(row: StatusRow)
    requires row.Valid() && row.Human?
    ensures var r := ParseStatusRow(row.Print());
      && r.Player? && r.metric.(userid := Whole(row.userid)) == row.Meaning()
      && (r.metric.userid == Whole(row.userid) <==> row.gaps[0] != "")
  {
    hide SplitFields, PlainWord, IsSpace, Trim, Decimal, StatusRow.Valid, StatusRow.Print, NameFields;
    ParseOfPrint(row);
    NameIsSplit(row.name);
    HumanNumbers(row);
    var tail := row.Tail();
    assert tail[0][5..|tail[0]| - 1] == row.account;
  }

  /**
   * A printed human row gives back all its fields exactly when its number stands apart from the `#`, and a printed bot
   * row is left out exactly when it has fewer than seven fields, quotes in its name included.
   */
  lemma ParseStatusRowInvertsPrint(row: StatusRow)
    requires row.Valid()
    ensures ParseStatusRow(row.Print()) == (if row.Human? then Player(row.Meaning()) else Bot) <==> row.Legible()
    ensures !ParseStatusRow(row.Print()).Thrown? && (row.Human? ==> ParseStatusRow(row.Print()).Player?)
  {
    hide SplitFields, PlainWord, IsSpace, Trim, Decimal, StatusRow.Valid, StatusRow.Print, NameFields, NumberOf,
         ParseStatusRow, StatusRow.HeadFields;
    if row.Human? { HumanRowIsRead(row); } else { ParseOfPrint(row); }
  }

  /** So a bot whose name has no quote is always left out. */
  lemma PlainBotIsLeftOut(row: StatusRow)
    requires row.Valid() && row.Robot? && !HasQuote(row.name)
    ensures ParseStatusRow(row.Print()) == Bot
  {
    hide SplitFields, PlainWord, IsSpace, StatusRow.Print, NameFields, ParseStatusRow, StatusRow.Valid, HasQuote;
    ParseStatusRowInvertsPrint(row);
    NameIsSplit(row.name);
  }

  lemma HumanNumbers(row: StatusRow)
    requires row.Valid() && row.Human?
    ensures NumberOf(Some(Decimal(row.userid))) == Whole(row.userid)
    ensures NumberOf(Some(Decimal(row.ping))) == Whole(row.ping)
    ensures NumberOf(Some(Decimal(row.loss))) == Whole(row.loss)
    ensures NumberOf(Some(Decimal(row.rate))) == Whole(row.rate)
  {
    NumberOfDecimal(row.userid);
    NumberOfDecimal(row.ping);
    NumberOfDecimal(row.loss);
    NumberOfDecimal(row.rate);
  }

  // ---- the whole response ------------------------------------------------------------------------

  const HEADER: string := "# userid name uniqueid connected ping loss state rate adr"
  const END_LINE: string := "#end"

  function NewlineIndex(s: string): (n: nat)
    ensures n <= |s| && '\n' !in s[..n] && (n < |s| ==> s[n] == '\n')
  {
    if s == "" || s[0] == '\n' then 0 else 1 + NewlineIndex(s[1..])
  }

  /** `raw.split('\n')` */
  function Lines(raw: string): (lines: seq<string>)
    ensures lines != []
    decreases |raw|
  {
    var n := NewlineIndex(raw);
    if n == |raw| then [raw] else [raw[..n]] + Lines(raw[n + 1..])
  }

  function Joined(lines: seq<string>): string {
    if lines == [] then "" else lines[0] + if |lines| == 1 then "" else "\n" + Joined(lines[1..])
  }

  function FindLine(lines: seq<string>, line: string): (r: int)
    ensures r == -1 || (0 <= r < |lines| && lines[r] == line)
    ensures forall k | 0 <= k < |lines| && (r == -1 || k < r) :: lines[k] != line
  {
    if lines == [] then -1
    else if lines[0] == line then 0
    else
      var r := FindLine(lines[1..], line);
      if r == -1 then -1 else r + 1
  }

  /** `parts.findIndex(row => row.trim() === header)` */
  function HeaderIndex(parts: seq<string>): (r: int)
    ensures -1 <= r < |parts|
  {
    FindLine(seq(|parts|, i requires 0 <= i < |parts| => Trim(parts[i])), HEADER)
  }

  /** The players listed up to the end line, or nothing when a row throws. */
  function PlayersIn(parts: seq<string>): Option<seq<Metric>> {
    if parts == [] || Trim(parts[0]) == END_LINE then Some([])
    else
      match ParseStatusRow(parts[0])
      case Thrown => None
      case Bot => PlayersIn(parts[1..])
      case Player(m) =>
        match PlayersIn(parts[1..])
        case None => None
        case Some(rest) => Some([m] + rest)
  }

  function ParseStatusResponse(raw: string): Option<seq<Metric>> {
    var parts := Lines(raw);
    PlayersIn(parts[HeaderIndex(parts) + 1..])
  }

  function After(statuses: seq<Metric>, rest: Option<seq<Metric>>): Option<seq<Metric>> {
    match rest
    case None => None
    case Some(more) => Some(statuses + more)
  }

  lemma AfterNothing(rest: Option<seq<Metric>>)
    ensures After([], rest) == rest
  {
    if rest.Some? {
      assert [] + rest.value == rest.value;
    }
  }

  /** What one row adds to the players listed before it. */
  lemma PlayersStep(parts: seq<string>, i: nat, statuses: seq<Metric>)
    requires i <= |parts|
    ensures i == |parts| || Trim(parts[i]) == END_LINE ==> After(statuses, PlayersIn(parts[i..])) == Some(statuses)
    ensures i < |parts| && Trim(parts[i]) != END_LINE ==>
      After(statuses, PlayersIn(parts[i..])) ==
      match ParseStatusRow(parts[i])
      case Thrown => None
      case Bot => After(statuses, PlayersIn(parts[i + 1..]))
      case Player(m) => After(statuses + [m], PlayersIn(parts[i + 1..]))
  {
    hide ParseStatusRow, Trim, END_LINE;
    assert statuses + [] == statuses;
    if i < |parts| {
      assert parts[i..][0] == parts[i] && parts[i..][1..] == parts[i + 1..];
      if PlayersIn(parts[i + 1..]).Some? && ParseStatusRow(parts[i]).Player? {
        var m, more := ParseStatusRow(parts[i]).metric, PlayersIn(parts[i + 1..]).value;
        assert statuses + ([m] + more) == statuses + [m] + more;
      }
    }
  }

  /** The row throws, and no line up to it ends the table. */
  ghost predicate ThrowsAt(parts: seq<string>, i: nat) {
    i < |parts| && ParseStatusRow(parts[i]).Thrown? && forall k | 0 <= k <= i :: Trim(parts[k]) != "#end"
  }

  lemma ThrowsLater(parts: seq<string>, i: nat)
    requires parts != []
    ensures ThrowsAt(parts, i + 1) <==> Trim(parts[0]) != "#end" && ThrowsAt(parts[1..], i)
  {
    hide ParseStatusRow, Trim;
    var rest := parts[1..];
    if i < |rest| {
      assert parts[i + 1] == rest[i];
      assert forall k | 0 <= k <= i :: rest[k] == parts[k + 1];
      if forall k | 0 <= k <= i :: Trim(rest[k]) != "#end" {
        assert forall k | 1 <= k <= i + 1 :: parts[k] == rest[k - 1];
      }
    }
  }

  /** A listing throws exactly when some row before its first end line does. */
  lemma {:induction false} ListingThrowsIff(parts: seq<string>)
    ensures PlayersIn(parts).None? <==> exists i: nat :: ThrowsAt(parts, i)
  {
    hide ParseStatusRow, Trim, ThrowsAt;
    if parts == [] {
      NoRowThrows();
    } else {
      var rest := parts[1..];
      ListingThrowsIff(rest);
      FirstRowThrows(parts);
      if i: nat :| ThrowsAt(parts, i) {
        if i > 0 { ThrowsLater(parts, i - 1); }
      }
      if i: nat :| ThrowsAt(rest, i) {
        ThrowsLater(parts, i);
      }
    }
  }

  lemma NoRowThrows()
    ensures forall i: nat :: !ThrowsAt([], i)
  {
  }

  lemma FirstRowThrows(parts: seq<string>)
    requires parts != []
    ensures ThrowsAt(parts, 0) <==> ParseStatusRow(parts[0]).Thrown? && Trim(parts[0]) != "#end"
    ensures Trim(parts[0]) == "#end" ==> forall i: nat :: !ThrowsAt(parts, i)
  {
    hide ParseStatusRow, Trim;
  }

  /** The source's loop, pushing into `statuses` and breaking at the end line. */
  method ReadStatusResponse(raw: string) returns (r: Option<seq<Metric>>)
    ensures r == ParseStatusResponse(raw)
  {
    hide ParseStatusRow, Trim, Lines, HEADER, END_LINE, PlayersIn;
    var parts := Lines(raw);
    parts := parts[HeaderIndex(parts) + 1..];
    var statuses: seq<Metric> := [];
    var i := 0;
    assert parts[0..] == parts;
    AfterNothing(PlayersIn(parts));
    while i < |parts|
      invariant 0 <= i <= |parts|
      invariant After(statuses, PlayersIn(parts[i..])) == PlayersIn(parts)
    {
      PlayersStep(parts, i, statuses);
      var part := parts[i];
      if Trim(part) == END_LINE {
        break;
      }
      var parsed := ParseStatusRow(part);
      if parsed.Thrown? {
        return None;
      }
      if parsed.Player? {
        statuses := statuses + [parsed.metric];
      }
      i := i + 1;
    }
    PlayersStep(parts, i, statuses);
    r := Some(statuses);
  }

  lemma {:induction false} LinesInvertsJoined(lines: seq<string>)
    requires lines != [] && forall l | l in lines :: '\n' !in l
    ensures Lines(Joined(lines)) == lines
  {
    hide NewlineIndex, Lines;
    var first := lines[0];
    assert first in lines;
    if |lines| == 1 {
      NewlineIndexIs(first, "");
      assert first + "" == first;
      LinesStep(first);
    } else {
      var rest := Joined(lines[1..]);
      LinesInvertsJoined(lines[1..]);
      NewlineIndexIs(first, "\n" + rest);
      var s := first + ("\n" + rest);
      LinesStep(s);
      assert s[..|first|] == first && s[|first| + 1..] == rest && s == Joined(lines);
    }
  }

  lemma LinesStep(raw: string)
    ensures var n := NewlineIndex(raw);
      Lines(raw) == if n == |raw| then [raw] else [raw[..n]] + Lines(raw[n + 1..])
  {
    hide NewlineIndex;
  }

  lemma {:induction false} NewlineIndexIs(line: string, rest: string)
    requires '\n' !in line && (rest == "" || rest[0] == '\n')
    ensures NewlineIndex(line + rest) == |line|
  {
    if line == "" {
      assert line + rest == rest;
    } else {
      assert (line + rest)[1..] == line[1..] + rest;
      NewlineIndexIs(line[1..], rest);
    }
  }

  lemma QuoteIsWithin(s: string, low: nat, high: nat, i: nat)
    requires low <= high <= |s| && !HasQuote(s[..low]) && !HasQuote(s[high..])
    requires i < |s| && s[i] == QUOTE
    ensures low <= i < high
  {
    assert forall k | 0 <= k < low :: s[k] == s[..low][k];
    assert forall k | high <= k < |s| :: s[k] == s[high..][k - high];
  }

  lemma TrimKeepsQuote(s: string)
    requires HasQuote(s)
    ensures HasQuote(Trim(s))
  {
    hide IsSpace, AllSpace, LeadingSpaces, TrailingSpaces;
    var n := LeadingSpaces(s);
    var rest := s[n..];
    var high := |s| - TrailingSpaces(rest);
    var i :| 0 <= i < |s| && s[i] == QUOTE;
    SpacesHaveNoQuote(s[..n]);
    SpacesHaveNoQuote(s[high..]) by { assert s[high..] == rest[high - n..]; }
    QuoteIsWithin(s, n, high, i);
    assert Trim(s) == s[n..high] && s[n..high][i - n] == QUOTE;
  }

  lemma SpacesHaveNoQuote(s: string)
    requires AllSpace(s)
    ensures !HasQuote(s)
  {
  }

  lemma RowIsNotEnd(row: StatusRow)
    requires row.Valid()
    ensures Trim(row.Print()) != END_LINE && '\n' !in row.Print()
  {
    hide StatusRow.Front, StatusRow.Back, Trim, SplitFields, StatusRow.Head, StatusRow.Tail;
    SplitOfRow(row);
    assert row.Print()[|row.Front()|] == QUOTE;
    TrimKeepsQuote(row.Print());
    NameHasNoNewline(row);
    assert !HasQuote(END_LINE);
  }

  lemma NameHasNoNewline(row: StatusRow)
    requires row.Valid()
    ensures '\n' !in row.name
  {
  }

  function PrintedRows(rows: seq<StatusRow>): seq<string>
    requires forall r | r in rows :: r.Valid()
  {
    seq(|rows|, i requires 0 <= i < |rows| => rows[i].Print())
  }

  function HumansIn(rows: seq<StatusRow>): seq<Metric> {
    if rows == [] then []
    else (if rows[0].Human? then [rows[0].Meaning()] else []) + HumansIn(rows[1..])
  }

  /** The players read from printed rows one by one. */
  function PlayersOf(rows: seq<StatusRow>): seq<Metric>
    requires forall r | r in rows :: r.Valid()
  {
    if rows == [] then []
    else
      var r := ParseStatusRow(rows[0].Print());
      (if r.Player? then [r.metric] else []) + PlayersOf(rows[1..])
  }

  lemma {:induction false} PlayersOfRows(rows: seq<StatusRow>, end: string, trailer: seq<string>)
    requires (forall r | r in rows :: r.Valid()) && Trim(end) == END_LINE
    ensures PlayersIn(PrintedRows(rows) + ([end] + trailer)) == Some(PlayersOf(rows))
  {
    hide ParseStatusRow, StatusRow.Valid, StatusRow.Print, StatusRow.Meaning, Trim, END_LINE, StatusRow.Legible;
    var parts := PrintedRows(rows) + ([end] + trailer);
    if rows == [] {
      assert parts[0] == end;
    } else {
      assert rows[0] in rows;
      RowIsNotEnd(rows[0]);
      ParseStatusRowInvertsPrint(rows[0]);
      assert parts[0] == rows[0].Print();
      assert parts[1..] == PrintedRows(rows[1..]) + ([end] + trailer);
      PlayersOfRows(rows[1..], end, trailer);
      assert [] + PlayersOf(rows[1..]) == PlayersOf(rows[1..]);
    }
  }

  /** Every human is among the players; they are all, and as they are, iff every row is legible. */
  lemma {:induction false} PlayersAreHumans(rows: seq<StatusRow>)
    requires forall r | r in rows :: r.Valid()
    ensures |PlayersOf(rows)| >= |HumansIn(rows)|
    ensures PlayersOf(rows) == HumansIn(rows) <==> forall r | r in rows :: r.Legible()
  {
    hide ParseStatusRow, StatusRow.Valid, StatusRow.Print, StatusRow.Meaning, StatusRow.Legible;
    if rows != [] {
      var row, rest := rows[0], rows[1..];
      assert row in rows;
      assert rows == [row] + rest;
      ParseStatusRowInvertsPrint(row);
      PlayersAreHumans(rest);
      var ps, hs := PlayersOf(rest), HumansIn(rest);
      assert [] + ps == ps && [] + hs == hs;
      if row.Human? {
        var m := ParseStatusRow(row.Print()).metric;
        assert ([m] + ps)[0] == m && ([m] + ps)[1..] == ps;
        assert ([row.Meaning()] + hs)[0] == row.Meaning() && ([row.Meaning()] + hs)[1..] == hs;
      }
    }
  }

  lemma HeaderIndexIs(parts: seq<string>, k: nat)
    requires k < |parts| && Trim(parts[k]) == HEADER
    requires forall i | 0 <= i < k :: Trim(parts[i]) != HEADER
    ensures HeaderIndex(parts) == k
  {
    hide Trim, HEADER;
    var trimmed := seq(|parts|, i requires 0 <= i < |parts| => Trim(parts[i]));
    assert trimmed[k] == HEADER;
    assert forall i | 0 <= i < k :: trimmed[i] != HEADER;
  }

  /** A response as the server prints it, among the console lines around it. */
  predicate IsResponse(
    preamble: seq<string>, header: string, rows: seq<StatusRow>, end: string, trailer: seq<string>) {
    && (forall l | l in preamble ::
          '\n' !in l && Trim(l) != "# userid name uniqueid connected ping loss state rate adr")
    && '\n' !in header && Trim(header) == "# userid name uniqueid connected ping loss state rate adr"
    && (forall r | r in rows :: r.Valid())
    && '\n' !in end && Trim(end) == "#end"
    && (forall l | l in trailer :: '\n' !in l)
  }

  function Response(
    preamble: seq<string>, header: string, rows: seq<StatusRow>, end: string, trailer: seq<string>): string
    requires IsResponse(preamble, header, rows, end, trailer)
  {
    Joined(preamble + [header] + PrintedRows(rows) + [end] + trailer)
  }

  lemma ResponseLines(
    preamble: seq<string>, header: string, rows: seq<StatusRow>, end: string, trailer: seq<string>)
    requires IsResponse(preamble, header, rows, end, trailer)
    ensures Lines(Response(preamble, header, rows, end, trailer))
         == preamble + [header] + PrintedRows(rows) + [end] + trailer
  {
    hide StatusRow.Valid, StatusRow.Print, Trim, END_LINE, HEADER, Lines, Joined;
    forall l | l in PrintedRows(rows)
      ensures '\n' !in l
    {
      var i :| 0 <= i < |rows| && l == rows[i].Print();
      assert rows[i] in rows;
      RowIsNotEnd(rows[i]);
    }
    LinesInvertsJoined(preamble + [header] + PrintedRows(rows) + [end] + trailer);
  }

  lemma ResponseIsReadRowByRow(
    preamble: seq<string>, header: string, rows: seq<StatusRow>, end: string, trailer: seq<string>)
    requires IsResponse(preamble, header, rows, end, trailer)
    ensures ParseStatusResponse(Response(preamble, header, rows, end, trailer)) == Some(PlayersOf(rows))
  {
    hide StatusRow.Valid, Trim, PlayersIn, PlayersOf, Lines, Response, PrintedRows, HeaderIndex;
    ResponseLines(preamble, header, rows, end, trailer);
    var printed, rest := PrintedRows(rows), [end] + trailer;
    var parts := preamble + [header] + printed + [end] + trailer;
    var k := |preamble|;
    assert parts == preamble + [header] + (printed + rest);
    assert parts[k] == header && forall i | 0 <= i < k :: parts[i] == preamble[i];
    HeaderIndexIs(parts, k);
    assert parts[k + 1..] == printed + rest;
    PlayersOfRows(rows, end, trailer);
  }

  /**
   * Any printed response is read, and exactly the human rows come back, in order, whatever stands before and after,
   * iff every row is legible; no human is left out in any case.
   */
  lemma ParseStatusResponseInvertsPrint(
    preamble: seq<string>, header: string, rows: seq<StatusRow>, end: string, trailer: seq<string>)
    requires IsResponse(preamble, header, rows, end, trailer)
    ensures var r := ParseStatusResponse(Response(preamble, header, rows, end, trailer));
      && r.Some? && |r.value| >= |HumansIn(rows)|
      && (r.value == HumansIn(rows) <==> forall row | row in rows :: row.Legible())
  {
    hide StatusRow.Valid, StatusRow.Legible, ParseStatusResponse, Response, Trim, HEADER, END_LINE;
    ResponseIsReadRowByRow(preamble, header, rows, end, trailer);
    assert forall r | r in rows :: r.Valid();
    PlayersAreHumans(rows);
  }

  lemma RowIsNotHeader(row: StatusRow)
    requires row.Valid()
    ensures Trim(row.Print()) != "# userid name uniqueid connected ping loss state rate adr"
  {
    hide StatusRow.Front, StatusRow.Back, Trim, SplitFields, StatusRow.Head, StatusRow.Tail;
    SplitOfRow(row);
    assert row.Print()[|row.Front()|] == QUOTE;
    TrimKeepsQuote(row.Print());
    HeaderHasNoQuote();
  }

  lemma HeaderHasNoQuote()
    ensures !HasQuote("# userid name uniqueid connected ping loss state rate adr")
  {
    hide HasQuote;
    WordsHaveNoQuote();
    HeaderIsWords();
    NoQuoteConcat("# userid name uniqueid ", "connected ping loss ");
    NoQuoteConcat("# userid name uniqueid " + "connected ping loss ", "state rate adr");
  }

  lemma NoQuoteConcat(a: string, b: string)
    requires !HasQuote(a) && !HasQuote(b)
    ensures !HasQuote(a + b)
  {
  }

  lemma WordsHaveNoQuote()
    ensures !HasQuote("# userid name uniqueid ") && !HasQuote("connected ping loss ") && !HasQuote("state rate adr")
  {
  }

  lemma HeaderIsWords()
    ensures "# userid name uniqueid " + "connected ping loss " + "state rate adr"
         == "# userid name uniqueid connected ping loss state rate adr"
  {
  }

  lemma NoHeaderIndex(parts: seq<string>)
    requires forall l | l in parts :: Trim(l) != HEADER
    ensures HeaderIndex(parts) == -1
  {
    hide Trim, HEADER;
    assert forall i | 0 <= i < |parts| :: parts[i] in parts;
  }

  /** Without a header the rows are read from the first line on. */
  lemma HeaderlessResponseIsRead(rows: seq<StatusRow>, end: string, trailer: seq<string>)
    requires (forall r | r in rows :: r.Valid()) && '\n' !in end && Trim(end) == "#end"
    requires forall l | l in trailer ::
               '\n' !in l && Trim(l) != "# userid name uniqueid connected ping loss state rate adr"
    ensures var r := ParseStatusResponse(Joined(PrintedRows(rows) + ([end] + trailer)));
      && r.Some? && |r.value| >= |HumansIn(rows)|
      && (r.value == HumansIn(rows) <==> forall row | row in rows :: row.Legible())
  {
    hide StatusRow.Valid, StatusRow.Legible, StatusRow.Print, Trim, Lines, Joined, PlayersIn, PlayersOf, HeaderIndex;
    var parts := PrintedRows(rows) + ([end] + trailer);
    forall l | l in parts
      ensures '\n' !in l && Trim(l) != HEADER
    {
      if l in PrintedRows(rows) {
        var i :| 0 <= i < |rows| && l == rows[i].Print();
        assert rows[i] in rows;
        RowIsNotEnd(rows[i]);
        RowIsNotHeader(rows[i]);
      }
    }
    LinesInvertsJoined(parts);
    NoHeaderIndex(parts);
    assert parts[0..] == parts;
    PlayersOfRows(rows, end, trailer);
    PlayersAreHumans(rows);
  }
}
