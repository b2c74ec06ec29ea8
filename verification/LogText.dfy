/** The passes over raw text: timestamps out, payload between two marks, comments out. */
module LogText {
  import opened Text

  // ---- timestamps --------------------------------------------------------------------------------

  /** `\d\d/\d\d/\d\d\d\d - \d\d:\d\d:\d\d: `, with 9 standing for a digit. */
  const STAMP_SHAPE: string := "99/99/9999 - 99:99:99: "

  predicate FitsShape(c: char, shape: char) {
    if shape == '9' then IsDigit(c) else c == shape
  }

  predicate IsStamp(s: string) {
    |s| == |STAMP_SHAPE| && forall k | 0 <= k < |s| :: FitsShape(s[k], STAMP_SHAPE[k])
  }

  /** A timestamp begins at `i`. */
  predicate StampAt(s: string, i: int) {
    0 <= i <= |s| - |STAMP_SHAPE| && IsStamp(s[i..i + |STAMP_SHAPE|])
  }

  predicate StampFree(s: string) {
    forall i :: 0 <= i < |s| ==> !StampAt(s, i)
  }

  /** `input.replaceAll(regex, '')`: matches are taken from the left and do not overlap. */
  function StripStamps(s: string): string
    decreases |s|
  {
    if s == "" then ""
    else if StampAt(s, 0) then StripStamps(s[|STAMP_SHAPE|..])
    else [s[0]] + StripStamps(s[1..])
  }

  predicate HasDigits(s: string, n: nat) {
    |s| == n && forall i | 0 <= i < n :: '0' <= s[i] <= '9'
  }

  /** A timestamp, part by part, as the server writes it. */
  datatype Stamp = Stamp(month: string, day: string, year: string, hour: string, minute: string, second: string)
  {
    predicate Valid() {
      && HasDigits(month, 2) && HasDigits(day, 2) && HasDigits(year, 4)
      && HasDigits(hour, 2) && HasDigits(minute, 2) && HasDigits(second, 2)
    }

    function Text(): string {
      month + "/" + day + "/" + year + " - " + hour + ":" + minute + ":" + second + ": "
    }
  }

  /** No timestamp begins anywhere in the text. */
  ghost predicate HasNoStamp(text: string) {
    forall stamp: Stamp, at: nat | stamp.Valid() :: !OccursAt(text, stamp.Text(), at)
  }

  lemma StampHasShape(stamp: Stamp)
    requires stamp.Valid()
    ensures IsStamp(stamp.Text())
  {
    var s := stamp.Text();
    assert |s| == 23;
    assert s[..2] == stamp.month && s[2] == '/' && s[3..5] == stamp.day && s[5] == '/' && s[6..10] == stamp.year;
    assert s[10..13] == " - " && s[13..15] == stamp.hour && s[15] == ':' && s[16..18] == stamp.minute && s[18] == ':';
    assert s[19..21] == stamp.second && s[21..] == ": ";
    forall k | 0 <= k < 23
      ensures FitsShape(s[k], STAMP_SHAPE[k])
    {
      assert k < 2 ==> s[k] == stamp.month[k];
      assert 3 <= k < 5 ==> s[k] == stamp.day[k - 3];
      assert 6 <= k < 10 ==> s[k] == stamp.year[k - 6];
      assert 10 <= k < 13 ==> s[k] == " - "[k - 10];
      assert 13 <= k < 15 ==> s[k] == stamp.hour[k - 13];
      assert 16 <= k < 18 ==> s[k] == stamp.minute[k - 16];
      assert 19 <= k < 21 ==> s[k] == stamp.second[k - 19];
      assert 21 <= k ==> s[k] == ": "[k - 21];
    }
  }

  lemma CutInParts(s: string)
    requires |s| == 23
    ensures s == s[0..2] + [s[2]] + s[3..5] + [s[5]] + s[6..10] + s[10..13] + s[13..15] + [s[15]] + s[16..18] + [s[18]]
                 + s[19..21] + s[21..23]
  {
  }

  /** The parts of a text that has the shape of a timestamp. */
  lemma ShapeIsStamp(s: string) returns (stamp: Stamp)
    requires IsStamp(s)
    ensures stamp.Valid() && stamp.Text() == s
  {
    hide IsStamp;
    MarksOfStamp(s);
    DigitsOfStamp(s);
    CutInParts(s);
    stamp := Stamp(s[0..2], s[3..5], s[6..10], s[13..15], s[16..18], s[19..21]);
  }

  lemma MarksOfStamp(s: string)
    requires IsStamp(s)
    ensures |s| == 23 && [s[2]] == "/" && [s[5]] == "/" && [s[15]] == ":" && [s[18]] == ":"
    ensures s[10..13] == " - " && s[21..23] == ": "
  {
    assert forall k | 0 <= k < 23 :: FitsShape(s[k], STAMP_SHAPE[k]);
    assert s[2] == '/' && s[5] == '/' && s[10] == ' ' && s[11] == '-' && s[12] == ' ';
    assert s[15] == ':' && s[18] == ':' && s[21] == ':' && s[22] == ' ';
  }

  lemma DigitsOfStamp(s: string)
    requires IsStamp(s)
    ensures |s| == 23
    ensures HasDigits(s[0..2], 2) && HasDigits(s[3..5], 2) && HasDigits(s[6..10], 4)
    ensures HasDigits(s[13..15], 2) && HasDigits(s[16..18], 2) && HasDigits(s[19..21], 2)
  {
    assert forall k | 0 <= k < 23 :: FitsShape(s[k], STAMP_SHAPE[k]);
  }

  lemma StampAtIs(text: string, at: nat)
    requires StampAt(text, at)
    ensures exists stamp: Stamp :: stamp.Valid() && OccursAt(text, stamp.Text(), at)
  {
    hide IsStamp, Stamp.Text, Stamp.Valid;
    var window := text[at..at + |STAMP_SHAPE|];
    StampIsLong(window);
    var stamp := ShapeIsStamp(window);
    assert OccursAt(text, stamp.Text(), at);
  }

  lemma StampIsFound(text: string, stamp: Stamp, at: nat)
    requires stamp.Valid() && OccursAt(text, stamp.Text(), at)
    ensures at < |text| && StampAt(text, at)
  {
    hide IsStamp, Stamp.Text, Stamp.Valid;
    StampHasShape(stamp);
    StampIsLong(stamp.Text());
  }

  /** The regular expression finds nothing in a text iff there is no timestamp in it. */
  lemma StampFreeIff(text: string)
    ensures StampFree(text) <==> HasNoStamp(text)
  {
    hide IsStamp, StampAt, Stamp.Text, Stamp.Valid, OccursAt;
    if i: nat :| i < |text| && StampAt(text, i) { StampAtIs(text, i); }
    if stamp: Stamp, at: nat :| stamp.Valid() && OccursAt(text, stamp.Text(), at) { StampIsFound(text, stamp, at); }
  }

  lemma StampIsLong(s: string)
    requires IsStamp(s)
    ensures |s| == |STAMP_SHAPE| == 23
  {
  }

  /** A line of the log, which may begin with a timestamp. */
  datatype Line = Line(stamp: Option<Stamp>, text: string)
  {
    ghost predicate Valid() {
      (stamp.Some? ==> stamp.value.Valid()) && '\n' !in text && HasNoStamp(text)
    }

    function StampText(): string {
      if stamp.Some? then stamp.value.Text() else ""
    }
  }

  /** The log as written: every line but the last ends in a newline. */
  function Written(lines: seq<Line>): string {
    if lines == [] then ""
    else lines[0].StampText() + lines[0].text + if |lines| == 1 then "" else "\n" + Written(lines[1..])
  }

  /** The log without its timestamps. */
  function Plain(lines: seq<Line>): string {
    if lines == [] then ""
    else lines[0].text + if |lines| == 1 then "" else "\n" + Plain(lines[1..])
  }

  /** A timestamp has no newline in it, so none begins in a line and ends in the next. */
  lemma StampStaysInLine(text: string, after: string)
    requires '\n' !in text && (after == "" || after[0] == '\n')
    requires StampAt(text + after, 0)
    ensures StampAt(text, 0)
  {
    var s := text + after;
    var window := s[..|STAMP_SHAPE|];
    if |text| >= |STAMP_SHAPE| {
      assert window == text[..|STAMP_SHAPE|];
    } else {
      assert FitsShape(window[|text|], STAMP_SHAPE[|text|]) && window[|text|] == s[|text|] == '\n';
      ShapeHasNoNewline(|text|);
      assert false;
    }
  }

  lemma ShapeHasNoNewline(k: nat)
    requires k < |STAMP_SHAPE|
    ensures !FitsShape('\n', STAMP_SHAPE[k])
  {
  }

  lemma StampFreeTail(text: string)
    requires text != "" && StampFree(text)
    ensures StampFree(text[1..]) && !StampAt(text, 0)
  {
    var tail := text[1..];
    forall i | 0 <= i < |tail|
      ensures !StampAt(tail, i)
    {
      assert !StampAt(text, i + 1);
      assert i + |STAMP_SHAPE| <= |tail| ==>
        text[i + 1..i + 1 + |STAMP_SHAPE|] == tail[i..i + |STAMP_SHAPE|];
    }
  }

  lemma {:induction false} StripPastText(text: string, after: string)
    requires StampFree(text) && '\n' !in text && (after == "" || after[0] == '\n')
    ensures StripStamps(text + after) == text + StripStamps(after)
  {
    hide StampAt, StampFree;
    if text == "" {
      assert text + after == after;
    } else {
      var s := text + after;
      StampFreeTail(text);
      if StampAt(s, 0) { StampStaysInLine(text, after); }
      assert s[1..] == text[1..] + after;
      StripPastText(text[1..], after);
    }
  }

  lemma StripPastNewline(after: string)
    ensures StripStamps("\n" + after) == "\n" + StripStamps(after)
  {
    var s := "\n" + after;
    assert s[1..] == after;
    if StampAt(s, 0) { StampStaysInLine("", s) by { assert "" + s == s; } }
  }

  lemma StripPastStamp(stamp: string, rest: string)
    requires IsStamp(stamp)
    ensures StripStamps(stamp + rest) == StripStamps(rest)
  {
    var s := stamp + rest;
    assert s[0..0 + |STAMP_SHAPE|] == stamp;
    assert s[|STAMP_SHAPE|..] == rest;
  }

  /** Whatever timestamps stand at line starts, stripping leaves the lines as they are without them. */
  lemma {:induction false} StripInvertsStamping(lines: seq<Line>)
    requires forall l | l in lines :: l.Valid()
    ensures StripStamps(Written(lines)) == Plain(lines)
  {
    hide StampFree, HasNoStamp, StampAt, IsStamp, StripStamps, Stamp.Text, Stamp.Valid;
    if lines == [] {
      StripOfNothing();
    } else {
      var l := lines[0];
      assert l in lines;
      var after := if |lines| == 1 then "" else "\n" + Written(lines[1..]);
      StripInvertsStamping(lines[1..]);
      StampFreeIff(l.text);
      StripPastText(l.text, after);
      if |lines| == 1 { StripOfNothing(); } else { StripPastNewline(Written(lines[1..])); }
      assert Written(lines) == l.StampText() + (l.text + after);
      if l.stamp.None? {
        assert "" + (l.text + after) == l.text + after;
      } else {
        StampHasShape(l.stamp.value);
        StripPastStamp(l.stamp.value.Text(), l.text + after);
      }
    }
  }

  lemma StripOfNothing()
    ensures StripStamps("") == ""
  {
  }

  // ---- the payload -------------------------------------------------------------------------------

  const START_SIGNAL: string := "SIGNOUT: Job created, Protobuf:"
  const END_MARK: string := "\ncluster_id"

  /** What stands between the start signal with one character after it and the first end mark. */
  function Payload(log: string): string {
    Slice(log, IndexOf(log, START_SIGNAL) + |START_SIGNAL| + 1, IndexOf(log, END_MARK))
  }

  predicate StartsOnce(pattern: string) {
    pattern != "" && forall k | 0 < k < |pattern| :: pattern[k] != pattern[0]
  }

  /** A pattern whose first character never recurs in it cannot begin before itself and run into itself. */
  lemma OccurrenceIsEarlier(before: string, pattern: string, after: string, at: nat)
    requires StartsOnce(pattern) && at < |before|
    requires OccursAt(before + pattern + after, pattern, at)
    ensures OccursAt(before, pattern, at)
  {
    var s := before + pattern + after;
    var window := s[at..at + |pattern|];
    assert s[|before|] == pattern[0];
    assert forall k | at <= k < at + |pattern| :: s[k] == window[k - at];
    assert before[at..at + |pattern|] == window;
  }

  lemma FirstOccurrence(before: string, pattern: string, after: string)
    requires StartsOnce(pattern) && !Contains(before, pattern)
    ensures IndexOf(before + pattern + after, pattern) == |before|
  {
    var s := before + pattern + after;
    assert s[|before|..|before| + |pattern|] == pattern;
    forall k | 0 <= k < |before|
      ensures !OccursAt(s, pattern, k)
    {
      if OccursAt(s, pattern, k) {
        OccurrenceIsEarlier(before, pattern, after, k);
      }
    }
    IndexOfIs(s, pattern, |before|);
  }

  lemma MarksStartOnce()
    ensures StartsOnce(START_SIGNAL) && StartsOnce(END_MARK)
  {
  }

  lemma MarksAre()
    ensures START_SIGNAL == "SIGNOUT: Job created, Protobuf:" && END_MARK == "\ncluster_id"
  {
  }

  /** Where the data begins: one character after the first start signal, or at the 32nd when there is none. */
  ghost predicate BeginsData(front: string, rest: string) {
    if Contains(front + rest, "SIGNOUT: Job created, Protobuf:") then
      exists header, gap: string ::
        && front == header + "SIGNOUT: Job created, Protobuf:" + gap
        && !Contains(header, "SIGNOUT: Job created, Protobuf:") && (|gap| == 1 || (gap == "" && rest == ""))
    else
      |front| == 31 || (|front| < 31 && rest == "")
  }

  lemma DataIndex(front: string, rest: string)
    requires BeginsData(front, rest)
    ensures var from := IndexOf(front + rest, START_SIGNAL) + |START_SIGNAL| + 1;
      from == |front| || (from > |front| && rest == "")
  {
    hide START_SIGNAL, END_MARK, StartsOnce, Contains, IndexOf;
    MarksAre();
    MarksStartOnce();
    if Contains(front + rest, START_SIGNAL) {
      var header, gap: string :| front == header + START_SIGNAL + gap
        && !Contains(header, START_SIGNAL) && (|gap| == 1 || (gap == "" && rest == ""));
      assert front + rest == header + START_SIGNAL + (gap + rest);
      FirstOccurrence(header, START_SIGNAL, gap + rest);
    }
  }

  /**
   * The payload of any log: from where the data begins up to the first end mark, which may come before that; without an
   * end mark, all but the last character.
   */
  lemma PayloadCut(front: string, rest: string)
    requires BeginsData(front, rest)
    ensures !Contains(front + rest, "\ncluster_id") ==>
      Payload(front + rest) == if rest == "" then "" else rest[..|rest| - 1]
    ensures forall before, trailer |
      front + rest == before + "\ncluster_id" + trailer && !Contains(before, "\ncluster_id") ::
      Payload(front + rest) == if |before| <= |front| then "" else before[|front|..]
  {
    hide START_SIGNAL, END_MARK, StartsOnce, Contains, IndexOf, BeginsData, Slice;
    MarksAre();
    MarksStartOnce();
    DataIndex(front, rest);
    var log := front + rest;
    var from := IndexOf(log, START_SIGNAL) + |START_SIGNAL| + 1;
    if !Contains(log, END_MARK) {
      CutWithoutEnd(front, rest, from);
    }
    forall before, trailer | log == before + END_MARK + trailer && !Contains(before, END_MARK)
      ensures Payload(log) == if |before| <= |front| then "" else before[|front|..]
    {
      FirstOccurrence(before, END_MARK, trailer);
      CutAt(log, front, rest, before, from);
    }
  }

  lemma CutWithoutEnd(front: string, rest: string, from: nat)
    requires from == |front| || (from > |front| && rest == "")
    ensures Slice(front + rest, from, -1) == if rest == "" then "" else rest[..|rest| - 1]
  {
    var log := front + rest;
    if rest != "" { assert log[|front|..|log| - 1] == rest[..|rest| - 1]; }
  }

  lemma CutAt(log: string, front: string, rest: string, before: string, from: nat)
    requires log == front + rest && before <= log && (from == |front| || (from > |front| && rest == ""))
    ensures Slice(log, from, |before|) == if |before| <= |front| then "" else before[|front|..]
  {
    assert before == log[..|before|];
  }

  /** The payload is cut exactly, if the header has no start signal and the end mark comes only after the body. */
  lemma PayloadIsBody(header: string, gap: char, body: string, trailer: string)
    requires !Contains(header, "SIGNOUT: Job created, Protobuf:")
    requires !Contains(header + "SIGNOUT: Job created, Protobuf:" + [gap] + body, "\ncluster_id")
    ensures Payload(header + "SIGNOUT: Job created, Protobuf:" + [gap] + body + "\ncluster_id" + trailer) == body
  {
    hide Contains, Payload, BeginsData;
    var front := header + "SIGNOUT: Job created, Protobuf:" + [gap];
    var rest := body + "\ncluster_id" + trailer;
    DataBeginsAfterSignal(header, gap, rest);
    PayloadCut(front, rest);
    assert front + rest == front + body + "\ncluster_id" + trailer;
    assert (front + body)[|front|..] == body;
  }

  lemma DataBeginsAfterSignal(header: string, gap: char, rest: string)
    requires !Contains(header, "SIGNOUT: Job created, Protobuf:")
    ensures BeginsData(header + "SIGNOUT: Job created, Protobuf:" + [gap], rest)
  {
    var front := header + "SIGNOUT: Job created, Protobuf:" + [gap];
    assert OccursAt(front + rest, "SIGNOUT: Job created, Protobuf:", |header|);
  }

  // ---- comments ----------------------------------------------------------------------------------

  /** How far `.*` reaches from the start of `s`. */
  function LineLength(s: string): (n: nat)
    ensures n <= |s| && (forall i | 0 <= i < n :: !IsLineEnd(s[i])) && (n < |s| ==> IsLineEnd(s[n]))
  {
    if s == "" || IsLineEnd(s[0]) then 0 else 1 + LineLength(s[1..])
  }

  /** `rawData.replace(/#.*$/gm, '')` */
  function WithoutComments(s: string): string
    decreases |s|
  {
    if s == "" then ""
    else if s[0] == '#' then WithoutComments(s[LineLength(s)..])
    else [s[0]] + WithoutComments(s[1..])
  }

  lemma {:induction false} CommentFreePrefix(text: string, after: string)
    requires '#' !in text
    ensures WithoutComments(text + after) == text + WithoutComments(after)
  {
    if text == "" {
      assert text + after == after;
    } else {
      assert (text + after)[1..] == text[1..] + after;
      CommentFreePrefix(text[1..], after);
    }
  }

  lemma {:induction false} LineLengthIs(line: string, after: string)
    requires (forall i | 0 <= i < |line| :: !IsLineEnd(line[i])) && (after == "" || IsLineEnd(after[0]))
    ensures LineLength(line + after) == |line|
  {
    if line == "" {
      assert line + after == after;
    } else {
      assert (line + after)[1..] == line[1..] + after;
      LineLengthIs(line[1..], after);
    }
  }

  lemma CommentPrefix(text: string, after: string)
    requires (forall i | 0 <= i < |text| :: !IsLineEnd(text[i])) && (after == "" || IsLineEnd(after[0]))
    ensures WithoutComments("#" + text + after) == WithoutComments(after)
  {
    var line := "#" + text;
    LineLengthIs(line, after);
    assert (line + after)[|line|..] == after;
  }
}
