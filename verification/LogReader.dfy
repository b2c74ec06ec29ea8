/** `parseLog`: the passes in sequence, and the round trip of a message printed into a log. */
module LogReader {
  import opened Text
  import opened Values
  import opened LogText
  import opened Tokens
  import opened Message
  import opened Collapse

  datatype Reading = Read(message: Json) | Failed

  function LogTokens(input: string): seq<string> {
    Tokenize(Trim(WithoutComments(Payload(StripStamps(input)))))
  }

  function ParseLog(input: string): Reading {
    match ParseFrom(LogTokens(input), 0, map[])
    case Thrown => Failed
    case Parsed(fields, _) => Read(Collapsed(ObjectOf(fields), NO_COLLAPSE_KEYS))
  }

  method ReadLog(input: string) returns (r: Reading)
    ensures r == ParseLog(input)
  {
    var tokens := TokenizeLoop(Trim(WithoutComments(Payload(StripStamps(input)))));
    var parsed := ParseObject(tokens, 0);
    if parsed.Thrown? {
      return Failed;
    }
    var message := CollapseRepeated(ObjectOf(parsed.fields), NO_COLLAPSE_KEYS);
    return Read(message);
  }

  /** A log is read iff the scan of its tokens finds the end; what is read is already fully collapsed. */
  lemma ReadIffScanEnds(input: string)
    ensures ParseLog(input).Read? <==> Scan(LogTokens(input), 0, 0) != -1
    ensures ParseLog(input).Read? ==>
      var m := ParseLog(input).message;
      m.Obj? && Collapsed(m, NO_COLLAPSE_KEYS) == m && Raw(Expanded(m))
  {
    hide Scan, LogTokens, ParseFrom, Collapsed, Expanded, Raw, RawFields, NO_COLLAPSE_KEYS;
    var tokens := LogTokens(input);
    ParserEndsWhereScanSays(tokens, 0, map[]);
    EmptyIsRaw();
    ParserOutputIsRaw(tokens, 0, map[]);
    var r := ParseFrom(tokens, 0, map[]);
    if r.Parsed? {
      CollapseIsIdempotent(ObjectOf(r.fields), NO_COLLAPSE_KEYS);
      ExpandInvertsCollapse(ObjectOf(r.fields), NO_COLLAPSE_KEYS);
      CollapsedObject(ObjectOf(r.fields), NO_COLLAPSE_KEYS);
    }
  }

  lemma CollapsedObject(v: Json, keep: set<string>)
    ensures v.Obj? ==> Collapsed(v, keep).Obj?
  {
  }

  // ---- laying tokens out as text -----------------------------------------------------------------

  /** A piece of a printed message: a token, one character of white space, or a comment. */
  datatype Piece = Token(token: string) | Blank(c: char) | Comment(words: string)
  {
    predicate Valid() {
      match this
      case Token(t) => IsToken(t) && '#' !in t
      case Blank(c) => IsSpace(c)
      case Comment(words) => forall i | 0 <= i < |words| :: !IsLineEnd(words[i])
    }

    function Text(): string {
      match this
      case Token(t) => t
      case Blank(c) => [c]
      case Comment(words) => "#" + words
    }

    /** A comment runs to a line end, and two words do not touch. */
    predicate MayPrecede(next: Piece) {
      match this
      case Token(t) => IsWord(t) && next.Token? ==> !IsWord(next.token)
      case Blank(_) => true
      case Comment(_) => next.Blank? && IsLineEnd(next.c)
    }
  }

  predicate WellLaid(pieces: seq<Piece>) {
    pieces == [] ||
    (pieces[0].Valid() && (|pieces| > 1 ==> pieces[0].MayPrecede(pieces[1])) && WellLaid(pieces[1..]))
  }

  function Laid(pieces: seq<Piece>): string {
    if pieces == [] then "" else pieces[0].Text() + Laid(pieces[1..])
  }

  function TokensOf(pieces: seq<Piece>): seq<string> {
    if pieces == [] then []
    else (if pieces[0].Token? then [pieces[0].token] else []) + TokensOf(pieces[1..])
  }

  function LaidWithoutComments(pieces: seq<Piece>): string {
    if pieces == [] then ""
    else (if pieces[0].Comment? then "" else pieces[0].Text()) + LaidWithoutComments(pieces[1..])
  }

  lemma {:induction false} CommentsAreRemoved(pieces: seq<Piece>)
    requires WellLaid(pieces)
    ensures WithoutComments(Laid(pieces)) == LaidWithoutComments(pieces)
  {
    hide IsSpace, IsWord, IsToken, WithoutComments;
    if pieces == [] {
      CommentFreePrefix("", "");
      NothingToRemove();
    } else {
      var rest := Laid(pieces[1..]);
      CommentsAreRemoved(pieces[1..]);
      match pieces[0]
      case Token(t) => CommentFreePrefix(t, rest);
      case Blank(c) => SpaceIsNotHash(c); CommentFreePrefix([c], rest);
      case Comment(words) => CommentPrefix(words, rest);
    }
  }

  lemma NothingToRemove()
    ensures WithoutComments("") == ""
  {
  }

  lemma SpaceIsNotHash(c: char)
    requires IsSpace(c)
    ensures c != '#'
  {
  }

  /** After a word comes the end of the message, or a break. */
  lemma WordIsFollowedByBreak(pieces: seq<Piece>)
    requires WellLaid(pieces) && pieces != [] && pieces[0].Token? && IsWord(pieces[0].token)
    ensures var rest := LaidWithoutComments(pieces[1..]); rest == "" || IsBreak(rest[0])
  {
    if |pieces| > 1 {
      var next := pieces[1];
      assert pieces[1..][0] == next && pieces[1..][1..] == pieces[2..];
      if next.Comment? && |pieces| > 2 {
        assert pieces[1..][1] == pieces[2] == pieces[2..][0];
      }
    }
  }

  lemma OtherTokenIsBreak(t: string)
    requires IsToken(t) && !IsWord(t)
    ensures |t| == 1 && IsBreak(t[0])
  {
  }

  lemma {:induction false} LaidTokensAreRead(pieces: seq<Piece>)
    requires WellLaid(pieces)
    ensures Tokenize(LaidWithoutComments(pieces)) == TokensOf(pieces)
  {
    hide IsSpace, IsDelimiter, IsLineEnd, Tokenize;
    if pieces == [] {
      TokenizeOfSpace("");
    } else {
      var rest := LaidWithoutComments(pieces[1..]);
      LaidTokensAreRead(pieces[1..]);
      match pieces[0]
      case Token(t) =>
        TokenizeOfToken(t);
        if IsWord(t) { WordIsFollowedByBreak(pieces); } else { OtherTokenIsBreak(t); }
        TokenizeOfConcat(t, rest);
      case Blank(c) =>
        TokenizeOfSpace([c]);
        TokenizeOfConcat([c], rest);
      case Comment(_) =>
        assert "" + rest == rest;
    }
  }

  /** How far a word reaches that a comment may cut off. */
  function PlainRun(s: string): (n: nat)
    ensures n <= |s| && (forall i | 0 <= i < n :: !IsBreak(s[i]) && s[i] != '#')
    ensures n < |s| ==> IsBreak(s[n]) || s[n] == '#'
  {
    if s == "" || IsBreak(s[0]) || s[0] == '#' then 0 else 1 + PlainRun(s[1..])
  }

  /** The first piece of a text. */
  function FirstPiece(s: string): (p: Piece)
    requires s != ""
    ensures p.Text() != "" && p.Text() <= s && (p.Blank? <==> IsSpace(s[0]))
  {
    if s[0] == '#' then Comment(s[1..LineLength(s)])
    else if IsSpace(s[0]) then Blank(s[0])
    else if IsDelimiter(s[0]) then Token([s[0]])
    else Token(s[..PlainRun(s)])
  }

  lemma FirstPieceIsValid(s: string)
    requires s != ""
    ensures FirstPiece(s).Valid()
    ensures var p, rest := FirstPiece(s), s[|FirstPiece(s).Text()|..];
      rest != "" ==> p.MayPrecede(FirstPiece(rest))
  {
    hide LineLength, PlainRun;
    var p := FirstPiece(s);
    var rest := s[|p.Text()|..];
    if p.Token? && IsWord(p.token) && rest != "" {
      assert rest[0] == s[|p.token|];
      NoWordBegins(rest);
    }
  }

  lemma NoWordBegins(s: string)
    requires s != "" && (IsBreak(s[0]) || s[0] == '#')
    ensures FirstPiece(s).Token? ==> !IsWord(FirstPiece(s).token)
  {
  }

  /** Nothing is left out by laying messages out in pieces: every text is laid out by some. */
  lemma {:induction false} EveryTextIsLaid(s: string) returns (pieces: seq<Piece>)
    ensures WellLaid(pieces) && Laid(pieces) == s
    ensures if s == "" then pieces == [] else pieces != [] && pieces[0] == FirstPiece(s)
    decreases |s|
  {
    hide FirstPiece, Piece.Valid, Piece.MayPrecede;
    if s == "" {
      pieces := [];
    } else {
      var p := FirstPiece(s);
      FirstPieceIsValid(s);
      var others := EveryTextIsLaid(s[|p.Text()|..]);
      pieces := [p] + others;
      assert pieces[1..] == others;
      assert s == p.Text() + s[|p.Text()|..];
    }
  }

  /**
   * A log of a message: the message in any spelling, laid out with any white space and comments, after the start signal
   * and before the end mark, on lines any of which may be stamped.
   */
  ghost predicate LaysOut(
    log: string, fields: seq<Field>, pieces: seq<Piece>, lines: seq<Line>, header: string, gap: char, trailer: string)
  {
    && (forall f | f in fields :: f.Valid())
    && WellLaid(pieces) && TokensOf(pieces) == FieldTokens(fields)
    && (forall l | l in lines :: l.Valid()) && log == Written(lines)
    && Plain(lines) == header + "SIGNOUT: Job created, Protobuf:" + [gap] + Laid(pieces) + "\ncluster_id" + trailer
    && !Contains(header, "SIGNOUT: Job created, Protobuf:")
    && !Contains(header + "SIGNOUT: Job created, Protobuf:" + [gap] + Laid(pieces), "\ncluster_id")
  }

  ghost predicate IsLogOf(log: string, fields: seq<Field>) {
    exists pieces, lines, header, gap, trailer :: LaysOut(log, fields, pieces, lines, header, gap, trailer)
  }

  /** The round trip through all the passes: `parseLog` reads exactly the collapsed multimap of the message. */
  lemma ParseLogInvertsPrinting(
    log: string, fields: seq<Field>, pieces: seq<Piece>, lines: seq<Line>, header: string, gap: char, trailer: string)
    requires LaysOut(log, fields, pieces, lines, header, gap, trailer)
    ensures ParseLog(log) == Read(Collapsed(ObjectOf(Grouped(fields)), NO_COLLAPSE_KEYS))
  {
    hide START_SIGNAL, END_MARK, Contains, WellLaid, FieldTokens, TokensOf, Plain, Written, StripStamps, Payload,
         WithoutComments, Laid, Tokenize, Trim, Field.Valid, Line.Valid, Grouped, ObjectOf, Collapsed;
    StripInvertsStamping(lines);
    PayloadIsBody(header, gap, Laid(pieces), trailer);
    CommentsAreRemoved(pieces);
    TokenizeOfTrim(LaidWithoutComments(pieces));
    LaidTokensAreRead(pieces);
    ParserReadsMessage(fields);
  }

  lemma LogIsRead(log: string, fields: seq<Field>)
    requires IsLogOf(log, fields)
    ensures ParseLog(log) == Read(Collapsed(ObjectOf(Grouped(fields)), NO_COLLAPSE_KEYS))
  {
    hide LaysOut;
    var pieces, lines, header, gap, trailer :| LaysOut(log, fields, pieces, lines, header, gap, trailer);
    ParseLogInvertsPrinting(log, fields, pieces, lines, header, gap, trailer);
  }

  // ---- what stands where in a message that was read ----------------------------------------------

  /** The fields of a body with this key, in order. */
  function FieldsOf(body: seq<Field>, key: string): seq<Field> {
    if body == [] then []
    else (if body[0].key == key then [body[0]] else []) + FieldsOf(body[1..], key)
  }

  /** The body that a path leads to in a message as printed: at each step a key, and which of its fields. */
  function BodyAt(fields: seq<Field>, path: Path): Option<seq<Field>>
    decreases |path|
  {
    if path == [] then Some(fields)
    else
      var fs := FieldsOf(fields, path[0].0);
      if path[0].1 < |fs| && fs[path[0].1].Nested? then BodyAt(fs[path[0].1].body, path[1..]) else None
  }

  lemma {:induction false} ValuesOfFields(body: seq<Field>, key: string)
    ensures var fs, vs := FieldsOf(body, key), ValuesOf(body, key);
      && |fs| == |vs| && (forall i | 0 <= i < |fs| :: vs[i] == fs[i].Meaning() && fs[i] in body && fs[i].key == key)
      && (fs != [] <==> key in KeysOf(body))
    decreases |body|
  {
    hide Field.Meaning;
    if body != [] {
      ValuesOfFields(body[1..], key);
      assert body == [body[0]] + body[1..];
      assert KeysOf(body) == {body[0].key} + KeysOf(body[1..]);
    }
  }

  lemma {:induction false} PathsAreGrouped(fields: seq<Field>, path: Path)
    requires BodyAt(fields, path).Some?
    ensures Descend(ObjectOf(Grouped(fields)), path) == Here(ObjectOf(Grouped(BodyAt(fields, path).value)))
    decreases |path|
  {
    hide KeysOf, ValuesOf;
    if path != [] {
      var key := path[0].0;
      ValuesOfFields(fields, key);
      PathsAreGrouped(FieldsOf(fields, key)[path[0].1].body, path[1..]);
    }
  }

  lemma {:induction false} GroupedIsRaw(fields: seq<Field>)
    ensures RawFields(Grouped(fields)) && Raw(ObjectOf(Grouped(fields)))
    decreases fields
  {
    hide KeysOf, ValuesOf, Raw, ObjectOf;
    forall key | key in Grouped(fields)
      ensures Grouped(fields)[key] != [] && forall x | x in Grouped(fields)[key] :: Raw(x)
    {
      ValuesOfFields(fields, key);
      forall i | 0 <= i < |ValuesOf(fields, key)|
        ensures Raw(ValuesOf(fields, key)[i])
      {
        MeaningIsRaw(fields, FieldsOf(fields, key)[i]);
      }
    }
    RawObject(Grouped(fields));
  }

  lemma {:induction false} MeaningIsRaw(fields: seq<Field>, f: Field)
    requires f in fields
    ensures Raw(f.Meaning())
    decreases fields, 0
  {
    if f.Nested? { GroupedIsRaw(f.body); }
  }

  /**
   * In a log that was read, at every object of the message, a key holds a list iff it occurred there more than once or
   * is one of these six.
   */
  lemma ListsOfLog(log: string, fields: seq<Field>, path: Path, key: string)
    requires IsLogOf(log, fields)
    requires BodyAt(fields, path).Some? && FieldsOf(BodyAt(fields, path).value, key) != []
    ensures ParseLog(log).Read?
    ensures var place := Descend(ParseLog(log).message, path);
      && place.Here? && place.value.Obj? && key in place.value.fields
      && (place.value.fields[key].Arr? <==>
            || |FieldsOf(BodyAt(fields, path).value, key)| > 1
            || key == "players" || key == "teams" || key == "items" || key == "tower_status"
            || key == "barracks_status" || key == "ability_upgrades")
  {
    hide IsLogOf, ParseLog, Grouped, Raw, RawFields, Descend, BodyAt, Collapsed, KeysOf, ValuesOf;
    var body := BodyAt(fields, path).value;
    LogIsRead(log, fields);
    PathsAreGrouped(fields, path);
    GroupedIsRaw(fields);
    GroupedHas(body, key);
    ValuesOfFields(body, key);
    ListIffRepeatedOrKept(ObjectOf(Grouped(fields)), path, key, NO_COLLAPSE_KEYS);
  }

  lemma GroupedHas(body: seq<Field>, key: string)
    requires FieldsOf(body, key) != []
    ensures var x := ObjectOf(Grouped(body));
      x.Obj? && key in x.fields && x.fields[key] == Arr(ValuesOf(body, key))
  {
    hide KeysOf, ValuesOf;
    ValuesOfFields(body, key);
  }

  // ---- one printer -------------------------------------------------------------------------------

  /** The plainest log of a message: every token followed by a space, all on the line of the start signal. */
  function PrintedLog(fields: seq<Field>): string {
    "SIGNOUT: Job created, Protobuf: " + SpaceJoined(FieldTokens(fields)) + "\ncluster_id"
  }

  predicate PlainToken(t: string) {
    IsToken(t) && '#' !in t && '/' !in t
  }

  function SpacedPieces(tokens: seq<string>): seq<Piece> {
    if tokens == [] then [] else [Token(tokens[0]), Blank(' ')] + SpacedPieces(tokens[1..])
  }

  lemma {:induction false} SpacedPiecesLaid(tokens: seq<string>)
    requires forall t | t in tokens :: PlainToken(t)
    ensures var pieces := SpacedPieces(tokens);
      WellLaid(pieces) && TokensOf(pieces) == tokens && Laid(pieces) == SpaceJoined(tokens)
    ensures var s := SpaceJoined(tokens); '\n' !in s && '/' !in s
  {
    hide IsWord;
    if tokens != [] {
      var t := tokens[0];
      var rest := SpacedPieces(tokens[1..]);
      assert PlainToken(t);
      SpacedPiecesLaid(tokens[1..]);
      TokenHasNoNewline(t);
      PrependToken(t, rest);
      assert t + " " + Laid(rest) == t + (" " + Laid(rest));
    }
  }

  lemma PrependToken(t: string, rest: seq<Piece>)
    requires WellLaid(rest) && IsToken(t) && '#' !in t
    ensures var pieces := [Token(t), Blank(' ')] + rest;
      WellLaid(pieces) && TokensOf(pieces) == [t] + TokensOf(rest) && Laid(pieces) == t + (" " + Laid(rest))
  {
    hide IsToken;
    var tail := [Blank(' ')] + rest;
    var pieces := [Token(t)] + tail;
    assert tail[1..] == rest && pieces[1..] == tail;
    assert pieces == [Token(t), Blank(' ')] + rest;
    assert WellLaid(tail) && TokensOf(tail) == [] + TokensOf(rest) && Laid(tail) == " " + Laid(rest);
  }

  lemma TokenHasNoNewline(t: string)
    requires IsToken(t)
    ensures '\n' !in t
  {
  }

  lemma OccursWithAll(s: string, pattern: string, at: nat, k: nat)
    requires OccursAt(s, pattern, at) && k < |pattern|
    ensures pattern[k] in s
  {
    assert s[at + k] == s[at..at + |pattern|][k];
  }

  lemma NoSlashNoStamp(text: string)
    requires '/' !in text
    ensures HasNoStamp(text)
  {
    if stamp: Stamp, at: nat :| stamp.Valid() && OccursAt(text, stamp.Text(), at) {
      OccursWithAll(text, stamp.Text(), at, 2);
    }
  }

  lemma NoNewlineNoMark(s: string)
    requires '\n' !in s
    ensures !Contains(s, "\ncluster_id")
  {
    if at: nat :| OccursAt(s, "\ncluster_id", at) {
      OccursWithAll(s, "\ncluster_id", at, 0);
    }
  }

  lemma SignalIsPlain()
    ensures var signal := "SIGNOUT: Job created, Protobuf:"; '\n' !in signal && '/' !in signal
  {
  }

  lemma MarkIsPlain()
    ensures '\n' !in "cluster_id" && '/' !in "cluster_id" && "\ncluster_id" == "\n" + "cluster_id"
  {
  }

  lemma UnstampedLines(first: string, second: string)
    ensures var lines := [Line(None, first), Line(None, second)];
      Written(lines) == Plain(lines) == first + "\n" + second
  {
    var lines := [Line(None, first), Line(None, second)];
    assert lines[1..] == [Line(None, second)];
    assert "" + first == first && "" + second == second;
  }

  /** The two lines of that log. */
  lemma TwoLines(body: string)
    requires '\n' !in body && '/' !in body
    ensures var first := "SIGNOUT: Job created, Protobuf:" + [' '] + body;
      var lines := [Line(None, first), Line(None, "cluster_id")];
      && Written(lines) == Plain(lines) == first + "\ncluster_id"
      && !Contains(first, "\ncluster_id") && forall l | l in lines :: l.Valid()
  {
    hide HasNoStamp, Contains, Written, Plain;
    SignalIsPlain();
    MarkIsPlain();
    var first := "SIGNOUT: Job created, Protobuf:" + [' '] + body;
    NoSlashNoStamp(first);
    NoSlashNoStamp("cluster_id");
    NoNewlineNoMark(first);
    UnstampedLines(first, "cluster_id");
    assert first + "\n" + "cluster_id" == first + ("\n" + "cluster_id");
  }

  lemma NothingContainsNothing()
    ensures !Contains("", "SIGNOUT: Job created, Protobuf:")
  {
  }

  /** Reading inverts that printer on every valid message whose tokens hold no white space, `#` or `/`. */
  lemma ParseLogInvertsPrintedLog(fields: seq<Field>)
    requires forall f | f in fields :: f.Valid()
    requires forall t | t in FieldTokens(fields) :: PlainToken(t)
    ensures ParseLog(PrintedLog(fields)) == Read(Collapsed(ObjectOf(Grouped(fields)), NO_COLLAPSE_KEYS))
  {
    hide Contains, FieldTokens, PlainToken, ParseLog, SpaceJoined, Written, Plain, SpacedPieces, WellLaid, Field.Valid,
         Line.Valid, Grouped, Collapsed, TokensOf, Laid;
    var tokens := FieldTokens(fields);
    var body := SpaceJoined(tokens);
    var signal, mark := "SIGNOUT: Job created, Protobuf:", "\ncluster_id";
    var first := signal + [' '] + body;
    var lines := [Line(None, first), Line(None, "cluster_id")];
    SpacedPiecesLaid(tokens);
    TwoLines(body);
    NothingContainsNothing();
    assert signal + [' '] == "SIGNOUT: Job created, Protobuf: ";
    assert "" + signal + [' '] + body == first && first + mark + "" == first + mark;
    assert PrintedLog(fields) == first + mark;
    ParseLogInvertsPrinting(first + mark, fields, SpacedPieces(tokens), lines, "", ' ', "");
  }
}
