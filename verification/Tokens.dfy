/** The tokenizer: one brace or colon, or a maximal run free of white space, braces and colons. */
module Tokens {
  import opened Text

  predicate IsDelimiter(c: char) {
    c == '{' || c == '}' || c == ':'
  }

  predicate IsBreak(c: char) {
    IsSpace(c) || IsDelimiter(c)
  }

  predicate IsWord(s: string) {
    s != "" && forall i | 0 <= i < |s| :: !IsSpace(s[i]) && s[i] != '{' && s[i] != '}' && s[i] != ':'
  }

  predicate IsToken(s: string) {
    IsWord(s) || s == "{" || s == "}" || s == ":"
  }

  /** What `[^\s\{\}\:]+` matches at the start of `s`. */
  function WordRun(s: string): (n: nat)
    ensures n <= |s| && (forall i | 0 <= i < n :: !IsBreak(s[i])) && (n < |s| ==> IsBreak(s[n]))
  {
    if s == "" || IsBreak(s[0]) then 0 else 1 + WordRun(s[1..])
  }

  function Tokenize(s: string): seq<string> {
    if s == "" then []
    else if IsDelimiter(s[0]) then [[s[0]]] + Tokenize(s[1..])
    else if IsSpace(s[0]) then Tokenize(s[1..])
    else [s[..WordRun(s)]] + Tokenize(s[WordRun(s)..])
  }

  /** How much one match of the regular expression takes: a break on its own, or a word. */
  function FirstMatch(s: string): (n: nat)
    requires s != ""
    ensures 0 < n <= |s|
  {
    if IsBreak(s[0]) then 1 else WordRun(s)
  }

  /** One match yields a token, unless it takes white space. */
  lemma TokenizeOnce(s: string)
    requires s != ""
    ensures var n := FirstMatch(s);
      Tokenize(s) == (if IsSpace(s[0]) then [] else [s[..n]]) + Tokenize(s[n..])
  {
    if IsDelimiter(s[0]) {
      assert s[..1] == [s[0]];
    }
  }

  /** The same at a place in the input. */
  lemma TokenizeStep(input: string, at: nat, end: nat)
    requires at < |input|
    requires end == if IsBreak(input[at]) then at + 1 else at + WordRun(input[at..])
    ensures at < end <= |input|
    ensures Tokenize(input[at..])
         == (if IsSpace(input[at]) then [] else [input[at..end]]) + Tokenize(input[end..])
  {
    hide Tokenize, IsSpace, IsBreak;
    var rest := input[at..];
    var n := FirstMatch(rest);
    TokenizeOnce(rest);
    assert n == end - at && rest[..n] == input[at..end] && rest[n..] == input[end..];
  }

  /** The loop over `regex.exec`, with `lastIndex` kept in `at`. */
  method TokenizeLoop(input: string) returns (tokens: seq<string>)
    ensures tokens == Tokenize(input)
  {
    hide IsSpace, IsDelimiter, Tokenize;
    tokens := [];
    var at := 0;
    while at < |input|
      invariant 0 <= at <= |input|
      invariant tokens + Tokenize(input[at..]) == Tokenize(input)
    {
      var end := if IsBreak(input[at]) then at + 1 else at + WordRun(input[at..]);
      TokenizeStep(input, at, end);
      if !IsSpace(input[at]) {
        tokens := tokens + [input[at..end]];
      }
      at := end;
    }
    TokenizeOfSpace(input[at..]);
  }

  // ---- what the tokens are -----------------------------------------------------------------------

  function Concat(parts: seq<string>): string {
    if parts == [] then "" else parts[0] + Concat(parts[1..])
  }

  function WithoutSpace(s: string): string {
    if s == "" then "" else (if IsSpace(s[0]) then "" else [s[0]]) + WithoutSpace(s[1..])
  }

  lemma {:induction false} WithoutSpaceOfConcat(a: string, b: string)
    ensures WithoutSpace(a + b) == WithoutSpace(a) + WithoutSpace(b)
  {
    if a == "" {
      assert a + b == b;
    } else {
      assert (a + b)[1..] == a[1..] + b;
      WithoutSpaceOfConcat(a[1..], b);
    }
  }

  lemma {:induction false} WithoutSpaceOfWord(s: string)
    requires forall i | 0 <= i < |s| :: !IsSpace(s[i])
    ensures WithoutSpace(s) == s
  {
    if s != "" {
      WithoutSpaceOfWord(s[1..]);
    }
  }

  /** What one match takes is a token or white space. */
  lemma FirstMatchIs(s: string)
    requires s != ""
    ensures var first := s[..FirstMatch(s)];
      if IsSpace(s[0]) then WithoutSpace(first) == "" else WithoutSpace(first) == first && IsToken(first)
  {
    hide IsSpace;
    var n := FirstMatch(s);
    if IsSpace(s[0]) {
      assert s[..1] == [s[0]] && s[..1][1..] == "";
    } else {
      if IsDelimiter(s[0]) { assert s[..1] == [s[0]]; }
      WithoutSpaceOfWord(s[..n]);
    }
  }

  /** Nothing but white space is dropped, nothing is reordered, and every piece is a token. */
  lemma {:induction false} TokensCoverInput(s: string)
    ensures Concat(Tokenize(s)) == WithoutSpace(s)
    ensures forall t | t in Tokenize(s) :: IsToken(t)
    decreases |s|
  {
    if s != "" {
      hide Tokenize, WithoutSpace, FirstMatch, IsSpace, IsToken;
      var n := FirstMatch(s);
      TokenizeOnce(s);
      FirstMatchIs(s);
      TokensCoverInput(s[n..]);
      assert s == s[..n] + s[n..];
      WithoutSpaceOfConcat(s[..n], s[n..]);
      assert [] + Tokenize(s[n..]) == Tokenize(s[n..]) && "" + WithoutSpace(s[n..]) == WithoutSpace(s[n..]);
    }
  }

  lemma {:induction false} WordRunOfConcat(word: string, rest: string)
    requires forall i | 0 <= i < |word| :: !IsBreak(word[i])
    ensures WordRun(word + rest) == |word| + WordRun(rest)
  {
    if word == "" {
      assert word + rest == rest;
    } else {
      assert (word + rest)[1..] == word[1..] + rest;
      WordRunOfConcat(word[1..], rest);
    }
  }

  /** What follows a break, or stands before one, does not change what the first match takes. */
  lemma FirstMatchOfConcat(a: string, b: string)
    requires a != "" && (b == "" || IsBreak(a[|a| - 1]) || IsBreak(b[0]))
    ensures FirstMatch(a + b) == FirstMatch(a)
  {
    hide IsBreak;
    if !IsBreak(a[0]) {
      var n := WordRun(a);
      assert a == a[..n] + a[n..] && a + b == a[..n] + (a[n..] + b);
      WordRunOfConcat(a[..n], a[n..] + b);
      assert n == |a| ==> a[n..] + b == b;
    }
  }

  /** Words are maximal: the input splits into tokens independently on the two sides of any break. */
  lemma {:induction false} TokenizeOfConcat(a: string, b: string)
    requires a == "" || b == "" || IsBreak(a[|a| - 1]) || IsBreak(b[0])
    ensures Tokenize(a + b) == Tokenize(a) + Tokenize(b)
    decreases |a|
  {
    hide IsSpace, IsBreak, Tokenize, FirstMatch;
    if a == "" {
      assert a + b == b;
      TokenizeNothing();
    } else {
      var n := FirstMatch(a);
      FirstMatchOfConcat(a, b);
      TokenizeOnce(a);
      TokenizeOnce(a + b);
      assert (a + b)[..n] == a[..n] && (a + b)[n..] == a[n..] + b;
      TokenizeOfConcat(a[n..], b);
    }
  }

  lemma TokenizeNothing()
    ensures Tokenize("") == []
  {
  }

  lemma TokenizeOfToken(t: string)
    requires IsToken(t)
    ensures Tokenize(t) == [t]
  {
    if IsDelimiter(t[0]) {
      assert t == [t[0]];
    } else {
      WordRunOfConcat(t, "");
      assert t + "" == t && t[..|t|] == t && t[|t|..] == "";
    }
  }

  lemma {:induction false} TokenizeOfSpace(s: string)
    requires AllSpace(s)
    ensures Tokenize(s) == []
  {
    if s != "" {
      TokenizeOfSpace(s[1..]);
    }
  }

  function SpaceJoined(tokens: seq<string>): string {
    if tokens == [] then "" else tokens[0] + " " + SpaceJoined(tokens[1..])
  }

  /** Tokenizing inverts printing tokens with a space after each, so a second tokenizing changes nothing. */
  lemma {:induction false} TokenizeInvertsSpaceJoined(tokens: seq<string>)
    requires forall t | t in tokens :: IsToken(t)
    ensures Tokenize(SpaceJoined(tokens)) == tokens
  {
    if tokens != [] {
      TokenizeInvertsSpaceJoined(tokens[1..]);
      TokenizeOfToken(tokens[0]);
      TokenizeOfSpace(" ");
      TokenizeOfConcat(tokens[0], " ");
      TokenizeOfConcat(tokens[0] + " ", SpaceJoined(tokens[1..]));
    }
  }

  /** `trim` before tokenizing changes nothing. */
  lemma TokenizeOfTrim(s: string)
    ensures Tokenize(Trim(s)) == Tokenize(s)
  {
    hide Tokenize, LeadingSpaces, TrailingSpaces, IsSpace, IsDelimiter;
    var rest := s[LeadingSpaces(s)..];
    var before, after := s[..LeadingSpaces(s)], rest[|rest| - TrailingSpaces(rest)..];
    assert rest == Trim(s) + after;
    TokenizeOfSpace(before);
    TokenizeOfSpace(after);
    assert s == before + rest;
    TokenizeOfConcat(before, rest);
    TokenizeOfConcat(Trim(s), after);
  }
}
