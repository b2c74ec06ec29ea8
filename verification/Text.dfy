/** Strings as the ECMAScript code sees them: character classes, substring search and trimming. */
module Text {

  datatype Option<+T> = None | Some(value: T)

  /** The characters matched by `.` in a regular expression are all but these (section 22.2 of ECMA-262). */
  predicate IsLineEnd(c: char) {
    c == '\n' || c == '\r' || c == '\U{2028}' || c == '\U{2029}'
  }

  /** The class `\s`, which is also what `trim` removes. */
  predicate IsSpace(c: char) {
    || IsLineEnd(c)
    || c == ' ' || c == '\t' || c == '\U{000B}' || c == '\U{000C}'
    || c == '\U{00A0}' || c == '\U{1680}' || '\U{2000}' <= c <= '\U{200A}'
    || c == '\U{202F}' || c == '\U{205F}' || c == '\U{3000}' || c == '\U{FEFF}'
  }

  /** All of them, one by one (sections 12.2 and 12.3 of ECMA-262). */
  lemma SpacesAreListed(c: char)
    ensures IsLineEnd(c) <==> c in "\n\r\U{2028}\U{2029}"
    ensures IsSpace(c) <==>
      c in "\t\n\U{000B}\U{000C}\r \U{00A0}\U{1680}\U{2000}\U{2001}\U{2002}\U{2003}\U{2004}\U{2005}\U{2006}"
           + "\U{2007}\U{2008}\U{2009}\U{200A}\U{2028}\U{2029}\U{202F}\U{205F}\U{3000}\U{FEFF}"
  {
  }

  predicate IsDigit(c: char) {
    '0' <= c <= '9'
  }

  predicate AllDigits(s: string) {
    forall i | 0 <= i < |s| :: IsDigit(s[i])
  }

  predicate AllSpace(s: string) {
    forall i | 0 <= i < |s| :: IsSpace(s[i])
  }

  predicate OccursAt(s: string, pattern: string, at: int) {
    0 <= at <= |s| - |pattern| && s[at..at + |pattern|] == pattern
  }

  predicate Contains(s: string, pattern: string) {
    exists at :: 0 <= at <= |s| && OccursAt(s, pattern, at)
  }

  /** `s.indexOf(pattern, from)`: the first occurrence at or after `from`, or -1. */
  function IndexFrom(s: string, pattern: string, from: nat): (r: int)
    ensures r == -1 || from <= r
    ensures r != -1 ==> OccursAt(s, pattern, r)
    ensures forall k | from <= k && (r == -1 || k < r) :: !OccursAt(s, pattern, k)
    decreases |s| - from
  {
    if from + |pattern| > |s| then -1
    else if OccursAt(s, pattern, from) then from
    else IndexFrom(s, pattern, from + 1)
  }

  function IndexOf(s: string, pattern: string): (r: int)
    ensures r == -1 <==> !Contains(s, pattern)
    ensures r != -1 ==> OccursAt(s, pattern, r)
    ensures forall k | 0 <= k < r :: !OccursAt(s, pattern, k)
  {
    IndexFrom(s, pattern, 0)
  }

  lemma IndexOfIs(s: string, pattern: string, at: nat)
    requires OccursAt(s, pattern, at)
    requires forall k | 0 <= k < at :: !OccursAt(s, pattern, k)
    ensures IndexOf(s, pattern) == at
  {
  }

  /** `s.slice(from, to)` with a natural `from`; a negative `to` counts from the end. */
  function Slice(s: string, from: nat, to: int): string {
    var end := if to < 0 then |s| + to else if to > |s| then |s| else to;
    if from < end then s[from..end] else ""
  }

  lemma SliceIs(before: string, text: string, after: string)
    ensures Slice(before + text + after, |before|, |before + text|) == text
  {
    assert (before + text + after)[|before|..|before| + |text|] == text;
  }

  function LeadingSpaces(s: string): (n: nat)
    ensures n <= |s| && AllSpace(s[..n]) && (n < |s| ==> !IsSpace(s[n]))
  {
    if s == "" || !IsSpace(s[0]) then 0 else 1 + LeadingSpaces(s[1..])
  }

  function TrailingSpaces(s: string): (n: nat)
    ensures n <= |s| && AllSpace(s[|s| - n..]) && (n < |s| ==> !IsSpace(s[|s| - n - 1]))
  {
    if s == "" || !IsSpace(s[|s| - 1]) then 0 else 1 + TrailingSpaces(s[..|s| - 1])
  }

  /** `s.trim()` */
  function Trim(s: string): (r: string)
    ensures r == "" || (!IsSpace(r[0]) && !IsSpace(r[|r| - 1]))
  {
    var rest := s[LeadingSpaces(s)..];
    rest[..|rest| - TrailingSpaces(rest)]
  }

  lemma {:induction false} LeadingSpacesIs(before: string, rest: string)
    requires AllSpace(before) && (rest == "" || !IsSpace(rest[0]))
    ensures LeadingSpaces(before + rest) == |before|
  {
    if before == "" {
      assert before + rest == rest;
    } else {
      assert (before + rest)[1..] == before[1..] + rest;
      LeadingSpacesIs(before[1..], rest);
    }
  }

  lemma {:induction false} TrailingSpacesIs(rest: string, after: string)
    requires AllSpace(after) && (rest == "" || !IsSpace(rest[|rest| - 1]))
    ensures TrailingSpaces(rest + after) == |after|
  {
    if after == "" {
      assert rest + after == rest;
    } else {
      assert (rest + after)[..|rest + after| - 1] == rest + after[..|after| - 1];
      TrailingSpacesIs(rest, after[..|after| - 1]);
    }
  }

  /** Whatever white space surrounds a text that neither begins nor ends with any, trimming gives the text back. */
  lemma TrimIs(before: string, text: string, after: string)
    requires AllSpace(before) && AllSpace(after)
    requires text == "" || (!IsSpace(text[0]) && !IsSpace(text[|text| - 1]))
    ensures Trim(before + text + after) == text
  {
    hide IsSpace, LeadingSpaces, TrailingSpaces;
    if text == "" {
      assert before + text + after == before + after + "";
      LeadingSpacesIs(before + after, "");
      assert (before + after + "")[|before + after|..] == "";
    } else {
      assert before + text + after == before + (text + after);
      LeadingSpacesIs(before, text + after);
      assert (before + (text + after))[|before|..] == text + after;
      TrailingSpacesIs(text, after);
    }
  }
}
