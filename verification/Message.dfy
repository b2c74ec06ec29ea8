/** The message parser: recursion over a shared token index, building one list of values per key. */
module Message {
  import opened Values

  /** A parsed object before collapsing: every key holds the list of its values, in order. */
  type Fields = map<string, seq<Json>>

  datatype Outcome = Parsed(fields: Fields, next: nat) | Thrown

  /** The names every object inherits, which `key in obj` sees (section 20.1.3 of ECMA-262, and annex B.2.2). */
  const INHERITED_NAMES: seq<string> := [
    "constructor", "hasOwnProperty", "isPrototypeOf", "propertyIsEnumerable", "toLocaleString", "toString", "valueOf",
    "__proto__", "__defineGetter__", "__defineSetter__", "__lookupGetter__", "__lookupSetter__"
  ]

  predicate Among(name: string, names: seq<string>)
    ensures Among(name, names) <==> name in names
  {
    names != [] && (name == names[0] || Among(name, names[1..]))
  }

  predicate Inherited(name: string) {
    Among(name, INHERITED_NAMES)
  }

  function ObjectOf(fields: Fields): Json {
    Obj(map k | k in fields :: Arr(fields[k]))
  }

  /** `obj[key].push(value)`, on a key whose value is not an inherited function or prototype. */
  function Push(fields: Fields, key: string, value: Json): Fields {
    fields[key := (if key in fields then fields[key] else []) + [value]]
  }

  /** What the tokens at an index begin; `next` is the index after what was read of it. */
  datatype Form =
    | Close
    | Stray                                  // a brace without a key, which is skipped
    | Incomplete                             // a key with nothing after it
    | Leaf(key: string, value: Json, next: nat)
    | Open(key: string, next: nat)

  /** `k: v` and `k v` are alike, and so are `k: {` and `k {`. */
  function FormAt(tokens: seq<string>, i: nat): (form: Form)
    requires i < |tokens|
    ensures form.Leaf? || form.Open? ==> i + 1 < form.next <= |tokens|
  {
    if tokens[i] == "}" then Close
    else if tokens[i] == "{" then Stray
    else
      var j := if i + 1 < |tokens| && tokens[i + 1] == ":" then i + 2 else i + 1;
      if j == |tokens| then Incomplete
      else if tokens[j] == "{" then Open(tokens[i], j + 1)
      else Leaf(tokens[i], ParseValue(tokens[j]), j + 1)
  }

  /** The parse from index `i`, with `fields` collected so far. An inherited name has no `push`, so adding throws. */
  function ParseFrom(tokens: seq<string>, i: nat, fields: Fields): (r: Outcome)
    requires i <= |tokens|
    ensures r.Parsed? ==> i <= r.next <= |tokens|
    ensures r.Parsed? && i < |tokens| ==> i < r.next
    decreases |tokens| - i
  {
    if i == |tokens| then Parsed(fields, i)
    else match FormAt(tokens, i)
      case Close => Parsed(fields, i + 1)
      case Stray => ParseFrom(tokens, i + 1, fields)
      case Incomplete => Thrown
      case Leaf(key, value, next) =>
        if Inherited(key) then Thrown
        else ParseFrom(tokens, next, Push(fields, key, value))
      case Open(key, next) =>
        var nested := ParseFrom(tokens, next, map[]);
        if nested.Thrown? || Inherited(key) then Thrown
        else ParseFrom(tokens, nested.next, Push(fields, key, ObjectOf(nested.fields)))
  }

  /** The source's loop, calling itself for each nested object and resuming at the index it returns. */
  method ParseObject(tokens: seq<string>, startIndex: nat) returns (r: Outcome)
    requires startIndex <= |tokens|
    ensures r == ParseFrom(tokens, startIndex, map[])
    decreases |tokens| - startIndex
  {
    hide ParseValue, Inherited, Push, ObjectOf;
    var obj: Fields := map[];
    var i := startIndex;
    while i < |tokens|
      invariant startIndex <= i <= |tokens|
      invariant ParseFrom(tokens, i, obj) == ParseFrom(tokens, startIndex, map[])
      decreases |tokens| - i
    {
      ghost var form := FormAt(tokens, i);
      if tokens[i] == "}" {
        return Parsed(obj, i + 1);
      }
      if tokens[i] == "{" {
        i := i + 1;
        continue;
      }
      var key := tokens[i];
      i := i + 1;
      if i < |tokens| && tokens[i] == ":" {
        i := i + 1;
      }
      if i == |tokens| {
        return Thrown;
      }
      if tokens[i] == "{" {
        assert form == Open(key, i + 1);
        var nested := ParseObject(tokens, i + 1);
        if nested.Thrown? || Inherited(key) {
          return Thrown;
        }
        obj := AddToResult(obj, key, ObjectOf(nested.fields));
        i := nested.next;
      } else {
        assert form == Leaf(key, ParseValue(tokens[i]), i + 1);
        if Inherited(key) {
          return Thrown;
        }
        obj := AddToResult(obj, key, ParseValue(tokens[i]));
        i := i + 1;
      }
    }
    return Parsed(obj, i);
  }

  method AddToResult(obj: Fields, key: string, value: Json) returns (r: Fields)
    requires !Inherited(key)
    ensures r == Push(obj, key, value)
  {
    r := obj;
    if !(key in r) {
      r := r[key := []];
    }
    r := r[key := r[key] + [value]];
  }

  // ---- when the parser fails, and where it stops -------------------------------------------------

  /**
   * A scan with a depth counter and no recursion: where the object opened at depth 0 ends, or `-1` when
   * the tokens run out where a value is due, or an inherited name stands as a key, before that.
   */
  function Scan(tokens: seq<string>, i: nat, depth: nat): (end: int)
    requires i <= |tokens|
    ensures end == -1 || i <= end <= |tokens|
    decreases |tokens| - i
  {
    if i == |tokens| then i
    else match FormAt(tokens, i)
      case Close => if depth == 0 then i + 1 else Scan(tokens, i + 1, depth - 1)
      case Stray => Scan(tokens, i + 1, depth)
      case Incomplete => -1
      case Leaf(key, _, next) => if Inherited(key) then -1 else Scan(tokens, next, depth)
      case Open(key, next) => if Inherited(key) then -1 else Scan(tokens, next, depth + 1)
  }

  /** One level deeper, the scan does what a nested parse followed by the scan outside does. */
  lemma {:induction false} ScanIsNestedParse(tokens: seq<string>, i: nat, fields: Fields, depth: nat)
    requires i <= |tokens|
    ensures var r := ParseFrom(tokens, i, fields);
      Scan(tokens, i, depth + 1) == if r.Thrown? then -1 else Scan(tokens, r.next, depth)
    decreases |tokens| - i
  {
    hide FormAt, Inherited, Push, ObjectOf;
    if i < |tokens| {
      match FormAt(tokens, i)
      case Close =>
      case Stray => ScanIsNestedParse(tokens, i + 1, fields, depth);
      case Incomplete =>
      case Leaf(key, value, next) =>
        if !Inherited(key) { ScanIsNestedParse(tokens, next, Push(fields, key, value), depth); }
      case Open(key, next) =>
        if !Inherited(key) {
          var nested := ParseFrom(tokens, next, map[]);
          ScanIsNestedParse(tokens, next, map[], depth + 1);
          if nested.Parsed? {
            ScanIsNestedParse(tokens, nested.next, Push(fields, key, ObjectOf(nested.fields)), depth);
          }
        }
    }
  }

  /** On every token sequence, balanced or not, the parser throws, or stops, exactly where the scan says. */
  lemma {:induction false} ParserEndsWhereScanSays(tokens: seq<string>, i: nat, fields: Fields)
    requires i <= |tokens|
    ensures var r := ParseFrom(tokens, i, fields);
      Scan(tokens, i, 0) == if r.Thrown? then -1 else r.next
    decreases |tokens| - i
  {
    hide FormAt, Inherited, Push, ObjectOf;
    if i < |tokens| {
      match FormAt(tokens, i)
      case Close =>
      case Stray => ParserEndsWhereScanSays(tokens, i + 1, fields);
      case Incomplete =>
      case Leaf(key, value, next) =>
        if !Inherited(key) { ParserEndsWhereScanSays(tokens, next, Push(fields, key, value)); }
      case Open(key, next) =>
        if !Inherited(key) {
          var nested := ParseFrom(tokens, next, map[]);
          ScanIsNestedParse(tokens, next, map[], 0);
          if nested.Parsed? {
            ParserEndsWhereScanSays(tokens, nested.next, Push(fields, key, ObjectOf(nested.fields)));
          }
        }
    }
  }

  // ---- messages and their printing ---------------------------------------------------------------

  /** A field in the spelling it is printed with: either kind may have its colon or not. */
  datatype Field =
    | Scalar(key: string, colon: bool, value: Literal)
    | Nested(key: string, colon: bool, body: seq<Field>)
  {
    ghost predicate Valid() {
      && key != "{" && key != "}"
      && key !in {"constructor", "hasOwnProperty", "isPrototypeOf", "propertyIsEnumerable", "toLocaleString",
                  "toString", "valueOf", "__proto__", "__defineGetter__", "__defineSetter__", "__lookupGetter__",
                  "__lookupSetter__"}
      && match this
         case Scalar(_, colon, value) =>
           value.Valid() && value.Token() != "{" && (colon || value.Token() != ":")
         case Nested(_, _, body) =>
           forall f | f in body :: f.Valid()
    }

    function KeyTokens(): seq<string> {
      [key] + if colon then [":"] else []
    }

    function Tokens(): seq<string>
      decreases this, 1
    {
      match this
      case Scalar(_, _, value) => KeyTokens() + [value.Token()]
      case Nested(_, _, body) => KeyTokens() + ["{"] + FieldTokens(body) + ["}"]
    }

    /** The value, whatever the spelling. */
    function Meaning(): Json
      decreases this, 1
    {
      match this
      case Scalar(_, _, value) => value.Value()
      case Nested(_, _, body) => ObjectOf(Grouped(body))
    }
  }

  function FieldTokens(fields: seq<Field>): seq<string>
    decreases fields, 0
  {
    if fields == [] then [] else fields[0].Tokens() + FieldTokens(fields[1..])
  }

  /** The values given for a key, in order of occurrence. */
  function ValuesOf(fields: seq<Field>, key: string): (values: seq<Json>)
    decreases fields, 0
  {
    if fields == [] then []
    else (if fields[0].key == key then [fields[0].Meaning()] else []) + ValuesOf(fields[1..], key)
  }

  function KeysOf(fields: seq<Field>): set<string> {
    set f | f in fields :: f.key
  }

  /** A message as a multimap: the fields grouped by key. */
  function Grouped(fields: seq<Field>): Fields
    decreases fields, 1
  {
    map k | k in KeysOf(fields) :: ValuesOf(fields, k)
  }

  /** Pushing the fields one after another. */
  function PushAll(obj: Fields, fields: seq<Field>): Fields
    decreases |fields|
  {
    if fields == [] then obj else PushAll(Push(obj, fields[0].key, fields[0].Meaning()), fields[1..])
  }

  function ValuesIn(obj: Fields, key: string): seq<Json> {
    if key in obj then obj[key] else []
  }

  lemma {:induction false} PushAllAppends(obj: Fields, fields: seq<Field>, key: string)
    ensures key in PushAll(obj, fields) <==> key in obj || key in KeysOf(fields)
    ensures ValuesIn(PushAll(obj, fields), key) == ValuesIn(obj, key) + ValuesOf(fields, key)
    decreases |fields|
  {
    hide ObjectOf, Grouped, Field.Meaning;
    if fields != [] {
      PushAllAppends(Push(obj, fields[0].key, fields[0].Meaning()), fields[1..], key);
      assert fields == [fields[0]] + fields[1..];
    }
  }

  lemma PushAllFromEmpty(fields: seq<Field>)
    ensures PushAll(map[], fields) == Grouped(fields)
  {
    hide PushAll, ValuesOf, KeysOf;
    forall key
      ensures key in PushAll(map[], fields) <==> key in Grouped(fields)
      ensures key in Grouped(fields) ==> PushAll(map[], fields)[key] == Grouped(fields)[key]
    {
      PushAllAppends(map[], fields, key);
    }
  }

  /** The tokens from `i` on begin with `part`. */
  predicate StandsAt(tokens: seq<string>, i: nat, part: seq<string>) {
    i + |part| <= |tokens| && tokens[i..i + |part|] == part
  }

  lemma StandsAtSplit(tokens: seq<string>, i: nat, first: seq<string>, second: seq<string>)
    requires StandsAt(tokens, i, first + second)
    ensures StandsAt(tokens, i, first) && StandsAt(tokens, i + |first|, second)
  {
    var part := first + second;
    assert first == part[..|first|] && second == part[|first|..];
  }

  /** What the parser sees where a printed field begins. */
  lemma FormOfField(tokens: seq<string>, i: nat, f: Field)
    requires f.Valid() && StandsAt(tokens, i, f.Tokens())
    ensures f.Scalar? ==> FormAt(tokens, i) == Leaf(f.key, f.Meaning(), i + |f.Tokens()|)
    ensures f.Nested? ==> FormAt(tokens, i) == Open(f.key, i + |f.KeyTokens()| + 1)
  {
    var part := f.Tokens();
    var n := |f.KeyTokens()|;
    assert tokens[i] == part[0] == f.key;
    assert f.colon ==> tokens[i + 1] == part[1] == ":";
    assert tokens[i + n] == part[n];
    match f {
      case Scalar(_, _, value) =>
        ParseValueInvertsToken(value);
      case Nested(_, _, _) =>
    }
  }

  /** Wherever a printed field stands, the parser reads past it and has pushed its value. */
  lemma {:induction false} ParserReadsField(tokens: seq<string>, i: nat, f: Field, obj: Fields)
    requires f.Valid() && StandsAt(tokens, i, f.Tokens())
    ensures ParseFrom(tokens, i, obj) == ParseFrom(tokens, i + |f.Tokens()|, Push(obj, f.key, f.Meaning()))
    decreases f, 0
  {
    hide FormAt, ParseFrom, ParseValue, Inherited, StandsAt, Grouped, ValuesOf, Push, FieldTokens;
    FormOfField(tokens, i, f);
    ValidKey(f);
    ParseStep(tokens, i, obj);
    if f.Nested? {
      var open := f.KeyTokens() + ["{"];
      assert f.Tokens() == open + (FieldTokens(f.body) + ["}"]);
      StandsAtSplit(tokens, i, open, FieldTokens(f.body) + ["}"]);
      ParserReadsNested(tokens, i + |open|, f.body);
    }
  }

  lemma ValidKey(f: Field)
    requires f.Valid()
    ensures !Inherited(f.key)
  {
    InheritedNamesAre(f.key);
  }

  lemma InheritedNamesAre(name: string)
    ensures Inherited(name) <==>
      name in {"constructor", "hasOwnProperty", "isPrototypeOf", "propertyIsEnumerable", "toLocaleString", "toString",
               "valueOf", "__proto__", "__defineGetter__", "__defineSetter__", "__lookupGetter__", "__lookupSetter__"}
  {
    var names := INHERITED_NAMES;
    assert forall i | 0 <= i < |names| :: names[i] in names;
  }

  /** Wherever a name that every object inherits stands as a key, the parse throws. */
  lemma InheritedKeyThrows(tokens: seq<string>, i: nat, obj: Fields)
    requires i < |tokens|
    requires tokens[i] in {
      "constructor", "hasOwnProperty", "isPrototypeOf", "propertyIsEnumerable", "toLocaleString", "toString", "valueOf",
      "__proto__", "__defineGetter__", "__defineSetter__", "__lookupGetter__", "__lookupSetter__"}
    ensures ParseFrom(tokens, i, obj) == Thrown
  {
    hide Inherited, ParseValue, Push, ObjectOf;
    InheritedNamesAre(tokens[i]);
    assert tokens[i] != "}" && tokens[i] != "{";
  }

  /** What the parser does where a leaf stands, or a nested object is opened. */
  lemma ParseStep(tokens: seq<string>, i: nat, obj: Fields)
    requires i < |tokens|
    ensures var form := FormAt(tokens, i);
      && (form.Leaf? && !Inherited(form.key) ==>
            ParseFrom(tokens, i, obj) == ParseFrom(tokens, form.next, Push(obj, form.key, form.value)))
      && (form.Open? && !Inherited(form.key) ==>
            var nested := ParseFrom(tokens, form.next, map[]);
            nested.Parsed? ==>
              ParseFrom(tokens, i, obj)
              == ParseFrom(tokens, nested.next, Push(obj, form.key, ObjectOf(nested.fields))))
  {
    hide FormAt, Inherited, Push;
  }

  /** The same for any number of fields, with their values pushed in order. */
  lemma {:induction false} ParserReadsFields(tokens: seq<string>, i: nat, fields: seq<Field>, obj: Fields)
    requires (forall f | f in fields :: f.Valid()) && StandsAt(tokens, i, FieldTokens(fields))
    ensures ParseFrom(tokens, i, obj) == ParseFrom(tokens, i + |FieldTokens(fields)|, PushAll(obj, fields))
    decreases fields, 0
  {
    hide ParseFrom, StandsAt, Push, Grouped, ValuesOf;
    if fields != [] {
      var f := fields[0];
      StandsAtSplit(tokens, i, f.Tokens(), FieldTokens(fields[1..]));
      ParserReadsField(tokens, i, f, obj);
      ParserReadsFields(tokens, i + |f.Tokens()|, fields[1..], Push(obj, f.key, f.Meaning()));
    }
  }

  /**
   * The parser inverts the printer: wherever the tokens of any fields stand with a closing brace after them,
   * it returns the fields grouped by key, in order of occurrence, and the index just past that brace.
   */
  lemma {:induction false} ParserReadsNested(tokens: seq<string>, i: nat, fields: seq<Field>)
    requires (forall f | f in fields :: f.Valid()) && StandsAt(tokens, i, FieldTokens(fields) + ["}"])
    ensures ParseFrom(tokens, i, map[]) == Parsed(Grouped(fields), i + |FieldTokens(fields)| + 1)
    decreases fields, 1
  {
    StandsAtSplit(tokens, i, FieldTokens(fields), ["}"]);
    ParserReadsFields(tokens, i, fields, map[]);
    PushAllFromEmpty(fields);
    var end := i + |FieldTokens(fields)|;
    assert tokens[end] == tokens[end..end + 1][0] == "}";
  }

  /** At the top level the fields run to the end of the tokens. */
  lemma ParserReadsMessage(fields: seq<Field>)
    requires forall f | f in fields :: f.Valid()
    ensures ParseFrom(FieldTokens(fields), 0, map[]) == Parsed(Grouped(fields), |FieldTokens(fields)|)
  {
    hide PushAll, Grouped, FieldTokens, FormAt;
    var tokens := FieldTokens(fields);
    ParserReadsFields(tokens, 0, fields, map[]);
    PushAllFromEmpty(fields);
    assert ParseFrom(tokens, |tokens|, Grouped(fields)) == Parsed(Grouped(fields), |tokens|);
  }
}
