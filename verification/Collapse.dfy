/** Collapsing: a list of one value becomes the value, except under the keys that always hold lists. */
module Collapse {
  import opened Numerals
  import opened Values
  import opened Message

  /** The keys `parseLog` keeps as lists. */
  const NO_COLLAPSE_KEYS: set<string> :=
    {"players", "teams", "items", "tower_status", "barracks_status", "ability_upgrades"}

  /** `collapseRepeated` on a value; its `for ... in` sees the indices of a list as keys, and nothing of a scalar. */
  function Collapsed(v: Json, keep: set<string>): Json
    decreases v, 0
  {
    match v
    case Obj(m) => Obj(map k | k in m :: CollapsedSlot(k, m[k], keep))
    case Arr(xs) => Arr(seq(|xs|, i requires 0 <= i < |xs| => CollapsedSlot(Decimal(i), xs[i], keep)))
    case _ => v
  }

  /** What becomes of the value held under one key. */
  function CollapsedSlot(key: string, v: Json, keep: set<string>): Json
    decreases v, 1
  {
    match v
    case Arr(xs) =>
      var ys := seq(|xs|, i requires 0 <= i < |xs| => Collapsed(xs[i], keep));
      if |ys| == 1 && key !in keep then ys[0] else Arr(ys)
    case Obj(_) => Collapsed(v, keep)
    case _ => v
  }

  /** The source's loops, each key's value being replaced in turn. */
  method CollapseRepeated(result: Json, keep: set<string>) returns (r: Json)
    ensures r == Collapsed(result, keep)
    decreases result, 0
  {
    hide CollapsedSlot, Decimal;
    match result
    case Obj(m) =>
      var fields := m;
      var todo := m.Keys;
      while todo != {}
        invariant todo <= m.Keys == fields.Keys
        invariant forall k | k in todo :: fields[k] == m[k]
        invariant forall k | k in m && k !in todo :: fields[k] == CollapsedSlot(k, m[k], keep)
        decreases |todo|
      {
        var key :| key in todo;
        var slot := CollapseSlot(key, fields[key], keep);
        fields := fields[key := slot];
        todo := todo - {key};
      }
      r := Obj(fields);
    case Arr(xs) =>
      var items := xs;
      for i := 0 to |xs|
        invariant |items| == |xs|
        invariant forall k | 0 <= k < |xs| ::
          items[k] == if k < i then CollapsedSlot(Decimal(k), xs[k], keep) else xs[k]
      {
        var slot := CollapseSlot(Decimal(i), items[i], keep);
        items := items[i := slot];
      }
      r := Arr(items);
    case _ =>
      r := result;
  }

  method CollapseSlot(key: string, v: Json, keep: set<string>) returns (r: Json)
    ensures r == CollapsedSlot(key, v, keep)
    decreases v, 1
  {
    match v
    case Arr(xs) =>
      var items := xs;
      for i := 0 to |xs|
        invariant |items| == |xs|
        invariant forall k | 0 <= k < |xs| :: items[k] == if k < i then Collapsed(xs[k], keep) else xs[k]
      {
        var item := CollapseRepeated(items[i], keep);
        items := items[i := item];
      }
      r := if |items| == 1 && key !in keep then items[0] else Arr(items);
    case Obj(_) =>
      r := CollapseRepeated(v, keep);
    case _ =>
      r := v;
  }

  // ---- what collapsing keeps ---------------------------------------------------------------------

  /** What the parser builds: every key of an object holds a nonempty list of scalars and such objects. */
  predicate Raw(v: Json) {
    match v
    case Obj(m) => forall k | k in m :: RawSlot(m[k])
    case Arr(_) => false
    case _ => true
  }

  predicate RawSlot(v: Json) {
    v.Arr? && v.items != [] && forall x | x in v.items :: Raw(x)
  }

  predicate RawFields(fields: Fields) {
    forall k | k in fields :: fields[k] != [] && forall x | x in fields[k] :: Raw(x)
  }

  lemma RawObject(fields: Fields)
    requires RawFields(fields)
    ensures Raw(ObjectOf(fields))
  {
  }

  lemma RawPush(fields: Fields, key: string, value: Json)
    requires RawFields(fields) && Raw(value)
    ensures RawFields(Push(fields, key, value))
  {
  }

  lemma {:induction false} ParserOutputIsRaw(tokens: seq<string>, i: nat, fields: Fields)
    requires i <= |tokens| && RawFields(fields)
    ensures var r := ParseFrom(tokens, i, fields);
      r.Parsed? ==> RawFields(r.fields) && Raw(ObjectOf(r.fields))
    decreases |tokens| - i
  {
    hide Inherited, Push, ObjectOf, RawFields, Raw, ParseValue;
    if i == |tokens| {
      RawObject(fields);
    } else {
      match FormAt(tokens, i)
      case Close => RawObject(fields);
      case Stray => ParserOutputIsRaw(tokens, i + 1, fields);
      case Incomplete =>
      case Leaf(key, value, next) =>
        LeafIsRaw(tokens, i);
        RawPush(fields, key, value);
        ParserOutputIsRaw(tokens, next, Push(fields, key, value));
      case Open(key, next) =>
        var nested := ParseFrom(tokens, next, map[]);
        EmptyIsRaw();
        ParserOutputIsRaw(tokens, next, map[]);
        if nested.Parsed? {
          RawPush(fields, key, ObjectOf(nested.fields));
          ParserOutputIsRaw(tokens, nested.next, Push(fields, key, ObjectOf(nested.fields)));
        }
    }
  }

  lemma EmptyIsRaw()
    ensures RawFields(map[])
  {
  }

  lemma LeafIsRaw(tokens: seq<string>, i: nat)
    requires i < |tokens|
    ensures FormAt(tokens, i).Leaf? ==> Raw(FormAt(tokens, i).value)
  {
  }

  /** Wrapping whatever is not a list in a list of one, at every depth. */
  function Expanded(v: Json): Json
    decreases v, 0
  {
    match v
    case Obj(m) => Obj(map k | k in m :: ExpandedSlot(m[k]))
    case _ => v
  }

  function ExpandedSlot(v: Json): Json
    decreases v, 1
  {
    match v
    case Arr(xs) => Arr(seq(|xs|, i requires 0 <= i < |xs| => Expanded(xs[i])))
    case _ => Arr([Expanded(v)])
  }

  /** Nothing is lost: re-wrapping what is not a list gives the parser's output back. */
  lemma {:induction false} ExpandInvertsCollapse(v: Json, keep: set<string>)
    requires Raw(v)
    ensures !Collapsed(v, keep).Arr? && Expanded(Collapsed(v, keep)) == v
    decreases v
  {
    if v.Obj? {
      forall k | k in v.fields
        ensures ExpandedSlot(CollapsedSlot(k, v.fields[k], keep)) == v.fields[k]
      {
        var xs := v.fields[k].items;
        forall i | 0 <= i < |xs|
          ensures !Collapsed(xs[i], keep).Arr? && Expanded(Collapsed(xs[i], keep)) == xs[i]
        {
          assert xs[i] in v.fields[k].items;
          ExpandInvertsCollapse(xs[i], keep);
        }
      }
    }
  }

  /** A second pass changes nothing. */
  lemma {:induction false} CollapseIsIdempotent(v: Json, keep: set<string>)
    requires Raw(v)
    ensures !Collapsed(v, keep).Arr? && Collapsed(Collapsed(v, keep), keep) == Collapsed(v, keep)
    decreases v
  {
    if v.Obj? {
      forall k | k in v.fields
        ensures var s := CollapsedSlot(k, v.fields[k], keep); CollapsedSlot(k, s, keep) == s
      {
        var xs := v.fields[k].items;
        forall i | 0 <= i < |xs|
          ensures var y := Collapsed(xs[i], keep); !y.Arr? && Collapsed(y, keep) == y
        {
          assert xs[i] in v.fields[k].items;
          CollapseIsIdempotent(xs[i], keep);
        }
      }
    }
  }

  /** A value in which no list stands directly in a list, as in whatever the parser builds. */
  predicate Flat(v: Json)
    decreases v, 0
  {
    match v
    case Obj(m) => forall k | k in m :: FlatSlot(m[k])
    case Arr(xs) => forall i | 0 <= i < |xs| :: FlatSlot(xs[i])
    case _ => true
  }

  predicate FlatSlot(v: Json)
    decreases v, 1
  {
    match v
    case Arr(xs) => forall i | 0 <= i < |xs| :: !xs[i].Arr? && Flat(xs[i])
    case _ => Flat(v)
  }

  lemma {:induction false} RawIsFlat(v: Json)
    requires Raw(v)
    ensures Flat(v)
    decreases v
  {
    if v.Obj? {
      forall k, i | k in v.fields && 0 <= i < |v.fields[k].items|
        ensures Flat(v.fields[k].items[i]) && !v.fields[k].items[i].Arr?
      {
        assert v.fields[k].items[i] in v.fields[k].items;
        RawIsFlat(v.fields[k].items[i]);
      }
    }
  }

  /** No list of one is left, but under the kept keys. */
  predicate Settled(v: Json, keep: set<string>)
    decreases v, 0
  {
    match v
    case Obj(m) => forall k | k in m :: SettledSlot(k, m[k], keep)
    case Arr(xs) => forall i | 0 <= i < |xs| :: SettledSlot(Decimal(i), xs[i], keep)
    case _ => true
  }

  predicate SettledSlot(key: string, v: Json, keep: set<string>)
    decreases v, 1
  {
    match v
    case Arr(xs) => (|xs| != 1 || key in keep) && forall i | 0 <= i < |xs| :: Settled(xs[i], keep)
    case _ => Settled(v, keep)
  }

  /** At every depth of any flat value, collapsing leaves no list of one but under the kept keys. */
  lemma {:induction false} CollapseSettles(v: Json, keep: set<string>)
    requires Flat(v)
    ensures Settled(Collapsed(v, keep), keep)
    decreases v, 0
  {
    hide Decimal, CollapsedSlot, SettledSlot;
    match v
    case Obj(m) =>
      forall k | k in m
        ensures SettledSlot(k, CollapsedSlot(k, m[k], keep), keep)
      {
        SlotSettles(k, m[k], keep);
      }
    case Arr(xs) =>
      forall i | 0 <= i < |xs|
        ensures SettledSlot(Decimal(i), CollapsedSlot(Decimal(i), xs[i], keep), keep)
      {
        SlotSettles(Decimal(i), xs[i], keep);
      }
    case _ =>
  }

  lemma {:induction false} SlotSettles(key: string, v: Json, keep: set<string>)
    requires FlatSlot(v)
    ensures SettledSlot(key, CollapsedSlot(key, v, keep), keep)
    decreases v, 1
  {
    hide Decimal, Collapsed, Settled, Flat;
    match v
    case Arr(xs) =>
      forall i | 0 <= i < |xs|
        ensures Settled(Collapsed(xs[i], keep), keep) && !Collapsed(xs[i], keep).Arr?
      {
        CollapseSettles(xs[i], keep);
        OnlyListsAreLists(xs[i], keep);
      }
    case Obj(_) =>
      CollapseSettles(v, keep);
      OnlyListsAreLists(v, keep);
    case _ =>
      ScalarSettles(v, keep);
  }

  lemma OnlyListsAreLists(v: Json, keep: set<string>)
    ensures Collapsed(v, keep).Arr? <==> v.Arr?
  {
  }

  lemma ScalarSettles(v: Json, keep: set<string>)
    requires !v.Obj? && !v.Arr?
    ensures Settled(v, keep)
  {
  }

  /** A list is collapsed as an object with its indices for keys. */
  lemma ListIsKeyedByIndex(xs: seq<Json>, keep: set<string>, i: nat)
    requires i < |xs|
    ensures var r := Collapsed(Arr(xs), keep);
      && r.Arr? && |r.items| == |xs|
      && Collapsed(Obj(map[Decimal(i) := xs[i]]), keep) == Obj(map[Decimal(i) := r.items[i]])
  {
    hide Decimal, CollapsedSlot;
  }

  /** The way down into a value: a key, and which of its values; a lone value is number 0. */
  type Path = seq<(string, nat)>

  datatype Place = Nowhere | Here(value: Json)

  function Descend(v: Json, path: Path): Place
    decreases path
  {
    if path == [] then Here(v)
    else if !v.Obj? || path[0].0 !in v.fields then Nowhere
    else
      var slot := v.fields[path[0].0];
      if slot.Arr? then
        if path[0].1 < |slot.items| then Descend(slot.items[path[0].1], path[1..]) else Nowhere
      else if path[0].1 == 0 then Descend(slot, path[1..])
      else Nowhere
  }

  /** Every path leads where it led before, to the collapsed form of what was there. */
  lemma {:induction false} CollapseKeepsPaths(v: Json, path: Path, keep: set<string>)
    requires Flat(v)
    ensures Descend(Collapsed(v, keep), path)
         == match Descend(v, path) case Nowhere => Nowhere case Here(x) => Here(Collapsed(x, keep))
    decreases path
  {
    hide Collapsed, Flat, Decimal;
    OnlyListsAreLists(v, keep);
    ScalarStaysItself(v, keep);
    if path != [] && v.Obj? {
      FieldsAreCollapsed(v, keep);
      var key, n := path[0].0, path[0].1;
      if key in v.fields {
        var slot := v.fields[key];
        if slot.Arr? {
          forall i | 0 <= i < |slot.items|
            ensures !Collapsed(slot.items[i], keep).Arr?
          {
            OnlyListsAreLists(slot.items[i], keep);
          }
          if n < |slot.items| { CollapseKeepsPaths(slot.items[n], path[1..], keep); }
        } else {
          OnlyListsAreLists(slot, keep);
          ScalarStaysItself(slot, keep);
          CollapseKeepsPaths(slot, path[1..], keep);
        }
      }
    }
  }

  lemma FieldsAreCollapsed(v: Json, keep: set<string>)
    requires v.Obj? && Flat(v)
    ensures Collapsed(v, keep) == Obj(map k | k in v.fields :: CollapsedSlot(k, v.fields[k], keep))
    ensures forall k | k in v.fields :: FlatSlot(v.fields[k])
  {
    hide CollapsedSlot, FlatSlot;
  }

  lemma ScalarStaysItself(v: Json, keep: set<string>)
    ensures !v.Obj? && !v.Arr? ==> Collapsed(v, keep) == v
  {
  }

  lemma {:induction false} RawAlongPaths(v: Json, path: Path)
    requires Raw(v) && Descend(v, path).Here?
    ensures Raw(Descend(v, path).value)
    decreases path
  {
    if path != [] {
      var xs := v.fields[path[0].0].items;
      assert xs[path[0].1] in xs;
      RawAlongPaths(xs[path[0].1], path[1..]);
    }
  }

  /** At every depth, a key ends as a list iff it occurred more than once or is one of the kept keys. */
  lemma ListIffRepeatedOrKept(v: Json, path: Path, key: string, keep: set<string>)
    requires Raw(v) && Descend(v, path).Here?
    requires var x := Descend(v, path).value; x.Obj? && key in x.fields
    ensures var x := Descend(v, path).value;
      var place := Descend(Collapsed(v, keep), path);
      && place.Here? && place.value.Obj? && place.value.fields.Keys == x.fields.Keys
      && x.fields[key].Arr?
      && (place.value.fields[key].Arr? <==> |x.fields[key].items| > 1 || key in keep)
  {
    RawIsFlat(v);
    RawAlongPaths(v, path);
    CollapseKeepsPaths(v, path, keep);
    var xs := Descend(v, path).value.fields[key].items;
    ExpandInvertsCollapse(xs[0], keep) by { assert xs[0] in xs; }
  }
}
