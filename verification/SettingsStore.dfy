/**
 Settings in the database: the flat key-value map, and the exact condition under which it restores
 the settings.
 */
module SettingsStore {
  import opened Decimal
  import opened DottedPaths
  import opened Settings
  import opened Wrappers

  // ----- Flattening -----

  // The map holds exactly the leaves of the tree, under their dotted paths.
  ghost predicate IsDbMap(schema: Schema, t: Json, m: map<string, Json>) {
    && (forall p :: IsLeaf(schema, p) && GetAt(t, p).Some? ==> Join(p) in m && m[Join(p)] == GetAt(t, p).value)
    && (forall key :: key in m ==> exists p :: IsLeaf(schema, p) && GetAt(t, p).Some? && key == Join(p))
  }

  ghost predicate ValueLeaf(value: Json, q: seq<string>) {
    GetAt(value, q).Some? && !GetAt(value, q).value.Obj?
  }

  // Every path below `path` through `value` is made of good keys.
  ghost predicate GoodBelow(value: Json, path: seq<string>) {
    forall q :: GetAt(value, q).Some? && path + q != [] ==> GoodPath(path + q)
  }

  lemma JoinsDiffer(p: seq<string>, q: seq<string>)
    requires GoodPath(p) && GoodPath(q) && p != q
    ensures Join(p) != Join(q)
  {
    SplitJoin(p);
    SplitJoin(q);
  }

  // What one call of the collector adds: the leaves below `path`, and nothing else changes.
  ghost predicate Collected(value: Json, path: seq<string>, before: map<string, Json>, after: map<string, Json>) {
    && before.Keys <= after.Keys
    && (forall q :: ValueLeaf(value, q) ==> Join(path + q) in after && after[Join(path + q)] == GetAt(value, q).value)
    && (forall key :: key in after ==>
          (key in before && after[key] == before[key]) || exists q :: ValueLeaf(value, q) && key == Join(path + q))
  }

  // The part of an object that is already collected.
  function Part(value: Json, keys: set<string>): Json
    requires value.Obj?
  {
    Obj(map k | k in value.fields && k in keys :: value.fields[k])
  }

  // Collecting one child rewrites no key of the children before it.
  lemma EarlierKeysKept(value: Json, path: seq<string>, done: set<string>, k: string, q: seq<string>,
                        before: map<string, Json>, after: map<string, Json>)
    requires value.Obj? && k in value.fields && k !in done && GoodBelow(value, path)
    requires ValueLeaf(Part(value, done), q) && Join(path + q) in before
    requires Collected(value.fields[k], path + [k], before, after)
    ensures Join(path + q) in after && after[Join(path + q)] == before[Join(path + q)]
  {
    hide Join, GoodPath, GoodKey;
    var key, child := Join(path + q), value.fields[k];
    PartLeaf(value, done, q);
    if after[key] != before[key] {
      var r :| ValueLeaf(child, r) && key == Join(path + [k] + r);
      var whole := [k] + r;
      assert whole[1..] == r && GetAt(value, whole) == GetAt(child, r);
      assert path + whole == path + [k] + r;
      assert (path + q)[|path|] == q[0] && (path + whole)[|path|] == k;
      assert GoodPath(path + q) && GoodPath(path + whole);
      JoinsDiffer(path + q, path + whole);
    }
  }

  lemma PartLeaf(value: Json, done: set<string>, q: seq<string>)
    requires value.Obj? && ValueLeaf(Part(value, done), q)
    ensures q != [] && q[0] in done && GetAt(value, q) == GetAt(Part(value, done), q)
  {
  }

  lemma PartHasLeaf(value: Json, done: set<string>, k: string, q: seq<string>)
    requires value.Obj? && k in value.fields && k !in done
    ensures ValueLeaf(Part(value, done + {k}), q)
       <==> ValueLeaf(Part(value, done), q) || (q != [] && q[0] == k && ValueLeaf(value.fields[k], q[1..]))
    ensures ValueLeaf(Part(value, done), q) ==> GetAt(Part(value, done + {k}), q) == GetAt(Part(value, done), q)
  {
  }

  lemma PartStep(value: Json, path: seq<string>, done: set<string>, k: string,
                 start: map<string, Json>, before: map<string, Json>, after: map<string, Json>)
    requires value.Obj? && k in value.fields && k !in done && GoodBelow(value, path)
    requires Collected(Part(value, done), path, start, before)
    requires Collected(value.fields[k], path + [k], before, after)
    ensures Collected(Part(value, done + {k}), path, start, after)
  {
    hide GoodBelow, Join;
    var part, longer, child := Part(value, done), Part(value, done + {k}), value.fields[k];
    forall q | ValueLeaf(longer, q) ensures Join(path + q) in after && after[Join(path + q)] == GetAt(longer, q).value {
      PartHasLeaf(value, done, k, q);
      if ValueLeaf(part, q) {
        EarlierKeysKept(value, path, done, k, q, before, after);
      } else {
        assert path + q == path + [k] + q[1..] by { assert q == [k] + q[1..]; }
      }
    }
    forall key | key in after && !(key in start && after[key] == start[key])
      ensures exists q :: ValueLeaf(longer, q) && key == Join(path + q)
    {
      if key in before && after[key] == before[key] {
        var q :| ValueLeaf(part, q) && key == Join(path + q);
        PartHasLeaf(value, done, k, q);
        assert ValueLeaf(longer, q);
      } else {
        var r :| ValueLeaf(child, r) && key == Join(path + [k] + r);
        var q := [k] + r;
        assert q[1..] == r && path + q == path + [k] + r;
        PartHasLeaf(value, done, k, q);
        assert ValueLeaf(longer, q);
      }
    }
  }

  lemma ChildIsGood(value: Json, path: seq<string>, k: string)
    requires value.Obj? && k in value.fields && GoodBelow(value, path)
    ensures GoodBelow(value.fields[k], path + [k]) && GoodPath(path + [k])
  {
    assert GetAt(value, [k]).Some? by { assert [k][1..] == []; }
    forall r | GetAt(value.fields[k], r).Some? ensures GoodPath(path + [k] + r) {
      var q := [k] + r;
      assert q[1..] == r;
      assert path + q == path + [k] + r;
    }
  }

  // The keys of an object are visited in no particular order.
  method CollectSettingsJson(value: Json, prefix: string, results: map<string, Json>, ghost path: seq<string>)
    returns (collected: map<string, Json>)
    requires prefix == Join(path) && GoodBelow(value, path) && (value.Obj? || path != [])
    ensures Collected(value, path, results, collected)
    decreases value
  {
    if value.Obj? {
      collected := results;
      var keys := value.fields.Keys;
      ghost var done := {};
      assert Part(value, {}).fields == map[];
      while keys != {}
        invariant done + keys == value.fields.Keys && done !! keys
        invariant Collected(Part(value, done), path, results, collected)
        decreases |keys|
      {
        var k :| k in keys;
        ChildIsGood(value, path, k);
        var childPrefix := if prefix == "" then k else prefix + "." + k;
        if path != [] { JoinExtends(path, k); }
        assert path == [] ==> path + [k] == [k];
        ghost var before := collected;
        collected := CollectSettingsJson(value.fields[k], childPrefix, collected, path + [k]);
        PartStep(value, path, done, k, results, before, collected);
        done := done + {k};
        keys := keys - {k};
      }
      assert Part(value, done).fields == value.fields;
    } else {
      collected := results[prefix := value];
      assert path + [] == path;
      assert ValueLeaf(value, []);
    }
  }

  // In a conforming tree the values that are no objects are the leaves of the schema.
  lemma {:induction false} LeavesAreValues(schema: Schema, t: Json, q: seq<string>)
    requires Conforms(schema, t)
    ensures ValueLeaf(t, q) <==> IsLeaf(schema, q) && GetAt(t, q).Some?
    ensures GetAt(t, q).Some? ==> SchemaAt(schema, q).Some?
    decreases |q|
  {
    if q != [] {
      if schema.Leaf? {
        AcceptedIsNoObject(schema.kind, t);
      } else if q[0] in schema.fields {
        LeavesAreValues(schema.fields[q[0]], t.fields[q[0]], q[1..]);
      }
    } else if schema.Leaf? {
      AcceptedIsNoObject(schema.kind, t);
    }
  }

  method ToDbMap(schema: Schema, t: Json) returns (m: map<string, Json>)
    requires GoodSchema(schema) && schema.Node? && Conforms(schema, t)
    ensures IsDbMap(schema, t, m)
  {
    forall q | GetAt(t, q).Some? && [] + q != [] ensures GoodPath([] + q) {
      LeavesAreValues(schema, t, q);
      LeafPathIsGood(schema, q);
      assert [] + q == q;
    }
    m := CollectSettingsJson(t, "", map[], []);
    forall p | IsLeaf(schema, p) && GetAt(t, p).Some? ensures Join(p) in m && m[Join(p)] == GetAt(t, p).value {
      LeavesAreValues(schema, t, p);
      assert [] + p == p;
    }
    forall key | key in m ensures exists p :: IsLeaf(schema, p) && GetAt(t, p).Some? && key == Join(p) {
      var q :| ValueLeaf(t, q) && key == Join([] + q);
      LeavesAreValues(schema, t, q);
      assert [] + q == q;
    }
  }

  // ----- Rebuilding, one entry at a time -----

  function ApplyEntry(c: Codec, schema: Schema, t: Json, key: string, v: Json): Json {
    if v.Null? then t
    else
      var r := Set(c, schema, t, key, TextOf(c, v));
      if r.Ok? then r.value else t
  }

  function FromEntries(c: Codec, schema: Schema, entries: seq<(string, Json)>): Json {
    if entries == [] then Default(schema)
    else
      var n := |entries| - 1;
      ApplyEntry(c, schema, FromEntries(c, schema, entries[..n]), entries[n].0, entries[n].1)
  }

  // What a leaf ends up as, given its default and its stored value.
  function FinalLeaf(c: Codec, kind: Kind, default: Json, v: Json): Json {
    if v.Null? then default
    else
      var inferred := Infer(c, Some(default), TextOf(c, v));
      if inferred.Ok? && Accepts(kind, inferred.value) then inferred.value else default
  }

  // A key that names a leaf or nothing of the schema, but no inner node.
  ghost predicate KnownKey(schema: Schema, key: string) {
    SchemaAt(schema, Split(key)).None? || IsLeaf(schema, Split(key))
  }

  ghost predicate DistinctKeys(entries: seq<(string, Json)>) {
    forall i, j :: 0 <= i < j < |entries| ==> entries[i].0 != entries[j].0
  }

  // The entry of a path, if there is one.
  ghost function EntryOf(entries: seq<(string, Json)>, p: seq<string>): Option<Json> {
    if entries == [] then None
    else
      var n := |entries| - 1;
      if entries[n].0 == Join(p) then Some(entries[n].1) else EntryOf(entries[..n], p)
  }

  lemma {:induction false} EntryOfIs(entries: seq<(string, Json)>, p: seq<string>)
    ensures EntryOf(entries, p).None? <==> forall i :: 0 <= i < |entries| ==> entries[i].0 != Join(p)
    ensures EntryOf(entries, p).Some? ==>
              exists i :: 0 <= i < |entries| && entries[i] == (Join(p), EntryOf(entries, p).value)
  {
    if entries != [] {
      var n := |entries| - 1;
      var earlier := entries[..n];
      EntryOfIs(earlier, p);
      if entries[n].0 != Join(p) {
        forall i | 0 <= i < n ensures entries[i] == earlier[i] {}
        if EntryOf(earlier, p).Some? {
          var i :| 0 <= i < n && earlier[i] == (Join(p), EntryOf(earlier, p).value);
          assert entries[i] == (Join(p), EntryOf(earlier, p).value);
        }
      } else {
        assert entries[n] == (Join(p), EntryOf(entries, p).value);
      }
    }
  }

  // What a leaf is rebuilt to: final if it has an entry, its default otherwise.
  ghost function RebuiltLeaf(c: Codec, leaf: Schema, entry: Option<Json>): Json
    requires leaf.Leaf?
  {
    if entry.Some? then FinalLeaf(c, leaf.kind, leaf.default, entry.value) else leaf.default
  }

  lemma {:induction false} DefaultLeaf(schema: Schema, p: seq<string>)
    requires IsLeaf(schema, p)
    ensures GetAt(Default(schema), p) == Some(SchemaAt(schema, p).value.default)
    decreases |p|
  {
    if p != [] {
      DefaultLeaf(schema.fields[p[0]], p[1..]);
    }
  }

  // One entry turns its own leaf from default to final, and touches no other leaf.
  lemma EntryStep(c: Codec, schema: Schema, now: Json, key: string, v: Json, p: seq<string>)
    requires GoodSchema(schema) && schema.Node? && Conforms(schema, now)
    requires IsLeaf(schema, p) && KnownKey(schema, key)
    requires key == Join(p) ==> GetAt(now, p) == Some(SchemaAt(schema, p).value.default)
    ensures var leaf := SchemaAt(schema, p).value;
            GetAt(ApplyEntry(c, schema, now, key, v), p)
            == if key == Join(p) then Some(FinalLeaf(c, leaf.kind, leaf.default, v)) else GetAt(now, p)
  {
    var own := Split(key);
    LeafPathIsGood(schema, p);
    SplitJoin(p);
    JoinSplit(key);
    if !v.Null? {
      if SchemaAt(schema, own).None? {
        ForeignPathChangesNothing(c, schema, now, key, TextOf(c, v));
      } else {
        SetChangesOwnLeaf(c, schema, now, own, TextOf(c, v));
      }
    }
  }

  // Whatever the entry, the settings keep their shape.
  lemma EntryKeepsShape(c: Codec, schema: Schema, now: Json, key: string, v: Json)
    requires GoodSchema(schema) && Conforms(schema, now)
    ensures Conforms(schema, ApplyEntry(c, schema, now, key, v))
  {
    var changed := SetAt(c, now, Split(key), TextOf(c, v));
    if changed.Ok? && Deserialize(schema, changed.value).Some? {
      DeserializedConforms(schema, changed.value);
    }
  }

  lemma {:induction false} EntriesConform(c: Codec, schema: Schema, entries: seq<(string, Json)>)
    requires GoodSchema(schema)
    ensures Conforms(schema, FromEntries(c, schema, entries))
  {
    if entries == [] {
      DefaultConforms(schema);
    } else {
      var n := |entries| - 1;
      EntriesConform(c, schema, entries[..n]);
      EntryKeepsShape(c, schema, FromEntries(c, schema, entries[..n]), entries[n].0, entries[n].1);
    }
  }

  lemma {:induction false} EntriesSetLeaves(c: Codec, schema: Schema, entries: seq<(string, Json)>, p: seq<string>)
    requires GoodSchema(schema) && schema.Node? && IsLeaf(schema, p)
    requires DistinctKeys(entries) && forall i :: 0 <= i < |entries| ==> KnownKey(schema, entries[i].0)
    ensures GetAt(FromEntries(c, schema, entries), p)
            == Some(RebuiltLeaf(c, SchemaAt(schema, p).value, EntryOf(entries, p)))
  {
    if entries == [] {
      DefaultLeaf(schema, p);
    } else {
      var n := |entries| - 1;
      var earlier, key, v := entries[..n], entries[n].0, entries[n].1;
      EntriesConform(c, schema, earlier);
      EntriesSetLeaves(c, schema, earlier, p);
      EntryOfIs(earlier, p);
      EntryStep(c, schema, FromEntries(c, schema, earlier), key, v, p);
    }
  }

  // The entries of a table that holds some settings: every leaf once, in any order, among keys of
  // other applications.
  ghost predicate ListsLeaves(schema: Schema, t: Json, entries: seq<(string, Json)>) {
    && DistinctKeys(entries)
    && (forall p :: IsLeaf(schema, p) ==> exists i :: 0 <= i < |entries| && entries[i].0 == Join(p))
    && (forall i :: 0 <= i < |entries| ==> EntryFits(schema, t, entries[i].0, entries[i].1))
  }

  ghost predicate EntryFits(schema: Schema, t: Json, key: string, v: Json) {
    KnownKey(schema, key) && (IsLeaf(schema, Split(key)) ==> GetAt(t, Split(key)) == Some(v))
  }

  lemma ListedEntry(schema: Schema, t: Json, entries: seq<(string, Json)>, p: seq<string>)
    requires GoodSchema(schema) && schema.Node? && ListsLeaves(schema, t, entries) && IsLeaf(schema, p)
    ensures EntryOf(entries, p) == GetAt(t, p)
  {
    EntryOfIs(entries, p);
    LeafPathIsGood(schema, p);
    SplitJoin(p);
    var i :| 0 <= i < |entries| && entries[i] == (Join(p), EntryOf(entries, p).value);
    assert EntryFits(schema, t, entries[i].0, entries[i].1);
  }

  // ----- When a leaf survives -----

  /**
   The exact condition on one leaf: no null over a non-null default; no optional text that parses as
   other JSON; no negative number over a non-negative default.
   */
  ghost predicate LeafSurvives(c: Codec, default: Json, v: Json) {
    && (v.Null? ==> default.Null?)
    && (default.Null? && v.Str? ==> c.parse(v.s) == None || c.parse(v.s) == Some(v))
    && (default.Num? && default.n >= 0 && v.Num? ==> v.n >= 0)
  }

  function Base(kind: Kind): Kind {
    if kind.Optional? then Base(kind.inner) else kind
  }

  lemma {:induction false} BaseAccepts(kind: Kind, v: Json)
    ensures v != Null ==> (Accepts(kind, v) <==> Accepts(Base(kind), v))
    ensures !Base(kind).Optional?
  {
    if kind.Optional? {
      BaseAccepts(kind.inner, v);
    }
  }

  // Two values of one kind that are not null have one constructor.
  lemma SameConstructor(kind: Kind, a: Json, b: Json)
    requires Accepts(kind, a) && Accepts(kind, b)
    ensures !a.Obj? && !b.Obj?
    ensures a != Null && b != Null ==> a.Bool? == b.Bool? && a.Num? == b.Num? && a.Str? == b.Str? && a.Arr? == b.Arr?
  {
    BaseAccepts(kind, a);
    BaseAccepts(kind, b);
  }

  lemma NumberSurvives(c: Codec, kind: Kind, default: Json, v: Json)
    requires Faithful(c) && Accepts(kind, default) && Accepts(kind, v) && default.Num? && v.Num?
    ensures FinalLeaf(c, kind, default, v) == v <==> LeafSurvives(c, default, v)
  {
    BaseAccepts(kind, default);
    BaseAccepts(kind, v);
    AcceptedIsExact(kind, v);
    CodecFacts(c, v);
    SurvivingNumber(default, v.n, kind);
    hide Faithful, ParseU64, ParseI64, PrintInt;
  }

  lemma LeafSurvivesExactly(c: Codec, kind: Kind, default: Json, v: Json)
    requires Faithful(c) && Accepts(kind, default) && Accepts(kind, v)
    ensures FinalLeaf(c, kind, default, v) == v <==> LeafSurvives(c, default, v)
  {
    SameConstructor(kind, default, v);
    if default.Num? && v.Num? {
      NumberSurvives(c, kind, default, v);
    } else {
      AcceptedIsExact(kind, v);
      AcceptedIsExact(kind, default);
      CodecFacts(c, v);
      hide Faithful, ParseU64, ParseI64, PrintInt;
      var text := TextOf(c, v);
      match default
      case Null =>
      case Bool(_) =>
      case Str(_) =>
      case Arr(_) =>
      case Num(_) =>
      case Frac(_) =>
    }
  }

  lemma CodecFacts(c: Codec, v: Json)
    requires Faithful(c) && Exact(v)
    ensures c.parse(c.print_(v)) == Some(v)
    ensures v.Num? ==> c.print_(v) == PrintInt(v.n)
    ensures v.Bool? ==> c.print_(v) == (if v.b then "true" else "false") && "true" != "false"
  {
  }

  lemma SurvivingNumber(default: Json, n: int, kind: Kind)
    requires !Base(kind).Optional? && Accepts(Base(kind), Num(n)) && default.Num? && Accepts(Base(kind), default)
    ensures default.n >= 0 && n >= 0 ==> ParseU64(PrintInt(n)) == Some(n)
    ensures default.n >= 0 && n < 0 ==> ParseU64(PrintInt(n)) == None
    ensures default.n < 0 ==> ParseI64(PrintInt(n)) == Some(n)
  {
    if n >= 0 { ParsePrint(n); }
    if default.n < 0 { ParsePrintInt(n); }
  }

  // Every leaf of the settings survives being stored.
  ghost predicate AllSurvive(c: Codec, schema: Schema, t: Json) {
    forall p :: IsLeaf(schema, p) && GetAt(t, p).Some? ==>
      LeafSurvives(c, SchemaAt(schema, p).value.default, GetAt(t, p).value)
  }

  /**
   Rebuilding from the stored entries, in any order and among keys of other applications, gives the
   settings back if and only if every leaf survives.
   */
  lemma RoundTripExactly(c: Codec, schema: Schema, t: Json, entries: seq<(string, Json)>)
    requires Faithful(c) && GoodSchema(schema) && schema.Node? && Conforms(schema, t)
    requires ListsLeaves(schema, t, entries)
    ensures FromEntries(c, schema, entries) == t <==> AllSurvive(c, schema, t)
  {
    var end := FromEntries(c, schema, entries);
    EntriesConform(c, schema, entries);
    forall p | IsLeaf(schema, p)
      ensures GetAt(t, p).Some?
      ensures GetAt(end, p) == GetAt(t, p) <==> LeafSurvives(c, SchemaAt(schema, p).value.default, GetAt(t, p).value)
    {
      LeafValue(schema, t, p);
      forall i | 0 <= i < |entries| ensures KnownKey(schema, entries[i].0) {
        assert EntryFits(schema, t, entries[i].0, entries[i].1);
      }
      EntriesSetLeaves(c, schema, entries, p);
      ListedEntry(schema, t, entries, p);
      DefaultConforms(schema);
      LeafValue(schema, Default(schema), p);
      DefaultLeaf(schema, p);
      LeafSurvivesExactly(c, SchemaAt(schema, p).value.kind, SchemaAt(schema, p).value.default, GetAt(t, p).value);
    }
    if forall p :: IsLeaf(schema, p) ==> GetAt(end, p) == GetAt(t, p) {
      SameLeaves(schema, end, t);
    }
  }

  // The table holds every leaf of the settings; its other keys belong to other applications.
  ghost predicate HoldsSettings(schema: Schema, t: Json, m: map<string, Json>) {
    && (forall p :: IsLeaf(schema, p) ==> Join(p) in m)
    && (forall key :: key in m ==> EntryFits(schema, t, key, m[key]))
  }

  lemma DbMapHoldsSettings(schema: Schema, t: Json, m: map<string, Json>)
    requires GoodSchema(schema) && schema.Node? && Conforms(schema, t) && IsDbMap(schema, t, m)
    ensures HoldsSettings(schema, t, m)
  {
    forall p | IsLeaf(schema, p) ensures Join(p) in m {
      LeafValue(schema, t, p);
    }
    forall key | key in m ensures EntryFits(schema, t, key, m[key]) {
      var p :| IsLeaf(schema, p) && GetAt(t, p).Some? && key == Join(p);
      LeafPathIsGood(schema, p);
      SplitJoin(p);
    }
  }

  // The entries visited so far: those of the map whose key is not in `left`, each once.
  ghost predicate Visited(m: map<string, Json>, left: set<string>, entries: seq<(string, Json)>) {
    && (forall i :: 0 <= i < |entries| ==>
          entries[i].0 in m && entries[i].0 !in left && m[entries[i].0] == entries[i].1)
    && (forall i, j :: 0 <= i < j < |entries| ==> entries[i].0 != entries[j].0)
    && (forall key :: key in m && key !in left ==> exists i :: 0 <= i < |entries| && entries[i].0 == key)
  }

  lemma VisitOne(m: map<string, Json>, left: set<string>, entries: seq<(string, Json)>, key: string)
    requires Visited(m, left, entries) && key in left && key in m
    ensures Visited(m, left - {key}, entries + [(key, m[key])])
  {
    var longer := entries + [(key, m[key])];
    assert longer[|entries|].0 == key;
    forall other | other in m && other !in left - {key} ensures exists i :: 0 <= i < |longer| && longer[i].0 == other {
      if other != key {
        var i :| 0 <= i < |entries| && entries[i].0 == other;
        assert longer[i].0 == other;
      }
    }
  }

  lemma VisitedAll(m: map<string, Json>, entries: seq<(string, Json)>, p: seq<string>)
    requires Visited(m, {}, entries)
    ensures EntryOf(entries, p) == if Join(p) in m then Some(m[Join(p)]) else None
  {
    EntryOfIs(entries, p);
  }

  lemma VisitedAllLists(schema: Schema, t: Json, m: map<string, Json>, entries: seq<(string, Json)>)
    requires HoldsSettings(schema, t, m) && Visited(m, {}, entries)
    ensures ListsLeaves(schema, t, entries)
  {
  }

  // What any table is rebuilt to, leaf by leaf, as long as it holds no row for an inner node.
  ghost predicate RebuiltFrom(c: Codec, schema: Schema, m: map<string, Json>, settings: Json) {
    (forall key :: key in m ==> KnownKey(schema, key)) ==>
      forall p :: IsLeaf(schema, p) ==>
        GetAt(settings, p)
        == Some(RebuiltLeaf(c, SchemaAt(schema, p).value, if Join(p) in m then Some(m[Join(p)]) else None))
  }

  lemma VisitedIsRebuilt(c: Codec, schema: Schema, m: map<string, Json>, entries: seq<(string, Json)>)
    requires GoodSchema(schema) && schema.Node? && Visited(m, {}, entries)
    ensures RebuiltFrom(c, schema, m, FromEntries(c, schema, entries))
  {
    hide RebuiltLeaf, FromEntries, GoodSchema, KnownKey;
    if forall key :: key in m ==> KnownKey(schema, key) {
      forall p | IsLeaf(schema, p)
        ensures GetAt(FromEntries(c, schema, entries), p)
             == Some(RebuiltLeaf(c, SchemaAt(schema, p).value, if Join(p) in m then Some(m[Join(p)]) else None))
      {
        EntriesSetLeaves(c, schema, entries, p);
        VisitedAll(m, entries, p);
      }
    }
  }

  // A table that holds some settings gives them back exactly when all their leaves survive.
  ghost predicate RestoresExactly(c: Codec, schema: Schema, m: map<string, Json>, settings: Json) {
    forall t :: Conforms(schema, t) && HoldsSettings(schema, t, m) ==> (settings == t <==> AllSurvive(c, schema, t))
  }

  lemma VisitedRestores(c: Codec, schema: Schema, m: map<string, Json>, entries: seq<(string, Json)>)
    requires Faithful(c) && GoodSchema(schema) && schema.Node? && Visited(m, {}, entries)
    ensures RestoresExactly(c, schema, m, FromEntries(c, schema, entries))
  {
    hide Faithful, GoodSchema, FromEntries, AllSurvive, Visited, HoldsSettings, ListsLeaves, Conforms;
    forall t | Conforms(schema, t) && HoldsSettings(schema, t, m)
      ensures FromEntries(c, schema, entries) == t <==> AllSurvive(c, schema, t)
    {
      VisitedAllLists(schema, t, m, entries);
      RoundTripExactly(c, schema, t, entries);
    }
  }

  lemma FromEntriesGrows(c: Codec, schema: Schema, entries: seq<(string, Json)>, key: string, v: Json)
    ensures FromEntries(c, schema, entries + [(key, v)])
         == ApplyEntry(c, schema, FromEntries(c, schema, entries), key, v)
  {
    assert (entries + [(key, v)])[..|entries|] == entries;
  }

  lemma NothingVisited(m: map<string, Json>)
    ensures Visited(m, m.Keys, [])
  {
  }

  /**
   Rebuilds settings from a stored table by setting its rows one after the other, in no particular
   order. The result always has the shape of the schema; without rows for inner nodes each leaf depends
   on its own row alone; and a table that holds some settings gives them back exactly when all their
   leaves survive.
   */
  method FromDbMap(c: Codec, schema: Schema, m: map<string, Json>) returns (settings: Json)
    requires GoodSchema(schema) && schema.Node?
    ensures exists entries :: Visited(m, {}, entries) && settings == FromEntries(c, schema, entries)
    ensures Conforms(schema, settings) && RebuiltFrom(c, schema, m, settings)
    ensures Faithful(c) ==> RestoresExactly(c, schema, m, settings)
  {
    hide Set, Faithful, GoodSchema, RebuiltFrom, RestoresExactly, Visited, Conforms, TextOf;
    settings := Default(schema);
    var keys := m.Keys;
    ghost var entries: seq<(string, Json)> := [];
    assert settings == FromEntries(c, schema, entries);
    hide FromEntries;
    NothingVisited(m);
    while keys != {}
      invariant keys <= m.Keys && Visited(m, keys, entries)
      invariant settings == FromEntries(c, schema, entries)
      decreases |keys|
    {
      var key :| key in keys;
      VisitOne(m, keys, entries, key);
      FromEntriesGrows(c, schema, entries, key, m[key]);
      entries := entries + [(key, m[key])];
      if !m[key].Null? {
        var r := Set(c, schema, settings, key, TextOf(c, m[key]));
        if r.Ok? {
          settings := r.value;
        }
      }
      keys := keys - {key};
    }
    EntriesConform(c, schema, entries);
    VisitedIsRebuilt(c, schema, m, entries);
    if Faithful(c) {
      VisitedRestores(c, schema, m, entries);
    }
  }

  /** Writes settings out and rebuilds them: they come back exactly when every leaf survives. */
  method SaveAndLoad(c: Codec, schema: Schema, t: Json) returns (loaded: Json)
    requires Faithful(c) && GoodSchema(schema) && schema.Node? && Conforms(schema, t)
    ensures loaded == t <==> AllSurvive(c, schema, t)
  {
    hide Faithful, GoodSchema, Conforms, IsDbMap, HoldsSettings, AllSurvive, RebuiltFrom;
    var m := ToDbMap(schema, t);
    DbMapHoldsSettings(schema, t, m);
    loaded := FromDbMap(c, schema, m);
  }

  // ----- A text that does not survive -----

  function OneOptionalText(key: string): Schema {
    Node(map[key := Leaf(Optional(Text), Null)])
  }

  lemma OneOptionalTextLeaf(key: string, q: seq<string>)
    ensures IsLeaf(OneOptionalText(key), q) <==> q == [key]
    ensures SchemaAt(OneOptionalText(key), [key]) == Some(Leaf(Optional(Text), Null))
  {
    var schema, child := OneOptionalText(key), Leaf(Optional(Text), Null);
    assert schema.fields[key] == child;
    assert [key][1..] == [];
    assert SchemaAt(schema, [key]) == SchemaAt(child, []) == Some(child);
    if q != [] && q[0] == key && q != [key] {
      var rest := q[1..];
      assert q == [key] + rest;
      assert SchemaAt(schema, q) == SchemaAt(child, rest) == None;
    } else if q != [key] {
      assert q == [] || q[0] !in schema.fields;
    }
  }

  lemma TrueIsLost(c: Codec)
    requires Faithful(c)
    ensures FinalLeaf(c, Optional(Text), Null, Str("true")) == Null
  {
    assert c.print_(Bool(true)) == "true" && c.parse(c.print_(Bool(true))) == Some(Bool(true));
  }

  /** An optional text that reads as JSON of another kind is lost: a value `true` comes back as none. */
  lemma OptionalTextLost(c: Codec, key: string)
    requires Faithful(c) && GoodKey(key)
    ensures FromEntries(c, OneOptionalText(key), [(key, Str("true"))]) == Default(OneOptionalText(key))
  {
    hide Split, Faithful, FinalLeaf, FromEntries;
    var schema, t, p := OneOptionalText(key), Obj(map[key := Str("true")]), [key];
    var entries := [(key, Str("true"))];
    OneOptionalTextLeaf(key, p);
    SplitKey(key);
    TrueIsLost(c);
    assert GetAt(t, p) == Some(Str("true")) by { assert p[1..] == []; }
    EntriesConform(c, schema, entries);
    EntriesSetLeaves(c, schema, entries, p);
    assert entries[..0] == [] && entries[0].0 == Join(p);
    DefaultConforms(schema);
    DefaultLeaf(schema, p);
    forall q | IsLeaf(schema, q) ensures GetAt(FromEntries(c, schema, entries), q) == GetAt(Default(schema), q) {
      OneOptionalTextLeaf(key, q);
    }
    SameLeaves(schema, FromEntries(c, schema, entries), Default(schema));
  }
}
