/**
 Settings as a JSON tree of fixed shape: writing single leaves by dotted path, flattening to a
 key-value map, rebuilding from one, and overlaying.

 A schema gives every leaf its kind and default. JSON text is printed and parsed by a codec.
 */
module Settings {
  import opened Decimal
  import opened DottedPaths
  import opened Wrappers

  datatype Json =
    | Null
    | Bool(b: bool)
    | Num(n: int)
    | Frac(literal: string)
    | Str(s: string)
    | Arr(items: seq<Json>)
    | Obj(fields: map<string, Json>)

  // The JSON library's printer and parser, and the parsing of floating-point texts: none where the
  // text is no number, and no literal where the number is not finite.
  datatype Codec = Codec(
    print_: Json -> string,
    parse: string -> Option<Json>,
    parseFloat: string -> Option<Option<string>>)

  // Values without floating-point numbers, and with integers of 64 bits.
  ghost predicate Exact(j: Json) {
    match j
    case Num(n) => I64_MIN <= n <= U64_MAX
    case Frac(_) => false
    case Arr(items) => forall i :: 0 <= i < |items| ==> Exact(items[i])
    case Obj(fields) => forall k :: k in fields ==> Exact(fields[k])
    case _ => true
  }

  // Exact values come back as they were printed.
  ghost predicate Faithful(c: Codec) {
    && (forall j :: Exact(j) ==> c.parse(c.print_(j)) == Some(j))
    && (forall n :: I64_MIN <= n <= U64_MAX ==> c.print_(Num(n)) == PrintInt(n))
    && (forall b :: c.print_(Bool(b)) == if b then "true" else "false")
    && c.print_(Null) == "null"
  }

  datatype Kind =
    | Boolean
    | Unsigned(max: nat)
    | Signed
    | Text
    | Choice(names: set<string>)
    | Texts
    | Optional(inner: Kind)

  predicate Accepts(kind: Kind, v: Json) {
    match kind
    case Boolean => v.Bool?
    case Unsigned(max) => v.Num? && 0 <= v.n <= max && v.n <= U64_MAX
    case Signed => v.Num? && I64_MIN <= v.n <= I64_MAX
    case Text => v.Str?
    case Choice(names) => v.Str? && v.s in names
    case Texts => v.Arr? && forall i :: 0 <= i < |v.items| ==> v.items[i].Str?
    case Optional(inner) => v == Null || Accepts(inner, v)
  }

  datatype Schema = Leaf(kind: Kind, default: Json) | Node(fields: map<string, Schema>)

  ghost predicate GoodSchema(schema: Schema) {
    match schema
    case Leaf(kind, default) => Accepts(kind, default)
    case Node(fields) => forall k :: k in fields ==> GoodKey(k) && GoodSchema(fields[k])
  }

  function Default(schema: Schema): Json {
    match schema
    case Leaf(_, default) => default
    case Node(fields) => Obj(map k | k in fields :: Default(fields[k]))
  }

  // What a settings value serializes to.
  ghost predicate Conforms(schema: Schema, t: Json) {
    match schema
    case Leaf(kind, _) => Accepts(kind, t)
    case Node(fields) =>
      t.Obj? && t.fields.Keys == fields.Keys && forall k :: k in fields ==> Conforms(fields[k], t.fields[k])
  }

  // Reading a tree back: unknown keys are ignored, missing ones get their default, a leaf of the
  // wrong kind fails the whole.
  function Deserialize(schema: Schema, t: Json): Option<Json> {
    match schema
    case Leaf(kind, _) => if Accepts(kind, t) then Some(t) else None
    case Node(fields) =>
      if t.Obj? && forall k :: k in fields && k in t.fields ==> Deserialize(fields[k], t.fields[k]).Some?
      then Some(Obj(map k | k in fields ::
                      if k in t.fields then Deserialize(fields[k], t.fields[k]).value else Default(fields[k])))
      else None
  }

  // ----- Paths -----

  function GetAt(t: Json, path: seq<string>): Option<Json>
    decreases |path|
  {
    if path == [] then Some(t)
    else if t.Obj? && path[0] in t.fields then GetAt(t.fields[path[0]], path[1..])
    else None
  }

  function SchemaAt(schema: Schema, path: seq<string>): Option<Schema>
    decreases |path|
  {
    if path == [] then Some(schema)
    else if schema.Node? && path[0] in schema.fields then SchemaAt(schema.fields[path[0]], path[1..])
    else None
  }

  ghost predicate IsLeaf(schema: Schema, path: seq<string>) {
    SchemaAt(schema, path).Some? && SchemaAt(schema, path).value.Leaf?
  }

  function ReplaceAt(t: Json, path: seq<string>, v: Json): Json
    requires GetAt(t, path).Some?
    decreases |path|
  {
    if path == [] then v
    else Obj(t.fields[path[0] := ReplaceAt(t.fields[path[0]], path[1..], v)])
  }

  // ----- Setting one path -----

  datatype SetError = PathNotFound | ParentNotObject | WrongType | CannotApply

  // The text of a value as it is handed to `set`.
  function TextOf(c: Codec, v: Json): string {
    if v.Str? then v.s else c.print_(v)
  }

  // The new value takes the type of the existing one; where there is none, any JSON, or else text.
  function Infer(c: Codec, existing: Option<Json>, text: string): Result<Json, SetError> {
    var parsed := c.parse(text);
    var loose := if parsed.Some? then parsed.value else Str(text);
    if existing.None? then Ok(loose)
    else match existing.value
      case Bool(_) =>
        if text == "true" then Ok(Bool(true)) else if text == "false" then Ok(Bool(false)) else Err(WrongType)
      case Num(n) =>
        var number := if n >= 0 then ParseU64(text) else ParseI64(text);
        if number.Some? then Ok(Num(number.value)) else Err(WrongType)
      case Frac(_) =>
        var float := c.parseFloat(text);
        if float.None? then Err(WrongType)
        else Ok(if float.value.Some? then Frac(float.value.value) else Str(text))
      case Null => Ok(loose)
      case Arr(_) => if parsed.Some? then Ok(parsed.value) else Err(WrongType)
      case Obj(_) => if parsed.Some? then Ok(parsed.value) else Err(WrongType)
      case Str(_) => Ok(Str(text))
  }

  function SetAt(c: Codec, t: Json, parts: seq<string>, text: string): Result<Json, SetError>
    requires parts != []
    decreases |parts|
  {
    if |parts| == 1 then
      if !t.Obj? then Err(ParentNotObject)
      else
        var v := Infer(c, if parts[0] in t.fields then Some(t.fields[parts[0]]) else None, text);
        if v.Err? then Err(v.error) else Ok(Obj(t.fields[parts[0] := v.value]))
    else if t.Obj? && parts[0] in t.fields then
      var child := SetAt(c, t.fields[parts[0]], parts[1..], text);
      if child.Err? then child else Ok(Obj(t.fields[parts[0] := child.value]))
    else Err(PathNotFound)
  }

  function Set(c: Codec, schema: Schema, t: Json, path: string, text: string): Result<Json, SetError> {
    var changed := SetAt(c, t, Split(path), text);
    if changed.Err? then changed
    else
      var applied := Deserialize(schema, changed.value);
      if applied.Some? then Ok(applied.value) else Err(CannotApply)
  }

  // ----- Trees of one schema -----

  lemma {:induction false} ConformingIsStable(schema: Schema, t: Json)
    requires Conforms(schema, t)
    ensures Deserialize(schema, t) == Some(t)
    decreases schema
  {
    if schema.Node? {
      forall k | k in schema.fields ensures Deserialize(schema.fields[k], t.fields[k]) == Some(t.fields[k]) {
        ConformingIsStable(schema.fields[k], t.fields[k]);
      }
      assert Deserialize(schema, t).value.fields == t.fields;
    }
  }

  lemma {:induction false} DefaultConforms(schema: Schema)
    requires GoodSchema(schema)
    ensures Conforms(schema, Default(schema))
    decreases schema
  {
    if schema.Node? {
      forall k | k in schema.fields ensures Conforms(schema.fields[k], Default(schema).fields[k]) {
        DefaultConforms(schema.fields[k]);
      }
    }
  }

  // Whatever reads back has the shape of the schema.
  lemma {:induction false} DeserializedConforms(schema: Schema, t: Json)
    requires GoodSchema(schema) && Deserialize(schema, t).Some?
    ensures Conforms(schema, Deserialize(schema, t).value)
    decreases schema
  {
    if schema.Node? {
      forall k | k in schema.fields ensures Conforms(schema.fields[k], Deserialize(schema, t).value.fields[k]) {
        if k in t.fields {
          DeserializedConforms(schema.fields[k], t.fields[k]);
        } else {
          DefaultConforms(schema.fields[k]);
        }
      }
    }
  }

  // Two trees of one schema with the same leaves are the same.
  lemma {:induction false} SameLeaves(schema: Schema, a: Json, b: Json)
    requires Conforms(schema, a) && Conforms(schema, b)
    requires forall p :: IsLeaf(schema, p) ==> GetAt(a, p) == GetAt(b, p)
    ensures a == b
    decreases schema
  {
    if schema.Leaf? {
      assert IsLeaf(schema, []);
    } else {
      forall k | k in schema.fields ensures a.fields[k] == b.fields[k] {
        forall p | IsLeaf(schema.fields[k], p) ensures GetAt(a.fields[k], p) == GetAt(b.fields[k], p) {
          var q := [k] + p;
          assert q[1..] == p;
          assert IsLeaf(schema, q);
        }
        SameLeaves(schema.fields[k], a.fields[k], b.fields[k]);
      }
      assert a.fields == b.fields;
    }
  }

  lemma {:induction false} LeafValue(schema: Schema, t: Json, path: seq<string>)
    requires Conforms(schema, t) && IsLeaf(schema, path)
    ensures GetAt(t, path).Some? && Accepts(SchemaAt(schema, path).value.kind, GetAt(t, path).value)
    decreases |path|
  {
    if path != [] {
      LeafValue(schema.fields[path[0]], t.fields[path[0]], path[1..]);
    }
  }

  lemma {:induction false} AcceptedIsNoObject(kind: Kind, v: Json)
    requires Accepts(kind, v)
    ensures !v.Obj?
  {
    if kind.Optional? && v != Null {
      AcceptedIsNoObject(kind.inner, v);
    }
  }

  lemma {:induction false} AcceptedIsExact(kind: Kind, v: Json)
    requires Accepts(kind, v)
    ensures Exact(v)
  {
    if kind.Optional? && v != Null {
      AcceptedIsExact(kind.inner, v);
    }
  }

  lemma {:induction false} ConformingIsExact(schema: Schema, t: Json)
    requires Conforms(schema, t)
    ensures Exact(t)
    decreases schema
  {
    if schema.Leaf? {
      AcceptedIsExact(schema.kind, t);
    } else {
      forall k | k in schema.fields ensures Exact(t.fields[k]) {
        ConformingIsExact(schema.fields[k], t.fields[k]);
      }
    }
  }

  // Replacing a leaf by a value of its kind keeps the shape, and reads back as it is.
  lemma {:induction false} ReplaceLeaf(schema: Schema, t: Json, path: seq<string>, v: Json)
    requires Conforms(schema, t) && IsLeaf(schema, path) && GetAt(t, path).Some?
    ensures Accepts(SchemaAt(schema, path).value.kind, v)
            ==> Conforms(schema, ReplaceAt(t, path, v))
                && Deserialize(schema, ReplaceAt(t, path, v)) == Some(ReplaceAt(t, path, v))
    ensures !Accepts(SchemaAt(schema, path).value.kind, v) ==> Deserialize(schema, ReplaceAt(t, path, v)) == None
    decreases |path|
  {
    if path != [] {
      var k := path[0];
      ReplaceLeaf(schema.fields[k], t.fields[k], path[1..], v);
      var changed := ReplaceAt(t, path, v);
      if Accepts(SchemaAt(schema, path).value.kind, v) {
        forall j | j in schema.fields ensures Conforms(schema.fields[j], changed.fields[j]) {}
        ConformingIsStable(schema, changed);
      }
    }
  }

  // Replacing one leaf leaves every other leaf alone.
  lemma {:induction false} ReplaceIsLocal(schema: Schema, t: Json, path: seq<string>, v: Json, other: seq<string>)
    requires Conforms(schema, t) && IsLeaf(schema, path) && IsLeaf(schema, other) && GetAt(t, path).Some?
    ensures GetAt(ReplaceAt(t, path, v), other) == if other == path then Some(v) else GetAt(t, other)
    decreases |path|
  {
    if path != [] {
      assert other != [];
      var k := path[0];
      if other[0] == k {
        ReplaceIsLocal(schema.fields[k], t.fields[k], path[1..], v, other[1..]);
        if other[1..] == path[1..] { assert other == [k] + other[1..] == path; }
      }
    }
  }

  lemma {:induction false} SetAtExisting(c: Codec, t: Json, path: seq<string>, text: string)
    requires path != [] && GetAt(t, path).Some?
    ensures var v := Infer(c, GetAt(t, path), text);
            SetAt(c, t, path, text) == if v.Err? then Err(v.error) else Ok(ReplaceAt(t, path, v.value))
    decreases |path|
  {
    if |path| > 1 {
      SetAtExisting(c, t.fields[path[0]], path[1..], text);
    } else {
      assert path[1..] == [];
    }
  }

  lemma {:induction false} LeafPathIsGood(schema: Schema, path: seq<string>)
    requires GoodSchema(schema) && path != [] && SchemaAt(schema, path).Some?
    ensures GoodPath(path)
    decreases |path|
  {
    if |path| > 1 {
      LeafPathIsGood(schema.fields[path[0]], path[1..]);
      forall i | 0 <= i < |path| ensures GoodKey(path[i]) {
        if i > 0 { assert path[i] == path[1..][i - 1]; }
      }
    }
  }

  /**
   Setting a leaf by its dotted path changes that leaf and no other: to the inferred value if it has
   the leaf's kind, and not at all otherwise.
   */
  lemma SetChangesOwnLeaf(c: Codec, schema: Schema, t: Json, path: seq<string>, text: string)
    requires GoodSchema(schema) && schema.Node? && Conforms(schema, t) && IsLeaf(schema, path)
    ensures GetAt(t, path).Some?
    ensures var r := Set(c, schema, t, Join(path), text);
            var v := Infer(c, GetAt(t, path), text);
            && (r.Ok? <==> v.Ok? && Accepts(SchemaAt(schema, path).value.kind, v.value))
            && (r.Ok? ==> Conforms(schema, r.value)
                          && forall p :: IsLeaf(schema, p) ==>
                                GetAt(r.value, p) == if p == path then Some(v.value) else GetAt(t, p))
  {
    LeafPathIsGood(schema, path);
    SplitJoin(path);
    LeafValue(schema, t, path);
    SetAtExisting(c, t, path, text);
    var v := Infer(c, GetAt(t, path), text);
    if v.Ok? {
      ReplaceLeaf(schema, t, path, v.value);
      forall p | IsLeaf(schema, p)
        ensures GetAt(ReplaceAt(t, path, v.value), p) == if p == path then Some(v.value) else GetAt(t, p)
      {
        ReplaceIsLocal(schema, t, path, v.value, p);
      }
    }
  }

  // ----- Setting an inner node -----

  predicate IsNode(schema: Schema, path: seq<string>) {
    SchemaAt(schema, path).Some? && SchemaAt(schema, path).value.Node?
  }

  lemma {:induction false} PartConforms(schema: Schema, t: Json, path: seq<string>)
    requires Conforms(schema, t) && SchemaAt(schema, path).Some?
    ensures GetAt(t, path).Some? && Conforms(SchemaAt(schema, path).value, GetAt(t, path).value)
    decreases |path|
  {
    if path != [] {
      PartConforms(schema.fields[path[0]], t.fields[path[0]], path[1..]);
    }
  }

  // A node reads back field by field.
  lemma NodeReadsBack(schema: Schema, t: Json)
    requires schema.Node? && t.Obj?
    ensures var r := Deserialize(schema, t);
      && (r.Some? <==> forall k :: k in schema.fields && k in t.fields ==>
               Deserialize(schema.fields[k], t.fields[k]).Some?)
      && (r.Some? ==> r.value.Obj? && r.value.fields.Keys == schema.fields.Keys)
      && (forall k :: r.Some? && k in schema.fields && k in t.fields ==>
            Some(r.value.fields[k]) == Deserialize(schema.fields[k], t.fields[k]))
  {
  }

  lemma FieldsAreStable(schema: Schema, t: Json)
    requires schema.Node? && Conforms(schema, t)
    ensures t.Obj? && t.fields.Keys == schema.fields.Keys
    ensures forall k :: k in schema.fields ==> Deserialize(schema.fields[k], t.fields[k]) == Some(t.fields[k])
  {
    forall k | k in schema.fields ensures Deserialize(schema.fields[k], t.fields[k]) == Some(t.fields[k]) {
      ConformingIsStable(schema.fields[k], t.fields[k]);
    }
  }

  // One changed field reads back on its own.
  lemma FieldReadsBack(schema: Schema, t: Json, k: string, v: Json)
    requires schema.Node? && Conforms(schema, t) && k in schema.fields
    ensures var w := Deserialize(schema.fields[k], v);
            Deserialize(schema, Obj(t.fields[k := v])) == if w.Some? then Some(Obj(t.fields[k := w.value])) else None
  {
    FieldsAreStable(schema, t);
    hide Conforms, Deserialize;
    var changed, w := Obj(t.fields[k := v]), Deserialize(schema.fields[k], v);
    NodeReadsBack(schema, changed);
    assert changed.fields[k] == v;
    if w.Some? {
      assert Deserialize(schema, changed).value.fields == t.fields[k := w.value];
    }
  }

  // Replacing a part reads back as replacing it by what the part reads back as.
  lemma {:induction false} ReplacePart(schema: Schema, t: Json, path: seq<string>, v: Json)
    requires Conforms(schema, t) && SchemaAt(schema, path).Some? && GetAt(t, path).Some?
    ensures var w := Deserialize(SchemaAt(schema, path).value, v);
            Deserialize(schema, ReplaceAt(t, path, v)) == if w.Some? then Some(ReplaceAt(t, path, w.value)) else None
    decreases |path|
  {
    hide Deserialize;
    if path != [] {
      var k := path[0];
      ReplacePart(schema.fields[k], t.fields[k], path[1..], v);
      FieldReadsBack(schema, t, k, ReplaceAt(t.fields[k], path[1..], v));
    }
  }

  // Replacing a part changes the paths through it and no other leaf.
  lemma {:induction false} ReplacePartIsLocal(schema: Schema, t: Json, path: seq<string>, w: Json, p: seq<string>)
    requires Conforms(schema, t) && IsNode(schema, path) && IsLeaf(schema, p) && GetAt(t, path).Some?
    ensures GetAt(ReplaceAt(t, path, w), p) == if path <= p then GetAt(w, p[|path|..]) else GetAt(t, p)
    decreases |path|
  {
    if path == [] {
      assert p[0..] == p;
    } else {
      assert p != [];
      var k := path[0];
      if p[0] == k {
        ReplacePartIsLocal(schema.fields[k], t.fields[k], path[1..], w, p[1..]);
        assert path <= p <==> path[1..] <= p[1..] by {
          if path[1..] <= p[1..] { assert path == [k] + path[1..] && p == [k] + p[1..]; }
        }
        if path <= p { assert p[1..][|path| - 1..] == p[|path|..]; }
      }
    }
  }

  /**
   Setting an inner node replaces everything below it by what the text reads back as, or fails and
   changes nothing; leaves elsewhere stay as they were.
   */
  lemma SetReplacesSubtree(c: Codec, schema: Schema, t: Json, path: seq<string>, text: string)
    requires GoodSchema(schema) && Conforms(schema, t) && path != [] && IsNode(schema, path)
    ensures var r := Set(c, schema, t, Join(path), text);
            var v := c.parse(text);
            var w := if v.Some? then Deserialize(SchemaAt(schema, path).value, v.value) else None;
            && (r.Ok? <==> w.Some?)
            && (r.Ok? ==> Conforms(schema, r.value)
                          && forall p :: IsLeaf(schema, p) ==>
                               GetAt(r.value, p) == if path <= p then GetAt(w.value, p[|path|..]) else GetAt(t, p))
  {
    LeafPathIsGood(schema, path);
    SplitJoin(path);
    PartConforms(schema, t, path);
    SetAtExisting(c, t, path, text);
    var v := c.parse(text);
    hide Deserialize, GoodSchema, Conforms, Accepts;
    if v.Some? {
      ReplacePart(schema, t, path, v.value);
      var w := Deserialize(SchemaAt(schema, path).value, v.value);
      if w.Some? {
        DeserializedConforms(schema, ReplaceAt(t, path, v.value));
        forall p | IsLeaf(schema, p)
          ensures GetAt(ReplaceAt(t, path, w.value), p)
               == if path <= p then GetAt(w.value, p[|path|..]) else GetAt(t, p)
        {
          ReplacePartIsLocal(schema, t, path, w.value, p);
        }
      }
    }
  }

  // ----- Setting outside the schema -----

  lemma {:induction false} SetAtForeign(c: Codec, schema: Schema, t: Json, parts: seq<string>, text: string)
    requires Conforms(schema, t) && parts != [] && SchemaAt(schema, parts).None?
    ensures var r := SetAt(c, t, parts, text);
            r.Ok? ==> r.value.Obj? && Deserialize(schema, r.value) == Some(t)
    decreases |parts|
  {
    var k := parts[0];
    if schema.Leaf? {
      AcceptedIsNoObject(schema.kind, t);
    } else {
      var r := SetAt(c, t, parts, text);
      if |parts| > 1 && k in schema.fields {
        SetAtForeign(c, schema.fields[k], t.fields[k], parts[1..], text);
      } else if |parts| == 1 {
        assert parts[1..] == [];
        assert k !in schema.fields;
      }
      if r.Ok? {
        forall j | j in schema.fields ensures Deserialize(schema.fields[j], r.value.fields[j]) == Some(t.fields[j]) {
          if j != k { ConformingIsStable(schema.fields[j], t.fields[j]); }
        }
        assert Deserialize(schema, r.value).value.fields == t.fields;
      }
    }
  }

  lemma {:induction false} SetAtForeignSucceeds(c: Codec, schema: Schema, t: Json, parts: seq<string>, text: string)
    requires Conforms(schema, t) && parts != [] && SchemaAt(schema, parts).None?
    ensures SetAt(c, t, parts, text).Ok? <==> IsNode(schema, parts[..|parts| - 1])
    decreases |parts|
  {
    var k, parent := parts[0], parts[..|parts| - 1];
    if schema.Leaf? {
      AcceptedIsNoObject(schema.kind, t);
    } else if |parts| > 1 {
      assert parent[0] == k && parent[1..] == parts[1..][..|parts| - 2];
      if k in schema.fields {
        SetAtForeignSucceeds(c, schema.fields[k], t.fields[k], parts[1..], text);
      }
    }
  }

  /**
   A path outside the schema never changes the settings. Whether the call reports success depends on
   its parent: it does exactly when the parent is an inner node of the schema.
   */
  lemma ForeignPathChangesNothing(c: Codec, schema: Schema, t: Json, path: string, text: string)
    requires Conforms(schema, t) && SchemaAt(schema, Split(path)).None?
    ensures var r := Set(c, schema, t, path, text);
            var parts := Split(path);
            (r.Ok? <==> IsNode(schema, parts[..|parts| - 1])) && (r.Ok? ==> r.value == t)
  {
    SetAtForeign(c, schema, t, Split(path), text);
    SetAtForeignSucceeds(c, schema, t, Split(path), text);
  }

  /** In particular any unknown top-level key is reported as set. */
  lemma UnknownKeyReportsSuccess(c: Codec, schema: Schema, t: Json, key: string, text: string)
    requires Conforms(schema, t) && schema.Node? && GoodKey(key) && key !in schema.fields
    ensures Set(c, schema, t, key, text) == Ok(t)
  {
    SplitKey(key);
    assert [key][..0] == [] && [key][1..] == [];
    ForeignPathChangesNothing(c, schema, t, key, text);
  }
}
