/**
 Reading a setting as text, and resetting it to its default.
 */
module SettingsAccess {
  import opened Decimal
  import opened DottedPaths
  import opened Wrappers
  import opened Settings
  import opened SettingsStore

  function Get(c: Codec, t: Json, path: string): Option<string> {
    var found := GetAt(t, Split(path));
    if found.Some? then Some(TextOf(c, found.value)) else None
  }

  datatype ResetError = UnknownSetting | NotSet(error: SetError)

  // Resetting sets the text of the default.
  function Reset(c: Codec, schema: Schema, t: Json, path: string): Result<Json, ResetError> {
    var text := Get(c, Default(schema), path);
    if text.None? then Err(UnknownSetting)
    else
      var r := Set(c, schema, t, path, text.value);
      if r.Ok? then Ok(r.value) else Err(NotSet(r.error))
  }

  // When the text of one value of a leaf, set over another, reads back as it was. A null is only
  // understood over a null or a list, a negative number not over a number from zero up, and over a
  // null a text must not be JSON of another kind.
  predicate ReadsBack(c: Codec, current: Json, v: Json) {
    match v
    case Null => current.Null? || current.Arr?
    case Num(n) => n < 0 ==> current.Null? || (current.Num? && current.n < 0)
    case Str(s) => current.Null? ==> c.parse(s) == None || c.parse(s) == Some(v)
    case _ => true
  }

  lemma {:induction false} OneKind(kind: Kind, a: Json, b: Json)
    requires Accepts(kind, a) && Accepts(kind, b) && !a.Null? && !b.Null?
    ensures !a.Obj? && (a.Bool? <==> b.Bool?) && (a.Num? <==> b.Num?) && (a.Str? <==> b.Str?) && (a.Arr? <==> b.Arr?)
    ensures a.Num? ==> a.n <= U64_MAX && (a.n >= 0 || (I64_MIN <= a.n && I64_MIN <= b.n <= I64_MAX))
  {
    if kind.Optional? {
      OneKind(kind.inner, a, b);
    }
  }

  lemma NumberReadsBack(current: int, n: int)
    requires n <= U64_MAX && (current < 0 || n < 0 ==> I64_MIN <= n <= I64_MAX)
    ensures (if current >= 0 then ParseU64(PrintInt(n)) else ParseI64(PrintInt(n))) == Some(n) <==>
              current < 0 || n >= 0
  {
    hide PrintNat, Value;
    if current < 0 {
      ParsePrintInt(n);
    } else if n >= 0 {
      ParsePrint(n);
    } else {
      assert PrintInt(n)[0] == '-' && !IsDigit('-');
      assert !AllDigits(PrintInt(n));
    }
  }

  lemma TextReadsBack(c: Codec, kind: Kind, current: Json, v: Json)
    requires Faithful(c) && Accepts(kind, current) && Accepts(kind, v)
    ensures Infer(c, Some(current), TextOf(c, v)) == Ok(v) <==> ReadsBack(c, current, v)
  {
    hide PrintInt, ParseU64, ParseI64;
    AcceptedIsExact(kind, v);
    assert c.parse(c.print_(v)) == Some(v);
    if !current.Null? && !v.Null? {
      OneKind(kind, v, current);
      OneKind(kind, current, v);
      if v.Num? {
        NumberReadsBack(current.n, v.n);
        assert c.print_(v) == PrintInt(v.n);
      }
      if v.Bool? { assert c.print_(v) == if v.b then "true" else "false"; }
    } else if v.Null? && !current.Null? {
      AcceptedIsNoObject(kind, current);
      NullIsNoNumber();
      assert c.print_(v) == "null";
    }
  }

  lemma NullIsNoNumber()
    ensures ParseU64("null") == None && ParseI64("null") == None
  {
    assert !IsDigit("null"[0]);
  }

  lemma LeafText(c: Codec, schema: Schema, t: Json, path: seq<string>)
    requires GoodSchema(schema) && schema.Node? && Conforms(schema, t) && IsLeaf(schema, path)
    ensures GetAt(t, path).Some? && Get(c, t, Join(path)) == Some(TextOf(c, GetAt(t, path).value))
  {
    LeafPathIsGood(schema, path);
    SplitJoin(path);
    LeafValue(schema, t, path);
  }

  /** Setting a leaf to the text it reads as changes nothing. */
  lemma SetOwnText(c: Codec, schema: Schema, t: Json, path: seq<string>)
    requires Faithful(c) && GoodSchema(schema) && schema.Node? && Conforms(schema, t) && IsLeaf(schema, path)
    ensures Get(c, t, Join(path)).Some?
    ensures Set(c, schema, t, Join(path), Get(c, t, Join(path)).value) == Ok(t)
  {
    hide Faithful, GoodSchema, Set, Get, Infer;
    LeafText(c, schema, t, path);
    LeafValue(schema, t, path);
    var v := GetAt(t, path).value;
    TextReadsBack(c, SchemaAt(schema, path).value.kind, v, v);
    SetChangesOwnLeaf(c, schema, t, path, TextOf(c, v));
    SameLeaves(schema, Set(c, schema, t, Join(path), TextOf(c, v)).value, t);
  }

  /**
   Resetting a leaf succeeds and brings its default back exactly when the default's text reads back
   over the current value.
   */
  lemma ResetRestoresExactly(c: Codec, schema: Schema, t: Json, path: seq<string>)
    requires Faithful(c) && GoodSchema(schema) && schema.Node? && Conforms(schema, t) && IsLeaf(schema, path)
    ensures GetAt(t, path).Some? && GetAt(Default(schema), path).Some?
    ensures var r := Reset(c, schema, t, Join(path));
            (r.Ok? && GetAt(r.value, path) == GetAt(Default(schema), path))
            <==> ReadsBack(c, GetAt(t, path).value, GetAt(Default(schema), path).value)
  {
    hide Faithful, GoodSchema, Set, Get, Infer;
    DefaultConforms(schema);
    LeafText(c, schema, Default(schema), path);
    LeafValue(schema, Default(schema), path);
    LeafValue(schema, t, path);
    var default, current := GetAt(Default(schema), path).value, GetAt(t, path).value;
    TextReadsBack(c, SchemaAt(schema, path).value.kind, current, default);
    SetChangesOwnLeaf(c, schema, t, path, TextOf(c, default));
  }

  /** Resetting an inner node always succeeds, and brings every leaf below it back to its default, nulls included. */
  lemma ResetRestoresSubtree(c: Codec, schema: Schema, t: Json, path: seq<string>)
    requires Faithful(c) && GoodSchema(schema) && Conforms(schema, t) && path != [] && IsNode(schema, path)
    ensures var r := Reset(c, schema, t, Join(path));
            && r.Ok?
            && forall p :: IsLeaf(schema, p) ==>
                 GetAt(r.value, p) == if path <= p then GetAt(Default(schema), p) else GetAt(t, p)
  {
    LeafPathIsGood(schema, path);
    SplitJoin(path);
    DefaultConforms(schema);
    PartConforms(schema, Default(schema), path);
    var sub, default := SchemaAt(schema, path).value, GetAt(Default(schema), path).value;
    ConformingIsExact(sub, default);
    ConformingIsStable(sub, default);
    assert c.parse(c.print_(default)) == Some(default);
    hide Faithful, GoodSchema, Set, Conforms;
    SetReplacesSubtree(c, schema, t, path, c.print_(default));
    forall p | IsLeaf(schema, p) && path <= p ensures GetAt(default, p[|path|..]) == GetAt(Default(schema), p) {
      GetBelow(Default(schema), path, p);
    }
  }

  lemma {:induction false} GetBelow(t: Json, path: seq<string>, p: seq<string>)
    requires path <= p && GetAt(t, path).Some?
    ensures GetAt(GetAt(t, path).value, p[|path|..]) == GetAt(t, p)
    decreases |path|
  {
    if path != [] {
      GetBelow(t.fields[path[0]], path[1..], p[1..]);
      assert p[1..][|path| - 1..] == p[|path|..];
    } else {
      assert p[0..] == p;
    }
  }

  /** Resetting an optional text does not clear it: it becomes the text `null`. */
  lemma OptionalTextNotReset(c: Codec, key: string, text: string)
    requires Faithful(c) && GoodKey(key)
    ensures Reset(c, OneOptionalText(key), Obj(map[key := Str(text)]), key) == Ok(Obj(map[key := Str("null")]))
  {
    var schema, t := OneOptionalText(key), Obj(map[key := Str(text)]);
    SplitKey(key);
    assert [key][1..] == [];
    OneOptionalTextLeaf(key, [key]);
    DefaultLeaf(schema, [key]);
    var changed := Obj(map[key := Str("null")]);
    assert t.fields[key := Str("null")] == changed.fields;
    assert SetAt(c, t, [key], "null") == Ok(changed);
    assert Accepts(Optional(Text), Str("null")) by { assert Accepts(Text, Str("null")); }
    assert Deserialize(Leaf(Optional(Text), Null), Str("null")) == Some(Str("null"));
    NodeReadsBack(schema, changed);
    assert Deserialize(schema, changed).value.fields == changed.fields;
  }
}
