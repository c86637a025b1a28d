/**
 Which texts a setting takes, kind by kind, and what reading a partial tree gives.
 */
module SettingsTexts {
  import opened Decimal
  import opened DottedPaths
  import opened Settings
  import opened Wrappers

  // A leaf of this kind takes the text over its current value, and becomes v.
  ghost predicate Takes(c: Codec, kind: Kind, current: Json, text: string, v: Json) {
    match kind
    case Boolean => (text == "true" && v == Bool(true)) || (text == "false" && v == Bool(false))
    case Unsigned(max) => v.Num? && v.n <= max && IsUnsignedText(text, v.n)
    case Signed =>
      && v.Num? && I64_MIN <= v.n <= I64_MAX
      && if current.Num? && current.n < 0 then ParseI64(text) == Some(v.n) else IsUnsignedText(text, v.n)
    case Text => v == Str(text)
    case Choice(names) => text in names && v == Str(text)
    case Texts =>
      c.parse(text) == Some(v) && v.Arr? && forall i :: 0 <= i < |v.items| ==> v.items[i].Str?
    case Optional(inner) =>
      if current.Null? then
        && v == (if c.parse(text).Some? then c.parse(text).value else Str(text))
        && (v.Null? || Accepts(inner, v))
      else Takes(c, inner, current, text, v) || (current.Arr? && v.Null? && c.parse(text) == Some(Null))
  }

  // Digits that make up n, at least one, perhaps after a plus sign.
  ghost predicate IsUnsignedText(text: string, n: int) {
    exists digits :: (text == digits || text == "+" + digits) && digits != "" && AllDigits(digits)
      && Value(digits) == n && n <= U64_MAX
  }

  lemma ParsedIsUnsignedText(text: string, n: int)
    ensures 0 <= n && ParseU64(text) == Some(n) <==> IsUnsignedText(text, n)
    ensures IsUnsignedText(text, n) ==> 0 <= n <= U64_MAX
  {
    hide Value;
    var bare := if text != [] && text[0] == '+' then text[1..] else text;
    if 0 <= n && ParseU64(text) == Some(n) {
      assert text == bare || text == "+" + bare;
    }
    if IsUnsignedText(text, n) {
      var digits :| (text == digits || text == "+" + digits) && digits != "" && AllDigits(digits)
        && Value(digits) == n && n <= U64_MAX;
      assert IsDigit(digits[0]);
      if text == "+" + digits { assert text[1..] == digits; }
      assert bare == digits;
    }
  }

  lemma {:induction false} InferTakes(c: Codec, kind: Kind, current: Json, text: string, v: Json)
    requires Accepts(kind, current)
    ensures Takes(c, kind, current, text, v) <==> Infer(c, Some(current), text) == Ok(v) && Accepts(kind, v)
  {
    hide ParseU64, ParseI64, IsUnsignedText;
    if v.Num? { ParsedIsUnsignedText(text, v.n); }
    if kind.Optional? && !current.Null? {
      InferTakes(c, kind.inner, current, text, v);
      AcceptedIsNoObject(kind, current);
      NoNullInferred(c, kind, current, text);
    }
  }

  // A null comes out only over a null or a list.
  lemma NoNullInferred(c: Codec, kind: Kind, current: Json, text: string)
    requires Accepts(kind, current) && !current.Null?
    ensures Infer(c, Some(current), text) == Ok(Null) <==> current.Arr? && c.parse(text) == Some(Null)
  {
    AcceptedIsNoObject(kind, current);
  }

  /**
   Setting a leaf succeeds exactly when its kind takes the text over its current value, and gives the
   leaf the value the text stands for.
   */
  lemma SetTakesExactly(c: Codec, schema: Schema, t: Json, path: seq<string>, text: string)
    requires GoodSchema(schema) && schema.Node? && Conforms(schema, t) && IsLeaf(schema, path)
    ensures GetAt(t, path).Some?
    ensures var kind, current := SchemaAt(schema, path).value.kind, GetAt(t, path).value;
            var r := Set(c, schema, t, Join(path), text);
            && (r.Ok? <==> exists v :: Takes(c, kind, current, text, v))
            && (r.Ok? ==> GetAt(r.value, path).Some? && Takes(c, kind, current, text, GetAt(r.value, path).value))
  {
    LeafValue(schema, t, path);
    SetChangesOwnLeaf(c, schema, t, path, text);
    hide Set, Infer, Takes, Conforms, GoodSchema;
    var kind, current := SchemaAt(schema, path).value.kind, GetAt(t, path).value;
    var inferred := Infer(c, Some(current), text);
    assert GetAt(t, path) == Some(current);
    forall v ensures Takes(c, kind, current, text, v) <==> inferred == Ok(v) && Accepts(kind, v) {
      InferTakes(c, kind, current, text, v);
    }
    if inferred.Ok? && Accepts(kind, inferred.value) {
      assert Takes(c, kind, current, text, inferred.value);
    }
  }

  // ----- Errors -----

  lemma RefusedAsWrongType(c: Codec, existing: Option<Json>, text: string)
    ensures Infer(c, existing, text).Err? ==> Infer(c, existing, text).error == WrongType
  {
  }

  lemma {:induction false} SetAtErrors(c: Codec, t: Json, path: seq<string>, text: string)
    requires path != []
    ensures var parent, key := GetAt(t, path[..|path| - 1]), path[|path| - 1];
            SetAt(c, t, path, text).Err? ==>
              SetAt(c, t, path, text).error ==
                if parent.None? then PathNotFound
                else if !parent.value.Obj? then ParentNotObject
                else WrongType
    ensures var parent := GetAt(t, path[..|path| - 1]);
            SetAt(c, t, path, text).Err? <==>
              parent.None? || !parent.value.Obj? || Infer(c, GetAt(t, path), text).Err?
    decreases |path|
  {
    var n := |path| - 1;
    if n == 0 {
      RefusedAsWrongType(c, GetAt(t, path), text);
      assert path[..0] == [] && path[1..] == [];
    } else {
      assert path[..n][0] == path[0] && path[..n][1..] == path[1..][..n - 1];
      if t.Obj? && path[0] in t.fields {
        SetAtErrors(c, t.fields[path[0]], path[1..], text);
      }
    }
  }

  // No value of this one's kind is written like that.
  ghost predicate Unreadable(c: Codec, current: Json, text: string) {
    match current
    case Bool(_) => text != "true" && text != "false"
    case Num(n) => if n < 0 then ParseI64(text) == None else !exists v :: IsUnsignedText(text, v)
    case Arr(_) => c.parse(text) == None
    case _ => false
  }

  /**
   What the error of a refused leaf tells: the text is not one of a value of the leaf's present kind, or
   it is, but the leaf does not take that value. A path through something that is missing, or that is
   no object, is told apart.
   */
  lemma ErrorTells(c: Codec, schema: Schema, t: Json, path: seq<string>, text: string)
    requires path != [] && GoodPath(path)
    ensures var parent, r := GetAt(t, path[..|path| - 1]), Set(c, schema, t, Join(path), text);
            && (r == Err(PathNotFound) <==> parent.None?)
            && (r == Err(ParentNotObject) <==> parent.Some? && !parent.value.Obj?)
            && (Conforms(schema, t) && IsLeaf(schema, path) && r.Err? ==>
                  GetAt(t, path).Some?
                  && r.error == if Unreadable(c, GetAt(t, path).value, text) then WrongType else CannotApply)
  {
    SplitJoin(path);
    SetAtErrors(c, t, path, text);
    hide SetAt, Deserialize, Infer, Unreadable, Split, Join, GoodPath;
    if Conforms(schema, t) && IsLeaf(schema, path) {
      LeafValue(schema, t, path);
      hide Conforms;
      var kind, current := SchemaAt(schema, path).value.kind, GetAt(t, path).value;
      UnreadableExactly(c, kind, current, text);
      ParentOfValue(t, path);
    }
  }

  lemma {:induction false} ParentOfValue(t: Json, path: seq<string>)
    requires path != [] && GetAt(t, path).Some?
    ensures GetAt(t, path[..|path| - 1]).Some? && GetAt(t, path[..|path| - 1]).value.Obj?
    decreases |path|
  {
    if |path| > 1 {
      ParentOfValue(t.fields[path[0]], path[1..]);
      assert path[1..][..|path| - 2] == path[..|path| - 1][1..];
    }
  }

  lemma UnreadableExactly(c: Codec, kind: Kind, current: Json, text: string)
    requires Accepts(kind, current)
    ensures Infer(c, Some(current), text).Err? <==> Unreadable(c, current, text)
  {
    hide ParseI64, ParseU64, IsUnsignedText;
    AcceptedIsNoObject(kind, current);
    AcceptedIsExact(kind, current);
    forall v ensures 0 <= v && ParseU64(text) == Some(v) <==> IsUnsignedText(text, v) {
      ParsedIsUnsignedText(text, v);
    }
    if ParseU64(text).Some? {
      UnsignedIsNatural(text);
      assert IsUnsignedText(text, ParseU64(text).value);
    }
  }

  lemma UnsignedIsNatural(text: string)
    requires ParseU64(text).Some?
    ensures ParseU64(text).value >= 0
  {
  }

  // ----- Reading a partial tree -----

  // Every part of the tree that the schema knows is of its shape.
  ghost predicate Fits(schema: Schema, t: Json) {
    match schema
    case Leaf(kind, _) => Accepts(kind, t)
    case Node(fields) => t.Obj? && forall k :: k in fields && k in t.fields ==> Fits(fields[k], t.fields[k])
  }

  lemma {:induction false} ReadsIfFits(schema: Schema, t: Json)
    ensures Deserialize(schema, t).Some? <==> Fits(schema, t)
    decreases schema
  {
    if schema.Node? && t.Obj? {
      forall k | k in schema.fields && k in t.fields
        ensures Deserialize(schema.fields[k], t.fields[k]).Some? <==> Fits(schema.fields[k], t.fields[k])
      {
        ReadsIfFits(schema.fields[k], t.fields[k]);
      }
    }
  }

  lemma {:induction false} ReadLeaf(schema: Schema, t: Json, path: seq<string>)
    requires Deserialize(schema, t).Some? && IsLeaf(schema, path)
    ensures GetAt(Deserialize(schema, t).value, path)
         == if GetAt(t, path).Some? then GetAt(t, path) else GetAt(Default(schema), path)
    decreases |path|
  {
    if path != [] {
      var k := path[0];
      if k in t.fields {
        ReadLeaf(schema.fields[k], t.fields[k], path[1..]);
      }
    }
  }

  /**
   Reading a tree back succeeds exactly when all that the schema knows of it has the schema's shape. Each
   leaf is then the tree's where it is there, and its default where it is missing; the rest is ignored.
   */
  lemma ReadsBackExactly(schema: Schema, t: Json)
    ensures Deserialize(schema, t).Some? <==> Fits(schema, t)
    ensures Deserialize(schema, t).Some? ==>
              forall p :: IsLeaf(schema, p) ==>
                GetAt(Deserialize(schema, t).value, p)
                == if GetAt(t, p).Some? then GetAt(t, p) else GetAt(Default(schema), p)
  {
    ReadsIfFits(schema, t);
    if Deserialize(schema, t).Some? {
      forall p | IsLeaf(schema, p)
        ensures GetAt(Deserialize(schema, t).value, p)
             == if GetAt(t, p).Some? then GetAt(t, p) else GetAt(Default(schema), p)
      {
        ReadLeaf(schema, t, p);
      }
    }
  }
}
