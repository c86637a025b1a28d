/**
 Overlaying one settings tree on another: an overlay's leaf wins where it differs from the default.
 */
module SettingsOverlay {
  import opened Settings

  function FieldOrNull(t: Json, key: string): Json
    requires t.Obj?
  {
    if key in t.fields then t.fields[key] else Null
  }

  // The overlay's keys that are new to the target and not at their default.
  function Additions(target: Json, other: Json, defaults: Json): set<string>
    requires target.Obj? && other.Obj? && defaults.Obj?
  {
    set k | k in other.fields && k !in target.fields && other.fields[k] != FieldOrNull(defaults, k)
  }

  function Merge(target: Json, other: Json, defaults: Json): Json
    decreases other
  {
    if target.Obj? && other.Obj? && defaults.Obj? then
      Obj(map k | k in target.fields.Keys + Additions(target, other, defaults) ::
            if k !in target.fields then other.fields[k]
            else if k in other.fields then Merge(target.fields[k], other.fields[k], FieldOrNull(defaults, k))
            else target.fields[k])
    else if other != defaults then other
    else target
  }

  // The target's fields once all of the other tree's keys but `left` are merged into it.
  ghost predicate PartlyMerged(target: Json, other: Json, defaults: Json, left: set<string>, fields: map<string, Json>)
    requires target.Obj? && other.Obj? && defaults.Obj?
  {
    && fields.Keys == target.fields.Keys + (Additions(target, other, defaults) - left)
    && var goal := Merge(target, other, defaults).fields;
    && fields.Keys <= goal.Keys
    && forall k :: k in fields ==> fields[k] == if k in left then target.fields[k] else goal[k]
  }

  lemma MergeOne(target: Json, other: Json, defaults: Json, left: set<string>, fields: map<string, Json>, key: string)
    requires target.Obj? && other.Obj? && defaults.Obj? && left <= other.fields.Keys && key in left
    requires PartlyMerged(target, other, defaults, left, fields)
    ensures key in fields <==> key in target.fields
    ensures var default := FieldOrNull(defaults, key);
            PartlyMerged(target, other, defaults, left - {key},
                         if key in fields then fields[key := Merge(fields[key], other.fields[key], default)]
                         else if other.fields[key] != default then fields[key := other.fields[key]] else fields)
  {
  }

  lemma MergedNone(target: Json, other: Json, defaults: Json)
    requires target.Obj? && other.Obj? && defaults.Obj?
    ensures PartlyMerged(target, other, defaults, other.fields.Keys, target.fields)
  {
    var goal := Merge(target, other, defaults).fields;
    forall k | k in target.fields && k !in other.fields ensures goal[k] == target.fields[k] {}
  }

  lemma MergedAll(target: Json, other: Json, defaults: Json, fields: map<string, Json>)
    requires target.Obj? && other.Obj? && defaults.Obj? && PartlyMerged(target, other, defaults, {}, fields)
    ensures Obj(fields) == Merge(target, other, defaults)
  {
    assert fields == Merge(target, other, defaults).fields;
  }

  /** The overlay visits the other tree's keys in no particular order. */
  method MergeNonDefault(target: Json, other: Json, defaults: Json) returns (merged: Json)
    ensures merged == Merge(target, other, defaults)
    decreases other
  {
    if target.Obj? && other.Obj? && defaults.Obj? {
      hide Merge, PartlyMerged, Additions;
      var fields, keys := target.fields, other.fields.Keys;
      assert PartlyMerged(target, other, defaults, keys, fields) by { MergedNone(target, other, defaults); }
      while keys != {}
        invariant keys <= other.fields.Keys && PartlyMerged(target, other, defaults, keys, fields)
        decreases |keys|
      {
        var key :| key in keys;
        MergeOne(target, other, defaults, keys, fields, key);
        var default := FieldOrNull(defaults, key);
        if key in fields {
          var child := MergeNonDefault(fields[key], other.fields[key], default);
          fields := fields[key := child];
        } else if other.fields[key] != default {
          fields := fields[key := other.fields[key]];
        }
        keys := keys - {key};
      }
      merged := Obj(fields);
      MergedAll(target, other, defaults, fields);
    } else {
      merged := if other != defaults then other else target;
    }
  }

  /** Overlays settings; a result that does not read back leaves the base as it was. */
  function Overlay(schema: Schema, base: Json, other: Json): Json {
    var r := Deserialize(schema, Merge(base, other, Default(schema)));
    if r.Some? then r.value else base
  }

  method MergeFrom(schema: Schema, base: Json, other: Json) returns (settings: Json)
    ensures settings == Overlay(schema, base, other)
  {
    var merged := MergeNonDefault(base, other, Default(schema));
    var r := Deserialize(schema, merged);
    settings := if r.Some? then r.value else base;
  }

  lemma {:induction false} MergeConforms(schema: Schema, a: Json, b: Json)
    requires Conforms(schema, a) && Conforms(schema, b)
    ensures Conforms(schema, Merge(a, b, Default(schema)))
    decreases schema
  {
    if schema.Leaf? {
      AcceptedIsNoObject(schema.kind, a);
      AcceptedIsNoObject(schema.kind, b);
    } else {
      forall k | k in schema.fields ensures Conforms(schema.fields[k], Merge(a, b, Default(schema)).fields[k]) {
        MergeConforms(schema.fields[k], a.fields[k], b.fields[k]);
      }
    }
  }

  lemma {:induction false} MergeLeaf(schema: Schema, a: Json, b: Json, path: seq<string>)
    requires Conforms(schema, a) && Conforms(schema, b) && IsLeaf(schema, path)
    ensures GetAt(Merge(a, b, Default(schema)), path)
            == if GetAt(b, path) != GetAt(Default(schema), path) then GetAt(b, path) else GetAt(a, path)
    decreases |path|
  {
    if path == [] {
      AcceptedIsNoObject(schema.kind, b);
    } else {
      var k := path[0];
      assert Default(schema).fields[k] == Default(schema.fields[k]);
      MergeLeaf(schema.fields[k], a.fields[k], b.fields[k], path[1..]);
    }
  }

  /** The overlay keeps the shape; each leaf is the overlay's if that is not the default, and else the base's. */
  lemma OverlayLeaves(schema: Schema, a: Json, b: Json)
    requires Conforms(schema, a) && Conforms(schema, b)
    ensures Conforms(schema, Overlay(schema, a, b))
    ensures forall p :: IsLeaf(schema, p) ==>
              GetAt(Overlay(schema, a, b), p)
              == if GetAt(b, p) != GetAt(Default(schema), p) then GetAt(b, p) else GetAt(a, p)
  {
    MergeConforms(schema, a, b);
    ConformingIsStable(schema, Merge(a, b, Default(schema)));
    forall p | IsLeaf(schema, p)
      ensures GetAt(Overlay(schema, a, b), p)
           == if GetAt(b, p) != GetAt(Default(schema), p) then GetAt(b, p) else GetAt(a, p)
    {
      MergeLeaf(schema, a, b, p);
    }
  }

  /** The defaults are the identity on both sides, and overlaying a tree on itself changes nothing. */
  lemma OverlayIdentity(schema: Schema, a: Json)
    requires GoodSchema(schema) && Conforms(schema, a)
    ensures Overlay(schema, a, Default(schema)) == a
    ensures Overlay(schema, Default(schema), a) == a
    ensures Overlay(schema, a, a) == a
  {
    DefaultConforms(schema);
    OverlayLeaves(schema, a, Default(schema));
    OverlayLeaves(schema, Default(schema), a);
    OverlayLeaves(schema, a, a);
    SameLeaves(schema, Overlay(schema, a, Default(schema)), a);
    SameLeaves(schema, Overlay(schema, Default(schema), a), a);
    SameLeaves(schema, Overlay(schema, a, a), a);
  }

  lemma OverlayAssociative(schema: Schema, a: Json, b: Json, c: Json)
    requires GoodSchema(schema) && Conforms(schema, a) && Conforms(schema, b) && Conforms(schema, c)
    ensures Overlay(schema, Overlay(schema, a, b), c) == Overlay(schema, a, Overlay(schema, b, c))
  {
    OverlayLeaves(schema, a, b);
    OverlayLeaves(schema, b, c);
    OverlayLeaves(schema, Overlay(schema, a, b), c);
    OverlayLeaves(schema, a, Overlay(schema, b, c));
    SameLeaves(schema, Overlay(schema, Overlay(schema, a, b), c), Overlay(schema, a, Overlay(schema, b, c)));
  }

  /** Two settings may be overlaid in either order exactly when they never change one leaf to two different values. */
  lemma OverlayCommutesExactly(schema: Schema, a: Json, b: Json)
    requires GoodSchema(schema) && Conforms(schema, a) && Conforms(schema, b)
    ensures Overlay(schema, a, b) == Overlay(schema, b, a)
            <==> forall p :: IsLeaf(schema, p) ==>
              GetAt(a, p) == GetAt(b, p) || GetAt(a, p) == GetAt(Default(schema), p)
                  || GetAt(b, p) == GetAt(Default(schema), p)
  {
    OverlayLeaves(schema, a, b);
    OverlayLeaves(schema, b, a);
    if forall p :: IsLeaf(schema, p) ==> GetAt(Overlay(schema, a, b), p) == GetAt(Overlay(schema, b, a), p) {
      SameLeaves(schema, Overlay(schema, a, b), Overlay(schema, b, a));
    }
  }
}
