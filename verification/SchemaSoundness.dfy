/** What a model emits under the rewritten schema is, once its nulls are stripped, what the original asks for. */
module SchemaSoundness {
  import opened Json
  import opened CodexExec

  /** Stripping yields exactly the null-free values, and leaves those alone. */
  lemma {:induction false} StripIsNullFree(v: Json)
    ensures NullFree(StripNullDeep(v))
    ensures NullFree(v) <==> StripNullDeep(v) == v
  {
    match v
    case Arr(items) =>
      forall i | 0 <= i < |items|
        ensures NullFree(StripNullDeep(items[i])) && (NullFree(items[i]) <==> StripNullDeep(items[i]) == items[i])
      {
        StripIsNullFree(items[i]);
      }
      if StripNullDeep(v) == v {
        forall i | 0 <= i < |items| ensures NullFree(items[i]) {
          assert StripNullDeep(v).items[i] == items[i];
        }
      }
    case Obj(fields) =>
      var stripped := StripNullDeep(v).fields;
      forall k | k in fields
        ensures NullFree(StripNullDeep(fields[k])) && (NullFree(fields[k]) <==> StripNullDeep(fields[k]) == fields[k])
        ensures fields[k] != Null ==> StripNullDeep(fields[k]) != Null
      {
        StripIsNullFree(fields[k]);
      }
      if stripped == fields {
        forall k | k in fields ensures fields[k] != Null && NullFree(fields[k]) {
          assert k in stripped;
        }
      }
    case _ =>
  }

  /** The schemas whose other keywords stripping leaves alone: constraints survive it, the branches of a `oneOf`
      exclude one another, and no node carries both union keywords, of which the rewrite keeps one. */
  ghost predicate StripStable(s: Schema, means: Meaning)
    decreases s
  {
    && Survives(s.constraint, means)
    && (s.properties.Properties? ==> forall k :: k in s.properties.of ==> StripStable(s.properties.of[k], means))
    && (s.additional.Typed? ==> StripStable(s.additional.schema, means))
    && (s.items.Items? ==> StripStable(s.items.each, means))
    && !s.unions.BothUnions?
    && (s.unions.AnyOf? ==> forall i :: 0 <= i < |s.unions.any| ==> StripStable(s.unions.any[i], means))
    && (s.unions.OneOf? ==> Exclusive(s.unions.one, means))
    && (s.unions.OneOf? ==> forall i :: 0 <= i < |s.unions.one| ==> StripStable(s.unions.one[i], means))
  }

  ghost predicate Survives(constraint: Option<string>, means: Meaning) {
    constraint.Some? ==> forall v :: means(constraint.value, v) ==> means(constraint.value, StripNullDeep(v))
  }

  ghost predicate Exclusive(branches: seq<Schema>, means: Meaning) {
    forall v, i, j :: 0 <= i < j < |branches| ==> !(Valid(branches[i], v, means) && Valid(branches[j], v, means))
  }

  /** What a value must keep: at every object that survives, no required key is missing or null. Below a union,
      some branch the model may have answered under is kept. */
  ghost predicate Keeps(s: Schema, v: Json, means: Meaning)
    decreases s
  {
    && (v.Obj? ==> KeepsRequired(s, v.fields))
    && (v.Obj? ==> forall k :: k in v.fields && v.fields[k] != Null ==>
          if Declares(s, k) then Keeps(s.properties.of[k], v.fields[k], means)
          else s.additional.Typed? ==> Keeps(s.additional.schema, v.fields[k], means))
    && (v.Arr? && s.items.Items? ==> forall i :: 0 <= i < |v.items| ==> Keeps(s.items.each, v.items[i], means))
    && (s.unions.AnyOf? ==>
          exists i :: && 0 <= i < |s.unions.any|
                      && Valid(Sanitize(s.unions.any[i]), v, means) && Keeps(s.unions.any[i], v, means))
    && (s.unions.OneOf? ==>
          exists i :: && 0 <= i < |s.unions.one|
                      && Valid(Sanitize(s.unions.one[i]), v, means) && Keeps(s.unions.one[i], v, means))
  }

  predicate KeepsRequired(s: Schema, fields: map<string, Json>) {
    s.required.Some? ==> forall k :: k in s.required.value ==> k in fields && fields[k] != Null
  }

  lemma NullableAdmitsNoMore(s: Schema, v: Json, means: Meaning)
    requires Valid(Nullable(s), v, means) && v != Null
    ensures Valid(s, v, means)
  {
    if s.unions.AnyOf? {
      if !HasNullBranch(s.unions.any) {
        var longer := s.unions.any + [NULL_ONLY];
        var i :| 0 <= i < |longer| && Valid(longer[i], v, means);
        assert i < |s.unions.any| && longer[i] == s.unions.any[i];
        if v.Obj? { SameObjectPart(s, Nullable(s), v, means); }
      }
    } else if s.type_ != NullType {
      var i :| 0 <= i < 2 && Valid([s, NULL_ONLY][i], v, means);
    }
  }

  // ----- what is kept is sound -----

  lemma SoundProperty(s: Schema, k: string, v: Json, means: Meaning)
    requires StripStable(s, means) && Declares(s, k) && v != Null && Keeps(s.properties.of[k], v, means)
    requires Valid(SanitizeProperties(s)[k], v, means)
    ensures Valid(s.properties.of[k], StripNullDeep(v), means)
    decreases s, 0
  {
    var p := s.properties.of[k];
    if !IsRequired(s, k) { NullableAdmitsNoMore(Sanitize(p), v, means); }
    SoundNode(p, v, means);
  }

  lemma SoundObject(s: Schema, fields: map<string, Json>, means: Meaning)
    requires StripStable(s, means) && ValidObject(Sanitize(s), fields, means) && Keeps(s, Obj(fields), means)
    ensures ValidObject(s, StripNullDeep(Obj(fields)).fields, means)
    decreases s, 1
  {
    var t, stripped := Sanitize(s), StripNullDeep(Obj(fields)).fields;
    SanitizeShape(s);
    forall k | k in stripped && Declares(s, k) ensures Valid(s.properties.of[k], stripped[k], means) {
      assert Valid(t.properties.of[k], fields[k], means);
      SoundProperty(s, k, fields[k], means);
    }
    forall k | k in stripped && !Declares(s, k)
      ensures s.additional.Flag? ==> s.additional.allowed
      ensures s.additional.Typed? ==> Valid(s.additional.schema, stripped[k], means)
    {
      assert k in fields && !Declares(t, k);
      if s.additional.Typed? && t.additional.Typed? { SoundNode(s.additional.schema, fields[k], means); }
    }
  }

  lemma SoundUnion(s: Schema, v: Json, means: Meaning)
    requires StripStable(s, means) && Keeps(s, v, means)
    ensures s.unions.AnyOf? ==> AnyValid(s.unions.any, StripNullDeep(v), means)
    ensures s.unions.OneOf? ==> OneValid(s.unions.one, StripNullDeep(v), means)
    decreases s, 0
  {
    if s.unions.AnyOf? || s.unions.OneOf? {
      var branches := if s.unions.AnyOf? then s.unions.any else s.unions.one;
      var i :| 0 <= i < |branches| && Valid(Sanitize(branches[i]), v, means) && Keeps(branches[i], v, means);
      SoundNode(branches[i], v, means);
      assert Valid(branches[i], StripNullDeep(v), means);
    }
  }

  lemma SoundNode(s: Schema, v: Json, means: Meaning)
    requires StripStable(s, means) && Valid(Sanitize(s), v, means) && Keeps(s, v, means)
    ensures Valid(s, StripNullDeep(v), means)
    decreases s, 2
  {
    var t := Sanitize(s);
    SanitizeShape(s);
    SoundUnion(s, v, means);
    if v.Obj? {
      SoundObject(s, v.fields, means);
    }
    if s.items.Items? && v.Arr? {
      forall i | 0 <= i < |v.items| ensures Valid(s.items.each, StripNullDeep(v).items[i], means) {
        assert Valid(t.items.each, v.items[i], means);
        SoundNode(s.items.each, v.items[i], means);
      }
    }
  }

  // ----- and only what is kept, where a value tells which branch it answers -----

  /** A value the model emits under one branch is, stripped, a value of no other. */
  ghost predicate TellsApart(branches: seq<Schema>, means: Meaning) {
    forall v, i, j :: 0 <= i < |branches| && 0 <= j < |branches| && i != j ==>
      !(Valid(Sanitize(branches[i]), v, means) && Valid(branches[j], StripNullDeep(v), means))
  }

  /** Every union in the schema tells its branches apart; a schema without unions has nothing to tell. */
  ghost predicate IsTelling(s: Schema, means: Meaning)
    decreases s
  {
    && (s.properties.Properties? ==> forall k :: k in s.properties.of ==> IsTelling(s.properties.of[k], means))
    && (s.additional.Typed? ==> IsTelling(s.additional.schema, means))
    && (s.items.Items? ==> IsTelling(s.items.each, means))
    && (s.unions.AnyOf? ==> TellsApart(s.unions.any, means))
    && (s.unions.AnyOf? ==> forall i :: 0 <= i < |s.unions.any| ==> IsTelling(s.unions.any[i], means))
    && (s.unions.OneOf? ==> TellsApart(s.unions.one, means))
    && (s.unions.OneOf? ==> forall i :: 0 <= i < |s.unions.one| ==> IsTelling(s.unions.one[i], means))
  }

  /** A field that is not null was emitted under what its rewritten property, or else the additional one, is made of. */
  lemma FieldFits(s: Schema, fields: map<string, Json>, k: string, means: Meaning)
    requires ValidObject(Sanitize(s), fields, means) && k in fields && fields[k] != Null
    ensures Declares(s, k) ==> Valid(Sanitize(s.properties.of[k]), fields[k], means)
    ensures !Declares(s, k) && s.additional.Typed? ==>
              s.additional.schema != ANYTHING && Valid(Sanitize(s.additional.schema), fields[k], means)
  {
    var t := Sanitize(s);
    SanitizeShape(s);
    if Declares(s, k) {
      assert Valid(t.properties.of[k], fields[k], means);
      if !IsRequired(s, k) { NullableAdmitsNoMore(Sanitize(s.properties.of[k]), fields[k], means); }
    } else {
      assert !Declares(t, k);
    }
  }

  lemma ValidFieldIsKept(s: Schema, fields: map<string, Json>, k: string, means: Meaning)
    requires IsTelling(s, means) && ValidObject(Sanitize(s), fields, means) && k in fields && fields[k] != Null
    requires ValidObject(s, StripNullDeep(Obj(fields)).fields, means)
    ensures Declares(s, k) ==> Keeps(s.properties.of[k], fields[k], means)
    ensures !Declares(s, k) && s.additional.Typed? ==> Keeps(s.additional.schema, fields[k], means)
    decreases s, 0
  {
    var stripped := StripNullDeep(Obj(fields)).fields;
    assert k in stripped && stripped[k] == StripNullDeep(fields[k]);
    FieldFits(s, fields, k, means);
    if Declares(s, k) {
      ValidIsKept(s.properties.of[k], fields[k], means);
    } else if s.additional.Typed? {
      ValidIsKept(s.additional.schema, fields[k], means);
    }
  }

  lemma ValidUnionIsKept(branches: seq<Schema>, v: Json, means: Meaning)
    requires TellsApart(branches, means) && forall i :: 0 <= i < |branches| ==> IsTelling(branches[i], means)
    requires AnyValid(SanitizeEach(branches), v, means) && AnyValid(branches, StripNullDeep(v), means)
    ensures exists i :: && 0 <= i < |branches|
                        && Valid(Sanitize(branches[i]), v, means) && Keeps(branches[i], v, means)
    decreases branches, 0
  {
    var i :| 0 <= i < |branches| && Valid(SanitizeEach(branches)[i], v, means);
    var j :| 0 <= j < |branches| && Valid(branches[j], StripNullDeep(v), means);
    assert SanitizeEach(branches)[i] == Sanitize(branches[i]);
    assert i == j;
    ValidIsKept(branches[i], v, means);
  }

  lemma ValidIsKept(s: Schema, v: Json, means: Meaning)
    requires IsTelling(s, means) && Valid(Sanitize(s), v, means) && Valid(s, StripNullDeep(v), means)
    ensures Keeps(s, v, means)
    decreases s, 1
  {
    SanitizeShape(s);
    if v.Obj? {
      forall k | k in v.fields && v.fields[k] != Null
        ensures Declares(s, k) ==> Keeps(s.properties.of[k], v.fields[k], means)
        ensures !Declares(s, k) && s.additional.Typed? ==> Keeps(s.additional.schema, v.fields[k], means)
      {
        ValidFieldIsKept(s, v.fields, k, means);
      }
    }
    if s.items.Items? && v.Arr? {
      forall i | 0 <= i < |v.items| ensures Keeps(s.items.each, v.items[i], means) {
        assert Valid(Sanitize(s).items.each, v.items[i], means);
        assert StripNullDeep(v).items[i] == StripNullDeep(v.items[i]);
        ValidIsKept(s.items.each, v.items[i], means);
      }
    }
    if s.unions.AnyOf? { ValidUnionIsKept(s.unions.any, v, means); }
    if s.unions.OneOf? { ValidUnionIsKept(s.unions.one, v, means); }
  }

  /** Soundness, exactly: a value valid under the schema sent to the model is valid, once stripped, under the schema
      the caller asked for if and only if no required key of it was null or left out. */
  lemma RewriteIsSoundIff(s: Schema, v: Json, means: Meaning)
    requires StripStable(s, means) && IsTelling(s, means) && !Lowers(s) && Valid(SanitizeRoot(s), v, means)
    ensures Valid(s, StripNullDeep(v), means) <==> Keeps(s, v, means)
  {
    if Valid(s, StripNullDeep(v), means) {
      ValidIsKept(s, v, means);
    } else if Keeps(s, v, means) {
      SoundNode(s, v, means);
    }
  }

  // ----- discriminated unions tell their branches apart -----

  /** A schema of nothing but a named constraint, which admits only values that stripping leaves alone. */
  ghost predicate IsTag(p: Schema, means: Meaning) {
    && p == ANYTHING.(type_ := p.type_, constraint := p.constraint) && p.constraint.Some?
    && forall e :: means(p.constraint.value, e) ==> e != Null && NullFree(e)
  }

  /** Objects that each require the key, with a tag that no other branch admits. */
  ghost predicate IsDiscriminated(branches: seq<Schema>, key: string, means: Meaning) {
    && (forall i :: 0 <= i < |branches| ==>
          IsObjectBranch(branches[i]) && Declares(branches[i], key) && IsRequired(branches[i], key) &&
          IsTag(branches[i].properties.of[key], means))
    && (forall i, j, e :: 0 <= i < |branches| && 0 <= j < |branches| && i != j ==>
          !(Valid(branches[i].properties.of[key], e, means) && Valid(branches[j].properties.of[key], e, means)))
  }

  lemma TagIsRead(b: Schema, key: string, v: Json, means: Meaning)
    requires IsObjectBranch(b) && Declares(b, key) && IsRequired(b, key) && IsTag(b.properties.of[key], means)
    requires Valid(Sanitize(b), v, means)
    ensures v.Obj? && key in v.fields && Valid(b.properties.of[key], v.fields[key], means)
    ensures v.fields[key] != Null && StripNullDeep(v.fields[key]) == v.fields[key]
  {
    var p := b.properties.of[key];
    SanitizeShape(b);
    SanitizeShape(p);
    assert Valid(Sanitize(b).properties.of[key], v.fields[key], means);
    StripIsNullFree(v.fields[key]);
  }

  lemma TagIsThere(b: Schema, key: string, v: Json, means: Meaning)
    requires IsObjectBranch(b) && Declares(b, key) && IsRequired(b, key) && Valid(b, v, means)
    ensures v.Obj? && key in v.fields && Valid(b.properties.of[key], v.fields[key], means)
  {
    assert ValidObject(b, v.fields, means);
  }

  /** A discriminated union tells its branches apart, and they exclude one another. */
  lemma DiscriminatorTellsApart(branches: seq<Schema>, key: string, means: Meaning)
    requires IsDiscriminated(branches, key, means)
    ensures TellsApart(branches, means) && Exclusive(branches, means)
  {
    forall v, i, j | 0 <= i < |branches| && 0 <= j < |branches| && i != j && Valid(Sanitize(branches[i]), v, means)
      ensures !Valid(branches[j], StripNullDeep(v), means)
    {
      TagIsRead(branches[i], key, v, means);
      assert key in StripNullDeep(v).fields && StripNullDeep(v).fields[key] == v.fields[key];
    }
    forall v, i, j | 0 <= i < j < |branches| && Valid(branches[i], v, means) ensures !Valid(branches[j], v, means) {
      TagIsThere(branches[i], key, v, means);
      if Valid(branches[j], v, means) { TagIsThere(branches[j], key, v, means); }
    }
  }

  // ----- schemas that keep everything -----

  /** Besides, a required property is declared and does not admit null. */
  ghost predicate StripSafe(s: Schema, means: Meaning) {
    StripStable(s, means) && RequireNoNull(s, means)
  }

  ghost predicate RequireNoNull(s: Schema, means: Meaning)
    decreases s
  {
    && (s.required.Some? ==> forall k :: k in s.required.value ==>
          Declares(s, k) && !Valid(s.properties.of[k], Null, means))
    && (s.properties.Properties? ==> forall k :: k in s.properties.of ==> RequireNoNull(s.properties.of[k], means))
    && (s.additional.Typed? ==> RequireNoNull(s.additional.schema, means))
    && (s.items.Items? ==> RequireNoNull(s.items.each, means))
    && (s.unions.AnyOf? ==> forall i :: 0 <= i < |s.unions.any| ==> RequireNoNull(s.unions.any[i], means))
    && (s.unions.OneOf? ==> forall i :: 0 <= i < |s.unions.one| ==> RequireNoNull(s.unions.one[i], means))
  }

  /** A required property is never emitted null. */
  lemma RequiredIsKept(s: Schema, fields: map<string, Json>, means: Meaning)
    requires StripSafe(s, means) && ValidObject(Sanitize(s), fields, means)
    ensures KeepsRequired(s, fields)
    decreases s, 0
  {
    SanitizeShape(s);
    if s.required.Some? {
      forall k | k in s.required.value ensures k in fields && fields[k] != Null {
        var p := s.properties.of[k];
        assert k in Sanitize(s).required.value;
        assert Sanitize(s).properties.of[k] == Sanitize(p);
        if Valid(Sanitize(p), Null, means) {
          SafeIsKept(p, Null, means);
          SoundNode(p, Null, means);
        }
      }
    }
  }

  lemma FieldIsKept(s: Schema, fields: map<string, Json>, k: string, means: Meaning)
    requires StripSafe(s, means) && ValidObject(Sanitize(s), fields, means) && k in fields && fields[k] != Null
    ensures Declares(s, k) ==> Keeps(s.properties.of[k], fields[k], means)
    ensures !Declares(s, k) && s.additional.Typed? ==> Keeps(s.additional.schema, fields[k], means)
    decreases s, 0
  {
    FieldFits(s, fields, k, means);
    if Declares(s, k) {
      SafeIsKept(s.properties.of[k], fields[k], means);
    } else if s.additional.Typed? {
      SafeIsKept(s.additional.schema, fields[k], means);
    }
  }

  lemma SafeIsKept(s: Schema, v: Json, means: Meaning)
    requires StripSafe(s, means) && Valid(Sanitize(s), v, means)
    ensures Keeps(s, v, means)
    decreases s, 1
  {
    SanitizeShape(s);
    if v.Obj? {
      RequiredIsKept(s, v.fields, means);
      forall k | k in v.fields && v.fields[k] != Null
        ensures Declares(s, k) ==> Keeps(s.properties.of[k], v.fields[k], means)
        ensures !Declares(s, k) && s.additional.Typed? ==> Keeps(s.additional.schema, v.fields[k], means)
      {
        FieldIsKept(s, v.fields, k, means);
      }
    }
    if s.items.Items? && v.Arr? {
      forall i | 0 <= i < |v.items| ensures Keeps(s.items.each, v.items[i], means) {
        assert Valid(Sanitize(s).items.each, v.items[i], means);
        SafeIsKept(s.items.each, v.items[i], means);
      }
    }
    if s.unions.AnyOf? || s.unions.OneOf? {
      var branches := if s.unions.AnyOf? then s.unions.any else s.unions.one;
      var i :| 0 <= i < |branches| && Valid(SanitizeEach(branches)[i], v, means);
      SafeIsKept(branches[i], v, means);
    }
  }

  /** Soundness: on a strip-safe schema whose root is not lowered, every value valid under the schema sent to
      the model is valid, once stripped, under the schema the caller asked for. */
  lemma RewriteIsSound(s: Schema, v: Json, means: Meaning)
    requires StripSafe(s, means) && !Lowers(s)
    requires Valid(SanitizeRoot(s), v, means)
    ensures Valid(s, StripNullDeep(v), means)
  {
    SafeIsKept(s, v, means);
    SoundNode(s, v, means);
  }

  // ----- the condition bites -----

  const REQUIRED_ANY := ANYTHING.(type_ := ObjectType, properties := Properties(map["a" := ANYTHING]),
                                  required := Some({"a"}))

  /** A required property that may be null: the caller's schema and the rewritten one both admit the null, and
      stripping loses it. */
  lemma RequiredNullIsLost(means: Meaning)
    ensures var s, v := REQUIRED_ANY, Obj(map["a" := Null]);
            && Valid(s, v, means) && Valid(SanitizeRoot(s), v, means)
            && !Keeps(s, v, means) && !Valid(s, StripNullDeep(v), means)
  {
    var s := REQUIRED_ANY;
    var fields: map<string, Json> := map["a" := Null];
    var t := Sanitize(s);
    SanitizeShape(s);
    assert Sanitize(ANYTHING) == ANYTHING && t.properties.of["a"] == ANYTHING;
    assert ValidObject(s, fields, means);
    assert ValidObject(t, fields, means) by { assert Declares(t, "a") && fields.Keys == {"a"}; }
    assert !KeepsRequired(s, fields) by { assert IsRequired(s, "a"); }
    assert StripNullDeep(Obj(fields)).fields == map[];
    assert "a" !in StripNullDeep(Obj(fields)).fields && "a" in s.required.value;
  }
}
