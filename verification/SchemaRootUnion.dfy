/** When lowering a root union of objects to one object is sound: which values the model may emit under the merged
    object still are, once stripped, values of some branch. */
module SchemaRootUnion {
  import opened Json
  import opened CodexExec
  import opened SchemaSoundness

  /** A root union of objects, with no structure of its own beside it; its other keywords survive stripping. */
  ghost predicate IsRootUnion(s: Schema, means: Meaning) {
    && s.unions.AnyOf? && Lowers(s)
    && s == ANYTHING.(type_ := s.type_, constraint := s.constraint, unions := s.unions)
    && s.type_ in {NoType, ObjectType} && Survives(s.constraint, means)
    && forall i :: 0 <= i < |s.unions.any| ==> IsBranch(s.unions.any[i], means)
  }

  /** Strip-stable in its properties, whatever unions they hold, and open or closed to undeclared keys. */
  ghost predicate IsBranch(b: Schema, means: Meaning) {
    && IsObjectBranch(b) && b.unions.NoUnion?
    && b.additional in {Absent, Flag(true), Flag(false), Typed(ANYTHING)}
    && forall k :: Declares(b, k) ==> StripStable(b.properties.of[k], means)
  }

  /** The value answers for this branch: it meets the branch's other keywords and has every key the branch requires,
      and of its keys that are not null each declared one fits the branch's own rewritten property and keeps what
      that requires, and any other is one the branch is open to. */
  ghost predicate Chooses(b: Schema, fields: map<string, Json>, means: Meaning) {
    && (b.constraint.Some? ==> means(b.constraint.value, StripNullDeep(Obj(fields))))
    && KeepsRequired(b, fields)
    && forall k :: k in fields && fields[k] != Null ==>
         if Declares(b, k) then
           Valid(Sanitize(b.properties.of[k]), fields[k], means) && Keeps(b.properties.of[k], fields[k], means)
         else b.additional.Flag? ==> b.additional.allowed
  }

  lemma ChoosingIsSound(b: Schema, fields: map<string, Json>, means: Meaning)
    requires IsBranch(b, means) && Chooses(b, fields, means)
    ensures Valid(b, StripNullDeep(Obj(fields)), means)
  {
    var stripped := StripNullDeep(Obj(fields)).fields;
    forall k | k in stripped && Declares(b, k) ensures Valid(b.properties.of[k], stripped[k], means) {
      SoundNode(b.properties.of[k], fields[k], means);
    }
    assert ValidObject(b, stripped, means);
  }

  // ----- what the merged object admits -----

  /** A value of a merged key is one of some branch that declares it, or of what it was merged into. */
  lemma {:induction false} MergedIsOfABranch(into: map<string, Schema>, branches: seq<Schema>, k: string, v: Json,
                                             means: Meaning)
    requires forall i :: 0 <= i < |branches| ==> IsObjectBranch(branches[i])
    requires k in MergeBranches(into, branches) && Valid(Sanitize(MergeBranches(into, branches)[k]), v, means)
    ensures (k in into && Valid(Sanitize(into[k]), v, means))
            || exists i :: && 0 <= i < |branches| && Declares(branches[i], k)
                           && Valid(Sanitize(branches[i].properties.of[k]), v, means)
    decreases branches
  {
    if branches != [] {
      assert IsObjectBranch(branches[0]);
      var from, rest := branches[0].properties.of, branches[1..];
      MergedIsOfABranch(MergeOne(into, from), rest, k, v, means);
      if i :| 0 <= i < |rest| && Declares(rest[i], k) && Valid(Sanitize(rest[i].properties.of[k]), v, means) {
        assert branches[i + 1] == rest[i];
      } else if k in into && k in from {
        EitherIsOne(into[k], from[k], v, means);
      }
      assert k in from ==> Declares(branches[0], k);
    }
  }

  lemma EitherIsOne(a: Schema, b: Schema, v: Json, means: Meaning)
    requires Valid(Sanitize(Either(a, b)), v, means)
    ensures Valid(Sanitize(a), v, means) || Valid(Sanitize(b), v, means)
  {
    SanitizeShape(Either(a, b));
    var i :| 0 <= i < 2 && Valid(SanitizeEach([a, b])[i], v, means);
    assert SanitizeEach([a, b])[i] == Sanitize([a, b][i]);
  }

  lemma {:induction false} MergedIsDeclared(into: map<string, Schema>, branches: seq<Schema>, k: string)
    requires forall i :: 0 <= i < |branches| ==> IsObjectBranch(branches[i])
    ensures k in MergeBranches(into, branches) <==>
              k in into || exists i :: 0 <= i < |branches| && Declares(branches[i], k)
    decreases branches
  {
    if branches != [] {
      assert IsObjectBranch(branches[0]);
      var rest := branches[1..];
      MergedIsDeclared(MergeOne(into, branches[0].properties.of), rest, k);
      if i :| 0 <= i < |rest| && Declares(rest[i], k) { assert Declares(branches[i + 1], k); }
      if i :| 0 <= i < |branches| && Declares(branches[i], k) {
        if i > 0 { assert Declares(rest[i - 1], k); }
      }
    }
  }

  /** What a branch declares, emitted under the merged object, was emitted under some branch's property. */
  lemma FieldIsOfABranch(s: Schema, fields: map<string, Json>, k: string, means: Meaning) returns (j: nat)
    requires IsRootUnion(s, means) && Valid(SanitizeRoot(s), Obj(fields), means) && k in fields && fields[k] != Null
    requires exists i :: 0 <= i < |s.unions.any| && Declares(s.unions.any[i], k)
    ensures j < |s.unions.any| && Declares(s.unions.any[j], k)
    ensures Valid(Sanitize(s.unions.any[j].properties.of[k]), fields[k], means)
  {
    var lowered := Lower(s);
    var t := Sanitize(lowered);
    MergedIsDeclared(map[], s.unions.any, k);
    SanitizeShape(lowered);
    assert Declares(lowered, k) && !IsRequired(lowered, k);
    assert t.properties.of[k] == Nullable(Sanitize(lowered.properties.of[k]));
    assert ValidObject(t, fields, means);
    NullableAdmitsNoMore(Sanitize(lowered.properties.of[k]), fields[k], means);
    MergedIsOfABranch(map[], s.unions.any, k, fields[k], means);
    j :| 0 <= j < |s.unions.any| && Declares(s.unions.any[j], k)
         && Valid(Sanitize(s.unions.any[j].properties.of[k]), fields[k], means);
  }

  // ----- the exact condition -----

  /** Where branches declare the same key, a value emitted under one branch's property that strips to a value of
      another's could have been emitted under the other's as well. */
  ghost predicate Agree(branches: seq<Schema>, means: Meaning) {
    forall i, j, k ::
      && 0 <= i < |branches| && 0 <= j < |branches| && i != j && Declares(branches[i], k) && Declares(branches[j], k)
      ==> Agrees(branches[i].properties.of[k], branches[j].properties.of[k], means)
  }

  ghost predicate Agrees(p: Schema, q: Schema, means: Meaning) {
    forall e :: Valid(Sanitize(q), e, means) && Valid(p, StripNullDeep(e), means) ==> Valid(Sanitize(p), e, means)
  }

  /** A schema that is only a named constraint, whose meaning stripping does not change at all. */
  ghost predicate IsPlain(p: Schema, means: Meaning) {
    p == ANYTHING.(type_ := p.type_, constraint := p.constraint)
    && (p.constraint.Some? ==>
          forall v :: means(p.constraint.value, v) <==> means(p.constraint.value, StripNullDeep(v)))
  }

  /** Two properties agree if they are the same schema, if the first is plain, as a discriminator is, or if a value
      tells which of them it was emitted under. */
  lemma AgreesWhen(p: Schema, q: Schema, means: Meaning)
    requires p == q || IsPlain(p, means) || TellsApart([q, p], means)
    ensures Agrees(p, q, means)
  {
    if IsPlain(p, means) { SanitizeShape(p); }
    if TellsApart([q, p], means) {
      forall e | Valid(Sanitize(q), e, means) ensures !Valid(p, StripNullDeep(e), means) {
        assert [q, p][0] == q && [q, p][1] == p;
      }
    }
  }

  ghost predicate AllTelling(branches: seq<Schema>, means: Meaning) {
    forall i, k :: 0 <= i < |branches| && Declares(branches[i], k) ==> IsTelling(branches[i].properties.of[k], means)
  }

  /** Under the merged object, a value that strips to a value of branch `i` answers for that branch. */
  lemma SoundIsChosen(s: Schema, fields: map<string, Json>, i: nat, means: Meaning)
    requires IsRootUnion(s, means) && Agree(s.unions.any, means) && AllTelling(s.unions.any, means)
    requires i < |s.unions.any| && Valid(SanitizeRoot(s), Obj(fields), means)
    requires Valid(s.unions.any[i], StripNullDeep(Obj(fields)), means)
    ensures Chooses(s.unions.any[i], fields, means)
  {
    var b := s.unions.any[i];
    var stripped := StripNullDeep(Obj(fields)).fields;
    assert IsBranch(b, means) && ValidObject(b, stripped, means);
    forall k | k in fields && fields[k] != Null && Declares(b, k)
      ensures Valid(Sanitize(b.properties.of[k]), fields[k], means) && Keeps(b.properties.of[k], fields[k], means)
    {
      var p := b.properties.of[k];
      assert k in stripped && stripped[k] == StripNullDeep(fields[k]) && Valid(p, stripped[k], means);
      var j := FieldIsOfABranch(s, fields, k, means);
      if j != i { assert Agrees(p, s.unions.any[j].properties.of[k], means); }
      ValidIsKept(p, fields[k], means);
    }
  }

  /** Lowering a root union is sound for exactly the values that answer for some branch. */
  lemma LoweringIsSoundIff(s: Schema, fields: map<string, Json>, means: Meaning)
    requires IsRootUnion(s, means) && Agree(s.unions.any, means) && AllTelling(s.unions.any, means)
    requires Valid(SanitizeRoot(s), Obj(fields), means)
    ensures Valid(s, StripNullDeep(Obj(fields)), means) <==>
              exists i :: 0 <= i < |s.unions.any| && Chooses(s.unions.any[i], fields, means)
  {
    var v := StripNullDeep(Obj(fields));
    if Valid(s, v, means) {
      assert AnyValid(s.unions.any, v, means);
      var i :| 0 <= i < |s.unions.any| && Valid(s.unions.any[i], v, means);
      SoundIsChosen(s, fields, i, means);
    }
    if i :| 0 <= i < |s.unions.any| && Chooses(s.unions.any[i], fields, means) {
      SanitizeShape(Lower(s));
      LoweringIsSoundWhenChosen(s, fields, i, means);
    }
  }

  /** And whatever keys the branches share and whatever unions they hold, a value that answers for a branch strips to
      a value of the union. */
  lemma LoweringIsSoundWhenChosen(s: Schema, fields: map<string, Json>, i: nat, means: Meaning)
    requires IsRootUnion(s, means) && i < |s.unions.any| && Chooses(s.unions.any[i], fields, means)
    requires s.constraint.Some? ==> means(s.constraint.value, Obj(fields))
    ensures Valid(s, StripNullDeep(Obj(fields)), means)
  {
    ChoosingIsSound(s.unions.any[i], fields, means);
    assert AnyValid(s.unions.any, StripNullDeep(Obj(fields)), means);
  }

  const LIST := ANYTHING.(type_ := ArrayType)
  const BRANCH := ANYTHING.(type_ := ObjectType, properties := Properties(map["a" := LIST]), required := Some({"a"}))

  /** The merged object lets a value answer for no branch, though no property of the union may be null. */
  lemma LoweredRootAdmitsNoBranch(means: Meaning)
    ensures var s, v := ANYTHING.(unions := AnyOf([BRANCH])), Obj(map["a" := Null]);
            && IsRootUnion(s, means) && Agree(s.unions.any, means) && StripSafe(s, means)
            && Valid(SanitizeRoot(s), v, means) && !Valid(s, StripNullDeep(v), means)
  {
    var s := ANYTHING.(unions := AnyOf([BRANCH]));
    var fields: map<string, Json> := map["a" := Null];
    assert StripSafe(LIST, means) && IsTelling(LIST, means);
    assert StripSafe(BRANCH, means) && IsTelling(BRANCH, means);
    MergedAdmitsNull(fields, means);
    assert IsRequired(BRANCH, "a") && !KeepsRequired(BRANCH, fields);
    LoweringIsSoundIff(s, fields, means);
  }

  lemma MergedAdmitsNull(fields: map<string, Json>, means: Meaning)
    requires fields == map["a" := Null]
    ensures Valid(SanitizeRoot(ANYTHING.(unions := AnyOf([BRANCH]))), Obj(fields), means)
  {
    var lowered := Lower(ANYTHING.(unions := AnyOf([BRANCH])));
    assert MergeBranches(map[], [BRANCH]) == MergeBranches(MergeOne(map[], BRANCH.properties.of), []);
    assert MergeOne(map[], BRANCH.properties.of) == BRANCH.properties.of;
    assert lowered.properties.of == BRANCH.properties.of;
    var t := Sanitize(lowered);
    SanitizeShape(lowered);
    assert t.properties.of["a"] == Nullable(Sanitize(LIST));
    assert [Sanitize(LIST), NULL_ONLY][1] == NULL_ONLY && Valid(NULL_ONLY, Null, means);
    assert Valid(t.properties.of["a"], Null, means);
    assert ValidObject(t, fields, means);
  }
}
