/** Every null-free value the original schema admits can still be emitted: it has an encoding that the rewritten
    schema admits and that strips back to it. */
module SchemaCompleteness {
  import opened Json
  import opened CodexExec

  /** The branches of the union keyword the rewrite keeps. */
  function Kept(u: Unions): seq<Schema> {
    match u
    case NoUnion => []
    case AnyOf(any) => any
    case OneOf(one) => one
    case BothUnions(any, one, oneOfLast) => if oneOfLast then one else any
  }

  /** A named constraint admits what strips to something it admits: nulls in optional places do not offend it. */
  ghost predicate Lifts(constraint: Option<string>, means: Meaning) {
    constraint.Some? ==> forall e :: means(constraint.value, StripNullDeep(e)) ==> means(constraint.value, e)
  }

  predicate HasStructure(s: Schema) { s.properties.Properties? || s.items.Items? || !s.additional.Absent? }

  ghost predicate AdmitsNull(constraint: Option<string>, means: Meaning) {
    constraint.Some? ==> means(constraint.value, Null)
  }

  /** Schemas whose nodes are each a scalar, an object or array, or a union with no structure beside it. A further
      constraint of an object, an array or a union must not mind the nulls the rewrite adds. `oneOf` is included. */
  ghost predicate Encodable(s: Schema, means: Meaning)
    decreases s
  {
    if s.unions.NoUnion? then
      && (s.type_ == NullType ==> AdmitsNull(s.constraint, means))
      && (HasStructure(s) ==> Lifts(s.constraint, means))
      && (s.properties.Properties? ==> forall k :: k in s.properties.of ==> Encodable(s.properties.of[k], means))
      && (s.additional.Typed? ==> Encodable(s.additional.schema, means))
      && (s.items.Items? ==> Encodable(s.items.each, means))
    else
      && s == ANYTHING.(constraint := s.constraint, unions := s.unions)
      && Lifts(s.constraint, means) && AdmitsNull(s.constraint, means)
      && forall i :: 0 <= i < |Kept(s.unions)| ==> Encodable(Kept(s.unions)[i], means)
  }

  /** `v` satisfies `s` and uses no key that the rewrite closes off: at every object, a key is declared or is
      admitted by an explicit `additionalProperties`. */
  ghost predicate Conforms(s: Schema, v: Json, means: Meaning)
    decreases s
  {
    && Valid(s, v, means)
    && (v.Obj? ==> forall k :: k in v.fields ==>
          if Declares(s, k) then Conforms(s.properties.of[k], v.fields[k], means)
          else if s.additional.Typed? then
            s.additional.schema != ANYTHING && Conforms(s.additional.schema, v.fields[k], means)
          else s.additional.Flag? || s.properties.NoProperties?)
    && (v.Arr? && s.items.Items? ==> forall i :: 0 <= i < |v.items| ==> Conforms(s.items.each, v.items[i], means))
    && (!s.unions.NoUnion? ==> exists i :: 0 <= i < |Kept(s.unions)| && Conforms(Kept(s.unions)[i], v, means))
  }

  /** `e` is emitted under `t` and strips to `v`. */
  ghost predicate Encodes(t: Schema, e: Json, v: Json, means: Meaning) {
    Valid(t, e, means) && StripNullDeep(e) == v
  }

  ghost predicate HasEncoding(t: Schema, v: Json, means: Meaning) {
    exists e :: Encodes(t, e, v, means)
  }

  ghost function AnEncoding(t: Schema, v: Json, means: Meaning): (e: Json)
    requires HasEncoding(t, v, means)
    ensures Encodes(t, e, v, means)
  {
    var e :| Encodes(t, e, v, means); e
  }

  lemma EitherEncodes(constraint: Option<string>, branches: seq<Schema>, i: nat, v: Json, means: Meaning)
    requires i < |branches| && HasEncoding(branches[i], v, means)
    requires Lifts(constraint, means) && (constraint.Some? ==> means(constraint.value, v))
    ensures HasEncoding(ANYTHING.(constraint := constraint, unions := AnyOf(branches)), v, means)
  {
    var e := AnEncoding(branches[i], v, means);
    assert Valid(branches[i], e, means);
    assert Encodes(ANYTHING.(constraint := constraint, unions := AnyOf(branches)), e, v, means);
  }

  /** Making a subschema nullable forbids nothing. */
  lemma NullableEncodes(s: Schema, v: Json, means: Meaning)
    requires HasEncoding(s, v, means)
    ensures HasEncoding(Nullable(s), v, means)
  {
    var e := AnEncoding(s, v, means);
    if s.unions.AnyOf? {
      if !HasNullBranch(s.unions.any) {
        assert AnyValid(s.unions.any, e, means);
        if e.Obj? { SameObjectPart(s, Nullable(s), e, means); }
        var i :| 0 <= i < |s.unions.any| && Valid(s.unions.any[i], e, means);
        var longer := s.unions.any + [NULL_ONLY];
        assert longer[i] == s.unions.any[i];
        assert AnyValid(longer, e, means);
        assert Valid(Nullable(s), e, means);
        assert Encodes(Nullable(s), e, v, means);
      }
    } else if s.type_ != NullType {
      assert [s, NULL_ONLY][0] == s;
      EitherEncodes(None, [s, NULL_ONLY], 0, v, means);
    }
  }

  lemma UnionShape(s: Schema)
    requires !s.unions.NoUnion?
    ensures Sanitize(s).unions == AnyOf(SanitizeEach(Kept(s.unions)))
  {
    SanitizeShape(s);
  }

  /** A rewritten encodable schema, once nullable, admits null. */
  lemma NullableAdmitsNull(p: Schema, means: Meaning)
    requires Encodable(p, means)
    ensures Valid(Nullable(Sanitize(p)), Null, means)
  {
    var s := Sanitize(p);
    SanitizeShape(p);
    assert Valid(NULL_ONLY, Null, means);
    if !p.unions.NoUnion? {
      UnionShape(p);
      var branches := Kept(p.unions);
      if HasNullBranch(s.unions.any) {
        var i :| 0 <= i < |branches| && IsNullBranch(s.unions.any[i]);
        NullNodeAdmitsNull(branches[i], means);
      } else {
        assert (s.unions.any + [NULL_ONLY])[|s.unions.any|] == NULL_ONLY;
      }
    } else if s.type_ == NullType {
      NullNodeAdmitsNull(p, means);
    } else {
      assert [s, NULL_ONLY][1] == NULL_ONLY;
    }
  }

  lemma NullNodeAdmitsNull(p: Schema, means: Meaning)
    requires Encodable(p, means) && Sanitize(p).type_ == NullType
    ensures Valid(Sanitize(p), Null, means)
  {
    SanitizeShape(p);
  }

  /** The encoding of an object under a rewritten node: what the value lacks is emitted null. */
  ghost function EncodeFields(t: map<string, Schema>, extra: Additional, fields: map<string, Json>,
                              means: Meaning): (out: map<string, Json>)
    requires forall k :: k in fields ==> HasEncoding(SchemaFor(t, extra, k), fields[k], means)
    ensures out.Keys == t.Keys + fields.Keys
    ensures forall k :: k in out ==>
              out[k] == if k in fields then AnEncoding(SchemaFor(t, extra, k), fields[k], means) else Null
  {
    map k | k in t.Keys + fields.Keys ::
      if k in fields then AnEncoding(SchemaFor(t, extra, k), fields[k], means) else Null
  }

  /** The schema governing one key of an object. */
  function SchemaFor(t: map<string, Schema>, extra: Additional, k: string): Schema {
    if k in t then t[k] else if extra.Typed? then extra.schema else ANYTHING
  }

  lemma AnEncodingStrips(t: Schema, v: Json, means: Meaning)
    requires HasEncoding(t, v, means)
    ensures StripNullDeep(AnEncoding(t, v, means)) == v
  {}

  /** Fields whose values strip to given ones that are not null, beside nulls. */
  lemma StripBack(out: map<string, Json>, fields: map<string, Json>)
    requires fields.Keys <= out.Keys && forall k :: k in out && k !in fields ==> out[k] == Null
    requires forall k :: k in fields ==> fields[k] != Null && StripNullDeep(out[k]) == fields[k]
    ensures StripNullDeep(Obj(out)) == Obj(fields)
  {
    assert StripNullDeep(Obj(out)).fields == fields;
  }

  lemma StripFields(t: map<string, Schema>, extra: Additional, fields: map<string, Json>, means: Meaning)
    requires forall k :: k in fields ==> HasEncoding(SchemaFor(t, extra, k), fields[k], means)
    requires NullFree(Obj(fields))
    ensures StripNullDeep(Obj(EncodeFields(t, extra, fields, means))) == Obj(fields)
  {
    var out := EncodeFields(t, extra, fields, means);
    forall k | k in fields ensures StripNullDeep(out[k]) == fields[k] {
      AnEncodingStrips(SchemaFor(t, extra, k), fields[k], means);
    }
    StripBack(out, fields);
  }

  lemma EncodeKey(s: Schema, fields: map<string, Json>, k: string, means: Meaning)
    requires Encodable(s, means) && Conforms(s, Obj(fields), means) && NullFree(Obj(fields)) && k in fields &&
             s.unions.NoUnion?
    ensures Declares(s, k) ==> HasEncoding(SanitizeProperties(s)[k], fields[k], means)
    ensures !Declares(s, k) ==> HasEncoding(SchemaFor(map[], SanitizeAdditional(s.additional), k), fields[k], means)
    decreases s, 0
  {
    if Declares(s, k) {
      Encode(s.properties.of[k], fields[k], means);
      NullableEncodes(Sanitize(s.properties.of[k]), fields[k], means);
    } else if s.additional.Typed? {
      Encode(s.additional.schema, fields[k], means);
    } else {
      AnythingEncodes(fields[k], means);
    }
  }

  lemma AnythingEncodes(v: Json, means: Meaning)
    requires NullFree(v)
    ensures HasEncoding(ANYTHING, v, means)
  {
    StripKeepsNullFree(v);
    assert Encodes(ANYTHING, v, v, means);
  }

  lemma {:induction false} StripKeepsNullFree(v: Json)
    requires NullFree(v)
    ensures StripNullDeep(v) == v
  {
    match v
    case Arr(items) =>
      forall i | 0 <= i < |items| ensures StripNullDeep(items[i]) == items[i] { StripKeepsNullFree(items[i]); }
    case Obj(fields) =>
      forall k | k in fields ensures StripNullDeep(fields[k]) == fields[k] { StripKeepsNullFree(fields[k]); }
      assert StripNullDeep(v).fields == fields;
    case _ =>
  }

  /** The encoded fields satisfy the rewritten node, given that every declared null is admitted. */
  lemma EncodedFieldsAreValid(t: Schema, fields: map<string, Json>, means: Meaning)
    requires var of := RootProperties(t); var extra := t.additional;
             && (forall k :: k in fields ==> HasEncoding(SchemaFor(of, extra, k), fields[k], means))
             && (forall k :: k in of && k !in fields ==> Valid(of[k], Null, means))
             && (forall k :: k in fields && k !in of ==> extra.Flag? ==> extra.allowed)
    requires t.required.Some? ==> t.required.value <= RootProperties(t).Keys + fields.Keys
    ensures ValidObject(t, EncodeFields(RootProperties(t), t.additional, fields, means), means)
  {
    var of, extra := RootProperties(t), t.additional;
    var out := EncodeFields(of, extra, fields, means);
    forall k | k in of && k in out ensures Valid(of[k], out[k], means) {
      if k in fields { assert Encodes(of[k], out[k], fields[k], means); }
    }
    forall k | k in out && !Declares(t, k)
      ensures (extra.Flag? ==> extra.allowed) && (extra.Typed? ==> Valid(extra.schema, out[k], means))
    {
      assert k in fields && k !in of;
      assert Encodes(SchemaFor(of, extra, k), out[k], fields[k], means);
    }
  }

  lemma ObjectEncodes(t: Schema, fields: map<string, Json>, means: Meaning)
    requires var of := RootProperties(t); var extra := t.additional;
             && (forall k :: k in fields ==> HasEncoding(SchemaFor(of, extra, k), fields[k], means))
             && (forall k :: k in of && k !in fields ==> Valid(of[k], Null, means))
             && (forall k :: k in fields && k !in of ==> extra.Flag? ==> extra.allowed)
    requires t.required.Some? ==> t.required.value <= RootProperties(t).Keys + fields.Keys
    requires NullFree(Obj(fields)) && t.unions.NoUnion? && t.type_ in {NoType, ObjectType}
    requires Lifts(t.constraint, means) && (t.constraint.Some? ==> means(t.constraint.value, Obj(fields)))
    ensures HasEncoding(t, Obj(fields), means)
  {
    var e := Obj(EncodeFields(RootProperties(t), t.additional, fields, means));
    EncodedFieldsAreValid(t, fields, means);
    StripFields(RootProperties(t), t.additional, fields, means);
    assert Encodes(t, e, Obj(fields), means);
  }

  lemma EncodeObject(s: Schema, fields: map<string, Json>, means: Meaning)
    requires Encodable(s, means) && Conforms(s, Obj(fields), means) && NullFree(Obj(fields)) && s.unions.NoUnion?
    requires Lifts(s.constraint, means)
    ensures HasEncoding(Sanitize(s), Obj(fields), means)
    decreases s, 1
  {
    var t := Sanitize(s);
    SanitizeShape(s);
    var of := RootProperties(t);
    forall k | k in fields
      ensures HasEncoding(SchemaFor(of, t.additional, k), fields[k], means)
      ensures k !in of ==> t.additional.Flag? ==> t.additional.allowed
    {
      EncodeKey(s, fields, k, means);
      assert ValidObject(s, fields, means);
      if k !in of { assert !Declares(s, k); }
    }
    forall k | k in of && k !in fields ensures Valid(of[k], Null, means) {
      assert ValidObject(s, fields, means) && !IsRequired(s, k);
      NullableAdmitsNull(s.properties.of[k], means);
    }
    ObjectEncodes(t, fields, means);
  }

  lemma EncodeArray(s: Schema, items: seq<Json>, means: Meaning)
    requires Encodable(s, means) && Conforms(s, Arr(items), means) && NullFree(Arr(items)) && s.items.Items? &&
             s.unions.NoUnion?
    requires Lifts(s.constraint, means)
    ensures HasEncoding(Sanitize(s), Arr(items), means)
    decreases s, 1
  {
    SanitizeShape(s);
    forall i | 0 <= i < |items| ensures HasEncoding(Sanitize(s.items.each), items[i], means) {
      Encode(s.items.each, items[i], means);
    }
    ArrayEncodes(Sanitize(s), items, means);
  }

  lemma ArrayEncodes(t: Schema, items: seq<Json>, means: Meaning)
    requires t.items.Items? && t.unions.NoUnion? && HasType(t.type_, Arr(items)) && Lifts(t.constraint, means)
    requires t.constraint.Some? ==> means(t.constraint.value, Arr(items))
    requires forall i :: 0 <= i < |items| ==> HasEncoding(t.items.each, items[i], means)
    ensures HasEncoding(t, Arr(items), means)
  {
    var out := seq(|items|, i requires 0 <= i < |items| => AnEncoding(t.items.each, items[i], means));
    forall i | 0 <= i < |items| ensures Valid(t.items.each, out[i], means) && StripNullDeep(out[i]) == items[i] {
      assert Encodes(t.items.each, out[i], items[i], means);
    }
    assert StripNullDeep(Arr(out)).items == items;
    assert Encodes(t, Arr(out), Arr(items), means);
  }

  lemma EncodeUnion(s: Schema, v: Json, means: Meaning)
    requires Encodable(s, means) && Conforms(s, v, means) && NullFree(v) && !s.unions.NoUnion?
    ensures HasEncoding(Sanitize(s), v, means)
    decreases s, 1
  {
    SanitizeShape(s);
    UnionShape(s);
    var branches := Kept(s.unions);
    var i :| 0 <= i < |branches| && Conforms(branches[i], v, means);
    Encode(branches[i], v, means);
    assert Sanitize(s) == ANYTHING.(constraint := s.constraint, unions := AnyOf(SanitizeEach(branches)));
    EitherEncodes(s.constraint, SanitizeEach(branches), i, v, means);
  }

  /** Completeness below the root. */
  lemma Encode(s: Schema, v: Json, means: Meaning)
    requires Encodable(s, means) && Conforms(s, v, means) && NullFree(v)
    ensures HasEncoding(Sanitize(s), v, means)
    decreases s, 2
  {
    if !s.unions.NoUnion? {
      EncodeUnion(s, v, means);
    } else if v.Obj? && HasStructure(s) {
      EncodeObject(s, v.fields, means);
    } else if v.Arr? && s.items.Items? {
      EncodeArray(s, v.items, means);
    } else {
      SanitizeShape(s);
      StripKeepsNullFree(v);
      assert Valid(Sanitize(s), v, means);
      assert Encodes(Sanitize(s), v, v, means);
    }
  }

  // ----- root unions -----

  /** A root union of object branches, beside optional root properties. What a branch says besides its properties is
      dropped by the lowering. */
  ghost predicate EncodableUnionRoot(s: Schema, means: Meaning) {
    && s.unions.AnyOf? && Lowers(s)
    && Lifts(s.constraint, means)
    && (forall k :: k in RootProperties(s) ==> Encodable(RootProperties(s)[k], means))
    && (forall i :: 0 <= i < |s.unions.any| ==> EncodableBranch(s.unions.any[i], means))
  }

  ghost predicate EncodableBranch(b: Schema, means: Meaning) {
    forall k :: Declares(b, k) ==> Encodable(b.properties.of[k], means)
  }

  /** `fields` satisfies the root through branch `i`, using only keys declared by the root or that branch. */
  ghost predicate ConformsThrough(s: Schema, i: nat, fields: map<string, Json>, means: Meaning)
    requires Lowers(s) && i < |s.unions.any|
  {
    var branch := s.unions.any[i];
    && Valid(s, Obj(fields), means) && Valid(branch, Obj(fields), means)
    && forall k :: k in fields ==>
         || (Declares(branch, k) && Conforms(branch.properties.of[k], fields[k], means))
         || (k in RootProperties(s) && Conforms(RootProperties(s)[k], fields[k], means))
  }

  lemma EitherSanitized(a: Schema, b: Schema, v: Json, means: Meaning)
    requires HasEncoding(Sanitize(a), v, means) || HasEncoding(Sanitize(b), v, means)
    ensures HasEncoding(Sanitize(Either(a, b)), v, means)
  {
    var branches := [Sanitize(a), Sanitize(b)];
    SanitizeShape(Either(a, b));
    assert SanitizeEach([a, b]) == branches;
    assert Sanitize(Either(a, b)) == ANYTHING.(unions := AnyOf(branches));
    if HasEncoding(Sanitize(a), v, means) {
      assert branches[0] == Sanitize(a);
      EitherEncodes(None, branches, 0, v, means);
    } else {
      assert branches[1] == Sanitize(b);
      EitherEncodes(None, branches, 1, v, means);
    }
  }

  /** Merging keeps every alternative of a key, and keeps schemas encodable. */
  lemma {:induction false} MergeKeeps(into: map<string, Schema>, branches: seq<Schema>, k: string, v: Json,
                                      means: Meaning)
    requires forall i :: 0 <= i < |branches| ==> IsObjectBranch(branches[i])
    requires (k in into && HasEncoding(Sanitize(into[k]), v, means))
             || exists i :: && 0 <= i < |branches| && Declares(branches[i], k)
                            && HasEncoding(Sanitize(branches[i].properties.of[k]), v, means)
    ensures k in MergeBranches(into, branches) && HasEncoding(Sanitize(MergeBranches(into, branches)[k]), v, means)
    decreases branches
  {
    if branches != [] {
      assert IsObjectBranch(branches[0]);
      var from := branches[0].properties.of;
      var merged := MergeOne(into, from);
      if k in into && HasEncoding(Sanitize(into[k]), v, means) {
        if k in from { EitherSanitized(into[k], from[k], v, means); }
      } else {
        var i :| && 0 <= i < |branches| && Declares(branches[i], k)
                 && HasEncoding(Sanitize(branches[i].properties.of[k]), v, means);
        if i == 0 {
          if k in into { EitherSanitized(into[k], from[k], v, means); }
        } else {
          assert branches[1..][i - 1] == branches[i];
        }
      }
      MergeKeeps(merged, branches[1..], k, v, means);
    }
  }

  lemma {:induction false} MergeIsEncodable(into: map<string, Schema>, branches: seq<Schema>, means: Meaning)
    requires forall k :: k in into ==> Encodable(into[k], means)
    requires forall i :: 0 <= i < |branches| ==> IsObjectBranch(branches[i]) && EncodableBranch(branches[i], means)
    ensures forall k :: k in MergeBranches(into, branches) ==> Encodable(MergeBranches(into, branches)[k], means)
    decreases branches
  {
    if branches != [] {
      assert IsObjectBranch(branches[0]) && EncodableBranch(branches[0], means);
      var merged := MergeOne(into, branches[0].properties.of);
      forall k | k in merged ensures Encodable(merged[k], means) {
        if k in into && k in branches[0].properties.of {
          var both := [into[k], branches[0].properties.of[k]];
          assert forall i :: 0 <= i < |both| ==> Encodable(both[i], means);
        }
      }
      MergeIsEncodable(merged, branches[1..], means);
    }
  }

  lemma EncodeUnionRoot(s: Schema, i: nat, fields: map<string, Json>, means: Meaning)
    requires EncodableUnionRoot(s, means) && i < |s.unions.any| && ConformsThrough(s, i, fields, means) &&
             NullFree(Obj(fields))
    ensures HasEncoding(SanitizeRoot(s), Obj(fields), means)
  {
    var lowered, branch := Lower(s), s.unions.any[i];
    var merged := lowered.properties.of;
    MergeIsEncodable(RootProperties(s), s.unions.any, means);
    var t := Sanitize(lowered);
    SanitizeShape(lowered);
    var of := RootProperties(t);
    forall k | k in fields ensures k in of && HasEncoding(SchemaFor(of, t.additional, k), fields[k], means) {
      if Declares(branch, k) && Conforms(branch.properties.of[k], fields[k], means) {
        assert EncodableBranch(branch, means) && IsObjectBranch(branch);
        Encode(branch.properties.of[k], fields[k], means);
      } else {
        Encode(RootProperties(s)[k], fields[k], means);
      }
      MergeKeeps(RootProperties(s), s.unions.any, k, fields[k], means);
      NullableEncodes(Sanitize(merged[k]), fields[k], means);
    }
    forall k | k in of && k !in fields ensures Valid(of[k], Null, means) {
      NullableAdmitsNull(merged[k], means);
    }
    ObjectEncodes(t, fields, means);
  }

  /** Completeness: at the root too, with `oneOf` anywhere, every null-free value of the original that keeps to
      the declared keys has an encoding the model may emit and that strips back to it. */
  lemma RewriteIsComplete(s: Schema, v: Json, means: Meaning)
    requires NullFree(v)
    requires (!Lowers(s) && Encodable(s, means) && Conforms(s, v, means))
             || (EncodableUnionRoot(s, means) && v.Obj? &&
                 exists i: nat :: i < |s.unions.any| && ConformsThrough(s, i, v.fields, means))
    ensures exists e :: Valid(SanitizeRoot(s), e, means) && StripNullDeep(e) == v
  {
    if !Lowers(s) {
      Encode(s, v, means);
    } else {
      var i: nat :| i < |s.unions.any| && ConformsThrough(s, i, v.fields, means);
      EncodeUnionRoot(s, i, v.fields, means);
    }
    var e := AnEncoding(SanitizeRoot(s), v, means);
  }
}
