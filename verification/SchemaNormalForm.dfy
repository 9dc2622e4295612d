/** The shape strict structured outputs demand, and when rewriting twice is rewriting once. */
module SchemaNormalForm {
  import opened Json
  import opened CodexExec

  /** At every node: `oneOf` is gone; no schema `{}` stands for additional properties; an object with declared
      properties requires all of them and says whether it is closed. With `closed`, it is. */
  predicate Strict(s: Schema, closed: bool)
    decreases s
  {
    && (s.unions.NoUnion? || s.unions.AnyOf?)
    && s.additional != Typed(ANYTHING)
    && (s.properties.Properties? ==>
          s.required == Some(s.properties.of.Keys) && !s.additional.Absent? && (closed ==> s.additional == Flag(false)))
    && (s.properties.Properties? ==> forall k :: k in s.properties.of ==> Strict(s.properties.of[k], closed))
    && (s.additional.Typed? ==> Strict(s.additional.schema, closed))
    && (s.items.Items? ==> Strict(s.items.each, closed))
    && (s.unions.AnyOf? ==> forall i :: 0 <= i < |s.unions.any| ==> Strict(s.unions.any[i], closed))
  }

  /** Every `additionalProperties` is absent, empty or false. */
  predicate Closable(s: Schema)
    decreases s
  {
    && s.additional in {Absent, Flag(false), Typed(ANYTHING)}
    && (s.properties.Properties? ==> forall k :: k in s.properties.of ==> Closable(s.properties.of[k]))
    && (s.items.Items? ==> Closable(s.items.each))
    && (s.unions.AnyOf? || s.unions.BothUnions? ==> forall i :: 0 <= i < |s.unions.any| ==> Closable(s.unions.any[i]))
    && (s.unions.OneOf? || s.unions.BothUnions? ==> forall i :: 0 <= i < |s.unions.one| ==> Closable(s.unions.one[i]))
  }

  lemma NullableIsStrict(s: Schema, closed: bool)
    requires Strict(s, closed)
    ensures Strict(Nullable(s), closed)
  {
    assert Strict(NULL_ONLY, closed);
    if s.unions.AnyOf? && !HasNullBranch(s.unions.any) {
      var longer := s.unions.any + [NULL_ONLY];
      forall i | 0 <= i < |longer| ensures Strict(longer[i], closed) {
        if i < |s.unions.any| { assert longer[i] == s.unions.any[i]; }
      }
    } else if !s.unions.AnyOf? && s.type_ != NullType {
      assert forall i :: 0 <= i < 2 ==> Strict([s, NULL_ONLY][i], closed);
    }
  }

  lemma NotAnything(s: Schema)
    ensures Sanitize(s) == ANYTHING ==> s == ANYTHING
  {
    SanitizeShape(s);
  }

  lemma EachIsStrict(branches: seq<Schema>, closed: bool)
    requires closed ==> forall i :: 0 <= i < |branches| ==> Closable(branches[i])
    ensures forall i :: 0 <= i < |branches| ==> Strict(SanitizeEach(branches)[i], closed)
    decreases branches, 1
  {
    forall i | 0 <= i < |branches| ensures Strict(Sanitize(branches[i]), closed) {
      SanitizeIsStrict(branches[i], closed);
    }
  }

  lemma SanitizeIsStrict(s: Schema, closed: bool)
    requires closed ==> Closable(s)
    ensures Strict(Sanitize(s), closed)
    decreases s
  {
    var t := Sanitize(s);
    SanitizeShape(s);
    match s.unions {
      case NoUnion =>
      case AnyOf(any) => EachIsStrict(any, closed);
      case OneOf(one) => EachIsStrict(one, closed);
      case BothUnions(any, one, oneOfLast) =>
        if oneOfLast { EachIsStrict(one, closed); } else { EachIsStrict(any, closed); }
    }
    if s.properties.Properties? {
      forall k | k in s.properties.of ensures Strict(t.properties.of[k], closed) {
        SanitizeIsStrict(s.properties.of[k], closed);
        NullableIsStrict(Sanitize(s.properties.of[k]), closed);
      }
    }
    if s.items.Items? { SanitizeIsStrict(s.items.each, closed); }
    if s.additional.Typed? && s.additional.schema != ANYTHING {
      SanitizeIsStrict(s.additional.schema, closed);
      NotAnything(s.additional.schema);
    }
  }

  lemma {:induction false} MergeIsClosable(into: map<string, Schema>, branches: seq<Schema>)
    requires forall k :: k in into ==> Closable(into[k])
    requires forall i :: 0 <= i < |branches| ==> IsObjectBranch(branches[i]) && Closable(branches[i])
    ensures forall k :: k in MergeBranches(into, branches) ==> Closable(MergeBranches(into, branches)[k])
    decreases branches
  {
    if branches != [] {
      assert IsObjectBranch(branches[0]) && Closable(branches[0]);
      var merged := MergeOne(into, branches[0].properties.of);
      forall k | k in merged ensures Closable(merged[k]) {
        if k in into && k in branches[0].properties.of {
          var both := [into[k], branches[0].properties.of[k]];
          assert forall i :: 0 <= i < |both| ==> Closable(both[i]);
        }
      }
      MergeIsClosable(merged, branches[1..]);
    }
  }

  lemma LowerIsClosable(s: Schema)
    requires Closable(s)
    ensures Closable(Lower(s))
  {
    if Lowers(s) { MergeIsClosable(RootProperties(s), s.unions.any); }
  }

  /** Every rewritten schema is strict, and closed throughout when `additionalProperties` is nowhere a real
      schema or true; and a root `anyOf` of object schemas is gone. */
  lemma RewriteIsStrict(s: Schema)
    ensures Strict(SanitizeRoot(s), false)
    ensures Closable(s) ==> Strict(SanitizeRoot(s), true)
    ensures s.unions.AnyOf? && Lowers(s) ==> SanitizeRoot(s).unions.NoUnion?
    ensures Lowers(SanitizeRoot(s)) <==> OneOfBecomesRootUnion(s)
  {
    SanitizeIsStrict(Lower(s), false);
    if Closable(s) {
      LowerIsClosable(s);
      SanitizeIsStrict(Lower(s), true);
    }
    SanitizeShape(Lower(s));
    RelowersIff(s);
  }

  // ----- rewriting twice -----

  lemma NullableIsFixed(p: Schema)
    requires Sanitize(p) == p
    ensures Sanitize(Nullable(p)) == Nullable(p)
  {
    SanitizeShape(p);
    assert Sanitize(NULL_ONLY) == NULL_ONLY;
    if p.unions.AnyOf? {
      if !HasNullBranch(p.unions.any) {
        var longer := p.unions.any + [NULL_ONLY];
        SanitizeShape(Nullable(p));
        forall i | 0 <= i < |longer| ensures SanitizeEach(longer)[i] == longer[i] {
          if i < |p.unions.any| {
            assert longer[i] == p.unions.any[i] == SanitizeEach(p.unions.any)[i];
          }
        }
        assert SanitizeEach(longer) == longer;
        SamePropertiesPart(p, Nullable(p));
      }
    } else if p.type_ != NullType {
      var both := [p, NULL_ONLY];
      assert SanitizeEach(both) == both;
      SanitizeShape(Nullable(p));
    }
  }

  lemma SamePropertiesPart(s: Schema, t: Schema)
    requires t == s.(unions := t.unions)
    ensures s.properties.Properties? ==> SanitizeProperties(s) == SanitizeProperties(t)
  {}

  lemma EachIsFixed(branches: seq<Schema>)
    ensures SanitizeEach(SanitizeEach(branches)) == SanitizeEach(branches)
    decreases branches, 1
  {
    forall i | 0 <= i < |branches| ensures Sanitize(Sanitize(branches[i])) == Sanitize(branches[i]) {
      SanitizeIsFixed(branches[i]);
    }
  }

  lemma PropertiesAreFixed(s: Schema)
    requires s.properties.Properties?
    ensures SanitizeProperties(Sanitize(s)) == SanitizeProperties(s)
    decreases s, 0
  {
    var t := Sanitize(s);
    SanitizeShape(s);
    forall k | k in s.properties.of ensures SanitizeProperties(t)[k] == SanitizeProperties(s)[k] {
      SanitizeIsFixed(s.properties.of[k]);
      NullableIsFixed(Sanitize(s.properties.of[k]));
      assert IsRequired(t, k);
    }
  }

  lemma AdditionalIsFixed(a: Additional)
    ensures SanitizeAdditional(SanitizeAdditional(a)) == SanitizeAdditional(a)
    decreases a
  {
    if a.Typed? && a.schema != ANYTHING {
      SanitizeIsFixed(a.schema);
      NotAnything(a.schema);
    }
  }

  lemma UnionsAreFixed(u: Unions)
    ensures SanitizeUnions(SanitizeUnions(u)) == SanitizeUnions(u)
    decreases u
  {
    match u
    case NoUnion =>
    case AnyOf(any) => EachIsFixed(any);
    case OneOf(one) => EachIsFixed(one);
    case BothUnions(any, one, oneOfLast) => if oneOfLast { EachIsFixed(one); } else { EachIsFixed(any); }
  }

  /** Below the root, rewriting twice is rewriting once. */
  lemma SanitizeIsFixed(s: Schema)
    ensures Sanitize(Sanitize(s)) == Sanitize(s)
    decreases s
  {
    var t := Sanitize(s);
    SanitizeShape(s);
    SanitizeShape(t);
    UnionsAreFixed(s.unions);
    AdditionalIsFixed(s.additional);
    if s.properties.Properties? { PropertiesAreFixed(s); }
    if s.items.Items? { SanitizeIsFixed(s.items.each); }
  }

  /** The `oneOf` branches that the first rewrite leaves as a root `anyOf` of objects. */
  predicate OneOfBecomesRootUnion(s: Schema) {
    match s.unions
    case OneOf(one) => AllObjects(one)
    case BothUnions(any, one, oneOfLast) => AllObjects(one) && (AllObjects(any) || oneOfLast)
    case _ => false
  }

  lemma ObjectBranchesKept(branches: seq<Schema>)
    ensures AllObjects(SanitizeEach(branches)) <==> AllObjects(branches)
  {
    forall i | 0 <= i < |branches| ensures IsObjectBranch(SanitizeEach(branches)[i]) <==> IsObjectBranch(branches[i]) {
      SanitizeShape(branches[i]);
    }
    if AllObjects(SanitizeEach(branches)) {
      forall i | 0 <= i < |branches| ensures IsObjectBranch(branches[i]) {
        assert IsObjectBranch(SanitizeEach(branches)[i]);
      }
    }
  }

  lemma RelowersIff(s: Schema)
    ensures Lowers(SanitizeRoot(s)) <==> OneOfBecomesRootUnion(s)
  {
    SanitizeShape(Lower(s));
    match s.unions
    case NoUnion =>
    case AnyOf(any) => ObjectBranchesKept(any);
    case OneOf(one) => ObjectBranchesKept(one);
    case BothUnions(any, one, oneOfLast) => ObjectBranchesKept(any); ObjectBranchesKept(one);
  }

  /** Rewriting twice is rewriting once exactly when the root has no `oneOf` of objects to leave behind. */
  lemma RewriteIsIdempotentIff(s: Schema)
    ensures SanitizeRoot(SanitizeRoot(s)) == SanitizeRoot(s) <==> !OneOfBecomesRootUnion(s)
  {
    var t := SanitizeRoot(s);
    RelowersIff(s);
    SanitizeIsFixed(Lower(s));
    SanitizeIsStrict(Lower(s), false);
    if Lowers(t) {
      SanitizeShape(Lower(t));
    }
  }
}
