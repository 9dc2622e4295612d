/** The schema rewrite of `codex-exec.ts` and its inverse on values.

    A schema is a typed tree of the keywords the rewrite looks at; every other keyword of a node (`enum`,
    `pattern`, a scalar `type`, ...) is one named constraint whose meaning is a parameter. Meaning follows
    JSON Schema 2020-12: `anyOf` and `oneOf` (Core 10.2.1.2, 10.2.1.3), `properties` and
    `additionalProperties` (Core 10.3.2.1, 10.3.2.3), `required` (Validation 6.5.3). */
module CodexExec {
  import opened Json

  datatype TypeKeyword = NoType | NullType | ObjectType | ArrayType

  /** `additionalProperties`: absent, a boolean, or a schema. */
  datatype Additional = Absent | Flag(allowed: bool) | Typed(schema: Schema)

  datatype Properties = NoProperties | Properties(of: map<string, Schema>)

  datatype Items = NoItems | Items(each: Schema)

  /** `oneOfLast` records which of two union keywords comes later in the node. */
  datatype Unions = NoUnion | AnyOf(any: seq<Schema>) | OneOf(one: seq<Schema>)
                  | BothUnions(any: seq<Schema>, one: seq<Schema>, oneOfLast: bool)

  datatype Schema = Schema(
    type_: TypeKeyword,
    constraint: Option<string>,
    properties: Properties,
    required: Option<set<string>>,
    additional: Additional,
    items: Items,
    unions: Unions)

  /** The schema `{}`. */
  const ANYTHING := Schema(NoType, None, NoProperties, None, Absent, NoItems, NoUnion)

  /** The schema `{ type: "null" }`. */
  const NULL_ONLY := ANYTHING.(type_ := NullType)

  // ----- meaning -----

  /** What a named constraint admits. */
  type Meaning = (string, Json) -> bool

  predicate HasType(t: TypeKeyword, v: Json) {
    match t
    case NoType => true
    case NullType => v.Null?
    case ObjectType => v.Obj?
    case ArrayType => v.Arr?
  }

  ghost predicate Valid(s: Schema, v: Json, means: Meaning)
    decreases s
  {
    && HasType(s.type_, v)
    && (s.constraint.Some? ==> means(s.constraint.value, v))
    && (v.Obj? ==> ValidObject(s, v.fields, means))
    && (s.items.Items? && v.Arr? ==> forall i :: 0 <= i < |v.items| ==> Valid(s.items.each, v.items[i], means))
    && (s.unions.AnyOf? || s.unions.BothUnions? ==> AnyValid(s.unions.any, v, means))
    && (s.unions.OneOf? || s.unions.BothUnions? ==> OneValid(s.unions.one, v, means))
  }

  ghost predicate ValidObject(s: Schema, fields: map<string, Json>, means: Meaning)
    decreases s, 0
  {
    && (s.properties.Properties? ==>
          forall k :: k in s.properties.of && k in fields ==> Valid(s.properties.of[k], fields[k], means))
    && (s.required.Some? ==> s.required.value <= fields.Keys)
    && (forall k :: k in fields && !Declares(s, k) ==>
          (s.additional.Flag? ==> s.additional.allowed) &&
          (s.additional.Typed? ==> Valid(s.additional.schema, fields[k], means)))
  }

  ghost predicate AnyValid(branches: seq<Schema>, v: Json, means: Meaning) {
    exists i :: 0 <= i < |branches| && Valid(branches[i], v, means)
  }

  ghost predicate OneValid(branches: seq<Schema>, v: Json, means: Meaning) {
    exists i :: 0 <= i < |branches| && Valid(branches[i], v, means)
                && forall j :: 0 <= j < |branches| && j != i ==> !Valid(branches[j], v, means)
  }

  predicate Declares(s: Schema, key: string) {
    s.properties.Properties? && key in s.properties.of
  }

  /** Only the union keyword differs. */
  lemma SameObjectPart(s: Schema, t: Schema, v: Json, means: Meaning)
    requires t == s.(unions := t.unions) && v.Obj?
    ensures ValidObject(s, v.fields, means) <==> ValidObject(t, v.fields, means)
  {}

  // ----- the rewrite -----

  predicate IsNullBranch(s: Schema) { s.type_ == NullType }

  predicate HasNullBranch(branches: seq<Schema>) {
    exists i :: 0 <= i < |branches| && IsNullBranch(branches[i])
  }

  /** `nullableSubschema`, on a subschema already rewritten: it has no `oneOf`. */
  function Nullable(s: Schema): Schema {
    if s.unions.AnyOf? then
      if HasNullBranch(s.unions.any) then s else s.(unions := AnyOf(s.unions.any + [NULL_ONLY]))
    else if s.type_ == NullType then s
    else ANYTHING.(unions := AnyOf([s, NULL_ONLY]))
  }

  function SanitizeEach(branches: seq<Schema>): seq<Schema>
    decreases branches
  {
    seq(|branches|, i requires 0 <= i < |branches| => Sanitize(branches[i]))
  }

  function SanitizeUnions(u: Unions): Unions
    decreases u
  {
    match u
    case NoUnion => NoUnion
    case AnyOf(any) => AnyOf(SanitizeEach(any))
    case OneOf(one) => AnyOf(SanitizeEach(one))
    case BothUnions(any, one, oneOfLast) => AnyOf(if oneOfLast then SanitizeEach(one) else SanitizeEach(any))
  }

  function SanitizeAdditional(a: Additional): Additional
    decreases a
  {
    if a.Typed? then if a.schema == ANYTHING then Flag(false) else Typed(Sanitize(a.schema)) else a
  }

  /** Every declared property rewritten, and the optional ones made nullable. */
  function SanitizeProperties(s: Schema): map<string, Schema>
    requires s.properties.Properties?
    decreases s, 0
  {
    map k | k in s.properties.of ::
      if IsRequired(s, k) then Sanitize(s.properties.of[k]) else Nullable(Sanitize(s.properties.of[k]))
  }

  predicate IsRequired(s: Schema, key: string) { s.required.Some? && key in s.required.value }

  /** `sanitizeSchemaNode` below the root. */
  function Sanitize(s: Schema): Schema
    decreases s
  {
    var items := if s.items.Items? then Items(Sanitize(s.items.each)) else NoItems;
    var out := s.(items := items, additional := SanitizeAdditional(s.additional), unions := SanitizeUnions(s.unions));
    if s.properties.NoProperties? then out else
    out.(properties := Properties(SanitizeProperties(s)),
         required := Some(s.properties.of.Keys),
         additional := if out.additional.Absent? then Flag(false) else out.additional)
  }

  /** The rewrite of one node, field by field. */
  lemma SanitizeShape(s: Schema)
    ensures var t := Sanitize(s);
            && t.type_ == s.type_ && t.constraint == s.constraint
            && t.unions == SanitizeUnions(s.unions)
            && t.items == (if s.items.Items? then Items(Sanitize(s.items.each)) else NoItems)
            && (s.properties.NoProperties? ==>
                  t.properties == NoProperties && t.required == s.required &&
                    t.additional == SanitizeAdditional(s.additional))
            && (s.properties.Properties? ==>
                  && t.properties == Properties(SanitizeProperties(s)) && t.required == Some(s.properties.of.Keys)
                  && SanitizeProperties(s).Keys == s.properties.of.Keys
                  && t.additional == if s.additional.Absent? then Flag(false) else SanitizeAdditional(s.additional))
  {}

  predicate IsObjectBranch(s: Schema) { s.type_ == ObjectType && s.properties.Properties? }

  predicate AllObjects(branches: seq<Schema>) {
    branches != [] && forall i :: 0 <= i < |branches| ==> IsObjectBranch(branches[i])
  }

  /** Whether the root carries an `anyOf` of object schemas, which is merged into one object. */
  predicate Lowers(s: Schema) {
    (s.unions.AnyOf? || s.unions.BothUnions?) && AllObjects(s.unions.any)
  }

  function Either(a: Schema, b: Schema): Schema { ANYTHING.(unions := AnyOf([a, b])) }

  function MergeOne(into: map<string, Schema>, from: map<string, Schema>): map<string, Schema> {
    map k | k in into.Keys + from.Keys ::
      if k !in into then from[k] else if k in from then Either(into[k], from[k]) else into[k]
  }

  function MergeBranches(into: map<string, Schema>, branches: seq<Schema>): map<string, Schema>
    requires forall i :: 0 <= i < |branches| ==> IsObjectBranch(branches[i])
    decreases branches
  {
    if branches == [] then into
    else
      assert IsObjectBranch(branches[0]);
      MergeBranches(MergeOne(into, branches[0].properties.of), branches[1..])
  }

  function RootProperties(s: Schema): map<string, Schema> {
    if s.properties.Properties? then s.properties.of else map[]
  }

  /** `lowerRootObjectUnion`. */
  function Lower(s: Schema): Schema {
    if !Lowers(s) then s
    else s.(type_ := ObjectType, properties := Properties(MergeBranches(RootProperties(s), s.unions.any)),
            required := Some({}), additional := Flag(false),
            unions := if s.unions.BothUnions? then OneOf(s.unions.one) else NoUnion)
  }

  /** `sanitizeSchemaForCodex`. */
  function SanitizeRoot(s: Schema): Schema { Sanitize(Lower(s)) }

  // ----- the inverse on values -----

  /** Drop every null-valued object property, deeply; array elements keep their places. */
  function StripNullDeep(value: Json): Json {
    match value
    case Arr(items) => Arr(seq(|items|, i requires 0 <= i < |items| => StripNullDeep(items[i])))
    case Obj(fields) => Obj(map key | key in fields && fields[key] != Null :: StripNullDeep(fields[key]))
    case _ => value
  }

  /** No object property, at any depth, is null. */
  predicate NullFree(value: Json) {
    match value
    case Arr(items) => forall i :: 0 <= i < |items| ==> NullFree(items[i])
    case Obj(fields) => forall k :: k in fields ==> fields[k] != Null && NullFree(fields[k])
    case _ => true
  }
}
