/** JSON values as `JSON.parse` delivers them, with the small typed accessors every adapter shares.
    An absent property (`undefined`) is `None`. Numbers are integers: the code only ever compares
    ids, adds token counts and copies error codes. */
module Json {

  datatype Option<+T> = None | Some(value: T)

  datatype Json =
    | Null
    | Bool(b: bool)
    | Num(n: int)
    | Str(s: string)
    | Arr(items: seq<Json>)
    | Obj(fields: map<string, Json>)

  type Record = map<string, Json>

  function Or<T>(first: Option<T>, second: Option<T>): Option<T> {
    if first.Some? then first else second
  }

  /** A string that JavaScript finds truthy. */
  predicate IsTruthy(s: Option<string>) { s.Some? && s.value != "" }

  function Field(record: Option<Record>, key: string): Option<Json> {
    if record.Some? && key in record.value then Some(record.value[key]) else None
  }

  function AsRecord(value: Option<Json>): Option<Record> {
    if value.Some? && value.value.Obj? then Some(value.value.fields) else None
  }

  function StringAt(record: Option<Record>, key: string): Option<string> {
    var value := Field(record, key);
    if value.Some? && value.value.Str? then Some(value.value.s) else None
  }

  function NumberAt(record: Option<Record>, key: string): Option<int> {
    var value := Field(record, key);
    if value.Some? && value.value.Num? then Some(value.value.n) else None
  }

  /** The property is present and neither `undefined` nor `null`. */
  predicate Present(record: Record, key: string) {
    key in record && record[key] != Null
  }

  /** The value at a path of property names, if every step of it leads through an object that has the next. */
  function At(value: Json, path: seq<string>): Option<Json>
    decreases path
  {
    if path == [] then Some(value)
    else if value.Obj? && path[0] in value.fields then At(value.fields[path[0]], path[1..])
    else None
  }

  lemma AtOne(value: Json, a: string)
    ensures At(value, [a]) == Field(AsRecord(Some(value)), a)
  {
    assert [a][1..] == [];
  }

  lemma AtTwo(value: Json, a: string, b: string)
    ensures At(value, [a, b]) == Field(AsRecord(Field(AsRecord(Some(value)), a)), b)
  {
    assert [a, b][1..] == [b];
    if value.Obj? && a in value.fields { AtOne(value.fields[a], b); }
  }

  lemma AtThree(value: Json, a: string, b: string, c: string)
    ensures At(value, [a, b, c]) == Field(AsRecord(Field(AsRecord(Field(AsRecord(Some(value)), a)), b)), c)
  {
    assert [a, b, c][1..] == [b, c];
    if value.Obj? && a in value.fields { AtTwo(value.fields[a], b, c); }
  }

  lemma AtFour(value: Json, a: string, b: string, c: string, d: string)
    ensures At(value, [a, b, c, d]) ==
            Field(AsRecord(Field(AsRecord(Field(AsRecord(Field(AsRecord(Some(value)), a)), b)), c)), d)
  {
    assert [a, b, c, d][1..] == [b, c, d];
    if value.Obj? && a in value.fields { AtThree(value.fields[a], b, c, d); }
  }
}
