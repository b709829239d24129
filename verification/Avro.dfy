/** schema.go: the structural check of a JSON payload against an Avro schema ("Primitive Types" and "Complex Types" of
    the Apache Avro specification). Numbers keep their text, as json.Number does. */
module Avro {
  datatype Json =
    | JNull
    | JBool(b: bool)
    | JNumber(text: string)
    | JString(s: string)
    | JArray(items: seq<Json>)
    | JObject(fields: map<string, Json>)

  datatype Schema =
    | Null | Boolean | Int | Long | Float | Double | String | Bytes
    | Enum(symbols: seq<string>)
    | Fixed(size: nat)
    | Array(items: Schema)
    | Map(values: Schema)
    | Record(fields: seq<Field>)
    | Union(branches: seq<Schema>)
    | Ref(name: string)

  datatype Field = Field(name: string, typ: Schema, hasDefault: bool)

  /** The specification's rules on records and unions: fields have distinct names, a union holds no union. */
  predicate WellFormed(s: Schema)
    decreases s
  {
    match s
    case Array(items) => WellFormed(items)
    case Map(values) => WellFormed(values)
    case Record(fields) =>
      && (forall i :: 0 <= i < |fields| ==> WellFormed(fields[i].typ))
      && (forall i, j :: 0 <= i < j < |fields| ==> fields[i].name != fields[j].name)
    case Union(branches) => forall i :: 0 <= i < |branches| ==> WellFormed(branches[i]) && !branches[i].Union?
    case _ => true
  }

  // ---------------------------------------------- decoding into a json.Number

  predicate Digit(c: char) { '0' <= c <= '9' }

  predicate Digits(s: string) {
    s != "" && forall i :: 0 <= i < |s| ==> Digit(s[i])
  }

  function AfterDigits(s: string): string {
    if s != "" && Digit(s[0]) then AfterDigits(s[1..]) else s
  }

  function AfterSign(s: string, signs: set<char>): string {
    if s != "" && s[0] in signs then s[1..] else s
  }

  /** isValidNumber: a JSON number literal. */
  predicate NumberLiteral(s: string) {
    var whole := AfterSign(s, {'-'});
    && whole != "" && Digit(whole[0])
    && AfterWhole(if whole[0] == '0' then whole[1..] else AfterDigits(whole))
  }

  predicate AfterWhole(s: string) {
    AfterPoint(if |s| >= 2 && s[0] == '.' && Digit(s[1]) then AfterDigits(s[1..]) else s)
  }

  predicate AfterPoint(s: string) {
    if |s| >= 2 && s[0] in {'e', 'E'} then
      var exponent := AfterSign(s[1..], {'+', '-'});
      exponent != "" && AfterDigits(exponent) == ""
    else s == ""
  }

  function Value(digits: string): nat
    requires forall i :: 0 <= i < |digits| ==> Digit(digits[i])
  {
    if digits == "" then 0
    else
      assert Digit(digits[|digits| - 1]);
      10 * Value(digits[..|digits| - 1]) + (digits[|digits| - 1] as int - '0' as int)
  }

  /** Number.Int64: decimal digits with an optional sign, within 64 bits. */
  predicate FitsInt64(s: string) {
    var digits := AfterSign(s, {'+', '-'});
    && Digits(digits)
    && if s[0] == '-' then Value(digits) <= 0x8000_0000_0000_0000 else Value(digits) < 0x8000_0000_0000_0000
  }

  /** A quoted number decodes into a json.Number too. */
  predicate DecodesAsNumber(j: Json) {
    j.JNumber? || (j.JString? && NumberLiteral(j.s))
  }

  predicate DecodesAsInteger(j: Json) {
    || (j.JNumber? && FitsInt64(j.text))
    || (j.JString? && NumberLiteral(j.s) && FitsInt64(j.s))
  }

  // -------------------------------------------------------------- the validator

  predicate Nullable(s: Schema) {
    s.Null? || (s.Union? && Null in s.branches)
  }

  /** validateJSONValueAgainstAvro. Its default branch accepts whatever is not null, for the null type as well. */
  predicate ValueValid(s: Schema, j: Json)
    decreases s, 1
  {
    if j.JNull? then Nullable(s)
    else match s
      case String => j.JString?
      case Int => DecodesAsInteger(j)
      case Long => DecodesAsInteger(j)
      case Float => DecodesAsNumber(j)
      case Double => DecodesAsNumber(j)
      case Boolean => j.JBool?
      case Record(_) => DocumentValid(s, j)
      case Union(branches) => exists i :: 0 <= i < |branches| && ValueValid(branches[i], j)
      case _ => true
  }

  /** validateJSONAgainstAvro: for a record, every field is valid, or absent with a default; null decodes as the
      document without fields. Any JSON will do for another schema. */
  predicate DocumentValid(s: Schema, j: Json)
    decreases s, 0
  {
    s.Record? ==>
      && (j.JObject? || j.JNull?)
      && var doc := if j.JNull? then map[] else j.fields;
         forall i :: 0 <= i < |s.fields| ==> FieldValid(s.fields[i], doc)
  }

  predicate FieldValid(f: Field, doc: map<string, Json>)
    decreases f, 0
  {
    if f.name in doc then ValueValid(f.typ, doc[f.name]) else f.hasDefault
  }

  /** A nullable union is no check at all. */
  lemma NullableTakesAnything(branches: seq<Schema>, j: Json)
    requires Null in branches
    ensures ValueValid(Union(branches), j)
  {
    var i :| 0 <= i < |branches| && branches[i] == Null;
    assert j.JNull? || ValueValid(branches[i], j);
  }
}
