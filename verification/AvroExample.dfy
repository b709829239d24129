/** avro-example.ts: the example payload the UI derives from a schema's JSON, and when the backend accepts it. */
module AvroExample {
  import opened Tables
  import opened Avro

  /** A schema as parsed JSON, reduced to what the generator looks at. Nothing: null or undefined; Scalar: a number or
      a boolean. A missing list is the empty one. */
  datatype Raw =
    | Text(s: string)
    | List(members: seq<Raw>)
    | Object(typ: Raw, symbols: seq<string>, items: Raw, values: Raw, fields: seq<RawField>)
    | Scalar
    | Nothing

  datatype RawField = RawField(name: string, typ: Raw)

  const DeepestLevel: nat := 10

  /** Array.prototype.find(s => s !== 'null'), as an index. */
  function FirstNonNull(members: seq<Raw>): (k: nat)
    ensures k <= |members| && (k < |members| ==> members[k] != Text("null"))
    ensures forall i :: 0 <= i < k ==> members[i] == Text("null")
  {
    if members == [] || members[0] != Text("null") then 0 else 1 + FirstNonNull(members[1..])
  }

  function Typed(name: string): Raw {
    Object(Text(name), [], Nothing, Nothing, [])
  }

  function Normalise(schema: Raw): Raw {
    match schema
    case Text(name) => Typed(name)
    case List(members) =>
      var k := FirstNonNull(members);
      if k < |members| then Normalise(members[k]) else Typed("null")
    case _ => schema
  }

  /** What the type's name yields, for a type without parts. */
  function Leaf(name: string): Json {
    if name == "boolean" then JBool(false)
    else if name == "int" || name == "long" || name == "float" || name == "double" then JNumber("0")
    else if name == "string" || name == "bytes" then JString("")
    else JNull
  }

  /** generateAvroExample; None when it throws, on reading the type of null or undefined. */
  function Generate(schema: Raw, depth: nat): Option<Json>
    decreases DeepestLevel + 1 - depth, 0
  {
    if depth > DeepestLevel then Some(JNull)
    else match Normalise(schema)
      case Object(Text(name), symbols, items, values, fields) =>
        if name == "enum" then Some(JString(if symbols == [] then "" else symbols[0]))
        else if name == "array" then
          (match Generate(items, depth + 1) case None => None case Some(v) => Some(JArray([v])))
        else if name == "map" then
          (match Generate(values, depth + 1) case None => None case Some(v) => Some(JObject(map["key" := v])))
        else if name == "record" then
          (match GenerateFields(fields, depth + 1) case None => None case Some(m) => Some(JObject(m)))
        else Some(Leaf(name))
      case Nothing => None
      case _ => Some(JNull)
  }

  /** The record's loop. Assigning to `__proto__` makes no property. */
  function GenerateFields(fields: seq<RawField>, depth: nat): Option<map<string, Json>>
    decreases DeepestLevel + 1 - depth, 1 + |fields|
  {
    if fields == [] then Some(map[])
    else
      var f := fields[|fields| - 1];
      match GenerateFields(fields[..|fields| - 1], depth)
      case None => None
      case Some(m) =>
        match Generate(f.typ, depth)
        case None => None
        case Some(v) => Some(if f.name == "__proto__" then m else m[f.name := v])
  }

  // ------------------------------------------------- a schema and its JSON form

  const TypeNames: set<string> :=
    {"null", "boolean", "int", "long", "float", "double", "string", "bytes", "enum", "fixed", "array", "map", "record"}

  /** raw names a type without parts, as a string or as an object. */
  predicate Names(raw: Raw, name: string) {
    raw == Text(name) || (raw.Object? && raw.typ == Text(name))
  }

  predicate Denotes(raw: Raw, s: Schema)
    decreases s
  {
    match s
    case Null => Names(raw, "null")
    case Boolean => Names(raw, "boolean")
    case Int => Names(raw, "int")
    case Long => Names(raw, "long")
    case Float => Names(raw, "float")
    case Double => Names(raw, "double")
    case String => Names(raw, "string")
    case Bytes => Names(raw, "bytes")
    case Enum(symbols) => raw.Object? && raw.typ == Text("enum") && raw.symbols == symbols
    case Fixed(_) => raw.Object? && raw.typ == Text("fixed")
    case Array(items) => raw.Object? && raw.typ == Text("array") && Denotes(raw.items, items)
    case Map(values) => raw.Object? && raw.typ == Text("map") && Denotes(raw.values, values)
    case Record(fields) =>
      && raw.Object? && raw.typ == Text("record") && |raw.fields| == |fields|
      && forall i :: 0 <= i < |fields| ==> raw.fields[i].name == fields[i].name && Denotes(raw.fields[i].typ, fields[i].typ)
    case Union(branches) =>
      && raw.List? && |raw.members| == |branches|
      && forall i :: 0 <= i < |branches| ==> Denotes(raw.members[i], branches[i])
    case Ref(name) => raw == Text(name) && name !in TypeNames
  }

  /** Fixed types and references to named ones: the generator knows neither. */
  predicate Unknown(s: Schema) { s.Fixed? || s.Ref? }

  /** The validator looks no further than "not null". */
  predicate Lenient(s: Schema) {
    s.Null? || s.Bytes? || s.Enum? || s.Fixed? || s.Array? || s.Map? || s.Ref?
  }

  // ------------------------------------------- which schemas take which examples

  /** The branch the generator takes, if it takes one: the first not written 'null'. */
  function Pick(raw: Raw, s: Schema): (r: (Raw, Schema))
    requires Denotes(raw, s)
    ensures Denotes(r.0, r.1) && !r.1.Union? && (WellFormed(s) ==> WellFormed(r.1)) && (!s.Union? ==> r == (raw, s))
    decreases s
  {
    if !s.Union? then (raw, s)
    else
      var k := FirstNonNull(raw.members);
      if k < |raw.members| then Pick(raw.members[k], s.branches[k]) else (Typed("null"), Null)
  }

  function Symbol(s: Schema): string
    requires s.Enum?
  {
    if s.symbols == [] then "" else s.symbols[0]
  }

  predicate Numeric(s: Schema) { s.Int? || s.Long? || s.Float? || s.Double? }

  /** The example for s, written as raw and generated at this depth, is a valid value of t. */
  predicate Takes(t: Schema, raw: Raw, s: Schema, depth: nat)
    requires Denotes(raw, s)
    decreases t, 1
  {
    if depth > DeepestLevel then Nullable(t)
    else
      var (r, w) := Pick(raw, s);
      if w.Null? || Unknown(w) then Nullable(t) else TakesFrom(t, r, w, depth)
  }

  /** The same where the example is not null. */
  predicate TakesFrom(t: Schema, r: Raw, w: Schema, depth: nat)
    requires Denotes(r, w)
    decreases t, 0
  {
    match t
    case String => w.String? || w.Bytes? || w.Enum?
    case Boolean => w.Boolean?
    case Int => Numeric(w) || (w.Enum? && DecodesAsInteger(JString(Symbol(w))))
    case Long => Numeric(w) || (w.Enum? && DecodesAsInteger(JString(Symbol(w))))
    case Float => Numeric(w) || (w.Enum? && DecodesAsNumber(JString(Symbol(w))))
    case Double => Numeric(w) || (w.Enum? && DecodesAsNumber(JString(Symbol(w))))
    case Record(fields) => (w.Record? || w.Map?) && forall i :: 0 <= i < |fields| ==> FieldTakes(fields[i], r, w, depth + 1)
    case Union(branches) => exists i :: 0 <= i < |branches| && TakesFrom(branches[i], r, w, depth)
    case _ => true
  }

  /** The example of a map is an object with the one member "key". A record's has every field but `__proto__`. */
  predicate FieldTakes(f: Field, r: Raw, w: Schema, depth: nat)
    requires Denotes(r, w) && (w.Record? || w.Map?)
    decreases f, 0
  {
    if w.Map? then
      if f.name == "key" then Takes(f.typ, r.values, w.values, depth) else f.hasDefault
    else if Has(w, f.name) then
      exists j :: 0 <= j < |w.fields| && w.fields[j].name == f.name && Takes(f.typ, r.fields[j].typ, w.fields[j].typ, depth)
    else f.hasDefault
  }

  predicate Has(w: Schema, name: string)
    requires w.Record?
  {
    name != "__proto__" && exists j :: 0 <= j < |w.fields| && w.fields[j].name == name
  }

  lemma NamedGenerates(raw: Raw, name: string, depth: nat)
    requires Names(raw, name) && depth <= DeepestLevel
    requires name != "enum" && name != "array" && name != "map" && name != "record"
    ensures Generate(raw, depth) == Some(Leaf(name))
  {
  }

  lemma {:induction false} MembersGenerate(raws: seq<RawField>, depth: nat)
    requires forall i :: 0 <= i < |raws| ==> Generate(raws[i].typ, depth).Some?
    requires forall i, j :: 0 <= i < j < |raws| ==> raws[i].name != raws[j].name
    ensures GenerateFields(raws, depth).Some?
    ensures var doc := GenerateFields(raws, depth).value;
      && "__proto__" !in doc
      && (forall k :: k in doc ==> exists i :: 0 <= i < |raws| && raws[i].name == k)
      && (forall i :: 0 <= i < |raws| ==> MemberGenerated(raws[i], doc, depth))
    decreases |raws|
  {
    if raws != [] {
      var n := |raws| - 1;
      MembersGenerate(raws[..n], depth);
      var doc, next := GenerateFields(raws[..n], depth).value, GenerateFields(raws, depth).value;
      forall i | 0 <= i < n ensures MemberGenerated(raws[i], next, depth) {
        assert raws[..n][i] == raws[i] && MemberGenerated(raws[..n][i], doc, depth);
        assert raws[i].name != raws[n].name;
      }
    }
  }

  ghost predicate MemberGenerated(r: RawField, doc: map<string, Json>, depth: nat) {
    r.name != "__proto__" ==> r.name in doc && Generate(r.typ, depth) == Some(doc[r.name])
  }

  lemma ListGenerates(members: seq<Raw>, depth: nat)
    ensures
      var k := FirstNonNull(members);
      Generate(List(members), depth) == if k < |members| then Generate(members[k], depth) else Some(JNull)
  {
  }

  lemma {:induction false} PickGenerates(raw: Raw, s: Schema, depth: nat)
    requires Denotes(raw, s)
    ensures Generate(raw, depth) == Generate(Pick(raw, s).0, depth)
    decreases s
  {
    if s.Union? {
      ListGenerates(raw.members, depth);
      var k := FirstNonNull(raw.members);
      if k < |raw.members| {
        PickGenerates(raw.members[k], s.branches[k], depth);
      }
    }
  }

  /** The generator never throws on a schema. */
  lemma {:induction false} Generates(raw: Raw, s: Schema, depth: nat)
    requires Denotes(raw, s) && WellFormed(s)
    ensures Generate(raw, depth).Some?
    decreases s
  {
    match s
    case Array(items) => Generates(raw.items, items, depth + 1);
    case Map(values) => Generates(raw.values, values, depth + 1);
    case Record(fields) =>
      forall i | 0 <= i < |fields| ensures Generate(raw.fields[i].typ, depth + 1).Some? {
        Generates(raw.fields[i].typ, fields[i].typ, depth + 1);
      }
      MembersGenerate(raw.fields, depth + 1);
    case Union(branches) =>
      ListGenerates(raw.members, depth);
      var k := FirstNonNull(raw.members);
      if k < |branches| {
        Generates(raw.members[k], branches[k], depth);
      }
    case _ =>
  }

  /** What the generator makes of a schema with no parts, at a depth it still looks at. */
  lemma LeafGenerates(r: Raw, w: Schema, depth: nat)
    requires Denotes(r, w) && depth <= DeepestLevel && !w.Union? && !w.Array? && !w.Map? && !w.Record?
    ensures Generate(r, depth) == Some(
      if w.Boolean? then JBool(false) else if Numeric(w) then JNumber("0")
      else if w.String? || w.Bytes? then JString("") else if w.Enum? then JString(Symbol(w)) else JNull)
  {
    match w
    case Enum(_) =>
    case Null => NamedGenerates(r, "null", depth);
    case Boolean => NamedGenerates(r, "boolean", depth);
    case Int => NamedGenerates(r, "int", depth);
    case Long => NamedGenerates(r, "long", depth);
    case Float => NamedGenerates(r, "float", depth);
    case Double => NamedGenerates(r, "double", depth);
    case String => NamedGenerates(r, "string", depth);
    case Bytes => NamedGenerates(r, "bytes", depth);
    case Fixed(_) => NamedGenerates(r, "fixed", depth);
    case Ref(name) => NamedGenerates(r, name, depth);
  }

  /** The members of a generated object. */
  ghost predicate DocOf(doc: map<string, Json>, r: Raw, w: Schema, depth: nat)
    requires Denotes(r, w) && (w.Record? || w.Map?)
  {
    if w.Map? then doc.Keys == {"key"} && Generate(r.values, depth) == Some(doc["key"])
    else
      && (forall name :: name in doc <==> Has(w, name))
      && (forall j :: 0 <= j < |w.fields| ==> MemberGenerated(r.fields[j], doc, depth))
  }

  lemma ObjectGenerates(r: Raw, w: Schema, depth: nat) returns (doc: map<string, Json>)
    requires Denotes(r, w) && WellFormed(w) && depth <= DeepestLevel && (w.Record? || w.Map?)
    ensures Generate(r, depth) == Some(JObject(doc)) && DocOf(doc, r, w, depth + 1)
  {
    Generates(r, w, depth);
    if w.Map? {
      Generates(r.values, w.values, depth + 1);
      doc := map["key" := Generate(r.values, depth + 1).value];
    } else {
      forall j | 0 <= j < |w.fields| ensures Generate(r.fields[j].typ, depth + 1).Some? {
        Generates(r.fields[j].typ, w.fields[j].typ, depth + 1);
      }
      MembersGenerate(r.fields, depth + 1);
      doc := GenerateFields(r.fields, depth + 1).value;
    }
  }

  /** A record field whose name the example has. */
  lemma MemberIff(f: Field, doc: map<string, Json>, r: Raw, w: Schema, depth: nat, j: nat)
    requires Denotes(r, w) && WellFormed(w) && w.Record? && DocOf(doc, r, w, depth)
    requires j < |w.fields| && w.fields[j].name == f.name != "__proto__"
    requires Generate(r.fields[j].typ, depth).Some?
    requires ValueValid(f.typ, Generate(r.fields[j].typ, depth).value) <==> Takes(f.typ, r.fields[j].typ, w.fields[j].typ, depth)
    ensures FieldValid(f, doc) <==> FieldTakes(f, r, w, depth)
  {
    assert Has(w, f.name) && MemberGenerated(r.fields[j], doc, depth);
    assert doc[f.name] == Generate(r.fields[j].typ, depth).value;
    forall k | 0 <= k < |w.fields| && w.fields[k].name == f.name ensures k == j {
      assert k < j || j < k || k == j;
    }
  }

  lemma {:induction false} FieldIff(f: Field, doc: map<string, Json>, r: Raw, w: Schema, depth: nat)
    requires Denotes(r, w) && WellFormed(w) && (w.Record? || w.Map?) && DocOf(doc, r, w, depth)
    ensures FieldValid(f, doc) <==> FieldTakes(f, r, w, depth)
    decreases f, 0
  {
    if w.Map? {
      ValidIffTakes(f.typ, r.values, w.values, depth);
    } else if Has(w, f.name) {
      var j :| 0 <= j < |w.fields| && w.fields[j].name == f.name;
      ValidIffTakes(f.typ, r.fields[j].typ, w.fields[j].typ, depth);
      MemberIff(f, doc, r, w, depth, j);
    }
  }

  lemma RecordIff(t: Schema, doc: map<string, Json>, r: Raw, w: Schema, depth: nat)
    requires Denotes(r, w) && (w.Record? || w.Map?) && t.Record?
    requires forall i :: 0 <= i < |t.fields| ==> (FieldValid(t.fields[i], doc) <==> FieldTakes(t.fields[i], r, w, depth + 1))
    ensures ValueValid(t, JObject(doc)) <==> TakesFrom(t, r, w, depth)
  {
    assert ValueValid(t, JObject(doc)) == DocumentValid(t, JObject(doc));
  }

  lemma UnionIff(t: Schema, v: Json, r: Raw, w: Schema, depth: nat)
    requires Denotes(r, w) && t.Union? && !v.JNull?
    requires forall i :: 0 <= i < |t.branches| ==> (ValueValid(t.branches[i], v) <==> TakesFrom(t.branches[i], r, w, depth))
    ensures ValueValid(t, v) <==> TakesFrom(t, r, w, depth)
  {
  }

  /** A schema that looks at the value itself, or at nothing, and the value of a schema with parts. */
  lemma FlatPartsIff(t: Schema, v: Json, r: Raw, w: Schema, depth: nat)
    requires Denotes(r, w) && !t.Union?
    requires if w.Array? then v.JArray? else (w.Record? || w.Map?) && v.JObject? && !t.Record?
    ensures ValueValid(t, v) <==> TakesFrom(t, r, w, depth)
  {
  }

  lemma FlatLeafIff(t: Schema, r: Raw, w: Schema, depth: nat)
    requires Denotes(r, w) && depth <= DeepestLevel && !w.Union? && !w.Null? && !Unknown(w)
    requires !t.Union? && !w.Record? && !w.Map? && !w.Array?
    ensures Generate(r, depth).Some? && !Generate(r, depth).value.JNull?
    ensures ValueValid(t, Generate(r, depth).value) <==> TakesFrom(t, r, w, depth)
  {
    LeafGenerates(r, w, depth);
  }

  lemma FlatIff(t: Schema, r: Raw, w: Schema, depth: nat)
    requires Denotes(r, w) && WellFormed(w) && depth <= DeepestLevel && !w.Union? && !w.Null? && !Unknown(w)
    requires !t.Union? && (t.Record? ==> !w.Record? && !w.Map?)
    ensures Generate(r, depth).Some? && !Generate(r, depth).value.JNull?
    ensures ValueValid(t, Generate(r, depth).value) <==> TakesFrom(t, r, w, depth)
  {
    if w.Record? || w.Map? {
      var doc := ObjectGenerates(r, w, depth);
      FlatPartsIff(t, JObject(doc), r, w, depth);
    } else if w.Array? {
      Generates(r.items, w.items, depth + 1);
      FlatPartsIff(t, Generate(r, depth).value, r, w, depth);
    } else {
      FlatLeafIff(t, r, w, depth);
    }
  }

  lemma {:induction false} ValidIffTakesFrom(t: Schema, r: Raw, w: Schema, depth: nat)
    requires Denotes(r, w) && WellFormed(w) && depth <= DeepestLevel && !w.Union? && !w.Null? && !Unknown(w)
    ensures Generate(r, depth).Some? && !Generate(r, depth).value.JNull?
    ensures ValueValid(t, Generate(r, depth).value) <==> TakesFrom(t, r, w, depth)
    decreases t, 0
  {
    FlatIff(Bytes, r, w, depth);
    if t.Union? {
      var v := Generate(r, depth).value;
      forall i | 0 <= i < |t.branches| ensures ValueValid(t.branches[i], v) <==> TakesFrom(t.branches[i], r, w, depth) {
        ValidIffTakesFrom(t.branches[i], r, w, depth);
      }
      UnionIff(t, v, r, w, depth);
    } else if t.Record? && (w.Record? || w.Map?) {
      var doc := ObjectGenerates(r, w, depth);
      forall i | 0 <= i < |t.fields| ensures FieldValid(t.fields[i], doc) <==> FieldTakes(t.fields[i], r, w, depth + 1) {
        FieldIff(t.fields[i], doc, r, w, depth + 1);
      }
      RecordIff(t, doc, r, w, depth);
    } else {
      FlatIff(t, r, w, depth);
    }
  }

  /** Where the example is null. */
  lemma NullIff(t: Schema, raw: Raw, s: Schema, depth: nat)
    requires Denotes(raw, s)
    requires depth > DeepestLevel || Pick(raw, s).1.Null? || Unknown(Pick(raw, s).1)
    ensures Generate(raw, depth) == Some(JNull)
    ensures ValueValid(t, JNull) <==> Takes(t, raw, s, depth)
  {
    if depth <= DeepestLevel {
      PickGenerates(raw, s, depth);
      LeafGenerates(Pick(raw, s).0, Pick(raw, s).1, depth);
    }
  }

  /** One schema's example against another schema: the validator accepts it exactly when the two fit together. */
  lemma {:induction false} ValidIffTakes(t: Schema, raw: Raw, s: Schema, depth: nat)
    requires Denotes(raw, s) && WellFormed(s)
    ensures Generate(raw, depth).Some?
    ensures ValueValid(t, Generate(raw, depth).value) <==> Takes(t, raw, s, depth)
    decreases t, 1
  {
    Generates(raw, s, depth);
    var (r, w) := Pick(raw, s);
    if depth > DeepestLevel || w.Null? || Unknown(w) {
      NullIff(t, raw, s, depth);
    } else {
      PickGenerates(raw, s, depth);
      ValidIffTakesFrom(t, r, w, depth);
    }
  }

  predicate DocumentTakes(raw: Raw, s: Schema)
    requires Denotes(raw, s)
  {
    s.Record? ==> Takes(s, raw, s, 0)
  }

  /** Exactly when the backend accepts the example the UI shows for a schema. */
  lemma AcceptedIffTakes(raw: Raw, s: Schema)
    requires Denotes(raw, s) && WellFormed(s)
    ensures Generate(raw, 0).Some?
    ensures DocumentValid(s, Generate(raw, 0).value) <==> DocumentTakes(raw, s)
  {
    ValidIffTakes(s, raw, s, 0);
    if s.Record? {
      var doc := ObjectGenerates(raw, s, 0);
    }
  }

  // ---------------------------------------------------- a condition on one schema

  /** The example for s, generated at this depth, is a valid value of s. */
  predicate Fits(s: Schema, depth: nat)
    decreases s
  {
    if depth > DeepestLevel then Nullable(s)
    else match s
      case Record(fields) => forall i :: 0 <= i < |fields| ==> FieldFits(fields[i], depth + 1)
      case Union(branches) =>
        || Null in branches
        || (branches != [] && !Unknown(branches[0])
            && (branches[0].Record? ==> Fits(branches[0], depth) || exists i :: 0 <= i < |branches| && Lenient(branches[i])))
      case _ => !Unknown(s)
  }

  /** A field called `__proto__` never makes it into the example. */
  predicate FieldFits(f: Field, depth: nat)
    decreases f
  {
    if f.name == "__proto__" then f.hasDefault else Fits(f.typ, depth)
  }

  /** A union has at most one record. */
  predicate OneRecordPerUnion(s: Schema)
    decreases s
  {
    match s
    case Record(fields) => forall i :: 0 <= i < |fields| ==> OneRecordPerUnion(fields[i].typ)
    case Union(branches) =>
      && (forall i :: 0 <= i < |branches| ==> OneRecordPerUnion(branches[i]))
      && (forall i, j :: 0 <= i < j < |branches| ==> !(branches[i].Record? && branches[j].Record?))
    case _ => true
  }

  predicate DocumentFits(s: Schema) {
    s.Record? ==> Fits(s, 0)
  }

  /** A record's own field is judged alike. */
  ghost predicate FieldAlike(raw: Raw, s: Schema, i: nat, depth: nat)
    requires s.Record? && Denotes(raw, s) && i < |s.fields|
  {
    && (FieldFits(s.fields[i], depth + 1) ==> FieldTakes(s.fields[i], raw, s, depth + 1))
    && (OneRecordPerUnion(s.fields[i].typ) && FieldTakes(s.fields[i], raw, s, depth + 1) ==> FieldFits(s.fields[i], depth + 1))
  }

  lemma OwnField(raw: Raw, s: Schema, i: nat, depth: nat)
    requires s.Record? && Denotes(raw, s) && WellFormed(s) && i < |s.fields|
    ensures FieldTakes(s.fields[i], raw, s, depth) <==>
              if s.fields[i].name == "__proto__" then s.fields[i].hasDefault
              else Takes(s.fields[i].typ, raw.fields[i].typ, s.fields[i].typ, depth)
  {
    forall j | 0 <= j < |s.fields| && s.fields[j].name == s.fields[i].name ensures j == i {
      assert j < i || i < j || i == j;
    }
    assert s.fields[i].name != "__proto__" ==> Has(s, s.fields[i].name);
  }

  lemma RecordFits(raw: Raw, s: Schema, depth: nat)
    requires s.Record? && Denotes(raw, s) && depth <= DeepestLevel
    requires forall i :: 0 <= i < |s.fields| ==> FieldAlike(raw, s, i, depth)
    ensures Fits(s, depth) ==> Takes(s, raw, s, depth)
    ensures OneRecordPerUnion(s) && Takes(s, raw, s, depth) ==> Fits(s, depth)
  {
    assert Takes(s, raw, s, depth) == TakesFrom(s, raw, s, depth);
    forall i | 0 <= i < |s.fields|
      ensures FieldFits(s.fields[i], depth + 1) ==> FieldTakes(s.fields[i], raw, s, depth + 1)
      ensures OneRecordPerUnion(s) && FieldTakes(s.fields[i], raw, s, depth + 1) ==> FieldFits(s.fields[i], depth + 1)
    {
      assert FieldAlike(raw, s, i, depth);
    }
  }

  lemma {:induction false} FitsIffTakes(raw: Raw, s: Schema, depth: nat)
    requires Denotes(raw, s) && WellFormed(s)
    ensures Fits(s, depth) ==> Takes(s, raw, s, depth)
    ensures OneRecordPerUnion(s) && Takes(s, raw, s, depth) ==> Fits(s, depth)
    decreases s, 1
  {
    if depth <= DeepestLevel {
      if s.Record? {
        FieldsAlike(raw, s, depth);
        RecordFits(raw, s, depth);
      } else if s.Union? && Null !in s.branches && s.branches != [] {
        FitsIffTakes(raw.members[0], s.branches[0], depth);
        FirstBranch(raw, s);
        FirstDecides(raw, s, depth);
      } else if s.Union? && Null in s.branches {
        NullableTakes(raw, s, depth);
      }
    }
  }

  lemma {:induction false} FieldsAlike(raw: Raw, s: Schema, depth: nat)
    requires s.Record? && Denotes(raw, s) && WellFormed(s) && depth <= DeepestLevel
    ensures forall i :: 0 <= i < |s.fields| ==> FieldAlike(raw, s, i, depth)
    decreases s, 0
  {
    forall i | 0 <= i < |s.fields| ensures FieldAlike(raw, s, i, depth) {
      FitsIffTakes(raw.fields[i].typ, s.fields[i].typ, depth + 1);
      OwnField(raw, s, i, depth + 1);
    }
  }

  lemma NullableTakes(raw: Raw, s: Schema, depth: nat)
    requires s.Union? && Denotes(raw, s) && Null in s.branches && depth <= DeepestLevel
    ensures Takes(s, raw, s, depth)
  {
    var (r, w) := Pick(raw, s);
    var i :| 0 <= i < |s.branches| && s.branches[i] == Null;
    assert TakesFrom(s.branches[i], r, w, depth);
  }

  /** Without a null branch the generator takes the first one. */
  lemma FirstBranch(raw: Raw, s: Schema)
    requires s.Union? && Denotes(raw, s) && WellFormed(s) && Null !in s.branches && s.branches != []
    ensures Pick(raw, s) == (raw.members[0], s.branches[0])
  {
    assert Denotes(raw.members[0], s.branches[0]) && s.branches[0] in s.branches;
    assert FirstNonNull(raw.members) == 0;
  }

  /** Another branch takes the first one's example only if it takes anything, or is a record. */
  lemma FirstDecides(raw: Raw, s: Schema, depth: nat)
    requires s.Union? && Denotes(raw, s) && WellFormed(s) && Null !in s.branches && s.branches != [] && depth <= DeepestLevel
    requires Pick(raw, s) == (raw.members[0], s.branches[0])
    requires Fits(s.branches[0], depth) ==> Takes(s.branches[0], raw.members[0], s.branches[0], depth)
    requires OneRecordPerUnion(s.branches[0]) && Takes(s.branches[0], raw.members[0], s.branches[0], depth) ==>
               Fits(s.branches[0], depth)
    ensures Fits(s, depth) ==> Takes(s, raw, s, depth)
    ensures OneRecordPerUnion(s) && Takes(s, raw, s, depth) ==> Fits(s, depth)
  {
    var (r, w) := (raw.members[0], s.branches[0]);
    assert w in s.branches && !w.Null? && !w.Union?;
    if !Unknown(w) {
      assert Takes(w, r, w, depth) == TakesFrom(w, r, w, depth);
      forall i | 0 <= i < |s.branches| && Lenient(s.branches[i]) ensures TakesFrom(s.branches[i], r, w, depth) {}
      if w.Record? {
        if OneRecordPerUnion(s) && Takes(s, raw, s, depth) {
          assert Takes(s, raw, s, depth) == TakesFrom(s, r, w, depth);
          var i :| 0 <= i < |s.branches| && TakesFrom(s.branches[i], r, w, depth);
          assert !s.branches[i].Union? && OneRecordPerUnion(s.branches[0]);
          assert i == 0 || !s.branches[i].Record?;
          assert i == 0 || Lenient(s.branches[i]);
        }
      } else {
        assert Fits(w, depth);
      }
    }
  }

  /** A fitting schema's example is accepted; where no union has two records, only a fitting schema's is. */
  lemma AcceptedIfFits(raw: Raw, s: Schema)
    requires Denotes(raw, s) && WellFormed(s)
    ensures Generate(raw, 0).Some?
    ensures DocumentFits(s) ==> DocumentValid(s, Generate(raw, 0).value)
    ensures OneRecordPerUnion(s) && DocumentValid(s, Generate(raw, 0).value) ==> DocumentFits(s)
  {
    FitsIffTakes(raw, s, 0);
    AcceptedIffTakes(raw, s);
  }

  // ------------------------------------------------------- the promised schemas

  function Max(a: nat, b: nat): nat { if a > b then a else b }

  /** How deep records are nested in fields and unions. */
  function Nesting(s: Schema): nat
    decreases s, 0
  {
    match s
    case Record(fields) => 1 + FieldsNesting(s, |fields|)
    case Union(branches) => BranchesNesting(s, |branches|)
    case _ => 0
  }

  function FieldsNesting(s: Schema, n: nat): (d: nat)
    requires s.Record? && n <= |s.fields|
    ensures forall i :: 0 <= i < n ==> Nesting(s.fields[i].typ) <= d
    decreases s, 0, n
  {
    if n == 0 then 0 else Max(FieldsNesting(s, n - 1), Nesting(s.fields[n - 1].typ))
  }

  function BranchesNesting(s: Schema, n: nat): (d: nat)
    requires s.Union? && n <= |s.branches|
    ensures forall i :: 0 <= i < n ==> Nesting(s.branches[i]) <= d
    decreases s, 0, n
  {
    if n == 0 then 0 else Max(BranchesNesting(s, n - 1), Nesting(s.branches[n - 1]))
  }

  /** No named references, no fixed, no empty union, no required field called `__proto__`. */
  predicate Promised(s: Schema)
    decreases s
  {
    match s
    case Array(items) => Promised(items)
    case Map(values) => Promised(values)
    case Record(fields) =>
      forall i :: 0 <= i < |fields| ==> Promised(fields[i].typ) && (fields[i].name == "__proto__" ==> fields[i].hasDefault)
    case Union(branches) => branches != [] && forall i :: 0 <= i < |branches| ==> Promised(branches[i])
    case _ => !Unknown(s)
  }

  lemma {:induction false} PromisedFits(s: Schema, depth: nat)
    requires Promised(s) && depth + Nesting(s) <= DeepestLevel
    ensures Fits(s, depth)
    decreases s
  {
    match s
    case Record(fields) =>
      forall i | 0 <= i < |fields| ensures FieldFits(fields[i], depth + 1) {
        assert Nesting(fields[i].typ) <= FieldsNesting(s, |fields|);
        PromisedFits(fields[i].typ, depth + 1);
      }
    case Union(branches) =>
      assert Nesting(branches[0]) <= BranchesNesting(s, |branches|);
      PromisedFits(branches[0], depth);
    case _ =>
  }

  /** With records nested no deeper than ten, the example for every promised schema is accepted. */
  lemma ExamplesAreAccepted(raw: Raw, s: Schema)
    requires Denotes(raw, s) && WellFormed(s) && Promised(s) && Nesting(s) <= 10
    ensures Generate(raw, 0).Some? && DocumentValid(s, Generate(raw, 0).value)
  {
    PromisedFits(s, 0);
    AcceptedIfFits(raw, s);
  }

  // ------------------------------------------------------------------ the limits

  /** n records, one inside the other, around an int. */
  function Chain(n: nat): Schema {
    if n == 0 then Int else Record([Field("f", Chain(n - 1), false)])
  }

  function RawChain(n: nat): Raw {
    if n == 0 then Text("int") else Object(Text("record"), [], Nothing, Nothing, [RawField("f", RawChain(n - 1))])
  }

  lemma {:induction false} ChainFits(n: nat, depth: nat)
    ensures Denotes(RawChain(n), Chain(n)) && WellFormed(Chain(n)) && OneRecordPerUnion(Chain(n))
    ensures Fits(Chain(n), depth) <==> depth + n <= DeepestLevel
    decreases n
  {
    if n > 0 {
      ChainFits(n - 1, depth + 1);
      var s := Chain(n);
      assert s.fields[0].typ == Chain(n - 1);
      assert FieldFits(s.fields[0], depth + 1) == Fits(Chain(n - 1), depth + 1);
    }
  }

  /** Ten nested records are the most. */
  lemma TenRecordsDeep(n: nat)
    ensures Generate(RawChain(n), 0).Some?
    ensures DocumentValid(Chain(n), Generate(RawChain(n), 0).value) <==> n <= 10
  {
    ChainFits(n, 0);
    AcceptedIfFits(RawChain(n), Chain(n));
  }

  /** A required field called `__proto__` is missing from its own example. */
  lemma ProtoIsLost(typ: Raw, s: Schema)
    requires Denotes(typ, s) && WellFormed(s)
    ensures
      var raw := Object(Text("record"), [], Nothing, Nothing, [RawField("__proto__", typ)]);
      Generate(raw, 0).Some? && !DocumentValid(Record([Field("__proto__", s, false)]), Generate(raw, 0).value)
  {
    var raw := Object(Text("record"), [], Nothing, Nothing, [RawField("__proto__", typ)]);
    var record := Record([Field("__proto__", s, false)]);
    assert Denotes(raw, record) && WellFormed(record);
    AcceptedIffTakes(raw, record);
    assert !FieldTakes(record.fields[0], raw, record, 1);
  }
}
