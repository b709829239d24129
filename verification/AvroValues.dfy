/** The values of an Avro schema, their JSON form, and what of it the structural check lets through. */
module AvroValues {
  import opened Avro

  datatype Datum =
    | Absent
    | Truth(b: bool)
    | Whole(n: int)
    | Real(text: string)
    | Characters(s: string)
    | Octets(s: string)
    | Symbol(s: string)
    | Items(items: seq<Datum>)
    | Entries(entries: map<string, Datum>)
    | Fields(fields: map<string, Datum>)
    | Chosen(branch: nat, value: Datum)

  /** v is a value of s. What a reference refers to is not looked up: a record, an enum or a fixed type. */
  ghost predicate Typed(s: Schema, v: Datum)
    decreases s, v
  {
    match s
    case Null => v.Absent?
    case Boolean => v.Truth?
    case Int => v.Whole? && -0x8000_0000 <= v.n < 0x8000_0000
    case Long => v.Whole? && Int64(v.n)
    case Float => v.Real? && Literal(v.text)
    case Double => v.Real? && Literal(v.text)
    case String => v.Characters?
    case Bytes => v.Octets?
    case Fixed(size) => v.Octets? && |v.s| == size
    case Enum(symbols) => v.Symbol? && v.s in symbols
    case Array(items) => v.Items? && forall i :: 0 <= i < |v.items| ==> Typed(items, v.items[i])
    case Map(values) => v.Entries? && forall k :: k in v.entries ==> Typed(values, v.entries[k])
    case Record(fields) => v.Fields? && forall i :: 0 <= i < |fields| ==> FieldTyped(fields[i], v.fields)
    case Union(branches) => v.Chosen? && v.branch < |branches| && Typed(branches[v.branch], v.value)
    case Ref(_) => v.Fields? || v.Symbol? || v.Octets?
  }

  predicate Int64(n: int) {
    -0x8000_0000_0000_0000 <= n < 0x8000_0000_0000_0000
  }

  ghost predicate FieldTyped(f: Field, members: map<string, Datum>)
    decreases f
  {
    if f.name in members then Typed(f.typ, members[f.name]) else f.hasDefault
  }

  function Encode(v: Datum): Json {
    match v
    case Absent => JNull
    case Truth(b) => JBool(b)
    case Whole(n) => JNumber(Decimal(n))
    case Real(text) => JNumber(text)
    case Characters(s) => JString(s)
    case Octets(s) => JString(s)
    case Symbol(s) => JString(s)
    case Items(items) => JArray(seq(|items|, i requires 0 <= i < |items| => Encode(items[i])))
    case Entries(entries) => JObject(map k | k in entries :: Encode(entries[k]))
    case Fields(fields) => JObject(map k | k in fields :: Encode(fields[k]))
    case Chosen(_, value) => Encode(value)
  }

  // ------------------------------------------------------------- number literals

  /** "Numbers" of RFC 8259, section 6: a sign, an integer part, a fraction and an exponent. */
  predicate IntegerPart(s: string) {
    Digits(s) && (s == "0" || s[0] != '0')
  }

  predicate Fraction(s: string) {
    s == "" || (s[0] == '.' && Digits(s[1..]))
  }

  predicate Exponent(s: string) {
    s == "" || (s[0] in {'e', 'E'} && (Digits(s[1..]) || (|s| >= 2 && s[1] in {'+', '-'} && Digits(s[2..]))))
  }

  predicate LiteralOf(s: string, sign: string, whole: string, fraction: string, exponent: string) {
    s == sign + (whole + (fraction + exponent)) && sign in {"", "-"} && IntegerPart(whole) && Fraction(fraction) && Exponent(exponent)
  }

  ghost predicate Literal(s: string) {
    exists sign, whole, fraction, exponent :: LiteralOf(s, sign, whole, fraction, exponent)
  }

  lemma {:induction false} DigitsStop(s: string)
    ensures
      var r := AfterDigits(s);
      && |r| <= |s| && s[|s| - |r|..] == r && (r == "" || !Digit(r[0]))
      && forall i :: 0 <= i < |s| - |r| ==> Digit(s[i])
    decreases |s|
  {
    if s != "" && Digit(s[0]) {
      DigitsStop(s[1..]);
      assert forall i :: 0 < i < |s| ==> s[i] == s[1..][i - 1];
    }
  }

  lemma {:induction false} DigitsPass(digits: string, rest: string)
    requires (forall i :: 0 <= i < |digits| ==> Digit(digits[i])) && (rest == "" || !Digit(rest[0]))
    ensures AfterDigits(digits + rest) == rest
    decreases |digits|
  {
    if digits == "" {
      assert digits + rest == rest;
    } else {
      DigitsPass(digits[1..], rest);
      assert (digits + rest)[1..] == digits[1..] + rest;
    }
  }

  lemma ExponentIff(s: string)
    ensures AfterPoint(s) <==> Exponent(s)
  {
    if |s| >= 2 && s[0] in {'e', 'E'} {
      var power := AfterSign(s[1..], {'+', '-'});
      DigitsStop(power);
      if Digits(power) {
        DigitsPass(power, "");
        assert power + "" == power;
      }
      assert s[2..] == s[1..][1..];
    }
  }

  lemma PointSplits(s: string) returns (fraction: string, exponent: string)
    requires AfterWhole(s)
    ensures s == fraction + exponent && Fraction(fraction) && Exponent(exponent)
  {
    if |s| >= 2 && s[0] == '.' && Digit(s[1]) {
      DigitsStop(s[1..]);
      exponent := AfterDigits(s[1..]);
      fraction := s[..|s| - |exponent|];
      assert fraction[1..] == s[1..][..|s| - 1 - |exponent|];
    } else {
      fraction, exponent := "", s;
    }
    ExponentIff(exponent);
  }

  lemma PointJoins(fraction: string, exponent: string)
    requires Fraction(fraction) && Exponent(exponent)
    ensures AfterWhole(fraction + exponent)
  {
    var s := fraction + exponent;
    if fraction == "" {
      assert s == exponent;
    } else {
      assert s[1..] == fraction[1..] + exponent;
      DigitsPass(fraction[1..], exponent);
    }
    ExponentIff(exponent);
  }

  lemma WholeSplits(s: string) returns (whole: string, rest: string)
    requires s != "" && Digit(s[0])
    ensures s == whole + rest && IntegerPart(whole)
    ensures rest == if s[0] == '0' then s[1..] else AfterDigits(s)
  {
    DigitsStop(s);
    rest := if s[0] == '0' then s[1..] else AfterDigits(s);
    whole := s[..|s| - |rest|];
    assert whole[0] == s[0];
  }

  lemma LiteralSplits(s: string)
    requires NumberLiteral(s)
    ensures Literal(s)
  {
    var unsigned := AfterSign(s, {'-'});
    var sign := if unsigned == s then "" else "-";
    var whole, rest := WholeSplits(unsigned);
    var fraction, exponent := PointSplits(rest);
    assert s == sign + unsigned;
    assert LiteralOf(s, sign, whole, fraction, exponent);
  }

  lemma LiteralJoins(s: string, sign: string, whole: string, fraction: string, exponent: string)
    requires LiteralOf(s, sign, whole, fraction, exponent)
    ensures NumberLiteral(s)
  {
    var rest := fraction + exponent;
    assert AfterSign(s, {'-'}) == whole + rest;
    assert (whole + rest)[0] == whole[0];
    if whole == "0" {
      assert (whole + rest)[1..] == rest;
    } else {
      DigitsPass(whole, rest);
    }
    PointJoins(fraction, exponent);
  }

  /** The scan accepts exactly the grammar. */
  lemma LiteralIff(s: string)
    ensures NumberLiteral(s) <==> Literal(s)
  {
    if NumberLiteral(s) {
      LiteralSplits(s);
    }
    if Literal(s) {
      var sign, whole, fraction, exponent :| LiteralOf(s, sign, whole, fraction, exponent);
      LiteralJoins(s, sign, whole, fraction, exponent);
    }
  }

  // ------------------------------------------------------------------- integers

  function DigitOf(d: nat): char
    requires d < 10
  {
    ('0' as int + d) as char
  }

  function Decimals(n: nat): string {
    if n < 10 then [DigitOf(n)] else Decimals(n / 10) + [DigitOf(n % 10)]
  }

  /** The decimal notation of n. */
  function Decimal(n: int): string {
    if n < 0 then "-" + Decimals(-n) else Decimals(n)
  }

  lemma {:induction false} DecimalsValue(n: nat)
    ensures Digits(Decimals(n)) && Value(Decimals(n)) == n
    ensures Decimals(n)[0] == '0' ==> n == 0
    decreases n
  {
    var s := Decimals(n);
    if n >= 10 {
      DecimalsValue(n / 10);
      assert s[..|s| - 1] == Decimals(n / 10);
      assert forall i :: 0 <= i < |s| - 1 ==> s[i] == Decimals(n / 10)[i];
    } else {
      assert s[..0] == "";
    }
  }

  /** Notation within 64 bits is an integer to the check, and no other is. */
  lemma DecimalFits(n: int)
    ensures FitsInt64(Decimal(n)) <==> Int64(n)
  {
    DecimalsValue(if n < 0 then -n else n);
    if n < 0 {
      assert Decimal(n)[1..] == Decimals(-n);
    } else {
      assert Digit(Decimals(n)[0]);
    }
  }

  /** A string of digits without a leading zero is the notation of its value. */
  lemma {:induction false} ValueDecimals(s: string)
    requires IntegerPart(s)
    ensures Decimals(Value(s)) == s
    ensures s != "0" ==> Value(s) > 0
    decreases |s|
  {
    var init, last := s[..|s| - 1], s[|s| - 1];
    LastDigit(s);
    if init == "" {
      assert s == [last] && Value(init) == 0;
    } else {
      assert init[0] == s[0] && IntegerPart(init);
      ValueDecimals(init);
      OneMoreDigit(Value(init), last as int - '0' as int);
    }
  }

  lemma LastDigit(s: string)
    requires Digits(s)
    ensures
      var init, last := s[..|s| - 1], s[|s| - 1];
      && s == init + [last] && Digit(last) && DigitOf(last as int - '0' as int) == last
      && (forall i :: 0 <= i < |init| ==> Digit(init[i]))
      && Value(s) == 10 * Value(init) + (last as int - '0' as int)
  {
    assert Digit(s[|s| - 1]);
  }

  lemma OneMoreDigit(n: nat, d: nat)
    requires n > 0 && d < 10
    ensures Decimals(10 * n + d) == Decimals(n) + [DigitOf(d)]
  {
    assert (10 * n + d) / 10 == n && (10 * n + d) % 10 == d;
  }

  lemma StartsNoDigit(fraction: string, exponent: string)
    requires Fraction(fraction) && Exponent(exponent) && fraction + exponent != ""
    ensures !Digit((fraction + exponent)[0])
  {
  }

  lemma DigitsThrough(whole: string, tail: string)
    requires Digits(whole + tail) && tail != ""
    ensures Digit(tail[0])
  {
    assert (whole + tail)[|whole|] == tail[0];
  }

  lemma TailIsNoDigit(whole: string, fraction: string, exponent: string)
    requires Fraction(fraction) && Exponent(exponent) && Digits(whole + (fraction + exponent))
    ensures whole + (fraction + exponent) == whole
  {
    if fraction + exponent != "" {
      DigitsThrough(whole, fraction + exponent);
      StartsNoDigit(fraction, exponent);
      assert false;
    }
  }

  /** A literal that reads as an integer has only a sign and an integer part. */
  lemma IntegerLiteral(text: string)
    requires Literal(text) && FitsInt64(text)
    ensures
      var digits := AfterSign(text, {'+', '-'});
      (text == digits || text == "-" + digits) && IntegerPart(digits)
  {
    var sign, whole, fraction, exponent :| LiteralOf(text, sign, whole, fraction, exponent);
    var unsigned := whole + (fraction + exponent);
    assert unsigned[0] == whole[0] && Digit(whole[0]);
    assert AfterSign(text, {'+', '-'}) == unsigned;
    TailIsNoDigit(whole, fraction, exponent);
  }

  lemma IntegerIsNotation(text: string)
    requires Literal(text) && FitsInt64(text)
    ensures text == "-0" || exists n :: Int64(n) && text == Decimal(n)
  {
    IntegerLiteral(text);
    var digits := AfterSign(text, {'+', '-'});
    ValueDecimals(digits);
    if text != "-0" {
      var n: int := if text == digits then Value(digits) else 0 - Value(digits);
      assert Int64(n) && text == Decimal(n);
    }
  }

  /** What the check takes for an integer: of the JSON numbers, the notation of those within 64 bits, and minus zero. */
  lemma IntegersExactly(text: string)
    requires Literal(text)
    ensures FitsInt64(text) <==> text == "-0" || exists n :: Int64(n) && text == Decimal(n)
  {
    if FitsInt64(text) {
      IntegerIsNotation(text);
    }
    if text == "-0" {
      assert text[1..] == "0" && "0"[..0] == "";
      assert Value("0") == 0;
    }
    if n :| Int64(n) && text == Decimal(n) {
      DecimalFits(n);
    }
  }

  // ---------------------------------------------------------------- what is accepted

  /** The JSON form of a value of s is valid for s; it is null only where s is the null type, or a union with it. */
  lemma {:induction false} EncodingIsValid(s: Schema, v: Datum)
    requires WellFormed(s) && Typed(s, v)
    ensures ValueValid(s, Encode(v))
    ensures Encode(v).JNull? && !s.Union? ==> s.Null?
    decreases s
  {
    match s
    case Int => DecimalFits(v.n);
    case Long => DecimalFits(v.n);
    case Record(fields) =>
      var doc := Encode(v).fields;
      forall i | 0 <= i < |fields| ensures FieldValid(fields[i], doc) {
        assert FieldTyped(fields[i], v.fields);
        if fields[i].name in v.fields {
          EncodingIsValid(fields[i].typ, v.fields[fields[i].name]);
        }
      }
      assert DocumentValid(s, Encode(v));
    case Union(branches) =>
      EncodingIsValid(branches[v.branch], v.value);
      assert Encode(v) == Encode(v.value);
    case _ =>
  }

  /** Every document that encodes a value of its schema is accepted. */
  lemma EncodingsAccepted(s: Schema, v: Datum)
    requires WellFormed(s) && Typed(s, v)
    ensures DocumentValid(s, Encode(v))
  {
    EncodingIsValid(s, v);
  }

  /** Text that reads as an integer of 64 bits. */
  ghost predicate IntegerText(text: string) {
    Literal(text) && (text == "-0" || exists n :: Int64(n) && text == Decimal(n))
  }

  /** A field is there with a valid value, or is not there and has a default. */
  ghost predicate FieldAccepted(f: Field, doc: map<string, Json>) {
    (f.name in doc && ValueValid(f.typ, doc[f.name])) || (f.name !in doc && f.hasDefault)
  }

  /** The JSON each type takes, and so what it refuses. Quoted numbers pass for numbers; bytes, enums, fixed types,
      arrays, maps and references are not looked into. */
  lemma KindsAccepted(s: Schema, j: Json)
    requires j.JNumber? ==> Literal(j.text)
    ensures j.JNull? ==> (ValueValid(s, j) <==> s.Null? || (s.Union? && Null in s.branches))
    ensures s.Boolean? ==> (ValueValid(s, j) <==> j.JBool?)
    ensures s.String? ==> (ValueValid(s, j) <==> j.JString?)
    ensures s.Int? || s.Long? ==>
      (ValueValid(s, j) <==> (j.JNumber? && IntegerText(j.text)) || (j.JString? && IntegerText(j.s)))
    ensures s.Float? || s.Double? ==> (ValueValid(s, j) <==> j.JNumber? || (j.JString? && Literal(j.s)))
    ensures s.Record? ==>
      (ValueValid(s, j) <==> j.JObject? && forall i :: 0 <= i < |s.fields| ==> FieldAccepted(s.fields[i], j.fields))
    ensures s.Union? && !j.JNull? ==> (ValueValid(s, j) <==> exists b :: b in s.branches && ValueValid(b, j))
    ensures (s.Bytes? || s.Enum? || s.Fixed? || s.Array? || s.Map? || s.Ref? || s.Null?) && !j.JNull? ==> ValueValid(s, j)
  {
    if j.JNumber? {
      IntegersExactly(j.text);
    } else if j.JString? {
      LiteralIff(j.s);
      if Literal(j.s) {
        IntegersExactly(j.s);
      }
    }
    if s.Record? && j.JObject? {
      RecordAccepted(s, j);
    } else if s.Union? && !j.JNull? {
      UnionAccepted(s, j);
    }
  }

  lemma UnionAccepted(s: Schema, j: Json)
    requires s.Union? && !j.JNull?
    ensures ValueValid(s, j) <==> exists b :: b in s.branches && ValueValid(b, j)
  {
    if ValueValid(s, j) {
      var i :| 0 <= i < |s.branches| && ValueValid(s.branches[i], j);
      assert s.branches[i] in s.branches;
    }
    if b :| b in s.branches && ValueValid(b, j) {
      var i :| 0 <= i < |s.branches| && s.branches[i] == b;
    }
  }

  lemma RecordAccepted(s: Schema, j: Json)
    requires s.Record? && j.JObject?
    ensures ValueValid(s, j) <==> forall i :: 0 <= i < |s.fields| ==> FieldAccepted(s.fields[i], j.fields)
  {
    assert ValueValid(s, j) == DocumentValid(s, j);
    forall i | 0 <= i < |s.fields| ensures FieldValid(s.fields[i], j.fields) <==> FieldAccepted(s.fields[i], j.fields) {
    }
  }

  /** A document of a record type: an object as above, or null, which stands for one without fields. Any JSON will do
      for another type. */
  lemma DocumentsAccepted(s: Schema, j: Json)
    ensures !s.Record? ==> DocumentValid(s, j)
    ensures s.Record? && j.JObject? ==>
      (DocumentValid(s, j) <==> forall i :: 0 <= i < |s.fields| ==> FieldAccepted(s.fields[i], j.fields))
    ensures s.Record? && j.JNull? ==> (DocumentValid(s, j) <==> forall i :: 0 <= i < |s.fields| ==> s.fields[i].hasDefault)
    ensures s.Record? && !j.JObject? && !j.JNull? ==> !DocumentValid(s, j)
  {
    if s.Record? && j.JObject? {
      RecordAccepted(s, j);
      assert ValueValid(s, j) == DocumentValid(s, j);
    }
    if s.Record? && j.JNull? {
      forall i | 0 <= i < |s.fields| ensures FieldValid(s.fields[i], map[]) == s.fields[i].hasDefault {
      }
    }
  }
}
