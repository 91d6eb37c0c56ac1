/**
  The JSON the access token needs: a flat object of plain strings and
  integers. `ParseObject` refuses everything else, which JSON.parse may accept.
 */
module Json {
  import opened Prelude
  import opened Decimal

  datatype Value = Text(text: string) | Number(number: int)

  datatype Field = Field(name: string, value: Value)

  /** Printable ASCII that needs no escape. */
  predicate IsPlain(c: char) {
    ' ' <= c <= '~' && c != '"' && c != '\\'
  }

  predicate IsPlainText(s: string) {
    forall i :: 0 <= i < |s| ==> IsPlain(s[i])
  }

  predicate IsPlainField(f: Field) {
    IsPlainText(f.name) && (f.value.Text? ==> IsPlainText(f.value.text))
  }

  // ----- Printing -----------------------------------------------------------------------------------

  function PrintText(s: string): string {
    "\"" + s + "\""
  }

  function PrintValue(v: Value): string {
    match v
    case Text(text) => PrintText(text)
    case Number(number) => PrintInt(number)
  }

  function PrintField(f: Field): string {
    PrintText(f.name) + ":" + PrintValue(f.value)
  }

  /** The fields, comma-separated, and the closing brace. */
  function PrintFields(fields: seq<Field>): string
    requires fields != []
  {
    PrintField(fields[0]) + if |fields| == 1 then "}" else "," + PrintFields(fields[1..])
  }

  function PrintObject(fields: seq<Field>): string
    requires fields != []
  {
    "{" + PrintFields(fields)
  }

  // ----- Parsing ------------------------------------------------------------------------------------

  /** The longest prefix satisfying `p`. */
  function Span(s: string, p: char -> bool): (n: nat)
    ensures n <= |s| && (forall i :: 0 <= i < n ==> p(s[i])) && (n < |s| ==> !p(s[n]))
  {
    if s != "" && p(s[0]) then 1 + Span(s[1..], p) else 0
  }

  datatype Parsed<T> = Parsed(value: T, rest: string)

  function ParseText(s: string): (r: Option<Parsed<string>>)
    ensures r.Some? ==> |r.value.rest| < |s|
  {
    if s == "" || s[0] != '"' then None
    else
      var n := Span(s[1..], IsPlain);
      if 1 + n < |s| && s[1 + n] == '"' then Some(Parsed(s[1..1 + n], s[n + 2..])) else None
  }

  function ParseNat(s: string): (r: Option<Parsed<nat>>)
    ensures r.Some? ==> |r.value.rest| < |s|
  {
    var n := Span(s, IsDigit);
    if IsDecimal(s[..n]) then Some(Parsed(FromDecimal(s[..n]), s[n..])) else None
  }

  function ParseValue(s: string): (r: Option<Parsed<Value>>)
    ensures r.Some? ==> |r.value.rest| < |s|
  {
    if s != "" && s[0] == '"' then
      match ParseText(s)
      case None => None
      case Some(Parsed(text, rest)) => Some(Parsed(Text(text), rest))
    else if s != "" && s[0] == '-' then
      match ParseNat(s[1..])
      case None => None
      case Some(Parsed(n, rest)) => Some(Parsed(Number(0 - n), rest))
    else
      match ParseNat(s)
      case None => None
      case Some(Parsed(n, rest)) => Some(Parsed(Number(n), rest))
  }

  function ParseField(s: string): (r: Option<Parsed<Field>>)
    ensures r.Some? ==> |r.value.rest| < |s|
  {
    match ParseText(s)
    case None => None
    case Some(Parsed(name, rest)) =>
      if rest == "" || rest[0] != ':' then None
      else
        match ParseValue(rest[1..])
        case None => None
        case Some(Parsed(value, rest')) => Some(Parsed(Field(name, value), rest'))
  }

  /** A repeated name keeps its last value. */
  function ParseFields(s: string, seen: map<string, Value>): Option<map<string, Value>>
    decreases |s|
  {
    match ParseField(s)
    case None => None
    case Some(Parsed(Field(name, value), rest)) =>
      var seen' := seen[name := value];
      if rest == "}" then Some(seen')
      else if rest != "" && rest[0] == ',' then ParseFields(rest[1..], seen')
      else None
  }

  function ParseObject(s: string): Option<map<string, Value>> {
    if s == "{}" then Some(map[])
    else if s != "" && s[0] == '{' then ParseFields(s[1..], map[])
    else None
  }

  // ----- Round trip -----------------------------------------------------------------------------------

  function ToMap(fields: seq<Field>, seen: map<string, Value>): map<string, Value> {
    if fields == [] then seen else ToMap(fields[1..], seen[fields[0].name := fields[0].value])
  }

  lemma {:induction false} SpanStops(prefix: string, rest: string, p: char -> bool)
    requires forall i :: 0 <= i < |prefix| ==> p(prefix[i])
    requires rest == "" || !p(rest[0])
    ensures Span(prefix + rest, p) == |prefix|
  {
    if prefix == "" {
      assert prefix + rest == rest;
    } else {
      SpanStops(prefix[1..], rest, p);
      assert (prefix + rest)[1..] == prefix[1..] + rest;
    }
  }

  lemma TextRoundTrip(text: string, rest: string)
    requires IsPlainText(text)
    ensures ParseText(PrintText(text) + rest) == Some(Parsed(text, rest))
  {
    var s := PrintText(text) + rest;
    assert s[1..] == text + ("\"" + rest);
    SpanStops(text, "\"" + rest, IsPlain);
    assert s[1..1 + |text|] == text && s[|text| + 2..] == rest;
  }

  lemma NatRoundTrip(n: nat, rest: string)
    requires rest == "" || !IsDigit(rest[0])
    ensures ParseNat(ToDecimal(n) + rest) == Some(Parsed(n, rest))
  {
    var digits := ToDecimal(n);
    var s := digits + rest;
    SpanStops(digits, rest, IsDigit);
    assert s[..|digits|] == digits && s[|digits|..] == rest;
    PrintThenParse(n);
  }

  lemma ParseValueOnNat(s: string, n: nat, rest: string)
    requires s != "" && s[0] != '"' && s[0] != '-' && ParseNat(s) == Some(Parsed(n, rest))
    ensures ParseValue(s) == Some(Parsed(Number(n), rest))
  {
  }

  lemma ParseValueOnNegative(s: string, n: nat, rest: string)
    requires s != "" && s[0] == '-' && ParseNat(s[1..]) == Some(Parsed(n, rest))
    ensures ParseValue(s) == Some(Parsed(Number(0 - n), rest))
  {
  }

  lemma NegativeRoundTrip(n: nat, rest: string)
    requires rest == "" || !IsDigit(rest[0])
    ensures ParseValue("-" + ToDecimal(n) + rest) == Some(Parsed(Number(0 - n), rest))
  {
    var s := "-" + ToDecimal(n) + rest;
    assert s[1..] == ToDecimal(n) + rest;
    NatRoundTrip(n, rest);
    ParseValueOnNegative(s, n, rest);
  }

  lemma IntRoundTrip(number: int, rest: string)
    requires rest == "" || !IsDigit(rest[0])
    ensures ParseValue(PrintInt(number) + rest) == Some(Parsed(Number(number), rest))
  {
    if number < 0 {
      NegativeRoundTrip(-number, rest);
    } else {
      var s := ToDecimal(number) + rest;
      assert s[0] == ToDecimal(number)[0];
      NatRoundTrip(number, rest);
      ParseValueOnNat(s, number, rest);
    }
  }

  lemma ValueRoundTrip(v: Value, rest: string)
    requires v.Text? ==> IsPlainText(v.text)
    requires rest == "" || !IsDigit(rest[0])
    ensures ParseValue(PrintValue(v) + rest) == Some(Parsed(v, rest))
  {
    match v
    case Text(text) =>
      TextRoundTrip(text, rest);
      assert (PrintText(text) + rest)[0] == '"';
    case Number(number) =>
      IntRoundTrip(number, rest);
  }

  lemma ParseFieldInParts(s: string, name: string, tail: string, value: Value, rest: string)
    requires ParseText(s) == Some(Parsed(name, tail)) && tail != "" && tail[0] == ':'
    requires ParseValue(tail[1..]) == Some(Parsed(value, rest))
    ensures ParseField(s) == Some(Parsed(Field(name, value), rest))
  {
  }

  lemma FieldRoundTrip(f: Field, rest: string)
    requires IsPlainField(f) && (rest == "" || !IsDigit(rest[0]))
    ensures ParseField(PrintField(f) + rest) == Some(Parsed(f, rest))
  {
    var after := PrintValue(f.value) + rest;
    assert PrintField(f) + rest == PrintText(f.name) + (":" + after);
    TextRoundTrip(f.name, ":" + after);
    assert (":" + after)[1..] == after;
    ValueRoundTrip(f.value, rest);
    ParseFieldInParts(PrintField(f) + rest, f.name, ":" + after, f.value, rest);
  }

  lemma {:induction false} FieldsRoundTrip(fields: seq<Field>, seen: map<string, Value>)
    requires fields != [] && forall i :: 0 <= i < |fields| ==> IsPlainField(fields[i])
    ensures ParseFields(PrintFields(fields), seen) == Some(ToMap(fields, seen))
  {
    var f := fields[0];
    if |fields| == 1 {
      FieldRoundTrip(f, "}");
    } else {
      var rest := "," + PrintFields(fields[1..]);
      FieldRoundTrip(f, rest);
      assert rest[1..] == PrintFields(fields[1..]);
      FieldsRoundTrip(fields[1..], seen[f.name := f.value]);
    }
  }

  /** Reading a printed object gives its fields back. */
  lemma ObjectRoundTrip(fields: seq<Field>)
    requires fields != [] && forall i :: 0 <= i < |fields| ==> IsPlainField(fields[i])
    ensures ParseObject(PrintObject(fields)) == Some(ToMap(fields, map[]))
  {
    var s := PrintObject(fields);
    assert s[1..] == PrintFields(fields) && s[1] == '"';
    FieldsRoundTrip(fields, map[]);
  }

  lemma {:induction false} FieldsArePrintable(fields: seq<Field>)
    requires fields != [] && forall i :: 0 <= i < |fields| ==> IsPlainField(fields[i])
    ensures forall c :: c in PrintFields(fields) ==> ' ' <= c <= '~'
  {
    var f := fields[0];
    assert forall c :: c in f.name ==> IsPlain(c);
    match f.value {
      case Text(text) => assert forall c :: c in text ==> IsPlain(c);
      case Number(number) =>
        assert forall c :: c in ToDecimal(if number < 0 then -number else number) ==> IsDigit(c);
    }
    if |fields| > 1 {
      FieldsArePrintable(fields[1..]);
    }
  }
}
