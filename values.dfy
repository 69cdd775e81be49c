/** Values that travel between a request, an ORM row and a table column,
    the column types of the schema, and the two conversions the route
    handlers perform on request values: Python's `int(...)` and the
    `setattr` loop of the partial-update handlers. */
module Values {

  datatype Option<+T> = None | Some(value: T)

  /** A column or request value: SQL NULL (Python None), a string, or a
      JSON number. A number is held in hundredths, so that the prices a JSON
      body may carry are exact: JSON `120.5` is `Num(12050)` and JSON `5` is
      `Num(500)`. */
  datatype Value = Null | Text(s: string) | Num(hundredths: int)

  /** The editable columns of a row, by column name; a missing name reads as NULL. */
  type Columns = map<string, Value>

  /** A request body that is a form or a JSON object, by key. */
  type Payload = map<string, Value>

  /** A submitted HTML form: every value is a string. */
  type Form = map<string, string>

  /** `row.<name>`, NULL when the column was never set. */
  function Col(cols: Columns, name: string): Value {
    if name in cols then cols[name] else Null
  }

  /** `data.get(key)`: None when the key is absent. */
  function Get(data: Payload, key: string): Value {
    if key in data then data[key] else Null
  }

  /** A request body as the create handlers receive it: a submitted form,
      with every value of each field in order, or a JSON object. */
  datatype Body = FormBody(fields: map<string, seq<string>>) | JsonBody(json: Payload)

  /** `request.form if request.form else (request.json or {})`, read with
      `.get`: the first value of each field of a form, or the JSON object. */
  function Data(body: Body): (data: Payload)
    ensures body.FormBody? ==> forall k :: k in data <==> k in body.fields && body.fields[k] != []
    ensures body.FormBody? ==> forall k :: k in data ==> data[k] == Text(body.fields[k][0])
    ensures body.JsonBody? ==> data == body.json
  {
    match body
    case FormBody(fields) => map k | k in fields && fields[k] != [] :: Text(fields[k][0])
    case JsonBody(json) => json
  }

  /** `request.form.getlist(key) if request.form else []`: every value a
      form gives the field, and nothing for a JSON body. */
  function FormList(body: Body, key: string): (r: seq<string>)
    ensures body.JsonBody? ==> r == []
    ensures body.FormBody? && key in body.fields ==> r == body.fields[key]
    ensures body.FormBody? && key !in body.fields ==> r == []
  {
    if body.FormBody? && key in body.fields then body.fields[key] else []
  }

  /** `request.form.get(key)`. */
  function FormGet(form: Form, key: string): Option<string> {
    if key in form then Some(form[key]) else None
  }

  /** `field in data and data.get(field) is not None`. */
  predicate Present(data: Payload, key: string) {
    key in data && data[key] != Null
  }

  /** Python truthiness of a request value: None, "" and 0 are false. */
  predicate Truthy(v: Value) {
    match v
    case Null => false
    case Text(s) => s != ""
    case Num(h) => h != 0
  }

  /** A form value that passes `if not x` (neither missing nor empty). */
  predicate Filled(o: Option<string>) {
    o.Some? && o.value != ""
  }

  /** `form.get(key) or default`. */
  function FormOr(form: Form, key: string, default: string): (r: string)
    ensures Filled(FormGet(form, key)) ==> r == form[key]
    ensures !Filled(FormGet(form, key)) ==> r == default
  {
    if key in form && form[key] != "" then form[key] else default
  }

  /** The columns a constructor such as `Hotel(name=data.get("name"), ...)`
      receives: one value per listed column, NULL where the key is absent. */
  function Take(data: Payload, names: set<string>): (cols: Columns)
    ensures cols.Keys == names
    ensures forall name :: name in names ==> Col(cols, name) == Get(data, name)
  {
    map name | name in names :: Get(data, name)
  }

  // ---------------------------------------------------------------- schema

  /** The column types the models declare. */
  datatype ColumnType =
    | VarChar(maxLen: nat, nullable: bool)   // db.String(n)
    | LongText                               // db.Text, nullable
    | Decimal(nullable: bool)                // db.Numeric(10, 2), as cents
    | Integer(nullable: bool)                // db.Integer, a 32-bit signed INT

  /** Numeric(10, 2) holds at most 8 integer digits and 2 decimals, so the
      value in hundredths is strictly below 10^10 in magnitude. */
  const DecimalLimit: int := 10_000_000_000
  const IntMin: int := -0x8000_0000
  const IntMax: int := 0x7FFF_FFFF
  /** A `Text` column holds at most 65,535 bytes. */
  const TextMaxBytes: nat := 65_535

  /** The number of bytes `c` takes in UTF-8. */
  function Utf8Width(c: char): nat {
    if c as int < 0x80 then 1 else if c as int < 0x800 then 2 else if c as int < 0x1_0000 then 3 else 4
  }

  /** The number of bytes `s` takes in UTF-8. */
  function Utf8Length(s: string): nat {
    if s == [] then 0 else Utf8Length(s[..|s| - 1]) + Utf8Width(s[|s| - 1])
  }

  /** A character takes one to four bytes: a text of at most 16,383
      characters always fits a `Text` column, one of more than 65,535 never does. */
  lemma {:induction false} Utf8LengthBounds(s: string)
    ensures |s| <= Utf8Length(s) <= 4 * |s|
  {
    if s != [] {
      Utf8LengthBounds(s[..|s| - 1]);
    }
  }

  /** The amount, in hundredths, that MySQL stores for `v` in a DECIMAL(10, 2)
      column: a number as it is, a string as strict mode converts it. */
  function DecimalValue(v: Value): Option<int> {
    match v
    case Null => None
    case Text(s) => ParseDecimal(s)
    case Num(h) => Some(h)
  }

  /** The integer MySQL stores for `v` in an INT column: a number rounded to
      the nearest integer, a string of an optional sign and digits as it reads. */
  function IntegerValue(v: Value): Option<int> {
    match v
    case Null => None
    case Text(s) => ParseInt(s)
    case Num(h) => Some(RoundHundredths(h))
  }

  /** Whether the database accepts value `v` in a column of type `t`: the
      value converts to the column's type and is within its range. */
  predicate Fits(v: Value, t: ColumnType) {
    match t
    case VarChar(maxLen, nullable) => (v.Null? && nullable) || (v.Text? && |v.s| <= maxLen)
    case LongText => v.Null? || (v.Text? && Utf8Length(v.s) <= TextMaxBytes)
    case Decimal(nullable) =>
      (v.Null? && nullable) || (DecimalValue(v).Some? && -DecimalLimit < DecimalValue(v).value < DecimalLimit)
    case Integer(nullable) =>
      (v.Null? && nullable) || (IntegerValue(v).Some? && IntMin <= IntegerValue(v).value <= IntMax)
  }

  /** A row's editable columns are columns of the table and every one of
      the table's columns holds a value its type accepts. */
  predicate RowFits(cols: Columns, schema: map<string, ColumnType>) {
    && cols.Keys <= schema.Keys
    && forall name :: name in schema ==> Fits(Col(cols, name), schema[name])
  }

  // ------------------------------------------------------- partial update

  /** The columns after the partial-update loop
      `for field in fields: if field in data and data.get(field) is not None: setattr(row, field, data.get(field))`. */
  function Patched(cols: Columns, data: Payload, fields: seq<string>): (r: Columns)
    ensures forall name :: Col(r, name) == if name in fields && Present(data, name) then data[name] else Col(cols, name)
    ensures r.Keys == cols.Keys + set name | name in fields && Present(data, name)
  {
    cols + map name | name in fields && Present(data, name) :: data[name]
  }

  /** A listed field that is absent or None keeps its value: an empty
      request body changes nothing. */
  lemma PatchedNothing(cols: Columns, fields: seq<string>)
    ensures Patched(cols, map[], fields) == cols
  {
  }

  /** Applying the same request twice is the same as applying it once. */
  lemma PatchedIdempotent(cols: Columns, data: Payload, fields: seq<string>)
    ensures Patched(Patched(cols, data, fields), data, fields) == Patched(cols, data, fields)
  {
  }

  /** A schema-conforming row stays schema-conforming under a patch whose
      present values fit their columns, and the listed fields are columns. */
  lemma PatchedFits(cols: Columns, data: Payload, fields: seq<string>, schema: map<string, ColumnType>)
    requires RowFits(cols, schema)
    requires forall f :: f in fields ==> f in schema
    requires forall f :: f in fields && Present(data, f) ==> Fits(data[f], schema[f])
    ensures RowFits(Patched(cols, data, fields), schema)
  {
    var r := Patched(cols, data, fields);
    forall name | name in schema
      ensures Fits(Col(r, name), schema[name])
    {
      assert Col(r, name) == if name in fields && Present(data, name) then data[name] else Col(cols, name);
    }
  }

  /** One more field of the loop: set it when present, otherwise keep the row. */
  lemma PatchedSnoc(cols: Columns, data: Payload, fields: seq<string>, field: string)
    ensures Patched(cols, data, fields + [field])
         == if Present(data, field) then Patched(cols, data, fields)[field := data[field]] else Patched(cols, data, fields)
  {
    var before, after := Patched(cols, data, fields), Patched(cols, data, fields + [field]);
    var expected := if Present(data, field) then before[field := data[field]] else before;
    forall name | name in after
      ensures name in expected && after[name] == expected[name]
    {
      assert Col(after, name) == if name in fields + [field] && Present(data, name) then data[name] else Col(cols, name);
    }
    forall name | name in expected
      ensures name in after
    {
    }
  }

  /** The `setattr` loop itself, one field at a time, over the row's columns. */
  method PatchColumns(cols: Columns, data: Payload, fields: seq<string>) returns (r: Columns)
    ensures r == Patched(cols, data, fields)
  {
    r := cols;
    for i := 0 to |fields|
      invariant r == Patched(cols, data, fields[..i])
    {
      var field := fields[i];
      assert fields[..i + 1] == fields[..i] + [field];
      PatchedSnoc(cols, data, fields[..i], field);
      if field in data && data[field] != Null {
        r := r[field := data[field]];
      }
    }
    assert fields[..|fields|] == fields;
  }

  // --------------------------------------------------------------- int(...)

  predicate IsDigit(c: char) {
    '0' <= c <= '9'
  }

  predicate AllDigits(s: string) {
    |s| > 0 && forall i :: 0 <= i < |s| ==> IsDigit(s[i])
  }

  /** The number a string of decimal digits denotes. */
  function DigitsValue(s: string): nat
    requires forall i :: 0 <= i < |s| ==> IsDigit(s[i])
  {
    if s == [] then 0
    else
      assert IsDigit(s[|s| - 1]);
      10 * DigitsValue(s[..|s| - 1]) + (s[|s| - 1] as int - '0' as int)
  }

  /** Python's `int(s)` on a string: an optional sign followed by one or
      more ASCII digits; anything else raises ValueError (None here). */
  function ParseInt(s: string): Option<int> {
    if |s| > 0 && (s[0] == '+' || s[0] == '-') && AllDigits(s[1..]) then
      var magnitude: int := DigitsValue(s[1..]);
      Some(if s[0] == '-' then -magnitude else magnitude)
    else if AllDigits(s) then
      Some(DigitsValue(s))
    else
      None
  }

  /** Python's `int(x)` on a number given in hundredths: truncation toward zero. */
  function TruncHundredths(h: int): int {
    if h >= 0 then h / 100 else -((-h) / 100)
  }

  /** MySQL's conversion of an exact number, given in hundredths, to an
      integer: the nearest one, halves away from zero. */
  function RoundHundredths(h: int): int {
    if h >= 0 then (h + 50) / 100 else -((-h + 50) / 100)
  }

  /** `int(v)` on a request value: a JSON number is truncated, a string is
      parsed, and `int(None)` raises TypeError (None here). */
  function AsInt(v: Value): Option<int> {
    match v
    case Null => None
    case Text(s) => ParseInt(s)
    case Num(h) => Some(TruncHundredths(h))
  }

  /** The integer key a request value names when it is compared with an
      integer primary key: a string as it reads, a number only when it is whole. */
  function KeyValue(v: Value): Option<int> {
    match v
    case Null => None
    case Text(s) => ParseInt(s)
    case Num(h) => if h % 100 == 0 then Some(h / 100) else None
  }

  // ------------------------------------------------- strings to DECIMAL(10, 2)

  /** The first position of `c` in `s`. */
  function IndexOf(s: string, c: char): (r: Option<nat>)
    ensures r.Some? ==> r.value < |s| && s[r.value] == c && c !in s[..r.value]
    ensures r.None? ==> c !in s
  {
    if s == [] then None
    else if s[0] == c then Some(0)
    else
      match IndexOf(s[1..], c)
      case None => None
      case Some(i) =>
        assert s[..i + 1] == [s[0]] + s[1..][..i];
        Some(i + 1)
  }

  /** A character `c` absent from `a` is first found where `b` starts with it. */
  lemma {:induction false} IndexOfAfter(a: string, b: string, c: char)
    requires c !in a && |b| > 0 && b[0] == c
    ensures IndexOf(a + b, c) == Some(|a|)
  {
    if a != [] {
      assert (a + b)[1..] == a[1..] + b;
      IndexOfAfter(a[1..], b, c);
    }
  }

  /** Zero or more ASCII digits. */
  predicate DigitsOnly(s: string) {
    forall i :: 0 <= i < |s| ==> IsDigit(s[i])
  }

  function DigitValue(c: char): nat
    requires IsDigit(c)
  {
    c as int - '0' as int
  }

  /** The first two decimals of a fraction, in hundredths, rounded half up
      by the third. */
  function FractionHundredths(f: string): nat
    requires DigitsOnly(f)
  {
    (if |f| > 0 then 10 * DigitValue(f[0]) else 0)
    + (if |f| > 1 then DigitValue(f[1]) else 0)
    + (if |f| > 2 && f[2] >= '5' then 1 else 0)
  }

  /** An unsigned numeral: digits, optionally a point and more digits, with
      at least one digit in all; its value in hundredths. */
  function UnsignedDecimal(s: string): Option<nat> {
    var point := IndexOf(s, '.');
    var whole := if point.Some? then s[..point.value] else s;
    var fraction := if point.Some? then s[point.value + 1..] else "";
    if |whole| + |fraction| > 0 && DigitsOnly(whole) && DigitsOnly(fraction) then
      Some(100 * DigitsValue(whole) + FractionHundredths(fraction))
    else
      None
  }

  /** MySQL's strict-mode conversion of a string to DECIMAL(10, 2), in
      hundredths: an optional sign and an unsigned numeral; anything else is
      an "incorrect decimal value" error (None here). */
  function ParseDecimal(s: string): Option<int> {
    if |s| > 0 && (s[0] == '+' || s[0] == '-') then
      match UnsignedDecimal(s[1..])
      case None => None
      case Some(m) =>
        var signed: int := if s[0] == '-' then -(m as int) else m as int;
        Some(signed)
    else
      UnsignedDecimal(s)
  }

  /** `str(d)` of a Decimal with two places, from its value in hundredths:
      the text a page renders for a price. */
  function ShowHundredths(h: int): string {
    var m: nat := if h < 0 then -h else h;
    (if h < 0 then "-" else "") + ShowNat(m / 100) + "." + [DigitChar(m % 100 / 10), DigitChar(m % 10)]
  }

  lemma DigitCharValue(d: nat)
    requires d < 10
    ensures IsDigit(DigitChar(d)) && DigitValue(DigitChar(d)) == d
  {
  }

  /** A numeral with a point reads as its whole part and its fraction. */
  lemma UnsignedDecimalOfParts(whole: string, f: string)
    requires DigitsOnly(whole) && DigitsOnly(f) && |whole| > 0
    ensures UnsignedDecimal(whole + "." + f) == Some(100 * DigitsValue(whole) + FractionHundredths(f))
  {
    var s := whole + ("." + f);
    assert whole + "." + f == s;
    assert forall i :: 0 <= i < |whole| ==> whole[i] != '.';
    IndexOfAfter(whole, "." + f, '.');
    var point := IndexOf(s, '.');
    assert point == Some(|whole|);
    assert s[..point.value] == whole;
    assert s[point.value + 1..] == f;
  }

  /** An amount in hundredths is its whole part and its two decimals. */
  lemma HundredthsDigits(m: nat)
    ensures 100 * (m / 100) + 10 * (m % 100 / 10) + m % 10 == m
  {
    var q, r := m / 100, m % 100;
    assert m == 100 * q + r;
    assert r == 10 * (r / 10) + r % 10;
    assert m == 10 * (10 * q + r / 10) + r % 10;
    assert m % 10 == r % 10;
  }

  /** A whole part and two decimals read back as their amount. */
  lemma ShownUnsignedParts(q: nat, d1: nat, d2: nat)
    requires d1 < 10 && d2 < 10
    ensures UnsignedDecimal(ShowNat(q) + "." + [DigitChar(d1), DigitChar(d2)]) == Some(100 * q + (10 * d1 + d2))
  {
    var whole := ShowNat(q);
    var f := [DigitChar(d1), DigitChar(d2)];
    DigitCharValue(d1);
    DigitCharValue(d2);
    assert DigitsOnly(whole) by {
      assert AllDigits(whole);
    }
    UnsignedDecimalOfParts(whole, f);
    DigitsOfShowNat(q);
    assert FractionHundredths(f) == 10 * d1 + d2;
  }

  /** The unsigned numeral of `ShowHundredths`. */
  lemma ShownUnsigned(m: nat)
    ensures UnsignedDecimal(Numeral(m)) == Some(m)
  {
    ShownUnsignedParts(m / 100, m % 100 / 10, m % 10);
    HundredthsDigits(m);
  }

  /** A numeral that starts with a digit carries no sign. */
  lemma ParseUnsigned(u: string)
    requires |u| > 0 && IsDigit(u[0])
    ensures ParseDecimal(u) == UnsignedDecimal(u)
  {
  }

  /** A numeral after a minus sign reads negated. */
  lemma ParseNegated(u: string, m: nat)
    requires UnsignedDecimal(u) == Some(m)
    ensures ParseDecimal("-" + u) == Some(-(m as int))
  {
    assert ("-" + u)[1..] == u;
  }

  /** The numeral `ShowHundredths` writes for an amount, without its sign. */
  function Numeral(m: nat): string {
    ShowNat(m / 100) + "." + [DigitChar(m % 100 / 10), DigitChar(m % 10)]
  }

  lemma ShownNumeral(h: int)
    ensures h < 0 ==> ShowHundredths(h) == "-" + Numeral(-h)
    ensures h >= 0 ==> ShowHundredths(h) == Numeral(h)
    ensures h >= 0 ==> IsDigit(Numeral(h)[0])
  {
    if h >= 0 {
      assert AllDigits(ShowNat(h / 100));
    }
  }

  /** A price rendered into a form comes back as the same amount. */
  lemma ParseShowHundredths(h: int)
    ensures ParseDecimal(ShowHundredths(h)) == Some(h)
  {
    var m: nat := if h < 0 then -h else h;
    ShownUnsigned(m);
    ShownNumeral(h);
    if h < 0 {
      ParseNegated(Numeral(m), m);
    } else {
      ParseUnsigned(Numeral(m));
    }
  }

  /** A price within Numeric(10, 2), rendered and submitted again as form
      text, is accepted by its column. */
  lemma ShownPriceFits(h: int, nullable: bool)
    requires -DecimalLimit < h < DecimalLimit
    ensures Fits(Text(ShowHundredths(h)), Decimal(nullable))
  {
    ParseShowHundredths(h);
  }

  /** The price a form submits as "120.50" is 120.50. */
  lemma FormPriceExample()
    ensures ParseDecimal("120.50") == Some(12050)
  {
    assert ShowNat(120) == "120" by {
      assert ShowNat(1) == "1";
      assert ShowNat(12) == "12";
    }
    assert ShowHundredths(12050) == "120.50";
    ParseShowHundredths(12050);
  }

  /** A JSON price counts whole currency units: 500000000 is beyond
      Numeric(10, 2), while 99999999.99 is the largest price a column holds. */
  lemma PriceUnits()
    ensures !Fits(Num(500_000_000 * 100), Decimal(false))
    ensures Fits(Num(9_999_999_999), Decimal(false))
  {
  }

  function DigitChar(d: nat): char
    requires d < 10
  {
    ('0' as int + d) as char
  }

  /** `str(n)` for a natural number. */
  function ShowNat(n: nat): (s: string)
    ensures AllDigits(s)
  {
    if n < 10 then [DigitChar(n)] else ShowNat(n / 10) + [DigitChar(n % 10)]
  }

  /** `str(n)`. */
  function ShowInt(n: int): string {
    if n < 0 then "-" + ShowNat(-n) else ShowNat(n)
  }

  lemma {:induction false} DigitsOfShowNat(n: nat)
    ensures DigitsValue(ShowNat(n)) == n
  {
    if n >= 10 {
      var s := ShowNat(n);
      assert s[..|s| - 1] == ShowNat(n / 10);
      DigitsOfShowNat(n / 10);
    }
  }

  /** `int(str(n)) == n`: an id rendered into a form comes back unchanged. */
  lemma ParseShowInt(n: int)
    ensures ParseInt(ShowInt(n)) == Some(n)
  {
    if n < 0 {
      var s := ShowInt(n);
      assert s[1..] == ShowNat(-n);
      DigitsOfShowNat(-n);
    } else {
      DigitsOfShowNat(n);
    }
  }
}
