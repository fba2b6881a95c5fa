/**
 * `exportToCSV`: a header row and one row per record, fields joined by ',' and rows by '\n'. A string field
 * holding ',' or '"' is wrapped in quotes with every '"' doubled (the quoting of section 2 of RFC 4180, except
 * that a field holding a line break is left unquoted). The reference decoder at the end of the module is the
 * partner the escaping is proved against.
 */
module CsvExport {
  import opened Options
  import opened Text

  /** A cell value: `string | number`. Numbers are integers here. */
  datatype Value = Str(s: string) | Num(n: int)

  /** A record as its entries in `Object.keys` order. */
  type Row = seq<(string, Value)>

  datatype CsvOptions = CsvOptions(filename: Option<string>, headers: Option<seq<string>>)

  /** `Object.keys(row)`. */
  function Keys(row: Row): (r: seq<string>)
    ensures |r| == |row| && forall i | 0 <= i < |row| :: r[i] == row[i].0
  {
    seq(|row|, i requires 0 <= i < |row| => row[i].0)
  }

  /** `row[key]`: the value stored under `key`, `None` for `undefined`. */
  function Lookup(row: Row, key: string): (r: Option<Value>)
    ensures r.None? <==> key !in Keys(row)
    ensures r.Some? ==> (key, r.value) in row
    decreases |row|
  {
    if |row| == 0 then None
    else if row[0].0 == key then Some(row[0].1)
    else
      assert Keys(row) == [row[0].0] + Keys(row[1..]);
      Lookup(row[1..], key)
  }

  function DigitChar(d: nat): (c: char)
    requires d < 10
    ensures IsDigit(c)
  {
    ((('0' as int) + d) as char)
  }

  /** Decimal digits of `n`, without leading zeros. */
  function NatToString(n: nat): (r: string)
    ensures |r| >= 1 && AllChars(r, IsDigit)
    decreases n
  {
    if n < 10 then [DigitChar(n)] else NatToString(n / 10) + [DigitChar(n % 10)]
  }

  /** `String(n)` for an integer. */
  function IntToString(n: int): (r: string)
    ensures |r| >= 1
    ensures forall i | 0 <= i < |r| :: IsDigit(r[i]) || r[i] == '-'
  {
    if n < 0 then "-" + NatToString(-n) else NatToString(n)
  }

  predicate NeedsQuotes(s: string) { ',' in s || '"' in s }

  /** `s.replace(/"/g, '""')`. */
  function DoubleQuotes(s: string): (r: string)
    ensures forall c :: c != '"' ==> (c in r <==> c in s)
    decreases |s|
  {
    if |s| == 0 then ""
    else if s[0] == '"' then "\"\"" + DoubleQuotes(s[1..])
    else [s[0]] + DoubleQuotes(s[1..])
  }

  /** The field text emitted for a string value. */
  function Escape(s: string): (r: string)
    ensures NeedsQuotes(s) ==> |r| >= 2 && r[0] == '"' && r[|r| - 1] == '"'
    ensures !NeedsQuotes(s) ==> r == s
    ensures '\n' in r <==> '\n' in s
  {
    if NeedsQuotes(s) then "\"" + DoubleQuotes(s) + "\"" else s
  }

  /** Halves every doubled quote. */
  function HalveQuotes(s: string): string
    decreases |s|
  {
    if |s| == 0 then ""
    else if |s| >= 2 && s[0] == '"' && s[1] == '"' then "\"" + HalveQuotes(s[2..])
    else [s[0]] + HalveQuotes(s[1..])
  }

  /** Strips the outer quotes of a quoted field and halves its doubled quotes; other text is left alone. */
  function Unescape(f: string): string {
    if |f| >= 2 && f[0] == '"' && f[|f| - 1] == '"' then HalveQuotes(f[1..|f| - 1]) else f
  }

  lemma {:induction false} HalveDoubled(s: string)
    ensures HalveQuotes(DoubleQuotes(s)) == s
    decreases |s|
  {
    if |s| > 0 {
      HalveDoubled(s[1..]);
      if s[0] == '"' {
        assert ("\"\"" + DoubleQuotes(s[1..]))[2..] == DoubleQuotes(s[1..]);
      } else {
        assert ([s[0]] + DoubleQuotes(s[1..]))[1..] == DoubleQuotes(s[1..]);
      }
      assert [s[0]] + s[1..] == s;
    }
  }

  /** Escaping is invertible. */
  lemma EscapeRoundTrip(s: string)
    ensures Unescape(Escape(s)) == s
  {
    if NeedsQuotes(s) {
      var f := Escape(s);
      assert f[1..|f| - 1] == DoubleQuotes(s);
      HalveDoubled(s);
    }
  }

  /** The cell as a plain string, before escaping: `""` for a missing key. */
  function RawField(row: Row, header: string): string {
    match Lookup(row, header)
    case None => ""
    case Some(Str(s)) => s
    case Some(Num(n)) => IntToString(n)
  }

  /** The cell as emitted: strings escaped, numbers verbatim, `undefined` joined as the empty string. */
  function RenderField(row: Row, header: string): string {
    match Lookup(row, header)
    case None => ""
    case Some(Str(s)) => if NeedsQuotes(s) then "\"" + DoubleQuotes(s) + "\"" else s
    case Some(Num(n)) => IntToString(n)
  }

  /** Numbers and missing cells never need quoting, so every emitted cell is the escaped raw cell. */
  lemma RenderFieldIsEscape(row: Row, header: string)
    ensures RenderField(row, header) == Escape(RawField(row, header))
  {
    match Lookup(row, header)
    case None =>
    case Some(Str(s)) =>
    case Some(Num(n)) =>
      var t := IntToString(n);
      assert ',' !in t && '"' !in t by {
        forall i | 0 <= i < |t| ensures t[i] != ',' && t[i] != '"' {
          assert IsDigit(t[i]) || t[i] == '-';
        }
      }
  }

  /** One data row: a field per header, in header order. */
  function RowLine(headers: seq<string>, row: Row): string {
    Join(seq(|headers|, k requires 0 <= k < |headers| => RenderField(row, headers[k])), ',')
  }

  /** `headers || Object.keys(data[0])`. */
  function HeadersFor(data: seq<Row>, options: CsvOptions): seq<string>
    requires |data| > 0
  {
    match options.headers
    case Some(h) => h
    case None => Keys(data[0])
  }

  /** The text `exportToCSV(data, options)` returns. `filename` does not affect it. */
  function ExportToCsv(data: seq<Row>, options: CsvOptions): (r: string)
    ensures r == "" <==> |data| == 0
  {
    if |data| == 0 then ""
    else
      var headers := HeadersFor(data, options);
      var lines := [Join(headers, ',')] + seq(|data|, i requires 0 <= i < |data| => RowLine(headers, data[i]));
      JoinHasSeparator(lines, '\n');
      Join(lines, '\n')
  }

  lemma FilenameIrrelevant(data: seq<Row>, headers: Option<seq<string>>, f1: Option<string>, f2: Option<string>)
    ensures ExportToCsv(data, CsvOptions(f1, headers)) == ExportToCsv(data, CsvOptions(f2, headers))
  {
  }

  /** With no line break in any header or cell, the text splits into the header line followed by one line per
      record, in order; without explicit headers the header line lists the first record's keys. */
  lemma ExportLines(data: seq<Row>, options: CsvOptions)
    requires |data| > 0
    requires forall k | 0 <= k < |HeadersFor(data, options)| :: '\n' !in HeadersFor(data, options)[k]
    requires forall i, k | 0 <= i < |data| && 0 <= k < |HeadersFor(data, options)| ::
               '\n' !in RawField(data[i], HeadersFor(data, options)[k])
    ensures var lines := Split(ExportToCsv(data, options), '\n');
            && |lines| == |data| + 1
            && lines[0] == Join(options.headers.GetOr(Keys(data[0])), ',')
            && forall i | 0 <= i < |data| :: lines[i + 1] == RowLine(HeadersFor(data, options), data[i])
  {
    var headers := HeadersFor(data, options);
    var lines := [Join(headers, ',')] + seq(|data|, i requires 0 <= i < |data| => RowLine(headers, data[i]));
    JoinAvoids(headers, ',', '\n');
    forall i | 0 <= i < |data| ensures '\n' !in RowLine(headers, data[i]) {
      var cells := seq(|headers|, k requires 0 <= k < |headers| => RenderField(data[i], headers[k]));
      forall k | 0 <= k < |headers| ensures '\n' !in cells[k] {
        RenderFieldIsEscape(data[i], headers[k]);
      }
      JoinAvoids(cells, ',', '\n');
    }
    SplitJoin(lines, '\n');
  }

  // ---- Reference decoder ----

  /** Reads the rest of a quoted field (after its opening quote): `""` stands for '"' and a lone '"' closes it.
      Returns the content and the text after the closing quote. */
  function ParseQuoted(s: string): (r: (string, string))
    ensures |r.1| <= |s|
    decreases |s|
  {
    if |s| == 0 then ("", "")
    else if s[0] == '"' then
      if |s| >= 2 && s[1] == '"' then
        var (c, rest) := ParseQuoted(s[2..]);
        ("\"" + c, rest)
      else ("", s[1..])
    else
      var (c, rest) := ParseQuoted(s[1..]);
      ([s[0]] + c, rest)
  }

  /** Reads an unquoted field up to the next ','. */
  function ParseUnquoted(s: string): (r: (string, string))
    ensures |r.1| <= |s|
    decreases |s|
  {
    if |s| == 0 then ("", "")
    else if s[0] == ',' then ("", s)
    else
      var (c, rest) := ParseUnquoted(s[1..]);
      ([s[0]] + c, rest)
  }

  function ParseField(s: string): (r: (string, string))
    ensures |r.1| <= |s|
  {
    if |s| > 0 && s[0] == '"' then ParseQuoted(s[1..]) else ParseUnquoted(s)
  }

  /** Splits one line into its fields. */
  function ParseRecord(s: string): (r: seq<string>)
    ensures |r| >= 1
    decreases |s|
  {
    var (f, rest) := ParseField(s);
    if |rest| > 0 && rest[0] == ',' then [f] + ParseRecord(rest[1..]) else [f]
  }

  lemma {:induction false} ParseQuotedDoubled(v: string, tail: string)
    requires tail == "" || tail[0] != '"'
    ensures ParseQuoted(DoubleQuotes(v) + "\"" + tail) == (v, tail)
    decreases |v|
  {
    var s := DoubleQuotes(v) + "\"" + tail;
    if |v| == 0 {
      assert s == "\"" + tail;
      assert s[1..] == tail;
    } else if v[0] == '"' {
      assert s[2..] == DoubleQuotes(v[1..]) + "\"" + tail;
      ParseQuotedDoubled(v[1..], tail);
      assert "\"" + v[1..] == v;
    } else {
      assert s[1..] == DoubleQuotes(v[1..]) + "\"" + tail;
      ParseQuotedDoubled(v[1..], tail);
      assert [v[0]] + v[1..] == v;
    }
  }

  lemma {:induction false} ParseUnquotedPlain(v: string, tail: string)
    requires ',' !in v
    requires tail == "" || tail[0] == ','
    ensures ParseUnquoted(v + tail) == (v, tail)
    decreases |v|
  {
    if |v| == 0 {
      assert v + tail == tail;
    } else {
      assert (v + tail)[1..] == v[1..] + tail;
      ParseUnquotedPlain(v[1..], tail);
      assert [v[0]] + v[1..] == v;
    }
  }

  /** An escaped field followed by a separator (or nothing) decodes to the original value. */
  lemma ParseEscapedField(v: string, tail: string)
    requires tail == "" || tail[0] == ','
    ensures ParseField(Escape(v) + tail) == (v, tail)
  {
    if NeedsQuotes(v) {
      ParseQuotedField(v, tail);
    } else {
      ParsePlainField(v, tail);
    }
  }

  lemma ParseQuotedField(v: string, tail: string)
    requires NeedsQuotes(v)
    requires tail == "" || tail[0] == ','
    ensures ParseField(Escape(v) + tail) == (v, tail)
  {
    var d := DoubleQuotes(v);
    var body := d + "\"" + tail;
    var s := Escape(v) + tail;
    assert s == "\"" + body by {
      assert Escape(v) == "\"" + d + "\"";
    }
    assert s[1..] == body;
    ParseQuotedDoubled(v, tail);
  }

  lemma ParsePlainField(v: string, tail: string)
    requires !NeedsQuotes(v)
    requires tail == "" || tail[0] == ','
    ensures ParseField(Escape(v) + tail) == (v, tail)
  {
    assert Escape(v) == v;
    ParseUnquotedPlain(v, tail);
    if |v| > 0 {
      assert (v + tail)[0] == v[0];
    } else {
      assert v + tail == tail;
    }
  }

  /** A row of escaped fields joined by ',' decodes to exactly the original fields. */
  lemma {:induction false} ParseJoinedEscaped(fields: seq<string>)
    requires |fields| >= 1
    ensures ParseRecord(Join(seq(|fields|, k requires 0 <= k < |fields| => Escape(fields[k])), ',')) == fields
    decreases |fields|
  {
    var escaped := seq(|fields|, k requires 0 <= k < |fields| => Escape(fields[k]));
    if |fields| == 1 {
      ParseEscapedField(fields[0], "");
      assert Escape(fields[0]) + "" == Escape(fields[0]);
    } else {
      var tailFields := fields[1..];
      var tailEscaped := seq(|tailFields|, k requires 0 <= k < |tailFields| => Escape(tailFields[k]));
      assert escaped[1..] == tailEscaped;
      var rest := Join(tailEscaped, ',');
      assert Join(escaped, ',') == Escape(fields[0]) + ([','] + rest);
      ParseRecordCons(fields[0], rest);
      ParseJoinedEscaped(tailFields);
      assert [fields[0]] + tailFields == fields;
    }
  }

  /** An escaped field, a separator and more text decode as that field followed by the rest's fields. */
  lemma ParseRecordCons(v: string, rest: string)
    ensures ParseRecord(Escape(v) + ([','] + rest)) == [v] + ParseRecord(rest)
  {
    var tail := [','] + rest;
    ParseEscapedField(v, tail);
    assert tail[1..] == rest;
  }

  /** Each data line decodes to one field per header, in header order: the record's value for that header,
      or the empty string when the record lacks it. */
  lemma RowLineDecodes(headers: seq<string>, row: Row)
    requires |headers| >= 1
    ensures ParseRecord(RowLine(headers, row)) == seq(|headers|, k requires 0 <= k < |headers| => RawField(row, headers[k]))
  {
    var raw := seq(|headers|, k requires 0 <= k < |headers| => RawField(row, headers[k]));
    var escaped := seq(|raw|, k requires 0 <= k < |raw| => Escape(raw[k]));
    var cells := seq(|headers|, k requires 0 <= k < |headers| => RenderField(row, headers[k]));
    forall k | 0 <= k < |headers| ensures cells[k] == escaped[k] {
      RenderFieldIsEscape(row, headers[k]);
    }
    assert cells == escaped;
    ParseJoinedEscaped(raw);
  }
}
