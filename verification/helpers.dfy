/**
  The two pure helpers the pages rely on: the CSV export of a list of
  records (`generateCsv`) and the percentage change between two figures
  (`getPercentageChange`).

  A record is a map from column name to value. A column the record lacks,
  or one holding `null`/`undefined`, prints as the empty string; a string is
  wrapped in double quotes, with its own quotes doubled, when it contains a
  comma or a double quote; any other value prints as its JavaScript string
  form, carried here as `Other(text)`.

  To show that the quoting does its job, `ParseRow` reads a line back the
  way a CSV reader following RFC 4180 does, and `RowRoundTrip` proves that
  every row reads back as the values it was written from.
 */
module Helpers {

  import opened Seqs

  datatype CsvValue = Missing | Str(s: string) | Other(text: string)

  type CsvItem = map<string, CsvValue>

  /** `item[header] ?? ''`: an absent column reads as missing. */
  function Lookup(item: CsvItem, header: string): CsvValue
  {
    if header in item then item[header] else Missing
  }

  /** The text a reader of the file should see for a value. */
  function DisplayText(v: CsvValue): string
  {
    match v
    case Missing => ""
    case Str(s) => s
    case Other(t) => t
  }

  /** A string that the export wraps in quotes. */
  predicate NeedsQuotes(s: string)
  {
    ',' in s || '"' in s
  }

  /** `replace(/"/g, '""')` */
  function Escape(s: string): (r: string)
    ensures |r| >= |s|
  {
    if |s| == 0 then ""
    else (if s[0] == '"' then "\"\"" else [s[0]]) + Escape(s[1..])
  }

  /** The text written for one cell. */
  function CellText(v: CsvValue): string
  {
    match v
    case Str(s) => if NeedsQuotes(s) then "\"" + Escape(s) + "\"" else s
    case _ => DisplayText(v)
  }

  /** `Array.prototype.join(',')` */
  function Join(parts: seq<string>): string
  {
    if |parts| == 0 then ""
    else if |parts| == 1 then parts[0]
    else parts[0] + "," + Join(parts[1..])
  }

  const LineEnd: string := "\r\n"

  /** The header line: the column names joined as they are, without quoting. */
  function HeaderLine(headers: seq<string>): string
  {
    Join(headers) + LineEnd
  }

  function CellTexts(item: CsvItem, headers: seq<string>): (r: seq<string>)
    ensures |r| == |headers|
    ensures forall i :: 0 <= i < |r| ==> r[i] == CellText(Lookup(item, headers[i]))
  {
    seq(|headers|, i requires 0 <= i < |headers| => CellText(Lookup(item, headers[i])))
  }

  function RowLine(item: CsvItem, headers: seq<string>): string
  {
    Join(CellTexts(item, headers)) + LineEnd
  }

  /** The data lines of the first `|data|` records, in order. */
  function RowLines(data: seq<CsvItem>, headers: seq<string>): string
    decreases |data|
  {
    if |data| == 0 then ""
    else RowLines(data[..|data| - 1], headers) + RowLine(data[|data| - 1], headers)
  }

  /** `generateCsv`: the header line followed by one line per record, each ended by CRLF. */
  method GenerateCsv(data: seq<CsvItem>, headers: seq<string>) returns (csv: string)
    ensures csv == HeaderLine(headers) + RowLines(data, headers)
    ensures |data| == 0 ==> csv == Join(headers) + "\r\n"
  {
    csv := Join(headers) + LineEnd;
    var i := 0;
    while i < |data|
      invariant 0 <= i <= |data|
      invariant csv == HeaderLine(headers) + RowLines(data[..i], headers)
    {
      RowLinesPrefix(data, i, headers);
      csv := csv + RowLine(data[i], headers);
      i := i + 1;
    }
    assert data[..i] == data;
  }

  /** The lines of the first `i + 1` records are those of the first `i` and then record `i`'s. */
  lemma RowLinesPrefix(data: seq<CsvItem>, i: nat, headers: seq<string>)
    requires i < |data|
    ensures RowLines(data[..i + 1], headers) == RowLines(data[..i], headers) + RowLine(data[i], headers)
  {
    assert data[..i + 1][..i] == data[..i];
  }

  /** Appending a record appends exactly its line to the export. */
  lemma RowLinesAppend(data: seq<CsvItem>, item: CsvItem, headers: seq<string>)
    ensures RowLines(data + [item], headers) == RowLines(data, headers) + RowLine(item, headers)
  {
    assert (data + [item])[..|data|] == data;
  }

  // ---------------------------------------------------------------- reading back

  /** One field read off the front of a line: its text, what follows the
      separating comma, and whether a comma (hence another field) followed. */
  datatype Field = Field(text: string, rest: string, more: bool)

  /** An unquoted field runs up to the first comma or the end of the line. */
  function ReadPlain(s: string): (f: Field)
    ensures f.more ==> |f.rest| < |s|
  {
    if |s| == 0 then Field("", "", false)
    else if s[0] == ',' then Field("", s[1..], true)
    else
      var f := ReadPlain(s[1..]);
      Field([s[0]] + f.text, f.rest, f.more)
  }

  /** A quoted field, read after its opening quote: `""` stands for one quote,
      and the closing quote must be followed by a comma or the end of the line. */
  function ReadQuoted(s: string): (f: Option<Field>)
    ensures f.Some? && f.value.more ==> |f.value.rest| < |s|
  {
    if |s| == 0 then None
    else if s[0] == '"' then
      if |s| == 1 then Some(Field("", "", false))
      else if s[1] == '"' then
        match ReadQuoted(s[2..])
        case None => None
        case Some(f) => Some(Field("\"" + f.text, f.rest, f.more))
      else if s[1] == ',' then Some(Field("", s[2..], true))
      else None
    else
      match ReadQuoted(s[1..])
      case None => None
      case Some(f) => Some(Field([s[0]] + f.text, f.rest, f.more))
  }

  function ReadField(s: string): (f: Option<Field>)
    ensures f.Some? && f.value.more ==> |f.value.rest| < |s|
  {
    if |s| > 0 && s[0] == '"' then ReadQuoted(s[1..]) else Some(ReadPlain(s))
  }

  /** The fields of one line (without its line end), or `None` if a quoted field is malformed. */
  function ParseRow(line: string): Option<seq<string>>
    decreases |line|
  {
    match ReadField(line)
    case None => None
    case Some(f) =>
      if !f.more then Some([f.text])
      else
        match ParseRow(f.rest)
        case None => None
        case Some(fs) => Some([f.text] + fs)
  }

  /** What follows a field: a comma and the rest of the line, or nothing. */
  function Follow(more: bool, rest: string): string
  {
    if more then "," + rest else ""
  }

  lemma {:induction false} ReadPlainBack(t: string, more: bool, rest: string)
    requires ',' !in t
    requires more || rest == ""
    ensures ReadPlain(t + Follow(more, rest)) == Field(t, rest, more)
    decreases |t|
  {
    if |t| == 0 {
      assert t + Follow(more, rest) == Follow(more, rest);
      if more {
        assert ("," + rest)[1..] == rest;
      }
    } else {
      ReadPlainBack(t[1..], more, rest);
      assert (t + Follow(more, rest))[1..] == t[1..] + Follow(more, rest);
      assert [t[0]] + t[1..] == t;
    }
  }

  /** The closing quote ends the field. */
  lemma ReadQuotedEnd(more: bool, rest: string)
    requires more || rest == ""
    ensures ReadQuoted("\"" + Follow(more, rest)) == Some(Field("", rest, more))
  {
    var tail := "\"" + Follow(more, rest);
    if more {
      assert tail == "\"," + rest;
      assert tail[2..] == rest;
    } else {
      assert tail == "\"";
    }
  }

  /** A doubled quote reads as one quote. */
  lemma ReadQuotedPair(inner: string)
    ensures ReadQuoted("\"\"" + inner) ==
            match ReadQuoted(inner)
            case None => None
            case Some(f) => Some(Field("\"" + f.text, f.rest, f.more))
  {
    var x := "\"\"" + inner;
    assert x[0] == '"' && x[1] == '"' && x[2..] == inner;
  }

  /** Any other character is taken as it is. */
  lemma ReadQuotedChar(c: char, inner: string)
    requires c != '"'
    ensures ReadQuoted([c] + inner) ==
            match ReadQuoted(inner)
            case None => None
            case Some(f) => Some(Field([c] + f.text, f.rest, f.more))
  {
    var x := [c] + inner;
    assert x[0] == c && x[1..] == inner;
  }

  /** Reading an escaped character: one step of `ReadQuoted` over `Escape`. */
  lemma ReadEscapedHead(s: string, tail: string)
    requires |s| > 0
    ensures ReadQuoted(Escape(s) + tail) ==
            match ReadQuoted(Escape(s[1..]) + tail)
            case None => None
            case Some(f) => Some(Field([s[0]] + f.text, f.rest, f.more))
  {
    var inner := Escape(s[1..]) + tail;
    var c := s[0];
    var head := if c == '"' then "\"\"" else [c];
    assert Escape(s) + tail == head + inner;
    if c == '"' {
      ReadQuotedPair(inner);
    } else {
      ReadQuotedChar(c, inner);
    }
  }

  lemma {:induction false} ReadQuotedBack(s: string, more: bool, rest: string)
    requires more || rest == ""
    ensures ReadQuoted(Escape(s) + ("\"" + Follow(more, rest))) == Some(Field(s, rest, more))
    decreases |s|
  {
    var tail := "\"" + Follow(more, rest);
    if |s| == 0 {
      assert Escape(s) + tail == tail;
      ReadQuotedEnd(more, rest);
    } else {
      ReadQuotedBack(s[1..], more, rest);
      ReadEscapedHead(s, tail);
      assert [s[0]] + s[1..] == s;
    }
  }

  /** A value reads back as itself, except one that prints with a comma or a
      quote without being a string (no number or date prints that way). */
  predicate Readable(v: CsvValue)
  {
    v.Other? ==> !NeedsQuotes(v.text)
  }

  lemma QuotedFieldBack(s: string, more: bool, rest: string)
    requires more || rest == ""
    ensures ReadField("\"" + Escape(s) + "\"" + Follow(more, rest)) == Some(Field(s, rest, more))
  {
    var body := Escape(s) + ("\"" + Follow(more, rest));
    ReadQuotedBack(s, more, rest);
    var line := "\"" + Escape(s) + "\"" + Follow(more, rest);
    assert line == "\"" + body;
    assert line[0] == '"' && line[1..] == body;
  }

  lemma PlainFieldBack(t: string, more: bool, rest: string)
    requires !NeedsQuotes(t)
    requires more || rest == ""
    ensures ReadField(t + Follow(more, rest)) == Some(Field(t, rest, more))
  {
    ReadPlainBack(t, more, rest);
    var line := t + Follow(more, rest);
    if |t| > 0 {
      assert line[0] == t[0];
      assert t[0] in t;
    } else {
      assert line == Follow(more, rest);
    }
  }

  lemma FieldBack(v: CsvValue, more: bool, rest: string)
    requires Readable(v)
    requires more || rest == ""
    ensures ReadField(CellText(v) + Follow(more, rest)) == Some(Field(DisplayText(v), rest, more))
  {
    if v.Str? && NeedsQuotes(v.s) {
      QuotedFieldBack(v.s, more, rest);
    } else {
      PlainFieldBack(DisplayText(v), more, rest);
    }
  }

  /** The texts written for a row of values, one per value. */
  function Cells(vs: seq<CsvValue>): (r: seq<string>)
    ensures |r| == |vs|
    ensures forall i :: 0 <= i < |vs| ==> r[i] == CellText(vs[i])
  {
    seq(|vs|, i requires 0 <= i < |vs| => CellText(vs[i]))
  }

  /** The texts a reader should see for a row of values. */
  function Shown(vs: seq<CsvValue>): (r: seq<string>)
    ensures |r| == |vs|
    ensures forall i :: 0 <= i < |vs| ==> r[i] == DisplayText(vs[i])
  {
    seq(|vs|, i requires 0 <= i < |vs| => DisplayText(vs[i]))
  }

  /** The fields of a line written from `vs`, in order (the row without its line end). */
  function WrittenRow(vs: seq<CsvValue>): string
  {
    Join(Cells(vs))
  }

  /** A row of two or more cells is its first cell, a comma and the rest of the row. */
  lemma WrittenRowCons(vs: seq<CsvValue>)
    requires |vs| > 1
    ensures WrittenRow(vs) == CellText(vs[0]) + Follow(true, WrittenRow(vs[1..]))
  {
    assert Cells(vs)[1..] == Cells(vs[1..]);
  }

  lemma ShownCons(vs: seq<CsvValue>)
    requires |vs| > 0
    ensures Shown(vs) == [DisplayText(vs[0])] + Shown(vs[1..])
  {
    assert Shown(vs) == [DisplayText(vs[0])] + Shown(vs[1..]);
  }

  /** Quoting is sufficient: every row of at least one cell reads back as the
      values it was written from. */
  lemma {:induction false} RowRoundTrip(vs: seq<CsvValue>)
    requires |vs| > 0
    requires forall i :: 0 <= i < |vs| ==> Readable(vs[i])
    ensures ParseRow(WrittenRow(vs)) == Some(Shown(vs))
    decreases |vs|
  {
    ShownCons(vs);
    if |vs| == 1 {
      FieldBack(vs[0], false, "");
      assert WrittenRow(vs) == CellText(vs[0]) + Follow(false, "");
      assert Shown(vs) == [DisplayText(vs[0])];
    } else {
      var line := WrittenRow(vs);
      RowRoundTrip(vs[1..]);
      WrittenRowCons(vs);
      FieldBack(vs[0], true, WrittenRow(vs[1..]));
      assert ReadField(line) == Some(Field(DisplayText(vs[0]), WrittenRow(vs[1..]), true));
    }
  }

  /** The row of a record is the written row of its looked-up values. */
  lemma RowLineIsWrittenRow(item: CsvItem, headers: seq<string>)
    ensures RowLine(item, headers) ==
            WrittenRow(seq(|headers|, i requires 0 <= i < |headers| => Lookup(item, headers[i]))) + "\r\n"
  {
    var vs := seq(|headers|, i requires 0 <= i < |headers| => Lookup(item, headers[i]));
    assert CellTexts(item, headers) == Cells(vs);
  }

  // ---------------------------------------------------------------- percentage change

  /** `getPercentageChange`: 100 (or 0) when there is nothing to compare with,
      otherwise the change relative to `previous`, in percent. */
  function PercentageChange(current: real, previous: real): (r: real)
    ensures previous == 0.0 ==> r == (if current > 0.0 then 100.0 else 0.0)
    ensures previous != 0.0 ==> r * previous == (current - previous) * 100.0
  {
    if previous == 0.0 then (if current > 0.0 then 100.0 else 0.0)
    else ((current - previous) / previous) * 100.0
  }

  /** Applying the change to `previous` gives back `current`. */
  lemma PercentageChangeInverse(current: real, previous: real)
    requires previous != 0.0
    ensures previous + previous * PercentageChange(current, previous) / 100.0 == current
  {
    var r := PercentageChange(current, previous);
    assert previous * r == (current - previous) * 100.0;
  }

  /** Against a positive previous figure the change is positive exactly when the
      figure grew, and zero exactly when it stayed the same. */
  lemma PercentageChangeSign(current: real, previous: real)
    requires previous > 0.0
    ensures PercentageChange(current, previous) > 0.0 <==> current > previous
    ensures PercentageChange(current, previous) == 0.0 <==> current == previous
  {
    var r := PercentageChange(current, previous);
    assert r * previous == (current - previous) * 100.0;
    if r > 0.0 {
      assert r * previous > 0.0;
    }
    if current > previous {
      assert r * previous > 0.0;
    }
  }
}
