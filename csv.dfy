/** The text that `downloadCSV` in `utils.js` builds before handing it to
    the browser: an unquoted header line, then one record per row whose
    cells are quoted as in RFC 4180 section 2 (rules 5 to 7), lines joined
    with a line feed. A row with no cells gives an empty record line. */
module Csv {
  import opened Wrappers

  /** A data cell: `None` for `null` or `undefined`, otherwise the text
      `String(cell)` gives. */
  type Cell = Option<string>

  /** `.replace(/"/g, '""')`: every double quote doubled. */
  function EscapeQuotes(s: string): (r: string)
    ensures |r| >= |s|
    ensures '"' !in s ==> r == s
  {
    if s == [] then []
    else
      assert '"' !in s ==> '"' !in s[1..];
      (if s[0] == '"' then "\"\"" else [s[0]]) + EscapeQuotes(s[1..])
  }

  /** `"${String(cell ?? '')...}"`: the escaped text between two quotes;
      a missing cell becomes the empty quoted field. */
  function QuoteCell(cell: Cell): (field: string)
    ensures |field| >= 2 && field[0] == '"' && field[|field| - 1] == '"'
    ensures cell.None? ==> field == "\"\""
  {
    "\"" + EscapeQuotes(cell.GetOr("")) + "\""
  }

  /** `Array.prototype.join`: the parts with `sep` between them, and the
      empty string for no parts. */
  function Join(parts: seq<string>, sep: string): string {
    if parts == [] then ""
    else if |parts| == 1 then parts[0]
    else parts[0] + sep + Join(parts[1..], sep)
  }

  function QuoteCells(row: seq<Cell>): (fields: seq<string>)
    ensures |fields| == |row|
    ensures forall i :: 0 <= i < |row| ==> fields[i] == QuoteCell(row[i])
  {
    if row == [] then [] else [QuoteCell(row[0])] + QuoteCells(row[1..])
  }

  /** One data record: the quoted cells joined with commas. It reads back
      as the texts of its cells, shows one comma fewer than it has cells
      and no line feed outside its quoted fields, and ends outside quotes. */
  function EncodeRecord(row: seq<Cell>): (line: string)
    ensures ParseRecord(line) == Some(CellTexts(row))
    ensures CountOutside(line, ',', false) == (if row == [] then 0 else |row| - 1)
    ensures CountOutside(line, '\n', false) == 0
    ensures !QuoteStateAfter(line, false)
  {
    RecordRoundTrip(row);
    QuoteCellsScan(row);
    ScanJoin(QuoteCells(row), ',', ',');
    ScanJoin(QuoteCells(row), ',', '\n');
    Join(QuoteCells(row), ",")
  }

  function EncodeRecords(rows: seq<seq<Cell>>): (lines: seq<string>)
    ensures |lines| == |rows|
    ensures forall i :: 0 <= i < |rows| ==> lines[i] == EncodeRecord(rows[i])
  {
    if rows == [] then [] else [EncodeRecord(rows[0])] + EncodeRecords(rows[1..])
  }

  /** `csvContent`: the header names joined with commas, unquoted, then the
      records, all joined with line feeds. When no header name holds a
      quote or a line feed, cutting the content at its line feeds outside
      quoted fields gives back the header line and the records. */
  function CsvContent(headers: seq<string>, rows: seq<seq<Cell>>): (content: string)
    ensures (forall h :: h in headers ==> Plain(h, '\n')) ==>
      SplitLines(content) == [Join(headers, ",")] + EncodeRecords(rows)
  {
    LinesSplit(headers, rows);
    Join([Join(headers, ",")] + EncodeRecords(rows), "\n")
  }

  // ---------------------------------------------------------------------
  // Reading a record back (RFC 4180 section 2, rules 5 to 7)
  // ---------------------------------------------------------------------

  /** Reads the inside of a quoted field, just after its opening quote, up
      to the closing quote, turning each doubled quote into one. Returns
      the text and what follows the closing quote. */
  function ParseQuotedBody(s: string): (r: Option<(string, string)>)
    ensures r.Some? ==> |r.value.1| < |s|
  {
    if s == [] then None
    else if s[0] == '"' then
      if |s| >= 2 && s[1] == '"' then
        match ParseQuotedBody(s[2..])
        case Some((text, rest)) => Some(("\"" + text, rest))
        case None => None
      else Some(("", s[1..]))
    else
      match ParseQuotedBody(s[1..])
      case Some((text, rest)) => Some(([s[0]] + text, rest))
      case None => None
  }

  /** Reads one quoted field at the start of `s`. */
  function ParseField(s: string): (r: Option<(string, string)>)
    ensures r.Some? ==> |r.value.1| < |s|
  {
    if s != [] && s[0] == '"' then ParseQuotedBody(s[1..]) else None
  }

  /** Reads one or more comma-separated quoted fields filling all of `s`. */
  function ParseFields(s: string): Option<seq<string>>
    decreases |s|
  {
    match ParseField(s)
    case None => None
    case Some((text, rest)) =>
      if rest == [] then Some([text])
      else if rest[0] == ',' then
        match ParseFields(rest[1..])
        case Some(more) => Some([text] + more)
        case None => None
      else None
  }

  /** Reads a whole record line; the empty line is the record of no cells. */
  function ParseRecord(line: string): Option<seq<string>> {
    if line == [] then Some([]) else ParseFields(line)
  }

  /** The texts a record's cells stand for: a missing cell reads as "". */
  function CellTexts(row: seq<Cell>): seq<string> {
    if row == [] then [] else [row[0].GetOr("")] + CellTexts(row[1..])
  }

  lemma {:induction false} QuotedBodyRoundTrip(text: string, rest: string)
    requires rest == [] || rest[0] != '"'
    ensures ParseQuotedBody(EscapeQuotes(text) + "\"" + rest) == Some((text, rest))
  {
    if text == [] {
      assert EscapeQuotes(text) + "\"" + rest == "\"" + rest;
      ParseClosingQuote(rest);
    } else {
      var t := text[1..];
      var head := if text[0] == '"' then "\"\"" else [text[0]];
      QuotedBodyRoundTrip(t, rest);
      QuotedBodyStep(text[0], t, EscapeQuotes(t), rest);
      assert EscapeQuotes(text) + "\"" + rest == head + (EscapeQuotes(t) + "\"" + rest) by {
        assert EscapeQuotes(text) == head + EscapeQuotes(t);
      }
      assert [text[0]] + t == text;
    }
  }

  /** One more character of text in front of an escaped body keeps the
      round trip: a quote is written doubled, any other character as is. */
  lemma QuotedBodyStep(c: char, text: string, escaped: string, rest: string)
    requires ParseQuotedBody(escaped + "\"" + rest) == Some((text, rest))
    ensures ParseQuotedBody((if c == '"' then "\"\"" else [c]) + (escaped + "\"" + rest)) == Some(([c] + text, rest))
  {
    if c == '"' {
      ParseDoubledQuote(escaped + "\"" + rest, text, rest);
    } else {
      ParseOrdinaryChar(c, escaped + "\"" + rest, text, rest);
    }
  }

  /** A lone quote closes the field. */
  lemma ParseClosingQuote(rest: string)
    requires rest == [] || rest[0] != '"'
    ensures ParseQuotedBody("\"" + rest) == Some(("", rest))
  {
    var s := "\"" + rest;
    assert s[0] == '"' && s[1..] == rest;
  }

  /** A doubled quote inside a quoted field reads as one quote. */
  lemma ParseDoubledQuote(tail: string, text: string, rest: string)
    requires ParseQuotedBody(tail) == Some((text, rest))
    ensures ParseQuotedBody("\"\"" + tail) == Some(("\"" + text, rest))
  {
    var s := "\"\"" + tail;
    assert s[0] == '"' && s[1] == '"' && s[2..] == tail;
  }

  /** Any other character inside a quoted field reads as itself. */
  lemma ParseOrdinaryChar(c: char, tail: string, text: string, rest: string)
    requires c != '"'
    requires ParseQuotedBody(tail) == Some((text, rest))
    ensures ParseQuotedBody([c] + tail) == Some(([c] + text, rest))
  {
    var s := [c] + tail;
    assert s[0] == c && s[1..] == tail;
  }

  /** Unquoting a quoted cell, and collapsing its doubled quotes, gives back
      the cell's text, whatever follows it (a comma or the end of line). */
  lemma CellRoundTrip(cell: Cell, rest: string)
    requires rest == [] || rest[0] != '"'
    ensures ParseField(QuoteCell(cell) + rest) == Some((cell.GetOr(""), rest))
  {
    var body := EscapeQuotes(cell.GetOr("")) + "\"" + rest;
    assert QuoteCell(cell) + rest == "\"" + body;
    assert ("\"" + body)[1..] == body;
    QuotedBodyRoundTrip(cell.GetOr(""), rest);
  }

  /** Every record of quoted cells reads back as the texts of its cells. */
  lemma {:induction false} RecordRoundTrip(row: seq<Cell>)
    ensures ParseRecord(Join(QuoteCells(row), ",")) == Some(CellTexts(row))
  {
    if row != [] {
      FieldsRoundTrip(row);
    }
  }

  lemma {:induction false} FieldsRoundTrip(row: seq<Cell>)
    requires row != []
    ensures ParseFields(Join(QuoteCells(row), ",")) == Some(CellTexts(row))
  {
    if |row| == 1 {
      CellRoundTrip(row[0], []);
      assert QuoteCell(row[0]) + [] == QuoteCell(row[0]);
      assert QuoteCells(row) == [QuoteCell(row[0])];
      assert CellTexts(row) == [row[0].GetOr("")];
    } else {
      var tail := Join(QuoteCells(row[1..]), ",");
      assert QuoteCells(row) == [QuoteCell(row[0])] + QuoteCells(row[1..]);
      assert Join(QuoteCells(row), ",") == QuoteCell(row[0]) + ("," + tail);
      CellRoundTrip(row[0], "," + tail);
      assert ("," + tail)[1..] == tail;
      FieldsRoundTrip(row[1..]);
    }
  }

  // ---------------------------------------------------------------------
  // Separators outside quoted fields
  // ---------------------------------------------------------------------

  /** Whether a reader is inside a quoted field after `s`, having started
      in state `inQuotes`: each quote character toggles it. */
  function QuoteStateAfter(s: string, inQuotes: bool): bool {
    if s == [] then inQuotes
    else QuoteStateAfter(s[1..], if s[0] == '"' then !inQuotes else inQuotes)
  }

  /** How many `sep` characters of `s` stand outside quoted fields. */
  function CountOutside(s: string, sep: char, inQuotes: bool): nat {
    if s == [] then 0
    else if s[0] == '"' then CountOutside(s[1..], sep, !inQuotes)
    else (if !inQuotes && s[0] == sep then 1 else 0) + CountOutside(s[1..], sep, inQuotes)
  }

  lemma {:induction false} ScanAppend(a: string, b: string, sep: char, inQuotes: bool)
    ensures CountOutside(a + b, sep, inQuotes)
         == CountOutside(a, sep, inQuotes) + CountOutside(b, sep, QuoteStateAfter(a, inQuotes))
    ensures QuoteStateAfter(a + b, inQuotes) == QuoteStateAfter(b, QuoteStateAfter(a, inQuotes))
  {
    if a == [] {
      assert a + b == b;
    } else {
      assert (a + b)[1..] == a[1..] + b;
      ScanAppend(a[1..], b, sep, if a[0] == '"' then !inQuotes else inQuotes);
    }
  }

  /** Escaped text read inside quotes never leaves them for good and shows
      no separator outside them. */
  lemma {:induction false} ScanEscaped(text: string, sep: char)
    requires sep != '"'
    ensures CountOutside(EscapeQuotes(text), sep, true) == 0
    ensures QuoteStateAfter(EscapeQuotes(text), true)
  {
    if text != [] {
      ScanEscaped(text[1..], sep);
      var head := if text[0] == '"' then "\"\"" else [text[0]];
      ScanAppend(head, EscapeQuotes(text[1..]), sep, true);
      if text[0] == '"' {
        assert head[1..][1..] == [];
      } else {
        assert head[1..] == [];
      }
    }
  }

  /** A quoted cell starts and ends outside quotes and shows no separator
      outside them. */
  lemma ScanQuotedCell(cell: Cell, sep: char)
    requires sep != '"'
    ensures CountOutside(QuoteCell(cell), sep, false) == 0
    ensures !QuoteStateAfter(QuoteCell(cell), false)
  {
    var body := EscapeQuotes(cell.GetOr(""));
    ScanEscaped(cell.GetOr(""), sep);
    var quote: string := "\"";
    assert QuoteCell(cell) == quote + (body + quote);
    assert quote[1..] == [];
    assert CountOutside(quote, sep, false) == 0 && QuoteStateAfter(quote, false);
    assert CountOutside(quote, sep, true) == 0 && !QuoteStateAfter(quote, true);
    ScanAppend(quote, body + quote, sep, false);
    ScanAppend(body, quote, sep, true);
  }

  /** Text without quotes or separators. */
  predicate Plain(s: string, sep: char) {
    forall i :: 0 <= i < |s| ==> s[i] != '"' && s[i] != sep
  }

  lemma {:induction false} ScanPlain(s: string, sep: char)
    requires Plain(s, sep)
    ensures CountOutside(s, sep, false) == 0
    ensures !QuoteStateAfter(s, false)
  {
    if s != [] {
      ScanPlain(s[1..], sep);
    }
  }

  /** Joining pieces that each start and end outside quotes and show no
      `ch` outside them: the only `ch` outside quotes are the joints, if
      `ch` is the joining character. */
  lemma {:induction false} ScanJoin(parts: seq<string>, sep: char, ch: char)
    requires sep != '"' && ch != '"'
    requires forall p :: p in parts ==> CountOutside(p, ch, false) == 0 && !QuoteStateAfter(p, false)
    ensures CountOutside(Join(parts, [sep]), ch, false) == (if sep == ch && parts != [] then |parts| - 1 else 0)
    ensures !QuoteStateAfter(Join(parts, [sep]), false)
  {
    if |parts| >= 2 {
      var tail := Join(parts[1..], [sep]);
      ScanJoin(parts[1..], sep, ch);
      assert parts[0] in parts;
      assert Join(parts, [sep]) == parts[0] + ([sep] + tail);
      ScanAppend(parts[0], [sep] + tail, ch, false);
      ScanAppend([sep], tail, ch, false);
      assert [sep][1..] == [];
    } else if |parts| == 1 {
      assert parts[0] in parts;
    }
  }

  lemma {:induction false} QuoteCellsScan(row: seq<Cell>)
    ensures forall p :: p in QuoteCells(row) ==>
      && CountOutside(p, ',', false) == 0 && !QuoteStateAfter(p, false)
      && CountOutside(p, '\n', false) == 0
  {
    if row != [] {
      QuoteCellsScan(row[1..]);
      ScanQuotedCell(row[0], ',');
      ScanQuotedCell(row[0], '\n');
    }
  }

  lemma {:induction false} RecordsScan(rows: seq<seq<Cell>>)
    ensures |EncodeRecords(rows)| == |rows|
    ensures forall p :: p in EncodeRecords(rows) ==> CountOutside(p, '\n', false) == 0 && !QuoteStateAfter(p, false)
  {
    if rows != [] {
      RecordsScan(rows[1..]);
    }
  }

  lemma {:induction false} PlainJoin(parts: seq<string>, sep: char, ch: char)
    requires sep != ch && sep != '"'
    requires forall p :: p in parts ==> Plain(p, ch)
    ensures Plain(Join(parts, [sep]), ch)
  {
    if |parts| >= 2 {
      PlainJoin(parts[1..], sep, ch);
      assert parts[0] in parts;
    } else if |parts| == 1 {
      assert parts[0] in parts;
    }
  }

  /** The header line and the records: with header names free of quotes
      and line feeds, none of them shows a line feed outside quoted fields
      or ends inside quotes. */
  lemma LinesScan(headers: seq<string>, rows: seq<seq<Cell>>)
    requires forall h :: h in headers ==> Plain(h, '\n')
    ensures forall p :: p in [Join(headers, ",")] + EncodeRecords(rows) ==>
      CountOutside(p, '\n', false) == 0 && !QuoteStateAfter(p, false)
  {
    var header := Join(headers, ",");
    PlainJoin(headers, ',', '\n');
    ScanPlain(header, '\n');
    RecordsScan(rows);
    forall p | p in [header] + EncodeRecords(rows) ensures CountOutside(p, '\n', false) == 0 && !QuoteStateAfter(p, false) {
      if p != header { assert p in EncodeRecords(rows); }
    }
  }

  /** Joining the lines and cutting them apart again gives the lines. */
  lemma LinesSplit(headers: seq<string>, rows: seq<seq<Cell>>)
    ensures (forall h :: h in headers ==> Plain(h, '\n')) ==>
      var lines := [Join(headers, ",")] + EncodeRecords(rows);
      SplitLines(Join(lines, "\n")) == lines
  {
    if forall h :: h in headers ==> Plain(h, '\n') {
      LinesScan(headers, rows);
      SplitJoin([Join(headers, ",")] + EncodeRecords(rows), '\n');
    }
  }

  /** With header names free of quotes and line feeds, the content has
      exactly one line feed outside quoted fields per data row. */
  lemma ContentLines(headers: seq<string>, rows: seq<seq<Cell>>)
    requires forall h :: h in headers ==> Plain(h, '\n')
    ensures CountOutside(CsvContent(headers, rows), '\n', false) == |rows|
  {
    LinesScan(headers, rows);
    ScanJoin([Join(headers, ",")] + EncodeRecords(rows), '\n', '\n');
  }

  /** Reading the whole content back: with header names free of quotes and
      line feeds, the first line is the header line and each further line
      parses as the texts of the cells of its row. */
  lemma ContentRoundTrip(headers: seq<string>, rows: seq<seq<Cell>>)
    requires forall h :: h in headers ==> Plain(h, '\n')
    ensures var lines := SplitLines(CsvContent(headers, rows));
      && |lines| == |rows| + 1
      && lines[0] == Join(headers, ",")
      && forall i :: 0 <= i < |rows| ==> ParseRecord(lines[i + 1]) == Some(CellTexts(rows[i]))
  {
    var lines := SplitLines(CsvContent(headers, rows));
    forall i | 0 <= i < |rows| ensures ParseRecord(lines[i + 1]) == Some(CellTexts(rows[i])) {
      assert lines[i + 1] == EncodeRecords(rows)[i];
    }
  }

  // ---------------------------------------------------------------------
  // Cutting text into lines
  // ---------------------------------------------------------------------

  /** `prefix` glued to the front of the first part. */
  function Prepend(prefix: string, parts: seq<string>): (r: seq<string>)
    requires |parts| >= 1
    ensures |r| == |parts|
  {
    [prefix + parts[0]] + parts[1..]
  }

  /** Cuts `s` at each `sep` that stands outside quoted fields, as a CSV
      reader splits a file into records; there is one part more than such
      separators. */
  function SplitOutside(s: string, sep: char, inQuotes: bool): (parts: seq<string>)
    ensures |parts| == CountOutside(s, sep, inQuotes) + 1
  {
    if s == [] then [""]
    else if s[0] == '"' then Prepend([s[0]], SplitOutside(s[1..], sep, !inQuotes))
    else if !inQuotes && s[0] == sep then [""] + SplitOutside(s[1..], sep, inQuotes)
    else Prepend([s[0]], SplitOutside(s[1..], sep, inQuotes))
  }

  /** The lines of a CSV text. */
  function SplitLines(s: string): seq<string> {
    SplitOutside(s, '\n', false)
  }

  /** Text with no separator outside quotes stays glued to what follows. */
  lemma {:induction false} SplitAppend(a: string, b: string, sep: char, inQuotes: bool)
    requires CountOutside(a, sep, inQuotes) == 0
    ensures SplitOutside(a + b, sep, inQuotes) == Prepend(a, SplitOutside(b, sep, QuoteStateAfter(a, inQuotes)))
  {
    var after := SplitOutside(b, sep, QuoteStateAfter(a, inQuotes));
    if a == [] {
      assert a + b == b;
      assert a + after[0] == after[0];
      assert [after[0]] + after[1..] == after;
    } else {
      var q := if a[0] == '"' then !inQuotes else inQuotes;
      assert CountOutside(a[1..], sep, q) == 0;
      assert SplitOutside(a + b, sep, inQuotes) == Prepend([a[0]], SplitOutside(a[1..] + b, sep, q)) by {
        assert (a + b)[0] == a[0] && (a + b)[1..] == a[1..] + b;
      }
      assert SplitOutside(a[1..] + b, sep, q) == Prepend(a[1..], after) by {
        SplitAppend(a[1..], b, sep, q);
      }
      assert [a[0]] + (a[1..] + after[0]) == a + after[0] by {
        assert [a[0]] + a[1..] == a;
      }
    }
  }

  /** Cutting joined parts at the joints gives back the parts, when no part
      shows the joining character outside quotes or ends inside quotes. */
  lemma {:induction false} SplitJoin(parts: seq<string>, sep: char)
    requires sep != '"' && parts != []
    requires forall p :: p in parts ==> CountOutside(p, sep, false) == 0 && !QuoteStateAfter(p, false)
    ensures SplitOutside(Join(parts, [sep]), sep, false) == parts
  {
    var p := parts[0];
    assert p in parts;
    if |parts| == 1 {
      SplitAppend(p, [], sep, false);
      assert p + [] == p;
    } else {
      var tail := Join(parts[1..], [sep]);
      var after := SplitOutside([sep] + tail, sep, false);
      assert after == [""] + parts[1..] by {
        SplitJoin(parts[1..], sep);
        assert ([sep] + tail)[0] == sep && ([sep] + tail)[1..] == tail;
      }
      assert SplitOutside(Join(parts, [sep]), sep, false) == Prepend(p, after) by {
        assert Join(parts, [sep]) == p + ([sep] + tail);
        SplitAppend(p, [sep] + tail, sep, false);
      }
      assert p + "" == p;
      assert parts == [parts[0]] + parts[1..];
    }
  }
}
