/**
 * The CSV printer of report exports and a reader following section 2 of RFC 4180. Whatever the
 * cells contain, reading back what was printed gives the header and the guarded cell texts.
 */
module ReportCsv {
  import opened Prelude

  datatype Cell = Missing | Timestamp(iso: string) | Text(text: string)

  /** A selected row: its keys in selection order and its values. */
  datatype Record = Record(keys: seq<string>, cells: map<string, Cell>)

  // --------------------------------------------------------------------------- printer

  function CellText(cell: Cell): string {
    match cell
    case Missing => ""
    case Timestamp(iso) => iso
    case Text(text) => text
  }

  const FORMULA_STARTS: set<char> := {'=', '+', '-', '@', '\t', '\r'}

  predicate StartsFormula(text: string) {
    text != [] && text[0] in FORMULA_STARTS
  }

  /** Text a spreadsheet would evaluate gets a leading apostrophe. */
  function Guard(text: string): string {
    if StartsFormula(text) then "'" + text else text
  }

  function DoubleQuotes(text: string): string {
    if text == [] then []
    else (if text[0] == '"' then "\"\"" else [text[0]]) + DoubleQuotes(text[1..])
  }

  function Quote(text: string): string {
    "\"" + DoubleQuotes(text) + "\""
  }

  function Join(parts: seq<string>, separator: string): string {
    if parts == [] then []
    else if |parts| == 1 then parts[0]
    else parts[0] + separator + Join(parts[1..], separator)
  }

  function QuoteAll(texts: seq<string>): (quoted: seq<string>)
    ensures |quoted| == |texts|
  {
    if texts == [] then [] else [Quote(texts[0])] + QuoteAll(texts[1..])
  }

  function WithoutId(keys: seq<string>): seq<string> {
    if keys == [] then []
    else (if keys[0] == "id" then [] else [keys[0]]) + WithoutId(keys[1..])
  }

  function RowTexts(fields: seq<string>, record: Record): (texts: seq<string>)
    ensures |texts| == |fields|
  {
    if fields == [] then []
    else [Guard(CellText(if fields[0] in record.cells then record.cells[fields[0]] else Missing))]
         + RowTexts(fields[1..], record)
  }

  /** The guarded texts of all rows, in row and column order. */
  function TableTexts(fields: seq<string>, records: seq<Record>): (rows: seq<seq<string>>)
    ensures |rows| == |records|
  {
    if records == [] then [] else [RowTexts(fields, records[0])] + TableTexts(fields, records[1..])
  }

  function PrintRows(rows: seq<seq<string>>): (lines: seq<string>)
    ensures |lines| == |rows|
  {
    if rows == [] then [] else [Join(QuoteAll(rows[0]), ",")] + PrintRows(rows[1..])
  }

  function ToCsv(records: seq<Record>): string {
    if records == [] then []
    else
      var fields := WithoutId(records[0].keys);
      Join([Join(fields, ",")] + PrintRows(TableTexts(fields, records)), "\r\n")
  }

  // ---------------------------------------------------------------------------- reader

  predicate TextData(c: char) { c != ',' && c != '"' && c != '\r' && c != '\n' }

  predicate Clean(text: string) { forall i :: 0 <= i < |text| ==> TextData(text[i]) }

  predicate AllClean(names: seq<string>) { forall i :: 0 <= i < |names| ==> Clean(names[i]) }

  /** The longest unquoted field, and what follows it. */
  function ReadPlain(s: string): (r: (string, string))
    ensures |r.1| <= |s|
  {
    if s == [] || !TextData(s[0]) then ([], s)
    else
      var (text, rest) := ReadPlain(s[1..]);
      ([s[0]] + text, rest)
  }

  /** The rest of a quoted field after its opening quote. */
  function ReadQuoted(s: string): (r: Option<(string, string)>)
    ensures r.Some? ==> |r.value.1| < |s|
  {
    if s == [] then None
    else if s[0] != '"' then Prefix([s[0]], ReadQuoted(s[1..]))
    else if |s| > 1 && s[1] == '"' then Prefix("\"", ReadQuoted(s[2..]))
    else Some(([], s[1..]))
  }

  function Prefix(head: string, r: Option<(string, string)>): (p: Option<(string, string)>)
    ensures p.Some? <==> r.Some?
    ensures p.Some? ==> p.value == (head + r.value.0, r.value.1)
  {
    match r
    case None => None
    case Some((text, rest)) => Some((head + text, rest))
  }

  function ReadField(s: string): (r: Option<(string, string)>)
    ensures r.Some? ==> |r.value.1| <= |s|
  {
    if s != [] && s[0] == '"' then ReadQuoted(s[1..]) else Some(ReadPlain(s))
  }

  predicate AtLineEnd(s: string) { s == [] || (|s| >= 2 && s[0] == '\r' && s[1] == '\n') }

  /** Comma-separated fields up to the end of the line. */
  function ReadRecord(s: string): (r: Option<(seq<string>, string)>)
    ensures r.Some? ==> |r.value.1| <= |s| && AtLineEnd(r.value.1)
    decreases |s|
  {
    match ReadField(s)
    case None => None
    case Some((field, rest)) =>
      if AtLineEnd(rest) then Some(([field], rest))
      else if rest[0] != ',' then None
      else
        match ReadRecord(rest[1..])
        case None => None
        case Some((fields, end)) => Some(([field] + fields, end))
  }

  /** All records; a final line break is optional. */
  function ReadFile(s: string): Option<seq<seq<string>>>
    decreases |s|
  {
    match ReadRecord(s)
    case None => None
    case Some((fields, rest)) =>
      if |rest| <= 2 then Some([fields])
      else
        match ReadFile(rest[2..])
        case None => None
        case Some(records) => Some([fields] + records)
  }

  // ------------------------------------------------------------------------ round trip

  lemma {:induction false} QuotedReadsBack(text: string, rest: string)
    requires rest == [] || rest[0] != '"'
    ensures ReadQuoted(DoubleQuotes(text) + "\"" + rest) == Some((text, rest))
  {
    var s := DoubleQuotes(text) + "\"" + rest;
    if text == [] {
      assert s == "\"" + rest;
      assert s[1..] == rest;
    } else {
      QuotedReadsBack(text[1..], rest);
      var tail := DoubleQuotes(text[1..]) + "\"" + rest;
      if text[0] == '"' {
        assert s == "\"\"" + tail;
        assert s[2..] == tail;
      } else {
        assert s == [text[0]] + tail;
        assert s[1..] == tail;
      }
      assert text == [text[0]] + text[1..];
    }
  }

  lemma {:induction false} PlainReadsBack(name: string, rest: string)
    requires Clean(name) && (rest == [] || !TextData(rest[0]))
    ensures ReadPlain(name + rest) == (name, rest)
  {
    if name == [] {
      assert name + rest == rest;
    } else {
      PlainReadsBack(name[1..], rest);
      assert (name + rest)[1..] == name[1..] + rest;
      assert name == [name[0]] + name[1..] && TextData(name[0]);
    }
  }

  lemma QuoteReadsBack(text: string, rest: string)
    requires rest == [] || rest[0] != '"'
    ensures ReadField(Quote(text) + rest) == Some((text, rest))
  {
    QuotedReadsBack(text, rest);
    assert (Quote(text) + rest)[1..] == DoubleQuotes(text) + "\"" + rest;
  }

  /** Reading a first field and then the rest of the line. */
  lemma RecordStep(s: string, text: string, tail: string, fields: seq<string>, rest: string)
    requires ReadField(s) == Some((text, "," + tail)) && ReadRecord(tail) == Some((fields, rest))
    ensures ReadRecord(s) == Some(([text] + fields, rest))
  {
    assert ("," + tail)[1..] == tail;
  }

  lemma JoinTail(parts: seq<string>, separator: string, rest: string)
    requires |parts| > 1
    ensures Join(parts, separator) + rest == parts[0] + (separator + (Join(parts[1..], separator) + rest))
  {
  }

  lemma JoinCons(first: string, others: seq<string>, separator: string)
    requires others != []
    ensures Join([first] + others, separator) == first + (separator + Join(others, separator))
  {
    assert ([first] + others)[1..] == others;
  }

  /** A printed row reads back cell for cell. */
  lemma {:induction false} RowReadsBack(texts: seq<string>, rest: string)
    requires texts != [] && AtLineEnd(rest)
    ensures ReadRecord(Join(QuoteAll(texts), ",") + rest) == Some((texts, rest))
  {
    if |texts| == 1 {
      QuoteReadsBack(texts[0], rest);
      assert texts == [texts[0]];
    } else {
      var tail := Join(QuoteAll(texts[1..]), ",") + rest;
      assert QuoteAll(texts)[1..] == QuoteAll(texts[1..]);
      JoinTail(QuoteAll(texts), ",", rest);
      QuoteReadsBack(texts[0], "," + tail);
      RowReadsBack(texts[1..], rest);
      RecordStep(Quote(texts[0]) + ("," + tail), texts[0], tail, texts[1..], rest);
      assert texts == [texts[0]] + texts[1..];
    }
  }

  lemma NameReadsBack(name: string, rest: string)
    requires Clean(name) && (rest == [] || (!TextData(rest[0]) && rest[0] != '"'))
    ensures ReadField(name + rest) == Some((name, rest))
  {
    PlainReadsBack(name, rest);
    FirstIsNotQuote(name, rest);
  }

  /** The header reads back when no name needs quoting. */
  lemma {:induction false} HeaderReadsBack(names: seq<string>, rest: string)
    requires names != [] && AtLineEnd(rest) && AllClean(names)
    ensures ReadRecord(Join(names, ",") + rest) == Some((names, rest))
  {
    if |names| == 1 {
      NameReadsBack(names[0], rest);
      assert names == [names[0]];
    } else {
      var tail := Join(names[1..], ",") + rest;
      JoinTail(names, ",", rest);
      NameReadsBack(names[0], "," + tail);
      HeaderReadsBack(names[1..], rest);
      RecordStep(names[0] + ("," + tail), names[0], tail, names[1..], rest);
      assert names == [names[0]] + names[1..];
    }
  }

  lemma FirstIsNotQuote(name: string, rest: string)
    requires Clean(name) && (rest == [] || rest[0] != '"')
    ensures name + rest == [] || (name + rest)[0] != '"'
  {
    if name != [] {
      assert TextData(name[0]);
    }
  }

  lemma {:induction false} LinesReadBack(rows: seq<seq<string>>)
    requires rows != [] && forall i :: 0 <= i < |rows| ==> rows[i] != []
    ensures ReadFile(Join(PrintRows(rows), "\r\n")) == Some(rows)
    ensures |Join(PrintRows(rows), "\r\n")| > 0
  {
    var lines := PrintRows(rows);
    FirstLineNotEmpty(rows[0]);
    if |rows| == 1 {
      RowReadsBack(rows[0], []);
      assert Join(lines, "\r\n") == lines[0] == lines[0] + [];
      assert rows == [rows[0]];
    } else {
      var tail := Join(PrintRows(rows[1..]), "\r\n");
      LinesReadBack(rows[1..]);
      assert lines[1..] == PrintRows(rows[1..]);
      assert Join(lines, "\r\n") == lines[0] + ("\r\n" + tail);
      RowReadsBack(rows[0], "\r\n" + tail);
      assert ("\r\n" + tail)[2..] == tail;
      assert rows == [rows[0]] + rows[1..];
    }
  }

  lemma FirstLineNotEmpty(texts: seq<string>)
    requires texts != []
    ensures |Join(QuoteAll(texts), ",")| > 0
  {
    assert QuoteAll(texts)[0] == Quote(texts[0]);
  }

  /**
   * Printing any table and reading it with an RFC 4180 reader returns the header and, cell for cell,
   * the guarded text; quotes, commas and line breaks inside cells are preserved.
   */
  lemma CsvRoundTrip(records: seq<Record>)
    requires records != []
    requires var fields := WithoutId(records[0].keys);
             fields != [] && AllClean(fields)
    ensures var fields := WithoutId(records[0].keys);
            ReadFile(ToCsv(records)) == Some([fields] + TableTexts(fields, records))
    ensures exists header, rows ::
              && ReadFile(ToCsv(records)) == Some([header] + rows) && |rows| == |records|
              && OmitsId(records[0].keys, header)
              && forall i :: 0 <= i < |rows| ==> ShowsRecord(header, records[i], rows[i])
  {
    var fields := WithoutId(records[0].keys);
    var rows := TableTexts(fields, records);
    RowsNotEmpty(fields, records);
    FileReadsBack(fields, rows);
    KeysWithoutId(records[0].keys);
    forall i | 0 <= i < |rows|
      ensures ShowsRecord(fields, records[i], rows[i])
    {
      RowShowsRecord(fields, records[i]);
    }
  }

  /** The header is the keys in their order, with `id` left out. */
  ghost predicate OmitsId(keys: seq<string>, header: seq<string>) {
    && ("id" !in keys ==> header == keys)
    && (forall p :: 0 <= p < |keys| && keys[p] == "id" && "id" !in keys[..p] && "id" !in keys[p + 1..] ==>
          header == keys[..p] + keys[p + 1..])
  }

  /**
   * Each field shows the record's value: nothing if it is missing, a time as its ISO text, any other value as it
   * is; a text that starts with one of six characters has an apostrophe before it.
   */
  ghost predicate ShowsRecord(header: seq<string>, record: Record, row: seq<string>) {
    && |row| == |header|
    && forall j :: 0 <= j < |header| ==> ShowsCell(header[j], record, row[j])
  }

  ghost predicate ShowsCell(key: string, record: Record, shown: string) {
    var text :=
      if key !in record.cells || record.cells[key] == Missing then ""
      else if record.cells[key].Timestamp? then record.cells[key].iso
      else record.cells[key].text;
    shown == if text != "" && text[0] in ['=', '+', '-', '@', '\t', '\r'] then "'" + text else text
  }

  lemma {:induction false} KeysKept(keys: seq<string>)
    requires "id" !in keys
    ensures WithoutId(keys) == keys
  {
    if keys != [] {
      KeysKept(keys[1..]);
      assert keys == [keys[0]] + keys[1..];
    }
  }

  lemma {:induction false} KeyOmitted(keys: seq<string>, p: nat)
    requires p < |keys| && keys[p] == "id" && "id" !in keys[..p] && "id" !in keys[p + 1..]
    ensures WithoutId(keys) == keys[..p] + keys[p + 1..]
  {
    var rest := keys[1..];
    if p == 0 {
      KeysKept(rest);
    } else {
      assert rest[..p - 1] == keys[..p][1..] && rest[p..] == keys[p + 1..];
      KeyOmitted(rest, p - 1);
      assert keys[..p] == [keys[0]] + rest[..p - 1];
      assert keys[0] == keys[..p][0];
    }
  }

  lemma KeysWithoutId(keys: seq<string>)
    ensures OmitsId(keys, WithoutId(keys))
  {
    if "id" !in keys {
      KeysKept(keys);
    }
    forall p | 0 <= p < |keys| && keys[p] == "id" && "id" !in keys[..p] && "id" !in keys[p + 1..]
      ensures WithoutId(keys) == keys[..p] + keys[p + 1..]
    {
      KeyOmitted(keys, p);
    }
  }

  lemma RowShowsRecord(fields: seq<string>, record: Record)
    ensures ShowsRecord(fields, record, RowTexts(fields, record))
  {
    forall j | 0 <= j < |fields|
      ensures ShowsCell(fields[j], record, RowTexts(fields, record)[j])
    {
      RecoveredCells(fields, record, j);
    }
  }

  lemma FileReadsBack(header: seq<string>, rows: seq<seq<string>>)
    requires header != [] && AllClean(header) && rows != [] && forall i :: 0 <= i < |rows| ==> rows[i] != []
    ensures ReadFile(Join([Join(header, ",")] + PrintRows(rows), "\r\n")) == Some([header] + rows)
  {
    LinesReadBack(rows);
    var body := Join(PrintRows(rows), "\r\n");
    JoinCons(Join(header, ","), PrintRows(rows), "\r\n");
    HeaderReadsBack(header, "\r\n" + body);
    FileStep(Join(header, ",") + ("\r\n" + body), header, body, rows);
  }

  /** Reading a first line and then the remaining lines. */
  lemma FileStep(s: string, fields: seq<string>, body: string, rows: seq<seq<string>>)
    requires ReadRecord(s) == Some((fields, "\r\n" + body)) && body != [] && ReadFile(body) == Some(rows)
    ensures ReadFile(s) == Some([fields] + rows)
  {
    assert ("\r\n" + body)[2..] == body;
  }

  lemma {:induction false} RowsNotEmpty(fields: seq<string>, records: seq<Record>)
    requires fields != []
    ensures forall i :: 0 <= i < |records| ==> TableTexts(fields, records)[i] == RowTexts(fields, records[i])
    ensures forall i :: 0 <= i < |records| ==> TableTexts(fields, records)[i] != []
  {
    if records != [] {
      RowsNotEmpty(fields, records[1..]);
      assert forall i :: 0 < i < |records| ==>
               TableTexts(fields, records)[i] == TableTexts(fields, records[1..])[i - 1];
    }
  }

  /** Which cell a recovered text came from, and that no recovered cell starts a formula. */
  lemma {:induction false} RecoveredCells(fields: seq<string>, record: Record, j: nat)
    requires j < |fields|
    ensures RowTexts(fields, record)[j]
         == Guard(CellText(if fields[j] in record.cells then record.cells[fields[j]] else Missing))
    ensures !StartsFormula(RowTexts(fields, record)[j])
    ensures RowTexts(fields, record)[j] != "" ==>
              RowTexts(fields, record)[j][0] !in ['=', '+', '-', '@', '\t', '\r']
  {
    if j > 0 {
      RecoveredCells(fields[1..], record, j - 1);
    }
  }

  /** Two texts print alike exactly when they are equal or one is the other's guarded form. */
  lemma GuardCollides(a: string, b: string)
    ensures Guard(a) == Guard(b) <==>
            a == b || (StartsFormula(a) && b == "'" + a) || (StartsFormula(b) && a == "'" + b)
  {
    if StartsFormula(a) && StartsFormula(b) && Guard(a) == Guard(b) {
      assert a == Guard(a)[1..] && b == Guard(b)[1..];
    }
  }
}
