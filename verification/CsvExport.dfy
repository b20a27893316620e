/**
 CSV exports and what a reader gets back (apps/admin-dashboard/src/lib/csv.ts, lines 9-39). The reader
 follows section 2 of RFC 4180 and splits records at every unquoted CRLF.
 */
module CsvExport {
  import opened Options

  // ── Writing ─────────────────────────────────────────────────────────────────────────────────

  const CRLF: string := "\r\n"

  predicate Special(c: char) { c == ',' || c == '"' || c == '\n' || c == '\r' }

  predicate Plain(s: string) { forall i :: 0 <= i < |s| ==> !Special(s[i]) }

  /** A cell is the text its value prints as, or nothing. */
  type Cell = Option<string>

  function DoubleQuotes(s: string): string {
    if s == "" then "" else (if s[0] == '"' then "\"\"" else [s[0]]) + DoubleQuotes(s[1..])
  }

  function CsvEscape(v: Cell): string {
    match v
    case None => ""
    case Some(s) => if Plain(s) then s else "\"" + DoubleQuotes(s) + "\""
  }

  predicate LongDigits(s: string) { |s| >= 12 && forall i :: 0 <= i < |s| ==> '0' <= s[i] <= '9' }

  function CsvRef(v: Cell): string {
    if v.None? || v.value == "" then ""
    else if LongDigits(v.value) then "\"\t" + v.value + "\""
    else CsvEscape(v)
  }

  datatype Column = Column(header: string, isRef: bool)

  function Join(xs: seq<string>, sep: string): string {
    if xs == [] then "" else if |xs| == 1 then xs[0] else xs[0] + sep + Join(xs[1..], sep)
  }

  function Field(c: Column, v: Cell): string { if c.isRef then CsvRef(v) else CsvEscape(v) }

  function HeadLine(columns: seq<Column>): seq<string> {
    seq(|columns|, i requires 0 <= i < |columns| => CsvEscape(Some(columns[i].header)))
  }

  /** The value of each column for one row. */
  predicate Fits(columns: seq<Column>, row: seq<Cell>) { |row| == |columns| }

  predicate AllFit(columns: seq<Column>, rows: seq<seq<Cell>>) { forall r :: 0 <= r < |rows| ==>
      Fits(columns, rows[r]) }

  function RowLine(columns: seq<Column>, row: seq<Cell>): seq<string>
    requires Fits(columns, row)
  {
    seq(|columns|, i requires 0 <= i < |columns| => Field(columns[i], row[i]))
  }

  /** The lines under the head, each joined with commas. */
  function Body(columns: seq<Column>, rows: seq<seq<Cell>>): (lines: seq<string>)
    requires AllFit(columns, rows)
    ensures |lines| == |rows|
  {
    seq(|rows|, r requires 0 <= r < |rows| => Join(RowLine(columns, rows[r]), ","))
  }

  function ToCsv(columns: seq<Column>, rows: seq<seq<Cell>>): string
    requires AllFit(columns, rows)
  {
    Join([Join(HeadLine(columns), ",")] + Body(columns, rows), CRLF)
  }

  /** A character that would break a row apart if it stood unquoted. */
  ghost predicate Breaks(s: string) {
    exists i :: 0 <= i < |s| && (s[i] == ',' || s[i] == '"' || s[i] == '\n' || s[i] == '\r')
  }

  /** Written as it is exactly when it holds no comma, quote or line break; otherwise between quotes. */
  lemma QuotedExactly(s: string)
    ensures CsvEscape(None) == ""
    ensures var t := CsvEscape(Some(s));
            if Breaks(s) then |t| >= |s| + 2 && t[0] == '"' && t[|t| - 1] == '"' else t == s
  {
    DoublingLengthens(s);
    assert Plain(s) <==> !Breaks(s);
  }

  lemma {:induction false} DoublingLengthens(s: string)
    ensures |DoubleQuotes(s)| >= |s|
  {
    if s != "" { DoublingLengthens(s[1..]); }
  }

  /** A reference of twelve digits or more is quoted behind a tab; any other value is written like a cell. */
  lemma ReferenceExactly(s: string)
    ensures CsvRef(None) == ""
    ensures var digits := forall i :: 0 <= i < |s| ==> s[i] in "0123456789";
            CsvRef(Some(s)) == if |s| >= 12 && digits then ['"', '\t'] + s + ['"'] else CsvEscape(Some(s))
  {
    forall i | 0 <= i < |s| ensures s[i] in "0123456789" <==> '0' <= s[i] <= '9' { DigitIs(s[i]); }
    if s == "" { assert Plain(s); }
  }

  lemma DigitIs(c: char)
    ensures c in "0123456789" <==> '0' <= c <= '9'
  {
    if '0' <= c <= '9' { assert "0123456789"[c as int - '0' as int] == c; }
  }

  // ── Reading, by RFC 4180 ────────────────────────────────────────────────────────────────────

  datatype Read = Read(text: string, rest: string)

  predicate AtBreak(s: string) { |s| >= 2 && s[0] == '\r' && s[1] == '\n' }

  /** What may follow a field. */
  predicate FieldEnds(s: string) { s == "" || s[0] == ',' || AtBreak(s) }

  /** A field without quotes holds no quote, comma, CR or LF. */
  function ReadPlain(s: string): (r: Option<Read>)
    ensures r.Some? ==> |r.value.rest| <= |s| && FieldEnds(r.value.rest)
  {
    if FieldEnds(s) then Some(Read("", s))
    else if Special(s[0]) then None
    else match ReadPlain(s[1..])
      case None => None
      case Some(r) => Some(Read([s[0]] + r.text, r.rest))
  }

  /** A quoted field after its opening quote: two quotes stand for one, a single one closes it. */
  function ReadQuoted(s: string): (r: Option<Read>)
    ensures r.Some? ==> |r.value.rest| <= |s|
  {
    if s == "" then None
    else if s[0] == '"' && |s| >= 2 && s[1] == '"' then
      match ReadQuoted(s[2..])
      case None => None
      case Some(r) => Some(Read("\"" + r.text, r.rest))
    else if s[0] == '"' then Some(Read("", s[1..]))
    else match ReadQuoted(s[1..])
      case None => None
      case Some(r) => Some(Read([s[0]] + r.text, r.rest))
  }

  function ReadField(s: string): (r: Option<Read>)
    ensures r.Some? ==> |r.value.rest| <= |s| && FieldEnds(r.value.rest)
  {
    if s != "" && s[0] == '"' then
      var r := ReadQuoted(s[1..]);
      if r.Some? && FieldEnds(r.value.rest) then r else None
    else ReadPlain(s)
  }

  /** The records of a file, each a list of fields; None for a file RFC 4180 does not allow. */
  function ReadFile(s: string): (r: Option<seq<seq<string>>>)
    ensures r.Some? ==> r.value != []
    decreases |s|
  {
    match ReadField(s)
    case None => None
    case Some(f) =>
      if f.rest == "" then Some([[f.text]])
      else if f.rest[0] == ',' then
        match ReadFile(f.rest[1..])
        case None => None
        case Some(more) => Some([[f.text] + more[0]] + more[1..])
      else
        match ReadFile(f.rest[2..])
        case None => None
        case Some(more) => Some([[f.text]] + more)
  }

  // ── A field comes back ──────────────────────────────────────────────────────────────────────

  lemma {:induction false} PlainReads(s: string, tail: string)
    requires Plain(s) && FieldEnds(tail)
    ensures ReadPlain(s + tail) == Some(Read(s, tail))
  {
    if s == "" {
      assert s + tail == tail;
      assert ReadPlain(tail) == Some(Read("", tail));
    } else {
      assert (s + tail)[0] == s[0] && (s + tail)[1..] == s[1..] + tail;
      PlainReads(s[1..], tail);
      assert s == [s[0]] + s[1..];
    }
  }

  lemma DoubledReads(more: string, r: Read)
    requires ReadQuoted(more) == Some(r)
    ensures ReadQuoted("\"\"" + more) == Some(Read("\"" + r.text, r.rest))
  {
    assert ("\"\"" + more)[2..] == more;
  }

  lemma CharReads(c: char, more: string, r: Read)
    requires ReadQuoted(more) == Some(r) && c != '"'
    ensures ReadQuoted([c] + more) == Some(Read([c] + r.text, r.rest))
  {
    assert ([c] + more)[1..] == more;
  }

  /** What quoting a text starts with, and what it goes on with. */
  lemma QuotedStarts(s: string, tail: string)
    requires s != ""
    ensures var more := DoubleQuotes(s[1..]) + "\"" + tail;
            DoubleQuotes(s) + "\"" + tail == (if s[0] == '"' then "\"\"" else [s[0]]) + more
  {
  }

  lemma {:induction false} QuotedReads(s: string, tail: string)
    requires FieldEnds(tail)
    ensures ReadQuoted(DoubleQuotes(s) + "\"" + tail) == Some(Read(s, tail))
  {
    var t := DoubleQuotes(s) + "\"" + tail;
    if s == "" {
      assert t == "\"" + tail && t[1..] == tail;
      assert ReadQuoted(t) == Some(Read("", tail));
    } else {
      var more := DoubleQuotes(s[1..]) + "\"" + tail;
      QuotedReads(s[1..], tail);
      QuotedStarts(s, tail);
      assert s == [s[0]] + s[1..];
      if s[0] == '"' {
        DoubledReads(more, Read(s[1..], tail));
      } else {
        CharReads(s[0], more, Read(s[1..], tail));
      }
    }
  }

  /** What a reader sees in a cell: its text, a long reference with one leading tab, nothing for no value. */
  function Shown(c: Column, v: Cell): string {
    match v
    case None => ""
    case Some(s) => if c.isRef && LongDigits(s) then "\t" + s else s
  }

  lemma QuotedFieldReads(s: string, tail: string)
    requires FieldEnds(tail)
    ensures ReadField("\"" + DoubleQuotes(s) + "\"" + tail) == Some(Read(s, tail))
  {
    var t := DoubleQuotes(s) + "\"" + tail;
    var quoted := "\"" + DoubleQuotes(s) + "\"" + tail;
    assert quoted != "" && quoted[0] == '"' && quoted[1..] == t;
    QuotedReads(s, tail);
    assert ReadField(quoted) == ReadQuoted(t);
  }

  lemma PlainFieldReads(s: string, tail: string)
    requires Plain(s) && FieldEnds(tail)
    ensures ReadField(s + tail) == Some(Read(s, tail))
  {
    PlainReads(s, tail);
    if s == "" { assert s + tail == tail; } else { assert (s + tail)[0] == s[0]; }
  }

  lemma EscapedReads(v: Cell, tail: string)
    requires FieldEnds(tail)
    ensures ReadField(CsvEscape(v) + tail) == Some(Read(if v.Some? then v.value else "", tail))
  {
    match v
    case None => PlainFieldReads("", tail);
    case Some(s) => if Plain(s) { PlainFieldReads(s, tail); } else { QuotedFieldReads(s, tail); }
  }

  lemma {:induction false} NothingToDouble(s: string)
    requires forall i :: 0 <= i < |s| ==> s[i] != '"'
    ensures DoubleQuotes(s) == s
  {
    if s != "" { NothingToDouble(s[1..]); }
  }

  /** Whatever the cell holds, the field written for it reads back as what is shown. */
  lemma FieldReads(c: Column, v: Cell, tail: string)
    requires FieldEnds(tail)
    ensures ReadField(Field(c, v) + tail) == Some(Read(Shown(c, v), tail))
  {
    if c.isRef && v.Some? && LongDigits(v.value) {
      var t := "\t" + v.value;
      NothingToDouble(t);
      QuotedFieldReads(t, tail);
      assert "\"\t" + v.value + "\"" == "\"" + DoubleQuotes(t) + "\"";
    } else {
      EscapedReads(v, tail);
    }
  }

  // ── A file comes back ───────────────────────────────────────────────────────────────────────

  /** Each written field reads back as its text, whatever follows it. */
  ghost predicate Reads(fields: seq<string>, texts: seq<string>) {
    && |fields| == |texts|
    && forall i, tail :: 0 <= i < |fields| && FieldEnds(tail) ==>
         ReadField(fields[i] + tail) == Some(Read(texts[i], tail))
  }

  lemma CommaReads(text: string, field: string, rest: string)
    requires ReadField(text) == Some(Read(field, "," + rest)) && ReadFile(rest).Some?
    ensures var more := ReadFile(rest).value;
            ReadFile(text) == Some([[field] + more[0]] + more[1..])
  {
    assert ("," + rest)[1..] == rest;
  }

  lemma EndReads(text: string, field: string)
    requires ReadField(text) == Some(Read(field, ""))
    ensures ReadFile(text) == Some([[field]])
  {
  }

  lemma BreakReads(text: string, field: string, rest: string)
    requires ReadField(text) == Some(Read(field, CRLF + rest)) && ReadFile(rest).Some?
    ensures ReadFile(text) == Some([[field]] + ReadFile(rest).value)
  {
    assert (CRLF + rest)[2..] == rest;
  }

  /** The line's first field, and then the rest of the line. */
  lemma FirstFieldReads(fields: seq<string>, texts: seq<string>, after: string)
    requires |fields| >= 2 && Reads(fields, texts)
    requires ReadFile(Join(fields[1..], ",") + after).Some?
    ensures var more := ReadFile(Join(fields[1..], ",") + after).value;
            ReadFile(Join(fields, ",") + after) == Some([[texts[0]] + more[0]] + more[1..])
  {
    var rest := Join(fields[1..], ",") + after;
    JoinFirst(fields, ",", after);
    var tail := "," + rest;
    assert FieldEnds(tail);
    CommaReads(fields[0] + tail, texts[0], rest);
  }

  lemma JoinFirst(xs: seq<string>, sep: string, after: string)
    requires |xs| >= 2
    ensures Join(xs, sep) + after == xs[0] + (sep + (Join(xs[1..], sep) + after))
  {
  }

  lemma ReadsRest(fields: seq<string>, texts: seq<string>)
    requires fields != [] && Reads(fields, texts)
    ensures Reads(fields[1..], texts[1..])
  {
  }

  /** The last line reads as one record. */
  lemma {:induction false} LastRecordReads(fields: seq<string>, texts: seq<string>)
    requires fields != [] && Reads(fields, texts)
    ensures ReadFile(Join(fields, ",") + "") == Some([texts])
  {
    if |fields| == 1 {
      assert FieldEnds("");
      EndReads(fields[0] + "", texts[0]);
      assert texts == [texts[0]];
    } else {
      ReadsRest(fields, texts);
      LastRecordReads(fields[1..], texts[1..]);
      FirstFieldReads(fields, texts, "");
      MoreFields(texts[0], texts, []);
      assert [texts[1..]] + [] == [texts[1..]] && [texts] + [] == [texts];
    }
  }

  lemma MoreFields(field: string, texts: seq<string>, records: seq<seq<string>>)
    requires texts != [] && field == texts[0]
    ensures var more := [texts[1..]] + records; [[field] + more[0]] + more[1..] == [texts] + records
  {
    var more := [texts[1..]] + records;
    assert more[1..] == records && [texts[0]] + texts[1..] == texts;
  }

  /** A line before the rest of the file reads as the first of its records. */
  lemma {:induction false} RecordReads(fields: seq<string>, texts: seq<string>, file: string)
    requires fields != [] && Reads(fields, texts) && ReadFile(file).Some?
    ensures ReadFile(Join(fields, ",") + (CRLF + file)) == Some([texts] + ReadFile(file).value)
  {
    if |fields| == 1 {
      var tail := CRLF + file;
      assert FieldEnds(tail);
      BreakReads(fields[0] + tail, texts[0], file);
      assert texts == [texts[0]];
    } else {
      ReadsRest(fields, texts);
      RecordReads(fields[1..], texts[1..], file);
      FirstFieldReads(fields, texts, CRLF + file);
      MoreFields(texts[0], texts, ReadFile(file).value);
    }
  }

  ghost predicate LinesRead(lines: seq<seq<string>>, records: seq<seq<string>>) {
    && |lines| == |records|
    && forall r :: 0 <= r < |lines| ==> lines[r] != [] && Reads(lines[r], records[r])
  }

  function Joined(lines: seq<seq<string>>): seq<string> {
    seq(|lines|, r requires 0 <= r < |lines| => Join(lines[r], ","))
  }

  lemma JoinedFirst(lines: seq<seq<string>>)
    requires |lines| >= 2
    ensures Join(Joined(lines), CRLF) == Join(lines[0], ",") + (CRLF + Join(Joined(lines[1..]), CRLF))
  {
    var all, rest := Joined(lines), Joined(lines[1..]);
    assert all[1..] == rest;
    JoinFirst(all, CRLF, "");
    assert Join(all, CRLF) + "" == Join(all, CRLF) && Join(rest, CRLF) + "" == Join(rest, CRLF);
  }

  lemma LinesReadRest(lines: seq<seq<string>>, records: seq<seq<string>>)
    requires lines != [] && LinesRead(lines, records)
    ensures lines[0] != [] && Reads(lines[0], records[0]) && LinesRead(lines[1..], records[1..])
    ensures records == [records[0]] + records[1..]
  {
    forall r | 0 <= r < |lines[1..]| ensures lines[1..][r] != [] && Reads(lines[1..][r], records[1..][r]) {
      assert lines[1..][r] == lines[r + 1] && records[1..][r] == records[r + 1];
    }
  }

  /** Lines of fields that read back make a file that reads back. */
  lemma {:induction false} FileReads(lines: seq<seq<string>>, records: seq<seq<string>>)
    requires lines != [] && LinesRead(lines, records)
    ensures ReadFile(Join(Joined(lines), CRLF)) == Some(records)
  {
    LinesReadRest(lines, records);
    if |lines| == 1 {
      LastRecordReads(lines[0], records[0]);
      assert Joined(lines) == [Join(lines[0], ",")];
      assert Join(lines[0], ",") + "" == Join(lines[0], ",");
      assert records == [records[0]];
    } else {
      FileReads(lines[1..], records[1..]);
      RecordReads(lines[0], records[0], Join(Joined(lines[1..]), CRLF));
      JoinedFirst(lines);
    }
  }

  // ── The export ──────────────────────────────────────────────────────────────────────────────

  function Headers(columns: seq<Column>): seq<string> {
    seq(|columns|, i requires 0 <= i < |columns| => columns[i].header)
  }

  function ShownRow(columns: seq<Column>, row: seq<Cell>): seq<string>
    requires Fits(columns, row)
  {
    seq(|columns|, i requires 0 <= i < |columns| => Shown(columns[i], row[i]))
  }

  /** The header texts and the cell texts, row by row. */
  function Shows(columns: seq<Column>, rows: seq<seq<Cell>>): seq<seq<string>>
    requires AllFit(columns, rows)
  {
    [Headers(columns)] + seq(|rows|, r requires 0 <= r < |rows| => ShownRow(columns, rows[r]))
  }

  lemma HeadReads(columns: seq<Column>)
    ensures Reads(HeadLine(columns), Headers(columns))
  {
    forall i, tail | 0 <= i < |columns| && FieldEnds(tail)
      ensures ReadField(HeadLine(columns)[i] + tail) == Some(Read(Headers(columns)[i], tail))
    {
      EscapedReads(Some(columns[i].header), tail);
    }
  }

  lemma RowReads(columns: seq<Column>, row: seq<Cell>)
    requires Fits(columns, row)
    ensures Reads(RowLine(columns, row), ShownRow(columns, row))
  {
    forall i, tail | 0 <= i < |columns| && FieldEnds(tail)
      ensures ReadField(RowLine(columns, row)[i] + tail) == Some(Read(ShownRow(columns, row)[i], tail))
    {
      FieldReads(columns[i], row[i], tail);
    }
  }

  function Lines(columns: seq<Column>, rows: seq<seq<Cell>>): seq<seq<string>>
    requires AllFit(columns, rows)
  {
    [HeadLine(columns)] + seq(|rows|, r requires 0 <= r < |rows| => RowLine(columns, rows[r]))
  }

  /** A reader gets back exactly the header and cell texts, for any text, whenever there is a column. */
  lemma ExportReadsBack(columns: seq<Column>, rows: seq<seq<Cell>>)
    requires AllFit(columns, rows) && columns != []
    ensures ReadFile(ToCsv(columns, rows)) == Some(Shows(columns, rows))
  {
    var lines, records := Lines(columns, rows), Shows(columns, rows);
    forall r | 0 <= r < |lines| ensures lines[r] != [] && Reads(lines[r], records[r]) {
      HeadReads(columns);
      if r > 0 { RowReads(columns, rows[r - 1]); }
    }
    FileReads(lines, records);
    assert Joined(lines) == [Join(HeadLine(columns), ",")] + Body(columns, rows);
  }

  /** An export without columns still shows a reader one empty field, so one column is needed. */
  lemma ReadsBackExactlyWithAColumn(columns: seq<Column>, rows: seq<seq<Cell>>)
    requires AllFit(columns, rows)
    ensures ReadFile(ToCsv(columns, rows)) == Some(Shows(columns, rows)) <==> columns != []
  {
    if columns != [] {
      ExportReadsBack(columns, rows);
    } else {
      var text := ToCsv(columns, rows);
      assert text == "" || AtBreak(text);
      assert ReadField(text) == Some(Read("", text));
      assert ReadFile(text).Some? ==> ReadFile(text).value[0] == [""];
    }
  }
}
