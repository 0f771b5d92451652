/**
 The CSV export of audit rows, and the reader that section 2 of RFC 4180 describes, with a line feed
 between records.
 */
module AuditExport {
  import opened Prelude

  datatype AuditRow = AuditRow(
    createdAt: string,
    actorEmail: Option<string>,
    action: string,
    resourceType: string,
    resourceId: Option<string>,
    outcome: string,
    ipAddress: Option<string>,
    userAgent: Option<string>,
    metadata: string)

  const COLUMNS := ["timestamp", "actor", "action", "resourceType", "resourceId", "outcome", "ipAddress", "userAgent", "metadata"]

  // ---------------------------------------------------------------- writing

  function Text(value: Option<string>): string {
    if value.Some? then value.value else ""
  }

  function Cells(row: AuditRow): seq<string> {
    [row.createdAt, Text(row.actorEmail), row.action, row.resourceType, Text(row.resourceId),
     row.outcome, Text(row.ipAddress), Text(row.userAgent), row.metadata]
  }

  function QuotesDoubled(s: string): string {
    if s == "" then "" else (if s[0] == '"' then "\"\"" else [s[0]]) + QuotesDoubled(s[1..])
  }

  function Escape(v: string): string {
    "\"" + QuotesDoubled(v) + "\""
  }

  function Join(parts: seq<string>, separator: char): string
    requires parts != []
  {
    if |parts| == 1 then parts[0] else parts[0] + [separator] + Join(parts[1..], separator)
  }

  function Escaped(cells: seq<string>): (parts: seq<string>)
    ensures |parts| == |cells|
  {
    if cells == [] then [] else [Escape(cells[0])] + Escaped(cells[1..])
  }

  function Line(row: AuditRow): string {
    Join(Escaped(Cells(row)), ',')
  }

  function Lines(rows: seq<AuditRow>): (lines: seq<string>)
    ensures |lines| == |rows|
  {
    if rows == [] then [] else [Line(rows[0])] + Lines(rows[1..])
  }

  /** The header line is not quoted. */
  function Header(): string {
    Join(COLUMNS, ',')
  }

  function Export(rows: seq<AuditRow>): string {
    Join([Header()] + Lines(rows), '\n')
  }

  // ---------------------------------------------------------------- reading

  datatype Mode = FieldStart | Plain | Quoted | AfterQuote

  /** What has been read so far: complete records, the fields of the current one, and the current field. */
  datatype Reader = Reader(mode: Mode, field: string, fields: seq<string>, records: seq<seq<string>>)

  function Put(r: Reader, mode: Mode, c: char): Reader {
    r.(mode := mode, field := r.field + [c])
  }

  function EndField(r: Reader): Reader {
    Reader(FieldStart, "", r.fields + [r.field], r.records)
  }

  function EndRecord(r: Reader): Reader {
    Reader(FieldStart, "", [], r.records + [r.fields + [r.field]])
  }

  /** One character; no reader if the text breaks the rules there. */
  function Read(r: Reader, c: char): Option<Reader> {
    match r.mode
    case Quoted => Some(if c == '"' then r.(mode := AfterQuote) else Put(r, Quoted, c))
    case AfterQuote =>
      if c == '"' then Some(Put(r, Quoted, c))
      else if c == ',' then Some(EndField(r))
      else if c == '\n' then Some(EndRecord(r))
      else None
    case _ =>
      if c == '"' then (if r.mode == FieldStart then Some(r.(mode := Quoted)) else None)
      else if c == ',' then Some(EndField(r))
      else if c == '\n' then Some(EndRecord(r))
      else Some(Put(r, Plain, c))
  }

  function ReadAll(r: Reader, text: string): Option<Reader>
    decreases |text|
  {
    if text == "" then Some(r)
    else match Read(r, text[0])
      case None => None
      case Some(next) => ReadAll(next, text[1..])
  }

  const START := Reader(FieldStart, "", [], [])

  /** The records of a text; the last one may or may not end in a line feed. */
  function Parse(text: string): Option<seq<seq<string>>> {
    match ReadAll(START, text)
    case None => None
    case Some(r) =>
      if r.mode == Quoted then None
      else if r.mode == FieldStart && r.fields == [] then Some(r.records)
      else Some(EndRecord(r).records)
  }

  // ------------------------------------------------------------- round trip

  lemma {:induction false} ReadConcat(r: Reader, first: string, second: string)
    ensures ReadAll(r, first + second) == match ReadAll(r, first) case None => None case Some(next) => ReadAll(next, second)
    decreases |first|
  {
    if first == "" {
      assert first + second == second;
    } else {
      assert (first + second)[1..] == first[1..] + second;
      if Read(r, first[0]).Some? {
        ReadConcat(Read(r, first[0]).value, first[1..], second);
      }
    }
  }

  lemma ReadOne(r: Reader, c: char)
    ensures ReadAll(r, [c]) == Read(r, c)
  {
    assert [c][1..] == "";
  }

  /** Inside quotes a doubled quote reads back as one, any other character as itself. */
  lemma ReadQuotedOne(r: Reader, c: char)
    requires r.mode == Quoted
    ensures ReadAll(r, if c == '"' then "\"\"" else [c]) == Some(Put(r, Quoted, c))
  {
    if c == '"' {
      ReadOne(r, '"');
      ReadOne(r.(mode := AfterQuote), '"');
      ReadConcat(r, "\"", "\"");
      assert "\"" + "\"" == "\"\"";
    } else {
      ReadOne(r, c);
    }
  }

  /** So nothing in a value ends the field. */
  lemma {:induction false} ReadDoubled(r: Reader, v: string)
    requires r.mode == Quoted
    ensures ReadAll(r, QuotesDoubled(v)) == Some(r.(field := r.field + v))
    decreases |v|
  {
    hide Read;
    if v == "" {
      assert r.field + v == r.field;
    } else {
      var head := if v[0] == '"' then "\"\"" else [v[0]];
      var next := Put(r, Quoted, v[0]);
      ReadQuotedOne(r, v[0]);
      ReadConcat(r, head, QuotesDoubled(v[1..]));
      ReadDoubled(next, v[1..]);
      assert r.field + [v[0]] + v[1..] == r.field + v;
    }
  }

  lemma ReadEscaped(r: Reader, v: string)
    requires r.mode == FieldStart && r.field == ""
    ensures ReadAll(r, Escape(v)) == Some(r.(mode := AfterQuote, field := v))
  {
    var inside := r.(mode := Quoted);
    ReadOne(r, '"');
    ReadDoubled(inside, v);
    assert r.field + v == v;
    ReadOne(inside.(field := v), '"');
    ReadConcat(inside, QuotesDoubled(v), "\"");
    ReadConcat(r, "\"", QuotesDoubled(v) + "\"");
    assert "\"" + (QuotesDoubled(v) + "\"") == Escape(v);
  }

  /** A part that leaves the reader at `mid`, then a separator, then the rest. */
  lemma ReadPart(r: Reader, part: string, mid: Reader, separator: char, next: Reader, rest: string)
    requires ReadAll(r, part) == Some(mid) && Read(mid, separator) == Some(next)
    ensures ReadAll(r, part + [separator] + rest) == ReadAll(next, rest)
  {
    hide Read;
    ReadConcat(r, part, [separator] + rest);
    assert part + ([separator] + rest) == part + [separator] + rest;
    ReadOne(mid, separator);
    ReadConcat(mid, [separator], rest);
  }

  lemma JoinFirst(parts: seq<string>, separator: char)
    requires parts != []
    ensures Join(parts, separator) == if |parts| == 1 then parts[0] else parts[0] + [separator] + Join(parts[1..], separator)
  {
  }

  lemma Shift<T>(before: seq<T>, x: T, after: seq<T>)
    ensures before + [x] + after == before + ([x] + after)
  {
  }

  lemma EscapedFirst(cells: seq<string>)
    requires cells != []
    ensures Escaped(cells)[0] == Escape(cells[0]) && Escaped(cells)[1..] == Escaped(cells[1..])
    ensures cells == [cells[0]] + cells[1..]
  {
  }

  /** A line of escaped cells leaves the reader with all of them, the last one still to be ended. */
  lemma {:induction false} ReadLine(r: Reader, cells: seq<string>) returns (quoted: Reader)
    requires r.mode == FieldStart && r.field == "" && cells != []
    ensures ReadAll(r, Join(Escaped(cells), ',')) == Some(quoted) && quoted.mode == AfterQuote
    ensures quoted.fields + [quoted.field] == r.fields + cells && quoted.records == r.records
    decreases |cells|
  {
    var first := r.(mode := AfterQuote, field := cells[0]);
    var next := EndField(first);
    assert Read(first, ',') == Some(next);
    hide Escape;
    hide Escaped;
    hide ReadAll;
    hide Read;
    hide Join;
    ReadEscaped(r, cells[0]);
    EscapedFirst(cells);
    JoinFirst(Escaped(cells), ',');
    if |cells| == 1 {
      quoted := first;
    } else {
      ReadPart(r, Escape(cells[0]), first, ',', next, Join(Escaped(cells[1..]), ','));
      quoted := ReadLine(next, cells[1..]);
      Shift(r.fields, cells[0], cells[1..]);
    }
  }

  function AllCells(rows: seq<AuditRow>): (records: seq<seq<string>>)
    ensures |records| == |rows| && forall k :: 0 <= k < |rows| ==> records[k] == Cells(rows[k])
  {
    if rows == [] then [] else [Cells(rows[0])] + AllCells(rows[1..])
  }

  lemma LinesFirst(rows: seq<AuditRow>)
    requires rows != []
    ensures Lines(rows)[0] == Line(rows[0]) && Lines(rows)[1..] == Lines(rows[1..])
    ensures AllCells(rows) == [Cells(rows[0])] + AllCells(rows[1..])
  {
    hide Line;
    hide Cells;
  }

  /** Reading on from a line feed through all remaining lines. */
  lemma {:induction false} ReadLines(r: Reader, rows: seq<AuditRow>) returns (quoted: Reader)
    requires r.mode == FieldStart && r.field == "" && r.fields == [] && rows != []
    ensures ReadAll(r, Join(Lines(rows), '\n')) == Some(quoted) && quoted.mode == AfterQuote
    ensures EndRecord(quoted).records == r.records + AllCells(rows)
    decreases |rows|
  {
    hide ReadAll;
    hide Escaped;
    hide Cells;
    hide Join;
    hide Lines;
    hide AllCells;
    var cells := Cells(rows[0]);
    assert cells != [] && Line(rows[0]) == Join(Escaped(cells), ',') by { CellsOf(rows[0]); }
    var first := ReadLine(r, cells);
    assert r.fields + cells == cells;
    LinesFirst(rows);
    JoinFirst(Lines(rows), '\n');
    if |rows| == 1 {
      quoted := first;
      assert [cells] + AllCells(rows[1..]) == [cells];
    } else {
      ReadPart(r, Line(rows[0]), first, '\n', EndRecord(first), Join(Lines(rows[1..]), '\n'));
      quoted := ReadLines(EndRecord(first), rows[1..]);
      Shift(r.records, cells, AllCells(rows[1..]));
    }
  }

  lemma CellsOf(row: AuditRow)
    ensures Cells(row) != [] && Line(row) == Join(Escaped(Cells(row)), ',')
  {
  }

  predicate IsPlain(v: string) {
    v != "" && forall k :: 0 <= k < |v| ==> v[k] != '"' && v[k] != ',' && v[k] != '\n'
  }

  lemma {:induction false} ReadPlain(r: Reader, v: string)
    requires (r.mode == FieldStart || r.mode == Plain) && IsPlain(v)
    ensures ReadAll(r, v) == Some(r.(mode := Plain, field := r.field + v))
    decreases |v|
  {
    var next := Put(r, Plain, v[0]);
    if |v| == 1 {
      assert v[1..] == "" && v == [v[0]];
    } else {
      ReadPlain(next, v[1..]);
      assert r.field + [v[0]] + v[1..] == r.field + v;
    }
  }

  lemma {:induction false} ReadPlainLine(r: Reader, names: seq<string>) returns (plain: Reader)
    requires r.mode == FieldStart && r.field == "" && names != [] && forall k :: 0 <= k < |names| ==> IsPlain(names[k])
    ensures ReadAll(r, Join(names, ',')) == Some(plain) && plain.mode == Plain
    ensures plain.fields + [plain.field] == r.fields + names && plain.records == r.records
    decreases |names|
  {
    var first := r.(mode := Plain, field := names[0]);
    var next := EndField(first);
    assert Read(first, ',') == Some(next);
    hide IsPlain;
    hide ReadAll;
    hide Read;
    hide Join;
    ReadPlain(r, names[0]);
    assert "" + names[0] == names[0];
    JoinFirst(names, ',');
    assert names == [names[0]] + names[1..];
    if |names| == 1 {
      plain := first;
    } else {
      ReadPart(r, names[0], first, ',', next, Join(names[1..], ','));
      plain := ReadPlainLine(next, names[1..]);
      Shift(r.fields, names[0], names[1..]);
    }
  }

  lemma ColumnsArePlain()
    ensures forall k :: 0 <= k < |COLUMNS| ==> IsPlain(COLUMNS[k])
  {
    assert IsPlain("timestamp") && IsPlain("actor") && IsPlain("action");
    assert IsPlain("resourceType") && IsPlain("resourceId") && IsPlain("outcome");
    assert IsPlain("ipAddress") && IsPlain("userAgent") && IsPlain("metadata");
  }

  lemma ReadHeader() returns (plain: Reader)
    ensures ReadAll(START, Header()) == Some(plain) && plain.mode == Plain && EndRecord(plain).records == [COLUMNS]
  {
    hide IsPlain;
    hide ReadAll;
    hide Join;
    ColumnsArePlain();
    plain := ReadPlainLine(START, COLUMNS);
    assert [] + COLUMNS == COLUMNS;
  }

  /** Whatever the cells contain, reading the export back gives the header and exactly the rows. */
  lemma ExportRoundTrip(rows: seq<AuditRow>)
    ensures Parse(Export(rows)) == Some([COLUMNS] + AllCells(rows))
  {
    hide ReadAll;
    hide Header;
    hide Lines;
    hide AllCells;
    var header := ReadHeader();
    assert ([Header()] + Lines(rows))[1..] == Lines(rows);
    if rows == [] {
      assert [COLUMNS] + AllCells(rows) == [COLUMNS];
    } else {
      ReadPart(START, Header(), header, '\n', EndRecord(header), Join(Lines(rows), '\n'));
      var quoted := ReadLines(EndRecord(header), rows);
    }
  }

  /** So two exports are the same text only for rows with the same cells. */
  lemma ExportIsInjective(a: seq<AuditRow>, b: seq<AuditRow>)
    ensures Export(a) == Export(b) <==> AllCells(a) == AllCells(b)
  {
    ExportRoundTrip(a);
    ExportRoundTrip(b);
    if Export(a) == Export(b) {
      assert AllCells(a) == ([COLUMNS] + AllCells(a))[1..] == ([COLUMNS] + AllCells(b))[1..] == AllCells(b);
    }
    if AllCells(a) == AllCells(b) {
      SameCellsSameLines(a, b);
    }
  }

  lemma {:induction false} SameCellsSameLines(a: seq<AuditRow>, b: seq<AuditRow>)
    requires AllCells(a) == AllCells(b)
    ensures Lines(a) == Lines(b)
  {
    assert |a| == |AllCells(a)| == |b|;
    if a != [] {
      assert AllCells(a)[0] == AllCells(b)[0];
      assert AllCells(a)[1..] == AllCells(a[1..]) && AllCells(b)[1..] == AllCells(b[1..]);
      SameCellsSameLines(a[1..], b[1..]);
    }
  }

  /** The record has nine cells, and that of the named column holds the text. */
  predicate Under(header: seq<string>, cells: seq<string>, column: nat, name: string, text: string) {
    |cells| == |header| == 9 && column < 9 && header[column] == name && cells[column] == text
  }

  ghost predicate HoldsEveryField(header: seq<string>, cells: seq<string>, row: AuditRow) {
    && Under(header, cells, 0, "timestamp", row.createdAt)
    && Under(header, cells, 1, "actor", if row.actorEmail.Some? then row.actorEmail.value else "")
    && Under(header, cells, 2, "action", row.action)
    && Under(header, cells, 3, "resourceType", row.resourceType)
    && Under(header, cells, 4, "resourceId", if row.resourceId.Some? then row.resourceId.value else "")
    && Under(header, cells, 5, "outcome", row.outcome)
    && Under(header, cells, 6, "ipAddress", if row.ipAddress.Some? then row.ipAddress.value else "")
    && Under(header, cells, 7, "userAgent", if row.userAgent.Some? then row.userAgent.value else "")
    && Under(header, cells, 8, "metadata", row.metadata)
  }

  lemma CellsHoldEveryField(row: AuditRow)
    ensures HoldsEveryField(COLUMNS, Cells(row), row)
  {
  }

  /** Read back, the n-th record holds every field of the n-th audit row under its name; a missing one is empty. */
  lemma EveryFieldUnderItsName(rows: seq<AuditRow>, n: nat)
    requires n < |rows|
    ensures Parse(Export(rows)).Some? && |Parse(Export(rows)).value| == |rows| + 1
    ensures HoldsEveryField(Parse(Export(rows)).value[0], Parse(Export(rows)).value[n + 1], rows[n])
  {
    hide Parse;
    hide Export;
    hide HoldsEveryField;
    hide Cells;
    ExportRoundTrip(rows);
    CellsHoldEveryField(rows[n]);
  }
}
