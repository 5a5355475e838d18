/** The CSV export of the worklog report, and a reader that follows section 2 of RFC 4180 with line feeds
  * as line breaks. */
module WorklogCsv {
  import opened Results
  import opened JsText

  // ---------- The export ----------

  predicate NeedsQuotes(v: string) {
    exists c <- v :: c == '"' || c == ',' || c == '\n'
  }

  function DoubleQuotes(v: string): string {
    if v == "" then "" else (if v[0] == '"' then ['"', '"'] else [v[0]]) + DoubleQuotes(v[1..])
  }

  function Escape(v: string): string {
    if NeedsQuotes(v) then ['"'] + DoubleQuotes(v) + ['"'] else v
  }

  function EscapeAll(fields: seq<string>): seq<string> {
    if fields == [] then [] else [Escape(fields[0])] + EscapeAll(fields[1..])
  }

  function Line(fields: seq<string>): string {
    Join(EscapeAll(fields), [','])
  }

  function Lines(table: seq<seq<string>>): seq<string> {
    if table == [] then [] else [Line(table[0])] + Lines(table[1..])
  }

  function Encode(table: seq<seq<string>>): string {
    Join(Lines(table), ['\n'])
  }

  /** A row of the report; hours are already written out. */
  datatype ReportRow = ReportRow(name: string, email: string, cells: seq<string>, total: string)

  function Header(weekStarts: seq<string>): seq<string> {
    ["Name", "Email"] + weekStarts + ["Total (hours)"]
  }

  function Record(r: ReportRow): seq<string> {
    [r.name, r.email] + r.cells + [r.total]
  }

  function Table(weekStarts: seq<string>, rows: seq<ReportRow>): seq<seq<string>> {
    [Header(weekStarts)] + seq(|rows|, i requires 0 <= i < |rows| => Record(rows[i]))
  }

  /** What is exported is read back as the table that was shown, whatever the names and cells. */
  method ExportCsv(weekStarts: seq<string>, rows: seq<ReportRow>) returns (csv: string)
    ensures ReadTable(csv) == Some(Table(weekStarts, rows))
    ensures var table := ReadTable(csv).value;
            && |table| == |rows| + 1 && table[0] == ["Name", "Email"] + weekStarts + ["Total (hours)"]
            && forall i | 0 <= i < |rows| ::
                 table[i + 1] == [rows[i].name, rows[i].email] + rows[i].cells + [rows[i].total]
  {
    var table := Table(weekStarts, rows);
    var lines := [Line(Header(weekStarts))];
    assert table[..1] == [Header(weekStarts)];
    assert Lines([Header(weekStarts)]) == lines;
    for i := 0 to |rows|
      invariant lines == Lines(table[..i + 1])
    {
      LinesThen(table[..i + 1], table[i + 1]);
      assert table[..i + 1] + [table[i + 1]] == table[..i + 2];
      lines := lines + [Line(Record(rows[i]))];
    }
    assert table[..|rows| + 1] == table;
    forall i | 0 <= i < |table| ensures |table[i]| >= 2 {}
    TableReadsBack(table);
    return Join(lines, ['\n']);
  }

  lemma {:induction false} LinesThen(table: seq<seq<string>>, row: seq<string>)
    ensures Lines(table + [row]) == Lines(table) + [Line(row)]
  {
    if table == [] {
      assert table + [row] == [row];
    } else {
      assert (table + [row])[1..] == table[1..] + [row];
      LinesThen(table[1..], row);
    }
  }

  // ---------- The reader ----------

  /** What has been read and what is left. */
  datatype Piece<T> = Piece(value: T, rest: string)

  /** From behind the opening quote to behind the closing one; two quotes stand for one. */
  function ReadQuoted(s: string): (r: Option<Piece<string>>)
    ensures r.Some? ==> |r.value.rest| < |s|
  {
    if s == "" then None
    else if s[0] != '"' then Before(s[0], ReadQuoted(s[1..]))
    else if |s| > 1 && s[1] == '"' then Before('"', ReadQuoted(s[2..]))
    else Some(Piece("", s[1..]))
  }

  function Before(c: char, r: Option<Piece<string>>): Option<Piece<string>> {
    match r
    case None => None
    case Some(p) => Some(Piece([c] + p.value, p.rest))
  }

  predicate EndsField(s: string) {
    s == "" || s[0] == ',' || s[0] == '\n'
  }

  /** A field without quotes must not contain any. */
  function ReadPlain(s: string): (r: Option<Piece<string>>)
    ensures r.Some? ==> |r.value.rest| <= |s|
  {
    if EndsField(s) then Some(Piece("", s))
    else if s[0] == '"' then None
    else Before(s[0], ReadPlain(s[1..]))
  }

  function ReadField(s: string): (r: Option<Piece<string>>)
    ensures r.Some? ==> |r.value.rest| <= |s|
  {
    if s != "" && s[0] == '"' then ReadQuoted(s[1..]) else ReadPlain(s)
  }

  /** Fields separated by commas, up to a line break or the end. */
  function ReadRecord(s: string): (r: Option<Piece<seq<string>>>)
    ensures r.Some? ==> |r.value.rest| <= |s|
    decreases |s|
  {
    match ReadField(s)
    case None => None
    case Some(Piece(field, rest)) =>
      if rest == "" || rest[0] == '\n' then Some(Piece([field], rest))
      else if rest[0] != ',' then None
      else match ReadRecord(rest[1..])
           case None => None
           case Some(Piece(fields, rest')) => Some(Piece([field] + fields, rest'))
  }

  /** Records separated by line breaks; the last one may have a line break too. */
  function ReadTable(s: string): Option<seq<seq<string>>>
    decreases |s|
  {
    match ReadRecord(s)
    case None => None
    case Some(Piece(fields, rest)) =>
      if |rest| <= 1 then Some([fields])
      else match ReadTable(rest[1..])
           case None => None
           case Some(records) => Some([fields] + records)
  }

  // ---------- Reading undoes writing ----------

  lemma {:induction false} QuotedReadsBack(v: string, tail: string)
    requires tail == "" || tail[0] != '"'
    ensures ReadQuoted(DoubleQuotes(v) + (['"'] + tail)) == Some(Piece(v, tail))
  {
    var s := DoubleQuotes(v) + (['"'] + tail);
    if v == "" {
      assert s == ['"'] + tail;
    } else {
      QuotedReadsBack(v[1..], tail);
      assert v == [v[0]] + v[1..];
      if v[0] == '"' {
        assert s[2..] == DoubleQuotes(v[1..]) + (['"'] + tail);
      } else {
        assert s[1..] == DoubleQuotes(v[1..]) + (['"'] + tail);
      }
    }
  }

  lemma {:induction false} PlainReadsBack(v: string, tail: string)
    requires !NeedsQuotes(v) && EndsField(tail)
    ensures ReadPlain(v + tail) == Some(Piece(v, tail))
  {
    if v == "" {
      assert v + tail == tail;
    } else {
      assert (v + tail)[1..] == v[1..] + tail && v == [v[0]] + v[1..];
      assert v[0] in v && forall c <- v[1..] :: c in v;
      PlainReadsBack(v[1..], tail);
    }
  }

  lemma OpensQuoted(x: string)
    ensures ReadField(['"'] + x) == ReadQuoted(x)
  {}

  lemma OpensPlain(v: string, tail: string)
    requires !NeedsQuotes(v) && EndsField(tail)
    ensures ReadField(v + tail) == ReadPlain(v + tail)
  {
    assert v != "" ==> v[0] in v;
  }

  lemma FieldReadsBack(v: string, tail: string)
    requires EndsField(tail)
    ensures ReadField(Escape(v) + tail) == Some(Piece(v, tail))
  {
    if NeedsQuotes(v) {
      QuotedReadsBack(v, tail);
      OpensQuoted(DoubleQuotes(v) + (['"'] + tail));
      Regroup(DoubleQuotes(v), tail);
    } else {
      PlainReadsBack(v, tail);
      OpensPlain(v, tail);
    }
  }

  lemma Regroup(x: string, tail: string)
    ensures ['"'] + x + ['"'] + tail == ['"'] + (x + (['"'] + tail))
  {}

  lemma OneField(fields: seq<string>)
    requires |fields| == 1
    ensures Line(fields) == Escape(fields[0]) && fields == [fields[0]]
  {
    assert EscapeAll(fields[1..]) == [];
  }

  lemma OneRecord(table: seq<seq<string>>)
    requires |table| == 1
    ensures Encode(table) == Line(table[0]) && table == [table[0]]
  {
    assert Lines(table[1..]) == [];
  }

  lemma LastPiece(s: string, fields: seq<string>)
    requires ReadRecord(s + "") == Some(Piece(fields, ""))
    ensures ReadTable(s) == Some([fields])
  {
    assert s + "" == s;
  }

  lemma {:induction false} RecordReadsBack(fields: seq<string>, tail: string)
    requires fields != [] && (tail == "" || tail[0] == '\n')
    ensures ReadRecord(Line(fields) + tail) == Some(Piece(fields, tail))
    decreases |fields|
  {
    if |fields| == 1 {
      FieldReadsBack(fields[0], tail);
      OneField(fields);
    } else {
      var rest := Line(fields[1..]) + tail;
      RecordReadsBack(fields[1..], tail);
      FieldReadsBack(fields[0], [','] + rest);
      LineStep(fields, tail);
      assert ([','] + rest)[1..] == rest;
      assert fields == [fields[0]] + fields[1..];
    }
  }

  lemma LineStep(fields: seq<string>, tail: string)
    requires |fields| > 1
    ensures Line(fields) + tail == Escape(fields[0]) + ([','] + (Line(fields[1..]) + tail))
  {}

  lemma LineIsNotEmpty(fields: seq<string>)
    requires |fields| >= 2
    ensures Line(fields) != ""
  {
    LineStep(fields, "");
  }

  /** The reader recovers every table whose records have two fields or more. */
  lemma {:induction false} TableReadsBack(table: seq<seq<string>>)
    requires table != [] && forall i | 0 <= i < |table| :: |table[i]| >= 2
    ensures ReadTable(Encode(table)) == Some(table)
    decreases |table|
  {
    if |table| == 1 {
      RecordReadsBack(table[0], "");
      OneRecord(table);
      LastPiece(Encode(table), table[0]);
    } else {
      var rest := Encode(table[1..]);
      TableReadsBack(table[1..]);
      RecordReadsBack(table[0], ['\n'] + rest);
      TableStep(table);
      assert table == [table[0]] + table[1..];
    }
  }

  lemma TableStep(table: seq<seq<string>>)
    requires |table| > 1 && |table[1]| >= 2
    ensures Encode(table) == Line(table[0]) + (['\n'] + Encode(table[1..])) && Encode(table[1..]) != ""
  {
    assert Lines(table)[1..] == Lines(table[1..]);
    LineIsNotEmpty(table[1]);
    assert Lines(table[1..])[0] == Line(table[1]);
  }

  /** Different tables are exported as different texts. */
  lemma EncodeIsInjective(a: seq<seq<string>>, b: seq<seq<string>>)
    requires a != [] && b != [] && Encode(a) == Encode(b)
    requires forall i | 0 <= i < |a| :: |a[i]| >= 2
    requires forall i | 0 <= i < |b| :: |b[i]| >= 2
    ensures a == b
  {
    TableReadsBack(a);
    TableReadsBack(b);
  }

  // ---------- The text of a record ----------

  /** Holds none of the three characters that call for quotes. */
  predicate IsBare(v: string) {
    forall i | 0 <= i < |v| :: v[i] != '"' && v[i] != ',' && v[i] != '\n'
  }

  lemma BareIsItself(v: string)
    requires IsBare(v)
    ensures Escape(v) == v
  {}

  /** Fields without special characters stand as they are, with commas between them. */
  lemma {:induction false} BareFieldsStand(fields: seq<string>)
    requires forall i | 0 <= i < |fields| :: IsBare(fields[i])
    ensures Line(fields) == Join(fields, ",")
  {
    BareEscapes(fields);
    assert [','] == ",";
  }

  lemma {:induction false} BareEscapes(fields: seq<string>)
    requires forall i | 0 <= i < |fields| :: IsBare(fields[i])
    ensures EscapeAll(fields) == fields
  {
    if fields != [] {
      BareIsItself(fields[0]);
      BareEscapes(fields[1..]);
    }
  }

  lemma {:induction false} DoubledConcat(a: string, b: string)
    ensures DoubleQuotes(a + b) == DoubleQuotes(a) + DoubleQuotes(b)
  {
    if a == "" {
      assert a + b == b;
    } else {
      assert (a + b)[1..] == a[1..] + b;
      DoubledConcat(a[1..], b);
    }
  }

  lemma {:induction false} NothingDoubled(v: string)
    requires forall i | 0 <= i < |v| :: v[i] != '"'
    ensures DoubleQuotes(v) == v
  {
    if v != "" {
      NothingDoubled(v[1..]);
    }
  }

  function Twice(c: char): string {
    if c == '"' then "\"\"" else [c]
  }

  lemma DoubledOne(c: char)
    ensures DoubleQuotes([c]) == Twice(c)
  {
    assert [c][1..] == "";
  }

  lemma DoubledAround(a: string, c: char, b: string)
    requires IsBare(a) && IsBare(b)
    ensures DoubleQuotes(a + [c] + b) == a + Twice(c) + b
  {
    DoubledConcat(a + [c], b);
    DoubledConcat(a, [c]);
    NothingDoubled(a);
    NothingDoubled(b);
    DoubledOne(c);
  }

  lemma Surrounded(a: string, x: string, b: string)
    ensures ['"'] + (a + x + b) + ['"'] == "\"" + a + x + b + "\""
  {}

  /** A comma or a line break puts the field in quotes, and a quote inside is written twice. */
  lemma SpecialFieldsAreQuoted(a: string, c: char, b: string)
    requires IsBare(a) && IsBare(b) && (c == ',' || c == '\n' || c == '"')
    ensures Escape(a + [c] + b) == "\"" + a + Twice(c) + b + "\""
  {
    var v := a + [c] + b;
    assert v[|a|] == c;
    assert v[|a|] in v;
    DoubledAround(a, c, b);
    Surrounded(a, Twice(c), b);
  }

  /** Each record stands on a line of its own. */
  lemma RecordsStandOnLines(first: seq<string>, rest: seq<seq<string>>)
    requires rest != []
    ensures Encode([first] + rest) == Line(first) + "\n" + Encode(rest)
  {
    assert ([first] + rest)[1..] == rest;
    assert Lines([first] + rest)[1..] == Lines(rest);
  }
}
