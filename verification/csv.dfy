/** The CSV export of materials and tools. The columns are every key of every
    row, in order of first appearance; every cell is quoted, with embedded
    quotes doubled, and records are separated by a line feed. A small parser
    for that quoted dialect of RFC 4180 (section 2, rules 5 to 7) reads the
    export back, which pins down the escaping and the layout. */
module Csv {
  import opened Common
  import opened Json
  import Strings
  import Lists

  /** A row is a plain object: its fields in key order. */
  type Row = seq<(string, Value)>

  // ---------------------------------------------------------------- columns

  /** `rows.flatMap(r => Object.keys(r))`. */
  function AllKeys(rows: seq<Row>): seq<string> {
    if |rows| == 0 then [] else Keys(rows[0]) + AllKeys(rows[1..])
  }

  lemma {:induction false} AllKeysIff(rows: seq<Row>, k: string)
    ensures k in AllKeys(rows) <==> exists i :: 0 <= i < |rows| && k in Keys(rows[i])
  {
    if |rows| > 0 {
      AllKeysIff(rows[1..], k);
      if k in AllKeys(rows[1..]) {
        var i :| 0 <= i < |rows[1..]| && k in Keys(rows[1..][i]);
        assert k in Keys(rows[i + 1]);
      }
      if exists i :: 0 <= i < |rows| && k in Keys(rows[i]) {
        var i :| 0 <= i < |rows| && k in Keys(rows[i]);
        if i > 0 {
          assert rows[1..][i - 1] == rows[i];
        }
      }
    }
  }

  /** `Array.from(new Set(s))`: each element at its first occurrence, in
      order. */
  function Distinct(s: seq<string>): seq<string> {
    if |s| == 0 then []
    else
      var prev := Distinct(s[..|s| - 1]);
      if s[|s| - 1] in prev then prev else prev + [s[|s| - 1]]
  }

  /** No element twice, and exactly the elements of the input. */
  lemma {:induction false} DistinctElements(s: seq<string>)
    ensures Lists.NoRepeats(Distinct(s))
    ensures forall x :: x in Distinct(s) <==> x in s
  {
    if |s| > 0 {
      var init := s[..|s| - 1];
      DistinctElements(init);
      assert s == init + [s[|s| - 1]];
    }
  }

  /** The first occurrences come in order: the columns found among the first
      `k` keys are a prefix of all the columns. */
  lemma {:induction false} DistinctPrefix(s: seq<string>, k: nat)
    requires k <= |s|
    ensures Distinct(s[..k]) <= Distinct(s)
    decreases |s| - k
  {
    if k < |s| {
      DistinctPrefix(s, k + 1);
      assert s[..k + 1][..k] == s[..k];
      if k + 1 == |s| {
        assert s[..k + 1] == s;
      }
    } else {
      assert s[..k] == s;
    }
  }

  /** A sequence without repeats is its own set of first occurrences. */
  lemma {:induction false} DistinctNoRepeats(s: seq<string>)
    requires Lists.NoRepeats(s)
    ensures Distinct(s) == s
  {
    if |s| > 0 {
      var init := s[..|s| - 1];
      DistinctNoRepeats(init);
      assert s[|s| - 1] !in init;
      assert s == init + [s[|s| - 1]];
    }
  }

  /** `cols`: the keys of all rows, each once, in order of first appearance. */
  function Columns(rows: seq<Row>): seq<string> {
    Distinct(AllKeys(rows))
  }

  /** Every key of every row is a column, every column a key of some row, and
      no column comes twice. */
  lemma ColumnsAreKeys(rows: seq<Row>, k: string)
    ensures k in Columns(rows) <==> exists i :: 0 <= i < |rows| && k in Keys(rows[i])
    ensures Lists.NoRepeats(Columns(rows))
  {
    DistinctElements(AllKeys(rows));
    AllKeysIff(rows, k);
  }

  /** The first row's keys come first, in that row's order. */
  lemma FirstRowLeads(rows: seq<Row>)
    requires |rows| > 0 && UniqueKeys(rows[0])
    ensures Keys(rows[0]) <= Columns(rows)
  {
    var all := AllKeys(rows);
    var first := Keys(rows[0]);
    assert all[..|first|] == first;
    DistinctPrefix(all, |first|);
    assert Lists.NoRepeats(first);
    DistinctNoRepeats(first);
  }

  // ---------------------------------------------------------------- cells

  /** `String(r[c] ?? '')`: a missing key and `null` both give the empty
      text. */
  function CellText(r: Row, c: string): string {
    match Get(r, c)
    case None => ""
    case Some(v) => if v.JNull? then "" else ToStr(v)
  }

  /** `.replace(/"/g, '""')`. */
  function DoubleQuotes(s: string): string {
    if |s| == 0 then ""
    else (if s[0] == '"' then "\"\"" else [s[0]]) + DoubleQuotes(s[1..])
  }

  /** `esc`: the text between quotes, its quotes doubled. */
  function Esc(s: string): string {
    "\"" + DoubleQuotes(s) + "\""
  }

  /** `cells.map(esc).join(',')`. */
  function Line(cells: seq<string>): string {
    Strings.Join(seq(|cells|, i requires 0 <= i < |cells| => Esc(cells[i])), ",")
  }

  /** The texts of one row under the columns. */
  function Cells(r: Row, cols: seq<string>): (cells: seq<string>)
    ensures |cells| == |cols|
  {
    seq(|cols|, i requires 0 <= i < |cols| => CellText(r, cols[i]))
  }

  /** `toCSV(rows)`: nothing for no rows, otherwise the header line and one
      line per row. */
  function ToCsv(rows: seq<Row>): string {
    if |rows| == 0 then ""
    else
      var cols := Columns(rows);
      Line(cols) + "\n" + Strings.Join(seq(|rows|, i requires 0 <= i < |rows| => Line(Cells(rows[i], cols))), "\n")
  }

  // ---------------------------------------------------------------- reading it back

  /** The rest of a quoted field after its opening quote: a doubled quote is
      one quote, a single quote closes the field. */
  function ParseQuoted(s: string): (r: Option<(string, string)>)
    ensures r.Some? ==> |r.value.1| < |s|
    decreases |s|
  {
    if |s| == 0 then None
    else if s[0] == '"' then
      if |s| >= 2 && s[1] == '"' then
        match ParseQuoted(s[2..])
        case None => None
        case Some((v, rest)) => Some(("\"" + v, rest))
      else Some(("", s[1..]))
    else
      match ParseQuoted(s[1..])
      case None => None
      case Some((v, rest)) => Some(([s[0]] + v, rest))
  }

  /** One record: quoted fields separated by commas, up to whatever follows
      the last field. */
  function ParseFields(s: string): (r: Option<(seq<string>, string)>)
    ensures r.Some? ==> |r.value.1| < |s|
    decreases |s|
  {
    if |s| == 0 || s[0] != '"' then None
    else
      match ParseQuoted(s[1..])
      case None => None
      case Some((v, rest)) =>
        if |rest| > 0 && rest[0] == ',' then
          match ParseFields(rest[1..])
          case None => None
          case Some((vs, after)) => Some(([v] + vs, after))
        else Some(([v], rest))
  }

  /** Records separated by line feeds, to the end of the text. */
  function ParseRecords(s: string): Option<seq<seq<string>>>
    decreases |s|
  {
    match ParseFields(s)
    case None => None
    case Some((fields, rest)) =>
      if |rest| == 0 then Some([fields])
      else if rest[0] == '\n' then
        match ParseRecords(rest[1..])
        case None => None
        case Some(records) => Some([fields] + records)
      else None
  }

  /** An escaped text reads back as itself, whatever follows its closing
      quote other than another quote. */
  lemma {:induction false} QuotedRoundTrip(v: string, rest: string)
    requires |rest| == 0 || rest[0] != '"'
    ensures ParseQuoted(DoubleQuotes(v) + "\"" + rest) == Some((v, rest))
  {
    var s := DoubleQuotes(v) + "\"" + rest;
    if |v| == 0 {
      assert s == "\"" + rest;
      assert s[1..] == rest;
    } else {
      QuotedRoundTrip(v[1..], rest);
      var tail := DoubleQuotes(v[1..]) + "\"" + rest;
      if v[0] == '"' {
        assert s == "\"\"" + tail;
        assert s[2..] == tail;
        assert "\"" + v[1..] == v;
      } else {
        assert s == [v[0]] + tail;
        assert s[1..] == tail;
        assert [v[0]] + v[1..] == v;
      }
    }
  }

  /** A line of several cells is the first escaped cell, a comma and the
      line of the others. */
  lemma LineCons(cells: seq<string>)
    requires |cells| > 1
    ensures Line(cells) == Esc(cells[0]) + "," + Line(cells[1..])
  {
    var escaped := seq(|cells|, i requires 0 <= i < |cells| => Esc(cells[i]));
    var more := cells[1..];
    assert escaped[1..] == seq(|more|, i requires 0 <= i < |more| => Esc(more[i]));
  }

  /** One step of `ParseFields` once the quoted cell is read. */
  lemma FieldsAfterQuoted(s: string, v: string, rest: string)
    requires |s| > 0 && s[0] == '"' && ParseQuoted(s[1..]) == Some((v, rest))
    ensures ParseFields(s) ==
      if |rest| > 0 && rest[0] == ',' then
        match ParseFields(rest[1..])
        case None => None
        case Some((vs, after)) => Some(([v] + vs, after))
      else Some(([v], rest))
  {
  }

  /** Reading one escaped cell and what follows it. */
  lemma FieldStep(c: string, tail: string)
    requires |tail| == 0 || tail[0] != '"'
    ensures ParseFields(Esc(c) + tail) ==
      if |tail| > 0 && tail[0] == ',' then
        match ParseFields(tail[1..])
        case None => None
        case Some((vs, after)) => Some(([c] + vs, after))
      else Some(([c], tail))
  {
    EscSplit(c, tail);
    QuotedRoundTrip(c, tail);
    FieldsAfterQuoted(Esc(c) + tail, c, tail);
  }

  /** An escaped cell opens with a quote, followed by its body. */
  lemma EscSplit(c: string, tail: string)
    ensures |Esc(c) + tail| > 0 && (Esc(c) + tail)[0] == '"'
    ensures (Esc(c) + tail)[1..] == DoubleQuotes(c) + "\"" + tail
  {
    assert Esc(c) + tail == "\"" + (DoubleQuotes(c) + "\"" + tail);
  }

  /** A line of escaped cells reads back as those cells, up to a line feed
      or the end. */
  lemma {:induction false} FieldsRoundTrip(cells: seq<string>, rest: string)
    requires |cells| > 0
    requires |rest| == 0 || rest[0] == '\n'
    ensures ParseFields(Line(cells) + rest) == Some((cells, rest))
  {
    if |cells| == 1 {
      assert Line(cells) == Esc(cells[0]);
      FieldStep(cells[0], rest);
      assert cells == [cells[0]];
    } else {
      var more := cells[1..];
      var tail := "," + Line(more) + rest;
      assert Line(cells) + rest == Esc(cells[0]) + tail by {
        LineCons(cells);
      }
      assert ParseFields(tail[1..]) == Some((more, rest)) by {
        assert tail[1..] == Line(more) + rest;
        FieldsRoundTrip(more, rest);
      }
      FieldStep(cells[0], tail);
      assert [cells[0]] + more == cells;
    }
  }

  /** Lines of escaped cells joined by line feeds read back as the table. */
  lemma {:induction false} RecordsRoundTrip(table: seq<seq<string>>)
    requires |table| > 0
    requires forall i :: 0 <= i < |table| ==> |table[i]| > 0
    ensures ParseRecords(Strings.Join(seq(|table|, i requires 0 <= i < |table| => Line(table[i])), "\n")) == Some(table)
  {
    var lines := seq(|table|, i requires 0 <= i < |table| => Line(table[i]));
    if |table| == 1 {
      assert Strings.Join(lines, "\n") == Line(table[0]) + "";
      FieldsRoundTrip(table[0], "");
      assert table == [table[0]];
    } else {
      var more := table[1..];
      assert lines[1..] == seq(|more|, i requires 0 <= i < |more| => Line(more[i]));
      var tail := "\n" + Strings.Join(lines[1..], "\n");
      assert Strings.Join(lines, "\n") == Line(table[0]) + tail;
      FieldsRoundTrip(table[0], tail);
      assert tail[1..] == Strings.Join(lines[1..], "\n");
      RecordsRoundTrip(more);
      assert [table[0]] + more == table;
    }
  }

  /** The export reads back as the header of columns followed by each row's
      cells under those columns, so every record has one field per column
      and no quote in a value breaks the layout. */
  lemma ToCsvRoundTrip(rows: seq<Row>)
    requires |rows| > 0 && |Columns(rows)| > 0
    ensures var cols := Columns(rows);
      ParseRecords(ToCsv(rows)) == Some([cols] + seq(|rows|, i requires 0 <= i < |rows| => Cells(rows[i], cols)))
  {
    var cols := Columns(rows);
    var body := seq(|rows|, i requires 0 <= i < |rows| => Cells(rows[i], cols));
    var table := [cols] + body;
    var lines := seq(|table|, i requires 0 <= i < |table| => Line(table[i]));
    assert lines[1..] == seq(|rows|, i requires 0 <= i < |rows| => Line(Cells(rows[i], cols)));
    assert Strings.Join(lines, "\n") == ToCsv(rows);
    RecordsRoundTrip(table);
  }

  /** No rows give the empty text; rows without any key give only line
      feeds, one per row. */
  lemma EmptyExports()
    ensures ToCsv([]) == ""
    ensures ToCsv([[], []]) == "\n\n"
  {
    var rows: seq<Row> := [[], []];
    assert AllKeys(rows[1..]) == [];
    assert AllKeys(rows) == [];
    assert Columns(rows) == [];
    assert Line([]) == "";
    var lines := seq(|rows|, i requires 0 <= i < |rows| => Line(Cells(rows[i], [])));
    assert lines == ["", ""];
    assert Strings.Join(lines, "\n") == "\n";
  }

  /** A quote inside a value is doubled, and a missing value and `null` are
      both an empty quoted cell. */
  lemma EscapeExample()
    ensures Esc(CellText([("a", JStr("x\"y"))], "a")) == "\"x\"\"y\""
    ensures Esc(CellText([("n", JNull)], "n")) == "\"\"" && Esc(CellText([], "b")) == "\"\""
  {
    assert DoubleQuotes("y") == "y";
    assert DoubleQuotes("\"y") == "\"\"y";
    assert DoubleQuotes("x\"y") == "x\"\"y";
  }
}
