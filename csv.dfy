// The CSV text the export buttons build: a data-URI prefix, a header line of
// column names joined by ',', then one line per record whose cells are each
// wrapped in double quotes and joined by ','. Every line ends in '\n'.
// The parser below is the partner used to state that nothing is lost.
module Csv {
  import opened Optional
  import opened Text
  import Lists

  const DataUriPrefix: string := "data:text/csv;charset=utf-8,"

  /** `"${cell}"`: the cell between double quotes, with no escaping. */
  function Quote(cell: string): string
  {
    "\"" + cell + "\""
  }

  /** `row.map(cell => `"${cell}"`).join(',')`. */
  function Line(cells: seq<string>): string
  {
    Join(Lists.Map(cells, Quote), ",")
  }

  /** Each row's line followed by '\n', in order. */
  function Lines(rows: seq<seq<string>>): string
    decreases |rows|
  {
    if rows == [] then "" else Line(rows[0]) + "\n" + Lines(rows[1..])
  }

  /** The whole download: prefix, header line, record lines. */
  function Document(header: seq<string>, rows: seq<seq<string>>): string
  {
    DataUriPrefix + Join(header, ",") + "\n" + Lines(rows)
  }

  /** Appending one record appends its line: what each step of a `forEach` with `+=` does. */
  lemma {:induction false} LinesSnoc(rows: seq<seq<string>>, row: seq<string>)
    ensures Lines(rows + [row]) == Lines(rows) + Line(row) + "\n"
    decreases |rows|
  {
    if rows == [] {
      assert [row][1..] == [];
    } else {
      assert (rows + [row])[1..] == rows[1..] + [row];
      LinesSnoc(rows[1..], row);
    }
  }

  /**
   * The `forEach` with `+=` of both exporters: the prefix and the header
   * line, then one record's line per item, in order.
   */
  method WriteDocument<T>(header: seq<string>, items: seq<T>, rowOf: T -> seq<string>) returns (text: string)
    ensures text == Document(header, Lists.Map(items, rowOf))
  {
    text := DataUriPrefix + Join(header, ",") + "\n";
    var i := 0;
    while i < |items|
      invariant 0 <= i <= |items|
      invariant text == Document(header, Lists.Map(items[..i], rowOf))
    {
      var row := rowOf(items[i]);
      LinesSnoc(Lists.Map(items[..i], rowOf), row);
      assert Lists.Map(items[..i + 1], rowOf) == Lists.Map(items[..i], rowOf) + [row];
      text := text + Line(row) + "\n";
      i := i + 1;
    }
    assert items[..i] == items;
  }

  /** A header the parser can read back: at least one name, none holding ',' or a line break. */
  predicate PlainHeader(header: seq<string>)
  {
    |header| >= 1 && forall h :: h in header ==> ',' !in h && '\n' !in h
  }

  /** A cell the parser can read back: it holds no quote and no line break. */
  predicate PlainCell(cell: string)
  {
    '"' !in cell && '\n' !in cell
  }

  predicate PlainRow(cells: seq<string>)
  {
    |cells| >= 1 && forall c :: c in cells ==> PlainCell(c)
  }

  /** Reads `"c1","c2",...,"cn"` back into its cells. */
  function ParseCells(s: string): Option<seq<string>>
    decreases |s|
  {
    if |s| < 2 || s[0] != '"' || '"' !in s[1..] then None
    else
      var j := Lists.IndexOf(s[1..], '"') + 1;
      var cell := s[1..j];
      var rest := s[j + 1..];
      if rest == "" then Some([cell])
      else if rest[0] != ',' then None
      else match ParseCells(rest[1..])
        case None => None
        case Some(cells) => Some([cell] + cells)
  }

  /** Reads back the lines of records: every piece but a final empty one must parse. */
  function ParseLines(pieces: seq<string>): Option<seq<seq<string>>>
    decreases |pieces|
  {
    if pieces == [] then None
    else if |pieces| == 1 then (if pieces[0] == "" then Some([]) else None)
    else match (ParseCells(pieces[0]), ParseLines(pieces[1..]))
      case (Some(cells), Some(rows)) => Some([cells] + rows)
      case _ => None
  }

  /** Reads a whole download back into its header and its records. */
  function ParseDocument(doc: string): Option<(seq<string>, seq<seq<string>>)>
  {
    if !(DataUriPrefix <= doc) then None
    else
      var pieces := Split(doc[|DataUriPrefix|..], '\n');
      match ParseLines(pieces[1..])
      case None => None
      case Some(rows) => Some((Split(pieces[0], ','), rows))
  }

  lemma {:induction false} ParseQuotedThenRest(cell: string, rest: string)
    requires '"' !in cell
    ensures var s := Quote(cell) + rest;
      |s| >= 2 && s[0] == '"' && '"' in s[1..] &&
      Lists.IndexOf(s[1..], '"') + 1 == |cell| + 1 &&
      s[1..|cell| + 1] == cell && s[|cell| + 2..] == rest
  {
    var s := Quote(cell) + rest;
    assert s[1..][|cell|] == '"';
    assert s[1..][..|cell|] == cell;
  }

  lemma LineCons(cells: seq<string>)
    requires |cells| >= 2
    ensures Line(cells) == Quote(cells[0]) + ("," + Line(cells[1..]))
  {
    assert Lists.Map(cells, Quote)[1..] == Lists.Map(cells[1..], Quote);
  }

  lemma ParseCellsLast(cell: string)
    requires '"' !in cell
    ensures ParseCells(Quote(cell)) == Some([cell])
  {
    ParseQuotedThenRest(cell, "");
    assert Quote(cell) + "" == Quote(cell);
  }

  lemma ParseCellsNext(cell: string, tail: string)
    requires '"' !in cell
    ensures ParseCells(Quote(cell) + ("," + tail)) ==
      match ParseCells(tail)
      case None => None
      case Some(cells) => Some([cell] + cells)
  {
    ParseQuotedThenRest(cell, "," + tail);
    assert ("," + tail)[1..] == tail;
  }

  /** Parsing the line of a row of plain cells gives back the row. */
  lemma {:induction false} ParseLineRoundTrip(cells: seq<string>)
    requires PlainRow(cells)
    ensures ParseCells(Line(cells)) == Some(cells)
    decreases |cells|
  {
    assert cells[0] in cells;
    if |cells| == 1 {
      assert Line(cells) == Quote(cells[0]);
      ParseCellsLast(cells[0]);
      assert cells == [cells[0]];
    } else {
      LineCons(cells);
      ParseCellsNext(cells[0], Line(cells[1..]));
      ParseLineRoundTrip(cells[1..]);
      assert [cells[0]] + cells[1..] == cells;
    }
  }

  lemma {:induction false} LineHasNoBreak(cells: seq<string>)
    requires PlainRow(cells)
    ensures '\n' !in Line(cells)
    decreases |cells|
  {
    assert cells[0] in cells;
    var q := Quote(cells[0]);
    assert '\n' !in q by {
      assert forall i :: 1 <= i < |q| - 1 ==> q[i] == cells[0][i - 1];
    }
    if |cells| == 1 {
      assert Line(cells) == q;
    } else {
      LineCons(cells);
      LineHasNoBreak(cells[1..]);
    }
  }

  lemma {:induction false} LinesAsJoin(rows: seq<seq<string>>)
    ensures Lines(rows) == Join(Lists.Map(rows, Line) + [""], "\n")
    decreases |rows|
  {
    if rows != [] {
      LinesAsJoin(rows[1..]);
      var parts := Lists.Map(rows, Line) + [""];
      assert parts[1..] == Lists.Map(rows[1..], Line) + [""];
    }
  }

  lemma {:induction false} ParseLinesRoundTrip(rows: seq<seq<string>>)
    requires forall r :: r in rows ==> PlainRow(r)
    ensures ParseLines(Lists.Map(rows, Line) + [""]) == Some(rows)
    decreases |rows|
  {
    if rows != [] {
      var pieces := Lists.Map(rows, Line) + [""];
      assert pieces[1..] == Lists.Map(rows[1..], Line) + [""];
      ParseLineRoundTrip(rows[0]);
      ParseLinesRoundTrip(rows[1..]);
      assert [rows[0]] + rows[1..] == rows;
    }
  }

  /**
   * Reading a download back gives its header and its records, provided no
   * header name holds ',' or a line break and no cell holds '"' or a line break.
   */
  lemma DocumentRoundTrip(header: seq<string>, rows: seq<seq<string>>)
    requires PlainHeader(header)
    requires forall r :: r in rows ==> PlainRow(r)
    ensures ParseDocument(Document(header, rows)) == Some((header, rows))
  {
    var doc := Document(header, rows);
    var body := Join(header, ",") + "\n" + Lines(rows);
    assert doc == DataUriPrefix + body;
    assert doc[|DataUriPrefix|..] == body;
    var lines := Lists.Map(rows, Line) + [""];
    LinesAsJoin(rows);
    forall p | p in lines
      ensures '\n' !in p
    {
      var i :| 0 <= i < |lines| && lines[i] == p;
      if i < |rows| {
        LineHasNoBreak(rows[i]);
      }
    }
    JoinSplit(Join(header, ","), ',');
    SplitJoin(header, ',');
    var headerText := Join(header, ",");
    assert '\n' !in headerText by {
      JoinNoChar(header, ",", '\n');
    }
    assert body == Join([headerText] + lines, "\n");
    SplitJoin([headerText] + lines, '\n');
    assert ([headerText] + lines)[1..] == lines;
    ParseLinesRoundTrip(rows);
  }

  lemma {:induction false} JoinNoChar(parts: seq<string>, sep: string, c: char)
    requires c !in sep && forall p :: p in parts ==> c !in p
    ensures c !in Join(parts, sep)
    decreases |parts|
  {
    if |parts| > 1 {
      JoinNoChar(parts[1..], sep, c);
    }
  }
}
