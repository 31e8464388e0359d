/** The CSV projection of a transaction list (`generateCSV` in App.tsx) and a
    reader for the same dialect, used as its inverse.

    The projection writes a fixed header row and one row per transaction,
    joined by a bare line feed with no final line feed. `description` and
    `notes` are quoted with every inner double quote doubled (the escaping
    rule of section 2, rule 7 of RFC 4180); `date`, the amount text and
    `category` are written verbatim. */
module Csv {
  import opened Types

  /** The header cells, in column order. */
  const HeaderFields: seq<string> := ["Date", "Description", "Amount", "Category", "Notes"]

  /** `Array.prototype.join`: the parts with `sep` between neighbours; the
      empty list gives the empty string. */
  function Join(parts: seq<string>, sep: char): string
  {
    if |parts| == 0 then []
    else if |parts| == 1 then parts[0]
    else parts[0] + [sep] + Join(parts[1..], sep)
  }

  /** The number of double quotes in `s`. */
  function QuoteCount(s: string): nat
  {
    if |s| == 0 then 0
    else (if s[0] == '"' then 1 else 0) + QuoteCount(s[1..])
  }

  /** `s.replace(/"/g, '""')`: every double quote of `s` doubled, every other
      character kept, in order. */
  function Doubled(s: string): (r: string)
    ensures |r| == |s| + QuoteCount(s)
    ensures QuoteCount(r) == 2 * QuoteCount(s)
  {
    if |s| == 0 then []
    else (if s[0] == '"' then "\"\"" else [s[0]]) + Doubled(s[1..])
  }

  /** Doubling distributes over concatenation: the replacement works
      character by character. */
  lemma {:induction false} DoubledAppend(a: string, b: string)
    ensures Doubled(a + b) == Doubled(a) + Doubled(b)
  {
    if |a| > 0 {
      assert (a + b)[1..] == a[1..] + b;
      DoubledAppend(a[1..], b);
    } else {
      assert a + b == b;
    }
  }

  /** Text without quotes is left as it is. */
  lemma {:induction false} DoubledQuoteFree(s: string)
    requires forall i :: 0 <= i < |s| ==> s[i] != '"'
    ensures Doubled(s) == s
  {
    if |s| > 0 {
      DoubledQuoteFree(s[1..]);
      assert s == [s[0]] + s[1..];
    }
  }

  /** A quoted CSV cell: `"` + `s` with its quotes doubled + `"`. */
  function Escape(s: string): (r: string)
    ensures |r| == |s| + QuoteCount(s) + 2
    ensures r[0] == '"' && r[|r| - 1] == '"'
  {
    "\"" + Doubled(s) + "\""
  }

  /** `t.notes || ''`: a missing note, like an empty one, gives "". */
  function NotesText(notes: Option<string>): string
  {
    match notes
    case None => ""
    case Some(n) => n
  }

  /** The five cells of a transaction's row, in the order date, description,
      amount, category, notes. `amountText` stands for the JavaScript
      number-to-string conversion. */
  function RowCells(t: Transaction, amountText: Amount -> string): seq<string>
  {
    [t.date, Escape(t.description), amountText(t.amount), t.category, Escape(NotesText(t.notes))]
  }

  /** One transaction's row: its cells joined by commas. */
  function Row(t: Transaction, amountText: Amount -> string): string
  {
    Join(RowCells(t, amountText), ',')
  }

  /** The rows of `ts`, one per transaction, in input order. */
  function Rows(ts: seq<Transaction>, amountText: Amount -> string): (r: seq<string>)
    ensures |r| == |ts|
    ensures forall i :: 0 <= i < |ts| ==> r[i] == Row(ts[i], amountText)
  {
    seq(|ts|, i requires 0 <= i < |ts| => Row(ts[i], amountText))
  }

  /** `generateCSV`: the header line followed by the rows, joined by "\n". */
  function Generate(ts: seq<Transaction>, amountText: Amount -> string): string
  {
    Join([Join(HeaderFields, ',')] + Rows(ts, amountText), '\n')
  }

  // ---------------------------------------------------------------------
  // Layout of the output
  // ---------------------------------------------------------------------

  /** Five parts joined: each neighbouring pair separated by one `sep`. */
  lemma Join5(a: string, b: string, c: string, d: string, e: string, sep: char)
    ensures Join([a, b, c, d, e], sep) == a + [sep] + b + [sep] + c + [sep] + d + [sep] + e
  {
    assert Join([a], sep) == a;
    assert [a] + [b] == [a, b];
    JoinSnoc([a], b, sep);
    assert [a, b] + [c] == [a, b, c];
    JoinSnoc([a, b], c, sep);
    assert [a, b, c] + [d] == [a, b, c, d];
    JoinSnoc([a, b, c], d, sep);
    assert [a, b, c, d] + [e] == [a, b, c, d, e];
    JoinSnoc([a, b, c, d], e, sep);
  }

  /** A row is its five cells with a comma between neighbours. */
  lemma RowText(t: Transaction, amountText: Amount -> string)
    ensures Row(t, amountText) == t.date + "," + Escape(t.description) + "," + amountText(t.amount)
      + "," + t.category + "," + Escape(NotesText(t.notes))
  {
    Join5(t.date, Escape(t.description), amountText(t.amount), t.category, Escape(NotesText(t.notes)), ',');
  }

  /** The header line is the fixed text of the source. */
  lemma HeaderLineText()
    ensures Join(HeaderFields, ',') == "Date,Description,Amount,Category,Notes"
  {
    Join5("Date", "Description", "Amount", "Category", "Notes", ',');
  }

  /** Joining one more part appends one separator and that part. */
  lemma {:induction false} JoinSnoc(parts: seq<string>, p: string, sep: char)
    requires |parts| > 0
    ensures Join(parts + [p], sep) == Join(parts, sep) + [sep] + p
  {
    if |parts| > 1 {
      assert (parts + [p])[1..] == parts[1..] + [p];
      JoinSnoc(parts[1..], p, sep);
    }
  }

  /** The output for no transactions is the header line alone. */
  lemma GenerateEmpty(amountText: Amount -> string)
    ensures Generate([], amountText) == "Date,Description,Amount,Category,Notes"
  {
    HeaderLineText();
    assert [Join(HeaderFields, ',')] + Rows([], amountText) == [Join(HeaderFields, ',')];
  }

  /** Appending a transaction appends exactly one line feed and its row: the
      output is the header followed by one row per transaction, in input
      order, with no trailing line feed. */
  lemma GenerateSnoc(ts: seq<Transaction>, t: Transaction, amountText: Amount -> string)
    ensures Generate(ts + [t], amountText) == Generate(ts, amountText) + "\n" + Row(t, amountText)
  {
    var lines := [Join(HeaderFields, ',')] + Rows(ts, amountText);
    assert [Join(HeaderFields, ',')] + Rows(ts + [t], amountText) == lines + [Row(t, amountText)];
    JoinSnoc(lines, Row(t, amountText), '\n');
  }

  /** `Framed(ts)` is an independent description of the body: each row
      preceded by its own line feed. */
  function Framed(ts: seq<Transaction>, amountText: Amount -> string): string
  {
    if |ts| == 0 then [] else Framed(ts[..|ts| - 1], amountText) + "\n" + Row(ts[|ts| - 1], amountText)
  }

  /** The whole output is the header text followed by one "\n" + row per
      transaction. */
  lemma {:induction false} GenerateIsHeaderThenFramedRows(ts: seq<Transaction>, amountText: Amount -> string)
    ensures Generate(ts, amountText) == "Date,Description,Amount,Category,Notes" + Framed(ts, amountText)
  {
    if |ts| == 0 {
      GenerateEmpty(amountText);
    } else {
      var init := ts[..|ts| - 1];
      assert ts == init + [ts[|ts| - 1]];
      var row := Row(ts[|ts| - 1], amountText);
      GenerateIsHeaderThenFramedRows(init, amountText);
      GenerateSnoc(init, ts[|ts| - 1], amountText);
      assert Framed(ts, amountText) == Framed(init, amountText) + "\n" + row;
      LineAppendAssoc("Date,Description,Amount,Category,Notes", Framed(init, amountText), row);
    }
  }

  lemma LineAppendAssoc(h: string, f: string, r: string)
    ensures h + f + "\n" + r == h + (f + "\n" + r)
  {
  }

  /** The text up to (not including) the first line feed. */
  function FirstLine(s: string): string
  {
    if |s| == 0 || s[0] == '\n' then [] else [s[0]] + FirstLine(s[1..])
  }

  lemma {:induction false} FirstLineOfPrefix(head: string, rest: string)
    requires forall i :: 0 <= i < |head| ==> head[i] != '\n'
    requires |rest| == 0 || rest[0] == '\n'
    ensures FirstLine(head + rest) == head
  {
    if |head| > 0 {
      assert (head + rest)[1..] == head[1..] + rest;
      FirstLineOfPrefix(head[1..], rest);
    } else {
      assert head + rest == rest;
    }
  }

  lemma {:induction false} FramedStartsWithNewline(ts: seq<Transaction>, amountText: Amount -> string)
    ensures |Framed(ts, amountText)| == 0 <==> |ts| == 0
    ensures |ts| > 0 ==> Framed(ts, amountText)[0] == '\n'
  {
    if |ts| > 0 {
      FramedStartsWithNewline(ts[..|ts| - 1], amountText);
    }
  }

  lemma HeaderHasNoLineFeed()
    ensures forall i :: 0 <= i < 38 ==> "Date,Description,Amount,Category,Notes"[i] != '\n'
  {
  }

  /** The first line of the output is exactly the header. */
  lemma FirstLineIsHeader(ts: seq<Transaction>, amountText: Amount -> string)
    ensures FirstLine(Generate(ts, amountText)) == "Date,Description,Amount,Category,Notes"
  {
    GenerateIsHeaderThenFramedRows(ts, amountText);
    FramedStartsWithNewline(ts, amountText);
    HeaderHasNoLineFeed();
    FirstLineOfPrefix("Date,Description,Amount,Category,Notes", Framed(ts, amountText));
  }

  /** The output never ends in a line feed: it ends in the header's last
      letter when there are no rows, and in the closing quote of the last
      notes cell otherwise. */
  lemma NoTrailingNewline(ts: seq<Transaction>, amountText: Amount -> string)
    ensures var out := Generate(ts, amountText);
      |out| > 0 && out[|out| - 1] == (if |ts| == 0 then 's' else '"')
  {
    if |ts| == 0 {
      GenerateEmpty(amountText);
    } else {
      var init := ts[..|ts| - 1];
      var t := ts[|ts| - 1];
      assert ts == init + [t];
      GenerateSnoc(init, t, amountText);
      var n := NotesText(t.notes);
      Join5(t.date, Escape(t.description), amountText(t.amount), t.category, Escape(n), ',');
    }
  }

  // ---------------------------------------------------------------------
  // Lengths
  // ---------------------------------------------------------------------

  /** The summed lengths of `parts`. */
  function TotalLength(parts: seq<string>): nat
  {
    if |parts| == 0 then 0 else |parts[0]| + TotalLength(parts[1..])
  }

  /** A join is as long as its parts plus one separator between each pair. */
  lemma {:induction false} JoinLength(parts: seq<string>, sep: char)
    ensures |Join(parts, sep)| == TotalLength(parts) + (if |parts| == 0 then 0 else |parts| - 1)
  {
    if |parts| > 1 {
      JoinLength(parts[1..], sep);
    }
  }

  /** A row is its five cells, four commas and the two pairs of quotes,
      plus one extra character per quote inside description and notes. */
  lemma RowLength(t: Transaction, amountText: Amount -> string)
    ensures |Row(t, amountText)| ==
      |t.date| + |t.description| + QuoteCount(t.description) + |amountText(t.amount)|
      + |t.category| + |NotesText(t.notes)| + QuoteCount(NotesText(t.notes)) + 8
  {
    var n := NotesText(t.notes);
    Join5(t.date, Escape(t.description), amountText(t.amount), t.category, Escape(n), ',');
  }

  /** The output is the 38 characters of the header plus, per transaction,
      one line feed and its row. */
  lemma GenerateLength(ts: seq<Transaction>, amountText: Amount -> string)
    ensures |Generate(ts, amountText)| == 38 + |ts| + TotalLength(Rows(ts, amountText))
  {
    HeaderLineText();
    var lines := [Join(HeaderFields, ',')] + Rows(ts, amountText);
    JoinLength(lines, '\n');
    assert lines[1..] == Rows(ts, amountText);
  }

  // ---------------------------------------------------------------------
  // Escaping round trip
  // ---------------------------------------------------------------------

  /** The inverse of `Doubled`: every `""` collapsed to `"`; `None` when a
      quote is not part of a pair. */
  function Collapse(d: string): Option<string>
  {
    if |d| == 0 then Some([])
    else if d[0] == '"' then
      if |d| > 1 && d[1] == '"' then
        match Collapse(d[2..])
        case None => None
        case Some(s) => Some("\"" + s)
      else None
    else
      match Collapse(d[1..])
      case None => None
      case Some(s) => Some([d[0]] + s)
  }

  /** Un-escaping a cell: strip the outer quotes and collapse the doubled
      quotes; `None` when `e` is not of that form. */
  function Unescape(e: string): Option<string>
  {
    if |e| < 2 || e[0] != '"' || e[|e| - 1] != '"' then None
    else Collapse(e[1..|e| - 1])
  }

  lemma {:induction false} CollapseDoubled(s: string)
    ensures Collapse(Doubled(s)) == Some(s)
  {
    if |s| > 0 {
      CollapseDoubled(s[1..]);
      var d := Doubled(s);
      var rest := Doubled(s[1..]);
      if s[0] == '"' {
        assert d == "\"\"" + rest;
        assert d[0] == '"' && d[1] == '"' && d[2..] == rest;
        assert Collapse(d) == Some("\"" + s[1..]);
      } else {
        assert d == [s[0]] + rest;
        assert d[0] == s[0] && d[1..] == rest;
        assert Collapse(d) == Some([s[0]] + s[1..]);
      }
      assert s == [s[0]] + s[1..];
    }
  }

  lemma {:induction false} DoubledCollapse(d: string, s: string)
    requires Collapse(d) == Some(s)
    ensures Doubled(s) == d
  {
    if |d| > 0 {
      if d[0] == '"' {
        var s' := Collapse(d[2..]).value;
        DoubledCollapse(d[2..], s');
        assert s[1..] == s';
      } else {
        var s' := Collapse(d[1..]).value;
        DoubledCollapse(d[1..], s');
        assert s[1..] == s';
      }
    }
  }

  lemma UnescapeEscape(s: string)
    ensures Unescape(Escape(s)) == Some(s)
  {
    var x := Escape(s);
    assert x[1..|x| - 1] == Doubled(s);
    CollapseDoubled(s);
  }

  /** Text that starts and ends with a quote is its inside between quotes. */
  lemma QuotedFraming(e: string)
    requires |e| >= 2 && e[0] == '"' && e[|e| - 1] == '"'
    ensures e == "\"" + e[1..|e| - 1] + "\""
  {
    assert e == e[..1] + e[1..|e| - 1] + e[|e| - 1..];
  }

  lemma UnescapedIsEscape(e: string, s: string)
    requires Unescape(e) == Some(s)
    ensures e == Escape(s)
  {
    assert |e| >= 2 && e[0] == '"' && e[|e| - 1] == '"';
    var d := e[1..|e| - 1];
    assert Collapse(d) == Some(s);
    DoubledCollapse(d, s);
    QuotedFraming(e);
  }

  /** Un-escaping undoes escaping, and only escaped text un-escapes: the two
      are inverse bijections between strings and well-formed quoted cells. */
  lemma EscapeRoundTrip(s: string, e: string)
    ensures Unescape(Escape(s)) == Some(s)
    ensures Unescape(e) == Some(s) <==> e == Escape(s)
  {
    UnescapeEscape(s);
    if Unescape(e) == Some(s) {
      UnescapedIsEscape(e, s);
    }
  }

  /** A missing note and an empty note give the same row. */
  lemma MissingNotesAsEmpty(t: Transaction, amountText: Amount -> string)
    ensures Row(t.(notes := None), amountText) == Row(t.(notes := Some("")), amountText)
    ensures Escape(NotesText(None)) == "\"\""
  {
  }

  // ---------------------------------------------------------------------
  // A reader for the dialect, and the round trip of the whole output
  // ---------------------------------------------------------------------

  /** Reads the rest of a quoted cell, just after its opening quote: `""`
      stands for one quote and a lone quote closes the cell. Gives the cell's
      text and the input after the closing quote. */
  function ReadQuoted(s: string): (r: Option<(string, string)>)
    ensures r.Some? ==> |r.value.1| < |s|
  {
    if |s| == 0 then None
    else if s[0] == '"' then
      if |s| > 1 && s[1] == '"' then
        match ReadQuoted(s[2..])
        case None => None
        case Some(p) => Some(("\"" + p.0, p.1))
      else Some(([], s[1..]))
    else
      match ReadQuoted(s[1..])
      case None => None
      case Some(p) => Some(([s[0]] + p.0, p.1))
  }

  /** Reads an unquoted cell: everything up to the next comma or line feed. */
  function ReadBare(s: string): (r: (string, string))
    ensures r.0 + r.1 == s
    ensures |r.1| == 0 || r.1[0] == ',' || r.1[0] == '\n'
  {
    if |s| == 0 || s[0] == ',' || s[0] == '\n' then ([], s)
    else
      var p := ReadBare(s[1..]);
      ([s[0]] + p.0, p.1)
  }

  /** Reads one cell, quoted or not. */
  function ReadField(s: string): (r: Option<(string, string)>)
    ensures r.Some? ==> |r.value.1| <= |s|
  {
    if |s| > 0 && s[0] == '"' then ReadQuoted(s[1..]) else Some(ReadBare(s))
  }

  /** Reads one record: cells separated by commas, up to a line feed (left in
      the input) or the end. */
  function ReadRecord(s: string): (r: Option<(seq<string>, string)>)
    ensures r.Some? ==> |r.value.1| <= |s| && (|r.value.1| == 0 || r.value.1[0] == '\n')
    decreases |s|
  {
    match ReadField(s)
    case None => None
    case Some(p) =>
      if |p.1| > 0 && p.1[0] == ',' then
        match ReadRecord(p.1[1..])
        case None => None
        case Some(q) => Some(([p.0] + q.0, q.1))
      else if |p.1| == 0 || p.1[0] == '\n' then Some(([p.0], p.1))
      else None
  }

  /** Reads a whole document: records separated by line feeds. */
  function Parse(s: string): Option<seq<seq<string>>>
    decreases |s|
  {
    match ReadRecord(s)
    case None => None
    case Some(p) =>
      if |p.1| == 0 then Some([p.0])
      else
        match Parse(p.1[1..])
        case None => None
        case Some(recs) => Some([p.0] + recs)
  }

  /** Text that may stand in a cell unquoted: no comma, line feed or quote. */
  predicate Plain(s: string)
  {
    forall i :: 0 <= i < |s| ==> s[i] != ',' && s[i] != '\n' && s[i] != '"'
  }

  /** `cell` is how the projection writes `value`: quoted, or verbatim when
      the value is plain. */
  predicate Encodes(cell: string, value: string)
  {
    cell == Escape(value) || (cell == value && Plain(value))
  }

  /** Each cell encodes the value at the same position. */
  predicate EncodesAll(cells: seq<string>, values: seq<string>)
    requires |cells| == |values|
  {
    forall i :: 0 <= i < |cells| ==> Encodes(cells[i], values[i])
  }

  lemma {:induction false} ReadQuotedDoubled(x: string, rest: string)
    requires |rest| == 0 || rest[0] != '"'
    ensures ReadQuoted(Doubled(x) + "\"" + rest) == Some((x, rest))
  {
    var s := Doubled(x) + "\"" + rest;
    if |x| == 0 {
      assert s == "\"" + rest;
      assert s[1..] == rest;
    } else {
      var s' := Doubled(x[1..]) + "\"" + rest;
      ReadQuotedDoubled(x[1..], rest);
      if x[0] == '"' {
        assert s == "\"\"" + s';
        assert s[0] == '"' && s[1] == '"' && s[2..] == s';
        assert ReadQuoted(s) == Some(("\"" + x[1..], rest));
      } else {
        assert s == [x[0]] + s';
        assert s[0] == x[0] && s[1..] == s';
        assert ReadQuoted(s) == Some(([x[0]] + x[1..], rest));
      }
      assert x == [x[0]] + x[1..];
    }
  }

  lemma {:induction false} ReadBarePlain(x: string, rest: string)
    requires Plain(x)
    requires |rest| == 0 || rest[0] == ',' || rest[0] == '\n'
    ensures ReadBare(x + rest) == (x, rest)
  {
    if |x| == 0 {
      assert x + rest == rest;
    } else {
      assert (x + rest)[1..] == x[1..] + rest;
      ReadBarePlain(x[1..], rest);
      assert x == [x[0]] + x[1..];
    }
  }

  /** A written cell followed by a comma, a line feed or the end reads back as
      its value. */
  lemma ReadFieldEncoded(cell: string, value: string, rest: string)
    requires Encodes(cell, value)
    requires |rest| == 0 || rest[0] == ',' || rest[0] == '\n'
    ensures ReadField(cell + rest) == Some((value, rest))
  {
    if cell == Escape(value) {
      ReadQuotedDoubled(value, rest);
      assert (cell + rest)[1..] == Doubled(value) + "\"" + rest;
    } else {
      ReadBarePlain(value, rest);
      if |cell| == 0 {
        assert cell + rest == rest;
      }
    }
  }

  /** A cell followed by a comma and a readable remainder of the record. */
  lemma ReadRecordCons(s: string, v: string, after: string, vs: seq<string>, rest: string)
    requires ReadField(s) == Some((v, after))
    requires |after| > 0 && after[0] == ',' && ReadRecord(after[1..]) == Some((vs, rest))
    ensures ReadRecord(s) == Some(([v] + vs, rest))
  {
  }

  /** Cells joined by commas, followed by a line feed or the end, read back
      as the record of their values. */
  lemma {:induction false} ReadRecordJoined(cells: seq<string>, values: seq<string>, rest: string)
    requires |cells| == |values| > 0
    requires EncodesAll(cells, values)
    requires |rest| == 0 || rest[0] == '\n'
    ensures ReadRecord(Join(cells, ',') + rest) == Some((values, rest))
  {
    if |cells| == 1 {
      ReadFieldEncoded(cells[0], values[0], rest);
      assert values == [values[0]];
    } else {
      var tail := Join(cells[1..], ',') + rest;
      var after := [','] + tail;
      JoinCons(cells, ',');
      assert Join(cells, ',') + rest == cells[0] + after;
      ReadFieldEncoded(cells[0], values[0], after);
      assert after[1..] == tail;
      ReadRecordJoined(cells[1..], values[1..], rest);
      ReadRecordCons(cells[0] + after, values[0], after, values[1..], rest);
      assert values == [values[0]] + values[1..];
    }
  }

  /** A record followed by a line feed and a readable remainder. */
  lemma ParseCons(s: string, rec: seq<string>, rest: string, recs: seq<seq<string>>)
    requires ReadRecord(s) == Some((rec, rest))
    requires |rest| > 0 && Parse(rest[1..]) == Some(recs)
    ensures Parse(s) == Some([rec] + recs)
  {
  }

  lemma JoinCons(parts: seq<string>, sep: char)
    requires |parts| > 1
    ensures Join(parts, sep) == parts[0] + ([sep] + Join(parts[1..], sep))
  {
  }

  /** Lines, each the comma-join of cells encoding a record, joined by line
      feeds, read back as those records. */
  lemma {:induction false} ParseJoinedLines(lines: seq<string>, cells: seq<seq<string>>, records: seq<seq<string>>)
    requires |lines| == |cells| == |records| > 0
    requires forall k :: 0 <= k < |lines| ==> lines[k] == Join(cells[k], ',')
    requires forall k :: 0 <= k < |cells| ==> |cells[k]| == |records[k]| > 0
    requires forall k :: 0 <= k < |cells| ==> EncodesAll(cells[k], records[k])
    ensures Parse(Join(lines, '\n')) == Some(records)
  {
    if |lines| == 1 {
      ReadRecordJoined(cells[0], records[0], []);
      assert Join(lines, '\n') == Join(cells[0], ',') + [];
      assert records == [records[0]];
    } else {
      var tail := Join(lines[1..], '\n');
      var rest := ['\n'] + tail;
      JoinCons(lines, '\n');
      ReadRecordJoined(cells[0], records[0], rest);
      assert rest[1..] == tail;
      ParseJoinedLines(lines[1..], cells[1..], records[1..]);
      ParseCons(Join(lines, '\n'), records[0], rest, records[1..]);
      assert records == [records[0]] + records[1..];
    }
  }

  /** The values a transaction's row stands for: date, description, amount
      text, category and notes, with a missing note read as "". */
  function Fields(t: Transaction, amountText: Amount -> string): seq<string>
  {
    [t.date, t.description, amountText(t.amount), t.category, NotesText(t.notes)]
  }

  /** The cells written verbatim hold no comma, line feed or quote. */
  predicate PlainColumns(t: Transaction, amountText: Amount -> string)
  {
    Plain(t.date) && Plain(amountText(t.amount)) && Plain(t.category)
  }

  /** Reading the output back gives the header record and then, in input
      order, each transaction's five values, provided the columns written
      verbatim hold no comma, line feed or quote. Description and notes are
      recovered whatever they contain. */
  lemma GenerateRoundTrip(ts: seq<Transaction>, amountText: Amount -> string)
    requires forall i :: 0 <= i < |ts| ==> PlainColumns(ts[i], amountText)
    ensures Parse(Generate(ts, amountText))
      == Some([HeaderFields] + seq(|ts|, i requires 0 <= i < |ts| => Fields(ts[i], amountText)))
  {
    var hl := Join(HeaderFields, ',');
    var rows := Rows(ts, amountText);
    var records := seq(|ts|, i requires 0 <= i < |ts| => Fields(ts[i], amountText));
    if |ts| == 0 {
      assert [hl] + rows == [hl];
      HeaderRecord([]);
      assert hl + [] == hl;
      assert Parse(hl) == Some([HeaderFields]);
      assert [HeaderFields] + records == [HeaderFields];
    } else {
      var rest := ['\n'] + Join(rows, '\n');
      assert ([hl] + rows)[1..] == rows;
      JoinCons([hl] + rows, '\n');
      HeaderRecord(rest);
      assert rest[1..] == Join(rows, '\n');
      RowsRoundTrip(ts, amountText);
      ParseCons(hl + rest, HeaderFields, rest, records);
    }
  }

  lemma HeaderEncoded()
    ensures EncodesAll(HeaderFields, HeaderFields)
  {
    PlainLetters("Date");
    PlainLetters("Description");
    PlainLetters("Amount");
    PlainLetters("Category");
    PlainLetters("Notes");
    assert HeaderFields[0] == "Date" && HeaderFields[1] == "Description" && HeaderFields[2] == "Amount";
    assert HeaderFields[3] == "Category" && HeaderFields[4] == "Notes";
  }

  /** Text made of ASCII letters is plain. */
  lemma PlainLetters(s: string)
    requires forall i :: 0 <= i < |s| ==> 'A' <= s[i] <= 'Z' || 'a' <= s[i] <= 'z'
    ensures Plain(s)
  {
  }

  /** The header line reads back as the header record. */
  lemma HeaderRecord(rest: string)
    requires |rest| == 0 || rest[0] == '\n'
    ensures ReadRecord(Join(HeaderFields, ',') + rest) == Some((HeaderFields, rest))
  {
    HeaderEncoded();
    ReadRecordJoined(HeaderFields, HeaderFields, rest);
  }

  /** The rows alone, joined by line feeds, read back as the transactions'
      values. */
  lemma RowsRoundTrip(ts: seq<Transaction>, amountText: Amount -> string)
    requires |ts| > 0
    requires forall i :: 0 <= i < |ts| ==> PlainColumns(ts[i], amountText)
    ensures Parse(Join(Rows(ts, amountText), '\n'))
      == Some(seq(|ts|, i requires 0 <= i < |ts| => Fields(ts[i], amountText)))
  {
    var lines := Rows(ts, amountText);
    var cells := seq(|ts|, i requires 0 <= i < |ts| => RowCells(ts[i], amountText));
    var records := seq(|ts|, i requires 0 <= i < |ts| => Fields(ts[i], amountText));
    forall k | 0 <= k < |ts|
      ensures |cells[k]| == |records[k]| > 0 && EncodesAll(cells[k], records[k])
    {
      RowEncoded(ts[k], amountText);
    }
    ParseJoinedLines(lines, cells, records);
  }

  lemma RowEncoded(t: Transaction, amountText: Amount -> string)
    requires PlainColumns(t, amountText)
    ensures EncodesAll(RowCells(t, amountText), Fields(t, amountText))
  {
  }

  /** Doubling the quotes of a"b" where a and b hold no quotes. */
  lemma DoubledQuotedWord(a: string, b: string)
    requires forall i :: 0 <= i < |a| ==> a[i] != '"'
    requires forall i :: 0 <= i < |b| ==> b[i] != '"'
    ensures Doubled(a + "\"" + b + "\"") == a + "\"\"" + b + "\"\""
  {
    var quote := "\"";
    var pair := "\"\"";
    assert quote[1..] == [];
    assert Doubled(quote) == pair;
    DoubledQuoteFree(a);
    DoubledQuoteFree(b);
    DoubledAppend(a, quote);
    DoubledAppend(a + quote, b);
    DoubledAppend(a + quote + b, quote);
  }

  /** Escaping a"b" where a and b hold no quotes. */
  lemma EscapeQuotedWord(a: string, b: string)
    requires forall i :: 0 <= i < |a| ==> a[i] != '"'
    requires forall i :: 0 <= i < |b| ==> b[i] != '"'
    ensures Escape(a + "\"" + b + "\"") == "\"" + a + "\"\"" + b + "\"\"" + "\""
  {
    DoubledQuotedWord(a, b);
  }

  /** A single transaction whose description is a"b" (a and b without
      quotes) and whose note is empty: the exact output text. */
  lemma QuotedWordOutput(t: Transaction, a: string, b: string, amountText: Amount -> string)
    requires forall i :: 0 <= i < |a| ==> a[i] != '"'
    requires forall i :: 0 <= i < |b| ==> b[i] != '"'
    requires t.description == a + "\"" + b + "\"" && t.notes == Some("")
    ensures Generate([t], amountText)
      == "Date,Description,Amount,Category,Notes" + "\n"
         + (t.date + "," + ("\"" + a + "\"\"" + b + "\"\"" + "\"") + "," + amountText(t.amount)
            + "," + t.category + "," + "\"\"")
  {
    assert [] + [t] == [t];
    GenerateSnoc([], t, amountText);
    GenerateEmpty(amountText);
    EscapeQuotedWord(a, b);
    assert Doubled(NotesText(t.notes)) == [];
    RowText(t, amountText);
  }

  /** The worked example: one transaction whose description holds quotes and
      whose note is empty, with an amount that prints as "-4.5". The expected
      text is written piece by piece: header, line feed, then the five cells
      with their separating commas. */
  lemma CoffeeShopExample(t: Transaction, amountText: Amount -> string)
    requires t.date == "2024-01-05" && t.description == "Coffee " + "\"" + "Shop" + "\""
    requires t.category == "Dining" && t.notes == Some("")
    requires amountText(t.amount) == "-4.5"
    ensures Generate([t], amountText)
      == "Date,Description,Amount,Category,Notes" + "\n"
         + ("2024-01-05" + "," + ("\"" + "Coffee " + "\"\"" + "Shop" + "\"\"" + "\"") + "," + "-4.5"
            + "," + "Dining" + "," + "\"\"")
  {
    QuotedWordOutput(t, "Coffee ", "Shop", amountText);
  }
}
