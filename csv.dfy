/** Comma-separated values as the inventory export writes them: a cell is
    written bare or wrapped in double quotes with every `"` doubled; cells
    are joined with `,` and rows with a line feed. A reader that follows
    the same rules (quoted cells may hold commas, quotes and line feeds)
    recovers the cell texts: that reader is the reference the writer is
    proved against. */
module Csv {
  import opened Inventory

  /** `s.replace(/"/g, '""')` */
  function EscapeQuotes(s: string): (r: string)
    ensures |r| >= |s|
    ensures '"' !in s ==> r == s
  {
    if s == [] then []
    else (if s[0] == '"' then "\"\"" else [s[0]]) + EscapeQuotes(s[1..])
  }

  /** `"${s.replace(/"/g, '""')}"` */
  function Quote(s: string): string {
    "\"" + EscapeQuotes(s) + "\""
  }

  /** Text that can stand in a cell without quotes. */
  predicate Plain(s: string) {
    forall i :: 0 <= i < |s| ==> s[i] != ',' && s[i] != '"' && s[i] != '\n'
  }

  /** Text without a comma, a quote or a line feed is plain. */
  lemma PlainWithoutSeparators(s: string)
    requires ',' !in s && '"' !in s && '\n' !in s
    ensures Plain(s)
  {
    forall i | 0 <= i < |s| ensures s[i] != ',' && s[i] != '"' && s[i] != '\n' {
      assert s[i] in s;
    }
  }

  /** What may follow a cell: the end of the text, a comma or a line feed. */
  predicate CellEnd(rest: string) {
    rest == [] || rest[0] == ',' || rest[0] == '\n'
  }

  datatype Cell = Bare(text: string) | Quoted(text: string)

  function EncodeCell(c: Cell): string {
    match c
    case Bare(t) => t
    case Quoted(t) => Quote(t)
  }

  /** A bare cell must not hold a separator or a quote. */
  predicate Encodable(c: Cell) {
    c.Bare? ==> Plain(c.text)
  }

  /** `parts.join(sep)` */
  function JoinWith(parts: seq<string>, sep: char): string {
    if parts == [] then []
    else if |parts| == 1 then parts[0]
    else parts[0] + [sep] + JoinWith(parts[1..], sep)
  }

  function EncodeRecord(cells: seq<Cell>): string {
    JoinWith(seq(|cells|, i requires 0 <= i < |cells| => EncodeCell(cells[i])), ',')
  }

  function EncodeDocument(records: seq<seq<Cell>>): string {
    JoinWith(seq(|records|, i requires 0 <= i < |records| => EncodeRecord(records[i])), '\n')
  }

  function Texts(cells: seq<Cell>): (r: seq<string>)
    ensures |r| == |cells|
    ensures forall i :: 0 <= i < |cells| ==> r[i] == cells[i].text
  {
    seq(|cells|, i requires 0 <= i < |cells| => cells[i].text)
  }

  // ---------------------------------------------------------------------
  // The reader

  /** Reads the inside of a quoted cell, after its opening quote, up to the
      closing quote: a doubled quote stands for one quote. Returns the text
      and what follows the closing quote, or None if the quote is not closed. */
  function ReadQuoted(s: string): (r: Option<(string, string)>)
    ensures r.Some? ==> |r.value.1| < |s|
  {
    if s == [] then None
    else if s[0] == '"' then
      if |s| >= 2 && s[1] == '"' then
        match ReadQuoted(s[2..])
        case None => None
        case Some((t, rest)) => Some(("\"" + t, rest))
      else Some(("", s[1..]))
    else
      match ReadQuoted(s[1..])
      case None => None
      case Some((t, rest)) => Some(([s[0]] + t, rest))
  }

  /** Reads a bare cell: everything up to the next comma or line feed. */
  function ReadBare(s: string): (r: (string, string))
    ensures r.0 + r.1 == s
    ensures CellEnd(r.1)
  {
    if s == [] || s[0] == ',' || s[0] == '\n' then ("", s)
    else
      var r := ReadBare(s[1..]);
      assert ([s[0]] + r.0) + r.1 == [s[0]] + (r.0 + r.1) == s;
      ([s[0]] + r.0, r.1)
  }

  function ReadCell(s: string): (r: Option<(string, string)>)
    ensures r.Some? ==> |r.value.1| <= |s|
  {
    if s != [] && s[0] == '"' then ReadQuoted(s[1..]) else Some(ReadBare(s))
  }

  /** Reads the cells of one row; what is left starts at the row's line
      feed, or is empty. */
  function ReadRecord(s: string): (r: Option<(seq<string>, string)>)
    ensures r.Some? ==> |r.value.1| <= |s|
    decreases |s|
  {
    match ReadCell(s)
    case None => None
    case Some((t, rest)) =>
      if rest != [] && rest[0] == ',' then
        match ReadRecord(rest[1..])
        case None => None
        case Some((ts, rest')) => Some(([t] + ts, rest'))
      else if rest == [] || rest[0] == '\n' then Some(([t], rest))
      else None
  }

  /** Reads every row of a text. */
  function ReadDocument(s: string): Option<seq<seq<string>>>
    decreases |s|
  {
    match ReadRecord(s)
    case None => None
    case Some((cells, rest)) =>
      if rest == [] then Some([cells])
      else
        match ReadDocument(rest[1..])
        case None => None
        case Some(rows) => Some([cells] + rows)
  }

  // ---------------------------------------------------------------------
  // What is written is read back

  /** The closing quote, not followed by another quote, ends the cell. */
  lemma ReadQuotedClose(rest: string)
    requires rest == [] || rest[0] != '"'
    ensures ReadQuoted("\"" + rest) == Some(("", rest))
  {
    assert ("\"" + rest)[1..] == rest;
  }

  /** A doubled quote reads as one quote. */
  lemma ReadQuotedDoubled(tail: string, t: string, rest: string)
    requires ReadQuoted(tail) == Some((t, rest))
    ensures ReadQuoted("\"\"" + tail) == Some(("\"" + t, rest))
  {
    assert ("\"\"" + tail)[2..] == tail;
  }

  /** Any other character reads as itself. */
  lemma ReadQuotedOther(ch: char, tail: string, t: string, rest: string)
    requires ch != '"' && ReadQuoted(tail) == Some((t, rest))
    ensures ReadQuoted([ch] + tail) == Some(([ch] + t, rest))
  {
    assert ([ch] + tail)[1..] == tail;
  }

  lemma {:induction false} ReadQuotedEscaped(x: string, rest: string)
    requires rest == [] || rest[0] != '"'
    ensures ReadQuoted(EscapeQuotes(x) + "\"" + rest) == Some((x, rest))
  {
    if x == [] {
      ReadQuotedClose(rest);
      assert EscapeQuotes(x) + "\"" + rest == "\"" + rest;
    } else {
      ReadQuotedEscaped(x[1..], rest);
      var tail := EscapeQuotes(x[1..]) + "\"" + rest;
      var head := if x[0] == '"' then "\"\"" else [x[0]];
      assert EscapeQuotes(x) == head + EscapeQuotes(x[1..]);
      Regroup(head + EscapeQuotes(x[1..]), "\"", rest);
      Regroup(head, EscapeQuotes(x[1..]), "\"" + rest);
      Regroup(EscapeQuotes(x[1..]), "\"", rest);
      assert x == [x[0]] + x[1..];
      if x[0] == '"' {
        ReadQuotedDoubled(tail, x[1..], rest);
      } else {
        ReadQuotedOther(x[0], tail, x[1..], rest);
      }
    }
  }

  /** A character other than a separator belongs to the bare cell. */
  lemma ReadBareOther(ch: char, tail: string, t: string, rest: string)
    requires ch != ',' && ch != '\n' && ReadBare(tail) == (t, rest)
    ensures ReadBare([ch] + tail) == ([ch] + t, rest)
  {
    assert ([ch] + tail)[1..] == tail;
  }

  lemma PlainTail(x: string)
    requires x != [] && Plain(x)
    ensures Plain(x[1..]) && x[0] != ',' && x[0] != '\n'
  {
    forall i | 0 <= i < |x[1..]| ensures x[1..][i] != ',' && x[1..][i] != '"' && x[1..][i] != '\n' {
      assert x[1..][i] == x[i + 1];
    }
  }

  lemma {:induction false} ReadBarePlain(x: string, rest: string)
    requires Plain(x) && CellEnd(rest)
    ensures ReadBare(x + rest) == (x, rest)
  {
    if x == [] {
      assert x + rest == rest;
    } else {
      PlainTail(x);
      ReadBarePlain(x[1..], rest);
      assert x == [x[0]] + x[1..];
      Regroup([x[0]], x[1..], rest);
      ReadBareOther(x[0], x[1..] + rest, x[1..], rest);
    }
  }

  lemma ReadCellBare(t: string, rest: string)
    requires Plain(t) && CellEnd(rest)
    ensures ReadCell(t + rest) == Some((t, rest))
  {
    ReadBarePlain(t, rest);
    if t == [] {
      assert t + rest == rest;
    } else {
      assert (t + rest)[0] == t[0];
    }
  }

  lemma ReadCellQuoted(t: string, rest: string)
    requires CellEnd(rest)
    ensures ReadCell(Quote(t) + rest) == Some((t, rest))
  {
    var s := Quote(t) + rest;
    ReadQuotedEscaped(t, rest);
    assert s == "\"" + (EscapeQuotes(t) + "\"" + rest);
    assert s[0] == '"' && s[1..] == EscapeQuotes(t) + "\"" + rest;
  }

  lemma ReadCellEncoded(c: Cell, rest: string)
    requires Encodable(c) && CellEnd(rest)
    ensures ReadCell(EncodeCell(c) + rest) == Some((c.text, rest))
  {
    match c
    case Bare(t) => ReadCellBare(t, rest);
    case Quoted(t) => ReadCellQuoted(t, rest);
  }

  /** A record of several cells reads as its first cell, the comma, and the
      rest of the record. */
  lemma ReadRecordStep(c: Cell, tail: string, texts: seq<string>, rest: string)
    requires Encodable(c)
    requires ReadRecord(tail) == Some((texts, rest))
    ensures ReadRecord(EncodeCell(c) + ("," + tail)) == Some(([c.text] + texts, rest))
  {
    ReadCellEncoded(c, "," + tail);
    assert ("," + tail)[1..] == tail;
  }

  /** The last cell of a row is followed by a line feed or by nothing. */
  lemma ReadRecordLast(c: Cell, rest: string)
    requires Encodable(c)
    requires rest == [] || rest[0] == '\n'
    ensures ReadRecord(EncodeCell(c) + rest) == Some(([c.text], rest))
  {
    ReadCellEncoded(c, rest);
  }

  /** Every cell of `cells` can be written. */
  predicate AllEncodable(cells: seq<Cell>) {
    forall i :: 0 <= i < |cells| ==> Encodable(cells[i])
  }

  /** Regrouping a concatenation of three texts to the right. */
  lemma Regroup(a: string, b: string, c: string)
    ensures a + b + c == a + (b + c)
  {
  }

  /** A row of several cells is its first cell, a comma and the rest. */
  lemma RecordSplit(cells: seq<Cell>, rest: string)
    requires |cells| > 1
    ensures EncodeRecord(cells) + rest == EncodeCell(cells[0]) + ("," + (EncodeRecord(cells[1..]) + rest))
  {
    assert cells == [cells[0]] + cells[1..];
    EncodeRecordCons(cells[0], cells[1..]);
    Regroup(EncodeCell(cells[0]) + ",", EncodeRecord(cells[1..]), rest);
    Regroup(EncodeCell(cells[0]), ",", EncodeRecord(cells[1..]) + rest);
  }

  lemma TextsSplit(cells: seq<Cell>)
    requires cells != []
    ensures Texts(cells) == [cells[0].text] + Texts(cells[1..])
  {
  }

  lemma EncodableTail(cells: seq<Cell>)
    requires cells != [] && AllEncodable(cells)
    ensures AllEncodable(cells[1..])
  {
    forall i | 0 <= i < |cells[1..]| ensures Encodable(cells[1..][i]) {
      assert cells[1..][i] == cells[i + 1];
    }
  }

  /** A row of one cell is that cell. */
  lemma RecordSingle(cells: seq<Cell>)
    requires |cells| == 1
    ensures EncodeRecord(cells) == EncodeCell(cells[0])
    ensures Texts(cells) == [cells[0].text]
  {
    assert cells == [cells[0]] + [];
    EncodeRecordCons(cells[0], []);
  }

  lemma {:induction false} ReadRecordEncoded(cells: seq<Cell>, rest: string)
    requires cells != [] && AllEncodable(cells)
    requires rest == [] || rest[0] == '\n'
    ensures ReadRecord(EncodeRecord(cells) + rest) == Some((Texts(cells), rest))
  {
    assert Encodable(cells[0]);
    if |cells| == 1 {
      RecordSingle(cells);
      ReadRecordLast(cells[0], rest);
    } else {
      RecordSplit(cells, rest);
      TextsSplit(cells);
      EncodableTail(cells);
      ReadRecordEncoded(cells[1..], rest);
      ReadRecordStep(cells[0], EncodeRecord(cells[1..]) + rest, Texts(cells[1..]), rest);
    }
  }

  lemma EncodeDocumentCons(r: seq<Cell>, rest: seq<seq<Cell>>)
    ensures rest == [] ==> EncodeDocument([r] + rest) == EncodeRecord(r)
    ensures rest != [] ==> EncodeDocument([r] + rest) == EncodeRecord(r) + "\n" + EncodeDocument(rest)
  {
    var records := [r] + rest;
    var lines := seq(|records|, i requires 0 <= i < |records| => EncodeRecord(records[i]));
    assert lines[1..] == seq(|rest|, i requires 0 <= i < |rest| => EncodeRecord(rest[i]));
  }

  /** A text of several rows reads as its first row, the line feed, and
      the remaining rows. */
  lemma ReadDocumentStep(line: string, tail: string, cells: seq<string>, rows: seq<seq<string>>)
    requires ReadRecord(line + ("\n" + tail)) == Some((cells, "\n" + tail))
    requires ReadDocument(tail) == Some(rows)
    ensures ReadDocument(line + ("\n" + tail)) == Some([cells] + rows)
  {
    assert ("\n" + tail)[1..] == tail;
  }

  /** The texts of every row, row by row. */
  function AllTexts(records: seq<seq<Cell>>): (r: seq<seq<string>>)
    ensures |r| == |records|
    ensures forall i :: 0 <= i < |records| ==> r[i] == Texts(records[i])
  {
    seq(|records|, i requires 0 <= i < |records| => Texts(records[i]))
  }

  /** Every row is non-empty and every cell can be written. */
  predicate Writable(records: seq<seq<Cell>>) {
    forall r :: 0 <= r < |records| ==> records[r] != [] && AllEncodable(records[r])
  }

  /** A document of several rows is its first row, a line feed and the rest. */
  lemma DocumentSplit(records: seq<seq<Cell>>)
    requires |records| > 1
    ensures EncodeDocument(records) == EncodeRecord(records[0]) + ("\n" + EncodeDocument(records[1..]))
  {
    assert records == [records[0]] + records[1..];
    EncodeDocumentCons(records[0], records[1..]);
    Regroup(EncodeRecord(records[0]), "\n", EncodeDocument(records[1..]));
  }

  lemma AllTextsSplit(records: seq<seq<Cell>>)
    requires records != []
    ensures AllTexts(records) == [Texts(records[0])] + AllTexts(records[1..])
  {
  }

  lemma WritableTail(records: seq<seq<Cell>>)
    requires records != [] && Writable(records)
    ensures Writable(records[1..])
  {
    forall r | 0 <= r < |records[1..]| ensures records[1..][r] != [] && AllEncodable(records[1..][r]) {
      assert records[1..][r] == records[r + 1];
    }
  }

  /** A document of one row is that row. */
  lemma DocumentSingle(records: seq<seq<Cell>>)
    requires |records| == 1
    ensures EncodeDocument(records) == EncodeRecord(records[0]) + ""
    ensures AllTexts(records) == [Texts(records[0])]
  {
    assert records == [records[0]] + [];
    EncodeDocumentCons(records[0], []);
  }

  /** Every document the writer produces reads back as the texts of its
      cells, row by row. */
  lemma {:induction false} ReadDocumentEncoded(records: seq<seq<Cell>>)
    requires records != [] && Writable(records)
    ensures ReadDocument(EncodeDocument(records)) == Some(AllTexts(records))
  {
    assert records[0] != [] && AllEncodable(records[0]);
    if |records| == 1 {
      DocumentSingle(records);
      ReadRecordEncoded(records[0], "");
    } else {
      var tail := EncodeDocument(records[1..]);
      DocumentSplit(records);
      AllTextsSplit(records);
      WritableTail(records);
      ReadRecordEncoded(records[0], "\n" + tail);
      ReadDocumentEncoded(records[1..]);
      ReadDocumentStep(EncodeRecord(records[0]), tail, Texts(records[0]), AllTexts(records[1..]));
    }
  }

  // ---------------------------------------------------------------------
  // A bare cell holding a comma

  lemma EncodeRecordCons(c: Cell, rest: seq<Cell>)
    ensures rest == [] ==> EncodeRecord([c] + rest) == EncodeCell(c)
    ensures rest != [] ==> EncodeRecord([c] + rest) == EncodeCell(c) + "," + EncodeRecord(rest)
  {
    var cells := [c] + rest;
    var parts := seq(|cells|, i requires 0 <= i < |cells| => EncodeCell(cells[i]));
    assert parts[1..] == seq(|rest|, i requires 0 <= i < |rest| => EncodeCell(rest[i]));
  }

  /** A bare cell whose text holds a comma is written exactly as the two
      cells on either side of that comma. */
  lemma {:induction false} SplitBareCell(pre: seq<Cell>, d1: string, d2: string, post: seq<Cell>)
    ensures EncodeRecord(pre + [Bare(d1 + "," + d2)] + post) == EncodeRecord(pre + [Bare(d1), Bare(d2)] + post)
  {
    if pre == [] {
      assert pre + [Bare(d1 + "," + d2)] + post == [Bare(d1 + "," + d2)] + post;
      assert pre + [Bare(d1), Bare(d2)] + post == [Bare(d1)] + ([Bare(d2)] + post);
      EncodeRecordCons(Bare(d1 + "," + d2), post);
      EncodeRecordCons(Bare(d1), [Bare(d2)] + post);
      EncodeRecordCons(Bare(d2), post);
    } else {
      SplitBareCell(pre[1..], d1, d2, post);
      var rest1 := pre[1..] + [Bare(d1 + "," + d2)] + post;
      var rest2 := pre[1..] + [Bare(d1), Bare(d2)] + post;
      assert pre + [Bare(d1 + "," + d2)] + post == [pre[0]] + rest1;
      assert pre + [Bare(d1), Bare(d2)] + post == [pre[0]] + rest2;
      EncodeRecordCons(pre[0], rest1);
      EncodeRecordCons(pre[0], rest2);
    }
  }
}
