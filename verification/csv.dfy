/** Comma-separated values as RFC 4180 lays them out: fields separated by `,`,
    records by a line feed, and a field between double quotes read up to the
    next lone quote, a doubled quote standing for one quote character. The
    writers of the export files put each field on the line in one of three
    ways; the reader is the partner they are proved against. */
module Csv {
  import opened Wrappers
  import opened Text

  /** `cell.replace(/"/g, '""')`: every double quote doubled. */
  function EscapeQuotes(s: string): (r: string)
    ensures |r| >= |s|
    ensures '"' !in s ==> r == s
    decreases |s|
  {
    if |s| == 0 then []
    else
      assert '"' !in s ==> '"' !in s[1..] && s == [s[0]] + s[1..];
      (if s[0] == '"' then "\"\"" else [s[0]]) + EscapeQuotes(s[1..])
  }

  /** How a writer puts one field on the line. */
  datatype Cell =
    | Bare(text: string)     // written as it is
    | Wrapped(text: string)  // written between quotes, inner quotes left as they are
    | Escaped(text: string)  // written between quotes, inner quotes doubled

  function CellText(c: Cell): string {
    match c
    case Bare(t) => t
    case Wrapped(t) => "\"" + t + "\""
    case Escaped(t) => "\"" + EscapeQuotes(t) + "\""
  }

  /** The texts of `cells`, in order. */
  function CellTexts(cells: seq<Cell>): (ts: seq<string>)
    ensures |ts| == |cells|
  {
    seq(|cells|, k requires 0 <= k < |cells| => CellText(cells[k]))
  }

  /** `cells.join(',')`. */
  function Record(cells: seq<Cell>): string {
    Join(CellTexts(cells), ",")
  }

  /** `[...records].join('\n')`. */
  function Document(rows: seq<seq<Cell>>): string {
    Join(seq(|rows|, i requires 0 <= i < |rows| => Record(rows[i])), "\n")
  }

  /** The fields a reader should get back from `cells`. */
  function Texts(cells: seq<Cell>): (ts: seq<string>)
    ensures |ts| == |cells|
  {
    seq(|cells|, k requires 0 <= k < |cells| => cells[k].text)
  }

  function Table(rows: seq<seq<Cell>>): (t: seq<seq<string>>)
    ensures |t| == |rows|
  {
    seq(|rows|, i requires 0 <= i < |rows| => Texts(rows[i]))
  }

  /** The rest of a quoted field after its opening quote: the field's text and
      what follows its closing quote, or None when the quote is never closed. */
  function ReadQuoted(s: string): (r: Option<(string, string)>)
    ensures r.Some? ==> |r.value.1| < |s|
    decreases |s|
  {
    if |s| == 0 then None
    else if s[0] == '"' then
      if |s| >= 2 && s[1] == '"' then
        match ReadQuoted(s[2..])
        case None => None
        case Some((t, rest)) => Some(("\"" + t, rest))
      else Some(("", s[1..]))
    else
      match ReadQuoted(s[1..])
      case None => None
      case Some((t, rest)) => Some(([s[0]] + t, rest))
  }

  /** A field without quotes runs up to the next comma or line feed. */
  function ReadBare(s: string): (r: (string, string))
    ensures r.0 + r.1 == s
    decreases |s|
  {
    if |s| == 0 || s[0] == ',' || s[0] == '\n' then ("", s)
    else
      var (t, rest) := ReadBare(s[1..]);
      ([s[0]] + t, rest)
  }

  function ReadField(s: string): (r: Option<(string, string)>)
    ensures r.Some? ==> |r.value.1| <= |s|
  {
    if |s| > 0 && s[0] == '"' then ReadQuoted(s[1..]) else Some(ReadBare(s))
  }

  /** One record: its fields up to the line feed that ends it or the end of
      the text, and what follows; None when a quoted field is followed by
      anything but a separator. */
  function ReadRecord(s: string): (r: Option<(seq<string>, string)>)
    ensures r.Some? ==> |r.value.0| >= 1 && |r.value.1| <= |s|
    ensures r.Some? ==> r.value.1 == [] || r.value.1[0] == '\n'
    decreases |s|
  {
    match ReadField(s)
    case None => None
    case Some((f, rest)) =>
      if |rest| == 0 || rest[0] == '\n' then Some(([f], rest))
      else if rest[0] == ',' then
        match ReadRecord(rest[1..])
        case None => None
        case Some((fs, after)) => Some(([f] + fs, after))
      else None
  }

  /** A whole text: its records, one per line. */
  function ReadCsv(s: string): (r: Option<seq<seq<string>>>)
    ensures r.Some? ==> |r.value| >= 1
    decreases |s|
  {
    match ReadRecord(s)
    case None => None
    case Some((fields, rest)) =>
      if |rest| == 0 then Some([fields])
      else
        match ReadCsv(rest[1..])
        case None => None
        case Some(rows) => Some([fields] + rows)
  }

  /** A cell reads back as its text: anything between escaped quotes, no
      quote between plain quotes, and no quote, comma or line feed bare. */
  predicate Readable(c: Cell) {
    match c
    case Bare(t) => '"' !in t && ',' !in t && '\n' !in t
    case Wrapped(t) => '"' !in t
    case Escaped(_) => true
  }

  predicate AllReadable(cells: seq<Cell>) {
    forall k :: 0 <= k < |cells| ==> Readable(cells[k])
  }

  /** What may follow a field: the end, a comma or a line feed. */
  predicate FieldEnd(rest: string) {
    |rest| == 0 || rest[0] == ',' || rest[0] == '\n'
  }

  /** The closing quote ends a quoted field when no second quote follows it. */
  lemma QuotedEnd(rest: string)
    requires |rest| == 0 || rest[0] != '"'
    ensures ReadQuoted("\"" + rest) == Some(("", rest))
  {
    assert ("\"" + rest)[1..] == rest;
  }

  /** A doubled quote inside a quoted field stands for one quote. */
  lemma QuotedPair(tail: string, t: string, rest: string)
    requires ReadQuoted(tail) == Some((t, rest))
    ensures ReadQuoted("\"\"" + tail) == Some(("\"" + t, rest))
  {
    assert ("\"\"" + tail)[2..] == tail;
  }

  /** Any other character inside a quoted field stands for itself. */
  lemma QuotedChar(c: char, tail: string, t: string, rest: string)
    requires c != '"' && ReadQuoted(tail) == Some((t, rest))
    ensures ReadQuoted([c] + tail) == Some(([c] + t, rest))
  {
    assert ([c] + tail)[1..] == tail;
  }

  /** `EscapeQuotes` written out for a first character and the rest. */
  lemma EscapeCons(t: string, after: string)
    requires |t| > 0
    ensures EscapeQuotes(t) + after == (if t[0] == '"' then "\"\"" else [t[0]]) + (EscapeQuotes(t[1..]) + after)
  {
  }

  lemma {:induction false} ReadEscaped(t: string, rest: string)
    requires |rest| == 0 || rest[0] != '"'
    ensures ReadQuoted(EscapeQuotes(t) + ("\"" + rest)) == Some((t, rest))
    decreases |t|
  {
    if |t| == 0 {
      assert EscapeQuotes(t) + ("\"" + rest) == "\"" + rest;
      QuotedEnd(rest);
    } else {
      var tail := EscapeQuotes(t[1..]) + ("\"" + rest);
      ReadEscaped(t[1..], rest);
      EscapeCons(t, "\"" + rest);
      if t[0] == '"' {
        QuotedPair(tail, t[1..], rest);
      } else {
        QuotedChar(t[0], tail, t[1..], rest);
      }
      assert t == [t[0]] + t[1..];
    }
  }

  lemma {:induction false} ReadBareText(t: string, rest: string)
    requires ',' !in t && '\n' !in t
    requires FieldEnd(rest)
    ensures ReadBare(t + rest) == (t, rest)
    decreases |t|
  {
    if |t| == 0 {
      assert t + rest == rest;
    } else {
      assert (t + rest)[1..] == t[1..] + rest;
      assert t[0] in t;
      ReadBareText(t[1..], rest);
      assert t == [t[0]] + t[1..];
    }
  }

  /** Every readable cell reads back as its text, leaving what follows it. */
  lemma ReadCell(c: Cell, rest: string)
    requires Readable(c) && FieldEnd(rest)
    ensures ReadField(CellText(c) + rest) == Some((c.text, rest))
  {
    if c.Bare? {
      ReadBareCell(c.text, rest);
    } else {
      ReadQuotedCell(c, rest);
    }
  }

  lemma ReadBareCell(t: string, rest: string)
    requires '"' !in t && ',' !in t && '\n' !in t && FieldEnd(rest)
    ensures ReadField(t + rest) == Some((t, rest))
  {
    ReadBareText(t, rest);
    assert |t| > 0 ==> (t + rest)[0] == t[0] && t[0] in t;
  }

  lemma ReadQuotedCell(c: Cell, rest: string)
    requires !c.Bare? && Readable(c) && FieldEnd(rest)
    ensures ReadField(CellText(c) + rest) == Some((c.text, rest))
  {
    var q := EscapeQuotes(c.text) + ("\"" + rest);
    assert CellText(c) + rest == ['"'] + q;
    assert (['"'] + q)[1..] == q;
    ReadEscaped(c.text, rest);
  }

  /** `Record` written out for a first cell followed by more. */
  lemma RecordCons(cells: seq<Cell>)
    requires |cells| >= 2
    ensures Record(cells) == CellText(cells[0]) + "," + Record(cells[1..])
  {
    assert CellTexts(cells[1..]) == CellTexts(cells)[1..];
  }

  /** A field followed by a comma starts a record that goes on after it. */
  lemma RecordGoesOn(s: string, f: string, tail: string, fs: seq<string>, after: string)
    requires ReadField(s) == Some((f, "," + tail))
    requires ReadRecord(tail) == Some((fs, after))
    ensures ReadRecord(s) == Some(([f] + fs, after))
  {
    assert ("," + tail)[1..] == tail;
  }

  /** A record of readable cells reads back as their texts, leaving the line
      feed or end that follows it. */
  lemma {:induction false} ReadRecordOf(cells: seq<Cell>, rest: string)
    requires |cells| >= 1 && AllReadable(cells)
    requires |rest| == 0 || rest[0] == '\n'
    ensures ReadRecord(Record(cells) + rest) == Some((Texts(cells), rest))
    decreases |cells|
  {
    if |cells| == 1 {
      assert Record(cells) == CellText(cells[0]);
      ReadCell(cells[0], rest);
      assert Texts(cells) == [cells[0].text];
    } else {
      ReadRecordOf(cells[1..], rest);
      ReadFirstCell(cells, rest);
    }
  }

  /** The step of `ReadRecordOf`: a readable first cell in front of a record that reads back. */
  lemma ReadFirstCell(cells: seq<Cell>, rest: string)
    requires |cells| >= 2 && Readable(cells[0])
    requires ReadRecord(Record(cells[1..]) + rest) == Some((Texts(cells[1..]), rest))
    ensures ReadRecord(Record(cells) + rest) == Some((Texts(cells), rest))
  {
    var tail := Record(cells[1..]) + rest;
    RecordConsRest(cells, rest);
    ReadCell(cells[0], "," + tail);
    RecordGoesOn(Record(cells) + rest, cells[0].text, tail, Texts(cells[1..]), rest);
    TextsCons(cells);
  }

  lemma RecordConsRest(cells: seq<Cell>, rest: string)
    requires |cells| >= 2
    ensures Record(cells) + rest == CellText(cells[0]) + ("," + (Record(cells[1..]) + rest))
  {
    RecordCons(cells);
  }

  lemma TextsCons(cells: seq<Cell>)
    requires |cells| >= 1
    ensures Texts(cells) == [cells[0].text] + Texts(cells[1..])
  {
  }

  lemma DocumentCons(rows: seq<seq<Cell>>)
    requires |rows| >= 2
    ensures Document(rows) == Record(rows[0]) + ("\n" + Document(rows[1..]))
  {
    var lines := seq(|rows|, i requires 0 <= i < |rows| => Record(rows[i]));
    assert seq(|rows| - 1, i requires 0 <= i < |rows| - 1 => Record(rows[1..][i])) == lines[1..];
  }

  /** A document starts with its first record, and a record with its first cell. */
  lemma DocumentStarts(rows: seq<seq<Cell>>)
    requires |rows| >= 1 && |rows[0]| >= 1
    ensures exists more :: Document(rows) == CellText(rows[0][0]) + more
  {
    var first := rows[0];
    var line := if |first| == 1 then "" else "," + Record(first[1..]);
    if |first| >= 2 {
      RecordCons(first);
    }
    assert Record(first) == CellText(first[0]) + line;
    if |rows| == 1 {
      assert Document(rows) == CellText(first[0]) + line;
    } else {
      DocumentCons(rows);
      assert Document(rows) == CellText(first[0]) + (line + ("\n" + Document(rows[1..])));
    }
  }

  /** A record followed by a line feed starts a text that goes on after it. */
  lemma CsvGoesOn(s: string, fields: seq<string>, tail: string, rows: seq<seq<string>>)
    requires ReadRecord(s) == Some((fields, "\n" + tail))
    requires ReadCsv(tail) == Some(rows)
    ensures ReadCsv(s) == Some([fields] + rows)
  {
    assert ("\n" + tail)[1..] == tail;
  }

  /** A document of non-empty rows of readable cells reads back as the table of their texts. */
  lemma {:induction false} ReadDocument(rows: seq<seq<Cell>>)
    requires |rows| >= 1
    requires forall i :: 0 <= i < |rows| ==> |rows[i]| >= 1 && AllReadable(rows[i])
    ensures ReadCsv(Document(rows)) == Some(Table(rows))
    decreases |rows|
  {
    if |rows| == 1 {
      assert Document(rows) == Record(rows[0]) + "";
      ReadRecordOf(rows[0], "");
      assert Table(rows) == [Texts(rows[0])];
    } else {
      ReadDocument(rows[1..]);
      ReadFirstRow(rows);
    }
  }

  /** The step of `ReadDocument`: a readable first row in front of a document that reads back. */
  lemma ReadFirstRow(rows: seq<seq<Cell>>)
    requires |rows| >= 2 && |rows[0]| >= 1 && AllReadable(rows[0])
    requires ReadCsv(Document(rows[1..])) == Some(Table(rows[1..]))
    ensures ReadCsv(Document(rows)) == Some(Table(rows))
  {
    var tail := Document(rows[1..]);
    DocumentCons(rows);
    ReadRecordOf(rows[0], "\n" + tail);
    CsvGoesOn(Document(rows), Texts(rows[0]), tail, Table(rows[1..]));
    assert Table(rows) == [Texts(rows[0])] + Table(rows[1..]);
  }

  /** `Bare` cells for a line of plain headings. */
  function BareCells(names: seq<string>): (cells: seq<Cell>)
    ensures Texts(cells) == names
  {
    var cells := seq(|names|, k requires 0 <= k < |names| => Bare(names[k]));
    assert Texts(cells) == names;
    cells
  }

  /** A cell written between plain quotes stops at the first quote inside it:
      when what follows that quote is not a separator, the record does not read. */
  lemma WrappedQuoteUnreadable(a: string, b: string, more: string)
    requires '"' !in a
    requires |b| > 0 && b[0] != '"' && b[0] != ',' && b[0] != '\n'
    ensures ReadRecord(CellText(Wrapped(a + "\"" + b)) + more) == None
  {
    var after := b + "\"" + more;
    var q := a + ("\"" + after);
    assert CellText(Wrapped(a + "\"" + b)) + more == ['"'] + q;
    assert (['"'] + q)[1..] == q;
    ReadEscaped(a, after);
    assert after[0] == b[0];
  }

  /** A line that does not read makes the whole text unreadable. */
  lemma UnreadableLine(s: string, fields: seq<string>, tail: string)
    requires ReadRecord(s) == Some((fields, "\n" + tail))
    requires ReadRecord(tail) == None
    ensures ReadCsv(s) == None
  {
    assert ("\n" + tail)[1..] == tail;
  }
}
