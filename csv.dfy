/**
 * Comma-separated text in the shape of RFC 4180, section 2: fields joined
 * by commas, records by line breaks (here a bare line feed), and a field
 * that is enclosed in double quotes with each embedded double quote
 * written twice (items 5 to 7). Alongside the writer, a reader that undoes
 * it, so that what the export writes can be shown to read back.
 */
module Csv {
  import opened Text
  import opened Seqs

  /** A field as it is written: as is, or enclosed in quotes. */
  datatype Cell = Plain(text: string) | Quoted(text: string)

  function TextOf(c: Cell): string
  {
    c.text
  }

  /** Text that may be written unquoted: no comma, no double quote, no line feed. */
  predicate PlainSafe(s: string)
  {
    forall i :: 0 <= i < |s| ==> s[i] != ',' && s[i] != '"' && s[i] != '\n'
  }

  /** `s.replace(/"/g, '""')`: every double quote written twice. */
  function Escape(s: string): (r: string)
    ensures |r| >= |s|
  {
    if s == [] then []
    else (if s[0] == '"' then "\"\"" else [s[0]]) + Escape(s[1..])
  }

  /** The written form of a field. */
  function Encode(c: Cell): string
  {
    match c
    case Plain(s) => s
    case Quoted(s) => "\"" + Escape(s) + "\""
  }

  /** A record: its fields joined by commas. */
  function EncodeRecord(cells: seq<Cell>): string
  {
    Join(MapSeq(cells, Encode), ",")
  }

  /** A field the reader gets back: quoted fields always, plain ones when they are safe. */
  predicate Readable(c: Cell)
  {
    c.Quoted? || PlainSafe(c.text)
  }

  /** Text that starts a new field or record, or nothing at all. */
  predicate AtSeparator(rest: string)
  {
    rest == [] || rest[0] == ',' || rest[0] == '\n'
  }

  /**
   * The inside of a quoted field, up to its closing quote: a doubled quote
   * stands for one quote. Returns the text and what follows the closing
   * quote; an unclosed field runs to the end.
   */
  function ReadQuoted(s: string): (r: (string, string))
    ensures |r.1| <= |s|
    decreases |s|
  {
    if s == [] then ([], [])
    else if s[0] == '"' then
      if |s| >= 2 && s[1] == '"' then
        var (f, rest) := ReadQuoted(s[2..]);
        (['"'] + f, rest)
      else ([], s[1..])
    else
      var (f, rest) := ReadQuoted(s[1..]);
      ([s[0]] + f, rest)
  }

  /** Unquoted text up to the next comma or line feed. */
  function ReadPlain(s: string): (r: (string, string))
    ensures |r.1| <= |s| && AtSeparator(r.1)
    decreases |s|
  {
    if s == [] || s[0] == ',' || s[0] == '\n' then ([], s)
    else
      var (f, rest) := ReadPlain(s[1..]);
      ([s[0]] + f, rest)
  }

  /** One field: quoted when it starts with a quote (anything between the closing quote and the separator is kept). */
  function ReadField(s: string): (r: (string, string))
    ensures |r.1| <= |s| && AtSeparator(r.1)
  {
    if s != [] && s[0] == '"' then
      var (f, rest) := ReadQuoted(s[1..]);
      var (g, rest') := ReadPlain(rest);
      (f + g, rest')
    else ReadPlain(s)
  }

  /** One record: its fields, the text after it, and whether a line feed ended it. */
  function ReadRecord(s: string): (r: (seq<string>, string, bool))
    ensures |r.0| >= 1
    ensures r.2 ==> |r.1| < |s|
    decreases |s|
  {
    var (f, rest) := ReadField(s);
    if rest != [] && rest[0] == ',' then
      var (fs, rest', more) := ReadRecord(rest[1..]);
      ([f] + fs, rest', more)
    else if rest != [] then ([f], rest[1..], true)
    else ([f], [], false)
  }

  /** A whole text: records until the text ends. */
  function ReadDocument(s: string): (r: seq<seq<string>>)
    ensures |r| >= 1
    decreases |s|
  {
    var (fs, rest, more) := ReadRecord(s);
    if more then [fs] + ReadDocument(rest) else [fs]
  }

  /** Reading an escaped text and its closing quote gives the text back. */
  lemma {:induction false} ReadEscaped(s: string, rest: string)
    requires rest == [] || rest[0] != '"'
    ensures ReadQuoted(Escape(s) + "\"" + rest) == (s, rest)
    decreases |s|
  {
    var w := Escape(s) + "\"" + rest;
    if s == [] {
      assert w == "\"" + rest && w[1..] == rest;
    } else {
      ReadEscaped(s[1..], rest);
      var tail := Escape(s[1..]) + "\"" + rest;
      if s[0] == '"' {
        assert w == "\"\"" + tail && w[2..] == tail;
      } else {
        assert w == [s[0]] + tail && w[1..] == tail;
      }
      assert [s[0]] + s[1..] == s;
    }
  }

  /** Safe text followed by a separator reads back as itself. */
  lemma {:induction false} ReadSafe(s: string, rest: string)
    requires PlainSafe(s) && AtSeparator(rest)
    ensures ReadPlain(s + rest) == (s, rest)
    decreases |s|
  {
    if s == [] {
      assert s + rest == rest;
    } else {
      assert (s + rest)[1..] == s[1..] + rest;
      ReadSafe(s[1..], rest);
      assert [s[0]] + s[1..] == s;
    }
  }

  /** A readable field followed by a separator reads back as its text. */
  lemma {:induction false} ReadEncoded(c: Cell, rest: string)
    requires Readable(c) && AtSeparator(rest)
    ensures ReadField(Encode(c) + rest) == (c.text, rest)
  {
    match c
    case Plain(s) =>
      ReadSafe(s, rest);
      if s != [] {
        assert (s + rest)[0] == s[0];
      }
    case Quoted(s) =>
      var w := Encode(c) + rest;
      assert w[0] == '"' && w[1..] == Escape(s) + "\"" + rest;
      ReadEscaped(s, rest);
      ReadSafe([], rest);
      assert [] + rest == rest && s + [] == s;
  }

  /** A record of readable fields, followed by a line feed or nothing, reads back as its texts. */
  lemma {:induction false} ReadEncodedRecord(cells: seq<Cell>, rest: string)
    requires |cells| >= 1 && forall i :: 0 <= i < |cells| ==> Readable(cells[i])
    requires rest == [] || rest[0] == '\n'
    ensures ReadRecord(EncodeRecord(cells) + rest)
         == (MapSeq(cells, TextOf), if rest == [] then [] else rest[1..], rest != [])
    decreases |cells|
  {
    if |cells| == 1 {
      assert EncodeRecord(cells) == Encode(cells[0]);
      ReadEncoded(cells[0], rest);
      assert MapSeq(cells, TextOf) == [cells[0].text];
    } else {
      var tail := EncodeRecord(cells[1..]) + rest;
      var w := Encode(cells[0]) + ("," + tail);
      assert EncodeRecord(cells) + rest == w by {
        assert MapSeq(cells[1..], Encode) == MapSeq(cells, Encode)[1..];
      }
      ReadEncoded(cells[0], "," + tail);
      assert ReadField(w) == (cells[0].text, "," + tail);
      assert ("," + tail)[1..] == tail;
      ReadEncodedRecord(cells[1..], rest);
      assert ReadRecord(w) == ([cells[0].text] + MapSeq(cells[1..], TextOf), if rest == [] then [] else rest[1..], rest != []);
      assert MapSeq(cells, TextOf) == [cells[0].text] + MapSeq(cells[1..], TextOf);
    }
  }

  /** Records joined by line feeds. */
  function EncodeDocument(records: seq<seq<Cell>>): string
  {
    Join(MapSeq(records, EncodeRecord), "\n")
  }

  /** The texts of a record's fields. */
  function RecordTexts(cells: seq<Cell>): seq<string>
  {
    MapSeq(cells, TextOf)
  }

  /** Every record has a field and every field is readable. */
  predicate AllReadable(records: seq<seq<Cell>>)
  {
    forall k :: 0 <= k < |records| ==> |records[k]| >= 1 && forall i :: 0 <= i < |records[k]| ==> Readable(records[k][i])
  }

  /** The texts of a header followed by one record per row, when each row's record has that row's texts. */
  lemma {:induction false} DocumentTexts<T>(header: seq<Cell>, rows: seq<T>, cells: T -> seq<Cell>, texts: T -> seq<string>)
    requires forall t :: RecordTexts(cells(t)) == texts(t)
    ensures MapSeq([header] + MapSeq(rows, cells), RecordTexts) == [RecordTexts(header)] + MapSeq(rows, texts)
  {
    var records := [header] + MapSeq(rows, cells);
    var r := MapSeq(records, RecordTexts);
    var expected := [RecordTexts(header)] + MapSeq(rows, texts);
    forall k | 1 <= k < |r|
      ensures r[k] == expected[k]
    {
      assert records[k] == cells(rows[k - 1]);
    }
  }

  /**
   * Round trip: a text written from records of readable fields reads back
   * as exactly those records, one per record written, even when quoted
   * fields hold commas, quotes or line feeds.
   */
  lemma {:induction false} ReadEncodedDocument(records: seq<seq<Cell>>)
    requires |records| >= 1 && AllReadable(records)
    ensures ReadDocument(EncodeDocument(records)) == MapSeq(records, RecordTexts)
    decreases |records|
  {
    if |records| == 1 {
      assert EncodeDocument(records) == EncodeRecord(records[0]) + [];
      ReadEncodedRecord(records[0], []);
      assert MapSeq(records, RecordTexts) == [RecordTexts(records[0])];
    } else {
      var tail := EncodeDocument(records[1..]);
      var w := EncodeRecord(records[0]) + ("\n" + tail);
      assert EncodeDocument(records) == w by {
        assert MapSeq(records[1..], EncodeRecord) == MapSeq(records, EncodeRecord)[1..];
      }
      ReadEncodedRecord(records[0], "\n" + tail);
      assert ("\n" + tail)[1..] == tail;
      assert ReadRecord(w) == (RecordTexts(records[0]), tail, true);
      assert AllReadable(records[1..]) by {
        forall k | 0 <= k < |records| - 1
          ensures records[1..][k] == records[k + 1]
        {
        }
      }
      ReadEncodedDocument(records[1..]);
      assert MapSeq(records, RecordTexts) == [RecordTexts(records[0])] + MapSeq(records[1..], RecordTexts);
    }
  }
}
