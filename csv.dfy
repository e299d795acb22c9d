/**
 * CSV text as the spreadsheet export writes it: `;`-separated fields, text
 * fields wrapped in double quotes with every inner quote doubled, records
 * ended by a line feed. A small reader of that format, written independently
 * of the writer, states what a delimiter-aware reader gets back.
 */
module Csv {
  import opened Wrappers

  const Separator: char := ';'
  const Newline: char := '\n'
  const QuoteChar: char := '"'

  /** `s.replace(/"/g, '""')`. */
  function DoubleQuotes(s: string): (r: string)
    ensures |r| >= |s|
    ensures QuoteChar !in s ==> r == s
    decreases |s|
  {
    if s == [] then []
    else (if s[0] == QuoteChar then [QuoteChar, QuoteChar] else [s[0]]) + DoubleQuotes(s[1..])
  }

  /** `"${s.replace(/"/g, '""')}"`. */
  function QuoteField(s: string): (r: string)
    ensures |r| >= 2 && r[0] == QuoteChar && r[|r| - 1] == QuoteChar
  {
    [QuoteChar] + DoubleQuotes(s) + [QuoteChar]
  }

  /**
   * The inside of a quoted field, read up to its closing quote: `""` stands for
   * one quote and a lone `"` closes the field. Gives the text and what follows
   * the closing quote, or `None` when the field is never closed.
   */
  function ReadQuotedBody(t: string): (res: Option<(string, string)>)
    ensures res.Some? ==> |res.value.1| < |t|
    decreases |t|
  {
    if t == [] then None
    else if t[0] == QuoteChar then
      if |t| >= 2 && t[1] == QuoteChar then
        match ReadQuotedBody(t[2..])
        case Some((text, rest)) => Some(([QuoteChar] + text, rest))
        case None => None
      else Some(([], t[1..]))
    else
      match ReadQuotedBody(t[1..])
      case Some((text, rest)) => Some(([t[0]] + text, rest))
      case None => None
  }

  /** True of the text that may follow a field: the end, or a separator or line feed. */
  predicate FieldEnd(rest: string)
  {
    rest == [] || rest[0] == Separator || rest[0] == Newline
  }

  /** A doubled quote inside a quoted field reads as one quote. */
  lemma ReadQuotedPair(tail: string, text: string, rest: string)
    requires ReadQuotedBody(tail) == Some((text, rest))
    ensures ReadQuotedBody([QuoteChar, QuoteChar] + tail) == Some(([QuoteChar] + text, rest))
  {
    assert ([QuoteChar, QuoteChar] + tail)[2..] == tail;
  }

  /** Any other character inside a quoted field reads as itself. */
  lemma ReadQuotedPlain(c: char, tail: string, text: string, rest: string)
    requires c != QuoteChar && ReadQuotedBody(tail) == Some((text, rest))
    ensures ReadQuotedBody([c] + tail) == Some(([c] + text, rest))
  {
    assert ([c] + tail)[1..] == tail;
  }

  /** Regrouping the text after a doubled character. */
  lemma SplitFront(head: string, body: string, rest: string)
    ensures head + body + [QuoteChar] + rest == head + (body + [QuoteChar] + rest)
  {
  }

  /** Reading back the doubled text of `s` stops exactly at the closing quote. */
  lemma {:induction false} ReadDoubled(s: string, rest: string)
    requires FieldEnd(rest)
    ensures ReadQuotedBody(DoubleQuotes(s) + [QuoteChar] + rest) == Some((s, rest))
    decreases |s|
  {
    if s == [] {
      assert DoubleQuotes(s) + [QuoteChar] + rest == [QuoteChar] + rest;
    } else {
      var head := if s[0] == QuoteChar then [QuoteChar, QuoteChar] else [s[0]];
      var tail := DoubleQuotes(s[1..]) + [QuoteChar] + rest;
      assert DoubleQuotes(s) == head + DoubleQuotes(s[1..]);
      SplitFront(head, DoubleQuotes(s[1..]), rest);
      ReadDoubled(s[1..], rest);
      if s[0] == QuoteChar {
        ReadQuotedPair(tail, s[1..], rest);
      } else {
        ReadQuotedPlain(s[0], tail, s[1..], rest);
      }
      assert [s[0]] + s[1..] == s;
    }
  }

  /** A field that is not quoted: everything up to the next separator or line feed. */
  function ReadBare(t: string): (res: (string, string))
    ensures |res.1| <= |t|
    ensures res.0 + res.1 == t
    decreases |t|
  {
    if t == [] || t[0] == Separator || t[0] == Newline then ([], t)
    else
      var (text, rest) := ReadBare(t[1..]);
      ([t[0]] + text, rest)
  }

  /** One field, quoted or bare, and the text after it. */
  function ReadField(t: string): (res: Option<(string, string)>)
    ensures res.Some? ==> |res.value.1| <= |t|
  {
    if t != [] && t[0] == QuoteChar then ReadQuotedBody(t[1..]) else Some(ReadBare(t))
  }

  /** A quoted field is read back as the original text, whatever quotes, separators or line feeds it holds. */
  lemma QuotedFieldRoundTrip(s: string, rest: string)
    requires FieldEnd(rest)
    ensures ReadField(QuoteField(s) + rest) == Some((s, rest))
  {
    var t := QuoteField(s) + rest;
    assert t[1..] == DoubleQuotes(s) + [QuoteChar] + rest;
    ReadDoubled(s, rest);
  }

  /** Text that can stand unquoted: no separator, line feed or quote in it. */
  predicate BareSafe(s: string)
  {
    Separator !in s && Newline !in s && QuoteChar !in s
  }

  lemma {:induction false} ReadBareSafe(s: string, rest: string)
    requires BareSafe(s) && FieldEnd(rest)
    ensures ReadBare(s + rest) == (s, rest)
    decreases |s|
  {
    if s == [] {
      assert s + rest == rest;
    } else {
      assert (s + rest)[0] == s[0];
      assert (s + rest)[1..] == s[1..] + rest;
      assert BareSafe(s[1..]) by {
        forall c | c in s[1..] ensures c in s { }
      }
      ReadBareSafe(s[1..], rest);
      assert [s[0]] + s[1..] == s;
    }
  }

  /** A bare-safe field is read back unchanged. */
  lemma BareFieldRoundTrip(s: string, rest: string)
    requires BareSafe(s) && FieldEnd(rest)
    ensures ReadField(s + rest) == Some((s, rest))
  {
    ReadBareSafe(s, rest);
    if s == [] {
      assert s + rest == rest;
    } else {
      assert (s + rest)[0] == s[0];
    }
  }

  /** One record: fields separated by `;` up to a line feed. Gives the fields and the text after the line feed. */
  function ReadRecord(t: string): (res: Option<(seq<string>, string)>)
    ensures res.Some? ==> |res.value.1| < |t|
    decreases |t|
  {
    match ReadField(t)
    case None => None
    case Some((field, rest)) =>
      if rest == [] then None
      else if rest[0] == Newline then Some(([field], rest[1..]))
      else if rest[0] == Separator then
        match ReadRecord(rest[1..])
        case Some((fields, after)) => Some(([field] + fields, after))
        case None => None
      else None
  }

  /** Records up to the end of the text. */
  function ReadRecords(t: string): (res: Option<seq<seq<string>>>)
    decreases |t|
  {
    if t == [] then Some([])
    else match ReadRecord(t)
      case None => None
      case Some((fields, rest)) =>
        match ReadRecords(rest)
        case Some(records) => Some([fields] + records)
        case None => None
  }

  /** Reading a field followed by `;` and more fields continues with those fields. */
  lemma ReadRecordStep(field: string, written: string, tail: string, fields: seq<string>, after: string)
    requires ReadField(written + ([Separator] + tail)) == Some((field, [Separator] + tail))
    requires ReadRecord(tail) == Some((fields, after))
    ensures ReadRecord(written + [Separator] + tail) == Some(([field] + fields, after))
  {
    assert written + [Separator] + tail == written + ([Separator] + tail);
    assert ([Separator] + tail)[1..] == tail;
  }

  /** Reading a last field followed by the line feed ends the record. */
  lemma ReadRecordLast(field: string, written: string, after: string)
    requires ReadField(written + ([Newline] + after)) == Some((field, [Newline] + after))
    ensures ReadRecord(written + [Newline] + after) == Some(([field], after))
  {
    assert written + [Newline] + after == written + ([Newline] + after);
    assert ([Newline] + after)[1..] == after;
  }

  /** A record followed by more records: the records are read in order. */
  lemma ReadRecordsStep(record: string, more: string, fields: seq<string>, records: seq<seq<string>>)
    requires ReadRecord(record + more) == Some((fields, more))
    requires ReadRecords(more) == Some(records)
    ensures ReadRecords(record + more) == Some([fields] + records)
  {
    assert |more| < |record + more|;
  }

  /** `fields.join(";")`. */
  function Join(fields: seq<string>): (r: string)
    ensures fields == [] ==> r == []
    ensures |fields| == 1 ==> r == fields[0]
    decreases |fields|
  {
    if fields == [] then []
    else if |fields| == 1 then fields[0]
    else fields[0] + [Separator] + Join(fields[1..])
  }

  /** Each written field `ws[i]`, followed by a delimiter, is read back as `fs[i]`. */
  ghost predicate ReadsBack(ws: seq<string>, fs: seq<string>)
  {
    |ws| == |fs| &&
    forall i, rest :: 0 <= i < |ws| && FieldEnd(rest) ==> ReadField(ws[i] + rest) == Some((fs[i], rest))
  }

  /** Dropping the first field keeps the read-back property of the others. */
  lemma ReadsBackTail(ws: seq<string>, fs: seq<string>)
    requires ws != [] && ReadsBack(ws, fs)
    ensures ReadsBack(ws[1..], fs[1..])
  {
    forall i, rest | 0 <= i < |ws[1..]| && FieldEnd(rest)
      ensures ReadField(ws[1..][i] + rest) == Some((fs[1..][i], rest))
    {
      assert ws[1..][i] == ws[i + 1] && fs[1..][i] == fs[i + 1];
    }
  }

  /** One instance of the read-back property. */
  lemma ReadsBackAt(ws: seq<string>, fs: seq<string>, i: nat, rest: string)
    requires ReadsBack(ws, fs) && i < |ws| && FieldEnd(rest)
    ensures ReadField(ws[i] + rest) == Some((fs[i], rest))
  {
  }

  /** Regrouping a joined row around its first separator. */
  lemma JoinFront(first: string, others: string, more: string)
    ensures first + [Separator] + others + [Newline] + more == first + ([Separator] + (others + [Newline] + more))
  {
  }

  /** A joined row ended by a line feed is read back field by field. */
  lemma {:induction false} JoinRoundTrip(ws: seq<string>, fs: seq<string>, more: string)
    requires ws != [] && ReadsBack(ws, fs)
    ensures ReadRecord(Join(ws) + [Newline] + more) == Some((fs, more))
    decreases |ws|
  {
    if |ws| == 1 {
      ReadsBackAt(ws, fs, 0, [Newline] + more);
      ReadRecordLast(fs[0], ws[0], more);
      assert fs == [fs[0]];
    } else {
      var tail := Join(ws[1..]) + [Newline] + more;
      ReadsBackTail(ws, fs);
      JoinRoundTrip(ws[1..], fs[1..], more);
      ReadsBackAt(ws, fs, 0, [Separator] + tail);
      ReadRecordStep(fs[0], ws[0], tail, fs[1..], more);
      JoinFront(ws[0], Join(ws[1..]), more);
      assert [fs[0]] + fs[1..] == fs;
    }
  }

  /** The text built by appending `records` one after another. */
  function Concat(records: seq<string>): string
    decreases |records|
  {
    if records == [] then [] else Concat(records[..|records| - 1]) + records[|records| - 1]
  }

  /** Appending one more record to the text. */
  lemma ConcatSnoc(records: seq<string>, record: string)
    ensures Concat(records + [record]) == Concat(records) + record
  {
    assert (records + [record])[..|records|] == records;
  }

  /** The same text read from the front. */
  lemma {:induction false} ConcatFront(records: seq<string>)
    requires records != []
    ensures Concat(records) == records[0] + Concat(records[1..])
    decreases |records|
  {
    if |records| == 1 {
      assert records[..0] == [] && records[1..] == [];
    } else {
      var init := records[..|records| - 1];
      ConcatFront(init);
      assert init[0] == records[0];
      assert init[1..] == records[1..][..|records[1..]| - 1];
      assert records[1..][|records[1..]| - 1] == records[|records| - 1];
    }
  }

  /** Records that each read back as their row are read back, in order, as the rows. */
  lemma {:induction false} ConcatRoundTrip(records: seq<string>, rows: seq<seq<string>>)
    requires |records| == |rows|
    requires forall i, more :: 0 <= i < |records| ==> ReadRecord(records[i] + more) == Some((rows[i], more))
    ensures ReadRecords(Concat(records)) == Some(rows)
    decreases |records|
  {
    if records == [] {
      assert rows == [];
    } else {
      ConcatFront(records);
      var rest := Concat(records[1..]);
      assert ReadRecord(records[0] + rest) == Some((rows[0], rest));
      forall i, more | 0 <= i < |records[1..]|
        ensures ReadRecord(records[1..][i] + more) == Some((rows[1..][i], more))
      {
        assert records[1..][i] == records[i + 1] && rows[1..][i] == rows[i + 1];
      }
      ConcatRoundTrip(records[1..], rows[1..]);
      ReadRecordsStep(records[0], rest, rows[0], rows[1..]);
      assert [rows[0]] + rows[1..] == rows;
    }
  }

  // ---------------------------------------------------------------------
  // Decimal numbers, as `row.join(";")` writes the row number

  function DigitChar(d: nat): (c: char)
    requires d < 10
    ensures '0' <= c <= '9'
  {
    ['0', '1', '2', '3', '4', '5', '6', '7', '8', '9'][d]
  }

  /** The decimal form of `n`, without leading zeros. */
  function Decimal(n: nat): (s: string)
    ensures |s| > 0
    ensures forall i :: 0 <= i < |s| ==> '0' <= s[i] <= '9'
    decreases n
  {
    if n < 10 then [DigitChar(n)] else Decimal(n / 10) + [DigitChar(n % 10)]
  }

  /** The number a string of digits denotes. */
  function DigitsValue(s: string): nat
    requires forall i :: 0 <= i < |s| ==> '0' <= s[i] <= '9'
    decreases |s|
  {
    if s == [] then 0
    else DigitsValue(s[..|s| - 1]) * 10 + ((s[|s| - 1] as int - '0' as int) as nat)
  }

  lemma DigitCharValue(d: nat)
    requires d < 10
    ensures (DigitChar(d) as int - '0' as int) == d
  {
  }

  /** Reading the digits back gives the number. */
  lemma {:induction false} DecimalRoundTrip(n: nat)
    ensures DigitsValue(Decimal(n)) == n
    decreases n
  {
    var s := Decimal(n);
    if n < 10 {
      DigitCharValue(n);
      assert s[..0] == [];
    } else {
      DecimalRoundTrip(n / 10);
      DigitCharValue(n % 10);
      assert s[..|s| - 1] == Decimal(n / 10);
    }
  }

  /** A number is written bare and is read back as itself. */
  lemma DecimalBareSafe(n: nat)
    ensures BareSafe(Decimal(n))
  {
    var s := Decimal(n);
    forall c | c in s ensures c != Separator && c != Newline && c != QuoteChar {
      var i :| 0 <= i < |s| && s[i] == c;
    }
  }
}
