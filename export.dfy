/**
 * The export rules of the editor (App.tsx): file names, the spreadsheet
 * (CSV) text, and the PDF assembly loop over a page builder.
 */
module Export {
  import opened Wrappers
  import opened Types
  import opened Csv
  import opened Preview

  // ---------------------------------------------------------------------
  // File names

  /** `data.nomDepartement || 'AD'`. */
  function Stem(department: string): (s: string)
    ensures s != ""
    ensures department != "" ==> s == department
    ensures department == "" ==> s == "AD"
  {
    if department != "" then department else "AD"
  }

  /** `Rapport_<stem>_<annee>`, shared by the PDF and the JSON file. */
  function ReportBase(r: Report): string
  {
    "Rapport_" + Stem(r.nomDepartement) + "_" + r.annee
  }

  /** The PDF file name (`handleExportPDF`). */
  function PdfName(r: Report): (n: string)
    ensures |n| > 4 && n[|n| - 4..] == ".pdf"
  {
    ReportBase(r) + ".pdf"
  }

  /** The JSON file name (`handleExportJSON`). */
  function JsonName(r: Report): (n: string)
    ensures |n| > 5 && n[|n| - 5..] == ".json"
  {
    ReportBase(r) + ".json"
  }

  /** The spreadsheet file name (`handleExportExcel`). */
  function CsvName(r: Report): (n: string)
    ensures |n| > 4 && n[|n| - 4..] == ".csv"
  {
    "Suivi_PTA_" + Stem(r.nomDepartement) + ".csv"
  }

  /** The Word file name (`handleExportWord`). */
  function WordName(r: Report): (n: string)
    ensures |n| > 4 && n[|n| - 4..] == ".doc"
  {
    "Rapport_" + Stem(r.nomDepartement) + ".doc"
  }

  /**
   * Every name carries the stem at a fixed position after its prefix, then its
   * own suffix; the PDF and JSON names also carry the year.
   */
  lemma FileNameLayout(r: Report)
    ensures var stem, n := Stem(r.nomDepartement), |Stem(r.nomDepartement)|;
      && PdfName(r)[..8] == "Rapport_" && PdfName(r)[8..8 + n] == stem
      && PdfName(r)[8 + n..] == "_" + r.annee + ".pdf"
      && JsonName(r)[..8] == "Rapport_" && JsonName(r)[8..8 + n] == stem
      && JsonName(r)[8 + n..] == "_" + r.annee + ".json"
      && CsvName(r)[..10] == "Suivi_PTA_" && CsvName(r)[10..10 + n] == stem
      && CsvName(r)[10 + n..] == ".csv"
      && WordName(r)[..8] == "Rapport_" && WordName(r)[8..8 + n] == stem
      && WordName(r)[8 + n..] == ".doc"
  {
  }

  /** The names depend on the department and the year only. */
  lemma FileNamesDependOnDepartmentAndYear(a: Report, b: Report)
    requires a.nomDepartement == b.nomDepartement && a.annee == b.annee
    ensures PdfName(a) == PdfName(b) && JsonName(a) == JsonName(b)
    ensures CsvName(a) == CsvName(b) && WordName(a) == WordName(b)
  {
  }

  // ---------------------------------------------------------------------
  // Spreadsheet export

  const Bom: char := '\U{FEFF}'

  const CsvHeaderFields: seq<string> := [
    "N°", "Objectifs / Activites prevues", "Realisations", "Resultats obtenus",
    "Indicateurs de performance", "Observations / Difficultes"]

  /** The header line: the column names joined by `;`, ended by a line feed. */
  const CsvHeaderLine: string := Join(CsvHeaderFields) + [Newline]

  /** The six cells of the row for activity `a` at row number `n`: the number bare, the texts quoted. */
  function WrittenFields(n: nat, a: Activity): (ws: seq<string>)
    ensures |ws| == 6
  {
    [Decimal(n), QuoteField(a.objectifs), QuoteField(a.realisations), QuoteField(a.resultats),
     QuoteField(a.indicateurs), QuoteField(a.observations)]
  }

  /** The record of activity `a` at row number `n`. */
  function CsvRecord(n: nat, a: Activity): (rec: string)
    ensures |rec| > 0 && rec[|rec| - 1] == Newline
  {
    Join(WrittenFields(n, a)) + [Newline]
  }

  /** The six values a reader should get back from that record. */
  function RecordFields(n: nat, a: Activity): (fs: seq<string>)
    ensures |fs| == 6
  {
    [Decimal(n), a.objectifs, a.realisations, a.resultats, a.indicateurs, a.observations]
  }

  /** The records of `acts`, numbered from 1, in list order. */
  function Records(acts: seq<Activity>): (rs: seq<string>)
    ensures |rs| == |acts|
    decreases |acts|
  {
    if acts == [] then [] else Records(acts[..|acts| - 1]) + [CsvRecord(|acts|, acts[|acts| - 1])]
  }

  /** Record `i` is the record of activity `i`, numbered `i + 1`. */
  lemma {:induction false} RecordAt(acts: seq<Activity>, i: nat)
    requires i < |acts|
    ensures Records(acts)[i] == CsvRecord(i + 1, acts[i])
    decreases |acts|
  {
    var n := |acts| - 1;
    var init, last := Records(acts[..n]), CsvRecord(n + 1, acts[n]);
    assert Records(acts) == init + [last];
    if i < n {
      RecordAt(acts[..n], i);
      assert (init + [last])[i] == init[i];
      assert acts[..n][i] == acts[i];
    } else {
      assert (init + [last])[i] == last;
    }
  }

  /** The whole file: byte-order mark, header line, one record per activity. */
  function CsvText(acts: seq<Activity>): string
  {
    [Bom] + CsvHeaderLine + Concat(Records(acts))
  }

  /** The `forEach` of `handleExportExcel`: the records of every activity, appended in list order. */
  method CsvRows(acts: seq<Activity>) returns (rows: string)
    ensures rows == Concat(Records(acts))
  {
    rows := [];
    for i := 0 to |acts|
      invariant rows == Concat(Records(acts[..i]))
    {
      var row := CsvRecord(i + 1, acts[i]);
      assert acts[..i + 1][..i] == acts[..i];
      assert Records(acts[..i + 1]) == Records(acts[..i]) + [row];
      ConcatSnoc(Records(acts[..i]), row);
      rows := rows + row;
    }
    assert acts[..|acts|] == acts;
  }

  /** `handleExportExcel`: the byte-order mark, the header line, then the records. */
  method ExportCsv(r: Report) returns (csv: string, filename: string)
    ensures csv == CsvText(r.activites)
    ensures filename == CsvName(r)
  {
    csv := [Bom];
    csv := csv + CsvHeaderLine;
    var rows := CsvRows(r.activites);
    csv := csv + rows;
    filename := CsvName(r);
  }

  /** The file opens with the byte-order mark and then the fixed header line. */
  lemma CsvStartsWithHeader(acts: seq<Activity>)
    ensures CsvText(acts)[0] == Bom
    ensures CsvText(acts)[1..1 + |CsvHeaderLine|] == CsvHeaderLine
  {
  }

  /** A record is read back as its number and the five original texts. */
  lemma RecordRoundTrip(n: nat, a: Activity, more: string)
    ensures ReadRecord(CsvRecord(n, a) + more) == Some((RecordFields(n, a), more))
  {
    var ws, fs := WrittenFields(n, a), RecordFields(n, a);
    forall i, rest | 0 <= i < 6 && FieldEnd(rest) ensures ReadField(ws[i] + rest) == Some((fs[i], rest)) {
      if i == 0 {
        DecimalBareSafe(n);
        BareFieldRoundTrip(Decimal(n), rest);
      } else {
        assert ws[i] == QuoteField(fs[i]);
        QuotedFieldRoundTrip(fs[i], rest);
      }
    }
    JoinRoundTrip(ws, fs, more);
  }

  /** The fields a reader gets from the records of `acts`. */
  function BodyFields(acts: seq<Activity>): (rows: seq<seq<string>>)
    ensures |rows| == |acts|
  {
    seq(|acts|, i requires 0 <= i < |acts| => RecordFields(i + 1, acts[i]))
  }

  /** Row `i` of the reader's target is activity `i`'s values, numbered `i + 1`. */
  lemma BodyFieldsAt(acts: seq<Activity>, i: nat)
    requires i < |acts|
    ensures BodyFields(acts)[i] == RecordFields(i + 1, acts[i])
  {
  }

  lemma RecordReadsBack(acts: seq<Activity>, i: nat, more: string)
    requires i < |acts|
    ensures ReadRecord(Records(acts)[i] + more) == Some((BodyFields(acts)[i], more))
  {
    RecordAt(acts, i);
    BodyFieldsAt(acts, i);
    RecordRoundTrip(i + 1, acts[i], more);
  }

  /** The records are read back one per activity, in order, each numbered by its position. */
  lemma BodyRoundTrip(acts: seq<Activity>)
    ensures ReadRecords(Concat(Records(acts))) == Some(BodyFields(acts))
  {
    forall i, more | 0 <= i < |acts|
      ensures ReadRecord(Records(acts)[i] + more) == Some((BodyFields(acts)[i], more))
    {
      RecordReadsBack(acts, i, more);
    }
    ConcatRoundTrip(Records(acts), BodyFields(acts));
  }

  /** No column name holds a separator, line feed or quote, so the header needs no quoting. */
  lemma HeaderCellsBareSafe(i: nat)
    requires i < |CsvHeaderFields|
    ensures BareSafe(CsvHeaderFields[i])
  {
    if i == 0 { Column0Safe(); }
    else if i == 1 { Column1Safe(); }
    else if i == 2 { Column2Safe(); }
    else if i == 3 { Column3Safe(); }
    else if i == 4 { Column4Safe(); }
    else { Column5Safe(); }
  }

  lemma Column0Safe() ensures BareSafe("N°") { }
  lemma Column1Safe() ensures BareSafe("Objectifs / Activites prevues") { }
  lemma Column2Safe() ensures BareSafe("Realisations") { }
  lemma Column3Safe() ensures BareSafe("Resultats obtenus") { }
  lemma Column4Safe() ensures BareSafe("Indicateurs de performance") { }
  lemma Column5Safe() ensures BareSafe("Observations / Difficultes") { }

  /** The header line is read back as the six fixed column names. */
  lemma HeaderRoundTrip(more: string)
    ensures ReadRecord(CsvHeaderLine + more) == Some((CsvHeaderFields, more))
  {
    var h := CsvHeaderFields;
    forall i, rest | 0 <= i < |h| && FieldEnd(rest) ensures ReadField(h[i] + rest) == Some((h[i], rest)) {
      HeaderCellsBareSafe(i);
      BareFieldRoundTrip(h[i], rest);
    }
    JoinRoundTrip(h, h, more);
  }

  /** A spreadsheet reader: drop the byte-order mark, then read records to the end. */
  function ReadExport(t: string): Option<seq<seq<string>>>
  {
    if t != [] && t[0] == Bom then ReadRecords(t[1..]) else None
  }

  /** A reader skips the byte-order mark and reads the rest as records. */
  lemma ReadExportSkipsBom(header: string, body: string)
    ensures ReadExport([Bom] + header + body) == ReadRecords(header + body)
  {
    var t := [Bom] + header + body;
    assert t[1..] == header + body;
  }

  /**
   * Reading the exported file gives the header and then, for each activity in
   * list order, its row number `i + 1` and its five texts exactly as typed.
   */
  lemma CsvRoundTrip(acts: seq<Activity>)
    ensures ReadExport(CsvText(acts)) == Some([CsvHeaderFields] + BodyFields(acts))
  {
    var body := Concat(Records(acts));
    HeaderRoundTrip(body);
    BodyRoundTrip(acts);
    ReadRecordsStep(CsvHeaderLine, body, CsvHeaderFields, BodyFields(acts));
    ReadExportSkipsBom(CsvHeaderLine, body);
  }

  /** The spreadsheet's record `i` and the preview's table row `i` show the same number and activity. */
  lemma CsvMatchesTable(acts: seq<Activity>, i: nat)
    requires i < |acts|
    ensures BodyFields(acts)[i][0] == Decimal(TableRows(acts)[i].number)
    ensures BodyFields(acts)[i][1..] ==
      [TableRows(acts)[i].activity.objectifs, TableRows(acts)[i].activity.realisations,
       TableRows(acts)[i].activity.resultats, TableRows(acts)[i].activity.indicateurs,
       TableRows(acts)[i].activity.observations]
  {
  }

  // ---------------------------------------------------------------------
  // PDF export

  /** A portrait A4 sheet in millimetres and the fixed margin on every side. */
  const PageWidth: int := 210
  const PageHeight: int := 297
  const Margin: int := 10
  const TargetWidth: int := PageWidth - 2 * Margin
  const TargetHeight: int := PageHeight - 2 * Margin


  /** What capturing one page region gave: the image as a data URL, or a failure. */
  datatype Capture = Captured(image: string) | CaptureFailed

  /** One image drawn on a page, with its position and size. */
  datatype Placement = Placement(image: string, x: int, y: int, width: int, height: int)

  /** The calls made on the builder, in order. */
  datatype BuilderCall = AddPageCall | AddImageCall

  /** The PDF document under construction: its pages and the calls made so far. */
  class PdfBuilder {
    var pages: seq<seq<Placement>>
    var calls: seq<BuilderCall>

    /** A new document has one blank page. */
    constructor ()
      ensures pages == [[]] && calls == []
    {
      pages := [[]];
      calls := [];
    }

    method AddPage()
      modifies this
      ensures pages == old(pages) + [[]]
      ensures calls == old(calls) + [AddPageCall]
    {
      pages := pages + [[]];
      calls := calls + [AddPageCall];
    }

    /** Draws on the current (last) page. */
    method AddImage(image: string, x: int, y: int, width: int, height: int)
      requires pages != []
      modifies this
      ensures |pages| == |old(pages)|
      ensures pages[..|pages| - 1] == old(pages)[..|pages| - 1]
      ensures pages[|pages| - 1] == old(pages)[|pages| - 1] + [Placement(image, x, y, width, height)]
      ensures calls == old(calls) + [AddImageCall]
    {
      var last := |pages| - 1;
      pages := pages[last := pages[last] + [Placement(image, x, y, width, height)]];
      calls := calls + [AddImageCall];
    }
  }

  datatype PdfOutcome =
    | NoPagesFound
    | ExportFailed
    | Saved(filename: string, pages: seq<seq<Placement>>, calls: seq<BuilderCall>)

  /** The calls for `n` regions: an image for each, with a new page before every image but the first. */
  function CallsFor(n: nat): (c: seq<BuilderCall>)
    ensures n > 0 ==> |c| == 2 * n - 1
    ensures n == 0 ==> c == []
  {
    if n == 0 then [] else CallsFor(n - 1) + (if n > 1 then [AddPageCall] else []) + [AddImageCall]
  }

  /** The calls for `n` regions alternate: images at even positions, new pages at odd ones. */
  lemma {:induction false} CallsAlternate(n: nat, k: nat)
    requires n > 0 && k < 2 * n - 1
    ensures CallsFor(n)[k] == if k % 2 == 0 then AddImageCall else AddPageCall
    decreases n
  {
    if k < 2 * (n - 1) - 1 {
      CallsAlternate(n - 1, k);
    }
  }

  /** The page holding the image of region `i`. */
  function PlacedPage(shot: Capture): seq<Placement>
    requires shot.Captured?
  {
    [Placement(shot.image, Margin, Margin, TargetWidth, TargetHeight)]
  }

  /**
   * What the PDF export should produce for the page regions and their captures:
   * nothing without regions, nothing if any capture fails, and otherwise one
   * page per region, in region order, each holding that region's image.
   */
  function PdfSpec(regions: seq<Page>, shots: seq<Capture>, r: Report): (o: PdfOutcome)
    requires |shots| == |regions|
    ensures o.NoPagesFound? <==> |regions| == 0
    ensures o.ExportFailed? <==> |regions| > 0 && exists i :: 0 <= i < |shots| && shots[i].CaptureFailed?
    ensures o.Saved? ==> o.filename == PdfName(r) && |o.pages| == |regions| && o.calls == CallsFor(|regions|)
  {
    if |regions| == 0 then NoPagesFound
    else if exists i :: 0 <= i < |shots| && shots[i].CaptureFailed? then ExportFailed
    else Saved(PdfName(r),
               seq(|regions|, i requires 0 <= i < |regions| && shots[i].Captured? => PlacedPage(shots[i])),
               CallsFor(|regions|))
  }

  /**
   * `handleExportPDF`: captures the regions one at a time and hands each image
   * to one shared builder, opening a new page before every image but the
   * first. `shots[i]` is what capturing `regions[i]` gives.
   */
  method ExportPdf(regions: seq<Page>, shots: seq<Capture>, r: Report) returns (res: PdfOutcome)
    requires |shots| == |regions|
    ensures res == PdfSpec(regions, shots, r)
  {
    if |regions| == 0 {
      return NoPagesFound;
    }
    var pdf := new PdfBuilder();
    var i := 0;
    while i < |regions|
      invariant 0 <= i <= |regions|
      invariant forall k :: 0 <= k < i ==> shots[k].Captured?
      invariant i == 0 ==> pdf.pages == [[]]
      invariant i > 0 ==> |pdf.pages| == i
      invariant i > 0 ==> forall k :: 0 <= k < i ==> pdf.pages[k] == PlacedPage(shots[k])
      invariant pdf.calls == CallsFor(i)
    {
      var shot := shots[i];
      if shot.CaptureFailed? {
        return ExportFailed;
      }
      if i > 0 {
        pdf.AddPage();
      }
      pdf.AddImage(shot.image, Margin, Margin, TargetWidth, TargetHeight);
      i := i + 1;
    }
    res := Saved(PdfName(r), pdf.pages, pdf.calls);
  }

  /** A saved PDF has one page per region, in region order, each image filling the drawable area. */
  lemma PdfPages(regions: seq<Page>, shots: seq<Capture>, r: Report, i: nat)
    requires |shots| == |regions|
    requires PdfSpec(regions, shots, r).Saved?
    requires i < |regions|
    ensures |PdfSpec(regions, shots, r).pages| == |regions|
    ensures shots[i].Captured?
    ensures PdfSpec(regions, shots, r).pages[i] == [Placement(shots[i].image, 10, 10, 190, 277)]
    ensures PdfSpec(regions, shots, r).filename == PdfName(r)
  {
  }

  /**
   * Every image of a saved PDF sits at the margin in both directions and
   * fills the A4 page (210 × 297 mm) less a 10 mm margin on every side.
   */
  lemma SavedImagesFillPage(regions: seq<Page>, shots: seq<Capture>, r: Report)
    requires |shots| == |regions|
    requires PdfSpec(regions, shots, r).Saved?
    ensures Margin == 10 && PageWidth == 210 && PageHeight == 297
    ensures var pages := PdfSpec(regions, shots, r).pages;
      forall i: int, p: Placement :: 0 <= i < |pages| && p in pages[i] ==>
        && p.x == Margin && p.y == Margin
        && p.x + p.width + Margin == PageWidth
        && p.y + p.height + Margin == PageHeight
  {
    var pages := PdfSpec(regions, shots, r).pages;
    forall i: int, p: Placement | 0 <= i < |pages| && p in pages[i]
      ensures p.x == Margin && p.y == Margin
      ensures p.x + p.width + Margin == PageWidth && p.y + p.height + Margin == PageHeight
    {
      PdfPages(regions, shots, r, i);
    }
  }

  /** One failed capture anywhere means nothing is saved. */
  lemma PdfFailure(regions: seq<Page>, shots: seq<Capture>, r: Report, i: nat)
    requires |shots| == |regions| && i < |shots| && shots[i].CaptureFailed?
    ensures PdfSpec(regions, shots, r) == ExportFailed
  {
  }

  /** Exporting the preview with every capture succeeding gives a three-page document. */
  lemma PreviewPdfHasThreePages(r: Report, shots: seq<Capture>)
    requires |shots| == 3 && forall k :: 0 <= k < 3 ==> shots[k].Captured?
    ensures PdfSpec(Render(r), shots, r).Saved?
    ensures |PdfSpec(Render(r), shots, r).pages| == 3
    ensures PdfSpec(Render(r), shots, r).calls == [AddImageCall, AddPageCall, AddImageCall, AddPageCall, AddImageCall]
  {
    assert CallsFor(1) == [AddImageCall];
    assert CallsFor(2) == [AddImageCall, AddPageCall, AddImageCall];
  }
}
