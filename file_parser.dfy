/** `FileParser` (file_parser.py): classify an uploaded file by its
    extension and turn its content into text.

    The bytes themselves are not modelled. A `Content` value holds what the
    libraries make of them: the UTF-8 and CP949 decodings (None when the
    codec raises), the text PyPDF2 extracts from each page, and the sheets
    pandas reads, each with its Markdown table. A reader that raises is a
    `Failure` carrying the exception's text. */
module FileParser {
  import opened Wrappers
  import opened PyText

  /** A column label as pandas reads it from the header row: a string, or
      another Python value (a numeric or date header cell) of the named
      type. */
  datatype Label = TextLabel(text: string) | OtherLabel(typeName: string)

  datatype Sheet = Sheet(name: string, table: string, rows: nat, columns: seq<Label>)

  datatype Content = Content(
    utf8: Option<string>,
    cp949: Option<string>,
    pdfPages: Result<seq<string>, string>,
    sheets: Result<seq<Sheet>, string>)

  /** `(success, text or error message)`, as every parser returns it. */
  type Parsed = (bool, string)

  // ---------------------------------------------------------------------
  // detect_file_type
  // ---------------------------------------------------------------------

  /** The types `parse_file` dispatches on. */
  predicate IsSupported(t: string) {
    t == "txt" || t == "pdf" || t == "excel"
  }

  /** The type of a lower-cased extension. */
  function ExtensionType(ext: string): (t: Option<string>)
    ensures t.Some? ==> IsSupported(t.value)
  {
    if ext == ".pdf" then Some("pdf")
    else if ext == ".txt" then Some("txt")
    else if ext == ".xlsx" || ext == ".xls" || ext == ".xlsm" then Some("excel")
    else None
  }

  /** `detect_file_type`: only the last extension counts, in any case. */
  function DetectFileType(filename: string): (t: Option<string>)
    ensures t.Some? ==> IsSupported(t.value) && SplitExt(filename).1 != []
  {
    ExtensionType(Lower(SplitExt(filename).1))
  }

  /** A name made of a stem and an extension is classified by that
      extension alone, whatever the case of its letters and whatever dots
      the stem holds. */
  lemma DetectOfStem(stem: string, ext: string)
    requires exists k :: 0 <= k < |stem| && stem[k] != '.' && '/' !in stem[k..]
    requires ext != [] && ext[0] == '.' && '.' !in ext[1..] && '/' !in ext[1..]
    ensures DetectFileType(stem + ext) == ExtensionType(Lower(ext))
  {
    SplitExtOfStem(stem, ext);
  }

  /** The case of the whole name does not matter: a name and its
      lower-cased form get the same type. */
  lemma DetectIgnoresCase(filename: string)
    ensures DetectFileType(Lower(filename)) == DetectFileType(filename)
  {
    SplitExtLower(filename);
    LowerIdempotent(SplitExt(filename).1);
  }

  /** An example of all three rules: in "notes.pdf..TXT" only the last
      extension counts, its case does not matter, and the dots before it
      stay in the stem, so the file is text. */
  lemma DetectExample()
    ensures DetectFileType("notes.pdf..TXT") == Some("txt")
  {
    assert "notes.pdf." + ".TXT" == "notes.pdf..TXT";
    assert Lower(".TXT") == ".txt";
    assert "notes.pdf."[8..] == "f.";
    DetectOfStem("notes.pdf.", ".TXT");
  }

  /** A name whose only dot is its first character has no extension, so
      ".pdf" is not classified. */
  lemma DetectHiddenFile()
    ensures DetectFileType(".pdf") == None
  {
    assert SplitExt(".pdf") == (".pdf", "");
  }

  // ---------------------------------------------------------------------
  // _parse_txt
  // ---------------------------------------------------------------------

  const UndecodableMessage := "Unable to decode text file"

  /** `_parse_txt`: UTF-8 first, CP949 only when UTF-8 fails. */
  function ParseTxt(c: Content): (r: Parsed)
    ensures r.0 <==> c.utf8.Some? || c.cp949.Some?
    ensures c.utf8.Some? ==> r.1 == c.utf8.value
    ensures c.utf8.None? && c.cp949.Some? ==> r.1 == c.cp949.value
    ensures !r.0 ==> r.1 == UndecodableMessage
  {
    match c.utf8
    case Some(text) => (true, text)
    case None =>
      match c.cp949
      case Some(text) => (true, text)
      case None => (false, UndecodableMessage)
  }

  // ---------------------------------------------------------------------
  // _parse_pdf
  // ---------------------------------------------------------------------

  const NoTextMessage := "PDF contains no extractable text"

  /** A page has text when it is not all whitespace. */
  predicate HasText(text: string) {
    !AllSpace(text)
  }

  /** `text.strip()` is truthy exactly when the page has text. */
  lemma HasTextIsStripTruthy(text: string)
    ensures HasText(text) <==> Strip(text) != []
  {
  }

  function PageBlock(pageNum: nat, text: string): string {
    "--- Page " + NatToString(pageNum) + " ---\n" + text
  }

  /** The pages with text, each with its number, counting from `first` in
      page order with blank pages included in the numbering. */
  function TextPages(pages: seq<string>, first: nat): (numbered: seq<(nat, string)>)
    ensures |numbered| <= |pages|
  {
    if pages == [] then []
    else (if HasText(pages[0]) then [(first, pages[0])] else []) + TextPages(pages[1..], first + 1)
  }

  function Blocks(numbered: seq<(nat, string)>): (blocks: seq<string>)
    ensures |blocks| == |numbered|
  {
    seq(|numbered|, i requires 0 <= i < |numbered| => PageBlock(numbered[i].0, numbered[i].1))
  }

  /** `_parse_pdf` on the extracted page texts. */
  function PdfOutcome(pages: Result<seq<string>, string>): (r: Parsed) {
    match pages
    case Failure(e) => (false, "PDF parsing failed: " + e)
    case Success(ps) =>
      var blocks := Blocks(TextPages(ps, 1));
      if blocks == [] then (false, NoTextMessage) else (true, Join(blocks, "\n\n"))
  }

  /** The numbered pages are pages with text, under their own number:
      `idx[i]` is the index of the `i`-th one. */
  lemma {:induction false} TextPagesAreNumbered(pages: seq<string>, first: nat) returns (idx: seq<nat>)
    ensures var numbered := TextPages(pages, first);
      && |idx| == |numbered|
      && (forall i :: 0 <= i < |idx| ==>
            idx[i] < |pages| && HasText(pages[idx[i]]) && numbered[i] == (first + idx[i], pages[idx[i]]))
  {
    if pages == [] {
      idx := [];
    } else {
      var tail := pages[1..];
      var rest := TextPagesAreNumbered(tail, first + 1);
      var restNumbered := TextPages(tail, first + 1);
      var head := if HasText(pages[0]) then [(first, pages[0])] else [];
      var numbered := TextPages(pages, first);
      assert numbered == head + restNumbered;
      var shifted := seq(|rest|, i requires 0 <= i < |rest| => rest[i] + 1);
      forall i | 0 <= i < |rest|
        ensures shifted[i] < |pages| && HasText(pages[shifted[i]])
        ensures restNumbered[i] == (first + shifted[i], pages[shifted[i]])
      {
        assert tail[rest[i]] == pages[shifted[i]];
      }
      idx := (if HasText(pages[0]) then [0] else []) + shifted;
      forall i | 0 <= i < |idx|
        ensures idx[i] < |pages| && HasText(pages[idx[i]]) && numbered[i] == (first + idx[i], pages[idx[i]])
      {
        if i >= |head| {
          assert idx[i] == shifted[i - |head|] && numbered[i] == restNumbered[i - |head|];
        }
      }
    }
  }

  /** The numbers lie in `first .. first + |pages| - 1` and strictly
      increase, so the pages keep their order. */
  lemma {:induction false} TextPagesIncreasing(pages: seq<string>, first: nat)
    ensures forall i :: 0 <= i < |TextPages(pages, first)| ==>
      first <= TextPages(pages, first)[i].0 < first + |pages|
    ensures forall i, j :: 0 <= i < j < |TextPages(pages, first)| ==>
      TextPages(pages, first)[i].0 < TextPages(pages, first)[j].0
  {
    if pages != [] {
      TextPagesIncreasing(pages[1..], first + 1);
      var head := if HasText(pages[0]) then [(first, pages[0])] else [];
      var rest := TextPages(pages[1..], first + 1);
      var numbered := TextPages(pages, first);
      assert numbered == head + rest;
      assert forall i :: 0 <= i < |rest| ==> first + 1 <= rest[i].0 < first + |pages|;
      forall i | 0 <= i < |numbered|
        ensures first <= numbered[i].0 < first + |pages|
      {
        if i >= |head| {
          assert numbered[i] == rest[i - |head|];
        } else {
          assert numbered[i] == (first, pages[0]);
        }
      }
      forall i, j | 0 <= i < j < |numbered|
        ensures numbered[i].0 < numbered[j].0
      {
        assert numbered[j] == rest[j - |head|];
        if i >= |head| {
          assert numbered[i] == rest[i - |head|];
        } else {
          assert numbered[i] == (first, pages[0]);
        }
      }
    }
  }

  /** Every page with text is numbered, under its own number. */
  lemma {:induction false} TextPagesComplete(pages: seq<string>, first: nat, k: nat)
    requires k < |pages| && HasText(pages[k])
    ensures (first + k, pages[k]) in TextPages(pages, first)
  {
    var head := if HasText(pages[0]) then [(first, pages[0])] else [];
    assert TextPages(pages, first) == head + TextPages(pages[1..], first + 1);
    if k > 0 {
      assert pages[1..][k - 1] == pages[k];
      TextPagesComplete(pages[1..], first + 1, k - 1);
    }
  }

  /** On success the text is the blocks of the pages with text, in page
      order, each under its 1-based page number. */
  lemma PdfTextIsBlocksOfTextPages(pages: seq<string>) returns (idx: seq<nat>)
    requires PdfOutcome(Success(pages)).0
    ensures |idx| >= 1
    ensures forall i, j :: 0 <= i < j < |idx| ==> idx[i] < idx[j]
    ensures forall i :: 0 <= i < |idx| ==> idx[i] < |pages| && HasText(pages[idx[i]])
    ensures forall k :: 0 <= k < |pages| && HasText(pages[k]) ==> k in idx
    ensures PdfOutcome(Success(pages)).1
         == Join(seq(|idx|, i requires 0 <= i < |idx| => PageBlock(idx[i] + 1, pages[idx[i]])), "\n\n")
  {
    idx := TextPagesAreNumbered(pages, 1);
    var numbered := TextPages(pages, 1);
    TextPagesIncreasing(pages, 1);
    forall k | 0 <= k < |pages| && HasText(pages[k])
      ensures k in idx
    {
      TextPagesComplete(pages, 1, k);
      var i :| 0 <= i < |numbered| && numbered[i] == (1 + k, pages[k]);
      assert idx[i] == k;
    }
    assert Blocks(numbered) == seq(|idx|, i requires 0 <= i < |idx| => PageBlock(idx[i] + 1, pages[idx[i]]));
  }

  /** `_parse_pdf` succeeds exactly when some page has text. */
  lemma PdfSucceedsIffSomePageHasText(pages: seq<string>)
    ensures PdfOutcome(Success(pages)).0 <==> exists k :: 0 <= k < |pages| && HasText(pages[k])
    ensures !PdfOutcome(Success(pages)).0 ==> PdfOutcome(Success(pages)).1 == NoTextMessage
  {
    var idx := TextPagesAreNumbered(pages, 1);
    if TextPages(pages, 1) != [] {
      assert HasText(pages[idx[0]]);
    }
    if exists k :: 0 <= k < |pages| && HasText(pages[k]) {
      var k :| 0 <= k < |pages| && HasText(pages[k]);
      TextPagesComplete(pages, 1, k);
    }
  }

  /** One page of the loop: the blocks from page `i` on are that page's
      block, when it has text, followed by the blocks of the later pages. */
  lemma BlocksStep(ps: seq<string>, i: nat)
    requires i < |ps|
    ensures Blocks(TextPages(ps[i..], i + 1))
         == (if HasText(ps[i]) then [PageBlock(i + 1, ps[i])] else []) + Blocks(TextPages(ps[i + 1..], i + 2))
  {
    assert ps[i..][1..] == ps[i + 1..];
    var head := if HasText(ps[i]) then [(i + 1, ps[i])] else [];
    var rest := TextPages(ps[i + 1..], i + 2);
    assert TextPages(ps[i..], i + 1) == head + rest;
    assert Blocks(head + rest) == Blocks(head) + Blocks(rest);
  }

  /** The loop of `_parse_pdf`, appending one block per page with text. */
  method ParsePdf(pages: Result<seq<string>, string>) returns (r: Parsed)
    ensures r == PdfOutcome(pages)
  {
    if pages.Failure? {
      return (false, "PDF parsing failed: " + pages.error);
    }
    var ps := pages.value;
    var textParts: seq<string> := [];
    for i := 0 to |ps|
      invariant Blocks(TextPages(ps, 1)) == textParts + Blocks(TextPages(ps[i..], i + 1))
    {
      BlocksStep(ps, i);
      if HasText(ps[i]) {
        textParts := textParts + [PageBlock(i + 1, ps[i])];
      }
    }
    assert TextPages(ps[|ps|..], |ps| + 1) == [];
    assert textParts == Blocks(TextPages(ps, 1));
    if textParts == [] {
      return (false, NoTextMessage);
    }
    r := (true, Join(textParts, "\n\n"));
  }

  // ---------------------------------------------------------------------
  // _parse_excel
  // ---------------------------------------------------------------------

  /** The index of the first label that is not a string, if any. */
  function FirstOtherLabel(labels: seq<Label>): (k: Option<nat>)
    ensures k.None? <==> forall i :: 0 <= i < |labels| ==> labels[i].TextLabel?
    ensures k.Some? ==>
      k.value < |labels| && labels[k.value].OtherLabel? && forall i :: 0 <= i < k.value ==> labels[i].TextLabel?
  {
    if labels == [] then None
    else if labels[0].OtherLabel? then Some(0)
    else match FirstOtherLabel(labels[1..])
      case None => None
      case Some(k) => Some(k + 1)
  }

  /** `', '.join(labels)`: the labels joined when every one is a string;
      otherwise the TypeError for the first one that is not. */
  function JoinLabels(labels: seq<Label>): (r: Result<string, string>)
    ensures r.Success? <==> forall i :: 0 <= i < |labels| ==> labels[i].TextLabel?
    ensures r.Success? ==> r.value == Join(seq(|labels|, i requires 0 <= i < |labels| => labels[i].text), ", ")
  {
    match FirstOtherLabel(labels)
    case Some(k) =>
      Failure("sequence item " + NatToString(k) + ": expected str instance, " + labels[k].typeName + " found")
    case None => Success(Join(seq(|labels|, i requires 0 <= i < |labels| => labels[i].text), ", "))
  }

  /** The six parts written for one sheet, or the error the join of its
      column labels raises. */
  function SheetParts(s: Sheet): (r: Result<seq<string>, string>)
    ensures r.Success? <==> JoinLabels(s.columns).Success?
    ensures r.Success? ==> |r.value| == 6
  {
    match JoinLabels(s.columns)
    case Failure(e) => Failure(e)
    case Success(columns) =>
      Success([ "=== Sheet: " + s.name + " ===\n",
                s.table,
                "\n",
                "--- Summary ---",
                "Rows: " + NatToString(s.rows) + ", Columns: " + NatToString(|s.columns|),
                "Columns: " + columns + "\n" ])
  }

  /** `parts` followed by what `rest` holds, or the error `rest` carries. */
  function Then(parts: seq<string>, rest: Result<seq<string>, string>): Result<seq<string>, string> {
    match rest
    case Success(more) => Success(parts + more)
    case Failure(e) => Failure(e)
  }

  /** Appending in two steps is appending once. */
  lemma ThenThen(a: seq<string>, b: seq<string>, rest: Result<seq<string>, string>)
    ensures Then(a, Then(b, rest)) == Then(a + b, rest)
  {
    if rest.Success? {
      assert a + (b + rest.value) == (a + b) + rest.value;
    }
  }

  /** The parts of every sheet in workbook order, or the error of the
      first sheet whose labels do not join. */
  function SheetsParts(sheets: seq<Sheet>): Result<seq<string>, string> {
    if sheets == [] then Success([])
    else match SheetParts(sheets[0])
      case Failure(e) => Failure(e)
      case Success(first) => Then(first, SheetsParts(sheets[1..]))
  }

  /** `_parse_excel` on the sheets pandas reads. */
  function ExcelOutcome(sheets: Result<seq<Sheet>, string>): Parsed {
    match sheets
    case Failure(e) => (false, ExcelFailure(e))
    case Success(ss) =>
      match SheetsParts(ss)
      case Failure(e) => (false, ExcelFailure(e))
      case Success(parts) => (true, Join(parts, "\n"))
  }

  /** The text `_parse_excel` returns for an exception with message `e`. */
  function ExcelFailure(e: string): string {
    "Excel parsing failed: " + e
  }

  /** The sheets are all readable exactly when every column label is a
      string; then sheet `k` fills parts `6k` to `6k + 5`, in workbook
      order. Otherwise the error is that of the first sheet with a label
      that is not a string. */
  lemma {:induction false} SheetsPartsLayout(sheets: seq<Sheet>)
    ensures SheetsParts(sheets).Success? <==> forall k :: 0 <= k < |sheets| ==> SheetParts(sheets[k]).Success?
    ensures SheetsParts(sheets).Success? ==>
      && |SheetsParts(sheets).value| == 6 * |sheets|
      && forall k, j :: 0 <= k < |sheets| && 0 <= j < 6 ==>
           SheetsParts(sheets).value[6 * k + j] == SheetParts(sheets[k]).value[j]
    ensures SheetsParts(sheets).Failure? ==>
      exists k :: 0 <= k < |sheets| && SheetParts(sheets[k]) == Failure(SheetsParts(sheets).error)
             && forall k' :: 0 <= k' < k ==> SheetParts(sheets[k']).Success?
  {
    if sheets != [] {
      var tail := sheets[1..];
      SheetsPartsLayout(tail);
      match SheetParts(sheets[0])
      case Failure(e) =>
        assert SheetParts(sheets[0]) == Failure(SheetsParts(sheets).error);
      case Success(first) =>
        if SheetsParts(tail).Success? {
          var all := SheetsParts(sheets).value;
          assert all == first + SheetsParts(tail).value;
          forall k, j | 0 <= k < |sheets| && 0 <= j < 6
            ensures all[6 * k + j] == SheetParts(sheets[k]).value[j]
          {
            if k > 0 {
              assert sheets[k] == tail[k - 1];
              assert all[6 * k + j] == SheetsParts(tail).value[6 * (k - 1) + j];
            }
          }
          forall k | 0 <= k < |sheets|
            ensures SheetParts(sheets[k]).Success?
          {
            if k > 0 {
              assert sheets[k] == tail[k - 1];
            }
          }
        } else {
          var k :| 0 <= k < |tail| && SheetParts(tail[k]) == Failure(SheetsParts(tail).error)
                   && forall k' :: 0 <= k' < k ==> SheetParts(tail[k']).Success?;
          assert sheets[k + 1] == tail[k];
          forall k' | 0 <= k' < k + 1
            ensures SheetParts(sheets[k']).Success?
          {
            if k' > 0 {
              assert sheets[k'] == tail[k' - 1];
            }
          }
        }
    }
  }

  /** A readable workbook without sheets parses to the empty text. */
  lemma EmptyWorkbook()
    ensures ExcelOutcome(Success([])) == (true, "")
  {
  }

  /** A sheet whose column labels are strings up to label `k`, which is
      not (a numeric or date header cell), makes the whole workbook fail
      with the TypeError of the column join naming item `k`. */
  lemma NonStringLabelFails(s: Sheet, k: nat)
    requires k < |s.columns| && s.columns[k].OtherLabel?
    requires forall i :: 0 <= i < k ==> s.columns[i].TextLabel?
    ensures ExcelOutcome(Success([s])) ==
      (false, ExcelFailure("sequence item " + NatToString(k) + ": expected str instance, "
                           + s.columns[k].typeName + " found"))
  {
  }

  /** The parts from sheet `i` on are that sheet's six parts followed by
      the parts of the later sheets, or the first error among them. */
  lemma SheetsPartsStep(ss: seq<Sheet>, i: nat)
    requires i < |ss|
    ensures SheetsParts(ss[i..]) ==
      match SheetParts(ss[i])
      case Failure(e) => Failure(e)
      case Success(first) => Then(first, SheetsParts(ss[i + 1..]))
  {
    assert ss[i..][1..] == ss[i + 1..];
  }

  /** The body of the sheet loop of `_parse_excel`: six appends, the last
      of which joins the column labels and may raise. */
  method AppendSheet(parts: seq<string>, s: Sheet) returns (r: Result<seq<string>, string>)
    ensures r == Then(parts, SheetParts(s))
  {
    var header := "=== Sheet: " + s.name + " ===\n";
    var textParts := parts + [header];
    textParts := textParts + [s.table];
    textParts := textParts + ["\n"];
    textParts := textParts + ["--- Summary ---"];
    textParts := textParts + ["Rows: " + NatToString(s.rows) + ", Columns: " + NatToString(|s.columns|)];
    var columns := JoinLabels(s.columns);
    if columns.Failure? {
      return Failure(columns.error);
    }
    textParts := textParts + ["Columns: " + columns.value + "\n"];
    assert textParts == parts + SheetParts(s).value;
    r := Success(textParts);
  }

  /** The loop of `_parse_excel`, appending six parts per sheet; an
      exception in the loop ends the parse with its message. */
  method ParseExcel(sheets: Result<seq<Sheet>, string>) returns (r: Parsed)
    ensures r == ExcelOutcome(sheets)
  {
    if sheets.Failure? {
      return (false, ExcelFailure(sheets.error));
    }
    var ss := sheets.value;
    var textParts: seq<string> := [];
    assert ss[0..] == ss;
    if SheetsParts(ss).Success? {
      assert [] + SheetsParts(ss).value == SheetsParts(ss).value;
    }
    for i := 0 to |ss|
      invariant SheetsParts(ss) == Then(textParts, SheetsParts(ss[i..]))
    {
      SheetsPartsStep(ss, i);
      if SheetParts(ss[i]).Success? {
        ThenThen(textParts, SheetParts(ss[i]).value, SheetsParts(ss[i + 1..]));
      }
      var step := AppendSheet(textParts, ss[i]);
      if step.Failure? {
        assert SheetsParts(ss) == Failure(step.error);
        return (false, ExcelFailure(step.error));
      }
      textParts := step.value;
    }
    assert ss[|ss|..] == [];
    assert textParts + [] == textParts;
    r := (true, Join(textParts, "\n"));
  }

  // ---------------------------------------------------------------------
  // parse_file
  // ---------------------------------------------------------------------

  function UnsupportedMessage(t: string): string {
    "Unsupported file type: " + t
  }

  /** `parse_file`: dispatch on the type string. */
  function ParseFileOutcome(c: Content, fileType: string): (r: Parsed)
    ensures !IsSupported(fileType) ==> r == (false, UnsupportedMessage(fileType))
    ensures fileType == "txt" ==> r == ParseTxt(c)
    ensures fileType == "pdf" ==> r == PdfOutcome(c.pdfPages)
    ensures fileType == "excel" ==> r == ExcelOutcome(c.sheets)
  {
    if fileType == "txt" then ParseTxt(c)
    else if fileType == "pdf" then PdfOutcome(c.pdfPages)
    else if fileType == "excel" then ExcelOutcome(c.sheets)
    else (false, UnsupportedMessage(fileType))
  }

  /** A supported type never gets the unsupported-type answer. */
  lemma SupportedNeverUnsupported(c: Content, fileType: string)
    requires IsSupported(fileType)
    ensures ParseFileOutcome(c, fileType) != (false, UnsupportedMessage(fileType))
  {
    var r := ParseFileOutcome(c, fileType);
    var u := UnsupportedMessage(fileType);
    if !r.0 {
      if fileType == "txt" {
        assert r.1[2] != u[2];
      } else if fileType == "pdf" {
        assert r.1[0] != u[0];
      } else {
        assert r.1[0] != u[0];
      }
    }
  }

  /** Every file `detect_file_type` classifies reaches one of the parsers. */
  lemma DetectedFilesAreParsed(c: Content, filename: string)
    requires DetectFileType(filename).Some?
    ensures ParseFileOutcome(c, DetectFileType(filename).value)
         != (false, UnsupportedMessage(DetectFileType(filename).value))
  {
    SupportedNeverUnsupported(c, DetectFileType(filename).value);
  }

  /** `parse_file`. */
  method ParseFile(c: Content, fileType: string) returns (r: Parsed)
    ensures r == ParseFileOutcome(c, fileType)
  {
    if fileType == "txt" {
      r := ParseTxt(c);
    } else if fileType == "pdf" {
      r := ParsePdf(c.pdfPages);
    } else if fileType == "excel" {
      r := ParseExcel(c.sheets);
    } else {
      r := (false, UnsupportedMessage(fileType));
    }
  }
}
