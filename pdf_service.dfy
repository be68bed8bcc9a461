// Text extraction from a range of PDF pages. Reading the file and pdf.js are
// outside the model: their outcome is an input, with the document as its
// pages, each page the list of its text items' strings.

module PdfService {

  import opened Types
  import opened JsText

  const READ_ERROR: string := "Error reading file."
  const NO_RESULT_ERROR: string := "Failed to read PDF file."
  const INVALID_RANGE: string := "محدوده صفحات نامعتبر است."
  const PROCESSING_ERROR: string := "خطا در پردازش صفحات PDF."

  /** A document as pdf.js exposes it: page i (from 1) is `pages[i - 1]`, the strings of its text items. */
  datatype PdfDocument = PdfDocument(pages: seq<seq<string>>)

  /**
   * How reading the file went: the reader failed, it loaded nothing, or it
   * loaded bytes that pdf.js opened as a document (`None` when it could not).
   */
  datatype FileRead = ReaderError | EmptyResult | Loaded(document: Option<PdfDocument>)

  /** `textContent.items.map(item => item.str).join(' ')`. */
  function PageText(items: seq<string>): string
  {
    Join(items, " ")
  }

  /** The pages a call asks for exist: 1 <= start <= end <= numPages. */
  predicate ValidRange(doc: PdfDocument, startPage: int, endPage: int)
  {
    1 <= startPage && endPage <= |doc.pages| && startPage <= endPage
  }

  /** The texts of pages startPage..endPage, in page order. */
  function PageTexts(doc: PdfDocument, startPage: int, endPage: int): (r: seq<string>)
    requires ValidRange(doc, startPage, endPage)
    ensures |r| == endPage - startPage + 1
    ensures forall j :: 0 <= j < |r| ==> r[j] == PageText(doc.pages[startPage - 1 + j])
  {
    seq(endPage - startPage + 1, j requires 0 <= j < endPage - startPage + 1 =>
      PageText(doc.pages[startPage - 1 + j]))
  }

  /** What `extractTextFromPdf` settles with. */
  function Extraction(file: FileRead, startPage: int, endPage: int): (r: Result<string>)
    ensures file.ReaderError? ==> r == Err(READ_ERROR)
    ensures file.EmptyResult? ==> r == Err(NO_RESULT_ERROR)
    ensures file.Loaded? && file.document.None? ==> r == Err(PROCESSING_ERROR)
    ensures file.Loaded? && file.document.Some? && !ValidRange(file.document.value, startPage, endPage) ==>
      r == Err(INVALID_RANGE)
    ensures r.Ok? <==> file.Loaded? && file.document.Some? && ValidRange(file.document.value, startPage, endPage)
  {
    match file
    case ReaderError => Err(READ_ERROR)
    case EmptyResult => Err(NO_RESULT_ERROR)
    case Loaded(None) => Err(PROCESSING_ERROR)
    case Loaded(Some(doc)) =>
      if !ValidRange(doc, startPage, endPage) then Err(INVALID_RANGE)
      else Ok(Join(PageTexts(doc, startPage, endPage), "\n\n"))
  }

  /**
   * `extractTextFromPdf`: after the range check, a loop over the pages from
   * startPage to endPage pushes each page's text, and the texts are joined
   * by a blank line. `visited` lists the pages read, in order.
   */
  method ExtractTextFromPdf(file: FileRead, startPage: int, endPage: int)
    returns (r: Result<string>, ghost visited: seq<int>)
    ensures r == Extraction(file, startPage, endPage)
    ensures r.Ok? ==> |visited| == endPage - startPage + 1
                      && forall j :: 0 <= j < |visited| ==> visited[j] == startPage + j
    ensures r.Err? ==> visited == []
  {
    visited := [];
    match file {
      case ReaderError => r := Err(READ_ERROR);
      case EmptyResult => r := Err(NO_RESULT_ERROR);
      case Loaded(None) => r := Err(PROCESSING_ERROR);
      case Loaded(Some(pdf)) =>
        if startPage < 1 || endPage > |pdf.pages| || startPage > endPage {
          r := Err(INVALID_RANGE);
          return;
        }
        var texts: seq<string> := [];
        var i := startPage;
        while i <= endPage
          invariant startPage <= i <= endPage + 1
          invariant |texts| == i - startPage && |visited| == i - startPage
          invariant forall j :: 0 <= j < |texts| ==> texts[j] == PageText(pdf.pages[startPage - 1 + j])
          invariant forall j :: 0 <= j < |visited| ==> visited[j] == startPage + j
          decreases endPage - i
        {
          var pageText := PageText(pdf.pages[i - 1]);
          texts := texts + [pageText];
          visited := visited + [i];
          i := i + 1;
        }
        assert texts == PageTexts(pdf, startPage, endPage);
        r := Ok(Join(texts, "\n\n"));
    }
  }

  /**
   * The extracted text is the page texts separated by blank lines: for a
   * single page it is that page's items joined by spaces, and each further
   * page adds a blank line and its text.
   */
  lemma ExtractionJoinsPages(doc: PdfDocument, startPage: int, endPage: int)
    requires ValidRange(doc, startPage, endPage)
    ensures startPage == endPage ==>
      Extraction(Loaded(Some(doc)), startPage, endPage) == Ok(PageText(doc.pages[startPage - 1]))
    ensures startPage < endPage ==>
      Extraction(Loaded(Some(doc)), startPage, endPage)
        == Ok(Extraction(Loaded(Some(doc)), startPage, endPage - 1).value + "\n\n" + PageText(doc.pages[endPage - 1]))
  {
    if startPage < endPage {
      var texts := PageTexts(doc, startPage, endPage);
      assert texts == PageTexts(doc, startPage, endPage - 1) + [PageText(doc.pages[endPage - 1])];
      JoinSnoc(PageTexts(doc, startPage, endPage - 1), PageText(doc.pages[endPage - 1]), "\n\n");
    }
  }

  /** Unlike the page dialog, the extractor accepts any number of pages inside the document. */
  lemma NoLengthLimit(doc: PdfDocument)
    requires |doc.pages| >= 4
    ensures Extraction(Loaded(Some(doc)), 1, 4).Ok?
  {
  }
}
