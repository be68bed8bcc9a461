// The page-range dialog shown for a PDF: its two text fields start at "1"
// and min(3, totalPages), and confirming either reports an error or hands
// a range of at most three pages on.

module PdfPageModal {

  import opened Types
  import opened JsText

  const INVALID_RANGE: string := "محدوده صفحات نامعتبر است."
  const RANGE_TOO_LONG: string := "محدوده انتخابی نمی\U{200C}تواند بیشتر از ۳ صفحه باشد."

  /** The most pages one extraction may cover. */
  const MAX_PAGES: int := 3

  /** The contents of the start and end fields, as typed. */
  datatype Fields = Fields(startPage: string, endPage: string)

  /** What `handleProcess` calls: `onError(message)` or `onProcess(start, end)`. */
  datatype Action = OnError(message: string) | OnProcess(start: int, end: int)

  function Min(a: int, b: int): int
  {
    if a <= b then a else b
  }

  /** The initial field values: "1" and `Math.min(3, totalPages).toString()`. */
  function InitialFields(totalPages: nat): (f: Fields)
    ensures ParseInt(f.startPage) == Some(1)
    ensures ParseInt(f.endPage) == Some(Min(MAX_PAGES, totalPages))
  {
    DecimalStringParses(1);
    DecimalStringParses(Min(MAX_PAGES, totalPages));
    Fields(DecimalString(1), DecimalString(Min(MAX_PAGES, totalPages)))
  }

  /** Both fields parse and give pages 1 <= start <= end <= totalPages. */
  predicate InBounds(start: Option<int>, end: Option<int>, totalPages: int)
  {
    start.Some? && end.Some? && 1 <= start.value && end.value <= totalPages && start.value <= end.value
  }

  /** `handleProcess`: the bounds check first, then the length check, then `onProcess`. */
  function HandleProcess(fields: Fields, totalPages: nat): (r: Action)
    ensures r.OnProcess? <==>
      var s, e := ParseInt(fields.startPage), ParseInt(fields.endPage);
      s.Some? && e.Some? && 1 <= s.value <= e.value <= totalPages && e.value - s.value + 1 <= MAX_PAGES
    ensures r.OnProcess? ==> Some(r.start) == ParseInt(fields.startPage) && Some(r.end) == ParseInt(fields.endPage)
    ensures r.OnError? ==> r.message == INVALID_RANGE || r.message == RANGE_TOO_LONG
    ensures r == OnError(INVALID_RANGE) <==> !InBounds(ParseInt(fields.startPage), ParseInt(fields.endPage), totalPages)
  {
    var start := ParseInt(fields.startPage);
    var end := ParseInt(fields.endPage);
    if !InBounds(start, end, totalPages) then OnError(INVALID_RANGE)
    else if end.value - start.value + 1 > MAX_PAGES then OnError(RANGE_TOO_LONG)
    else OnProcess(start.value, end.value)
  }

  /** An accepted range lies inside the document and spans one to three pages. */
  lemma AcceptedRangeFits(fields: Fields, totalPages: nat)
    requires HandleProcess(fields, totalPages).OnProcess?
    ensures var a := HandleProcess(fields, totalPages);
      1 <= a.start <= a.end <= totalPages && 1 <= a.end - a.start + 1 <= MAX_PAGES
  {
  }

  /** A range that is out of bounds and too long is reported as out of bounds only. */
  lemma BoundsCheckedFirst(fields: Fields, totalPages: nat)
    requires var s, e := ParseInt(fields.startPage), ParseInt(fields.endPage);
      s.Some? && e.Some? && e.value > totalPages && e.value - s.value + 1 > MAX_PAGES
    ensures HandleProcess(fields, totalPages) == OnError(INVALID_RANGE)
  {
  }

  /** A field that is not a number (empty, or only a sign) is an invalid range. */
  lemma UnparsableRejected(fields: Fields, totalPages: nat)
    requires ParseInt(fields.startPage).None? || ParseInt(fields.endPage).None?
    ensures HandleProcess(fields, totalPages) == OnError(INVALID_RANGE)
  {
  }

  /** For a document with pages, confirming the untouched fields processes pages 1 to min(3, totalPages). */
  lemma DefaultRangeAccepted(totalPages: nat)
    requires totalPages >= 1
    ensures HandleProcess(InitialFields(totalPages), totalPages) == OnProcess(1, Min(MAX_PAGES, totalPages))
  {
  }
}
