// The input screen: choosing a file (images and PDFs only), the process
// button that dispatches by file type or opens the PDF page dialog, the
// text box with its blank check, and the dialog's confirmation.

module InputArea {

  import opened Types
  import opened JsText
  import PdfPageModal

  const UNSUPPORTED_FILE: string := "فرمت فایل پشتیبانی نمی\U{200C}شود. لطفاً یک فایل تصویر یا PDF انتخاب کنید."
  const NO_FILE: string := "لطفا یک فایل را انتخاب کنید."
  const PDF_LOAD_ERROR: string := "خطا در بارگذاری فایل PDF."
  const NO_TEXT: string := "لطفا متنی را برای تحلیل وارد کنید."

  const PDF_TYPE: string := "application/pdf"

  /** A chosen file: its name and its MIME type. */
  datatype FileInfo = FileInfo(name: string, mimeType: string)

  /** The file and page count kept while the page dialog is open. */
  datatype PdfInfo = PdfInfo(file: FileInfo, totalPages: nat)

  /** The callbacks the screen calls, in the order it calls them. */
  datatype Event =
    | OnError(message: string)
    | ProcessImage(file: FileInfo)
    | ProcessPdf(file: FileInfo, startPage: int, endPage: int)
    | ProcessText(text: string)

  predicate IsImage(mimeType: string)
  {
    StartsWith(mimeType, "image/")
  }

  /** A file is kept exactly when its type starts with "image/" or is "application/pdf". */
  predicate Accepts(mimeType: string)
  {
    IsImage(mimeType) || mimeType == PDF_TYPE
  }

  /**
   * Every "image/" type and the exact PDF type are kept; the type is matched
   * as written, so a PDF type with a parameter, an upper-case "IMAGE/" and a
   * text type are refused.
   */
  lemma AcceptedTypes(mimeType: string)
    ensures Accepts(mimeType) <==> (|mimeType| >= 6 && mimeType[..6] == "image/") || mimeType == "application/pdf"
    ensures Accepts("image/png") && Accepts("application/pdf")
    ensures !Accepts("application/pdf; charset=binary") && !Accepts("IMAGE/PNG") && !Accepts("text/plain") && !Accepts("")
  {
    assert "image/png"[..6] == "image/";
    assert "application/pdf; charset=binary"[..6][0] != "image/"[0];
    assert "IMAGE/PNG"[..6][0] != "image/"[0];
    assert "text/plain"[..6][0] != "image/"[0];
  }

  class InputArea {
    var selectedFile: Option<FileInfo>
    var fileName: string
    var textInput: string
    var isPdfModalOpen: bool
    var pdfInfo: Option<PdfInfo>

    /** A kept file is an accepted one, its name is shown, and the dialog is only open with a document loaded. */
    ghost predicate Valid()
      reads this
    {
      && (selectedFile.Some? ==> Accepts(selectedFile.value.mimeType) && fileName == selectedFile.value.name)
      && (isPdfModalOpen ==> pdfInfo.Some?)
    }

    constructor()
      ensures Valid()
      ensures selectedFile.None? && fileName == "" && textInput == "" && !isPdfModalOpen && pdfInfo.None?
    {
      selectedFile := None;
      fileName := "";
      textInput := "";
      isPdfModalOpen := false;
      pdfInfo := None;
    }

    /**
     * `handleFileChange` with the first chosen file, if any: an accepted file
     * is kept and its name shown; any other is reported and the selection and
     * name are cleared.
     */
    method HandleFileChange(file: Option<FileInfo>) returns (events: seq<Event>)
      requires Valid()
      modifies this
      ensures Valid()
      ensures file.None? ==> events == [] && selectedFile == old(selectedFile) && fileName == old(fileName)
      ensures file.Some? && Accepts(file.value.mimeType) ==>
        events == [] && selectedFile == file && fileName == file.value.name
      ensures file.Some? && !Accepts(file.value.mimeType) ==>
        events == [OnError(UNSUPPORTED_FILE)] && selectedFile.None? && fileName == ""
      ensures textInput == old(textInput) && isPdfModalOpen == old(isPdfModalOpen) && pdfInfo == old(pdfInfo)
    {
      events := [];
      if file.None? {
        return;
      }
      selectedFile := file;
      fileName := file.value.name;
      if !IsImage(file.value.mimeType) && file.value.mimeType != PDF_TYPE {
        events := [OnError(UNSUPPORTED_FILE)];
        selectedFile := None;
        fileName := "";
      }
    }

    /** Typing in the text box. */
    method EditText(text: string)
      requires Valid()
      modifies this
      ensures Valid()
      ensures textInput == text
      ensures selectedFile == old(selectedFile) && fileName == old(fileName)
      ensures isPdfModalOpen == old(isPdfModalOpen) && pdfInfo == old(pdfInfo)
    {
      textInput := text;
    }

    /**
     * `handleProcessClick`; `numPages` is what pdf.js reports for a selected
     * PDF (`None` when loading it fails). No file is an error; an image is
     * handed on; a PDF opens the page dialog.
     */
    method HandleProcessClick(numPages: Option<nat>) returns (events: seq<Event>)
      requires Valid()
      modifies this
      ensures Valid()
      ensures selectedFile == old(selectedFile) && fileName == old(fileName) && textInput == old(textInput)
      ensures selectedFile.None? ==> events == [OnError(NO_FILE)]
      ensures selectedFile.Some? && IsImage(selectedFile.value.mimeType) ==>
        events == [ProcessImage(selectedFile.value)]
      ensures selectedFile.Some? && !IsImage(selectedFile.value.mimeType) && numPages.Some? ==>
        events == [] && isPdfModalOpen && pdfInfo == Some(PdfInfo(selectedFile.value, numPages.value))
      ensures selectedFile.Some? && !IsImage(selectedFile.value.mimeType) && numPages.None? ==>
        events == [OnError(PDF_LOAD_ERROR)]
      ensures !(selectedFile.Some? && !IsImage(selectedFile.value.mimeType) && numPages.Some?) ==>
        isPdfModalOpen == old(isPdfModalOpen) && pdfInfo == old(pdfInfo)
    {
      events := [];
      if selectedFile.None? {
        events := [OnError(NO_FILE)];
        return;
      }
      var file := selectedFile.value;
      if IsImage(file.mimeType) {
        events := [ProcessImage(file)];
      } else if file.mimeType == PDF_TYPE {
        match numPages {
          case Some(n) =>
            pdfInfo := Some(PdfInfo(file, n));
            isPdfModalOpen := true;
          case None =>
            events := [OnError(PDF_LOAD_ERROR)];
        }
      }
    }

    /** `handleProcessText`: blank text is an error; otherwise the text goes on as typed, untrimmed. */
    method HandleProcessText() returns (events: seq<Event>)
      ensures IsBlank(textInput) ==> events == [OnError(NO_TEXT)]
      ensures !IsBlank(textInput) ==> events == [ProcessText(textInput)]
    {
      if Trim(textInput) == "" {
        events := [OnError(NO_TEXT)];
      } else {
        events := [ProcessText(textInput)];
      }
    }

    /**
     * Confirming the page dialog: the dialog's own check decides; an accepted
     * range hands the stored file on with that range and closes the dialog.
     */
    method ConfirmPdfRange(fields: PdfPageModal.Fields) returns (events: seq<Event>)
      requires Valid() && isPdfModalOpen
      modifies this
      ensures Valid()
      ensures selectedFile == old(selectedFile) && fileName == old(fileName) && textInput == old(textInput)
      ensures pdfInfo == old(pdfInfo)
      ensures var action := PdfPageModal.HandleProcess(fields, pdfInfo.value.totalPages);
        && (action.OnError? ==> events == [OnError(action.message)] && isPdfModalOpen)
        && (action.OnProcess? ==>
              events == [ProcessPdf(pdfInfo.value.file, action.start, action.end)] && !isPdfModalOpen)
    {
      var info := pdfInfo.value;
      var action := PdfPageModal.HandleProcess(fields, info.totalPages);
      match action {
        case OnError(m) =>
          events := [OnError(m)];
        case OnProcess(s, e) =>
          events := [ProcessPdf(info.file, s, e)];
          isPdfModalOpen := false;
      }
    }

    /** Closing the dialog without confirming. */
    method ClosePdfModal()
      requires Valid()
      modifies this
      ensures Valid() && !isPdfModalOpen
      ensures selectedFile == old(selectedFile) && fileName == old(fileName) && textInput == old(textInput)
      ensures pdfInfo == old(pdfInfo)
    {
      isPdfModalOpen := false;
    }
  }
}
