/** `extractPdf(filePath)`: read the file, let pdf-parse turn it into raw text, normalise that
    text. The file read and pdf-parse are foreign; their outcome is an input of the model. */
module ExtractPdf {
  import opened JsString
  import opened Wrappers
  import opened Normalize

  /** What `fs.readFileSync` and then `pdfParse` deliver: an exception from either
      (its message is discarded), or the parsed document's `text`. */
  datatype PdfLibrary = ReadFailed(readError: string) | ParseFailed(parseError: string) | Parsed(text: string)

  const PdfError: string := "Failed to extract text from PDF"

  /** On success the result is the library text in normal form; every failure of the read or
      the parse surfaces as the same generic error. */
  function Extract(lib: PdfLibrary): (r: Result<string, string>)
    ensures r.Success? <==> lib.Parsed?
    ensures r.Failure? ==> r.error == PdfError
    ensures r.Success? ==> r.value == CollapseSpaces(lib.text)
    ensures r.Success? ==> IsCollapsed(r.value) && '\n' !in r.value && '\r' !in r.value
    ensures r.Success? ==> |r.value| <= |lib.text| && Visible(r.value) == Visible(lib.text)
    ensures r.Success? ==> NormalizeText(r.value) == r.value
  {
    match lib
    case Parsed(text) =>
      NormalizePreserves(text);
      NormalizeIdempotent(text);
      Success(NormalizeText(text))
    case _ => Failure(PdfError)
  }
}
