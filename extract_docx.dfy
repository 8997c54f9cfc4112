/** `extractDocx(filePath)`: let mammoth extract the raw text of the document and normalise it.
    mammoth is foreign; its outcome is an input of the model. */
module ExtractDocx {
  import opened JsString
  import opened Wrappers
  import opened Normalize

  /** What `mammoth.extractRawText` delivers: an exception (its message is discarded), or the
      raw text together with the conversion warnings. */
  datatype DocxLibrary = Failed(error: string) | Extracted(value: string, messages: seq<string>)

  const DocxError: string := "Failed to extract text from DOCX"

  /** On success the result is the library text in normal form and the warnings play no part
      in it; every failure surfaces as the same generic error. */
  function Extract(lib: DocxLibrary): (r: Result<string, string>)
    ensures r.Success? <==> lib.Extracted?
    ensures r.Failure? ==> r.error == DocxError
    ensures r.Success? ==> r.value == CollapseSpaces(lib.value)
    ensures r.Success? ==> IsCollapsed(r.value) && '\n' !in r.value && '\r' !in r.value
    ensures r.Success? ==> |r.value| <= |lib.value| && Visible(r.value) == Visible(lib.value)
    ensures r.Success? ==> NormalizeText(r.value) == r.value
  {
    match lib
    case Extracted(value, messages) =>
      NormalizePreserves(value);
      NormalizeIdempotent(value);
      Success(NormalizeText(value))
    case Failed(_) => Failure(DocxError)
  }

  /** The warnings are only logged: two extractions that differ only in them agree. */
  lemma WarningsIgnored(value: string, m1: seq<string>, m2: seq<string>)
    ensures Extract(Extracted(value, m1)) == Extract(Extracted(value, m2))
  {
  }
}
