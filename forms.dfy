/**
 * What the form pages share: the PDF selection check, the parts of a
 * multipart `FormData` payload, the shape of a failed HTTP call as the
 * `catch` blocks see it, and JavaScript's `a || b` on optional strings.
 */
module Forms {
  import opened Wrappers

  /** A file picked in the browser: only its size and MIME type matter here. */
  datatype PdfFile = PdfFile(name: string, size: nat, mimeType: string)

  /** 5 MB, the largest accepted upload, in bytes. */
  const MaxPdfBytes: nat := 5 * 1024 * 1024
  const PdfMimeType: string := "application/pdf"
  const FileTooLarge: string := "File size too large (max 5MB)"
  const NotAPdf: string := "Only PDF files are allowed"

  datatype Check = Accept | Reject(message: string)

  /** The upload check of both pages: the size test runs before the type test. */
  function CheckPdf(f: PdfFile): (c: Check)
    ensures c == Accept <==> f.size <= MaxPdfBytes && f.mimeType == PdfMimeType
    ensures c == Reject(FileTooLarge) <==> f.size > MaxPdfBytes
    ensures c == Reject(NotAPdf) <==> f.size <= MaxPdfBytes && f.mimeType != PdfMimeType
  {
    if f.size > MaxPdfBytes then Reject(FileTooLarge)
    else if f.mimeType != PdfMimeType then Reject(NotAPdf)
    else Accept
  }

  /** The limit is inclusive: 5,242,880 bytes pass, one byte more fails whatever the type. */
  lemma CheckPdfBoundary(name: string, mimeType: string)
    ensures CheckPdf(PdfFile(name, 5242880, PdfMimeType)) == Accept
    ensures CheckPdf(PdfFile(name, 5242881, mimeType)) == Reject(FileTooLarge)
  {
  }

  /** One `FormData.append(name, value)`. */
  datatype Part = FilePart(name: string, file: PdfFile) | TextPart(name: string, value: string)

  function PartNames(parts: seq<Part>): seq<string> {
    seq(|parts|, i requires 0 <= i < |parts| => parts[i].name)
  }

  lemma PartNamesConcat(u: seq<Part>, v: seq<Part>)
    ensures PartNames(u + v) == PartNames(u) + PartNames(v)
  {
  }

  /** JavaScript's `o || fallback` where `o` is an optional string: absent and "" are both falsy. */
  function Or(o: Option<string>, fallback: string): (r: string)
    ensures o.Some? && o.value != "" ==> r == o.value
    ensures (o.None? || o.value == "") ==> r == fallback
  {
    if o.Some? && o.value != "" then o.value else fallback
  }

  /** The `data` of an error response, as far as the pages read it. */
  datatype ErrorBody = ErrorBody(detail: Option<string>, error: Option<string>)

  /** `err.response`: a response that arrived with an error status. */
  datatype ErrorResponse = ErrorResponse(status: nat, data: ErrorBody)

  /**
   * A rejected request as the `catch` blocks see it: the response if one
   * arrived (`err.response`), whether the request went out (`err.request`),
   * and the error's own `message`.
   */
  datatype HttpError = HttpError(response: Option<ErrorResponse>, requestSent: bool, message: string)

  /** `err.response?.data?.detail` */
  function Detail(err: HttpError): Option<string> {
    if err.response.Some? then err.response.value.data.detail else None
  }
}
