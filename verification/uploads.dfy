/**
 * The upload middleware: the file filter (size, then type), the stored
 * file's public id, and the mapping of upload errors to responses. The
 * storage service itself, and the limits the upload library enforces on
 * its own, are outside the model.
 */
module Uploads {
  import opened Wrappers
  import Text

  /** 50 MB, the largest file the filter lets through. */
  const MaxUploadBytes: int := 50 * 1024 * 1024

  /** The MIME types the filter accepts, as listed. */
  const AllowedTypes: seq<string> := [
    "image/jpeg", "image/jpg", "image/png", "image/gif", "image/webp",
    "video/mp4", "video/mov", "video/avi", "video/webm",
    "application/pdf", "application/msword",
    "application/vnd.openxmlformats-officedocument.wordprocessingml.document",
    "text/plain"]

  const TooLargeMessage := "File too large. Maximum size is 50MB."
  const TypeMessage := "File type not allowed."

  datatype FilterResult = FilterRejected(message: string) | FilterAccepted

  /**
   * `fileFilter`: a known size above 50 MB is rejected first; then a type
   * outside the allowlist. An unknown size passes the size test, as
   * `undefined > n` is false.
   */
  function FileFilter(size: Option<int>, mimetype: string): (r: FilterResult)
    ensures r.FilterAccepted? <==> (size.None? || size.value <= MaxUploadBytes) && mimetype in AllowedTypes
    ensures size.Some? && size.value > MaxUploadBytes ==> r == FilterRejected(TooLargeMessage)
    ensures (size.None? || size.value <= MaxUploadBytes) && mimetype !in AllowedTypes ==> r == FilterRejected(TypeMessage)
  {
    if size.Some? && size.value > MaxUploadBytes then FilterRejected(TooLargeMessage)
    else if mimetype !in AllowedTypes then FilterRejected(TypeMessage)
    else FilterAccepted
  }

  /** The size limit is inclusive: a PDF of exactly 50 MB passes, one byte more does not. */
  lemma SizeBoundary()
    ensures FileFilter(Some(MaxUploadBytes), "application/pdf") == FilterAccepted
    ensures FileFilter(Some(MaxUploadBytes + 1), "application/pdf") == FilterRejected(TooLargeMessage)
  {
    assert AllowedTypes[9] == "application/pdf";
  }

  /** `${Date.now()}-${file.originalname}`, with the upload time as a parameter. */
  function PublicId(timestamp: nat, originalName: string): (r: string)
    ensures Text.StartsWith(r, Text.NatToString(timestamp))
  {
    Text.NatToString(timestamp) + "-" + originalName
  }

  /** The public id splits back at its first '-' into the time and the original name. */
  lemma PublicIdParts(timestamp: nat, originalName: string)
    ensures Text.FirstPiece(PublicId(timestamp, originalName), '-') == Text.NatToString(timestamp)
    ensures PublicId(timestamp, originalName)[|Text.NatToString(timestamp)| + 1..] == originalName
  {
    var t := Text.NatToString(timestamp);
    assert !Text.IsDigitAscii('-');
    assert PublicId(timestamp, originalName) == t + ("-" + originalName);
    Text.FirstPieceBefore(t, '-', "-" + originalName);
  }

  /** What reaches the error handler: an error of the upload library (with its code), or any other error. */
  datatype UploadError = LibraryError(code: string, message: string) | OtherError(text: Option<string>)

  datatype ErrorResponse = ErrorResponse(status: int, message: string, detail: Option<string>)

  /** `handleMulterError`. */
  function HandleUploadError(e: UploadError): (r: ErrorResponse)
    ensures r.status == 500 <==> e.OtherError? && !Truthy(e.text)
    ensures r.status != 500 ==> r.status == 400
    ensures e.LibraryError? && e.code == "LIMIT_FILE_SIZE" ==> r == ErrorResponse(400, TooLargeMessage, None)
    ensures e.LibraryError? && e.code == "LIMIT_FILE_COUNT" ==>
              r == ErrorResponse(400, "Too many files. Only one file allowed.", None)
    ensures e.LibraryError? && e.code != "LIMIT_FILE_SIZE" && e.code != "LIMIT_FILE_COUNT" ==>
              r == ErrorResponse(400, "File upload error", Some(e.message))
    ensures e.OtherError? && Truthy(e.text) ==> r == ErrorResponse(400, e.text.value, None)
  {
    match e
    case LibraryError(code, message) =>
      if code == "LIMIT_FILE_SIZE" then ErrorResponse(400, TooLargeMessage, None)
      else if code == "LIMIT_FILE_COUNT" then ErrorResponse(400, "Too many files. Only one file allowed.", None)
      else ErrorResponse(400, "File upload error", Some(message))
    case OtherError(text) =>
      if Truthy(text) then ErrorResponse(400, text.value, None)
      else ErrorResponse(500, "File upload failed", None)
  }

  /**
   * A file the filter rejects is answered 400 with the filter's message;
   * an oversized file gets the same answer whether the filter or the
   * library's own limit stops it.
   */
  lemma FilterRejectionAnswered(size: Option<int>, mimetype: string)
    requires FileFilter(size, mimetype).FilterRejected?
    ensures HandleUploadError(OtherError(Some(FileFilter(size, mimetype).message))) ==
              ErrorResponse(400, FileFilter(size, mimetype).message, None)
    ensures size.Some? && size.value > MaxUploadBytes ==>
              HandleUploadError(OtherError(Some(FileFilter(size, mimetype).message))) ==
              HandleUploadError(LibraryError("LIMIT_FILE_SIZE", TooLargeMessage))
  {
  }
}
