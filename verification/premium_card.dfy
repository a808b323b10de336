/**
 * A premium card on the public premium page: its own file-type test on
 * the URL, the lock and the action shown for the visitor, the checks
 * before a file is opened, and the difficulty label.
 */
module PremiumCard {
  import opened Wrappers
  import Text
  import AssetUrls
  import PremiumManagement

  // ------------------------------------------------------------ file types

  const ImageSuffixes: seq<string> := [".jpeg", ".jpg", ".png", ".gif", ".webp"]

  /** `url.match(/\.(jpeg|jpg|png|gif|webp)$/)`. */
  predicate EndsWithImage(url: string) {
    exists i :: 0 <= i < |ImageSuffixes| && Text.EndsWith(url, ImageSuffixes[i])
  }

  /**
   * `getFileType`: case-sensitive suffix tests in order: ".pdf", then
   * ".mp4" or ".mov", then an image suffix; "file" otherwise and without
   * a URL.
   */
  function FileType(fileUrl: Option<string>): (r: string)
    ensures r == "pdf" <==> Truthy(fileUrl) && Text.EndsWith(fileUrl.value, ".pdf")
    ensures r == "video" <==>
              && Truthy(fileUrl)
              && !Text.EndsWith(fileUrl.value, ".pdf")
              && (Text.EndsWith(fileUrl.value, ".mp4") || Text.EndsWith(fileUrl.value, ".mov"))
    ensures r == "image" <==>
              && Truthy(fileUrl)
              && !Text.EndsWith(fileUrl.value, ".pdf")
              && !(Text.EndsWith(fileUrl.value, ".mp4") || Text.EndsWith(fileUrl.value, ".mov"))
              && EndsWithImage(fileUrl.value)
    ensures r == "pdf" || r == "video" || r == "image" || r == "file"
    ensures !Truthy(fileUrl) ==> r == "file"
  {
    if !Truthy(fileUrl) then "file"
    else if Text.EndsWith(fileUrl.value, ".pdf") then "pdf"
    else if Text.EndsWith(fileUrl.value, ".mp4") || Text.EndsWith(fileUrl.value, ".mov") then "video"
    else if EndsWithImage(fileUrl.value) then "image"
    else "file"
  }

  /** The tests are case-sensitive: an upper-case ".PDF" is a plain file here, a PDF in the admin list. */
  lemma UpperPdfIsFile(prefix: string)
    ensures FileType(Some(prefix + ".PDF")) == "file"
    ensures PremiumManagement.FileType(Some(prefix + ".PDF")) == "pdf"
  {
    var u := prefix + ".PDF";
    assert u[|u| - 1] == 'F';
    forall x | x in [".pdf", ".mp4", ".mov"] + ImageSuffixes
      ensures !Text.EndsWith(u, x)
    {
      LastCharDiffers(u, x);
    }
    assert !EndsWithImage(u);
    assert "." + "PDF" == ".PDF";
    assert prefix + "." + "PDF" == prefix + ("." + "PDF");
    PremiumManagement.FileTypeOfExtension(prefix, "PDF");
    LowerPdf();
  }

  /** A suffix whose last character differs from the text's is not a suffix of it. */
  lemma LastCharDiffers(u: string, x: string)
    requires u != [] && x != [] && u[|u| - 1] != x[|x| - 1]
    ensures !Text.EndsWith(u, x)
  {
  }

  /** "PDF" and "pdf" both lower-case to "pdf", which the admin list classifies as a PDF. */
  lemma LowerPdf()
    ensures Text.ToLower("PDF") == "pdf" && Text.ToLower("pdf") == "pdf"
    ensures PremiumManagement.ExtensionKind("pdf") == "pdf"
  {
    var l, m := Text.ToLower("PDF"), Text.ToLower("pdf");
    assert l[0] == 'p' && l[1] == 'd' && l[2] == 'f';
    assert m[0] == 'p' && m[1] == 'd' && m[2] == 'f';
  }

  /** On a lower-case ".pdf" URL the card and the admin list agree. */
  lemma PdfAgrees(prefix: string)
    ensures FileType(Some(prefix + ".pdf")) == "pdf"
    ensures PremiumManagement.FileType(Some(prefix + ".pdf")) == "pdf"
  {
    var u := prefix + ".pdf";
    assert u[|u| - 4..] == ".pdf";
    assert "." + "pdf" == ".pdf";
    assert prefix + "." + "pdf" == prefix + ("." + "pdf");
    PremiumManagement.FileTypeOfExtension(prefix, "pdf");
    LowerPdf();
  }

  // ------------------------------------------------------- lock and action

  /** The lock overlay: shown unless the visitor is logged in and premium. */
  predicate Locked(isLoggedIn: bool, isPremium: bool) {
    !isLoggedIn || !isPremium
  }

  datatype CardAction = LoginToAccess | UpgradeToPremium | OpenFileButton

  /** The action area: log in first, then upgrade, then the open-file button. */
  function Action(isLoggedIn: bool, isPremium: bool): (r: CardAction)
    ensures r == LoginToAccess <==> !isLoggedIn
    ensures r == UpgradeToPremium <==> isLoggedIn && !isPremium
  {
    if !isLoggedIn then LoginToAccess else if !isPremium then UpgradeToPremium else OpenFileButton
  }

  /** The open-file button is offered exactly on the cards that are not locked. */
  lemma ButtonOnlyWhenUnlocked(isLoggedIn: bool, isPremium: bool)
    ensures Action(isLoggedIn, isPremium) == OpenFileButton <==> !Locked(isLoggedIn, isPremium)
  {
  }

  // ------------------------------------------------------------ file open

  datatype OpenResult = NoAction | InvalidUrlAlert | OpenInTab(url: string) | Download(url: string, fileName: string)

  /**
   * `handleFileOpen`: nothing without a URL; an alert for a URL on
   * localhost or under "/uploads/"; a new tab for videos, images and
   * PDFs; a download (named after the file, else "download") otherwise.
   */
  function HandleFileOpen(fileUrl: Option<string>, fileName: Option<string>): (r: OpenResult)
    ensures !Truthy(fileUrl) ==> r == NoAction
    ensures r.OpenInTab? ==> r.url == fileUrl.value && FileType(fileUrl) != "file"
    ensures r.Download? ==> r.url == fileUrl.value && FileType(fileUrl) == "file"
    ensures r.Download? && !Truthy(fileName) ==> r.fileName == "download"
  {
    if !Truthy(fileUrl) then NoAction
    else if Text.Contains(fileUrl.value, "localhost") || Text.StartsWith(fileUrl.value, "/uploads/") then InvalidUrlAlert
    else
      var kind := FileType(fileUrl);
      if kind == "video" || kind == "image" || kind == "pdf" then OpenInTab(fileUrl.value)
      else Download(fileUrl.value, if Truthy(fileName) then fileName.value else "download")
  }

  /**
   * The card opens a file exactly when the URL survey counts its URL as
   * valid, and alerts exactly for the URLs the maintenance pass treats as
   * local.
   */
  lemma OpensIffValid(fileUrl: Option<string>, fileName: Option<string>)
    ensures var r := HandleFileOpen(fileUrl, fileName);
            r.OpenInTab? || r.Download? <==> AssetUrls.HasValidUrl(fileUrl)
    ensures HandleFileOpen(fileUrl, fileName) == InvalidUrlAlert <==>
              Truthy(fileUrl) && AssetUrls.IsLocalUrl(fileUrl.value)
  {
  }

  // ------------------------------------------------------ difficulty label

  /**
   * `difficulty?.charAt(0).toUpperCase() + difficulty?.slice(1) || "Beginner"`:
   * the first letter upper-cased; "Beginner" when the difficulty is
   * missing or empty.
   */
  function DifficultyLabel(difficulty: Option<string>): (r: string)
    ensures r != ""
    ensures !Truthy(difficulty) ==> r == "Beginner"
    ensures Truthy(difficulty) ==> |r| == |difficulty.value| && r[1..] == difficulty.value[1..]
                                   && r[0] == Text.UpperChar(difficulty.value[0])
  {
    if !Truthy(difficulty) then "Beginner"
    else [Text.UpperChar(difficulty.value[0])] + difficulty.value[1..]
  }

  /** Each of the schema's difficulties is labelled with its capitalised name. */
  lemma LevelLabels()
    ensures DifficultyLabel(Some("beginner")) == "Beginner"
    ensures DifficultyLabel(Some("intermediate")) == "Intermediate"
    ensures DifficultyLabel(Some("advanced")) == "Advanced"
  {
  }
}
