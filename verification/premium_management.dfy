/**
 * The admin's premium-content page: the file-type classifier of its
 * list, the difficulty colours, and the add/edit form with its submit
 * guard, edit mode and reset.
 */
module PremiumManagement {
  import opened Wrappers
  import Text
  import opened Models
  import PremiumAdmin

  // ------------------------------------------------------------ file types

  const ImageExtensions: seq<string> := ["jpg", "jpeg", "png", "gif", "webp"]
  const VideoExtensions: seq<string> := ["mp4", "mov", "avi", "webm"]

  /** The kind the list shows for a lower-cased extension. */
  function ExtensionKind(ext: string): (r: string)
    ensures r == "image" <==> ext in ImageExtensions
    ensures r == "video" <==> ext in VideoExtensions
    ensures r == "pdf" <==> ext == "pdf"
    ensures r == "document" <==> ext == "doc" || ext == "docx"
    ensures r == "text" <==> ext == "txt"
    ensures r == "unknown" <==> ext !in ImageExtensions + VideoExtensions + ["pdf", "doc", "docx", "txt"]
  {
    if ext in ImageExtensions then "image"
    else if ext in VideoExtensions then "video"
    else if ext == "pdf" then "pdf"
    else if ext == "doc" || ext == "docx" then "document"
    else if ext == "txt" then "text"
    else "unknown"
  }

  /** `getFileType`: the text after the last '.', lower-cased, classified; "unknown" without a URL. */
  function FileType(fileUrl: Option<string>): (r: string)
    ensures !Truthy(fileUrl) ==> r == "unknown"
    ensures Truthy(fileUrl) ==> r == ExtensionKind(Text.ToLower(Text.LastPiece(fileUrl.value, '.')))
  {
    if !Truthy(fileUrl) then "unknown" else ExtensionKind(Text.ToLower(Text.LastPiece(fileUrl.value, '.')))
  }

  /** A URL ending in "." and a dot-free extension is classified by that extension, in any case. */
  lemma FileTypeOfExtension(prefix: string, ext: string)
    requires '.' !in ext
    ensures FileType(Some(prefix + "." + ext)) == ExtensionKind(Text.ToLower(ext))
  {
    assert prefix + "." + ext == prefix + ['.'] + ext;
    Text.LastPieceAfter(prefix, '.', ext);
  }

  /** Upper-casing commutes with dropping or appending a last character. */
  lemma {:induction false} UpperLast(p: string, c: char)
    ensures Text.ToUpper(p + [c]) == Text.ToUpper(p) + [Text.UpperChar(c)]
    ensures (p + [c])[..|p|] == p
  {
    var l, r := Text.ToUpper(p + [c]), Text.ToUpper(p) + [Text.UpperChar(c)];
    forall i | 0 <= i < |l|
      ensures l[i] == r[i]
    {
      if i < |p| {
        assert (p + [c])[i] == p[i];
      }
    }
    assert |l| == |r|;
    assert l == r;
  }

  /** Taking the last '.' piece commutes with upper-casing, as '.' is not a letter. */
  lemma {:induction false} LastPieceUpper(s: string)
    ensures Text.LastPiece(Text.ToUpper(s), '.') == Text.ToUpper(Text.LastPiece(s, '.'))
    decreases |s|
  {
    if s != [] {
      var p, c := s[..|s| - 1], s[|s| - 1];
      assert s == p + [c];
      UpperLast(p, c);
      var u := Text.ToUpper(p) + [Text.UpperChar(c)];
      assert u[..|u| - 1] == Text.ToUpper(p) && u[|u| - 1] == Text.UpperChar(c);
      if c != '.' {
        assert Text.UpperChar(c) != '.';
        LastPieceUpper(p);
        UpperLast(Text.LastPiece(p, '.'), c);
        calc {
          Text.LastPiece(Text.ToUpper(s), '.');
          Text.LastPiece(u, '.');
          Text.LastPiece(Text.ToUpper(p), '.') + [Text.UpperChar(c)];
          Text.ToUpper(Text.LastPiece(p, '.')) + [Text.UpperChar(c)];
          Text.ToUpper(Text.LastPiece(p, '.') + [c]);
          Text.ToUpper(Text.LastPiece(s, '.'));
        }
      }
    }
  }

  /** Lower-casing after upper-casing is lower-casing. */
  lemma {:induction false} LowerUpper(s: string)
    ensures Text.ToLower(Text.ToUpper(s)) == Text.ToLower(s)
  {
    assert forall i :: 0 <= i < |s| ==> Text.LowerChar(Text.UpperChar(s[i])) == Text.LowerChar(s[i]);
  }

  /** The classification ignores case: an upper-cased URL is classified as the URL itself. */
  lemma FileTypeIgnoresCase(url: string)
    ensures FileType(Some(Text.ToUpper(url))) == FileType(Some(url))
  {
    LastPieceUpper(url);
    LowerUpper(Text.LastPiece(url, '.'));
  }

  // -------------------------------------------------------------- colours

  /** `getDifficultyColor`, shared by the list and the premium cards. */
  function DifficultyColor(difficulty: string): (r: string)
    ensures r == "text-gray-400" <==> difficulty !in PremiumAdmin.Levels
  {
    if difficulty == "beginner" then "text-green-400"
    else if difficulty == "intermediate" then "text-yellow-400"
    else if difficulty == "advanced" then "text-red-400"
    else "text-gray-400"
  }

  /** Each of the schema's difficulties has a colour of its own. */
  lemma ColoursDistinguishLevels(a: string, b: string)
    requires a in PremiumAdmin.Levels && b in PremiumAdmin.Levels
    ensures DifficultyColor(a) == DifficultyColor(b) <==> a == b
  {
  }

  // ------------------------------------------------------------------ form

  /** A file the admin picked in the browser. */
  datatype ChosenFile = ChosenFile(name: string, mimeType: string, size: int)

  datatype PremiumForm = PremiumForm(name: string, description: string, category: string, difficulty: string,
                                     file: Option<ChosenFile>)

  /** The page's form state: the form, whether it is open, and the record being edited. */
  datatype Manager = Manager(form: PremiumForm, showForm: bool, editingId: Option<Id>)

  const InitialForm := PremiumForm("", "", "course", "beginner", None)
  const InitialManager := Manager(InitialForm, false, None)

  datatype FormField = NameField | DescriptionField | CategoryField | DifficultyField

  /** `handleInputChange`: one text field takes the typed value. */
  function HandleInputChange(m: Manager, field: FormField, value: string): (r: Manager)
    ensures r.showForm == m.showForm && r.editingId == m.editingId && r.form.file == m.form.file
    ensures field == NameField ==> r.form == m.form.(name := value)
    ensures field == DescriptionField ==> r.form == m.form.(description := value)
    ensures field == CategoryField ==> r.form == m.form.(category := value)
    ensures field == DifficultyField ==> r.form == m.form.(difficulty := value)
  {
    match field
    case NameField => m.(form := m.form.(name := value))
    case DescriptionField => m.(form := m.form.(description := value))
    case CategoryField => m.(form := m.form.(category := value))
    case DifficultyField => m.(form := m.form.(difficulty := value))
  }

  /** `handleFileChange`: the picked file replaces the form's file. */
  function HandleFileChange(m: Manager, file: Option<ChosenFile>): (r: Manager)
    ensures r.form.file == file
    ensures r.form.(file := m.form.file) == m.form && r.showForm == m.showForm && r.editingId == m.editingId
  {
    m.(form := m.form.(file := file))
  }

  /** `resetForm`: the empty form with the default category and difficulty, closed, not editing. */
  function ResetForm(m: Manager): (r: Manager)
    ensures r.form.name == "" && r.form.description == "" && r.form.file.None?
    ensures r.form.category == "course" && r.form.difficulty == "beginner"
    ensures !r.showForm && r.editingId.None?
  {
    InitialManager
  }

  /** `handleEdit`: the record's fields (with the defaults for empty ones), no file, the form open. */
  function HandleEdit(m: Manager, item: PremiumItem): (r: Manager)
    ensures r.editingId == Some(item.id) && r.showForm && r.form.file.None?
    ensures r.form.name == item.name && r.form.description == item.description
    ensures r.form.category == (if item.category != "" then item.category else "course")
    ensures r.form.difficulty == (if item.difficulty != "" then item.difficulty else "beginner")
  {
    Manager(PremiumForm(item.name, item.description,
                        if item.category != "" then item.category else "course",
                        if item.difficulty != "" then item.difficulty else "beginner",
                        None),
            true, Some(item.id))
  }

  datatype SubmitDecision =
    | SubmitRefused(message: string)
    | SendCreate(fields: PremiumAdmin.PremiumFields, file: ChosenFile)
    | SendUpdate(id: Id, fields: PremiumAdmin.PremiumFields, file: ChosenFile)

  /** The fields as sent: every field, untrimmed (the server trims). */
  function SentFields(form: PremiumForm): PremiumAdmin.PremiumFields {
    PremiumAdmin.PremiumFields(Some(form.name), Some(form.description), Some(form.category), Some(form.difficulty))
  }

  /**
   * `handleSubmit`: a name, then a description (both after trimming),
   * then a file; then an update when editing, else a create.
   */
  function HandleSubmit(m: Manager): (r: SubmitDecision)
    ensures Text.Trim(m.form.name) == "" ==> r == SubmitRefused("Please enter a name")
    ensures Text.Trim(m.form.name) != "" && Text.Trim(m.form.description) == "" ==>
              r == SubmitRefused("Please enter a description")
    ensures Text.Trim(m.form.name) != "" && Text.Trim(m.form.description) != "" && m.form.file.None? ==>
              r == SubmitRefused("Please select a file")
    ensures !r.SubmitRefused? <==> Text.Trim(m.form.name) != "" && Text.Trim(m.form.description) != "" && m.form.file.Some?
    ensures r.SendUpdate? <==> !r.SubmitRefused? && Truthy(m.editingId)
    ensures !r.SubmitRefused? ==> r.fields == SentFields(m.form) && r.file == m.form.file.value
  {
    if Text.Trim(m.form.name) == "" then SubmitRefused("Please enter a name")
    else if Text.Trim(m.form.description) == "" then SubmitRefused("Please enter a description")
    else if m.form.file.None? then SubmitRefused("Please select a file")
    else if Truthy(m.editingId) then SendUpdate(m.editingId.value, SentFields(m.form), m.form.file.value)
    else SendCreate(SentFields(m.form), m.form.file.value)
  }

  /** After a reset nothing can be sent until a name is typed. */
  lemma ResetRefusesSubmit(m: Manager)
    ensures HandleSubmit(ResetForm(m)) == SubmitRefused("Please enter a name")
  {
    assert Text.Trim("") == "";
  }

  /** Entering edit mode clears the file, so the edit cannot be sent until a file is chosen again. */
  lemma EditNeedsFile(m: Manager, item: PremiumItem)
    ensures HandleSubmit(HandleEdit(m, item)).SubmitRefused?
  {
  }

  /**
   * With a file chosen again, an edit of a record with a name and a
   * description sends an update of that record carrying its own fields.
   */
  lemma EditWithFileSendsUpdate(m: Manager, item: PremiumItem, file: ChosenFile)
    requires item.id != "" && Text.Trim(item.name) != "" && Text.Trim(item.description) != ""
    ensures var r := HandleSubmit(HandleFileChange(HandleEdit(m, item), Some(file)));
            r.SendUpdate? && r.id == item.id && r.file == file
            && r.fields.name == Some(item.name) && r.fields.description == Some(item.description)
  {
  }

  /**
   * A create the page sends passes the server's own field checks: with
   * the server ready and configured, and the category and difficulty
   * from the form's choices, it is created unless the uploaded file has
   * no usable URL.
   */
  lemma SentCreateAccepted(m: Manager, env: PremiumAdmin.CloudEnv, upload: PremiumAdmin.UploadedFile,
                           newId: Id, uploader: Id)
    requires HandleSubmit(m).SendCreate?
    requires PremiumAdmin.Configured(env)
    requires m.form.category in PremiumAdmin.Categories && m.form.difficulty in PremiumAdmin.Levels
    requires upload.originalName != ""
    ensures var r := PremiumAdmin.AddPremium(true, env, Some(upload), HandleSubmit(m).fields, newId, uploader);
            r.Added? || r == PremiumAdmin.AddRejected(500, "Failed to process uploaded file")
    ensures var r := PremiumAdmin.AddPremium(true, env, Some(upload), HandleSubmit(m).fields, newId, uploader);
            r.Added? ==> r.item.name == Text.Trim(m.form.name) && r.item.category == m.form.category
  {
    assert HandleSubmit(m).fields == SentFields(m.form);
    ChoicesNonEmpty(m.form.category, m.form.difficulty);
    assert m.form.name != "" by { assert Text.Trim(m.form.name)[0] in Text.Trim(m.form.name); }
    assert m.form.description != "" by { assert Text.Trim(m.form.description)[0] in Text.Trim(m.form.description); }
    SentFieldsAdded(m.form, env, upload, newId, uploader);
  }

  /** Every category and level the server accepts is non-empty. */
  lemma ChoicesNonEmpty(category: string, difficulty: string)
    requires category in PremiumAdmin.Categories && difficulty in PremiumAdmin.Levels
    ensures category != "" && difficulty != ""
  {
  }

  /** The server's answer to the fields of a complete form with valid choices. */
  lemma SentFieldsAdded(form: PremiumForm, env: PremiumAdmin.CloudEnv, upload: PremiumAdmin.UploadedFile,
                        newId: Id, uploader: Id)
    requires PremiumAdmin.Configured(env)
    requires form.name != "" && form.description != "" && form.category != "" && form.difficulty != ""
    requires Text.Trim(form.name) != "" && Text.Trim(form.description) != ""
    requires form.category in PremiumAdmin.Categories && form.difficulty in PremiumAdmin.Levels
    requires upload.originalName != ""
    ensures var r := PremiumAdmin.AddPremium(true, env, Some(upload), SentFields(form), newId, uploader);
            && (r.Added? || r == PremiumAdmin.AddRejected(500, "Failed to process uploaded file"))
            && (r.Added? ==> r.item.name == Text.Trim(form.name) && r.item.category == form.category)
  {
    var f := SentFields(form);
    assert Truthy(f.name) && Truthy(f.description);
    match PremiumAdmin.StoredUrl(upload, env.name.value)
    case None =>
      assert PremiumAdmin.AddPremium(true, env, Some(upload), f, newId, uploader)
          == PremiumAdmin.AddRejected(500, "Failed to process uploaded file");
    case Some(url) =>
      var item := PremiumAdmin.NewPremium(newId, f, upload, url, uploader);
      assert item.name == Text.Trim(form.name) && item.category == form.category && item.difficulty == form.difficulty;
      assert PremiumAdmin.SchemaValid(item);
      assert PremiumAdmin.AddPremium(true, env, Some(upload), f, newId, uploader) == PremiumAdmin.Added(item);
  }
}
