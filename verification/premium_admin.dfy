/**
 * The admin controller's premium-content handlers (add, update, delete)
 * and the not-found paths of problem update and delete. The uploaded
 * file arrives already stored by the storage service; the service's
 * destroy call is outside the model, except for the id it is given.
 */
module PremiumAdmin {
  import opened Wrappers
  import Text
  import opened Models
  import opened Store
  import AssetUrls

  /** What the upload middleware leaves on the request for a stored file. */
  datatype UploadedFile = UploadedFile(
    path: Option<string>,
    secureUrl: Option<string>,
    url: Option<string>,
    publicId: Option<string>,
    filename: Option<string>,
    originalName: string,
    size: Option<int>,
    mimetype: string)

  /** The storage-service settings read from the environment. */
  datatype CloudEnv = CloudEnv(name: Option<string>, apiKey: Option<string>, apiSecret: Option<string>)

  /** The text fields of an add or update request; None is an absent field. */
  datatype PremiumFields = PremiumFields(
    name: Option<string>,
    description: Option<string>,
    category: Option<string>,
    difficulty: Option<string>)

  /** The schema's enums for category and difficulty. */
  const Categories: seq<string> := ["course", "workshop", "challenge", "resource"]
  const Levels: seq<string> := ["beginner", "intermediate", "advanced"]

  const NameMessage := "Name and description are required"

  // ------------------------------------------------------------------- add

  /** `file.path || file.secure_url || file.url`. */
  function UploadedUrl(file: UploadedFile): (r: Option<string>)
    ensures Truthy(r) <==> Truthy(file.path) || Truthy(file.secureUrl) || Truthy(file.url)
    ensures Truthy(r) ==> r == file.path || r == file.secureUrl || r == file.url
    ensures Truthy(file.path) ==> r == file.path
    ensures !Truthy(file.path) && Truthy(file.secureUrl) ==> r == file.secureUrl
  {
    if Truthy(file.path) then file.path else if Truthy(file.secureUrl) then file.secureUrl else file.url
  }

  /** The URL is rebuilt when it is missing or points at the server's disk. */
  predicate NeedsRebuild(url: Option<string>) {
    !Truthy(url) || AssetUrls.IsLocalUrl(url.value)
  }

  /**
   * The URL stored for an upload: the uploaded one unless it needs a
   * rebuild; then one built from the public id, else from the file name
   * under "premium/"; None when neither is present.
   */
  function StoredUrl(file: UploadedFile, cloud: string): (r: Option<string>)
    ensures !NeedsRebuild(UploadedUrl(file)) ==> r == UploadedUrl(file)
    ensures r.None? <==> NeedsRebuild(UploadedUrl(file)) && !Truthy(file.publicId) && !Truthy(file.filename)
    ensures NeedsRebuild(UploadedUrl(file)) && Truthy(file.publicId) ==>
              r == Some(AssetUrls.CloudUrl(cloud, AssetUrls.ResourceType(Some(file.mimetype)), file.publicId.value))
    ensures NeedsRebuild(UploadedUrl(file)) && !Truthy(file.publicId) && Truthy(file.filename) ==>
              r == Some(AssetUrls.CloudUrl(cloud, AssetUrls.ResourceType(Some(file.mimetype)), "premium/" + file.filename.value))
  {
    var u := UploadedUrl(file);
    var resource := AssetUrls.ResourceType(Some(file.mimetype));
    if !NeedsRebuild(u) then u
    else if Truthy(file.publicId) then Some(AssetUrls.CloudUrl(cloud, resource, file.publicId.value))
    else if Truthy(file.filename) then Some(AssetUrls.CloudUrl(cloud, resource, "premium/" + file.filename.value))
    else None
  }

  /**
   * A stored URL is never a disk path: it is present and not under
   * "/uploads/", and a rebuilt one is classified as a storage-service URL
   * by the URL survey.
   */
  lemma StoredUrlRemote(file: UploadedFile, cloud: string)
    requires StoredUrl(file, cloud).Some?
    ensures Truthy(StoredUrl(file, cloud))
    ensures !Text.StartsWith(StoredUrl(file, cloud).value, "/uploads/")
    ensures NeedsRebuild(UploadedUrl(file)) ==> AssetUrls.UrlType(StoredUrl(file, cloud)) == "cloudinary"
  {
    var resource := AssetUrls.ResourceType(Some(file.mimetype));
    if NeedsRebuild(UploadedUrl(file)) {
      if Truthy(file.publicId) {
        AssetUrls.CloudUrlClassified(cloud, resource, file.publicId.value);
      } else {
        AssetUrls.CloudUrlClassified(cloud, resource, "premium/" + file.filename.value);
      }
    }
  }

  /** Every storage-service setting is present. */
  predicate Configured(env: CloudEnv) {
    Truthy(env.name) && Truthy(env.apiKey) && Truthy(env.apiSecret)
  }

  /** `x || default`. */
  function OrDefault(x: Option<string>, default: string): (r: string)
    ensures Truthy(x) ==> r == x.value
    ensures !Truthy(x) ==> r == default
  {
    if Truthy(x) then x.value else default
  }

  /** The record `addPremium` creates, before schema validation. */
  function NewPremium(id: Id, f: PremiumFields, file: UploadedFile, url: string, uploader: Id): PremiumItem
    requires f.name.Some? && f.description.Some?
  {
    PremiumItem(id, Text.Trim(f.name.value), Text.Trim(f.description.value),
                OrDefault(f.category, "course"), OrDefault(f.difficulty, "beginner"),
                Some(url), Some(file.originalName), file.size, Some(file.mimetype), uploader, false)
  }

  /** The schema's checks on create: required non-empty strings and the two enums. */
  predicate SchemaValid(item: PremiumItem) {
    item.name != "" && item.description != "" && item.category in Categories && item.difficulty in Levels
    && Truthy(item.fileUrl) && Truthy(item.fileName)
  }

  datatype AddOutcome = AddRejected(status: int, message: string) | Added(item: PremiumItem)

  /**
   * `addPremium`: database ready, then storage configured, then a file,
   * then a name and a description, then a usable URL, then the schema.
   */
  function AddPremium(dbReady: bool, env: CloudEnv, file: Option<UploadedFile>, f: PremiumFields,
                      newId: Id, uploader: Id): (r: AddOutcome)
    ensures r.AddRejected? ==> r.status == 400 || r.status == 500
    ensures !dbReady ==> r == AddRejected(500, "Database connection error")
    ensures dbReady && !Configured(env) ==> r == AddRejected(500, "Cloudinary configuration error")
    ensures dbReady && Configured(env) && file.None? ==> r == AddRejected(400, "No file uploaded")
    ensures dbReady && Configured(env) && file.Some? && (!Truthy(f.name) || !Truthy(f.description)) ==>
              r == AddRejected(400, NameMessage)
    ensures r.Added? ==> Configured(env) && file.Some? && Truthy(f.name) && Truthy(f.description)
    ensures r.Added? ==> r.item.id == newId && r.item.uploadedBy == uploader && !r.item.isPremiumContent
    ensures r.Added? ==> r.item.name == Text.Trim(f.name.value) && r.item.description == Text.Trim(f.description.value)
    ensures r.Added? ==> r.item.category in Categories && r.item.difficulty in Levels
    ensures r.Added? && !Truthy(f.category) ==> r.item.category == "course"
    ensures r.Added? && !Truthy(f.difficulty) ==> r.item.difficulty == "beginner"
    ensures r.Added? ==> r.item.fileUrl == StoredUrl(file.value, env.name.value)
    ensures r.Added? ==> r.item.fileName == Some(file.value.originalName)
    ensures r.Added? ==> r.item.fileSize == file.value.size && r.item.fileType == Some(file.value.mimetype)
  {
    if !dbReady then AddRejected(500, "Database connection error")
    else if !Configured(env) then AddRejected(500, "Cloudinary configuration error")
    else if file.None? then AddRejected(400, "No file uploaded")
    else if !Truthy(f.name) || !Truthy(f.description) then AddRejected(400, NameMessage)
    else match StoredUrl(file.value, env.name.value)
      case None => AddRejected(500, "Failed to process uploaded file")
      case Some(url) =>
        var item := NewPremium(newId, f, file.value, url, uploader);
        if SchemaValid(item) then Added(item) else AddRejected(400, "Validation error")
  }

  /** The status code `addPremium` answers with. */
  function AddStatus(r: AddOutcome): int {
    if r.Added? then 201 else r.status
  }

  /**
   * A created record has a remote URL and nothing the survey would count
   * as a disk path under "/uploads/".
   */
  lemma AddedUrlRemote(dbReady: bool, env: CloudEnv, file: Option<UploadedFile>, f: PremiumFields,
                       newId: Id, uploader: Id)
    requires AddPremium(dbReady, env, file, f, newId, uploader).Added?
    ensures var item := AddPremium(dbReady, env, file, f, newId, uploader).item;
            Truthy(item.fileUrl) && !Text.StartsWith(item.fileUrl.value, "/uploads/")
  {
    StoredUrlRemote(file.value, env.name.value);
  }

  /** With the settings present and a valid form, a file whose URL cannot be rebuilt fails with 500. */
  lemma UnusableUploadFails(env: CloudEnv, file: UploadedFile, f: PremiumFields, newId: Id, uploader: Id)
    requires Configured(env) && Truthy(f.name) && Truthy(f.description)
    requires NeedsRebuild(UploadedUrl(file)) && !Truthy(file.publicId) && !Truthy(file.filename)
    ensures AddPremium(true, env, Some(file), f, newId, uploader) == AddRejected(500, "Failed to process uploaded file")
  {
  }

  /** Every rejection of `addPremium` leaves the collection as it was. */
  method AddPremiumTo(db: Database, dbReady: bool, env: CloudEnv, file: Option<UploadedFile>, f: PremiumFields,
                      newId: Id, uploader: Id) returns (r: AddOutcome)
    modifies db`premiums
    ensures r == AddPremium(dbReady, env, file, f, newId, uploader)
    ensures db.premiums == if r.Added? then old(db.premiums) + [r.item] else old(db.premiums)
  {
    r := AddPremium(dbReady, env, file, f, newId, uploader);
    db.premiums := if r.Added? then db.premiums + [r.item] else db.premiums;
  }

  /** A record created under a fresh id keeps the collection's ids distinct. */
  lemma AddKeepsDistinct(premiums: seq<PremiumItem>, r: AddOutcome)
    requires AssetUrls.DistinctIds(premiums)
    requires r.Added? && forall x :: x in premiums ==> x.id != r.item.id
    ensures AssetUrls.DistinctIds(premiums + [r.item])
  {
    var s := premiums + [r.item];
    forall i, j | 0 <= i < j < |s|
      ensures s[i].id != s[j].id
    {
      if j == |premiums| {
        assert s[i] in premiums;
      }
    }
  }

  // ---------------------------------------------------------------- update

  /** A key whose value is undefined is dropped from the update, so the stored value stays. */
  function Keep<T>(stored: Option<T>, given: Option<T>): (r: Option<T>)
    ensures given.None? ==> r == stored
    ensures given.Some? ==> r == given
  {
    if given.Some? then given else stored
  }

  /** `x?.trim()` in an update: a given text is trimmed, an absent one keeps the stored value. */
  function TrimmedOr(stored: string, given: Option<string>): (r: string)
    ensures given.None? ==> r == stored
    ensures given.Some? ==> r == Text.Trim(given.value)
  {
    if given.Some? then Text.Trim(given.value) else stored
  }

  /** Trimming what was already stored by the same update changes nothing. */
  lemma TrimmedOrTwice(stored: string, given: Option<string>)
    ensures TrimmedOr(TrimmedOr(stored, given), given) == TrimmedOr(stored, given)
  {
    if given.Some? {
      Text.TrimTrimmed(Text.Trim(given.value));
    }
  }

  /**
   * `updatePremium`'s effect on the record: name and description trimmed
   * when given, category and difficulty given or reset to their defaults,
   * and the file fields replaced only by a new file.
   */
  function UpdatedItem(item: PremiumItem, f: PremiumFields, file: Option<UploadedFile>): (r: PremiumItem)
    ensures r.id == item.id && r.uploadedBy == item.uploadedBy && r.isPremiumContent == item.isPremiumContent
    ensures r.category == OrDefault(f.category, "course") && r.difficulty == OrDefault(f.difficulty, "beginner")
    ensures r.name == (if f.name.Some? then Text.Trim(f.name.value) else item.name)
    ensures r.description == (if f.description.Some? then Text.Trim(f.description.value) else item.description)
    ensures file.Some? ==> r.fileName == Some(file.value.originalName) && r.fileType == Some(file.value.mimetype)
    ensures file.Some? ==> r.fileUrl == Keep(item.fileUrl, UploadedUrl(file.value)) && r.fileSize == Keep(item.fileSize, file.value.size)
  {
    var name := TrimmedOr(item.name, f.name);
    var description := TrimmedOr(item.description, f.description);
    var fileUrl := if file.Some? then Keep(item.fileUrl, UploadedUrl(file.value)) else item.fileUrl;
    var fileName := if file.Some? then Some(file.value.originalName) else item.fileName;
    var fileSize := if file.Some? then Keep(item.fileSize, file.value.size) else item.fileSize;
    var fileType := if file.Some? then Some(file.value.mimetype) else item.fileType;
    PremiumItem(item.id, name, description, OrDefault(f.category, "course"), OrDefault(f.difficulty, "beginner"),
                fileUrl, fileName, fileSize, fileType, item.uploadedBy, item.isPremiumContent)
  }

  /**
   * Without a new file the file fields are untouched; an omitted category
   * or difficulty is reset to its default even when the record had another.
   */
  lemma UpdateWithoutFile(item: PremiumItem, f: PremiumFields)
    ensures var r := UpdatedItem(item, f, None);
            r.fileUrl == item.fileUrl && r.fileName == item.fileName
            && r.fileSize == item.fileSize && r.fileType == item.fileType
    ensures f.category.None? ==> UpdatedItem(item, f, None).category == "course"
    ensures f.difficulty.None? ==> UpdatedItem(item, f, None).difficulty == "beginner"
  {
  }

  /** Sending the same update twice has the effect of sending it once. */
  lemma UpdateIdempotent(item: PremiumItem, f: PremiumFields, file: Option<UploadedFile>)
    ensures UpdatedItem(UpdatedItem(item, f, file), f, file) == UpdatedItem(item, f, file)
  {
    TrimmedOrTwice(item.name, f.name);
    TrimmedOrTwice(item.description, f.description);
  }

  /** `updatePremium`: 404 for an unknown id, else the record is replaced by its update. */
  method UpdatePremium(db: Database, id: Id, f: PremiumFields, file: Option<UploadedFile>) returns (status: int)
    modifies db`premiums
    ensures match IndexWhere(old(db.premiums), (x: PremiumItem) => x.id == id)
            case None => status == 404 && db.premiums == old(db.premiums)
            case Some(k) => status == 200 && db.premiums == old(db.premiums)[k := UpdatedItem(old(db.premiums)[k], f, file)]
    ensures db.users == old(db.users) && db.problems == old(db.problems) && db.ledgers == old(db.ledgers)
    ensures db.payments == old(db.payments)
  {
    match IndexWhere(db.premiums, (x: PremiumItem) => x.id == id)
    case None =>
      status := 404;
    case Some(k) =>
      db.premiums := db.premiums[k := UpdatedItem(db.premiums[k], f, file)];
      status := 200;
  }

  // ---------------------------------------------------------------- delete

  /**
   * The id handed to the storage service's destroy call: the last '/'
   * piece of the URL cut at its first '.', or no call without a URL.
   */
  function DestroyTarget(fileUrl: Option<string>): (r: Option<string>)
    ensures r.Some? <==> Truthy(fileUrl)
    ensures r.Some? ==> '/' !in r.value && '.' !in r.value
  {
    if Truthy(fileUrl) then
      var last := Text.LastPiece(fileUrl.value, '/');
      var r := Text.FirstPiece(last, '.');
      assert forall c :: c in r ==> c in last by {
        assert Text.StartsWith(last, r);
        assert r == last[..|r|];
      }
      Some(r)
    else None
  }

  /** For a URL ending in "/<stem>.<ext>", the destroy id is the stem. */
  lemma DestroyTargetOfStem(prefix: string, stem: string, ext: string)
    requires '/' !in stem && '.' !in stem && '/' !in ext
    ensures DestroyTarget(Some(prefix + "/" + stem + "." + ext)) == Some(stem)
  {
    var url := prefix + "/" + stem + "." + ext;
    assert url == prefix + ['/'] + (stem + "." + ext);
    assert '/' !in stem + "." + ext by {
      assert forall i :: 0 <= i < |stem + "." + ext| ==> (stem + "." + ext)[i] != '/' by {
        forall i | 0 <= i < |stem + "." + ext|
          ensures (stem + "." + ext)[i] != '/'
        {
          if i < |stem| {
            assert (stem + "." + ext)[i] == stem[i];
          } else if i > |stem| {
            assert (stem + "." + ext)[i] == ext[i - |stem| - 1];
          }
        }
      }
    }
    Text.LastPieceAfter(prefix, '/', stem + "." + ext);
    assert stem + "." + ext == stem + ("." + ext);
    Text.FirstPieceBefore(stem, '.', "." + ext);
  }

  /**
   * For a URL rebuilt from a file name under "premium/", the destroy id
   * drops the folder: it is the name up to its first '.', with no '/'.
   */
  lemma DestroyTargetDropsFolder(cloud: string, resource: string, name: string)
    requires '/' !in name
    ensures DestroyTarget(Some(AssetUrls.CloudUrl(cloud, resource, "premium/" + name))) == Some(Text.FirstPiece(name, '.'))
  {
    var mid := AssetUrls.CloudHost + cloud + "/" + resource + "/upload/v1/";
    assert AssetUrls.CloudUrl(cloud, resource, "premium/" + name) == mid + ("premium/" + name);
    assert "premium/" + name == "premium" + ['/'] + name;
    assert mid + ("premium" + ['/'] + name) == (mid + "premium") + ['/'] + name;
    Text.LastPieceAfter(mid + "premium", '/', name);
  }

  /** The sequence without its element at `k`. */
  function RemoveAt<T>(s: seq<T>, k: nat): (r: seq<T>)
    requires k < |s|
    ensures |r| == |s| - 1
    ensures forall i :: 0 <= i < k ==> r[i] == s[i]
    ensures forall i :: k <= i < |r| ==> r[i] == s[i + 1]
  {
    s[..k] + s[k + 1..]
  }

  /** With distinct ids, the deleted id is gone and every other record stays. */
  lemma DeletedIdGone(s: seq<PremiumItem>, id: Id)
    requires AssetUrls.DistinctIds(s)
    requires IndexWhere(s, (x: PremiumItem) => x.id == id).Some?
    ensures var k := IndexWhere(s, (x: PremiumItem) => x.id == id).value;
            forall x :: x in RemoveAt(s, k) ==> x.id != id
    ensures var k := IndexWhere(s, (x: PremiumItem) => x.id == id).value;
            forall x :: x in s && x.id != id ==> x in RemoveAt(s, k)
  {
    var k := IndexWhere(s, (x: PremiumItem) => x.id == id).value;
    var r := RemoveAt(s, k);
    forall x | x in r
      ensures x.id != id
    {
      var i :| 0 <= i < |r| && r[i] == x;
      if i >= k {
        assert r[i] == s[i + 1];
      }
    }
    forall x | x in s && x.id != id
      ensures x in r
    {
      var i :| 0 <= i < |s| && s[i] == x;
      if i < k {
        assert r[i] == x;
      } else {
        assert i != k;
        assert r[i - 1] == x;
      }
    }
  }

  /**
   * `deletePremium`: 404 for an unknown id; otherwise the destroy id is
   * computed (a failing destroy is ignored) and the record is deleted.
   */
  method DeletePremium(db: Database, id: Id) returns (status: int, destroyed: Option<string>)
    modifies db`premiums
    ensures match IndexWhere(old(db.premiums), (x: PremiumItem) => x.id == id)
            case None => status == 404 && destroyed == None && db.premiums == old(db.premiums)
            case Some(k) => status == 200 && destroyed == DestroyTarget(old(db.premiums)[k].fileUrl)
                            && db.premiums == RemoveAt(old(db.premiums), k)
    ensures db.users == old(db.users) && db.problems == old(db.problems) && db.ledgers == old(db.ledgers)
    ensures db.payments == old(db.payments)
  {
    match IndexWhere(db.premiums, (x: PremiumItem) => x.id == id)
    case None =>
      status, destroyed := 404, None;
    case Some(k) =>
      destroyed := DestroyTarget(db.premiums[k].fileUrl);
      db.premiums := RemoveAt(db.premiums, k);
      status := 200;
  }

  // -------------------------------------------------------------- problems

  /**
   * `updateProblem`: 404 for an unknown id; otherwise the problem is
   * replaced by `change` applied to it (the request body's update).
   */
  method UpdateProblem(db: Database, id: Id, change: Problem -> Problem) returns (status: int)
    modifies db`problems
    ensures match ProblemById(old(db.problems), id)
            case None => status == 404 && db.problems == old(db.problems)
            case Some(k) => status == 200 && db.problems == old(db.problems)[k := change(old(db.problems)[k])]
    ensures db.users == old(db.users) && db.ledgers == old(db.ledgers)
    ensures db.premiums == old(db.premiums) && db.payments == old(db.payments)
  {
    match ProblemById(db.problems, id)
    case None =>
      status := 404;
    case Some(k) =>
      db.problems := db.problems[k := change(db.problems[k])];
      status := 200;
  }

  /** `deleteProblem`: 404 for an unknown id; otherwise the problem is removed. */
  method DeleteProblem(db: Database, id: Id) returns (status: int)
    modifies db`problems
    ensures match ProblemById(old(db.problems), id)
            case None => status == 404 && db.problems == old(db.problems)
            case Some(k) => status == 200 && db.problems == RemoveAt(old(db.problems), k)
    ensures db.users == old(db.users) && db.ledgers == old(db.ledgers)
    ensures db.premiums == old(db.premiums) && db.payments == old(db.payments)
  {
    match ProblemById(db.problems, id)
    case None =>
      status := 404;
    case Some(k) =>
      db.problems := RemoveAt(db.problems, k);
      status := 200;
  }
}
