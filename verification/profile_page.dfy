/**
 * The profile page: whose profile is requested, who may upload a photo,
 * the client-side photo checks, and the fallbacks used when the statistics
 * reply lacks a block. The reply shown may be the signed-in user's own
 * statistics rather than the requested user's: the page prefers that
 * reply whenever it carries difficulty statistics.
 */
module ProfilePage {
  import opened Wrappers
  import opened Models
  import Text
  import Stats
  import Uploads

  // ------------------------------------------------------------ the target

  /** `username || user`: the route's username, else the logged-in user. */
  function TargetUsername(route: Option<string>, user: Option<string>): (r: Option<string>)
    ensures Truthy(route) ==> r == route
    ensures !Truthy(route) ==> r == user
  {
    if Truthy(route) then route else user
  }

  /** Statistics are fetched only for a target. */
  predicate FetchesStats(route: Option<string>, user: Option<string>) {
    Truthy(TargetUsername(route, user))
  }

  /** `targetUsername === user`: the upload button is shown. */
  predicate ShowsUploadButton(route: Option<string>, user: Option<string>) {
    TargetUsername(route, user) == user
  }

  /**
   * The upload button appears exactly on one's own profile: when the route
   * names the logged-in user, or names nobody.
   */
  lemma UploadButtonOwnProfile(route: Option<string>, user: Option<string>)
    ensures ShowsUploadButton(route, user) <==> !Truthy(route) || route == user
    ensures Truthy(user) ==> FetchesStats(route, user)
  {
  }

  // ----------------------------------------------------------- photo checks

  /** 5 MB, the largest profile photo the page sends. */
  const MaxPhotoBytes: int := 5 * 1024 * 1024

  datatype SelectedFile = SelectedFile(mimeType: string, size: int)

  datatype PhotoDecision = NoUpload | PhotoRejected(message: string) | Upload(file: SelectedFile)

  /** `handleFileSelect`: nothing without a file; an image type, then at most 5 MB. */
  function HandleFileSelect(file: Option<SelectedFile>): (r: PhotoDecision)
    ensures file.None? ==> r == NoUpload
    ensures r.Upload? <==> file.Some? && Text.StartsWith(file.value.mimeType, "image/") && file.value.size <= MaxPhotoBytes
    ensures r.Upload? ==> r.file == file.value
    ensures file.Some? && !Text.StartsWith(file.value.mimeType, "image/") ==>
              r == PhotoRejected("Please select an image file")
    ensures file.Some? && Text.StartsWith(file.value.mimeType, "image/") && file.value.size > MaxPhotoBytes ==>
              r == PhotoRejected("Image size should be less than 5MB")
  {
    match file
    case None => NoUpload
    case Some(f) =>
      if !Text.StartsWith(f.mimeType, "image/") then PhotoRejected("Please select an image file")
      else if f.size > MaxPhotoBytes then PhotoRejected("Image size should be less than 5MB")
      else Upload(f)
  }

  /** The size limit is inclusive: exactly 5 MB is sent. */
  lemma PhotoSizeBoundary(mimeType: string)
    requires Text.StartsWith(mimeType, "image/")
    ensures HandleFileSelect(Some(SelectedFile(mimeType, MaxPhotoBytes))).Upload?
    ensures HandleFileSelect(Some(SelectedFile(mimeType, MaxPhotoBytes + 1))).PhotoRejected?
  {
  }

  /**
   * A photo the page sends always passes the server's size test, so the
   * server decides on its type alone: it accepts the photo exactly when
   * the type is on its allowlist.
   */
  lemma SentPhotoServerDecision(file: SelectedFile)
    requires HandleFileSelect(Some(file)).Upload?
    ensures Uploads.FileFilter(Some(file.size), file.mimeType).FilterAccepted? <==> file.mimeType in Uploads.AllowedTypes
    ensures !(file.mimeType in Uploads.AllowedTypes) ==>
              Uploads.FileFilter(Some(file.size), file.mimeType) == Uploads.FilterRejected(Uploads.TypeMessage)
  {
  }

  /** An SVG image of any size the page sends is turned away by the server's type allowlist. */
  lemma SvgSentButRejected(size: int)
    requires 0 <= size <= MaxPhotoBytes
    ensures HandleFileSelect(Some(SelectedFile("image/svg+xml", size))).Upload?
    ensures Uploads.FileFilter(Some(size), "image/svg+xml") == Uploads.FilterRejected(Uploads.TypeMessage)
  {
    assert "image/svg+xml"[..6] == "image/";
    assert forall i :: 0 <= i < |Uploads.AllowedTypes| ==> |Uploads.AllowedTypes[i]| != |"image/svg+xml"|;
  }

  // ------------------------------------------------------------- fallbacks

  datatype StatsBlock = StatsBlock(problemsSolved: int, totalSubmissions: int, successfulSubmissions: int,
                                   successRateTenths: int, currentStreak: int, streakDays: int)

  datatype ProgressBlock = ProgressBlock(totalProblems: int, difficultyStats: map<Difficulty, nat>,
                                         recentProblems: seq<Problem>)

  /** The statistics reply as the page reads it: each block may be absent. */
  datatype StatsReply = StatsReply(stats: Option<StatsBlock>, progress: Option<ProgressBlock>)

  const ZeroStats := StatsBlock(0, 0, 0, 0, 0, 0)
  const EmptyProgress := ProgressBlock(0, map[], [])

  /** The reply the statistics endpoint sends for a report. */
  function ReplyOf(r: Stats.Report): StatsReply {
    StatsReply(Some(StatsBlock(r.problemsSolved, r.totalSubmissions, r.successfulSubmissions,
                               r.successRateTenths, r.currentStreak, r.streakDays)),
               Some(ProgressBlock(r.totalProblems, r.difficultyStats, r.recentProblems)))
  }

  /** `userStats?.stats || {…zeros}` and `userStats?.progress || {…empty}`. */
  function Displayed(reply: StatsReply): (r: (StatsBlock, ProgressBlock))
    ensures reply.stats.None? ==> r.0 == ZeroStats
    ensures reply.progress.None? ==> r.1 == EmptyProgress
    ensures reply.stats.Some? ==> r.0 == reply.stats.value
    ensures reply.progress.Some? ==> r.1 == reply.progress.value
  {
    (reply.stats.GetOr(ZeroStats), reply.progress.GetOr(EmptyProgress))
  }

  /** `progress.difficultyStats?.[d] || 0`. */
  function Shown(p: ProgressBlock, d: Difficulty): nat {
    Stats.TallyOf(p.difficultyStats, d)
  }

  /**
   * The three difficulty counts on the page add up to the solved count it
   * shows, both for a report the server sends and for the fallbacks.
   */
  lemma ShownCountsAddUp(u: User, solved: seq<Problem>, served: bool)
    ensures var reply := if served then ReplyOf(Stats.ReportOn(u, solved)) else StatsReply(None, None);
            var (s, p) := Displayed(reply);
            Shown(p, Easy) + Shown(p, Medium) + Shown(p, Hard) == s.problemsSolved
  {
    if served {
      Stats.TallySum(solved);
    }
  }
}
