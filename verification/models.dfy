/**
 * The stored records: users, problems and per-user progress ledgers, with
 * the defaults, enumerations and uniqueness rules their schemas declare.
 * Times are milliseconds since the epoch; ids are the documents' ObjectIds
 * as strings.
 */
module Models {
  import opened Wrappers
  import Text

  type Id = string

  // ---------------------------------------------------------------- users

  datatype Role = UserRole | AdminRole

  function RoleName(r: Role): string {
    match r
    case UserRole => "user"
    case AdminRole => "admin"
  }

  datatype User = User(
    id: Id,
    username: string,
    email: string,
    password: Option<string>,      // bcrypt hash; null for Google / GitHub accounts
    githubId: Option<string>,
    googleId: Option<string>,
    role: Role,
    isPremium: bool,
    joinedAt: int,
    profilePhoto: Option<string>,
    premiumPlan: Option<string>,
    premiumSince: Option<int>,
    lastPaymentId: Option<string>,
    lastOrderId: Option<string>,
    lastPaymentAmount: Option<int>,
    problemsSolved: int,
    totalSubmissions: int,
    successfulSubmissions: int,
    lastSolvedAt: Option<int>,
    streakDays: int,
    currentStreak: int)

  /**
   * A user document as the schema creates it: the username trimmed, the
   * email lower-cased, every statistic at zero, no premium, role "user".
   */
  function NewUser(id: Id, username: string, email: string, password: Option<string>,
                   googleId: Option<string>, now: int): (u: User)
    ensures u.username == Text.Trim(username) && Text.IsTrimmed(u.username)
    ensures u.email == Text.ToLower(email)
    ensures u.role == UserRole && !u.isPremium && u.joinedAt == now
    ensures u.problemsSolved == 0 && u.totalSubmissions == 0 && u.successfulSubmissions == 0
    ensures u.streakDays == 0 && u.currentStreak == 0 && u.lastSolvedAt == None
    ensures u.password == password && u.githubId == None && u.googleId == googleId
  {
    User(id, Text.Trim(username), Text.ToLower(email), password, None, googleId, UserRole, false, now,
         None, None, None, None, None, None, 0, 0, 0, None, 0, 0)
  }

  /**
   * The unique indexes: ids, usernames and emails are pairwise distinct;
   * googleId and githubId are distinct only among the users that have one
   * (sparse indexes).
   */
  ghost predicate UniqueUsers(users: seq<User>) {
    forall i, j :: 0 <= i < j < |users| ==>
      && users[i].id != users[j].id
      && users[i].username != users[j].username
      && users[i].email != users[j].email
      && (users[i].googleId.Some? ==> users[i].googleId != users[j].googleId)
      && (users[i].githubId.Some? ==> users[i].githubId != users[j].githubId)
  }

  /** Whether inserting `u` passes the unique indexes. */
  predicate Insertable(users: seq<User>, u: User) {
    forall i :: 0 <= i < |users| ==>
      && users[i].id != u.id
      && users[i].username != u.username
      && users[i].email != u.email
      && (u.googleId.Some? ==> users[i].googleId != u.googleId)
      && (u.githubId.Some? ==> users[i].githubId != u.githubId)
  }

  /** An insertion the unique indexes accept keeps them satisfied. */
  lemma InsertKeepsUnique(users: seq<User>, u: User)
    requires UniqueUsers(users) && Insertable(users, u)
    ensures UniqueUsers(users + [u])
  {
  }

  // ------------------------------------------------------------- problems

  datatype Difficulty = Easy | Medium | Hard

  function DifficultyName(d: Difficulty): string {
    match d
    case Easy => "Easy"
    case Medium => "Medium"
    case Hard => "Hard"
  }

  /** The schema's enum check on the difficulty string; an absent value takes the default Easy. */
  function ParseDifficulty(s: Option<string>): (r: Option<Difficulty>)
    ensures s.None? ==> r == Some(Easy)
    ensures s.Some? ==> (r.Some? <==> s.value in {"Easy", "Medium", "Hard"})
    ensures r.Some? && s.Some? ==> DifficultyName(r.value) == s.value
  {
    match s
    case None => Some(Easy)
    case Some(name) =>
      if name == "Easy" then Some(Easy)
      else if name == "Medium" then Some(Medium)
      else if name == "Hard" then Some(Hard)
      else None
  }

  datatype TestCase = TestCase(input: string, expectedOutput: string)

  /** A stored example; the example schema requires none of its fields, so each may be absent. */
  datatype Example = Example(input: Option<string>, output: Option<string>, explanation: Option<string>)

  datatype Problem = Problem(
    id: Id,
    title: string,
    functionName: string,
    inputSignature: string,
    description: string,
    difficulty: Difficulty,
    tags: seq<string>,
    examples: seq<Example>,
    constraints: Option<string>,
    solution: Option<string>,
    testCases: seq<TestCase>,
    createdAt: int)

  /** The fields of a problem as a request body carries them; None is an absent field. */
  datatype ProblemFields = ProblemFields(
    title: Option<string>,
    functionName: Option<string>,
    inputSignature: Option<string>,
    description: Option<string>,
    difficulty: Option<string>,
    tags: Option<seq<string>>,
    examples: seq<Example>,
    constraints: Option<string>,
    solution: Option<string>,
    testCases: seq<TestCase>)

  /** The test-case schema requires both fields; an empty string fails `required`. */
  predicate CompleteTestCases(tcs: seq<TestCase>) {
    forall i :: 0 <= i < |tcs| ==> tcs[i].input != "" && tcs[i].expectedOutput != ""
  }

  /**
   * Schema validation and defaults when a problem document is created:
   * title and description are required (an empty string fails `required`),
   * so are both fields of every test case,
   * difficulty must be one of the enum and defaults to Easy, functionName
   * defaults to "solve", inputSignature to "string" and tags to [].
   * A default applies only to an absent field, never to "".
   */
  function CreateProblem(id: Id, f: ProblemFields, now: int): (r: Option<Problem>)
    ensures r.Some? <==> Truthy(f.title) && Truthy(f.description) && ParseDifficulty(f.difficulty).Some?
                         && CompleteTestCases(f.testCases)
    ensures r.Some? ==> r.value.title == f.title.value && r.value.description == f.description.value
    ensures r.Some? ==> r.value.functionName == f.functionName.GetOr("solve")
    ensures r.Some? ==> r.value.inputSignature == f.inputSignature.GetOr("string")
    ensures r.Some? ==> r.value.tags == f.tags.GetOr([])
    ensures r.Some? ==> r.value.testCases == f.testCases
    ensures r.Some? && f.difficulty.None? ==> r.value.difficulty == Easy
  {
    if !Truthy(f.title) || !Truthy(f.description) || !CompleteTestCases(f.testCases) then None
    else match ParseDifficulty(f.difficulty)
      case None => None
      case Some(d) =>
        Some(Problem(id, f.title.value, f.functionName.GetOr("solve"), f.inputSignature.GetOr("string"),
                     f.description.value, d, f.tags.GetOr([]), f.examples, f.constraints, f.solution,
                     f.testCases, now))
  }

  /** A test case with an empty input makes the whole problem invalid. */
  lemma EmptyTestInputRefused(id: Id, now: int)
    ensures CreateProblem(id, ProblemFields(Some("t"), None, None, Some("d"), None, None, [], None, None,
                                            [TestCase("", "1")]), now).None?
  {
    var tcs := [TestCase("", "1")];
    assert tcs[0].input == "";
    assert !CompleteTestCases(tcs);
  }

  /** Titles are unique across the problem collection. */
  ghost predicate UniqueTitles(problems: seq<Problem>) {
    forall i, j :: 0 <= i < j < |problems| ==> problems[i].title != problems[j].title
  }

  /**
   * `addProblem`: the created document is inserted unless its title is
   * already taken, which the unique index refuses; any refusal is a 500.
   */
  function AddProblem(problems: seq<Problem>, id: Id, f: ProblemFields, now: int): (r: Option<seq<Problem>>)
    ensures r.Some? <==> CreateProblem(id, f, now).Some? && forall p :: p in problems ==> p.title != f.title.value
    ensures r.Some? ==> |r.value| == |problems| + 1 && r.value[..|problems|] == problems
                        && r.value[|problems|] == CreateProblem(id, f, now).value
    ensures r.Some? && UniqueTitles(problems) ==> UniqueTitles(r.value)
  {
    match CreateProblem(id, f, now)
    case None => None
    case Some(p) =>
      if exists q :: q in problems && q.title == p.title then None
      else Some(problems + [p])
  }

  // ------------------------------------------------------ progress ledger

  /** Per-problem bookkeeping inside a ledger. */
  datatype Attempt = Attempt(
    problemId: Id,
    attempts: int,
    firstSolvedAt: int,
    lastAttemptAt: int,
    bestTime: Option<int>,      // milliseconds
    language: Option<string>)

  /** The per-user progress document (collection UserProgress). */
  datatype Ledger = Ledger(
    userId: Id,
    solvedProblems: seq<Id>,
    problemAttempts: seq<Attempt>,
    totalSubmissions: int,
    successfulSubmissions: int,
    updatedAt: int)

  /** An attempt record with the schema's defaults: one attempt, no best time, no language. */
  function NewAttempt(problemId: Id, now: int): (a: Attempt)
    ensures a.problemId == problemId && a.attempts == 1
    ensures a.bestTime == None && a.language == None
    ensures a.firstSolvedAt == now && a.lastAttemptAt == now
  {
    Attempt(problemId, 1, now, now, None, None)
  }

  /** A fresh ledger: nothing solved, no attempts, both counters at zero. */
  function NewLedger(userId: Id, now: int): (l: Ledger)
    ensures l.userId == userId && l.solvedProblems == [] && l.problemAttempts == []
    ensures l.totalSubmissions == 0 && l.successfulSubmissions == 0
  {
    Ledger(userId, [], [], 0, 0, now)
  }

  // ------------------------------------------------------ premium assets

  /**
   * A premium asset as stored in the Premium collection, or (when
   * isPremiumContent holds) a legacy asset kept in the Payment collection.
   */
  datatype PremiumItem = PremiumItem(
    id: Id,
    name: string,
    description: string,
    category: string,
    difficulty: string,
    fileUrl: Option<string>,
    fileName: Option<string>,
    fileSize: Option<int>,
    fileType: Option<string>,
    uploadedBy: Id,
    isPremiumContent: bool)
}
