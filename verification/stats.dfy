/**
 * The read side of the progress controller: the solved-problem lists, the
 * statistics report (`getUserStats`) with its success rate, difficulty
 * tally, achievements and recent list, and the resynchronisation of a
 * user's counters from their ledger (`fixUserStats`).
 */
module Stats {
  import opened Wrappers
  import opened Models
  import Text
  import opened Store
  import opened Progress

  // ---------------------------------------------------- solved-problem lists

  datatype ListOutcome =
    | ListMissingParam          // 400
    | ListUserNotFound          // 404
    | Listed(solvedProblems: seq<Problem>)

  /** The populated solved list of the user's ledger, or [] without one. */
  function SolvedOf(problems: seq<Problem>, ledgers: seq<Ledger>, userId: Id): (r: seq<Problem>)
    ensures LedgerOf(ledgers, userId).None? ==> r == []
    ensures forall p :: p in r ==> p in problems
  {
    match LedgerOf(ledgers, userId)
    case Some(k) => Populate(ledgers[k].solvedProblems, problems)
    case None => []
  }

  /** `getSolvedProblems`: by user id. */
  function SolvedProblems(problems: seq<Problem>, ledgers: seq<Ledger>, userId: Option<Id>): (r: ListOutcome)
    ensures r == ListMissingParam <==> !Truthy(userId)
    ensures r.Listed? ==> r.solvedProblems == SolvedOf(problems, ledgers, userId.value)
    ensures !r.ListUserNotFound?
  {
    if !Truthy(userId) then ListMissingParam else Listed(SolvedOf(problems, ledgers, userId.value))
  }

  /** `getSolvedProblemsByUsername`: by username, else by email. */
  function SolvedProblemsByName(users: seq<User>, problems: seq<Problem>, ledgers: seq<Ledger>, name: Option<string>): (r: ListOutcome)
    ensures r == ListMissingParam <==> !Truthy(name)
    ensures r == ListUserNotFound <==> Truthy(name) && UserByNameOrEmail(users, name.value).None?
  {
    if !Truthy(name) then ListMissingParam
    else match UserByNameOrEmail(users, name.value)
      case None => ListUserNotFound
      case Some(i) => Listed(SolvedOf(problems, ledgers, users[i].id))
  }

  /** Listing by name is listing by the id of the user the name resolves to. */
  lemma ByNameIsById(users: seq<User>, problems: seq<Problem>, ledgers: seq<Ledger>, name: string)
    requires name != "" && UserByNameOrEmail(users, name).Some?
    ensures var i := UserByNameOrEmail(users, name).value;
            users[i].id != "" ==>
              SolvedProblemsByName(users, problems, ledgers, Some(name)) == SolvedProblems(problems, ledgers, Some(users[i].id))
  {
  }

  /** A reference to an existing problem survives population. */
  lemma {:induction false} PopulateKeeps(ids: seq<Id>, problems: seq<Problem>, k: nat)
    requires k < |ids| && ProblemById(problems, ids[k]).Some?
    ensures problems[ProblemById(problems, ids[k]).value] in Populate(ids, problems)
  {
    if k > 0 {
      PopulateKeeps(ids[1..], problems, k - 1);
    }
  }

  /** After a recorded solve, the problem is in the user's solved list. */
  lemma SolvedAfterSolve(users: seq<User>, problems: seq<Problem>, ledgers: seq<Ledger>, req: SolveRequest, now: int)
    requires Solve(users, problems, ledgers, req, now).outcome.Recorded?
    ensures var r := Solve(users, problems, ledgers, req, now);
            var i := ResolveUser(users, req).value;
            problems[ProblemById(problems, req.problemId.value).value] in SolvedOf(problems, r.ledgers, r.users[i].id)
  {
    SolveAccepted(users, problems, ledgers, req, now);
    var r := Solve(users, problems, ledgers, req, now);
    var i := ResolveUser(users, req).value;
    var id := users[i].id;
    var found := LedgerOf(ledgers, id);
    var l := r.outcome.progress;
    if found.Some? {
      LedgerOfUpdate(ledgers, found.value, l, id);
    } else {
      LedgerOfAppend(ledgers, l, id);
    }
    var k := LedgerOf(r.ledgers, id).value;
    assert r.ledgers[k] == l;
    var pid := req.problemId.value;
    assert pid in l.solvedProblems;
    var j :| 0 <= j < |l.solvedProblems| && l.solvedProblems[j] == pid;
    PopulateKeeps(l.solvedProblems, problems, j);
  }

  // ------------------------------------------------------------ success rate

  /**
   * `parseFloat(((successful / total) * 100).toFixed(1))` in tenths of a
   * percent, rounding halves up; 0 when there are no submissions.
   */
  function RateTenths(successful: int, total: int): (r: int)
    ensures total <= 0 ==> r == 0
    ensures total > 0 ==> r * (2 * total) <= 2000 * successful + total < (r + 1) * (2 * total)
  {
    if total > 0 then (2000 * successful + total) / (2 * total) else 0
  }

  /**
   * The rate reaches `tenths` exactly when the true ratio is at least half a
   * tenth below it: 80% is reached from 79.95% on.
   */
  lemma {:induction false} RateAtLeast(successful: int, total: int, tenths: int)
    requires total > 0
    ensures RateTenths(successful, total) >= tenths <==> 2000 * successful + total >= tenths * (2 * total)
  {
    var r := RateTenths(successful, total);
    var d := 2 * total;
    if r >= tenths {
      MulMonotone(tenths, r, d);
    } else {
      MulMonotone(r + 1, tenths, d);
    }
  }

  /** Multiplying by a non-negative number keeps the order. */
  lemma MulMonotone(a: int, b: int, d: int)
    requires a <= b && d >= 0
    ensures a * d <= b * d
  {
    assert b * d - a * d == (b - a) * d;
  }

  /**
   * Only repeat solves add to totalSubmissions, so the rate can exceed 100%:
   * two first solves and one repeat give 200%.
   */
  lemma RateAboveHundred(u: User, t1: int, t2: int, t3: int)
    requires u.successfulSubmissions == 0 && u.totalSubmissions == 0
    ensures var u' := RepeatUser(FirstSolveUser(FirstSolveUser(u, t1), t2));
            && u'.successfulSubmissions == 2 && u'.totalSubmissions == 1
            && RateTenths(u'.successfulSubmissions, u'.totalSubmissions) == 2000
  {
  }

  // ------------------------------------------------------- difficulty tally

  /** The `difficultyStats` object after counting `ps` in order. */
  function Tally(ps: seq<Problem>): (r: map<Difficulty, nat>)
    ensures forall d :: d in r ==> 0 < r[d] <= |ps|
    ensures forall k :: 0 <= k < |ps| ==> ps[k].difficulty in r
  {
    if ps == [] then map[]
    else
      var m := Tally(ps[..|ps| - 1]);
      var d := ps[|ps| - 1].difficulty;
      m[d := (if d in m then m[d] else 0) + 1]
  }

  /** How many problems of `ps` have difficulty `d`. */
  function CountDifficulty(ps: seq<Problem>, d: Difficulty): (n: nat)
    ensures n <= |ps|
  {
    if ps == [] then 0
    else CountDifficulty(ps[..|ps| - 1], d) + (if ps[|ps| - 1].difficulty == d then 1 else 0)
  }

  /**
   * The tally has a key exactly for the difficulties that occur, holding
   * their number of occurrences.
   */
  lemma {:induction false} TallyCounts(ps: seq<Problem>)
    ensures forall d :: d in Tally(ps) <==> CountDifficulty(ps, d) > 0
    ensures forall d :: d in Tally(ps) ==> Tally(ps)[d] == CountDifficulty(ps, d)
  {
    if ps != [] {
      TallyCounts(ps[..|ps| - 1]);
    }
  }

  /** The three counts add up to the number of solved problems. */
  lemma {:induction false} CountsSum(ps: seq<Problem>)
    ensures CountDifficulty(ps, Easy) + CountDifficulty(ps, Medium) + CountDifficulty(ps, Hard) == |ps|
  {
    if ps != [] {
      CountsSum(ps[..|ps| - 1]);
    }
  }

  /** The value of a tally key, 0 when absent (`difficultyStats[d] || 0`). */
  function TallyOf(m: map<Difficulty, nat>, d: Difficulty): nat {
    if d in m then m[d] else 0
  }

  /** Each solved problem is counted once, so the tally adds up to the number of solved problems. */
  lemma TallySum(ps: seq<Problem>)
    ensures TallyOf(Tally(ps), Easy) + TallyOf(Tally(ps), Medium) + TallyOf(Tally(ps), Hard) == |ps|
  {
    TallyCounts(ps);
    CountsSum(ps);
  }

  // ------------------------------------------------------------ achievements

  /** The eleven achievements, in the order the controller pushes them. */
  datatype Achievement =
    | FirstProblem | GettingStarted | ProblemSolver | CodeWarrior | AlgorithmMaster | CodingLegend
    | StreakStarter | WeekWarrior | MonthlyMaster
    | HighAchiever | Perfectionist

  /** The `name` and `description` the response carries for an achievement (`unlocked` is always true). */
  function Label(a: Achievement): (string, string) {
    match a
    case FirstProblem => ("First Problem", "Solved your first problem")
    case GettingStarted => ("Getting Started", "Solved 5 problems")
    case ProblemSolver => ("Problem Solver", "Solved 10 problems")
    case CodeWarrior => ("Code Warrior", "Solved 25 problems")
    case AlgorithmMaster => ("Algorithm Master", "Solved 50 problems")
    case CodingLegend => ("Coding Legend", "Solved 100 problems")
    case StreakStarter => ("Streak Starter", "3-day solving streak")
    case WeekWarrior => ("Week Warrior", "7-day solving streak")
    case MonthlyMaster => ("Monthly Master", "30-day solving streak")
    case HighAchiever => ("High Achiever", "80%+ success rate")
    case Perfectionist => ("Perfectionist", "95%+ success rate")
  }

  datatype Metric = SolvedCount | StreakLength | RateTenthsMetric

  /** What an achievement measures and the threshold it must reach. */
  function Rule(a: Achievement): (Metric, int) {
    match a
    case FirstProblem => (SolvedCount, 1)
    case GettingStarted => (SolvedCount, 5)
    case ProblemSolver => (SolvedCount, 10)
    case CodeWarrior => (SolvedCount, 25)
    case AlgorithmMaster => (SolvedCount, 50)
    case CodingLegend => (SolvedCount, 100)
    case StreakStarter => (StreakLength, 3)
    case WeekWarrior => (StreakLength, 7)
    case MonthlyMaster => (StreakLength, 30)
    case HighAchiever => (RateTenthsMetric, 800)
    case Perfectionist => (RateTenthsMetric, 950)
  }

  function Measure(m: Metric, solved: int, streak: int, rate: int): int {
    match m
    case SolvedCount => solved
    case StreakLength => streak
    case RateTenthsMetric => rate
  }

  /** Whether an achievement's measure reaches its threshold. */
  predicate Earned(a: Achievement, solved: int, streak: int, rate: int) {
    Measure(Rule(a).0, solved, streak, rate) >= Rule(a).1
  }

  /** The first six pushes: solved-count achievements. */
  function SolvedBadges(solved: int): seq<Achievement> {
    (if solved >= 1 then [FirstProblem] else [])
    + (if solved >= 5 then [GettingStarted] else [])
    + (if solved >= 10 then [ProblemSolver] else [])
    + (if solved >= 25 then [CodeWarrior] else [])
    + (if solved >= 50 then [AlgorithmMaster] else [])
    + (if solved >= 100 then [CodingLegend] else [])
  }

  /** The next three: streak achievements. */
  function StreakBadges(streak: int): seq<Achievement> {
    (if streak >= 3 then [StreakStarter] else [])
    + (if streak >= 7 then [WeekWarrior] else [])
    + (if streak >= 30 then [MonthlyMaster] else [])
  }

  /** The last two: success-rate achievements. */
  function RateBadges(rate: int): seq<Achievement> {
    (if rate >= 800 then [HighAchiever] else [])
    + (if rate >= 950 then [Perfectionist] else [])
  }

  /** The controller's eleven `if … push` statements, in order. */
  function Achievements(solved: int, streak: int, rate: int): (r: seq<Achievement>)
    ensures |r| <= 11
    ensures r == [] <==> solved < 1 && streak < 3 && rate < 800
    ensures |r| == 11 <==> solved >= 100 && streak >= 30 && rate >= 950
  {
    SolvedBadges(solved) + StreakBadges(streak) + RateBadges(rate)
  }

  lemma SolvedBadgesIff(solved: int, a: Achievement)
    ensures a in SolvedBadges(solved) <==> Rule(a).0 == SolvedCount && solved >= Rule(a).1
  {
  }

  lemma StreakBadgesIff(streak: int, a: Achievement)
    ensures a in StreakBadges(streak) <==> Rule(a).0 == StreakLength && streak >= Rule(a).1
  {
  }

  lemma RateBadgesIff(rate: int, a: Achievement)
    ensures a in RateBadges(rate) <==> Rule(a).0 == RateTenthsMetric && rate >= Rule(a).1
  {
  }

  /**
   * An achievement is in the list exactly when its measure reaches its
   * threshold: solved count 1/5/10/25/50/100, streak 3/7/30, rate 80%/95%.
   */
  lemma AchievementIff(solved: int, streak: int, rate: int, a: Achievement)
    ensures a in Achievements(solved, streak, rate) <==> Earned(a, solved, streak, rate)
  {
    SolvedBadgesIff(solved, a);
    StreakBadgesIff(streak, a);
    RateBadgesIff(rate, a);
  }

  /** More solves, a longer streak or a better rate never lose an achievement. */
  lemma AchievementsMonotone(s: int, t: int, r: int, s': int, t': int, r': int)
    requires s <= s' && t <= t' && r <= r'
    ensures forall a :: a in Achievements(s, t, r) ==> a in Achievements(s', t', r')
  {
    forall a | a in Achievements(s, t, r)
      ensures a in Achievements(s', t', r')
    {
      AchievementIff(s, t, r, a);
      AchievementIff(s', t', r', a);
    }
  }

  // ------------------------------------------------------------------ report

  /** `slice(-n)`: the last n elements, or all of them when there are fewer. */
  function LastN<T>(s: seq<T>, n: nat): (r: seq<T>)
    ensures |r| == if |s| < n then |s| else n
    ensures s == s[..|s| - |r|] + r
  {
    if |s| <= n then s else s[|s| - n..]
  }

  datatype Profile = Profile(username: string, email: string, joinedAt: int, isPremium: bool, profilePhoto: Option<string>)

  datatype Report = Report(
    profile: Profile,
    problemsSolved: nat,             // the populated solved count, not the user's counter
    totalSubmissions: int,
    successfulSubmissions: int,
    successRateTenths: int,
    currentStreak: int,
    streakDays: int,
    lastSolvedAt: Option<int>,
    totalProblems: nat,
    difficultyStats: map<Difficulty, nat>,
    recentProblems: seq<Problem>,
    achievements: seq<Achievement>)

  datatype StatsOutcome =
    | StatsMissingName              // 400
    | StatsUserNotFound             // 404
    | Stats(report: Report)

  /** The report on a user whose populated solved list is `solved`. */
  function ReportOn(u: User, solved: seq<Problem>): Report {
    var rate := RateTenths(u.successfulSubmissions, u.totalSubmissions);
    Report(Profile(u.username, u.email, u.joinedAt, u.isPremium, u.profilePhoto),
           |solved|, u.totalSubmissions, u.successfulSubmissions, rate, u.currentStreak, u.streakDays,
           u.lastSolvedAt, |solved|, Tally(solved), LastN(solved, 5),
           Achievements(|solved|, u.currentStreak, rate))
  }

  /** `getUserStats` on the collections. */
  function UserStatsOf(users: seq<User>, problems: seq<Problem>, ledgers: seq<Ledger>, name: Option<string>): (r: StatsOutcome)
    ensures r == StatsMissingName <==> !Truthy(name)
    ensures r == StatsUserNotFound <==> Truthy(name) && UserByNameOrEmail(users, name.value).None?
  {
    if !Truthy(name) then StatsMissingName
    else match UserByNameOrEmail(users, name.value)
      case None => StatsUserNotFound
      case Some(i) => Stats(ReportOn(users[i], SolvedOf(problems, ledgers, users[i].id)))
  }

  /** The counting loop of the controller: one solved problem at a time, in order. */
  method CountDifficulties(solved: seq<Problem>) returns (difficultyStats: map<Difficulty, nat>)
    ensures difficultyStats == Tally(solved)
  {
    difficultyStats := map[];
    var k := 0;
    while k < |solved|
      invariant 0 <= k <= |solved|
      invariant difficultyStats == Tally(solved[..k])
    {
      var d := solved[k].difficulty;
      difficultyStats := difficultyStats[d := (if d in difficultyStats then difficultyStats[d] else 0) + 1];
      k := k + 1;
      assert solved[..k][..k - 1] == solved[..k - 1];
    }
    assert solved[..k] == solved;
  }

  /**
   * The controller: resolve the user, populate the ledger, compute the
   * rate, count the difficulties one solved problem at a time, push the
   * achievements. It writes nothing.
   */
  method GetUserStats(db: Database, name: Option<string>) returns (outcome: StatsOutcome)
    ensures outcome == UserStatsOf(db.users, db.problems, db.ledgers, name)
  {
    if !Truthy(name) {
      return StatsMissingName;
    }
    var found := UserByNameOrEmail(db.users, name.value);
    if found.None? {
      return StatsUserNotFound;
    }
    var user := db.users[found.value];
    var solved := SolvedOf(db.problems, db.ledgers, user.id);
    var totalProblems := |solved|;
    var rate := RateTenths(user.successfulSubmissions, user.totalSubmissions);

    var difficultyStats := CountDifficulties(solved);

    var achievements := Achievements(totalProblems, user.currentStreak, rate);
    outcome := Stats(Report(Profile(user.username, user.email, user.joinedAt, user.isPremium, user.profilePhoto),
                            totalProblems, user.totalSubmissions, user.successfulSubmissions, rate,
                            user.currentStreak, user.streakDays, user.lastSolvedAt,
                            totalProblems, difficultyStats, LastN(solved, 5), achievements));
  }

  /**
   * What a report promises: problemsSolved and totalProblems are the
   * populated solved count, the tally adds up to it, the rate is 0 without
   * submissions, the recent list is the last (at most) five solved problems,
   * and every badge is one whose threshold is reached.
   */
  lemma ReportFacts(u: User, solved: seq<Problem>)
    ensures var r := ReportOn(u, solved);
            && r.problemsSolved == r.totalProblems == |solved|
            && TallyOf(r.difficultyStats, Easy) + TallyOf(r.difficultyStats, Medium) + TallyOf(r.difficultyStats, Hard) == |solved|
            && (u.totalSubmissions <= 0 ==> r.successRateTenths == 0)
            && |r.recentProblems| == (if |solved| < 5 then |solved| else 5)
            && solved == solved[..|solved| - |r.recentProblems|] + r.recentProblems
            && forall a :: a in r.achievements <==> Earned(a, |solved|, u.currentStreak, r.successRateTenths)
  {
    TallySum(solved);
    forall a
      ensures a in ReportOn(u, solved).achievements <==>
                Earned(a, |solved|, u.currentStreak, RateTenths(u.successfulSubmissions, u.totalSubmissions))
    {
      AchievementIff(|solved|, u.currentStreak, RateTenths(u.successfulSubmissions, u.totalSubmissions), a);
    }
  }

  /**
   * With a consistent database and no solved problem deleted, the reported
   * solved count is the user's own problemsSolved counter.
   */
  lemma ReportedCountIsCounter(users: seq<User>, problems: seq<Problem>, ledgers: seq<Ledger>, i: nat)
    requires Consistent(users, ledgers) && i < |users|
    requires LedgerOf(ledgers, users[i].id).Some? ==>
               forall id :: id in ledgers[LedgerOf(ledgers, users[i].id).value].solvedProblems ==> ProblemById(problems, id).Some?
    ensures |SolvedOf(problems, ledgers, users[i].id)| == users[i].problemsSolved
  {
    match LedgerOf(ledgers, users[i].id)
    case Some(k) =>
      var ids := ledgers[k].solvedProblems;
      assert forall j :: 0 <= j < |ids| ==> ProblemById(problems, ids[j]).Some?;
    case None =>
  }

  // ----------------------------------------------------------------- fixing

  datatype Counters = Counters(problemsSolved: int, totalSubmissions: int, successfulSubmissions: int)

  datatype FixOutcome =
    | FixUserNotFound               // 404
    | NoProgress                    // "No progress found for user"
    | Fixed(oldStats: Counters, newStats: Counters)

  datatype FixResult = FixResult(users: seq<User>, outcome: FixOutcome)

  /** The user's counters copied from their ledger and its populated solved count. */
  function Resynced(u: User, l: Ledger, solvedCount: nat): (r: User)
    ensures r == u.(problemsSolved := r.problemsSolved, totalSubmissions := r.totalSubmissions,
                    successfulSubmissions := r.successfulSubmissions)
    ensures r.problemsSolved == solvedCount
    ensures r.totalSubmissions == l.totalSubmissions && r.successfulSubmissions == l.successfulSubmissions
  {
    u.(problemsSolved := solvedCount, totalSubmissions := l.totalSubmissions,
       successfulSubmissions := l.successfulSubmissions)
  }

  /** `fixUserStats` on the collections; `name` is the route parameter. */
  function Fix(users: seq<User>, problems: seq<Problem>, ledgers: seq<Ledger>, name: string): (r: FixResult)
    ensures !r.outcome.Fixed? ==> r.users == users
    ensures r.outcome == FixUserNotFound <==> UserByNameOrEmail(users, name).None?
    ensures r.outcome.Fixed? ==> r.outcome.oldStats == r.outcome.newStats
    ensures |r.users| == |users|
    ensures r.outcome == NoProgress <==>
              UserByNameOrEmail(users, name).Some? && LedgerOf(ledgers, users[UserByNameOrEmail(users, name).value].id).None?
    ensures r.outcome.Fixed? ==>
              && UserByNameOrEmail(users, name).Some?
              && var i := UserByNameOrEmail(users, name).value;
                 && LedgerOf(ledgers, users[i].id).Some?
                 && var l := ledgers[LedgerOf(ledgers, users[i].id).value];
                    && r.users == users[i := Resynced(users[i], l, |Populate(l.solvedProblems, problems)|)]
                    && r.outcome.newStats == Counters(|Populate(l.solvedProblems, problems)|, l.totalSubmissions, l.successfulSubmissions)
  {
    match UserByNameOrEmail(users, name)
    case None => FixResult(users, FixUserNotFound)
    case Some(i) =>
      match LedgerOf(ledgers, users[i].id)
      case None => FixResult(users, NoProgress)
      case Some(k) =>
        var l := ledgers[k];
        var solvedCount := |Populate(l.solvedProblems, problems)|;
        var u := Resynced(users[i], l, solvedCount);
        var stats := Counters(solvedCount, l.totalSubmissions, l.successfulSubmissions);
        FixResult(users[i := u], Fixed(Counters(u.problemsSolved, u.totalSubmissions, u.successfulSubmissions), stats))
  }

  /** The controller: resolve, find the ledger, overwrite the three counters, save, report. */
  method FixUserStats(db: Database, name: string) returns (outcome: FixOutcome)
    modifies db`users
    ensures var r := Fix(old(db.users), old(db.problems), old(db.ledgers), name);
            db.users == r.users && outcome == r.outcome
    ensures db.problems == old(db.problems) && db.ledgers == old(db.ledgers)
    ensures db.premiums == old(db.premiums) && db.payments == old(db.payments)
  {
    var found := UserByNameOrEmail(db.users, name);
    if found.None? {
      return FixUserNotFound;
    }
    var i := found.value;
    var user := db.users[i];
    var ledgerAt := LedgerOf(db.ledgers, user.id);
    if ledgerAt.None? {
      return NoProgress;
    }
    var progress := db.ledgers[ledgerAt.value];
    var solvedCount := |Populate(progress.solvedProblems, db.problems)|;
    var totalSubmissions := progress.totalSubmissions;
    var successfulSubmissions := progress.successfulSubmissions;
    user := user.(problemsSolved := solvedCount);
    user := user.(totalSubmissions := totalSubmissions);
    user := user.(successfulSubmissions := successfulSubmissions);
    db.users := db.users[i := user];
    outcome := Fixed(Counters(user.problemsSolved, user.totalSubmissions, user.successfulSubmissions),
                     Counters(solvedCount, totalSubmissions, successfulSubmissions));
  }

  /** Fixing twice is fixing once. */
  lemma FixIdempotent(users: seq<User>, problems: seq<Problem>, ledgers: seq<Ledger>, name: string)
    ensures var once := Fix(users, problems, ledgers, name);
            Fix(once.users, problems, ledgers, name).users == once.users
  {
    var once := Fix(users, problems, ledgers, name);
    match UserByNameOrEmail(users, name)
    case None =>
    case Some(i) =>
      if once.outcome.Fixed? {
        var u := once.users[i];
        assert u.username == users[i].username && u.email == users[i].email && u.id == users[i].id;
        IndexWhereUpdate(users, i, u, (x: User) => x.username == Text.Trim(name));
        IndexWhereUpdate(users, i, u, (x: User) => x.email == Text.ToLower(name));
        assert UserByNameOrEmail(once.users, name) == Some(i);
      }
  }

  /**
   * After a fix the user agrees with a well-formed ledger whose solved
   * problems all still exist.
   */
  lemma FixRestoresAgreement(users: seq<User>, problems: seq<Problem>, ledgers: seq<Ledger>, name: string)
    requires UserByNameOrEmail(users, name).Some?
    requires var i := UserByNameOrEmail(users, name).value;
             var k := LedgerOf(ledgers, users[i].id);
             k.Some? && WellFormed(ledgers[k.value])
             && forall id :: id in ledgers[k.value].solvedProblems ==> ProblemById(problems, id).Some?
    ensures var i := UserByNameOrEmail(users, name).value;
            Agrees(Fix(users, problems, ledgers, name).users[i], ledgers[LedgerOf(ledgers, users[i].id).value])
  {
    var i := UserByNameOrEmail(users, name).value;
    var ids := ledgers[LedgerOf(ledgers, users[i].id).value].solvedProblems;
    assert forall j :: 0 <= j < |ids| ==> ProblemById(problems, ids[j]).Some?;
  }

  /** On a consistent database with no solved problem deleted, a fix changes nothing. */
  lemma FixNoopWhenConsistent(users: seq<User>, problems: seq<Problem>, ledgers: seq<Ledger>, name: string)
    requires Consistent(users, ledgers)
    requires forall k, id :: 0 <= k < |ledgers| && id in ledgers[k].solvedProblems ==> ProblemById(problems, id).Some?
    ensures Fix(users, problems, ledgers, name).users == users
  {
    match UserByNameOrEmail(users, name)
    case None =>
    case Some(i) =>
      match LedgerOf(ledgers, users[i].id)
      case None =>
      case Some(k) =>
        var ids := ledgers[k].solvedProblems;
        assert forall j :: 0 <= j < |ids| ==> ProblemById(problems, ids[j]).Some?;
        assert Agrees(users[i], ledgers[k]);
        assert Fix(users, problems, ledgers, name).users[i] == users[i];
  }
}
