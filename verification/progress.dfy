/**
 * Recording a solve (`addSolvedProblem`): the two-branch transition on a
 * (user, ledger) pair, the ledger invariant it keeps, and the two quirks of
 * the controller as written — the streak grows on every first solve, and
 * totalSubmissions grows only on repeat solves.
 */
module Progress {
  import opened Wrappers
  import opened Models
  import Text
  import opened Store

  /** Milliseconds in a day. */
  const DayMs: int := 1000 * 60 * 60 * 24

  /** The body of a solve request; None is an absent field. */
  datatype SolveRequest = SolveRequest(
    userId: Option<Id>,
    username: Option<string>,
    problemId: Option<Id>,
    language: Option<string>,
    solveTime: Option<int>)

  /** The `userStats` snapshot of the response. */
  datatype UserStats = UserStats(
    problemsSolved: int,
    totalSubmissions: int,
    successfulSubmissions: int,
    currentStreak: int,
    streakDays: int)

  datatype SolveOutcome =
    | MissingFields                  // 400 "userId or username and problemId are required"
    | UserNotFound                   // 404
    | ProblemNotFound                // 404
    | Recorded(alreadySolved: bool, progress: Ledger, solved: seq<Problem>, stats: UserStats)

  /** The user and ledger collections after a request, and its outcome. */
  datatype Solved = Solved(users: seq<User>, ledgers: seq<Ledger>, outcome: SolveOutcome)

  function StatsOf(u: User): (s: UserStats)
    ensures s.problemsSolved == u.problemsSolved && s.totalSubmissions == u.totalSubmissions
    ensures s.successfulSubmissions == u.successfulSubmissions
    ensures s.currentStreak == u.currentStreak && s.streakDays == u.streakDays
  {
    UserStats(u.problemsSolved, u.totalSubmissions, u.successfulSubmissions, u.currentStreak, u.streakDays)
  }

  /** The request is rejected before any lookup. */
  predicate MissesFields(req: SolveRequest) {
    (!Truthy(req.userId) && !Truthy(req.username)) || !Truthy(req.problemId)
  }

  /** The user a request names: by id when an id is given, by username otherwise. */
  function ResolveUser(users: seq<User>, req: SolveRequest): (r: Option<nat>)
    ensures r.Some? ==> r.value < |users|
    ensures Truthy(req.userId) ==> r == UserById(users, req.userId.value)
    ensures Truthy(req.userId) && r.Some? ==> users[r.value].id == req.userId.value
    ensures !Truthy(req.userId) && Truthy(req.username) ==> r == UserByUsername(users, Text.Trim(req.username.value))
    ensures !Truthy(req.userId) && Truthy(req.username) ==>
              (r.Some? <==> exists j :: 0 <= j < |users| && users[j].username == Text.Trim(req.username.value))
    ensures !Truthy(req.userId) && Truthy(req.username) && r.Some? ==>
              users[r.value].username == Text.Trim(req.username.value)
    ensures !Truthy(req.userId) && !Truthy(req.username) ==> r.None?
  {
    if Truthy(req.userId) then UserById(users, req.userId.value)
    else if Truthy(req.username) then UserByUsername(users, Text.Trim(req.username.value))
    else None
  }

  /** `Math.floor((later - earlier) / day)`. */
  function DaysBetween(later: int, earlier: int): (d: int)
    ensures d * DayMs <= later - earlier < (d + 1) * DayMs
  {
    (later - earlier) / DayMs
  }

  /**
   * The streak update as the controller writes it, for a user whose
   * `lastSolvedAt` is whatever it holds at that point: a gap of at most one
   * day extends the streak and raises the record, a longer gap restarts it
   * at 1, no previous solve starts both at 1.
   */
  function Streak(u: User, today: int): (r: User)
    ensures r == u.(currentStreak := r.currentStreak, streakDays := r.streakDays)
    ensures u.lastSolvedAt.None? ==> r.currentStreak == 1 && r.streakDays == 1
    ensures u.lastSolvedAt.Some? && today - u.lastSolvedAt.value < 2 * DayMs ==>
              r.currentStreak == u.currentStreak + 1
              && r.streakDays == if u.currentStreak + 1 > u.streakDays then u.currentStreak + 1 else u.streakDays
    ensures u.lastSolvedAt.Some? && today - u.lastSolvedAt.value >= 2 * DayMs ==>
              r.currentStreak == 1 && r.streakDays == u.streakDays
  {
    match u.lastSolvedAt
    case Some(last) =>
      if DaysBetween(today, last) <= 1 then
        var cur := u.currentStreak + 1;
        u.(currentStreak := cur, streakDays := if cur > u.streakDays then cur else u.streakDays)
      else
        u.(currentStreak := 1)
    case None =>
      u.(currentStreak := 1, streakDays := 1)
  }

  /** The attempt record a first solve appends: `solveTime || null`, `language || null`. */
  function FirstAttempt(problemId: Id, language: Option<string>, solveTime: Option<int>, now: int): (a: Attempt)
    ensures a == NewAttempt(problemId, now).(bestTime := a.bestTime, language := a.language)
    ensures a.bestTime == (if TruthyNum(solveTime) then solveTime else None)
    ensures a.language == (if Truthy(language) then language else None)
  {
    Attempt(problemId, 1, now, now,
            if TruthyNum(solveTime) then solveTime else None,
            if Truthy(language) then language else None)
  }

  /** The best time after a repeat solve: replaced by a truthy time that is unset-beating or strictly smaller. */
  function BetterTime(best: Option<int>, solveTime: Option<int>): Option<int> {
    if TruthyNum(solveTime) && (!TruthyNum(best) || solveTime.value < best.value) then solveTime else best
  }

  /** A repeat solve's update of the matching attempt record. */
  function Reattempt(a: Attempt, language: Option<string>, solveTime: Option<int>, now: int): (r: Attempt)
    ensures r.problemId == a.problemId && r.firstSolvedAt == a.firstSolvedAt
    ensures r.attempts == a.attempts + 1 && r.lastAttemptAt == now
    ensures r.language == (if Truthy(language) then language else a.language)
    ensures r.bestTime == BetterTime(a.bestTime, solveTime)
  {
    a.(attempts := a.attempts + 1, lastAttemptAt := now,
       bestTime := BetterTime(a.bestTime, solveTime),
       language := if Truthy(language) then language else a.language)
  }

  function FindAttempt(attempts: seq<Attempt>, problemId: Id): Option<nat> {
    IndexWhere(attempts, (a: Attempt) => a.problemId == problemId)
  }

  /** The ledger after a first solve of `problemId`. */
  function FirstSolveLedger(l: Ledger, problemId: Id, language: Option<string>, solveTime: Option<int>, now: int): (r: Ledger)
    ensures r.userId == l.userId && r.updatedAt == now
    ensures r.solvedProblems == l.solvedProblems + [problemId]
    ensures |r.problemAttempts| == |l.problemAttempts| + 1
    ensures r.problemAttempts[..|l.problemAttempts|] == l.problemAttempts
    ensures var a := r.problemAttempts[|l.problemAttempts|];
            a.problemId == problemId && a.attempts == 1 && a.firstSolvedAt == now && a.lastAttemptAt == now
    ensures r.successfulSubmissions == l.successfulSubmissions + 1
    ensures r.totalSubmissions == l.totalSubmissions
  {
    l.(solvedProblems := l.solvedProblems + [problemId],
       problemAttempts := l.problemAttempts + [FirstAttempt(problemId, language, solveTime, now)],
       successfulSubmissions := l.successfulSubmissions + 1,
       updatedAt := now)
  }

  /**
   * The user after a first solve. `lastSolvedAt` is set to `now` before the
   * streak is computed from it.
   */
  function FirstSolveUser(u: User, now: int): (r: User)
    ensures r.problemsSolved == u.problemsSolved + 1
    ensures r.successfulSubmissions == u.successfulSubmissions + 1
    ensures r.totalSubmissions == u.totalSubmissions
    ensures r.lastSolvedAt == Some(now)
    ensures r.id == u.id && r.username == u.username && r.email == u.email
  {
    Streak(u.(problemsSolved := u.problemsSolved + 1,
              successfulSubmissions := u.successfulSubmissions + 1,
              lastSolvedAt := Some(now)), now)
  }

  /** The ledger after a repeat solve: the attempt record (if one is found) and the total counter. */
  function RepeatLedger(l: Ledger, problemId: Id, language: Option<string>, solveTime: Option<int>, now: int): (r: Ledger)
    ensures r.userId == l.userId && r.updatedAt == now
    ensures r.solvedProblems == l.solvedProblems
    ensures r.totalSubmissions == l.totalSubmissions + 1
    ensures r.successfulSubmissions == l.successfulSubmissions
    ensures |r.problemAttempts| == |l.problemAttempts|
    ensures FindAttempt(l.problemAttempts, problemId).None? ==> r.problemAttempts == l.problemAttempts
    ensures FindAttempt(l.problemAttempts, problemId).Some? ==>
              var k := FindAttempt(l.problemAttempts, problemId).value;
              k < |l.problemAttempts|
              && r.problemAttempts[k] == Reattempt(l.problemAttempts[k], language, solveTime, now)
              && forall j :: 0 <= j < |l.problemAttempts| && j != k ==> r.problemAttempts[j] == l.problemAttempts[j]
  {
    var attempts := match FindAttempt(l.problemAttempts, problemId)
      case Some(k) => l.problemAttempts[k := Reattempt(l.problemAttempts[k], language, solveTime, now)]
      case None => l.problemAttempts;
    l.(problemAttempts := attempts, totalSubmissions := l.totalSubmissions + 1, updatedAt := now)
  }

  /** A repeat solve only counts a submission. */
  function RepeatUser(u: User): (r: User)
    ensures r.totalSubmissions == u.totalSubmissions + 1
    ensures r == u.(totalSubmissions := r.totalSubmissions)
  {
    u.(totalSubmissions := u.totalSubmissions + 1)
  }

  /**
   * `addSolvedProblem` on the user, problem and ledger collections. The
   * ledger is the first one whose userId is the user's, or a fresh one
   * appended to the collection.
   */
  function Solve(users: seq<User>, problems: seq<Problem>, ledgers: seq<Ledger>, req: SolveRequest, now: int): (r: Solved)
    ensures r.outcome == MissingFields <==> MissesFields(req)
    ensures r.outcome == UserNotFound <==> !MissesFields(req) && ResolveUser(users, req).None?
    ensures r.outcome == ProblemNotFound <==>
              !MissesFields(req) && ResolveUser(users, req).Some? && ProblemById(problems, req.problemId.value).None?
    ensures !r.outcome.Recorded? ==> r.users == users && r.ledgers == ledgers
  {
    if MissesFields(req) then Solved(users, ledgers, MissingFields)
    else match ResolveUser(users, req)
      case None => Solved(users, ledgers, UserNotFound)
      case Some(i) =>
        var problemId := req.problemId.value;
        if ProblemById(problems, problemId).None? then Solved(users, ledgers, ProblemNotFound)
        else
          var user := users[i];
          var found := LedgerOf(ledgers, user.id);
          var progress := if found.Some? then ledgers[found.value] else NewLedger(user.id, now);
          var already := problemId in progress.solvedProblems;
          var progress' := if already then RepeatLedger(progress, problemId, req.language, req.solveTime, now)
                           else FirstSolveLedger(progress, problemId, req.language, req.solveTime, now);
          var user' := if already then RepeatUser(user) else FirstSolveUser(user, now);
          var ledgers' := if found.Some? then ledgers[found.value := progress'] else ledgers + [progress'];
          Solved(users[i := user'], ledgers',
                 Recorded(already, progress', Populate(progress'.solvedProblems, problems), StatsOf(user')))
  }

  /**
   * The controller, step by step on the database: resolve, check, find or
   * create the ledger, branch on whether the problem is already solved,
   * then save the user and the ledger.
   */
  method AddSolvedProblem(db: Database, req: SolveRequest, now: int) returns (outcome: SolveOutcome)
    modifies db`users, db`ledgers
    ensures var s := Solve(old(db.users), old(db.problems), old(db.ledgers), req, now);
            db.users == s.users && db.ledgers == s.ledgers && outcome == s.outcome
    ensures db.problems == old(db.problems) && db.premiums == old(db.premiums) && db.payments == old(db.payments)
  {
    if (!Truthy(req.userId) && !Truthy(req.username)) || !Truthy(req.problemId) {
      return MissingFields;
    }
    var userAt := ResolveUser(db.users, req);
    if userAt.None? {
      return UserNotFound;
    }
    var i := userAt.value;
    var user := db.users[i];
    var problemId := req.problemId.value;
    if ProblemById(db.problems, problemId).None? {
      return ProblemNotFound;
    }

    SolveAccepted(db.users, db.problems, db.ledgers, req, now);
    var found := LedgerOf(db.ledgers, user.id);
    var progress: Ledger;
    if found.Some? {
      progress := db.ledgers[found.value];
    } else {
      progress := NewLedger(user.id, now);
    }

    var already := problemId in progress.solvedProblems;
    if !already {
      progress, user := RecordFirstSolve(progress, user, problemId, req.language, req.solveTime, now);
    } else {
      progress, user := RecordRepeatSolve(progress, user, problemId, req.language, req.solveTime, now);
    }

    db.users := db.users[i := user];
    if found.Some? {
      db.ledgers := db.ledgers[found.value := progress];
    } else {
      db.ledgers := db.ledgers + [progress];
    }
    outcome := Recorded(already, progress, Populate(progress.solvedProblems, db.problems), StatsOf(user));
  }

  /** The first-solve branch: push the id and an attempt record, bump the counters, update the streak. */
  method RecordFirstSolve(progress: Ledger, user: User, problemId: Id, language: Option<string>, solveTime: Option<int>, now: int)
    returns (progress': Ledger, user': User)
    ensures progress' == FirstSolveLedger(progress, problemId, language, solveTime, now)
    ensures user' == FirstSolveUser(user, now)
  {
    progress' := progress.(solvedProblems := progress.solvedProblems + [problemId]);
    progress' := progress'.(problemAttempts := progress'.problemAttempts + [FirstAttempt(problemId, language, solveTime, now)]);
    progress' := progress'.(successfulSubmissions := progress'.successfulSubmissions + 1, updatedAt := now);
    user' := user.(problemsSolved := user.problemsSolved + 1);
    user' := user'.(successfulSubmissions := user'.successfulSubmissions + 1);
    user' := user'.(lastSolvedAt := Some(now));
    user' := Streak(user', now);
  }

  /** The repeat branch: update the attempt record if there is one, bump both total counters. */
  method RecordRepeatSolve(progress: Ledger, user: User, problemId: Id, language: Option<string>, solveTime: Option<int>, now: int)
    returns (progress': Ledger, user': User)
    ensures progress' == RepeatLedger(progress, problemId, language, solveTime, now)
    ensures user' == RepeatUser(user)
  {
    progress' := progress;
    var k := FindAttempt(progress'.problemAttempts, problemId);
    if k.Some? {
      var a := progress'.problemAttempts[k.value];
      progress' := progress'.(problemAttempts := progress'.problemAttempts[k.value := Reattempt(a, language, solveTime, now)]);
    }
    progress' := progress'.(totalSubmissions := progress'.totalSubmissions + 1, updatedAt := now);
    user' := user.(totalSubmissions := user.totalSubmissions + 1);
  }

  /** Solve on an accepted request, in terms of the two branches. */
  lemma SolveAccepted(users: seq<User>, problems: seq<Problem>, ledgers: seq<Ledger>, req: SolveRequest, now: int)
    requires !MissesFields(req) && ResolveUser(users, req).Some? && ProblemById(problems, req.problemId.value).Some?
    ensures var i := ResolveUser(users, req).value;
            var problemId := req.problemId.value;
            var found := LedgerOf(ledgers, users[i].id);
            var progress := if found.Some? then ledgers[found.value] else NewLedger(users[i].id, now);
            var already := problemId in progress.solvedProblems;
            var progress' := if already then RepeatLedger(progress, problemId, req.language, req.solveTime, now)
                             else FirstSolveLedger(progress, problemId, req.language, req.solveTime, now);
            var user' := if already then RepeatUser(users[i]) else FirstSolveUser(users[i], now);
            Solve(users, problems, ledgers, req, now) ==
              Solved(users[i := user'], if found.Some? then ledgers[found.value := progress'] else ledgers + [progress'],
                     Recorded(already, progress', Populate(progress'.solvedProblems, problems), StatsOf(user')))
  {
  }

  // ------------------------------------------------------------ invariant

  /**
   * A ledger as the controller keeps it: the solved ids are distinct, the
   * attempt records run parallel to them (one per solved id, same order,
   * at least one attempt each) and the success counter is the solved count.
   */
  ghost predicate WellFormed(l: Ledger) {
    && |l.problemAttempts| == |l.solvedProblems|
    && (forall k :: 0 <= k < |l.solvedProblems| ==>
          l.problemAttempts[k].problemId == l.solvedProblems[k] && l.problemAttempts[k].attempts >= 1)
    && (forall j, k :: 0 <= j < k < |l.solvedProblems| ==> l.solvedProblems[j] != l.solvedProblems[k])
    && l.successfulSubmissions == |l.solvedProblems|
  }

  /** The user's counters agree with their ledger. */
  ghost predicate Agrees(u: User, l: Ledger) {
    && WellFormed(l)
    && u.problemsSolved == |l.solvedProblems|
    && u.successfulSubmissions == l.successfulSubmissions
    && u.totalSubmissions == l.totalSubmissions
  }

  /**
   * User ids are distinct, and each user's counters agree with the ledger
   * `findOne({ userId })` returns, or are all zero when there is none.
   */
  ghost predicate Consistent(users: seq<User>, ledgers: seq<Ledger>) {
    && (forall i, j :: 0 <= i < j < |users| ==> users[i].id != users[j].id)
    && (forall i :: 0 <= i < |users| ==>
          match LedgerOf(ledgers, users[i].id)
          case Some(k) => Agrees(users[i], ledgers[k])
          case None => users[i].problemsSolved == 0 && users[i].successfulSubmissions == 0 && users[i].totalSubmissions == 0)
  }

  /** Occurrences of `x` in `s`. */
  function Count<T(==)>(s: seq<T>, x: T): (n: nat)
    ensures n <= |s|
    ensures x !in s ==> n == 0
  {
    if s == [] then 0 else Count(s[..|s| - 1], x) + (if s[|s| - 1] == x then 1 else 0)
  }

  function AttemptIds(attempts: seq<Attempt>): (ids: seq<Id>)
    ensures |ids| == |attempts|
    ensures forall k :: 0 <= k < |attempts| ==> ids[k] == attempts[k].problemId
  {
    if attempts == [] then [] else AttemptIds(attempts[..|attempts| - 1]) + [attempts[|attempts| - 1].problemId]
  }

  lemma {:induction false} CountDistinct<T>(s: seq<T>, k: nat)
    requires k < |s|
    requires forall a, b :: 0 <= a < b < |s| ==> s[a] != s[b]
    ensures Count(s, s[k]) == 1
  {
    var last := |s| - 1;
    if k < last {
      CountDistinct(s[..last], k);
    } else {
      assert s[k] !in s[..last];
    }
  }

  /** In a well-formed ledger every solved id has exactly one attempt record, and every record a solved id. */
  lemma WellFormedAttempts(l: Ledger)
    requires WellFormed(l)
    ensures forall id :: id in l.solvedProblems ==> Count(AttemptIds(l.problemAttempts), id) == 1
    ensures forall k :: 0 <= k < |l.problemAttempts| ==> l.problemAttempts[k].problemId in l.solvedProblems
  {
    assert AttemptIds(l.problemAttempts) == l.solvedProblems;
    forall id | id in l.solvedProblems
      ensures Count(AttemptIds(l.problemAttempts), id) == 1
    {
      var k :| 0 <= k < |l.solvedProblems| && l.solvedProblems[k] == id;
      CountDistinct(l.solvedProblems, k);
    }
  }

  /** A new user with a new ledger is consistent; so is the empty database. */
  lemma FreshConsistent(users: seq<User>, ledgers: seq<Ledger>, u: User)
    requires Consistent(users, ledgers)
    requires forall i :: 0 <= i < |users| ==> users[i].id != u.id
    requires LedgerOf(ledgers, u.id).None?
    requires u.problemsSolved == 0 && u.successfulSubmissions == 0 && u.totalSubmissions == 0
    ensures Consistent(users + [u], ledgers)
  {
  }

  /** In a well-formed ledger, the attempt record of a solved id is found. */
  lemma FindAttemptSolved(l: Ledger, problemId: Id)
    requires WellFormed(l) && problemId in l.solvedProblems
    ensures FindAttempt(l.problemAttempts, problemId).Some?
  {
    var k :| 0 <= k < |l.solvedProblems| && l.solvedProblems[k] == problemId;
    assert l.problemAttempts[k].problemId == problemId;
  }

  lemma {:induction false} IndexWhereUpdate<T>(s: seq<T>, k: nat, v: T, p: T -> bool)
    requires k < |s| && p(s[k]) == p(v)
    ensures IndexWhere(s[k := v], p) == IndexWhere(s, p)
  {
    if k > 0 {
      assert s[k := v][1..] == s[1..][k - 1 := v];
      IndexWhereUpdate(s[1..], k - 1, v, p);
    }
  }

  lemma {:induction false} IndexWhereAppend<T>(s: seq<T>, v: T, p: T -> bool)
    ensures IndexWhere(s + [v], p) ==
              if IndexWhere(s, p).Some? then IndexWhere(s, p) else if p(v) then Some(|s|) else None
  {
    if s != [] {
      assert (s + [v])[1..] == s[1..] + [v];
      IndexWhereAppend(s[1..], v, p);
    }
  }

  lemma LedgerOfUpdate(ledgers: seq<Ledger>, k: nat, l: Ledger, id: Id)
    requires k < |ledgers| && ledgers[k].userId == l.userId
    ensures LedgerOf(ledgers[k := l], id) == LedgerOf(ledgers, id)
  {
    IndexWhereUpdate(ledgers, k, l, (x: Ledger) => x.userId == id);
  }

  lemma LedgerOfAppend(ledgers: seq<Ledger>, l: Ledger, id: Id)
    ensures LedgerOf(ledgers + [l], id) ==
              if LedgerOf(ledgers, id).Some? then LedgerOf(ledgers, id) else if l.userId == id then Some(|ledgers|) else None
  {
    IndexWhereAppend(ledgers, l, (x: Ledger) => x.userId == id);
  }

  /** A first solve keeps a user and ledger in agreement. */
  lemma FirstSolveAgrees(u: User, l: Ledger, problemId: Id, language: Option<string>, solveTime: Option<int>, now: int)
    requires Agrees(u, l) && problemId !in l.solvedProblems
    ensures Agrees(FirstSolveUser(u, now), FirstSolveLedger(l, problemId, language, solveTime, now))
  {
  }

  /** A repeat solve keeps a user and ledger in agreement. */
  lemma RepeatSolveAgrees(u: User, l: Ledger, problemId: Id, language: Option<string>, solveTime: Option<int>, now: int)
    requires Agrees(u, l) && problemId in l.solvedProblems
    ensures Agrees(RepeatUser(u), RepeatLedger(l, problemId, language, solveTime, now))
  {
    FindAttemptSolved(l, problemId);
  }

  /**
   * Writing back a user and a ledger that agree, where the ledger replaces
   * the user's current one (or is appended when there is none), keeps the
   * database consistent.
   */
  lemma WriteBackConsistent(users: seq<User>, ledgers: seq<Ledger>, i: nat, u: User, l: Ledger)
    requires Consistent(users, ledgers) && i < |users|
    requires u.id == users[i].id && l.userId == u.id && Agrees(u, l)
    ensures var found := LedgerOf(ledgers, u.id);
            Consistent(users[i := u], if found.Some? then ledgers[found.value := l] else ledgers + [l])
  {
    var found := LedgerOf(ledgers, u.id);
    var ledgers' := if found.Some? then ledgers[found.value := l] else ledgers + [l];
    var users' := users[i := u];
    forall j | 0 <= j < |users'|
      ensures match LedgerOf(ledgers', users'[j].id)
              case Some(k) => Agrees(users'[j], ledgers'[k])
              case None => users'[j].problemsSolved == 0 && users'[j].successfulSubmissions == 0 && users'[j].totalSubmissions == 0
    {
      var id := users'[j].id;
      if found.Some? {
        LedgerOfUpdate(ledgers, found.value, l, id);
      } else {
        LedgerOfAppend(ledgers, l, id);
      }
      if j == i {
        assert LedgerOf(ledgers', id) == Some(if found.Some? then found.value else |ledgers|);
      } else {
        assert LedgerOf(ledgers', id) == LedgerOf(ledgers, id);
      }
    }
  }

  /** Every request, accepted or rejected, keeps the database consistent. */
  lemma SolvePreservesConsistency(users: seq<User>, problems: seq<Problem>, ledgers: seq<Ledger>, req: SolveRequest, now: int)
    requires Consistent(users, ledgers)
    ensures var r := Solve(users, problems, ledgers, req, now); Consistent(r.users, r.ledgers)
  {
    if !MissesFields(req) && ResolveUser(users, req).Some? && ProblemById(problems, req.problemId.value).Some? {
      SolveAccepted(users, problems, ledgers, req, now);
      var i := ResolveUser(users, req).value;
      var problemId := req.problemId.value;
      var user := users[i];
      var found := LedgerOf(ledgers, user.id);
      var progress := if found.Some? then ledgers[found.value] else NewLedger(user.id, now);
      assert Agrees(user, progress);
      if problemId in progress.solvedProblems {
        RepeatSolveAgrees(user, progress, problemId, req.language, req.solveTime, now);
        WriteBackConsistent(users, ledgers, i, RepeatUser(user), RepeatLedger(progress, problemId, req.language, req.solveTime, now));
      } else {
        FirstSolveAgrees(user, progress, problemId, req.language, req.solveTime, now);
        WriteBackConsistent(users, ledgers, i, FirstSolveUser(user, now), FirstSolveLedger(progress, problemId, req.language, req.solveTime, now));
      }
    }
  }

  // ------------------------------------------------------------- effects

  /**
   * An accepted request changes only the resolved user and that user's
   * ledger (or appends a new ledger); every other document is untouched.
   */
  lemma SolveTouchesOnlyResolvedUser(users: seq<User>, problems: seq<Problem>, ledgers: seq<Ledger>, req: SolveRequest, now: int)
    requires Solve(users, problems, ledgers, req, now).outcome.Recorded?
    ensures var r := Solve(users, problems, ledgers, req, now);
            var i := ResolveUser(users, req).value;
            && |r.users| == |users| && r.users[i].id == users[i].id
            && (forall j :: 0 <= j < |users| && j != i ==> r.users[j] == users[j])
            && |ledgers| <= |r.ledgers| <= |ledgers| + 1
            && (forall k :: 0 <= k < |ledgers| && ledgers[k].userId != users[i].id ==> r.ledgers[k] == ledgers[k])
  {
  }

  /** The index of the resolved user and of their ledger in the collections after an accepted request. */
  function SolvedAt(users: seq<User>, ledgers: seq<Ledger>, req: SolveRequest): (r: (nat, nat))
    requires ResolveUser(users, req).Some?
  {
    var i := ResolveUser(users, req).value;
    (i, match LedgerOf(ledgers, users[i].id) case Some(k) => k case None => |ledgers|)
  }

  /**
   * A first solve appends the problem id and one fresh attempt record,
   * raises the success counters and the solved count by one, and leaves
   * totalSubmissions alone on both the user and the ledger.
   */
  lemma FirstSolveEffects(users: seq<User>, problems: seq<Problem>, ledgers: seq<Ledger>, req: SolveRequest, now: int)
    requires var r := Solve(users, problems, ledgers, req, now); r.outcome.Recorded? && !r.outcome.alreadySolved
    ensures var r := Solve(users, problems, ledgers, req, now);
            var (i, k) := SolvedAt(users, ledgers, req);
            var l := if k < |ledgers| then ledgers[k] else NewLedger(users[i].id, now);
            && k < |r.ledgers| && r.ledgers[k] == r.outcome.progress
            && r.ledgers[k].solvedProblems == l.solvedProblems + [req.problemId.value]
            && r.ledgers[k].problemAttempts == l.problemAttempts + [FirstAttempt(req.problemId.value, req.language, req.solveTime, now)]
            && r.ledgers[k].successfulSubmissions == l.successfulSubmissions + 1
            && r.ledgers[k].totalSubmissions == l.totalSubmissions
            && r.users[i].problemsSolved == users[i].problemsSolved + 1
            && r.users[i].successfulSubmissions == users[i].successfulSubmissions + 1
            && r.users[i].totalSubmissions == users[i].totalSubmissions
            && r.users[i].lastSolvedAt == Some(now)
  {
  }

  /**
   * Every first solve raises the current streak by exactly one and the
   * record to at least the new streak, whatever the gap since the previous
   * solve: the day difference is taken after lastSolvedAt was set to now.
   */
  lemma StreakAlwaysGrows(u: User, now: int)
    ensures var u' := FirstSolveUser(u, now);
            && u'.currentStreak == u.currentStreak + 1
            && u'.streakDays == (if u.currentStreak + 1 > u.streakDays then u.currentStreak + 1 else u.streakDays)
  {
    assert DaysBetween(now, now) == 0;
  }

  /**
   * A repeat solve leaves the solved list, the solved and success counters
   * and the streak alone, and adds one to both totalSubmissions counters.
   */
  lemma RepeatSolveEffects(users: seq<User>, problems: seq<Problem>, ledgers: seq<Ledger>, req: SolveRequest, now: int)
    requires var r := Solve(users, problems, ledgers, req, now); r.outcome.Recorded? && r.outcome.alreadySolved
    ensures var r := Solve(users, problems, ledgers, req, now);
            var (i, k) := SolvedAt(users, ledgers, req);
            && k < |ledgers| && r.ledgers[k] == r.outcome.progress
            && r.ledgers[k].solvedProblems == ledgers[k].solvedProblems
            && r.ledgers[k].successfulSubmissions == ledgers[k].successfulSubmissions
            && r.ledgers[k].totalSubmissions == ledgers[k].totalSubmissions + 1
            && r.users[i] == users[i].(totalSubmissions := users[i].totalSubmissions + 1)
  {
  }

  /**
   * In a well-formed ledger, a repeat solve updates the problem's attempt
   * record and no other: one more attempt, a better best time, the new
   * language if one is given.
   */
  lemma RepeatSolveAttempt(l: Ledger, problemId: Id, language: Option<string>, solveTime: Option<int>, now: int)
    requires WellFormed(l) && problemId in l.solvedProblems
    ensures exists a :: 0 <= a < |l.problemAttempts|
              && l.problemAttempts[a].problemId == problemId
              && RepeatLedger(l, problemId, language, solveTime, now).problemAttempts ==
                   l.problemAttempts[a := Reattempt(l.problemAttempts[a], language, solveTime, now)]
  {
    FindAttemptSolved(l, problemId);
    var a := FindAttempt(l.problemAttempts, problemId).value;
    assert l.problemAttempts[a].problemId == problemId;
  }

  /**
   * The best time after a repeat solve is the smaller of the two when both
   * are set, the new one when none was set, the old one when no time is
   * given: it never grows while set.
   */
  lemma BestTimeIsMinimum(best: Option<int>, solveTime: Option<int>)
    ensures TruthyNum(best) && TruthyNum(solveTime) ==>
              BetterTime(best, solveTime).value == if solveTime.value < best.value then solveTime.value else best.value
    ensures !TruthyNum(best) && TruthyNum(solveTime) ==> BetterTime(best, solveTime) == solveTime
    ensures !TruthyNum(solveTime) ==> BetterTime(best, solveTime) == best
    ensures TruthyNum(best) ==> TruthyNum(BetterTime(best, solveTime)) && BetterTime(best, solveTime).value <= best.value
  {
  }

  /**
   * Solving the same problem a second time counts no new solve: the user's
   * solved count and the ledger's solved list are those the first call left.
   */
  lemma SecondSolveCountsOnce(users: seq<User>, problems: seq<Problem>, ledgers: seq<Ledger>, req: SolveRequest, now: int, later: int)
    requires Solve(users, problems, ledgers, req, now).outcome.Recorded?
    ensures var r1 := Solve(users, problems, ledgers, req, now);
            var r2 := Solve(r1.users, problems, r1.ledgers, req, later);
            var (i, k) := SolvedAt(users, ledgers, req);
            && r2.outcome.Recorded? && r2.outcome.alreadySolved
            && r2.users[i].problemsSolved == r1.users[i].problemsSolved
            && r2.outcome.progress.solvedProblems == r1.outcome.progress.solvedProblems
  {
    var r1 := Solve(users, problems, ledgers, req, now);
    var (i, k) := SolvedAt(users, ledgers, req);
    var user := users[i];
    var found := LedgerOf(ledgers, user.id);
    var progress' := r1.outcome.progress;
    assert progress'.userId == user.id;
    assert r1.users[i].id == user.id;
    if found.Some? {
      LedgerOfUpdate(ledgers, found.value, progress', user.id);
    } else {
      LedgerOfAppend(ledgers, progress', user.id);
    }
    assert LedgerOf(r1.ledgers, user.id) == Some(k);
    assert req.problemId.value in r1.ledgers[k].solvedProblems;
    if Truthy(req.userId) {
      IndexWhereUpdate(users, i, r1.users[i], (u: User) => u.id == req.userId.value);
    } else {
      IndexWhereUpdate(users, i, r1.users[i], (u: User) => u.username == Text.Trim(req.username.value));
    }
    assert ResolveUser(r1.users, req) == Some(i);
  }
}
