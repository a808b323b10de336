/**
 * The document store: one sequence per collection, in natural order, so
 * that `findOne` is "the first matching document".
 */
module Store {
  import opened Wrappers
  import Text
  import opened Models

  class Database {
    var users: seq<User>
    var problems: seq<Problem>
    var ledgers: seq<Ledger>
    var premiums: seq<PremiumItem>
    var payments: seq<PremiumItem>

    constructor ()
      ensures users == [] && problems == [] && ledgers == [] && premiums == [] && payments == []
    {
      users, problems, ledgers, premiums, payments := [], [], [], [], [];
    }
  }

  /** The position of the first element satisfying `p`, as `findOne` / `findIndex` return it. */
  function IndexWhere<T>(s: seq<T>, p: T -> bool): (r: Option<nat>)
    ensures r.Some? ==> r.value < |s| && p(s[r.value])
    ensures r.Some? ==> forall j :: 0 <= j < r.value ==> !p(s[j])
    ensures r.None? ==> forall j :: 0 <= j < |s| ==> !p(s[j])
  {
    if s == [] then None
    else if p(s[0]) then Some(0)
    else match IndexWhere(s[1..], p)
      case None => None
      case Some(k) => Some(k + 1)
  }

  function UserById(users: seq<User>, id: Id): Option<nat> {
    IndexWhere(users, (u: User) => u.id == id)
  }

  /** The user whose stored username is `username`. */
  function UserByUsername(users: seq<User>, username: string): Option<nat> {
    IndexWhere(users, (u: User) => u.username == username)
  }

  function UserByEmail(users: seq<User>, email: string): Option<nat> {
    IndexWhere(users, (u: User) => u.email == email)
  }

  /**
   * The progress controller's lookup: a user whose username is `name`
   * trimmed, and failing that a user whose email is `name` lower-cased (the
   * schema's `trim` and `lowercase` setters apply to the queried values).
   */
  function UserByNameOrEmail(users: seq<User>, name: string): (r: Option<nat>)
    ensures r.Some? ==>
              && r.value < |users|
              && (users[r.value].username == Text.Trim(name) || users[r.value].email == Text.ToLower(name))
    ensures r.None? <==>
              forall j :: 0 <= j < |users| ==> users[j].username != Text.Trim(name) && users[j].email != Text.ToLower(name)
    ensures (exists j :: 0 <= j < |users| && users[j].username == Text.Trim(name)) ==>
              r.Some? && users[r.value].username == Text.Trim(name)
  {
    match UserByUsername(users, Text.Trim(name))
    case Some(i) => Some(i)
    case None => UserByEmail(users, Text.ToLower(name))
  }

  function ProblemById(problems: seq<Problem>, id: Id): Option<nat> {
    IndexWhere(problems, (p: Problem) => p.id == id)
  }

  function LedgerOf(ledgers: seq<Ledger>, userId: Id): Option<nat> {
    IndexWhere(ledgers, (l: Ledger) => l.userId == userId)
  }

  /**
   * `populate("solvedProblems")`: each reference replaced by its problem, in
   * order; references to problems that no longer exist are dropped.
   */
  function Populate(ids: seq<Id>, problems: seq<Problem>): (r: seq<Problem>)
    ensures |r| <= |ids|
    ensures (forall i :: 0 <= i < |ids| ==> ProblemById(problems, ids[i]).Some?) ==> |r| == |ids|
    ensures forall p :: p in r ==> p in problems
  {
    if ids == [] then []
    else
      var head := match ProblemById(problems, ids[0])
        case Some(k) => [problems[k]]
        case None => [];
      head + Populate(ids[1..], problems)
  }

  /** Populating a concatenation populates each part, in order. */
  lemma {:induction false} PopulateConcat(a: seq<Id>, b: seq<Id>, problems: seq<Problem>)
    ensures Populate(a + b, problems) == Populate(a, problems) + Populate(b, problems)
    decreases |a|
  {
    if a == [] {
      assert a + b == b;
    } else {
      assert (a + b)[0] == a[0] && (a + b)[1..] == a[1..] + b;
      PopulateConcat(a[1..], b, problems);
    }
  }

  /** One reference populates to its problem, or to nothing when the problem is gone. */
  lemma PopulateOne(id: Id, problems: seq<Problem>)
    ensures ProblemById(problems, id).Some? ==> Populate([id], problems) == [problems[ProblemById(problems, id).value]]
    ensures ProblemById(problems, id).None? ==> Populate([id], problems) == []
  {
    assert [id][1..] == [];
  }

  /**
   * When every referenced problem exists, the populated list holds the
   * problem of each reference at the reference's own position.
   */
  lemma {:induction false} PopulateInOrder(ids: seq<Id>, problems: seq<Problem>)
    requires forall i :: 0 <= i < |ids| ==> ProblemById(problems, ids[i]).Some?
    ensures |Populate(ids, problems)| == |ids|
    ensures forall i :: 0 <= i < |ids| ==> Populate(ids, problems)[i] == problems[ProblemById(problems, ids[i]).value]
    decreases |ids|
  {
    if ids != [] {
      assert forall i :: 0 <= i < |ids[1..]| ==> ids[1..][i] == ids[i + 1];
      PopulateInOrder(ids[1..], problems);
    }
  }
}
