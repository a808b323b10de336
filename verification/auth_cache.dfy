/**
 * The client's session context (`AuthProvider`): the logged-in user and
 * token, the list of solved problems shown in the interface, and the
 * browser's local storage, where that list is cached under
 * `solved_<username>`. Requests to the server are returned as values;
 * their replies are parameters.
 */
module AuthSession {
  import opened Wrappers
  import Text
  import Progress

  /** A cached solved problem: `{ id, title, difficulty }`. */
  datatype Entry = Entry(id: Option<string>, title: Option<string>, difficulty: Option<string>)

  /** A problem as the pages pass it in: a server document (`_id`) or a cached entry (`id`). */
  datatype ProblemRef = ProblemRef(mongoId: Option<string>, id: Option<string>,
                                   title: Option<string>, difficulty: Option<string>)

  /**
   * A local-storage value. Plain strings are kept as they are; the JSON text
   * of a solved list is kept as the list it decodes to.
   */
  datatype Stored = Plain(text: string) | SolvedList(entries: seq<Entry>)

  /** The reply to the progress fetch: a failed request, or the body's `solvedProblems` (absent or a list). */
  datatype FetchReply = FetchFailed | Fetched(solvedProblems: Option<seq<ProblemRef>>)

  const SolvedPrefix := "solved_"

  /** The storage key of a user's cached list. */
  function SolvedKey(username: string): (k: string)
    ensures Text.StartsWith(k, SolvedPrefix) && k[|SolvedPrefix|..] == username
  {
    SolvedPrefix + username
  }

  /** `problem._id || problem.id`. */
  function KeyOf(p: ProblemRef): (r: Option<string>)
    ensures Truthy(p.mongoId) ==> r == p.mongoId
    ensures !Truthy(p.mongoId) ==> r == p.id
  {
    if Truthy(p.mongoId) then p.mongoId else p.id
  }

  function EntryOf(p: ProblemRef): Entry {
    Entry(KeyOf(p), p.title, p.difficulty)
  }

  /** `prev.some(p => p.id === key)`. */
  predicate HasId(entries: seq<Entry>, key: Option<string>) {
    exists i :: 0 <= i < |entries| && entries[i].id == key
  }

  predicate DistinctIds(entries: seq<Entry>) {
    forall i, j :: 0 <= i < j < |entries| ==> entries[i].id != entries[j].id
  }

  /**
   * The local update of `addSolvedProblem`: the problem is appended when no
   * entry carries its id, and the list is returned unchanged otherwise.
   */
  function Append(prev: seq<Entry>, p: ProblemRef): (r: seq<Entry>)
    ensures prev <= r && |r| <= |prev| + 1
    ensures r == prev <==> HasId(prev, KeyOf(p))
    ensures r != prev ==> r[|prev|] == EntryOf(p)
    ensures HasId(r, KeyOf(p))
  {
    if HasId(prev, KeyOf(p)) then prev else prev + [EntryOf(p)]
  }

  /** Recording the same problem twice is recording it once. */
  lemma AppendIdempotent(prev: seq<Entry>, p: ProblemRef)
    ensures Append(Append(prev, p), p) == Append(prev, p)
  {
    var once := Append(prev, p);
    assert HasId(once, KeyOf(p));
  }

  /** A list without repeated ids keeps that property. */
  lemma AppendKeepsDistinct(prev: seq<Entry>, p: ProblemRef)
    requires DistinctIds(prev)
    ensures DistinctIds(Append(prev, p))
  {
    if !HasId(prev, KeyOf(p)) {
      var r := Append(prev, p);
      forall i, j | 0 <= i < j < |r|
        ensures r[i].id != r[j].id
      {
        if j == |prev| {
          assert r[i] == prev[i];
        }
      }
    }
  }

  /** Recording a second problem keeps the first one recorded. */
  lemma AppendTwoKeepsBoth(prev: seq<Entry>, p: ProblemRef, q: ProblemRef)
    ensures HasId(Append(Append(prev, p), q), KeyOf(p))
    ensures HasId(Append(Append(prev, p), q), KeyOf(q))
  {
    var once := Append(prev, p);
    var i :| 0 <= i < |once| && once[i].id == KeyOf(p);
    assert Append(once, q)[i] == once[i];
  }

  /** `(p) => ({ id: p._id, title: p.title, difficulty: p.difficulty })` over the fetched list. */
  function Hydrated(server: seq<ProblemRef>): (r: seq<Entry>)
    ensures |r| == |server|
    ensures forall i :: 0 <= i < |server| ==>
              r[i] == Entry(server[i].mongoId, server[i].title, server[i].difficulty)
  {
    seq(|server|, i requires 0 <= i < |server| => Entry(server[i].mongoId, server[i].title, server[i].difficulty))
  }

  /**
   * A problem the fetched list already holds is not recorded again: after
   * hydration, a local solve of a known server document changes nothing.
   */
  lemma HydratedKnowsSolved(server: seq<ProblemRef>, p: ProblemRef, i: nat)
    requires i < |server| && Truthy(p.mongoId) && server[i].mongoId == p.mongoId
    ensures Append(Hydrated(server), p) == Hydrated(server)
  {
    assert Hydrated(server)[i].id == KeyOf(p);
  }

  /**
   * The list a login or a page load restores: the cached list under
   * `solved_<username>`, or [] when there is none.
   */
  function Restore(storage: map<string, Stored>, username: string): (r: seq<Entry>)
    ensures SolvedKey(username) !in storage ==> r == []
    ensures SolvedKey(username) in storage && storage[SolvedKey(username)].SolvedList? ==>
              r == storage[SolvedKey(username)].entries
  {
    var key := SolvedKey(username);
    if key in storage && storage[key].SolvedList? then storage[key].entries else []
  }

  /** The keys logout removes: user, token, userRole and every `solved_` key. */
  predicate Purged(key: string) {
    key == "user" || key == "token" || key == "userRole" || Text.StartsWith(key, SolvedPrefix)
  }

  /** The storage logout leaves behind. */
  function AfterLogout(storage: map<string, Stored>): (r: map<string, Stored>)
    ensures forall k :: k in r <==> k in storage && !Purged(k)
    ensures forall k :: k in r ==> r[k] == storage[k]
  {
    map k | k in storage && !Purged(k) :: storage[k]
  }

  /** Logging out twice is logging out once. */
  lemma LogoutIdempotent(storage: map<string, Stored>)
    ensures AfterLogout(AfterLogout(storage)) == AfterLogout(storage)
  {
    var once := AfterLogout(storage);
    assert AfterLogout(once).Keys == once.Keys;
  }

  /** After logout, no user's cached list survives: a login restores []. */
  lemma LoginAfterLogout(storage: map<string, Stored>, username: string)
    ensures Restore(AfterLogout(storage), username) == []
  {
    assert Purged(SolvedKey(username));
  }

  /** The progress request `addSolvedProblem` sends: only with both a user and a token. */
  function ProgressCall(user: Option<string>, token: Option<string>, p: ProblemRef,
                        language: Option<string>, solveTime: Option<int>): (r: Option<Progress.SolveRequest>)
    ensures r.Some? <==> Truthy(user) && Truthy(token)
    ensures r.Some? ==> r.value.userId == None && r.value.username == user && r.value.problemId == KeyOf(p)
    ensures r.Some? ==> r.value.language == language && r.value.solveTime == solveTime
  {
    if Truthy(user) && Truthy(token) then Some(Progress.SolveRequest(None, user, KeyOf(p), language, solveTime))
    else None
  }

  /** A request that is sent names a user; the server rejects it only when the problem has no id. */
  lemma ProgressCallComplete(user: Option<string>, token: Option<string>, p: ProblemRef,
                             language: Option<string>, solveTime: Option<int>)
    requires ProgressCall(user, token, p, language, solveTime).Some?
    ensures Progress.MissesFields(ProgressCall(user, token, p, language, solveTime).value) <==> !Truthy(KeyOf(p))
  {
  }

  /** `getUserStats`: the user whose statistics are requested, or None (no request) without a user and a token. */
  function StatsRequest(user: Option<string>, token: Option<string>): (r: Option<string>)
    ensures r.Some? <==> Truthy(user) && Truthy(token)
    ensures r.Some? ==> r == user
  {
    if Truthy(user) && Truthy(token) then user else None
  }

  /** The value stored under a plain key, when it is a non-empty string. */
  function ReadPlain(storage: map<string, Stored>, key: string): (r: Option<string>)
    ensures r.Some? ==> key in storage && storage[key] == Plain(r.value) && r.value != ""
  {
    if key in storage && storage[key].Plain? && storage[key].text != "" then Some(storage[key].text) else None
  }

  class Session {
    var user: Option<string>
    var token: Option<string>
    var solved: seq<Entry>
    var storage: map<string, Stored>

    /** The shown list agrees with the cached copy of the logged-in user. */
    predicate CacheInSync()
      reads this
    {
      Truthy(user) ==> Restore(storage, user.value) == solved
    }

    /** The initial state, read from storage: the user, that user's cached list, the token. */
    constructor (stored: map<string, Stored>)
      ensures user == ReadPlain(stored, "user") && token == ReadPlain(stored, "token")
      ensures solved == (if user.Some? then Restore(stored, user.value) else [])
      ensures storage == stored
      ensures CacheInSync()
    {
      user := ReadPlain(stored, "user");
      token := ReadPlain(stored, "token");
      solved := if ReadPlain(stored, "user").Some? then Restore(stored, ReadPlain(stored, "user").value) else [];
      storage := stored;
    }

    /** The token effect: a token is written to storage, its absence removes the key. */
    method SyncToken()
      modifies this
      requires CacheInSync()
      ensures user == old(user) && token == old(token) && solved == old(solved)
      ensures storage == if Truthy(token) then old(storage)["token" := Plain(token.value)] else old(storage) - {"token"}
      ensures CacheInSync()
    {
      if Truthy(token) {
        storage := storage["token" := Plain(token.value)];
      } else {
        storage := storage - {"token"};
      }
      assert Text.StartsWith(SolvedKey(user.GetOr("")), SolvedPrefix);
    }

    /** `login`: user and token are set and stored, and the user's cached list is restored. */
    method Login(username: string, userToken: Option<string>)
      modifies this
      ensures user == Some(username) && token == userToken
      ensures storage == if Truthy(userToken)
                         then old(storage)["user" := Plain(username)]["token" := Plain(userToken.value)]
                         else old(storage)["user" := Plain(username)]
      ensures solved == Restore(old(storage), username)
      ensures CacheInSync()
    {
      assert Text.StartsWith(SolvedKey(username), SolvedPrefix);
      user := Some(username);
      token := userToken;
      storage := storage["user" := Plain(username)];
      if Truthy(userToken) {
        storage := storage["token" := Plain(userToken.value)];
      }
      solved := Restore(storage, username);
    }

    /**
     * `addSolvedProblem`: the local append-if-absent, cached only when a
     * user is set and the list changed; the returned request is the one
     * sent to the server, made only with a user and a token.
     */
    method AddSolvedProblem(p: ProblemRef, language: Option<string>, solveTime: Option<int>)
      returns (call: Option<Progress.SolveRequest>)
      modifies this
      requires CacheInSync()
      ensures user == old(user) && token == old(token)
      ensures solved == Append(old(solved), p)
      ensures storage == if Truthy(user) && !HasId(old(solved), KeyOf(p))
                         then old(storage)[SolvedKey(user.value) := SolvedList(solved)]
                         else old(storage)
      ensures call == ProgressCall(user, token, p, language, solveTime)
      ensures CacheInSync()
    {
      if !HasId(solved, KeyOf(p)) {
        solved := solved + [EntryOf(p)];
        if Truthy(user) {
          storage := storage[SolvedKey(user.value) := SolvedList(solved)];
        }
      }
      if Truthy(user) && Truthy(token) {
        call := Some(Progress.SolveRequest(None, user, KeyOf(p), language, solveTime));
      } else {
        call := None;
      }
    }

    /**
     * The hydration effect: with a user and a token, a successful fetch
     * replaces the shown list by the mapped server list and caches it; a
     * failed fetch keeps the current list.
     */
    method Hydrate(reply: FetchReply)
      modifies this
      requires CacheInSync()
      ensures user == old(user) && token == old(token)
      ensures Truthy(user) && Truthy(token) && reply.Fetched? ==>
                solved == Hydrated(reply.solvedProblems.GetOr([])) &&
                storage == old(storage)[SolvedKey(user.value) := SolvedList(solved)]
      ensures !(Truthy(user) && Truthy(token) && reply.Fetched?) ==>
                solved == old(solved) && storage == old(storage)
      ensures CacheInSync()
    {
      if Truthy(user) && Truthy(token) && reply.Fetched? {
        solved := Hydrated(reply.solvedProblems.GetOr([]));
        storage := storage[SolvedKey(user.value) := SolvedList(solved)];
      }
    }

    /**
     * `logout`: whatever the server answers, the session is cleared and
     * user, token, userRole and every `solved_` key are removed from
     * storage, one key at a time; every other key is kept.
     */
    method Logout()
      modifies this
      ensures user == None && token == None && solved == []
      ensures storage == AfterLogout(old(storage))
      ensures CacheInSync()
    {
      var start := storage - {"user"} - {"token"} - {"userRole"};
      var kept := start;
      var keys := start.Keys;
      while keys != {}
        invariant keys <= start.Keys
        invariant forall k :: k in kept <==> k in start && (k in keys || !Text.StartsWith(k, SolvedPrefix))
        invariant forall k :: k in kept ==> kept[k] == start[k]
        decreases keys
      {
        var k :| k in keys;
        if Text.StartsWith(k, SolvedPrefix) {
          kept := kept - {k};
        }
        keys := keys - {k};
      }
      assert kept.Keys == AfterLogout(storage).Keys;
      user, token, solved, storage := None, None, [], kept;
    }
  }
}
