/**
 * Accounts: registration with its password rules and duplicate check,
 * login outcomes, the premium upgrade, and the sign-up form's client-side
 * password flags, which agree with the server's rules. Password hashing
 * and comparison are external: the hash is a parameter and comparison is
 * a function parameter; issued tokens are not modelled.
 */
module Accounts {
  import opened Wrappers
  import Text
  import opened Models
  import opened Store

  // ---------------------------------------------------------- registration

  datatype RegisterRequest = RegisterRequest(username: Option<string>, email: Option<string>, password: Option<string>)

  const LengthMessage := "Password must be at least 6 characters long"
  const CapitalMessage := "Password must contain at least 1 capital letter"
  const NumberMessage := "Password must contain at least 1 number"
  const ExistsMessage := "User already exists"

  /** The first password rule a password breaks, in the order the server checks them, or None. */
  function PasswordCheck(password: Option<string>): (r: Option<string>)
    ensures r.None? <==> Truthy(password) && |password.value| >= 6 && Text.HasUpper(password.value) && Text.HasDigit(password.value)
    ensures (!Truthy(password) || |password.value| < 6) ==> r == Some(LengthMessage)
    ensures Truthy(password) && |password.value| >= 6 && !Text.HasUpper(password.value) ==> r == Some(CapitalMessage)
    ensures Truthy(password) && |password.value| >= 6 && Text.HasUpper(password.value) && !Text.HasDigit(password.value) ==>
              r == Some(NumberMessage)
  {
    if !Truthy(password) || |password.value| < 6 then Some(LengthMessage)
    else if !Text.HasUpper(password.value) then Some(CapitalMessage)
    else if !Text.HasDigit(password.value) then Some(NumberMessage)
    else None
  }

  /**
   * The outcome of `registerUser`: a 400 rejection with its message, a
   * failed document creation (the error object is sent back, with status
   * 200), or the created user.
   */
  datatype Registration = Rejected(message: string) | CreateFailed | Registered(user: User)

  function RegistrationStatus(r: Registration): int {
    if r.Rejected? then 400 else 200
  }

  /** The user document creation would insert. */
  function Candidate(req: RegisterRequest, hashed: string, newId: Id, now: int): User {
    NewUser(newId, req.username.GetOr(""), req.email.GetOr(""), Some(hashed), None, now)
  }

  /**
   * `registerUser` on the users collection: the password rules, then the
   * duplicate-email lookup (the schema lower-cases the queried email), then
   * creation, which fails when a required field is blank or a unique index
   * is violated. `hashed` is the password's hash.
   */
  function Register(users: seq<User>, req: RegisterRequest, hashed: string, newId: Id, now: int): (r: Registration)
    ensures PasswordCheck(req.password).Some? ==> r == Rejected(PasswordCheck(req.password).value)
    ensures r.Rejected? ==> r.message in {LengthMessage, CapitalMessage, NumberMessage, ExistsMessage}
    ensures r.Registered? <==>
              && PasswordCheck(req.password).None?
              && req.email.Some? && UserByEmail(users, Text.ToLower(req.email.value)).None?
              && Text.Trim(req.username.GetOr("")) != "" && req.email.value != ""
              && Insertable(users, Candidate(req, hashed, newId, now))
    ensures r.Registered? ==> r.user == Candidate(req, hashed, newId, now)
    ensures PasswordCheck(req.password).None? && req.email.Some? && UserByEmail(users, Text.ToLower(req.email.value)).Some? ==>
              r == Rejected(ExistsMessage)
    ensures r.Rejected? <==>
              PasswordCheck(req.password).Some? || (req.email.Some? && UserByEmail(users, Text.ToLower(req.email.value)).Some?)
  {
    match PasswordCheck(req.password)
    case Some(message) => Rejected(message)
    case None =>
      if req.email.Some? && UserByEmail(users, Text.ToLower(req.email.value)).Some? then Rejected(ExistsMessage)
      else if Text.Trim(req.username.GetOr("")) == "" || req.email.GetOr("") == "" then CreateFailed
      else
        var u := Candidate(req, hashed, newId, now);
        if Insertable(users, u) then Registered(u) else CreateFailed
  }

  /** Registration keeps usernames, emails and ids unique, and no rejected request adds a user. */
  lemma RegisterKeepsUnique(users: seq<User>, req: RegisterRequest, hashed: string, newId: Id, now: int)
    requires UniqueUsers(users)
    ensures var r := Register(users, req, hashed, newId, now);
            r.Registered? ==> UniqueUsers(users + [r.user])
  {
    var r := Register(users, req, hashed, newId, now);
    if r.Registered? {
      InsertKeepsUnique(users, r.user);
    }
  }

  /** Appending a match to a list without one makes the appended element the first match. */
  lemma {:induction false} FirstMatchAppended<T>(s: seq<T>, x: T, p: T -> bool)
    requires IndexWhere(s, p).None? && p(x)
    ensures IndexWhere(s + [x], p) == Some(|s|)
  {
    var r := IndexWhere(s + [x], p);
    assert (s + [x])[|s|] == x;
  }

  // ----------------------------------------------------------------- login

  datatype LoginOutcome = UserNotFound | InvalidCredentials | LoginError | LoggedIn(user: User)

  function LoginStatus(r: LoginOutcome): int {
    match r
    case UserNotFound => 404
    case InvalidCredentials => 401
    case LoginError => 500
    case LoggedIn(_) => 200
  }

  /**
   * `loginUser`: the user with the (lower-cased) email, else 404; a password
   * hash comparison, else 401. Comparing with an absent password or an
   * account without one (Google sign-in) throws, which is answered 500.
   * `matches(password, hash)` is the hash comparison.
   */
  function Login(users: seq<User>, email: Option<string>, password: Option<string>,
                 matches: (string, string) -> bool): (r: LoginOutcome)
    ensures r == UserNotFound <==> email.None? || UserByEmail(users, Text.ToLower(email.value)).None?
    ensures r.LoggedIn? ==>
              && email.Some? && password.Some? && r.user.password.Some?
              && r.user.email == Text.ToLower(email.value) && matches(password.value, r.user.password.value)
    ensures r == InvalidCredentials ==>
              && password.Some? && email.Some?
              && exists i :: 0 <= i < |users| && users[i].email == Text.ToLower(email.value) &&
                               users[i].password.Some? && !matches(password.value, users[i].password.value)
    ensures email.Some? && UserByEmail(users, Text.ToLower(email.value)).Some? ==>
              var u := users[UserByEmail(users, Text.ToLower(email.value)).value];
              && (r == LoginError <==> password.None? || u.password.None?)
              && (r == InvalidCredentials <==>
                    password.Some? && u.password.Some? && !matches(password.value, u.password.value))
              && (r.LoggedIn? <==> password.Some? && u.password.Some? && matches(password.value, u.password.value))
              && (r.LoggedIn? ==> r.user == u)
  {
    if email.None? then UserNotFound
    else match UserByEmail(users, Text.ToLower(email.value))
      case None => UserNotFound
      case Some(i) =>
        var u := users[i];
        if password.None? || u.password.None? then LoginError
        else if matches(password.value, u.password.value) then LoggedIn(u)
        else InvalidCredentials
  }

  /** A user just registered can log in with the same email and password. */
  lemma RegisterThenLogin(users: seq<User>, req: RegisterRequest, hashed: string, newId: Id, now: int,
                          matches: (string, string) -> bool)
    requires Register(users, req, hashed, newId, now).Registered?
    requires matches(req.password.value, hashed)
    ensures Login(users + [Register(users, req, hashed, newId, now).user], req.email, req.password, matches) ==
              LoggedIn(Register(users, req, hashed, newId, now).user)
  {
    var u := Register(users, req, hashed, newId, now).user;
    assert u.email == Text.ToLower(req.email.value) && u.password == Some(hashed);
    EmailAppended(users, u);
    LoginAt(users + [u], req.email, req.password, matches, |users|);
  }

  /** A user whose email no other user has is found by that email once appended. */
  lemma EmailAppended(users: seq<User>, u: User)
    requires UserByEmail(users, u.email).None?
    ensures UserByEmail(users + [u], u.email) == Some(|users|)
  {
    FirstMatchAppended(users, u, (v: User) => v.email == u.email);
  }

  /** Login with the email of the user at `i` and a matching password logs that user in. */
  lemma LoginAt(users: seq<User>, email: Option<string>, password: Option<string>,
                matches: (string, string) -> bool, i: nat)
    requires email.Some? && UserByEmail(users, Text.ToLower(email.value)) == Some(i) && i < |users|
    requires password.Some? && users[i].password.Some? && matches(password.value, users[i].password.value)
    ensures Login(users, email, password, matches) == LoggedIn(users[i])
  {
  }

  /**
   * `registerUser` on the store: the user is added exactly when the
   * registration succeeds, and nothing else changes.
   */
  method RegisterUser(db: Database, req: RegisterRequest, hashed: string, newId: Id, now: int)
    returns (r: Registration)
    modifies db`users
    ensures r == Register(old(db.users), req, hashed, newId, now)
    ensures db.users == if r.Registered? then old(db.users) + [r.user] else old(db.users)
    ensures db.problems == old(db.problems) && db.ledgers == old(db.ledgers)
    ensures db.premiums == old(db.premiums) && db.payments == old(db.payments)
  {
    var users := db.users;
    r := Register(users, req, hashed, newId, now);
    db.users := if r.Registered? then users + [r.user] else users;
  }

  // --------------------------------------------------------------- premium

  /** The fields `upgradeToPremium` sets: premium on, plan, payment, order, amount and the time. */
  function Upgraded(u: User, plan: Option<string>, paymentId: Option<string>, orderId: Option<string>,
                    amount: Option<int>, now: int): (r: User)
    ensures r.isPremium && r.premiumSince == Some(now)
    ensures r.premiumPlan == plan && r.lastPaymentId == paymentId && r.lastOrderId == orderId
    ensures r.lastPaymentAmount == amount
    ensures r.(isPremium := u.isPremium, premiumPlan := u.premiumPlan, premiumSince := u.premiumSince,
               lastPaymentId := u.lastPaymentId, lastOrderId := u.lastOrderId,
               lastPaymentAmount := u.lastPaymentAmount) == u
  {
    u.(isPremium := true, premiumPlan := plan, premiumSince := Some(now), lastPaymentId := paymentId,
       lastOrderId := orderId, lastPaymentAmount := amount)
  }

  /** Upgrading twice with the same request is upgrading once. */
  lemma UpgradeIdempotent(u: User, plan: Option<string>, paymentId: Option<string>, orderId: Option<string>,
                          amount: Option<int>, now: int)
    ensures Upgraded(Upgraded(u, plan, paymentId, orderId, amount, now), plan, paymentId, orderId, amount, now) ==
              Upgraded(u, plan, paymentId, orderId, amount, now)
  {
  }

  /** An upgrade touches none of the uniquely indexed fields. */
  lemma UpgradeKeepsUnique(users: seq<User>, i: nat, plan: Option<string>, paymentId: Option<string>,
                           orderId: Option<string>, amount: Option<int>, now: int)
    requires i < |users| && UniqueUsers(users)
    ensures UniqueUsers(users[i := Upgraded(users[i], plan, paymentId, orderId, amount, now)])
  {
  }

  /**
   * `upgradeToPremium` for the authenticated user at index `i`: its fields
   * are assigned one by one; no payment is checked.
   */
  method UpgradeToPremium(db: Database, i: nat, plan: Option<string>, paymentId: Option<string>,
                          orderId: Option<string>, amount: Option<int>, now: int)
    requires i < |db.users|
    modifies db`users
    ensures db.users == old(db.users)[i := Upgraded(old(db.users)[i], plan, paymentId, orderId, amount, now)]
    ensures db.problems == old(db.problems) && db.ledgers == old(db.ledgers)
    ensures db.premiums == old(db.premiums) && db.payments == old(db.payments)
  {
    var u := db.users[i];
    u := u.(isPremium := true);
    u := u.(premiumPlan := plan);
    u := u.(premiumSince := Some(now));
    u := u.(lastPaymentId := paymentId);
    u := u.(lastOrderId := orderId);
    u := u.(lastPaymentAmount := amount);
    db.users := db.users[i := u];
  }

  // ------------------------------------------------------- the sign-up form

  datatype PasswordFlags = PasswordFlags(length: bool, capital: bool, number: bool)

  /** The three flags shown under the password field. */
  function Flags(password: string): (f: PasswordFlags)
    ensures f.length <==> |password| >= 6
    ensures f.capital <==> Text.HasUpper(password)
    ensures f.number <==> Text.HasDigit(password)
  {
    PasswordFlags(|password| >= 6, Text.HasUpper(password), Text.HasDigit(password))
  }

  /** The submit gate: the button is enabled and the handler proceeds only when all three flags hold. */
  predicate Gate(f: PasswordFlags) {
    f.length && f.capital && f.number
  }

  /** The client accepts a password exactly when the server's three password rules pass. */
  lemma ClientServerAgree(password: string)
    ensures Gate(Flags(password)) <==> PasswordCheck(Some(password)).None?
  {
  }

  datatype SignupForm = SignupForm(username: string, email: string, password: string)

  datatype Modal = Modal(form: SignupForm, flags: PasswordFlags)

  const InitialModal := Modal(SignupForm("", "", ""), PasswordFlags(false, false, false))

  /** `handleChange`: the named field is set; the flags are recomputed only for the password field. */
  function HandleChange(m: Modal, name: string, value: string): (r: Modal)
    ensures name != "password" ==> r.flags == m.flags && r.form.password == m.form.password
    ensures name == "password" ==> r.flags == Flags(value) && r.form == m.form.(password := value)
    ensures name == "username" ==> r.form == m.form.(username := value)
    ensures name == "email" ==> r.form == m.form.(email := value)
  {
    if name == "password" then Modal(m.form.(password := value), Flags(value))
    else if name == "username" then m.(form := m.form.(username := value))
    else if name == "email" then m.(form := m.form.(email := value))
    else m
  }

  /** `handleSubmit`: the registration request, or None when the gate is closed. */
  function HandleSubmit(m: Modal): (r: Option<RegisterRequest>)
    ensures r.Some? <==> Gate(m.flags)
    ensures r.Some? ==> r.value == RegisterRequest(Some(m.form.username), Some(m.form.email), Some(m.form.password))
  {
    if Gate(m.flags) then Some(RegisterRequest(Some(m.form.username), Some(m.form.email), Some(m.form.password)))
    else None
  }

  /** The flags describe the current password. */
  predicate FlagsCurrent(m: Modal) {
    m.flags == Flags(m.form.password)
  }

  /** The form after a sequence of field edits. */
  function Replay(m: Modal, edits: seq<(string, string)>): Modal
    decreases |edits|
  {
    if edits == [] then m else Replay(HandleChange(m, edits[0].0, edits[0].1), edits[1..])
  }

  /** From the initial form, whatever the edits, the flags describe the password being sent. */
  lemma {:induction false} ReplayKeepsFlags(m: Modal, edits: seq<(string, string)>)
    requires FlagsCurrent(m)
    ensures FlagsCurrent(Replay(m, edits))
    decreases |edits|
  {
    if edits != [] {
      ReplayKeepsFlags(HandleChange(m, edits[0].0, edits[0].1), edits[1..]);
    }
  }

  /** A request the form sends is never rejected by the server's password rules. */
  lemma SubmittedPasswordAccepted(edits: seq<(string, string)>)
    requires HandleSubmit(Replay(InitialModal, edits)).Some?
    ensures PasswordCheck(HandleSubmit(Replay(InitialModal, edits)).value.password).None?
  {
    assert FlagsCurrent(InitialModal);
    ReplayKeepsFlags(InitialModal, edits);
    ClientServerAgree(Replay(InitialModal, edits).form.password);
  }
}
