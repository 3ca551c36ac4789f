/**
 The email one-time-passcode server actions: registration, sign-in, code
 verification, current-user resolution and sign-out. Each action is a pure
 function from the world before the call to its completion and the world
 after it. The identity backend is not modelled; what it answers is supplied by
 the caller, as a function of the arguments the code passes it where there are
 any.
 */
module UserActions {
  import opened Optional
  import opened Completions
  import opened Directory
  import opened Cookies

  /** What the identity backend answers to `account.createEmailToken(ID.unique(), email)`. */
  datatype TokenOutcome = TokenIssued(userId: string) | TokenFailed(message: string)

  /** What it answers to `account.createSession(accountId, otp)`. */
  datatype SessionOutcome = SessionCreated(id: string, secret: string) | SessionFailed(message: string)

  /** What it answers to `account.get()` under the session credential. */
  datatype AccountOutcome = AccountFound(id: string) | AccountFailed(message: string)

  /** What it answers to `account.deleteSession("current")`. */
  datatype DeleteOutcome = SessionDeleted | DeleteFailed(message: string)

  /** The part of the world the actions touch: the users collection, the
      browser's cookie jar, and the log of emails a one-time code was requested
      for (one entry per `createEmailToken` call, whatever its outcome). */
  datatype World = World(directory: seq<UserRecord>, jar: Jar, tokenRequests: seq<string>)

  datatype Step<+T> = Step(outcome: Completion<T>, world: World)

  const SignInPath: string := "/sign-in"

  /** The record `createAccount` stores for a new user. */
  function NewRecord(fullName: string, email: string, accountId: string): UserRecord {
    UserRecord(fullName, email, DefaultAvatar, accountId)
  }

  /** The first record with this email, or null. */
  function GetUserByEmail(dir: seq<UserRecord>, email: string): (r: Option<UserRecord>)
    ensures r.None? <==> forall j :: 0 <= j < |dir| ==> dir[j].email != email
    ensures r.Some? ==> exists i :: IsFirstMatch(dir, Email, email, i) && r.value == dir[i]
  {
    Lookup(dir, Email, email)
  }

  /** Requests a code for the email; the backend's user id on success, the one
      fixed error on any backend failure. Only the request log changes. */
  function SendEmailOtp(w: World, email: string, issue: string -> TokenOutcome): (r: Step<string>)
    ensures r.world == w.(tokenRequests := w.tokenRequests + [email])
    ensures issue(email).TokenIssued? ==> r.outcome == Normal(issue(email).userId)
    ensures issue(email).TokenFailed? ==> r.outcome == Thrown(FailedToSendEmailOtp)
  {
    var attempt: Completion<string> :=
      match issue(email)
      case TokenIssued(userId) => Normal(userId)
      case TokenFailed(m) => Thrown(Sdk(m));
    Step(Rewrap(attempt, FailedToSendEmailOtp), w.(tokenRequests := w.tokenRequests + [email]))
  }

  /** Registers a new user: refuses a known email before any code is requested,
      propagates a failed request unchanged, and otherwise stores the profile
      record keyed by the backend's user id and returns that id. */
  function CreateAccount(w: World, fullName: string, email: string, issue: string -> TokenOutcome): (r: Step<string>)
    ensures r.world.jar == w.jar
    ensures GetUserByEmail(w.directory, email).Some? ==> r == Step(Thrown(UserAlreadyExists), w)
    ensures GetUserByEmail(w.directory, email).None? && issue(email).TokenFailed? ==>
      r.outcome == Thrown(FailedToSendEmailOtp) && r.world.directory == w.directory
    ensures r.outcome.Normal? <==> GetUserByEmail(w.directory, email).None? && issue(email).TokenIssued?
    ensures r.outcome.Normal? ==>
      && r.outcome.value == issue(email).userId
      && r.world.directory == w.directory + [NewRecord(fullName, email, r.outcome.value)]
      && r.world.tokenRequests == w.tokenRequests + [email]
  {
    if GetUserByEmail(w.directory, email).Some? then
      Step(Thrown(UserAlreadyExists), w)
    else
      var sent := SendEmailOtp(w, email, issue);
      match sent.outcome
      case Normal(accountId) =>
        Step(Normal(accountId), sent.world.(directory := sent.world.directory + [NewRecord(fullName, email, accountId)]))
      case _ => sent
  }

  /** Exchanges a code for a session: on acceptance the session secret is
      written as the session cookie under the fixed policy and the session id is
      returned; on rejection nothing changes and the one fixed error is raised. */
  function VerifyOtp(w: World, accountId: string, otp: string, createSession: (string, string) -> SessionOutcome): (r: Step<string>)
    ensures r.world.directory == w.directory && r.world.tokenRequests == w.tokenRequests
    ensures createSession(accountId, otp).SessionCreated? ==>
      && r.outcome == Normal(createSession(accountId, otp).id)
      && SessionCookieName in r.world.jar
      && r.world.jar[SessionCookieName] == Cookie(createSession(accountId, otp).secret, SessionPolicy)
      && r.world.jar - {SessionCookieName} == w.jar - {SessionCookieName}
    ensures createSession(accountId, otp).SessionFailed? ==>
      r.outcome == Thrown(FailedToVerifyOtp) && r.world == w
  {
    var tried: Step<string> :=
      match createSession(accountId, otp)
      case SessionCreated(id, secret) =>
        Step(Normal(id), w.(jar := SetCookie(w.jar, SessionCookieName, secret, SessionPolicy)))
      case SessionFailed(m) => Step(Thrown(Sdk(m)), w);
    Step(Rewrap(tried.outcome, FailedToVerifyOtp), tried.world)
  }

  /** The profile record of the account the session belongs to, or null when
      the directory holds none; a failing `account.get()` escapes uncaught. The
      world is left as it was. */
  function GetCurrentUser(w: World, account: AccountOutcome): (r: Completion<Option<UserRecord>>)
    ensures account.AccountFailed? ==> r == Thrown(Sdk(account.message))
    ensures account.AccountFound? ==> r.Normal?
    ensures account.AccountFound? ==>
      (r.value.None? <==> forall j :: 0 <= j < |w.directory| ==> w.directory[j].accountId != account.id)
    ensures account.AccountFound? && r.value.Some? ==>
      exists i :: IsFirstMatch(w.directory, AccountId, account.id, i) && r.value.value == w.directory[i]
  {
    match account
    case AccountFailed(m) => Thrown(Sdk(m))
    case AccountFound(id) => Normal(Lookup(w.directory, AccountId, id))
  }

  /** Ends the session: every path ends in the redirect to the sign-in page. The
      session cookie is deleted only when the backend deleted the remote
      session; when it did not, the jar is left as it was (the catch block's
      error is superseded by the finally block's redirect). */
  function SignOutUser(w: World, deletion: DeleteOutcome): (r: Step<()>)
    ensures r.outcome == Redirect(SignInPath)
    ensures r.world.directory == w.directory && r.world.tokenRequests == w.tokenRequests
    ensures deletion.SessionDeleted? ==>
      SessionCookieName !in r.world.jar && r.world.jar - {SessionCookieName} == w.jar - {SessionCookieName}
    ensures deletion.DeleteFailed? ==> r.world == w
  {
    var tried: Step<()> :=
      match deletion
      case SessionDeleted => Step(Normal(()), w.(jar := DeleteCookie(w.jar, SessionCookieName)))
      case DeleteFailed(m) => Step(Thrown(Sdk(m)), w);
    var caught := Rewrap(tried.outcome, FailedToSignOut);
    Step(Finally(caught, Redirect(SignInPath)), tried.world)
  }

  /** Starts a sign-in: an unknown email requests no code; any failure, the
      unknown email included, becomes the one fixed error. On success the
      directory record's account id is returned, not the backend's answer. */
  function SignInUser(w: World, email: string, issue: string -> TokenOutcome): (r: Step<string>)
    ensures r.world.directory == w.directory && r.world.jar == w.jar
    ensures r.outcome.Normal? || r.outcome == Thrown(FailedToSignIn)
    ensures GetUserByEmail(w.directory, email).None? ==> r == Step(Thrown(FailedToSignIn), w)
    ensures GetUserByEmail(w.directory, email).Some? ==>
      r.world.tokenRequests == w.tokenRequests + [email]
    ensures r.outcome.Normal? <==> GetUserByEmail(w.directory, email).Some? && issue(email).TokenIssued?
    ensures r.outcome.Normal? ==> r.outcome.value == GetUserByEmail(w.directory, email).value.accountId
  {
    var user := GetUserByEmail(w.directory, email);
    var tried: Step<string> :=
      if user.None? then Step(Thrown(UserNotFound), w)
      else
        var sent := SendEmailOtp(w, email, issue);
        Step(if sent.outcome.Normal? then Normal(user.value.accountId) else sent.outcome, sent.world);
    Step(Rewrap(tried.outcome, FailedToSignIn), tried.world)
  }
}
