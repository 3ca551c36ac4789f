/**
 Properties that relate several authentication actions: the directory
 invariant registration keeps, and the sign-up, sign-in, verification and
 sign-out sequences a user goes through.
 */
module UserActionsProperties {
  import opened Optional
  import opened Completions
  import opened Directory
  import opened Cookies
  import opened UserActions

  /** Registration checks the email before storing, so run one after another it
      never creates a second record for an email. */
  lemma CreateAccountKeepsEmailsUnique(w: World, fullName: string, email: string, issue: string -> TokenOutcome)
    requires UniqueEmails(w.directory)
    ensures UniqueEmails(CreateAccount(w, fullName, email, issue).world.directory)
  {
  }

  /** A user registered with a fresh email can sign in with it: sign-in finds
      the stored record and hands back the account id registration stored,
      whatever user id the second code request answers, without touching the
      directory. */
  lemma RegisterThenSignIn(w: World, fullName: string, email: string,
                           issue: string -> TokenOutcome, issue': string -> TokenOutcome)
    requires forall j :: 0 <= j < |w.directory| ==> w.directory[j].email != email
    requires issue(email).TokenIssued?
    requires issue'(email).TokenIssued?
    ensures var reg := CreateAccount(w, fullName, email, issue);
            var sin := SignInUser(reg.world, email, issue');
            && reg.outcome == Normal(issue(email).userId)
            && sin.outcome == Normal(issue(email).userId)
            && sin.world.directory == reg.world.directory
            && sin.world.tokenRequests == w.tokenRequests + [email, email]
  {
    var reg := CreateAccount(w, fullName, email, issue);
    LookupAfterAppend(w.directory, NewRecord(fullName, email, issue(email).userId), Email, email);
  }

  /** Registering the same email a second time is refused before any code is
      requested, whatever the backend would answer. */
  lemma RegisterTwiceRefused(w: World, fullName: string, fullName': string, email: string,
                             issue: string -> TokenOutcome, issue': string -> TokenOutcome)
    requires CreateAccount(w, fullName, email, issue).outcome.Normal?
    ensures var reg := CreateAccount(w, fullName, email, issue);
            CreateAccount(reg.world, fullName', email, issue') == Step(Thrown(UserAlreadyExists), reg.world)
  {
    var reg := CreateAccount(w, fullName, email, issue);
    LookupAfterAppend(w.directory, NewRecord(fullName, email, reg.outcome.value), Email, email);
  }

  /** Once registered, the account resolves to its new profile record as soon
      as the backend reports that account for the session. */
  lemma RegisterThenCurrentUser(w: World, fullName: string, email: string, issue: string -> TokenOutcome)
    requires forall j :: 0 <= j < |w.directory| ==> w.directory[j].email != email
    requires issue(email).TokenIssued?
    requires forall j :: 0 <= j < |w.directory| ==> w.directory[j].accountId != issue(email).userId
    ensures var reg := CreateAccount(w, fullName, email, issue);
            GetCurrentUser(reg.world, AccountFound(issue(email).userId))
              == Normal(Some(UserRecord(fullName, email, DefaultAvatar, issue(email).userId)))
  {
    var id := issue(email).userId;
    LookupAfterAppend(w.directory, NewRecord(fullName, email, id), AccountId, id);
  }

  /** A verified session followed by a sign-out the backend confirms leaves the
      jar as it was before verification, minus any session cookie. */
  lemma VerifyThenSignOut(w: World, accountId: string, otp: string, createSession: (string, string) -> SessionOutcome)
    requires createSession(accountId, otp).SessionCreated?
    ensures var v := VerifyOtp(w, accountId, otp, createSession);
            var s := SignOutUser(v.world, SessionDeleted);
            s.outcome == Redirect(SignInPath) && s.world.jar == w.jar - {SessionCookieName}
  {
  }

  /** When the backend fails to delete the session, sign-out still redirects
      but the session cookie survives with its secret and policy. */
  lemma SignOutFailureKeepsSession(w: World, accountId: string, otp: string,
                                   createSession: (string, string) -> SessionOutcome, m: string)
    requires createSession(accountId, otp).SessionCreated?
    ensures var v := VerifyOtp(w, accountId, otp, createSession);
            var s := SignOutUser(v.world, DeleteFailed(m));
            && s.outcome == Redirect(SignInPath)
            && SessionCookieName in s.world.jar
            && s.world.jar[SessionCookieName] == Cookie(createSession(accountId, otp).secret, SessionPolicy)
  {
  }

  /** Sign-in and verification wrap every failure, so neither lets a backend
      error reach its caller; the current-user lookup passes it through. */
  lemma SignInAndVerifyRewrapBackendErrors(w: World, email: string, accountId: string, otp: string,
                                           issue: string -> TokenOutcome,
                                           createSession: (string, string) -> SessionOutcome, m: string)
    ensures var s := SignInUser(w, email, issue).outcome; s.Thrown? ==> OwnError(s.error)
    ensures var v := VerifyOtp(w, accountId, otp, createSession).outcome; v.Thrown? ==> OwnError(v.error)
    ensures GetCurrentUser(w, AccountFailed(m)) == Thrown(Sdk(m))
  {
  }
}
