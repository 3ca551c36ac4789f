/**
 The one-time-passcode dialog shown after registration or sign-in. It holds the
 pending account id and email it was opened for, the code typed so far, whether
 it is open, whether a verification is in flight, where the router was sent,
 and the codes the dialog has sent for verification, in order.
 The dialog neither requires a full six-character code before submitting nor
 refuses a second submission while one is in flight: the model keeps both.
 */
module OtpModal {
  import opened Optional
  import opened Completions
  import opened Cookies
  import opened UserActions

  /** The code input's `maxLength`. */
  const CodeLength: nat := 6

  /** Where a verified user is sent. */
  const HomePath: string := "/"

  datatype Modal = Modal(
    accountId: string,
    email: string,
    isOpen: bool,
    password: string,
    isLoading: bool,
    navigatedTo: Option<string>,
    submitted: seq<string>)

  /** What an event handler leaves behind: the dialog, the world its server
      action call produced, and how the handler's own promise settled. */
  datatype Handled = Handled(modal: Modal, world: World, settled: Completion<()>)

  /** The code buffer never holds more characters than the input accepts. */
  predicate Valid(m: Modal) {
    |m.password| <= CodeLength
  }

  /** The dialog as first rendered for a pending verification. */
  function Open(accountId: string, email: string): (m: Modal)
    ensures m.accountId == accountId && m.email == email
    ensures m.isOpen && m.password == "" && !m.isLoading && m.navigatedTo.None?
    ensures m.submitted == []
    ensures Valid(m)
  {
    Modal(accountId, email, true, "", false, None, [])
  }

  /** The first n characters of s. */
  function Truncate(s: string, n: nat): (r: string)
    ensures |r| <= n
    ensures |s| <= n ==> r == s
    ensures |s| > n ==> |r| == n
    ensures r <= s
  {
    if |s| <= n then s else s[..n]
  }

  /** The code input reports a new value; it cuts the value at `maxLength`.
      Which characters the widget lets through is not modelled. */
  function Type(m: Modal, value: string): (r: Modal)
    ensures Valid(r)
    ensures r == m.(password := r.password)
    ensures r.password <= value
    ensures |value| <= CodeLength ==> r.password == value
    ensures |value| > CodeLength ==> r.password == value[..CodeLength]
  {
    m.(password := Truncate(value, CodeLength))
  }

  /** The synchronous part of `handleSubmit`, up to its `await`: the dialog is
      marked loading and `verifyOTP` is called with the buffer. The click's
      default is prevented, so the dialog action does not close the dialog.
      There is no guard: a click while loading, or with fewer than six
      characters, starts a verification all the same. */
  function BeginSubmit(m: Modal): (r: Modal)
    ensures r.isLoading
    ensures r.submitted == m.submitted + [m.password]
    ensures r.(isLoading := m.isLoading, submitted := m.submitted) == m
  {
    m.(isLoading := true, submitted := m.submitted + [m.password])
  }

  /** The rest of `handleSubmit` once `verifyOTP` has settled: a returned value
      (always a `{sessionId}` object, so always truthy) sends the router home; a
      raised error is caught and logged; in every case loading ends. */
  function SettleSubmit(m: Modal, verified: Completion<string>): (r: Modal)
    ensures !r.isLoading
    ensures r.isOpen == m.isOpen && r.password == m.password
    ensures r.accountId == m.accountId && r.email == m.email && r.submitted == m.submitted
    ensures verified.Normal? ==> r.navigatedTo == Some(HomePath)
    ensures !verified.Normal? ==> r.navigatedTo == m.navigatedTo
  {
    var pushed := if verified.Normal? then Some(HomePath) else m.navigatedTo;
    m.(navigatedTo := pushed, isLoading := false)
  }

  /** A whole submission: the code buffer, whatever its length, is sent with the
      dialog's account id; the handler itself never fails. */
  function Submit(m: Modal, w: World, createSession: (string, string) -> SessionOutcome): (r: Handled)
    ensures r.settled == Normal(())
    ensures !r.modal.isLoading
    ensures r.modal.isOpen == m.isOpen && r.modal.password == m.password
    ensures r.modal.accountId == m.accountId && r.modal.email == m.email
    ensures r.modal.submitted == m.submitted + [m.password]
    ensures createSession(m.accountId, m.password).SessionCreated? ==>
      && r.modal.navigatedTo == Some(HomePath)
      && SessionCookieName in r.world.jar
      && r.world.jar[SessionCookieName] == Cookie(createSession(m.accountId, m.password).secret, SessionPolicy)
    ensures createSession(m.accountId, m.password).SessionFailed? ==>
      r.modal == m.(isLoading := false, submitted := m.submitted + [m.password]) && r.world == w
  {
    var started := BeginSubmit(m);
    var verified := VerifyOtp(w, m.accountId, m.password, createSession);
    // catch (error) { console.error(...) } swallows the error; finally only resets loading
    var caught: Completion<()> := Normal(());
    Handled(SettleSubmit(started, verified.outcome), verified.world, Finally(caught, Normal(())))
  }

  /** `handleResendOTP`: requests a new code for the dialog's own email and
      leaves the dialog untouched. Nothing catches a failed request, so it
      escapes the handler. */
  function Resend(m: Modal, w: World, issue: string -> TokenOutcome): (r: Handled)
    ensures r.modal == m
    ensures r.world == w.(tokenRequests := w.tokenRequests + [m.email])
    ensures r.settled.Normal? <==> issue(m.email).TokenIssued?
    ensures !r.settled.Normal? ==> r.settled == Thrown(FailedToSendEmailOtp)
  {
    var sent := SendEmailOtp(w, m.email, issue);
    var settled: Completion<()> :=
      match sent.outcome
      case Normal(_) => Normal(())
      case Thrown(e) => Thrown(e)
      case Redirect(p) => Redirect(p);
    Handled(m, sent.world, settled)
  }

  /** The dialog's `onOpenChange` callback. */
  function SetOpen(m: Modal, open: bool): (r: Modal)
    ensures r.isOpen == open
    ensures r == m.(isOpen := open)
  {
    m.(isOpen := open)
  }

  /** The close icon: the dialog closes and nothing else changes. */
  function Close(m: Modal): (r: Modal)
    ensures !r.isOpen
    ensures r.(isOpen := m.isOpen) == m
  {
    SetOpen(m, false)
  }

  /** The events the dialog reacts to, with the settlement of a verification
      delivered separately from the click that started it, so that submissions
      may overlap. */
  datatype Event =
    | Typed(value: string)
    | SubmitClicked
    | SubmitSettled(verified: Completion<string>)
    | ResendClicked
    | OpenChanged(open: bool)
    | CloseClicked

  function Apply(m: Modal, e: Event): Modal {
    match e
    case Typed(v) => Type(m, v)
    case SubmitClicked => BeginSubmit(m)
    case SubmitSettled(v) => SettleSubmit(m, v)
    case ResendClicked => m
    case OpenChanged(b) => SetOpen(m, b)
    case CloseClicked => Close(m)
  }

  function Run(m: Modal, events: seq<Event>): Modal
    decreases |events|
  {
    if |events| == 0 then m else Run(Apply(m, events[0]), events[1..])
  }

  /** Every event keeps the code buffer within the input's length. */
  lemma ApplyKeepsValid(m: Modal, e: Event)
    requires Valid(m)
    ensures Valid(Apply(m, e))
    ensures Apply(m, e).accountId == m.accountId && Apply(m, e).email == m.email
  {
  }

  /** No sequence of events, in any interleaving, overfills the code buffer or
      changes which account and email the dialog verifies. */
  lemma {:induction false} RunKeepsValid(m: Modal, events: seq<Event>)
    requires Valid(m)
    ensures Valid(Run(m, events))
    ensures Run(m, events).accountId == m.accountId && Run(m, events).email == m.email
    decreases |events|
  {
    if |events| > 0 {
      ApplyKeepsValid(m, events[0]);
      RunKeepsValid(Apply(m, events[0]), events[1..]);
    }
  }

  /** Two clicks before either verification settles both send the code for
      verification, and the first settlement ends loading while the second
      verification is still in flight. */
  lemma OverlappingSubmits(m: Modal, first: Completion<string>)
    ensures var r := Run(m, [SubmitClicked, SubmitClicked, SubmitSettled(first)]);
            && |r.submitted| == |m.submitted| + 2
            && (forall i :: 0 <= i < |m.submitted| ==> r.submitted[i] == m.submitted[i])
            && r.submitted[|m.submitted|] == m.password
            && r.submitted[|m.submitted| + 1] == m.password
            && !r.isLoading && r.password == m.password
  {
    var es := [SubmitClicked, SubmitClicked, SubmitSettled(first)];
    var a := Apply(m, SubmitClicked);
    var b := Apply(a, SubmitClicked);
    assert es[1..] == [SubmitClicked, SubmitSettled(first)];
    assert es[1..][1..] == [SubmitSettled(first)];
    assert Run(b, [SubmitSettled(first)]) == SettleSubmit(b, first) by {
      assert [SubmitSettled(first)][1..] == [];
    }
    assert Run(m, es) == Run(a, es[1..]) == Run(b, es[1..][1..]);
  }

  /** A submission is made, and ends the same way, whether or not one is
      already in flight and whatever the length of the code. */
  lemma SubmitIgnoresLoadingAndLength(m: Modal, w: World, createSession: (string, string) -> SessionOutcome)
    ensures Submit(m.(isLoading := true), w, createSession) == Submit(m.(isLoading := false), w, createSession)
    ensures Submit(m, w, createSession).world == VerifyOtp(w, m.accountId, m.password, createSession).world
  {
  }
}
