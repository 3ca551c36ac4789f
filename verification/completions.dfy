/** An optional value, standing for the actions' `T | null` results. */
module Optional {

  datatype Option<+T> = None | Some(value: T) {

    /** Returns the value in Some, or the given default when None */
    function GetOr(default: T): T {
      match this
      case Some(v) => v
      case None => default
    }
  }
}

/**
 How a server action or an event handler of the application finishes, in
 JavaScript's terms: it returns a value, it throws an Error, or it calls
 Next.js's `redirect`, which also works by throwing (a redirect signal that the
 framework turns into navigation).
 */
module Completions {

  /** Every Error the authentication actions raise, with the exact message the
      code passes to `new Error(...)`. `UserNotFound` never leaves `signInUser`;
      `Sdk` is an error thrown by the identity backend's client library that the
      code does not catch. */
  datatype ActionError =
    | UserAlreadyExists
    | FailedToSendEmailOtp
    | FailedToVerifyOtp
    | UserNotFound
    | FailedToSignIn
    | FailedToSignOut
    | Sdk(message: string)

  function Message(e: ActionError): string {
    match e
    case UserAlreadyExists => "User already exists"
    case FailedToSendEmailOtp => "Failed to send email OTP"
    case FailedToVerifyOtp => "Failed to verify OTP"
    case UserNotFound => "User not found"
    case FailedToSignIn => "Failed to sign in user"
    case FailedToSignOut => "Failed to sign out user"
    case Sdk(m) => m
  }

  /** The errors whose message is fixed by the application's own code. */
  predicate OwnError(e: ActionError) {
    !e.Sdk?
  }

  /** The application's own messages tell its errors apart. */
  lemma OwnMessagesDistinct(e1: ActionError, e2: ActionError)
    requires OwnError(e1) && OwnError(e2)
    ensures Message(e1) == Message(e2) <==> e1 == e2
  {
  }

  datatype Completion<+T> =
    | Normal(value: T)
    | Thrown(error: ActionError)
    | Redirect(path: string)
  {
    predicate Abrupt() {
      !Normal?
    }
  }

  /** `try { body } catch (error) { throw new Error(message) }`: a normal
      completion passes through, anything thrown -- a redirect signal included --
      is replaced by the one error. */
  function Rewrap<T>(body: Completion<T>, error: ActionError): (r: Completion<T>)
    ensures body.Normal? ==> r == body
    ensures body.Abrupt() ==> r == Thrown(error)
  {
    if body.Normal? then body else Thrown(error)
  }

  /** `try { ... } finally { fin }` where `body` is how the try/catch part ended
      and `fin` how the finally block ended: an abrupt finally block overrides
      whatever the try/catch part did; a normal one leaves it in force. */
  function Finally<T>(body: Completion<T>, fin: Completion<()>): (r: Completion<T>)
    ensures fin.Normal? ==> r == body
    ensures fin.Thrown? ==> r == Thrown(fin.error)
    ensures fin.Redirect? ==> r == Redirect(fin.path)
  {
    match fin
    case Normal(_) => body
    case Thrown(e) => Thrown(e)
    case Redirect(p) => Redirect(p)
  }

  /** A redirect in a finally block decides the outcome whatever happened before
      it, in particular it swallows an error raised by the catch block. */
  lemma FinallyRedirectWins<T>(body: Completion<T>, path: string)
    ensures Finally(body, Redirect(path)) == Redirect(path)
    ensures Finally(Rewrap(body, FailedToSignOut), Redirect(path)) == Redirect(path)
  {
  }
}
