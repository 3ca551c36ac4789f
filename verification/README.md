# StoreIt email-OTP authentication, OTP dialog and search box, in Dafny

StoreIt is a file-storage web application built on Next.js over a hosted
identity and document backend. This project models the part of it with real
logic:

- the server actions in `lib/actions/user.actions.ts` that register a user,
  sign a user in, exchange a one-time code for a session cookie, resolve the
  current user and sign out;
- the OTP dialog (`components/OTPModal.tsx`) that collects the code and calls
  those actions;
- the pure parts of the header search box (`components/Search.tsx`).

Every action is a pure function. It takes the world before the call and
returns how the call completed together with the world after it. A call
completes by returning a value, by throwing an `Error` with a fixed message, or
by a Next.js redirect. The world holds three things:

- the users collection, as a sequence of `{fullName, email, avatar, accountId}`
  records;
- the browser's cookie jar, as a map from name to value and attributes;
- a log of the emails a one-time code was requested for.

The identity backend is not modelled. Its answers are parameters:

- `createEmailToken` is an oracle from email to outcome;
- `createSession` is an oracle from account id and code to outcome;
- `account.get` and `deleteSession` are plain outcome values, since their only
  input is the ambient session credential.

`parseStringify` is taken to be the identity on plain records.

Modules: `Optional` and `Completions` (`completions.dfy`) hold JavaScript's
completion kinds, the error messages, and `catch`-rewrap and `finally`
semantics. `Directory`, `Cookies`, `UserActions` and `UserActionsProperties`
hold the server actions and their properties. `OtpModal` models the dialog.
`Strings` and `Search` (`search.dfy`) model the search box.

The model follows the code, including where it does less than a reader might
expect:

- Sign-out deletes the session cookie only when the backend deleted the remote
  session. When the backend fails, the cookie stays. The redirect to
  `/sign-in` happens on every path, because the `finally` block's redirect
  supersedes the catch block's "Failed to sign out user".
- `getCurrentUser` does not catch a failing `account.get()`. The backend's
  error reaches the caller instead of an "unauthenticated" answer.
- The OTP dialog submits a code of any length.
- The OTP dialog accepts a second submission while one is in flight.
- `createAccount` calls the document database outside any `try` block
  (`getUserByEmail`, then `createDocument`). A database failure there reaches
  the caller as the database's own error, not as one of the application's
  messages. Database failures are not modelled (see "Left out").

## Model

| member | source | states |
|---|---|---|
| `Directory.Lookup` | lib/actions/user.actions.ts:13-19 | an equality query answers null exactly when no record has the value, and otherwise the first record that has it |
| `Directory.LookupAfterAppend` | lib/actions/user.actions.ts:46-56 | storing a record never changes the answer for a value already present; it becomes the answer for its own value when that value was absent |
| `UserActions.GetUserByEmail` | lib/actions/user.actions.ts:10-20 | null exactly when no record has the email, otherwise the first record with that email |
| `UserActions.SendEmailOtp` | lib/actions/user.actions.ts:22-33 | one code request is logged for the email; the backend's user id is returned on success, and any backend failure becomes "Failed to send email OTP" |
| `UserActions.CreateAccount` | lib/actions/user.actions.ts:35-59 | a known email fails with "User already exists" and changes nothing (no code requested); a failed request propagates "Failed to send email OTP" with the directory unchanged; success happens exactly when the email is new and issuance succeeds, and then appends exactly one record with the default avatar and the issued id, which is returned |
| `UserActions.VerifyOtp` | lib/actions/user.actions.ts:61-78 | on acceptance the jar gets exactly the "appwrite-session" cookie holding the session secret with path "/", sameSite "strict", secure and httpOnly, and the session id is returned; on rejection the world is unchanged and "Failed to verify OTP" is raised |
| `UserActions.GetCurrentUser` | lib/actions/user.actions.ts:80-94 | a failing account lookup escapes with the backend's error; otherwise null exactly when no record has the account id, else the first record that does |
| `UserActions.SignOutUser` | lib/actions/user.actions.ts:96-108 | always ends in the redirect to "/sign-in"; the session cookie is removed, and nothing else changes, only when the backend deleted the session; on failure the world is unchanged |
| `UserActions.SignInUser` | lib/actions/user.actions.ts:110-124 | an unknown email requests no code and fails; every failure is "Failed to sign in user"; success happens exactly when the email is known and issuance succeeds, and then returns the directory record's account id; the directory is never changed |
| `UserActionsProperties.CreateAccountKeepsEmailsUnique` | lib/actions/user.actions.ts:36-56 | registrations run one after another never give two records the same email |
| `UserActionsProperties.RegisterThenSignIn` | lib/actions/user.actions.ts:110-119 | after registering a fresh email, sign-in with it returns the account id registration stored in the record, not whatever the second code request answered, and leaves the directory alone |
| `UserActionsProperties.RegisterTwiceRefused` | lib/actions/user.actions.ts:36-40 | a second registration of an email fails with "User already exists" and requests no code |
| `UserActionsProperties.RegisterThenCurrentUser` | lib/actions/user.actions.ts:85-93 | a newly registered account resolves to its new profile record |
| `UserActionsProperties.VerifyThenSignOut` | lib/actions/user.actions.ts:99-106 | a confirmed sign-out after verification leaves the jar as before verification, minus the session cookie |
| `UserActionsProperties.SignOutFailureKeepsSession` | lib/actions/user.actions.ts:99-107 | when remote deletion fails, sign-out still redirects and the session cookie survives with its secret and policy |
| `UserActionsProperties.SignInAndVerifyRewrapBackendErrors` | lib/actions/user.actions.ts:61-123 | sign-in and verification raise only the application's own messages; the current-user lookup passes the backend's error through |
| `Completions.Rewrap` | lib/actions/user.actions.ts:29-32 | a `catch` that throws a new Error lets a normal completion through and turns anything thrown, a redirect included, into that one error (also at :74-77, :102-104 and :120-123) |
| `Completions.Finally` | lib/actions/user.actions.ts:105-107 | a `finally` block that completes normally leaves the try/catch outcome in force; one that throws or redirects replaces it |
| `Completions.FinallyRedirectWins` | lib/actions/user.actions.ts:102-107 | a redirect in a finally block decides the outcome, even over an error the catch block raised |
| `Completions.OwnMessagesDistinct` | lib/actions/user.actions.ts:28-122 | the application's own error messages are pairwise distinct |
| `Cookies.SetCookie` | lib/actions/user.actions.ts:66-71 | the named cookie holds the value and attributes, and every other cookie is unchanged |
| `Cookies.DeleteCookie` | lib/actions/user.actions.ts:101 | the named cookie is gone, every other cookie is unchanged, and deleting an absent cookie is a no-op |
| `OtpModal.Open` | components/OTPModal.tsx:23-27 | the dialog starts open, with an empty code buffer, not loading, not navigated and with no code sent yet |
| `OtpModal.Type` | components/OTPModal.tsx:70 | the buffer takes the input's value cut at six characters and nothing else changes |
| `OtpModal.BeginSubmit` | components/OTPModal.tsx:29-34 | every click, whether or not a verification is in flight and whatever the code's length, marks the dialog loading and sends the current code for verification (it is appended to the log of submitted codes); nothing else changes |
| `OtpModal.SettleSubmit` | components/OTPModal.tsx:33-43 | loading ends on every outcome; the router goes to "/" only when verification returned a value; a failure leaves the dialog open with its buffer |
| `OtpModal.Submit` | components/OTPModal.tsx:29-44 | the buffer is sent as is with the dialog's account id; the handler never fails; loading ends; on acceptance the dialog navigates home and the session cookie is set; every submission adds the buffer to the log of sent codes; on rejection nothing else changes but the loading flag, and the world is unchanged |
| `OtpModal.Resend` | components/OTPModal.tsx:46-48 | one code is requested for the dialog's own email, the dialog is untouched, and a failed request escapes the handler as "Failed to send email OTP" |
| `OtpModal.SetOpen` | components/OTPModal.tsx:51 | the dialog's open-change callback sets the open flag to what the dialog reports and changes nothing else |
| `OtpModal.Close` | components/OTPModal.tsx:61 | the dialog closes and nothing else changes |
| `OtpModal.RunKeepsValid` | components/OTPModal.tsx:70 | no sequence of events, submissions overlapping or not, puts more than six characters in the buffer or changes the account and email |
| `OtpModal.OverlappingSubmits` | components/OTPModal.tsx:29-43 | two clicks before either settles both send the code for verification (the log gains it twice), and the first settlement ends loading while the second verification is still in flight |
| `OtpModal.SubmitIgnoresLoadingAndLength` | components/OTPModal.tsx:29-34 | a submission runs and ends the same way whether or not one is in flight, and verifies the buffer whatever its length |
| `Search.Initial` | components/Search.tsx:14-18 | the box starts with an empty query, no results, closed and with no navigation |
| `Search.PageSegment` | components/Search.tsx:50 | video and audio map to the media page; every other type t maps to t + "s" |
| `Search.RouteRoundTrip` | components/Search.tsx:50 | a result's route reads back as the page for its type and the query unchanged |
| `Search.ClickItem` | components/Search.tsx:46-51 | a click closes and empties the dropdown and pushes the result's route built from the typed query |
| `Search.ClickRouteCarriesQuery` | components/Search.tsx:50 | the route a click pushes reads back as the type's page and the currently typed query |
| `Search.MediaTypesShareRoute` | components/Search.tsx:50 | video and audio results both go to "/media?query=" followed by the query |
| `Search.OnDebouncedQuery` | components/Search.tsx:24-38 | an empty debounced query clears and closes the dropdown with no search and pushes the path with the parameter string cut out; otherwise the results are exactly the fetched documents and the dropdown opens |
| `Search.EmptyQueryKeepsBarePath` | components/Search.tsx:26-30 | with no parameter string, the empty-query branch pushes the path unchanged |
| `Search.OnSearchParam` | components/Search.tsx:40-44 | a missing or empty `query` parameter resets the typed query, and any other value leaves the box as it was |
| `Strings.IndexOf` | components/Search.tsx:29 | the index returned is where the pattern first occurs, and no index is returned exactly when it occurs nowhere |
| `Strings.RemoveFirstInverse` | components/Search.tsx:29 | cutting out the first occurrence shortens the string by the pattern, and putting the pattern back restores it |
| `Strings.RemoveEmpty` | components/Search.tsx:29 | cutting out the empty string changes nothing |

## Left out

- The identity backend's internals: token creation, session creation, code
  validity, code expiry and code replacement on resend. What the backend
  answers is a parameter.
- `createAdminClient` and `createSessionClient` are not part of this model. A
  session client that fails before `signOutUser`'s `try` block would skip both
  the cookie deletion and the redirect. This is not modelled.
- The listing order of the document database is not modelled: a created
  record is assumed to be listed after the existing ones, since the queries
  pass no ordering. `Directory.LookupAfterAppend` rests on that assumption.
- Failures of the document database (`listDocuments`, `createDocument`) are not
  modelled: the directory always answers. In `createAccount` such a failure
  would escape unwrapped; in `signInUser` it would become "Failed to sign in
  user". Directory documents carry only the four profile fields, with no
  document id.
- `console.error` logging is left out, as is the out-of-band delivery of the
  code by email.
- Concurrency. Two registrations of the same email can race between the
  duplicate check and the insertion. `CreateAccountKeepsEmailsUnique` covers
  registrations run one after another only. Overlapping dialog submissions are
  modelled as interleaved events. The 300 ms debounce is left out: the
  debounced query is a parameter.
- Typing into the search input (`setQuery` from the input's change event,
  `components/Search.tsx:63-65`) is left out as widget plumbing: the query is
  part of the box's state.
- React rendering and the UI widgets are left out. That covers the dialog, the
  code input's character filter, images, buttons and the results list. So is
  `components/Sidebar.tsx`, which only renders.
- `next.config.ts` is left out: it is build configuration.
- The file search (`getFiles`) is left out. Its documents, or its failure, are
  a parameter.
- How the router and the URL parse a pushed route is left out.
  `Search.ParseRoute` is a reference reading of the route, not a URL parser.
  The query is interpolated without encoding, so a real URL parser could read
  it differently.
- Search.RouteRoundTrip: stated only for file types without a '?'. File types
  are assumed to contain no '?'; the helper that assigns them is not part of
  this model.
- Search.ClickRouteCarriesQuery: stated only for file types without a '?', on
  the same assumption.
- OtpModal.Type: lengths count Unicode scalar values (Dafny's `string`), while
  the code input's `maxLength` counts UTF-16 code units. For characters outside
  the Basic Multilingual Plane, which take two code units each, the model keeps
  up to six characters where the input keeps at most six code units.
- OtpModal.RunKeepsValid: the six-character bound on the code buffer counts
  Unicode scalar values, not UTF-16 code units, so it is weaker than the
  input's limit for characters outside the Basic Multilingual Plane.
- Strings.IndexOf: positions count Unicode scalar values, unlike JavaScript's
  `indexOf`, which counts UTF-16 code units. `Strings.RemoveFirst` cuts out the
  same characters either way.
