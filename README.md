# Vite-Authorization page controllers, modelled in Dafny

The application is three browser pages — login (`src/main.js`), registration
(`src/register.js`) and account (`src/user.js`) — that talk to a remote user API
with axios and keep one bearer token under the localForage key `authToken`.
This project models the decision rules inside those pages:

- the email check both forms run before submitting, the regular expression
  `^[^\s@]+@[^\s@]+\.[^\s@]+$` tested against the lower-cased input
  (`EmailPattern`, `LoginPage.ValidateEmail`, `RegisterPage.ValidateEmail`);
- the login and registration submit handlers: required fields first, then the
  email check, then the busy button and the request, then on success the token
  is stored and the browser goes to `/pages/user.html`, on failure the button is
  restored and the server's message or a fallback is shown;
- the session guard each page runs on load, in its two variants (login and
  registration pages: stay, redirect on 200, evict and warn on error; account
  page: go to `/` without a token, render on 200, evict and go to `/` on error);
- the account page's logout, delete-account and edit-profile handlers and the
  two display decisions (role label, inactive banner).

The network is replaced by the reply each request would get (`Http.HttpReply`):
a response with a status, a parsed payload and an optional `message` field, or
no response. The one library rule encoded is axios' default status check
(`Http.Settle`): only a 2xx response resolves, everything else is thrown, which
is why a 2xx other than 200 falls through silently wherever a page tests
`response.status === 200`. localForage is a `Storage.TokenStore` object with
one field, `authToken: Option<string>`, shared by the pages. Each page is a
class whose fields are what the handlers change: button state and alert text
(login, registration), rendered account and last `alert()` dialog (account),
the navigation target (`window.location.href`), and the log of requests sent,
so that "no request is made" can be stated.

The handlers are `async` functions that suspend at their request. The login and
registration handlers are modelled as the part before the request
(`SubmitLogin`, `SubmitRegister`: checks, busy button, request sent) and the
part after it (`FinishLogin`, `FinishRegister`), and as the two in sequence
(`HandleLogin`, `HandleRegister`), so the busy state the user sees while the
request is pending is part of a postcondition.

Each page class keeps an invariant (`Valid`) that every handler preserves: the
button shows its busy label exactly while disabled, every request the page has
ever sent passed the form checks (a login or registration with non-empty fields
and a valid email, an account lookup with a non-empty token, a deletion with a
typed password, an update whose body has `name` and `email` and a non-empty
`password` if any), and the account page shows an account only for a token it
sent for validation and the API answered with a 200 (a ghost field, `accepted`,
records that token).

The email regular expression is decided by the automaton it compiles to
(`EmailPattern.Run`), proved equal to the expression's language written as a
concatenation (`EmailPattern.InPatternLanguage`), and from there to the shape
"non-empty local part, one '@', a domain with an inner '.', no whitespace".

Files: `wrappers.dfy` (Option), `http.dfy` (replies, axios' status rule,
JavaScript values, requests, the user record), `storage.dfy` (the token
store), `email_pattern.dfy`, `login_page.dfy`, `register_page.dfy`,
`account_page.dfy`, `scenarios.dfy` (whole interactions driven through the
contracts).

## Model

| member | source | states |
|---|---|---|
| `EmailPattern.RunAccepts` | src/main.js:70 | from every automaton state, the run ends accepting exactly on the suffixes that state's sub-language holds |
| `EmailPattern.StepAccepts` | src/main.js:70 | reading one character moves between the states' sub-languages exactly (the automaton's step is correct) |
| `EmailPattern.RegexTestIsPattern` | src/main.js:70 | the automaton accepts a string iff it is a non-empty `[^\s@]` run, '@', a non-empty run, '.', a non-empty run |
| `EmailPattern.SplitAtFirstAt` | src/main.js:70 | for `local` without '@', `local + "@" + domain` matches iff `local` is non-empty and plain and `domain` is plain with a '.' strictly inside it |
| `EmailPattern.NoAtRejected` | src/main.js:70 | a string without '@' never matches |
| `EmailPattern.AcceptedShape` | src/main.js:70 | a matching string holds exactly one '@' and no whitespace |
| `EmailPattern.DomainSplit` | src/main.js:70 | `[^\s@]+\.[^\s@]+` split at its '.' is two plain runs, and conversely |
| `EmailPattern.RunIgnoresCase` | src/main.js:71 | lower-casing the input never changes where the automaton ends |
| `LoginPage.ValidateEmail` | src/main.js:69-72 | the lower-cased test accepts exactly the strings of the pattern's language, judged on the input itself |
| `LoginPage.ValidateEmailShape` | src/main.js:69-72 | split at its first '@', an input is accepted iff the local part is non-empty, both parts have no whitespace or '@', and the domain has a '.' that is neither first nor last |
| `LoginPage.ValidateEmailRejects` | src/main.js:69-72 | zero '@', two or more '@', or any whitespace: rejected |
| `LoginPage.ValidateEmailIgnoresCase` | src/main.js:71 | an input and its lower-cased form get the same answer |
| `RegisterPage.ValidateEmail` | src/register.js:71-74 | the registration page's copy accepts exactly the pattern's language |
| `RegisterPage.ValidateEmailAgrees` | src/register.js:71-74 | the registration page's copy agrees with the login page's on every input |
| `Http.Settle` | src/main.js:85-95 | a reply resolves iff it is a response with a 2xx status, carrying its status and data; otherwise it is thrown with the response's message, or none when there was no response |
| `Http.MessageOr` | src/main.js:63 | the shown text is the server's message when present and non-empty, the fallback otherwise |
| `Storage.TokenStore.constructor` | src/main.js:30 | the store starts with whatever token the browser already holds |
| `Storage.TokenStore.GetItem` | src/main.js:30 | reading returns the stored token or none |
| `Storage.TokenStore.SetItem` | src/main.js:60 | after writing, the stored token is exactly the one written |
| `Storage.TokenStore.RemoveItem` | src/main.js:97 | after removing, no token is stored |
| `LoginPage.Page.constructor` | src/main.js:10-27 | the freshly rendered page: button enabled with label "Login", no alert, no navigation, no request |
| `LoginPage.Page.ShowAlert` | src/main.js:74-78 | the alert shows the given message and nothing else changes |
| `LoginPage.Page.ValidateTokenAndRedirect` | src/main.js:84-100 | one account request with the token; 200 navigates to the account page; other 2xx change nothing; an error removes the token, shows "Session expired. Please log in again." and does not navigate; the invariant is kept |
| `LoginPage.Page.CheckStoredToken` | src/main.js:29-36 | no stored token (or an empty one): nothing at all changes and no request is made; otherwise the guard's outcome above |
| `LoginPage.Page.SubmitLogin` | src/main.js:39-59 | a request is sent iff both fields are non-empty and the email is valid; an empty field shows "Email and password are required." (checked first), an invalid email "Please enter a valid email address.", each leaving button, navigation and requests as they were; when sent, the button is disabled with label "Logging in..." |
| `LoginPage.Page.FinishLogin` | src/main.js:58-66 | success stores exactly the returned token and navigates to /pages/user.html; failure re-enables the button with label "Login", keeps the token and location, and shows the server's message or "An error occurred while logging in." |
| `LoginPage.Page.HandleLogin` | src/main.js:39-67 | the whole handler: validation failures send nothing and keep token, button and location; success stores the token, navigates and leaves the alert as it was; failure restores the button, keeps the token and shows the message or fallback |
| `RegisterPage.Page.constructor` | src/register.js:10-28 | the freshly rendered page: button enabled with label "Register", no alert, no navigation, no request |
| `RegisterPage.Page.ShowAlert` | src/register.js:76-80 | the alert shows the given message and nothing else changes |
| `RegisterPage.Page.ValidateTokenAndRedirect` | src/register.js:86-102 | same rules as the login page: 200 navigates, other 2xx nothing, an error evicts the token and shows the session-expired notice without navigating |
| `RegisterPage.Page.CheckStoredToken` | src/register.js:30-37 | no stored token: nothing changes and no request; otherwise the guard's outcome |
| `RegisterPage.Page.SubmitRegister` | src/register.js:40-61 | a request is sent iff name, email and password are non-empty and the email valid; an empty field shows "Name, email, and password are required.", an invalid email "Please enter a valid email address.", leaving the button as it was; when sent, the button is disabled with label "Registering..." |
| `RegisterPage.Page.FinishRegister` | src/register.js:60-68 | success stores the returned token and navigates to /pages/user.html; failure re-enables the button with label "Register", keeps the token, and shows the server's message or "An error occurred while registering." |
| `RegisterPage.Page.HandleRegister` | src/register.js:40-69 | the whole handler, with the same branches as the login handler: success stores the token, navigates and leaves the alert as it was |
| `AccountPage.RoleLabel` | src/user.js:45 | "Admin" iff the role is the number 0 (strict equality), "User" otherwise |
| `AccountPage.ShowsInactiveNotice` | src/user.js:46 | the banner shows iff `active` is one of the falsy values undefined, null, false, 0, "" |
| `AccountPage.Render` | src/user.js:34-46 | the view shows the record's id, name and email, "Admin" iff role is 0, and the banner iff `active` is falsy |
| `AccountPage.BuildUpdateBody` | src/user.js:176-183 | the body has `name` and `email` equal to the inputs, and a `password` key iff the password input is non-empty, then equal to it |
| `AccountPage.Page.constructor` | src/user.js:7 | the page before its load handler: nothing shown, no navigation, no request |
| `AccountPage.Page.DisplayUserData` | src/user.js:34-46 | the page now shows the rendered record; called only once a token was accepted with a 200, so the invariant is kept |
| `AccountPage.Page.ValidateTokenAndRedirect` | src/user.js:16-32 | one account request with the token; 200 records the token as accepted, renders the returned record and keeps the token; other 2xx change nothing; an error removes the token and navigates to '/' |
| `AccountPage.Page.CheckStoredToken` | src/user.js:7-14 | no stored token (or an empty one): navigation to '/' with no request; otherwise the guard's outcome |
| `AccountPage.Page.HandleLogout` | src/user.js:67-70 | the token is gone and the location is '/', with no request and nothing else changed |
| `AccountPage.Page.HandleDeleteAccount` | src/user.js:115-142 | an empty password shows "Please enter your password." and sends nothing, keeping the token; otherwise one delete request with the stored token and password; 200 shows the success dialog, clears the token and navigates to '/'; other 2xx change nothing; an error shows the error dialog and keeps token and location |
| `AccountPage.Page.HandleEditProfile` | src/user.js:169-202 | one update request with the stored token and a body holding password iff it was typed; 200 re-renders from the response; other 2xx change nothing; an error shows the error dialog and keeps the view; the token and location never change |
| `Scenarios.ExampleAddressIsValid` | src/main.js:69-72 | "user@example.com" passes the email check |

## Left out

- Page markup, Tailwind classes, and the creation and removal of the confirmation and edit modals: presentation only; of `displayUserData` only the displayed fields and the role and banner decisions are kept.
- The 3-second timer that hides the alert box: the alert is modelled as the last message shown.
- `console.error` calls, and the order in which concurrent async tasks and page navigations interleave: each handler runs to completion, and setting the location does not stop later handlers in the model.
- axios and localForage internals: each request is replaced by the reply it gets, and the store by its one entry; a failing store (an exception from localForage) is not modelled.
- `EmailPattern.ToLower`: lower-cases ASCII A-Z only; JavaScript's full Unicode case mapping, including mappings that change a string's length, is not modelled. No case mapping turns a character into or out of whitespace, '@' or '.', but this model proves the case-independence only for its own mapping.
- The browser's own constraint validation from the `required` and `type="email"` attributes of the form inputs: it is outside the scripts; the model checks what the handlers check.
- `Http.JsValue`: numbers are integers, so NaN and fractional values of `role` and `active` are not modelled; the token, server messages and the user's name, email and id are taken to be strings.
- Escaping of server-supplied strings inserted into the page: a rendering concern.
