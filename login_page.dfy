/** The login page: its email check, its submit handler and the token check
    it runs once loaded. The page's observable state is the submit button
    (enabled, label), the alert text, the navigation target and the requests
    sent so far; the token lives in the shared `TokenStore`. */
module LoginPage {
  import opened Wrappers
  import opened Http
  import opened Storage
  import EmailPattern

  const AccountPageUrl := "/pages/user.html"
  const IdleLabel := "Login"
  const BusyLabel := "Logging in..."
  const RequiredMessage := "Email and password are required."
  const InvalidEmailMessage := "Please enter a valid email address."
  const LoginFailedMessage := "An error occurred while logging in."
  const SessionExpiredMessage := "Session expired. Please log in again."

  /** `validateEmail`: the pattern tested against the lower-cased input. Its
      answer is that of the pattern on the input itself. */
  function ValidateEmail(email: string): (valid: bool)
    ensures valid <==> EmailPattern.InPatternLanguage(email)
  {
    EmailPattern.RunIgnoresCase(EmailPattern.Start, email);
    EmailPattern.RegexTestIsPattern(email);
    EmailPattern.RegexTest(EmailPattern.ToLower(email))
  }

  /** Split at its first '@', an address is accepted exactly when the part
      before is non-empty and the two parts hold no whitespace and no further
      '@', and the part after has a '.' that is neither its first nor its
      last character. */
  lemma ValidateEmailShape(local: string, domain: string)
    requires '@' !in local
    ensures ValidateEmail(local + "@" + domain)
            <==> 0 < |local| && EmailPattern.AllPlain(local) && EmailPattern.IsDomain(domain)
  {
    EmailPattern.RegexTestIsPattern(local + "@" + domain);
    EmailPattern.SplitAtFirstAt(local, domain);
  }

  /** No '@', two or more of them, or any whitespace: rejected. */
  lemma ValidateEmailRejects(email: string)
    ensures multiset(email)['@'] != 1 ==> !ValidateEmail(email)
    ensures (exists i :: 0 <= i < |email| && EmailPattern.IsWhitespace(email[i])) ==> !ValidateEmail(email)
  {
    EmailPattern.RegexTestIsPattern(email);
    if EmailPattern.RegexTest(email) {
      EmailPattern.AcceptedShape(email);
    }
  }

  /** Lower-casing the input first never changes the answer. */
  lemma ValidateEmailIgnoresCase(email: string)
    ensures ValidateEmail(EmailPattern.ToLower(email)) == ValidateEmail(email)
  {
    var lowered := EmailPattern.ToLower(email);
    EmailPattern.RunIgnoresCase(EmailPattern.Start, email);
    EmailPattern.RegexTestIsPattern(email);
    EmailPattern.RegexTestIsPattern(lowered);
  }

  /** The only requests this page ever sends: a login whose fields passed both
      checks, and an account lookup carrying a non-empty stored token. */
  predicate Sendable(r: Request) {
    match r
    case PostLogin(email, password) => email != "" && password != "" && ValidateEmail(email)
    case GetAccount(token) => token != ""
    case _ => false
  }

  class Page {
    const store: TokenStore
    var buttonDisabled: bool
    var buttonLabel: string
    var alert: Option<string>
    var location: Option<string>
    var requests: seq<Request>

    /** The button shows its busy label exactly while it is disabled, and
        nothing that failed the form checks ever reached the network. */
    ghost predicate Valid()
      reads this
    {
      && buttonLabel == (if buttonDisabled then BusyLabel else IdleLabel)
      && forall r :: r in requests ==> Sendable(r)
    }

    /** The page as the DOMContentLoaded handler renders it. */
    constructor (store: TokenStore)
      ensures Valid()
      ensures this.store == store
      ensures !buttonDisabled && alert == None && location == None && requests == []
    {
      this.store := store;
      buttonDisabled := false;
      buttonLabel := IdleLabel;
      alert := None;
      location := None;
      requests := [];
    }

    /** `showAlert`: the alert box now shows `message`. */
    method ShowAlert(message: string)
      modifies this`alert
      ensures alert == Some(message)
    {
      alert := Some(message);
    }

    /** `validateTokenAndRedirect`: a 200 sends the user to the account page,
        any other 2xx changes nothing, and a thrown error evicts the token and
        shows the session-expired notice without navigating. */
    method ValidateTokenAndRedirect(token: string, reply: HttpReply<UserRecord>)
      requires Valid() && token != ""
      modifies this, store
      ensures Valid()
      ensures requests == old(requests) + [GetAccount(token)]
      ensures buttonDisabled == old(buttonDisabled) && buttonLabel == old(buttonLabel)
      ensures Settle(reply).Resolved? ==>
        && store.authToken == old(store.authToken) && alert == old(alert)
        && location == (if Settle(reply).status == 200 then Some(AccountPageUrl) else old(location))
      ensures Settle(reply).Rejected? ==>
        store.authToken == None && alert == Some(SessionExpiredMessage) && location == old(location)
    {
      requests := requests + [GetAccount(token)];
      match Settle(reply) {
        case Resolved(status, _) =>
          if status == 200 {
            location := Some(AccountPageUrl);
          }
        case Rejected(_) =>
          store.RemoveItem();
          ShowAlert(SessionExpiredMessage);
      }
    }

    /** The token check at the end of the DOMContentLoaded handler: without a
        stored token nothing happens; with one, it is validated. */
    method CheckStoredToken(reply: HttpReply<UserRecord>)
      requires Valid()
      modifies this, store
      ensures Valid()
      ensures !HasToken(old(store.authToken)) ==> unchanged(this, store)
      ensures HasToken(old(store.authToken)) ==>
        && requests == old(requests) + [GetAccount(old(store.authToken).value)]
        && buttonDisabled == old(buttonDisabled) && buttonLabel == old(buttonLabel)
      ensures HasToken(old(store.authToken)) && Settle(reply).Resolved? ==>
        && store.authToken == old(store.authToken) && alert == old(alert)
        && location == (if Settle(reply).status == 200 then Some(AccountPageUrl) else old(location))
      ensures HasToken(old(store.authToken)) && Settle(reply).Rejected? ==>
        store.authToken == None && alert == Some(SessionExpiredMessage) && location == old(location)
    {
      var authToken := store.GetItem();
      if HasToken(authToken) {
        ValidateTokenAndRedirect(authToken.value, reply);
      }
    }

    /** `handleLogin` up to its request: the required-field check, then the
        email check, each ending the handler with an alert; otherwise the
        button turns busy and the request goes out. */
    method SubmitLogin(email: string, password: string) returns (sent: bool)
      requires Valid()
      modifies this
      ensures Valid()
      ensures sent <==> email != "" && password != "" && ValidateEmail(email)
      ensures email == "" || password == "" ==> alert == Some(RequiredMessage)
      ensures email != "" && password != "" && !ValidateEmail(email) ==> alert == Some(InvalidEmailMessage)
      ensures !sent ==>
        && buttonDisabled == old(buttonDisabled) && buttonLabel == old(buttonLabel)
        && location == old(location) && requests == old(requests)
      ensures sent ==>
        && buttonDisabled && buttonLabel == BusyLabel
        && requests == old(requests) + [PostLogin(email, password)]
        && alert == old(alert) && location == old(location)
    {
      if email == "" || password == "" {
        ShowAlert(RequiredMessage);
        return false;
      }
      if !ValidateEmail(email) {
        ShowAlert(InvalidEmailMessage);
        return false;
      }
      buttonDisabled := true;
      buttonLabel := BusyLabel;
      requests := requests + [PostLogin(email, password)];
      sent := true;
    }

    /** `handleLogin` once its request settles: on success the returned token
        is stored and the browser goes to the account page; on failure the
        button is restored and the server's message, or the fallback, shown. */
    method FinishLogin(reply: HttpReply<string>)
      requires Valid()
      modifies this, store
      ensures Valid()
      ensures requests == old(requests)
      ensures Settle(reply).Resolved? ==>
        && store.authToken == Some(Settle(reply).data) && location == Some(AccountPageUrl)
        && buttonDisabled == old(buttonDisabled) && buttonLabel == old(buttonLabel) && alert == old(alert)
      ensures Settle(reply).Rejected? ==>
        && store.authToken == old(store.authToken) && location == old(location)
        && !buttonDisabled && buttonLabel == IdleLabel
        && alert == Some(MessageOr(Settle(reply).message, LoginFailedMessage))
    {
      match Settle(reply) {
        case Resolved(_, token) =>
          store.SetItem(token);
          location := Some(AccountPageUrl);
        case Rejected(message) =>
          ShowAlert(MessageOr(message, LoginFailedMessage));
          buttonDisabled := false;
          buttonLabel := IdleLabel;
      }
    }

    /** `handleLogin` from submit to settled request. */
    method HandleLogin(email: string, password: string, reply: HttpReply<string>)
      requires Valid()
      modifies this, store
      ensures Valid()
      ensures email == "" || password == "" ==> alert == Some(RequiredMessage)
      ensures email != "" && password != "" && !ValidateEmail(email) ==> alert == Some(InvalidEmailMessage)
      ensures !(email != "" && password != "" && ValidateEmail(email)) ==>
        && buttonDisabled == old(buttonDisabled) && buttonLabel == old(buttonLabel)
        && store.authToken == old(store.authToken) && location == old(location) && requests == old(requests)
      ensures email != "" && password != "" && ValidateEmail(email) ==>
        requests == old(requests) + [PostLogin(email, password)]
      ensures email != "" && password != "" && ValidateEmail(email) && Settle(reply).Resolved? ==>
        && store.authToken == Some(Settle(reply).data) && location == Some(AccountPageUrl)
        && buttonDisabled && buttonLabel == BusyLabel && alert == old(alert)
      ensures email != "" && password != "" && ValidateEmail(email) && Settle(reply).Rejected? ==>
        && store.authToken == old(store.authToken) && location == old(location)
        && !buttonDisabled && buttonLabel == IdleLabel
        && alert == Some(MessageOr(Settle(reply).message, LoginFailedMessage))
    {
      var sent := SubmitLogin(email, password);
      if sent {
        FinishLogin(reply);
      }
    }
  }
}
