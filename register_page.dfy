/** The registration page: its email check, its submit handler and the token
    check it runs once loaded. The page's observable state is the submit button
    (enabled, label), the alert text, the navigation target and the requests
    sent so far; the token lives in the shared `TokenStore`. */
module RegisterPage {
  import opened Wrappers
  import opened Http
  import opened Storage
  import EmailPattern
  import LoginPage

  const AccountPageUrl := "/pages/user.html"
  const IdleLabel := "Register"
  const BusyLabel := "Registering..."
  const RequiredMessage := "Name, email, and password are required."
  const InvalidEmailMessage := "Please enter a valid email address."
  const RegisterFailedMessage := "An error occurred while registering."
  const SessionExpiredMessage := "Session expired. Please log in again."

  /** `validateEmail`: the pattern tested against the lower-cased input. Its
      answer is that of the pattern on the input itself. */
  function ValidateEmail(email: string): (valid: bool)
    ensures valid <==> EmailPattern.InPatternLanguage(email)
  {
    EmailPattern.RunIgnoresCase(EmailPattern.Start, email);
    EmailPattern.RegexTestIsPattern(email);
    EmailPattern.RegexTest(EmailPattern.ToLower(email))
  }

  /** The registration page's copy of `validateEmail` agrees with the login
      page's on every input. */
  lemma ValidateEmailAgrees(email: string)
    ensures ValidateEmail(email) == LoginPage.ValidateEmail(email)
  {
  }

  /** The only requests this page ever sends: a registration whose fields
      passed both checks, and an account lookup carrying a non-empty stored token. */
  predicate Sendable(r: Request) {
    match r
    case PostRegister(name, email, password) => name != "" && email != "" && password != "" && ValidateEmail(email)
    case GetAccount(token) => token != ""
    case _ => false
  }

  class Page {
    const store: TokenStore
    var buttonDisabled: bool
    var buttonLabel: string
    var alert: Option<string>
    var location: Option<string>
    var requests: seq<Request>

    /** The button shows its busy label exactly while it is disabled, and
        nothing that failed the form checks ever reached the network. */
    ghost predicate Valid()
      reads this
    {
      && buttonLabel == (if buttonDisabled then BusyLabel else IdleLabel)
      && forall r :: r in requests ==> Sendable(r)
    }

    /** The page as the DOMContentLoaded handler renders it. */
    constructor (store: TokenStore)
      ensures Valid()
      ensures this.store == store
      ensures !buttonDisabled && alert == None && location == None && requests == []
    {
      this.store := store;
      buttonDisabled := false;
      buttonLabel := IdleLabel;
      alert := None;
      location := None;
      requests := [];
    }

    /** `showAlert`: the alert box now shows `message`. */
    method ShowAlert(message: string)
      modifies this`alert
      ensures alert == Some(message)
    {
      alert := Some(message);
    }

    /** `validateTokenAndRedirect`: a 200 sends the user to the account page,
        any other 2xx changes nothing, and a thrown error evicts the token and
        shows the session-expired notice without navigating. */
    method ValidateTokenAndRedirect(token: string, reply: HttpReply<UserRecord>)
      requires Valid() && token != ""
      modifies this, store
      ensures Valid()
      ensures requests == old(requests) + [GetAccount(token)]
      ensures buttonDisabled == old(buttonDisabled) && buttonLabel == old(buttonLabel)
      ensures Settle(reply).Resolved? ==>
        && store.authToken == old(store.authToken) && alert == old(alert)
        && location == (if Settle(reply).status == 200 then Some(AccountPageUrl) else old(location))
      ensures Settle(reply).Rejected? ==>
        store.authToken == None && alert == Some(SessionExpiredMessage) && location == old(location)
    {
      requests := requests + [GetAccount(token)];
      match Settle(reply) {
        case Resolved(status, _) =>
          if status == 200 {
            location := Some(AccountPageUrl);
          }
        case Rejected(_) =>
          store.RemoveItem();
          ShowAlert(SessionExpiredMessage);
      }
    }

    /** The token check at the end of the DOMContentLoaded handler: without a
        stored token nothing happens; with one, it is validated. */
    method CheckStoredToken(reply: HttpReply<UserRecord>)
      requires Valid()
      modifies this, store
      ensures Valid()
      ensures !HasToken(old(store.authToken)) ==> unchanged(this, store)
      ensures HasToken(old(store.authToken)) ==>
        && requests == old(requests) + [GetAccount(old(store.authToken).value)]
        && buttonDisabled == old(buttonDisabled) && buttonLabel == old(buttonLabel)
      ensures HasToken(old(store.authToken)) && Settle(reply).Resolved? ==>
        && store.authToken == old(store.authToken) && alert == old(alert)
        && location == (if Settle(reply).status == 200 then Some(AccountPageUrl) else old(location))
      ensures HasToken(old(store.authToken)) && Settle(reply).Rejected? ==>
        store.authToken == None && alert == Some(SessionExpiredMessage) && location == old(location)
    {
      var authToken := store.GetItem();
      if HasToken(authToken) {
        ValidateTokenAndRedirect(authToken.value, reply);
      }
    }

    /** `handleRegister` up to its request: the required-field check, then the
        email check, each ending the handler with an alert; otherwise the
        button turns busy and the request goes out. */
    method SubmitRegister(name: string, email: string, password: string) returns (sent: bool)
      requires Valid()
      modifies this
      ensures Valid()
      ensures sent <==> name != "" && email != "" && password != "" && ValidateEmail(email)
      ensures name == "" || email == "" || password == "" ==> alert == Some(RequiredMessage)
      ensures name != "" && email != "" && password != "" && !ValidateEmail(email) ==> alert == Some(InvalidEmailMessage)
      ensures !sent ==>
        && buttonDisabled == old(buttonDisabled) && buttonLabel == old(buttonLabel)
        && location == old(location) && requests == old(requests)
      ensures sent ==>
        && buttonDisabled && buttonLabel == BusyLabel
        && requests == old(requests) + [PostRegister(name, email, password)]
        && alert == old(alert) && location == old(location)
    {
      if name == "" || email == "" || password == "" {
        ShowAlert(RequiredMessage);
        return false;
      }
      if !ValidateEmail(email) {
        ShowAlert(InvalidEmailMessage);
        return false;
      }
      buttonDisabled := true;
      buttonLabel := BusyLabel;
      requests := requests + [PostRegister(name, email, password)];
      sent := true;
    }

    /** `handleRegister` once its request settles: on success the returned token
        is stored and the browser goes to the account page; on failure the
        button is restored and the server's message, or the fallback, shown. */
    method FinishRegister(reply: HttpReply<string>)
      requires Valid()
      modifies this, store
      ensures Valid()
      ensures requests == old(requests)
      ensures Settle(reply).Resolved? ==>
        && store.authToken == Some(Settle(reply).data) && location == Some(AccountPageUrl)
        && buttonDisabled == old(buttonDisabled) && buttonLabel == old(buttonLabel) && alert == old(alert)
      ensures Settle(reply).Rejected? ==>
        && store.authToken == old(store.authToken) && location == old(location)
        && !buttonDisabled && buttonLabel == IdleLabel
        && alert == Some(MessageOr(Settle(reply).message, RegisterFailedMessage))
    {
      match Settle(reply) {
        case Resolved(_, token) =>
          store.SetItem(token);
          location := Some(AccountPageUrl);
        case Rejected(message) =>
          ShowAlert(MessageOr(message, RegisterFailedMessage));
          buttonDisabled := false;
          buttonLabel := IdleLabel;
      }
    }

    /** `handleRegister` from submit to settled request. */
    method HandleRegister(name: string, email: string, password: string, reply: HttpReply<string>)
      requires Valid()
      modifies this, store
      ensures Valid()
      ensures name == "" || email == "" || password == "" ==> alert == Some(RequiredMessage)
      ensures name != "" && email != "" && password != "" && !ValidateEmail(email) ==> alert == Some(InvalidEmailMessage)
      ensures !(name != "" && email != "" && password != "" && ValidateEmail(email)) ==>
        && buttonDisabled == old(buttonDisabled) && buttonLabel == old(buttonLabel)
        && store.authToken == old(store.authToken) && location == old(location) && requests == old(requests)
      ensures name != "" && email != "" && password != "" && ValidateEmail(email) ==>
        requests == old(requests) + [PostRegister(name, email, password)]
      ensures name != "" && email != "" && password != "" && ValidateEmail(email) && Settle(reply).Resolved? ==>
        && store.authToken == Some(Settle(reply).data) && location == Some(AccountPageUrl)
        && buttonDisabled && buttonLabel == BusyLabel && alert == old(alert)
      ensures name != "" && email != "" && password != "" && ValidateEmail(email) && Settle(reply).Rejected? ==>
        && store.authToken == old(store.authToken) && location == old(location)
        && !buttonDisabled && buttonLabel == IdleLabel
        && alert == Some(MessageOr(Settle(reply).message, RegisterFailedMessage))
    {
      var sent := SubmitRegister(name, email, password);
      if sent {
        FinishRegister(reply);
      }
    }
  }
}
