/** Client code: whole interactions driven through the pages' contracts
    alone, as a browser session would run them. */
module Scenarios {
  import opened Wrappers
  import opened Http
  import opened Storage
  import EmailPattern
  import LoginPage
  import AccountPage

  lemma ExampleAddressIsValid()
    ensures LoginPage.ValidateEmail("user@example.com")
  {
    var s := "user@example.com";
    assert s[4] == '@' && s[12] == '.';
    assert s[..4] == "user" && s[5..12] == "example" && s[13..] == "com";
    assert EmailPattern.InPatternLanguage(s);
  }

  /** Valid credentials: the token the server returns is stored and the
      browser heads for the account page. */
  method LoginSucceeds() {
    var store := new TokenStore(None);
    var page := new LoginPage.Page(store);
    ExampleAddressIsValid();
    page.HandleLogin("user@example.com", "secret123", Response(200, "abc", None));
    assert store.authToken == Some("abc");
    assert page.location == Some(LoginPage.AccountPageUrl) && page.alert == None;
  }

  /** A rejected password: the server's message is shown, the button is back,
      and nothing is stored. */
  method LoginRejected() {
    var store := new TokenStore(None);
    var page := new LoginPage.Page(store);
    ExampleAddressIsValid();
    page.HandleLogin("user@example.com", "wrong", Response(401, "", Some("Invalid credentials")));
    assert page.alert == Some("Invalid credentials");
    assert !page.buttonDisabled && page.buttonLabel == LoginPage.IdleLabel;
    assert store.authToken == None && page.location == None;
  }

  /** A missing field never reaches the network, whatever the server would say. */
  method LoginWithoutPassword(reply: HttpReply<string>) {
    var store := new TokenStore(Some("old"));
    var page := new LoginPage.Page(store);
    page.HandleLogin("user@example.com", "", reply);
    assert page.requests == [] && store.authToken == Some("old");
    assert page.alert == Some(LoginPage.RequiredMessage);
  }

  /** An expired token on the account page is evicted and the browser sent to
      the login page; a second load then makes no request at all. */
  method SessionExpires(second: HttpReply<UserRecord>) {
    var store := new TokenStore(Some("stale"));
    var page := new AccountPage.Page(store);
    page.CheckStoredToken(Response(401, UserRecord("", "", "", Undefined, Undefined), None));
    assert store.authToken == None && page.location == Some(AccountPage.HomeUrl);
    assert page.view == None;
    var again := new AccountPage.Page(store);
    again.CheckStoredToken(second);
    assert again.requests == [] && again.location == Some(AccountPage.HomeUrl);
  }

  /** A stored token accepted on the login page leads to the account page
      without the form being used. */
  method ValidSessionSkipsLogin(user: UserRecord) {
    var store := new TokenStore(Some("abc"));
    var page := new LoginPage.Page(store);
    page.CheckStoredToken(Response(200, user, None));
    assert page.requests == [GetAccount("abc")];
    assert page.location == Some(LoginPage.AccountPageUrl) && store.authToken == Some("abc");
  }

  /** Editing with a blank password sends no password; deleting with the
      right one removes the token and leaves the page. */
  method EditThenDelete(user: UserRecord) {
    var store := new TokenStore(Some("abc"));
    var page := new AccountPage.Page(store);
    page.CheckStoredToken(Response(200, user, None));
    page.HandleEditProfile(user.id, "Ann", "ann@example.com", "", Response(200, user, None));
    var body := page.requests[1].body;
    assert "password" !in body && body["name"] == "Ann";
    page.HandleDeleteAccount(user.id, "secret123", Response(200, (), None));
    assert store.authToken == None && page.location == Some(AccountPage.HomeUrl);
    assert page.requests[2] == DeleteUser(user.id, Some("abc"), "secret123");
  }
}
