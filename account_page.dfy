/** The account page: the guard that runs on load, the rendering decisions of
    `displayUserData`, and the logout, delete-account and edit-profile
    handlers. The page's observable state is the rendered account view, the
    navigation target, the last `alert()` dialog and the requests sent so far;
    the token lives in the shared `TokenStore`. */
module AccountPage {
  import opened Wrappers
  import opened Http
  import opened Storage

  const HomeUrl := "/"
  const EnterPasswordMessage := "Please enter your password."
  const DeletedMessage := "Account successfully deleted."
  const DeleteFailedMessage := "There was an error deleting your account."
  const UpdatedMessage := "Profile successfully updated."
  const UpdateFailedMessage := "There was an error updating your profile."

  /** The role line: `role === 0 ? 'Admin' : 'User'`, a strict comparison, so
      the string "0" is a plain user. */
  function RoleLabel(role: JsValue): (shown: string)
    ensures shown == "Admin" <==> role == Number(0)
    ensures shown == "Admin" || shown == "User"
  {
    if role == Number(0) then "Admin" else "User"
  }

  /** The "Your account is not active." banner: shown for `!active`, that is
      for exactly the falsy values. */
  function ShowsInactiveNotice(active: JsValue): (shown: bool)
    ensures shown <==> active in {Undefined, Null, Boolean(false), Number(0), Text("")}
  {
    !Truthy(active)
  }

  /** What `displayUserData` puts on screen for one user. */
  datatype UserView = UserView(id: string, name: string, email: string, roleLabel: string, inactiveNotice: bool)

  function Render(user: UserRecord): (view: UserView)
    ensures view.id == user.id && view.name == user.name && view.email == user.email
    ensures view.roleLabel == "Admin" <==> user.role == Number(0)
    ensures view.inactiveNotice <==> !Truthy(user.active)
  {
    UserView(user.id, user.name, user.email, RoleLabel(user.role), ShowsInactiveNotice(user.active))
  }

  /** The body of the profile update: `name` and `email` always, `password`
      only when one was typed. */
  predicate IsUpdateBody(body: map<string, string>, name: string, email: string, password: string) {
    && body.Keys == (if password == "" then {"name", "email"} else {"name", "email", "password"})
    && body["name"] == name && body["email"] == email
    && (password != "" ==> body["password"] == password)
  }

  /** The `updateData` object of `handleEditProfile`, built field by field. */
  method BuildUpdateBody(name: string, email: string, password: string) returns (body: map<string, string>)
    ensures IsUpdateBody(body, name, email, password)
    ensures "password" in body <==> password != ""
  {
    body := map["name" := name, "email" := email];
    if password != "" {
      body := body["password" := password];
    }
  }

  /** The only requests this page ever sends: an account lookup carrying a
      non-empty stored token, a deletion carrying a typed password, and an
      update whose body is well formed. */
  predicate Sendable(r: Request) {
    match r
    case GetAccount(token) => token != ""
    case DeleteUser(_, _, password) => password != ""
    case PatchUser(_, _, body) =>
      && "name" in body && "email" in body
      && ("password" in body ==> body["password"] != "")
    case _ => false
  }

  class Page {
    const store: TokenStore
    var view: Option<UserView>
    var location: Option<string>
    var dialog: Option<string>
    var requests: seq<Request>
    /** The token the API answered with a 200 on this page load, if any. */
    ghost var accepted: Option<string>

    /** Nothing malformed ever reached the network, and an account is only on
        screen once a token sent for validation was accepted with a 200. */
    ghost predicate Valid()
      reads this
    {
      && (forall r :: r in requests ==> Sendable(r))
      && (view.Some? ==> accepted.Some? && GetAccount(accepted.value) in requests)
    }

    /** The page before its DOMContentLoaded handler has run: nothing shown. */
    constructor (store: TokenStore)
      ensures Valid()
      ensures this.store == store
      ensures view == None && location == None && dialog == None && requests == []
      ensures accepted == None
    {
      this.store := store;
      view := None;
      location := None;
      dialog := None;
      requests := [];
      accepted := None;
    }

    /** `displayUserData`: the account is now on screen. It is only called
        once a request carrying the token was answered with a 200. */
    method DisplayUserData(user: UserRecord)
      requires Valid() && accepted.Some? && GetAccount(accepted.value) in requests
      modifies this`view
      ensures Valid()
      ensures view == Some(Render(user))
    {
      view := Some(Render(user));
    }

    /** `validateTokenAndRedirect` on this page: a 200 renders the account and
        keeps the token, any other 2xx changes nothing, and a thrown error
        evicts the token and sends the browser to the login page. */
    method ValidateTokenAndRedirect(token: string, reply: HttpReply<UserRecord>)
      requires Valid() && token != ""
      modifies this, store
      ensures Valid()
      ensures requests == old(requests) + [GetAccount(token)]
      ensures dialog == old(dialog)
      ensures accepted == (if Settle(reply).Resolved? && Settle(reply).status == 200 then Some(token) else old(accepted))
      ensures Settle(reply).Resolved? ==>
        && store.authToken == old(store.authToken) && location == old(location)
        && view == (if Settle(reply).status == 200 then Some(Render(Settle(reply).data)) else old(view))
      ensures Settle(reply).Rejected? ==>
        store.authToken == None && location == Some(HomeUrl) && view == old(view)
    {
      requests := requests + [GetAccount(token)];
      match Settle(reply) {
        case Resolved(status, user) =>
          if status == 200 {
            accepted := Some(token);
            DisplayUserData(user);
          }
        case Rejected(_) =>
          store.RemoveItem();
          location := Some(HomeUrl);
      }
    }

    /** The DOMContentLoaded handler: without a stored token the browser goes
        to the login page and no request is made; with one, it is validated. */
    method CheckStoredToken(reply: HttpReply<UserRecord>)
      requires Valid()
      modifies this, store
      ensures Valid()
      ensures dialog == old(dialog)
      ensures !HasToken(old(store.authToken)) ==>
        && location == Some(HomeUrl) && requests == old(requests)
        && view == old(view) && store.authToken == old(store.authToken)
      ensures HasToken(old(store.authToken)) ==>
        requests == old(requests) + [GetAccount(old(store.authToken).value)]
      ensures accepted ==
        if HasToken(old(store.authToken)) && Settle(reply).Resolved? && Settle(reply).status == 200
        then old(store.authToken) else old(accepted)
      ensures HasToken(old(store.authToken)) && Settle(reply).Resolved? ==>
        && store.authToken == old(store.authToken) && location == old(location)
        && view == (if Settle(reply).status == 200 then Some(Render(Settle(reply).data)) else old(view))
      ensures HasToken(old(store.authToken)) && Settle(reply).Rejected? ==>
        store.authToken == None && location == Some(HomeUrl) && view == old(view)
    {
      var authToken := store.GetItem();
      if !HasToken(authToken) {
        location := Some(HomeUrl);
      } else {
        ValidateTokenAndRedirect(authToken.value, reply);
      }
    }

    /** `handleLogout`: the token is removed and the browser goes to the login
        page, without any request. */
    method HandleLogout()
      requires Valid()
      modifies this, store
      ensures Valid()
      ensures store.authToken == None && location == Some(HomeUrl)
      ensures requests == old(requests) && view == old(view) && dialog == old(dialog)
      ensures accepted == old(accepted)
    {
      store.RemoveItem();
      location := Some(HomeUrl);
    }

    /** `handleDeleteAccount`: without a confirmation password nothing is
        sent; otherwise the deletion goes out with the stored token, and only
        a 200 removes the token and leaves the page. */
    method HandleDeleteAccount(userId: string, password: string, reply: HttpReply<()>)
      requires Valid()
      modifies this, store
      ensures Valid()
      ensures view == old(view) && accepted == old(accepted)
      ensures password == "" ==>
        && dialog == Some(EnterPasswordMessage) && requests == old(requests)
        && store.authToken == old(store.authToken) && location == old(location)
      ensures password != "" ==>
        requests == old(requests) + [DeleteUser(userId, old(store.authToken), password)]
      ensures password != "" && Settle(reply).Resolved? && Settle(reply).status == 200 ==>
        dialog == Some(DeletedMessage) && store.authToken == None && location == Some(HomeUrl)
      ensures password != "" && Settle(reply).Resolved? && Settle(reply).status != 200 ==>
        dialog == old(dialog) && store.authToken == old(store.authToken) && location == old(location)
      ensures password != "" && Settle(reply).Rejected? ==>
        dialog == Some(DeleteFailedMessage) && store.authToken == old(store.authToken) && location == old(location)
    {
      if password == "" {
        dialog := Some(EnterPasswordMessage);
        return;
      }
      var authToken := store.GetItem();
      requests := requests + [DeleteUser(userId, authToken, password)];
      match Settle(reply) {
        case Resolved(status, _) =>
          if status == 200 {
            dialog := Some(DeletedMessage);
            store.RemoveItem();
            location := Some(HomeUrl);
          }
        case Rejected(_) =>
          dialog := Some(DeleteFailedMessage);
      }
    }

    /** `handleEditProfile`: the update goes out with the stored token; a 200
        re-renders the account from the response, and nothing else changes
        what is on screen. The handler is attached by `displayUserData`, so an
        account is on screen when it runs. */
    method HandleEditProfile(userId: string, name: string, email: string, password: string,
                             reply: HttpReply<UserRecord>)
      requires Valid() && view.Some?
      modifies this
      ensures Valid()
      ensures location == old(location) && accepted == old(accepted)
      ensures |requests| == |old(requests)| + 1 && requests[..|old(requests)|] == old(requests)
      ensures requests[|old(requests)|].PatchUser?
      ensures requests[|old(requests)|].userId == userId
      ensures requests[|old(requests)|].bearer == store.authToken
      ensures IsUpdateBody(requests[|old(requests)|].body, name, email, password)
      ensures Settle(reply).Resolved? && Settle(reply).status == 200 ==>
        dialog == Some(UpdatedMessage) && view == Some(Render(Settle(reply).data))
      ensures Settle(reply).Resolved? && Settle(reply).status != 200 ==>
        dialog == old(dialog) && view == old(view)
      ensures Settle(reply).Rejected? ==>
        dialog == Some(UpdateFailedMessage) && view == old(view)
    {
      var updateData := BuildUpdateBody(name, email, password);
      var authToken := store.GetItem();
      requests := requests + [PatchUser(userId, authToken, updateData)];
      match Settle(reply) {
        case Resolved(status, user) =>
          if status == 200 {
            dialog := Some(UpdatedMessage);
            DisplayUserData(user);
          }
        case Rejected(_) =>
          dialog := Some(UpdateFailedMessage);
      }
    }
  }
}
