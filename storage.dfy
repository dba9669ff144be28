/** The browser's localForage store, reduced to its one entry, `authToken`. */
module Storage {
  import opened Wrappers

  class TokenStore {
    var authToken: Option<string>

    constructor (initial: Option<string>)
      ensures authToken == initial
    {
      authToken := initial;
    }

    /** `localForage.getItem('authToken')`: the stored token, or `null`. */
    method GetItem() returns (token: Option<string>)
      ensures token == authToken
    {
      token := authToken;
    }

    /** `localForage.setItem('authToken', token)`. */
    method SetItem(token: string)
      modifies this
      ensures authToken == Some(token)
    {
      authToken := Some(token);
    }

    /** `localForage.removeItem('authToken')`; removing a missing key is not an error. */
    method RemoveItem()
      modifies this
      ensures authToken == None
    {
      authToken := None;
    }
  }
}
