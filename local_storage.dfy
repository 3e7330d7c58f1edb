/** The browser's localStorage, reduced to the single `token` key the
    dashboard reads and writes. One object is shared by the session store and
    the HTTP client, so a write by one is seen by the other. */
module Browser {
  import opened Common

  class TokenStorage {
    /** The value stored under the key `token`, absent when never set or removed. */
    var token: Option<string>

    constructor (initial: Option<string>)
      ensures token == initial
    {
      token := initial;
    }

    /** `localStorage.getItem('token')`. */
    function GetItem(): Option<string>
      reads this
    {
      token
    }

    /** `localStorage.setItem('token', value)`. */
    method SetItem(value: string)
      modifies this
      ensures token == Some(value)
    {
      token := Some(value);
    }

    /** `localStorage.removeItem('token')`; removing an absent key is harmless. */
    method RemoveItem()
      modifies this
      ensures token == None
    {
      token := None;
    }
  }
}
