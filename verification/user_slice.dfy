/** The `user` slice of the Redux store: the signed-in user, whether someone is
    signed in, and the loading and error flags. `logout` and `setAuthToken`
    also touch the `authToken` key of local storage. */
module UserSlice {
  import opened Optional
  import opened Js
  import opened Storage

  class Session {
    var user: JsValue
    var isAuthenticated: bool
    var loading: bool
    var error: Option<string>
    const storage: LocalStorage

    /** The flag always agrees with the user: signed in exactly when the
        stored user is truthy (for the user objects and the `null` the
        application dispatches, that is exactly when the user is not null). */
    ghost predicate Valid()
      reads this
    {
      isAuthenticated <==> Truthy(user)
    }

    /** `initialState`: nobody signed in. */
    constructor (storage: LocalStorage)
      ensures Valid()
      ensures user == Null && !isAuthenticated && !loading && error == None
      ensures this.storage == storage
    {
      user := Null;
      isAuthenticated := false;
      loading := false;
      error := None;
      this.storage := storage;
    }

    method SetUser(payload: JsValue)
      requires Valid()
      modifies this`user, this`isAuthenticated
      ensures Valid()
      ensures user == payload
      ensures isAuthenticated <==> Truthy(payload)
      ensures loading == old(loading) && error == old(error)
    {
      user := payload;
      isAuthenticated := Truthy(payload);
    }

    method SetLoading(payload: bool)
      requires Valid()
      modifies this`loading
      ensures Valid()
      ensures loading == payload
      ensures user == old(user) && isAuthenticated == old(isAuthenticated) && error == old(error)
    {
      loading := payload;
    }

    method SetError(payload: Option<string>)
      requires Valid()
      modifies this`error
      ensures Valid()
      ensures error == payload
      ensures user == old(user) && isAuthenticated == old(isAuthenticated) && loading == old(loading)
    {
      error := payload;
    }

    /** Signs out: no user, not authenticated, no error, and the stored
        token is removed; `loading` is left alone. */
    method Logout()
      requires Valid()
      modifies this`user, this`isAuthenticated, this`error, storage`authToken
      ensures Valid()
      ensures user == Null && !isAuthenticated && error == None
      ensures storage.authToken == None
      ensures loading == old(loading)
    {
      user := Null;
      isAuthenticated := false;
      error := None;
      storage.authToken := None;
    }

    /** Stores the token; the slice state itself does not change. */
    method SetAuthToken(payload: string)
      requires Valid()
      modifies storage`authToken
      ensures Valid()
      ensures storage.authToken == Some(payload)
    {
      storage.authToken := Some(payload);
    }
  }

  /** For the values `setUser` receives (a user object, or `null`), being
      truthy is being non-null, so the slice's invariant reads
      `isAuthenticated <==> user !== null`. */
  lemma AuthenticatedIffNotNull(user: JsValue)
    requires user.Obj? || user.Null?
    ensures Truthy(user) <==> user != Null
  {
  }
}
