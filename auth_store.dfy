/** client/src/store/authStore.js: the signed-in user and token, persisted
    between page loads, and the `Authorization` header of the API client. */
module AuthStore {
  import opened Common
  import opened ClientTypes
  import ClientSocket

  /** A user object as JSON fields. */
  type UserJson = map<string, string>

  /** What `partialize` writes to local storage. */
  datatype Persisted = Persisted(token: Option<string>, user: Option<UserJson>)

  /** The reply of `/auth/login`, `/auth/register`. */
  datatype Session = Session(user: UserJson, token: string)

  /** `updateUser`: `{ ...state.user, ...userData }`; a null user spreads as `{}`. */
  function MergeUser(user: Option<UserJson>, data: UserJson): (r: UserJson)
    ensures r.Keys == data.Keys + (if user.Some? then user.value.Keys else {})
    ensures forall k :: k in data ==> r[k] == data[k]
    ensures user.Some? ==> forall k :: k in user.value && k !in data ==> r[k] == user.value[k]
  {
    (if user.Some? then user.value else map[]) + data
  }

  /** Applying the same update twice is applying it once. */
  lemma MergeUserIdempotent(user: Option<UserJson>, data: UserJson)
    ensures MergeUser(Some(MergeUser(user, data)), data) == MergeUser(user, data)
  {
  }

  /** `Bearer ${token}` */
  function Bearer(token: string): (h: string)
    ensures |h| == |token| + 7 && h[7..] == token
  {
    "Bearer " + token
  }

  class AuthStore {
    var user: Option<UserJson>
    var token: Option<string>
    var isAuthenticated: bool
    var isLoading: bool
    /** `api.defaults.headers.common['Authorization']` */
    var authHeader: Option<string>

    /** A signed-in store holds a user and a token, and the API client sends that token. */
    ghost predicate Valid()
      reads this
    {
      isAuthenticated ==> user.Some? && token.Some? && authHeader == Some(Bearer(token.value))
    }

    /** The store after a page load: `persist` merges the stored token and
        user into the initial state; nothing is authenticated yet. */
    constructor (stored: Persisted)
      ensures token == stored.token && user == stored.user
      ensures !isAuthenticated && isLoading && authHeader.None?
      ensures Valid()
    {
      user := stored.user;
      token := stored.token;
      isAuthenticated := false;
      isLoading := true;
      authHeader := None;
    }

    /** `partialize` */
    function Persist(): (p: Persisted)
      reads this
      ensures p.token == token && p.user == user
    {
      Persisted(token, user)
    }

    /** `setLoading` */
    method SetLoading(loading: bool)
      requires Valid()
      modifies this
      ensures isLoading == loading && Valid()
      ensures user == old(user) && token == old(token) && isAuthenticated == old(isAuthenticated)
      ensures authHeader == old(authHeader)
    {
      isLoading := loading;
    }

    /** `login` and `register` (with fallback messages 'Login failed' and
        'Registration failed'): a session signs in; a failure changes nothing. */
    method SignIn(response: Api<Session>, fallback: string) returns (outcome: Outcome<()>)
      requires Valid()
      modifies this
      ensures Valid()
      ensures response.Success? ==>
                outcome == Done(()) && user == Some(response.value.user) && token == Some(response.value.token) &&
                isAuthenticated && !isLoading && authHeader == Some(Bearer(response.value.token))
      ensures response.Failure? ==>
                outcome == Failed(ErrorMessage(response.message, fallback)) &&
                user == old(user) && token == old(token) && isAuthenticated == old(isAuthenticated) &&
                isLoading == old(isLoading) && authHeader == old(authHeader)
    {
      if response.Failure? {
        return Failed(ErrorMessage(response.message, fallback));
      }
      user := Some(response.value.user);
      token := Some(response.value.token);
      isAuthenticated := true;
      isLoading := false;
      authHeader := Some(Bearer(response.value.token));
      outcome := Done(());
    }

    /** `logout`: whatever the server answers, the socket is closed and the
        session forgotten. `isLoading` is left as it was. */
    method Logout(socket: ClientSocket.SocketClient)
      requires Valid()
      modifies this, socket
      ensures user.None? && token.None? && !isAuthenticated && authHeader.None? && isLoading == old(isLoading)
      ensures socket.socket.None? && socket.sent == old(socket.sent)
      ensures Persist() == Persisted(None, None)
      ensures Valid()
    {
      socket.Disconnect();
      user := None;
      token := None;
      isAuthenticated := false;
      authHeader := None;
    }

    /** `updateUser` */
    method UpdateUser(data: UserJson)
      requires Valid()
      modifies this
      ensures user == Some(MergeUser(old(user), data))
      ensures token == old(token) && isAuthenticated == old(isAuthenticated) && isLoading == old(isLoading)
      ensures authHeader == old(authHeader) && Valid()
    {
      user := Some(MergeUser(user, data));
    }

    /** `checkAuth`: without a token, stop loading and ask nothing; with one,
        send it to `/auth/me` (`me` is the answer) and sign in or sign out. */
    method CheckAuth(me: Api<UserJson>) returns (asked: bool)
      requires Valid()
      modifies this
      ensures Valid() && !isLoading
      ensures asked <==> Truthy(old(token))
      ensures !asked ==>
                user == old(user) && token == old(token) && isAuthenticated == old(isAuthenticated) &&
                authHeader == old(authHeader)
      ensures asked && me.Success? ==>
                user == Some(me.value) && token == old(token) && isAuthenticated &&
                authHeader == Some(Bearer(old(token).value))
      ensures asked && me.Failure? ==> user.None? && token.None? && !isAuthenticated && authHeader.None?
    {
      if !Truthy(token) {
        isLoading := false;
        return false;
      }
      asked := true;
      authHeader := Some(Bearer(token.value));
      if me.Success? {
        user := Some(me.value);
        isAuthenticated := true;
        isLoading := false;
      } else {
        user := None;
        token := None;
        isAuthenticated := false;
        isLoading := false;
        authHeader := None;
      }
    }
  }

  /** A page load followed by `checkAuth` signs the stored session back in
      exactly when a non-empty token was stored and the server accepts it. */
  method Reload(stored: Persisted, me: Api<UserJson>) returns (store: AuthStore)
    ensures store.Valid() && !store.isLoading
    ensures store.isAuthenticated <==> Truthy(stored.token) && me.Success?
    ensures store.isAuthenticated ==> store.user == Some(me.value) && store.token == stored.token
  {
    store := new AuthStore(stored);
    var asked := store.CheckAuth(me);
  }
}
