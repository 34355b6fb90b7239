/**
 * The two client session stores of `mobile/store/`: the user store
 * (`useUserStore.js`: the signed-in user's record and an error) and the
 * auth store (`useAuthStore.js`: token, flags, and the login / register /
 * logout transitions, which write to the user store). The HTTP call of
 * login and register is an input: its response or its failure.
 */
module Stores {
  import opened Common

  /** A JSON scalar as the stores hold it. */
  datatype Value = Null | Bool(b: bool) | Num(n: int) | Str(s: string)

  /** A JSON object: the user record and the response bodies. */
  type Record = map<string, Value>

  /** The persisted shape of the user store. */
  datatype UserState = UserState(user: Option<Record>, error: Option<string>)

  /** The persisted shape of the auth store. */
  datatype AuthState = AuthState(token: Option<Value>, isAuthenticated: bool, loading: bool, error: Option<string>)

  /** The `migrate` option of the user store: every stored version is taken as it is. */
  function MigrateUserState(persisted: UserState, version: int): (r: UserState)
    ensures r == persisted
  {
    persisted
  }

  /** The `migrate` option of the auth store: every stored version is taken as it is. */
  function MigrateAuthState(persisted: AuthState, version: int): (r: AuthState)
    ensures r == persisted
  {
    persisted
  }

  class UserStore {
    var user: Option<Record>
    var error: Option<string>

    constructor ()
      ensures user == None && error == None
    {
      user, error := None, None;
    }

    /** `setUser(user)` */
    method SetUser(u: Record)
      modifies this
      ensures user == Some(u) && error == None
    {
      user, error := Some(u), None;
    }

    /** `clearUser()` */
    method ClearUser()
      modifies this
      ensures user == None && error == None
    {
      user, error := None, None;
    }

    /**
     * `updateUser(userData)`: with a current user, `{ ...currentUser, ...userData }`;
     * without one, nothing. `error` is not touched.
     */
    method UpdateUser(d: Record)
      modifies this`user
      ensures old(user).None? ==> user == None
      ensures old(user).Some? ==> user.Some? && user.value.Keys == old(user).value.Keys + d.Keys
      ensures old(user).Some? ==> forall k :: k in d ==> user.value[k] == d[k]
      ensures old(user).Some? ==> forall k :: k in old(user).value && k !in d ==> user.value[k] == old(user).value[k]
    {
      var current := user;
      if current.Some? {
        user := Some(current.value + d);
      }
    }

    /** `isAuthenticated()`: `!!user`. */
    function IsAuthenticated(): (b: bool)
      reads this
      ensures b <==> user != None
    {
      user.Some?
    }
  }

  /** What `api.post` yields: the response body, or a thrown error with its `response.data.message`, if any. */
  datatype HttpResult = Success(data: Record) | Failure(serverMessage: Option<string>)

  const LoginFailed: string := "Login failed"
  const RegistrationFailed: string := "Registration failed"

  /** `err.response?.data?.message || fallback`: the server's message unless it is missing or empty. */
  function ErrorText(serverMessage: Option<string>, fallback: string): (t: string)
    ensures serverMessage.Some? && serverMessage.value != "" ==> t == serverMessage.value
    ensures serverMessage.None? || serverMessage.value == "" ==> t == fallback
  {
    if serverMessage.Some? && serverMessage.value != "" then serverMessage.value else fallback
  }

  /** The `token` of `const { token, ...user } = res.data`; absent when the body has none. */
  function TokenOf(data: Record): Option<Value>
  {
    if "token" in data then Some(data["token"]) else None
  }

  /** The `...user` of `const { token, ...user } = res.data`. */
  function WithoutToken(data: Record): (u: Record)
    ensures "token" !in u
    ensures forall k :: k in data && k != "token" ==> k in u && u[k] == data[k]
    ensures u.Keys <= data.Keys
  {
    data - {"token"}
  }

  /** Splitting a response body into its token and the rest loses nothing. */
  lemma TokenSplitIsLossless(data: Record)
    ensures TokenOf(data).None? ==> WithoutToken(data) == data
    ensures TokenOf(data).Some? ==> WithoutToken(data)["token" := TokenOf(data).value] == data
  {
  }

  class AuthStore {
    var token: Option<Value>
    var isAuthenticated: bool
    var loading: bool
    var error: Option<string>
    /** `useUserStore.getState()`, which login, register and logout write to. */
    const users: UserStore

    constructor (users: UserStore)
      ensures token == None && !isAuthenticated && !loading && error == None
      ensures this.users == users
    {
      token, isAuthenticated, loading, error := None, false, false, None;
      this.users := users;
    }

    /** The first stage of `login` and `register`, before the request: `set({ loading: true, error: null })`. */
    method BeginRequest()
      modifies this
      ensures loading && error == None
      ensures token == old(token) && isAuthenticated == old(isAuthenticated)
    {
      loading, error := true, None;
    }

    /**
     * The second stage of `login` and `register`, once the request settled;
     * the two differ only in the fallback message. On success the error is
     * left as the first stage set it.
     */
    method CompleteRequest(response: HttpResult, fallback: string) returns (outcome: Result<Record, Option<string>>)
      requires loading
      modifies this, users
      ensures !loading
      ensures response.Success? ==>
        && token == TokenOf(response.data) && isAuthenticated && error == old(error)
        && users.user == Some(WithoutToken(response.data)) && users.error == None
        && outcome == Ok(response.data)
      ensures response.Failure? ==>
        && error == Some(ErrorText(response.serverMessage, fallback))
        && token == old(token) && isAuthenticated == old(isAuthenticated)
        && users.user == old(users.user) && users.error == old(users.error)
        && outcome == Err(response.serverMessage)
    {
      match response
      case Success(data) =>
        token, isAuthenticated, loading := TokenOf(data), true, false;
        users.SetUser(WithoutToken(data));
        outcome := Ok(data);
      case Failure(message) =>
        error, loading := Some(ErrorText(message, fallback)), false;
        outcome := Err(message);
    }

    /**
     * `login(credentials)` run to completion, with `api.post("/auth/login", credentials)`
     * given as `response`; while it is pending the store is in the state BeginRequest leaves.
     */
    method Login(response: HttpResult) returns (outcome: Result<Record, Option<string>>)
      modifies this, users
      ensures !loading
      ensures response.Success? ==>
        && token == TokenOf(response.data) && isAuthenticated && error == None
        && users.user == Some(WithoutToken(response.data)) && users.error == None
        && outcome == Ok(response.data)
      ensures response.Failure? ==>
        && error == Some(ErrorText(response.serverMessage, LoginFailed))
        && token == old(token) && isAuthenticated == old(isAuthenticated)
        && users.user == old(users.user) && users.error == old(users.error)
        && outcome == Err(response.serverMessage)
    {
      BeginRequest();
      outcome := CompleteRequest(response, LoginFailed);
    }

    /**
     * `register(formData)` run to completion, with `api.post("/auth/register", formData)`
     * given as `response`; while it is pending the store is in the state BeginRequest leaves.
     */
    method Register(response: HttpResult) returns (outcome: Result<Record, Option<string>>)
      modifies this, users
      ensures !loading
      ensures response.Success? ==>
        && token == TokenOf(response.data) && isAuthenticated && error == None
        && users.user == Some(WithoutToken(response.data)) && users.error == None
        && outcome == Ok(response.data)
      ensures response.Failure? ==>
        && error == Some(ErrorText(response.serverMessage, RegistrationFailed))
        && token == old(token) && isAuthenticated == old(isAuthenticated)
        && users.user == old(users.user) && users.error == old(users.error)
        && outcome == Err(response.serverMessage)
    {
      BeginRequest();
      outcome := CompleteRequest(response, RegistrationFailed);
    }

    /** `logout()`: forget the token and the user; `loading` and `error` stay. */
    method Logout()
      modifies this, users
      ensures token == None && !isAuthenticated
      ensures loading == old(loading) && error == old(error)
      ensures users.user == None && users.error == None
    {
      token, isAuthenticated := None, false;
      users.ClearUser();
    }
  }
}
