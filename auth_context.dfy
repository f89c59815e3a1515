/** The authentication provider: the signed-in user and the two tokens, kept in state
    and mirrored in the browser's key/value storage under three keys. The storage is a
    field of the provider; `JSON.stringify` and `JSON.parse` of the user are a pair of
    functions fixed when the provider is built (`parse` gives `None` where `JSON.parse`
    throws). Backend calls are replaced by their outcomes. */
module AuthContext {
  import opened Wrappers
  import AuthService

  type User = AuthService.User
  type Storage = map<string, string>

  const TokenKey := "lms_token"
  const SessionTokenKey := "lms_session_token"
  const UserKey := "lms_user"
  const SessionKeys: set<string> := {TokenKey, SessionTokenKey, UserKey}

  /** A stored value that JavaScript treats as true: present and non-empty. */
  predicate Truthy(storage: Storage, key: string) {
    key in storage && storage[key] != ""
  }

  /** The three `removeItem` calls: the session keys are gone and every other key is
      kept with its value. */
  function ClearSession(storage: Storage): (r: Storage)
    ensures forall k :: k in SessionKeys ==> k !in r
    ensures forall k :: k !in SessionKeys ==> (k in r <==> k in storage)
    ensures forall k :: k in r ==> r[k] == storage[k]
  {
    map k | k in storage && k !in SessionKeys :: storage[k]
  }

  /** The three `setItem` calls of a login: the session keys hold the new values and
      every other key is kept with its value. */
  function SaveSession(storage: Storage, token: string, sessionToken: string, userJson: string): (r: Storage)
    ensures TokenKey in r && SessionTokenKey in r && UserKey in r
    ensures r[TokenKey] == token && r[SessionTokenKey] == sessionToken && r[UserKey] == userJson
    ensures forall k :: k !in SessionKeys ==> (k in r <==> k in storage)
    ensures forall k :: k in r && k !in SessionKeys ==> r[k] == storage[k]
  {
    storage[TokenKey := token][SessionTokenKey := sessionToken][UserKey := userJson]
  }

  /** Clearing after saving leaves the other keys exactly as before. */
  lemma ClearAfterSave(storage: Storage, token: string, sessionToken: string, userJson: string)
    ensures ClearSession(SaveSession(storage, token, sessionToken, userJson)) == ClearSession(storage)
  {
    var a := ClearSession(SaveSession(storage, token, sessionToken, userJson));
    var b := ClearSession(storage);
    assert a.Keys == b.Keys;
  }

  /** `JSON.parse(JSON.stringify(user))` is the user, and the text is never empty. */
  ghost predicate JsonRoundTrip(stringify: User -> string, parse: string -> Option<User>) {
    forall u :: parse(stringify(u)) == Some(u) && stringify(u) != ""
  }

  class AuthProvider {
    const stringify: User -> string
    const parse: string -> Option<User>
    var user: Option<User>
    var token: Option<string>
    var sessionToken: Option<string>
    var isLoading: bool
    var storage: Storage

    /** The user in state is the one stored, under the session token in state. */
    ghost predicate Valid()
      reads this
    {
      JsonRoundTrip(stringify, parse) &&
      (user.Some? ==>
         SessionTokenKey in storage && sessionToken == Some(storage[SessionTokenKey]) &&
         UserKey in storage && parse(storage[UserKey]) == user)
    }

    /** The provider as it mounts: nobody signed in, loading. */
    constructor (storage: Storage, stringify: User -> string, parse: string -> Option<User>)
      requires JsonRoundTrip(stringify, parse)
      ensures Valid()
      ensures user.None? && token.None? && sessionToken.None? && isLoading
      ensures this.storage == storage && this.stringify == stringify && this.parse == parse
    {
      this.stringify := stringify;
      this.parse := parse;
      user := None;
      token := None;
      sessionToken := None;
      isLoading := true;
      this.storage := storage;
    }

    /** Whether the mount effect tries to restore: both the session token and the user
        are stored and non-empty. */
    predicate RestoreAttempted()
      reads this
    {
      Truthy(storage, SessionTokenKey) && Truthy(storage, UserKey)
    }

    /** The mount effect. The saved session token is validated; when valid, the tokens
        are restored (the old token when stored and non-empty, else the session token)
        and so is the user, unless the stored user cannot be parsed, in which case the
        storage is cleared as for an invalid session. Loading ends on every path. */
    method Restore(validate: string -> Result<Option<bool>, HttpError>)
      requires Valid() && user.None?
      modifies this
      ensures Valid() && !isLoading
      ensures !old(RestoreAttempted()) ==>
        storage == old(storage) && user == old(user) && token == old(token) && sessionToken == old(sessionToken)
      ensures old(RestoreAttempted()) ==>
        var saved := old(storage);
        var valid := AuthService.ValidateToken(validate(saved[SessionTokenKey]));
        (valid ==>
           sessionToken == Some(saved[SessionTokenKey]) &&
           token == Some(if Truthy(saved, TokenKey) then saved[TokenKey] else saved[SessionTokenKey]) &&
           user == parse(saved[UserKey]) &&
           storage == if user.Some? then saved else ClearSession(saved)) &&
        (!valid ==>
           storage == ClearSession(saved) &&
           user == old(user) && token == old(token) && sessionToken == old(sessionToken))
    {
      if Truthy(storage, SessionTokenKey) && Truthy(storage, UserKey) {
        var savedSessionToken := storage[SessionTokenKey];
        var savedUser := storage[UserKey];
        var isValid := AuthService.ValidateToken(validate(savedSessionToken));
        if isValid {
          token := Some(if Truthy(storage, TokenKey) then storage[TokenKey] else savedSessionToken);
          sessionToken := Some(savedSessionToken);
          var parsed := parse(savedUser);
          if parsed.Some? {
            user := parsed;
          } else {
            // `JSON.parse` threw inside `then`: the `catch` clears the storage.
            storage := ClearSession(storage);
          }
        } else {
          storage := ClearSession(storage);
        }
        isLoading := false;
      } else {
        isLoading := false;
      }
    }

    /** `login`: a successful answer sets the state and writes the three keys (the user
        as JSON) and gives true; an unsuccessful or failed one gives false and changes
        nothing. */
    method Login(response: Result<AuthService.LoginResult, string>) returns (ok: bool)
      requires Valid()
      modifies this
      ensures Valid()
      ensures ok <==> response.Success? && response.value.success
      ensures ok ==>
        var r := response.value;
        user == Some(r.user) && token == Some(r.token) && sessionToken == Some(r.sessionToken) &&
        storage == SaveSession(old(storage), r.token, r.sessionToken, stringify(r.user))
      ensures !ok ==>
        user == old(user) && token == old(token) && sessionToken == old(sessionToken) && storage == old(storage)
      ensures isLoading == old(isLoading)
    {
      if response.Success? && response.value.success {
        var r := response.value;
        token := Some(r.token);
        sessionToken := Some(r.sessionToken);
        user := Some(r.user);
        storage := SaveSession(storage, r.token, r.sessionToken, stringify(r.user));
        return true;
      }
      return false;
    }

    /** `logout`: the backend is told only when a non-empty session token is held (and
        its failure is swallowed); then the state is emptied and the three keys removed,
        every other key kept. The result is the token sent to the backend, if any. */
    method Logout(closeSession: Result<(), HttpError>) returns (closed: Option<string>)
      requires Valid()
      modifies this
      ensures Valid()
      ensures closed == if old(sessionToken).Some? && old(sessionToken).value != "" then old(sessionToken) else None
      ensures user.None? && token.None? && sessionToken.None?
      ensures storage == ClearSession(old(storage))
      ensures isLoading == old(isLoading)
    {
      closed := None;
      if sessionToken.Some? && sessionToken.value != "" {
        var _ := AuthService.Logout(closeSession);
        closed := sessionToken;
      }
      user := None;
      token := None;
      sessionToken := None;
      storage := ClearSession(storage);
    }
  }

  /** A session saved by a login is restored by the next mount, with the same user and
      tokens, when the backend still accepts it. A login whose session token is empty
      is not restored. */
  method RestoreAfterLogin(first: AuthProvider, answer: AuthService.LoginResult,
                           validate: string -> Result<Option<bool>, HttpError>)
    requires first.Valid() && answer.success && answer.sessionToken != ""
    requires validate(answer.sessionToken) == Success(Some(true))
    modifies first
  {
    var ok := first.Login(Success(answer));
    var second := new AuthProvider(first.storage, first.stringify, first.parse);
    second.Restore(validate);
    assert second.user == Some(answer.user);
    assert second.sessionToken == Some(answer.sessionToken);
    assert answer.token != "" ==> second.token == Some(answer.token);
    assert answer.token == "" ==> second.token == Some(answer.sessionToken);
  }

  /** `useAuth`: the context, or the error thrown outside a provider. */
  function UseAuth<C>(context: Option<C>): (r: Result<C, string>)
    ensures r.Success? <==> context.Some?
    ensures r.Success? ==> r.value == context.value
    ensures r.Failure? ==> r.error == "useAuth must be used within an AuthProvider"
  {
    match context
    case Some(c) => Success(c)
    case None => Failure("useAuth must be used within an AuthProvider")
  }
}
