/** The session store (`AuthProvider`): the current token, a plain boolean
    authentication flag that starts `false`, and the browser's key-value
    storage, which keeps `"token"` and `"user"` across page loads.

    The transitions are first defined on values (`Session`), then carried out
    step by step by the class `AuthProvider`, whose methods are specified by
    those functions.

    A value that may be `undefined` is an `Option`: `None` is `undefined`. */
module AuthContext {
  import opened Common

  const TokenKey := "token"
  const UserKey := "user"

  type Storage = map<string, string>

  /** `token` is the state's token, which `login(undefined, …)` leaves
      `undefined`. */
  datatype Session = Session(token: Option<string>, isAuthenticated: bool, storage: Storage)

  /** The text `localStorage.setItem(key, v)` stores: `undefined` becomes the
      text "undefined", which is truthy. */
  function StoredText(v: Option<string>): (text: string)
    ensures v.None? ==> text == "undefined" && Truthy(text)
    ensures v.Some? ==> text == v.value
  {
    match v
    case None => "undefined"
    case Some(s) => s
  }

  /** `!!localStorage.getItem("token")`: a token is stored and it is not "". */
  predicate HasStoredToken(storage: Storage) {
    TokenKey in storage && Truthy(storage[TokenKey])
  }

  /** The state before the restore effect has run. */
  function Initial(storage: Storage): Session {
    Session(Some(""), false, storage)
  }

  /** The restore effect that runs once after mounting. */
  function Restored(s: Session): (r: Session)
    ensures r.storage == s.storage
    ensures HasStoredToken(s.storage) ==> r.isAuthenticated && r.token == Some(s.storage[TokenKey])
    ensures !HasStoredToken(s.storage) ==> r == s
  {
    if HasStoredToken(s.storage) then s.(token := Some(s.storage[TokenKey]), isAuthenticated := true) else s
  }

  /** `login(newToken, user)`: persists both, then sets token and flag.
      `userJson` is `JSON.stringify(user)`, which is `undefined` when `user` is. */
  function LoggedIn(s: Session, newToken: Option<string>, userJson: Option<string>): (r: Session)
    ensures r.token == newToken && r.isAuthenticated
    ensures TokenKey in r.storage && r.storage[TokenKey] == StoredText(newToken)
    ensures UserKey in r.storage && r.storage[UserKey] == StoredText(userJson)
    ensures r.storage.Keys == s.storage.Keys + {TokenKey, UserKey}
    ensures forall k :: k in s.storage && k != TokenKey && k != UserKey ==> r.storage[k] == s.storage[k]
  {
    Session(newToken, true, s.storage[UserKey := StoredText(userJson)][TokenKey := StoredText(newToken)])
  }

  /** `logout()`: removes both keys, clears token and flag. */
  function LoggedOut(s: Session): (r: Session)
    ensures r.token == Some("") && !r.isAuthenticated
    ensures TokenKey !in r.storage && UserKey !in r.storage
    ensures r.storage.Keys == s.storage.Keys - {TokenKey, UserKey}
    ensures forall k :: k in r.storage ==> r.storage[k] == s.storage[k]
  {
    Session(Some(""), false, s.storage - {TokenKey, UserKey})
  }

  /** `isLoggedIn()`: re-reads the stored token into the flag only. */
  function Checked(s: Session): (r: Session)
    ensures r.isAuthenticated == HasStoredToken(s.storage)
    ensures r.token == s.token && r.storage == s.storage
  {
    s.(isAuthenticated := HasStoredToken(s.storage))
  }

  /** Logging out twice is the same as logging out once. */
  lemma LogoutIdempotent(s: Session)
    ensures LoggedOut(LoggedOut(s)) == LoggedOut(s)
  {
  }

  /** The restore effect is idempotent as well. */
  lemma RestoreIdempotent(s: Session)
    ensures Restored(Restored(s)) == Restored(s)
  {
  }

  /** `isLoggedIn()` after `logout()` is false; after `login(t, u)` it is
      false only when `t` is "", and true when `t` is `undefined`. */
  lemma CheckAfterLogoutAndLogin(s: Session, t: Option<string>, u: Option<string>)
    ensures !Checked(LoggedOut(s)).isAuthenticated
    ensures Checked(LoggedIn(s, t, u)).isAuthenticated <==> t != Some("")
  {
  }

  /** A session persisted by `login` with a non-empty token is restored on
      the next page load (when nothing logs out first). */
  lemma ReloadRestoresLogin(s: Session, t: string, u: Option<string>)
    requires t != ""
    ensures Restored(Initial(LoggedIn(s, Some(t), u).storage)) == LoggedIn(s, Some(t), u)
  {
  }

  /** `login(undefined, u)` stores the text "undefined" as the token: the
      next page load restores a session whose token is that text. */
  lemma ReloadAfterLoginWithoutToken(s: Session, u: Option<string>)
    ensures LoggedIn(s, None, u).token == None
    ensures Checked(LoggedIn(s, None, u)).isAuthenticated
    ensures var r := Restored(Initial(LoggedIn(s, None, u).storage));
            r.isAuthenticated && r.token == Some("undefined")
  {
  }

  /** The flag agrees with storage: when it is set, the stored token is the
      text of the state's token. */
  predicate Synced(s: Session) {
    s.isAuthenticated ==> TokenKey in s.storage && s.storage[TokenKey] == StoredText(s.token)
  }

  lemma SyncedPreserved(s: Session, t: Option<string>, u: Option<string>)
    requires Synced(s)
    ensures Synced(Initial(s.storage))
    ensures Synced(Restored(s))
    ensures Synced(LoggedIn(s, t, u))
    ensures Synced(LoggedOut(s))
  {
  }

  /** `isLoggedIn()` does not keep it: called before the restore effect with
      a token in storage, it raises the flag while the state's token is still "". */
  lemma CheckBeforeRestoreDesyncs(storage: Storage)
    requires HasStoredToken(storage)
    ensures var r := Checked(Initial(storage)); r.isAuthenticated && r.token == Some("") && !Synced(r)
  {
  }

  /** `login` does not check its token: logging in with "" sets the flag
      while the token is empty. */
  lemma LoginAcceptsEmptyToken(s: Session, u: Option<string>)
    ensures LoggedIn(s, Some(""), u).isAuthenticated && LoggedIn(s, Some(""), u).token == Some("")
    ensures !HasStoredToken(LoggedIn(s, Some(""), u).storage)
  {
  }

  class AuthProvider {
    var token: Option<string>
    var isAuthenticated: bool
    /** `localStorage`. */
    var storage: Storage

    function Snapshot(): Session
      reads this
    {
      Session(token, isAuthenticated, storage)
    }

    /** Mounting: `useState("")`, `useState(false)`, over the storage left by
        earlier page loads. */
    constructor (stored: Storage)
      ensures token == Some("") && !isAuthenticated && storage == stored
      ensures Snapshot() == Initial(stored)
    {
      token := Some("");
      isAuthenticated := false;
      storage := stored;
    }

    /** The mount effect. */
    method Restore()
      modifies this
      ensures Snapshot() == Restored(old(Snapshot()))
    {
      var storedToken := if TokenKey in storage then storage[TokenKey] else "";
      if Truthy(storedToken) {
        token := Some(storedToken);
        isAuthenticated := true;
      }
    }

    method Login(newToken: Option<string>, userJson: Option<string>)
      modifies this
      ensures Snapshot() == LoggedIn(old(Snapshot()), newToken, userJson)
    {
      storage := storage[UserKey := StoredText(userJson)];
      storage := storage[TokenKey := StoredText(newToken)];
      token := newToken;
      isAuthenticated := true;
    }

    method Logout()
      modifies this
      ensures Snapshot() == LoggedOut(old(Snapshot()))
    {
      storage := storage - {TokenKey};
      storage := storage - {UserKey};
      token := Some("");
      isAuthenticated := false;
    }

    method IsLoggedIn() returns (loggedIn: bool)
      modifies this
      ensures loggedIn == HasStoredToken(old(storage))
      ensures Snapshot() == Checked(old(Snapshot()))
    {
      var storedToken := if TokenKey in storage then storage[TokenKey] else "";
      loggedIn := Truthy(storedToken);
      isAuthenticated := loggedIn;
    }
  }
}
