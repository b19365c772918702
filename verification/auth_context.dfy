/**
 * The session store (contexts/AuthContext.tsx): the current user, the
 * start-up flag, and the copy of the user kept in the browser's local storage
 * under the key "user". Login fetches the whole account list and compares
 * credentials in plain text on the client, as the source does.
 */
module Auth {
  import opened Wrappers

  /** The account roles `'user'` and `'admin'`. */
  datatype Role = Member | Admin

  /** The session user: an account without its password. */
  datatype User = User(id: int, username: string, role: Role, fullName: string)

  /** A record of the server's `/users` list, password included. */
  datatype Account = Account(id: int, username: string, password: string, role: Role, fullName: string)

  /** Local storage: string keys to string values. */
  type Storage = map<string, string>

  const StorageKey: string := "user"

  /** `JSON.stringify` on session users and `JSON.parse` back; a parse that throws is `None`. */
  datatype JsonCodec = JsonCodec(stringify: User -> string, parse: string -> Option<User>)

  /**
   * The JSON text of `u` is not empty and parses back to `u`. JavaScript gives
   * this for every record whose id is a JavaScript number; only an `int` no
   * double can hold would fail.
   */
  predicate Restores(c: JsonCodec, u: User)
  {
    c.stringify(u) != "" && c.parse(c.stringify(u)) == Some(u)
  }

  datatype Session = Session(user: Option<User>, isLoading: bool, storage: Storage)

  /** The provider's state when it mounts: no user yet, still loading. */
  function Start(storage: Storage): Session
  {
    Session(None, true, storage)
  }

  predicate Matches(a: Account, username: string, password: string)
  {
    a.username == username && a.password == password
  }

  /** `i` is the first account in `accounts` whose credentials match. */
  ghost predicate IsFirstMatch(accounts: seq<Account>, i: int, username: string, password: string)
  {
    && 0 <= i < |accounts|
    && Matches(accounts[i], username, password)
    && forall j :: 0 <= j < i ==> !Matches(accounts[j], username, password)
  }

  /** `users.find(...)`: the position of the first account with exactly these credentials. */
  function FindAccount(accounts: seq<Account>, username: string, password: string): (r: Option<nat>)
    ensures r.Some? ==> IsFirstMatch(accounts, r.value, username, password)
    ensures r.None? <==> forall j :: 0 <= j < |accounts| ==> !Matches(accounts[j], username, password)
  {
    if accounts == [] then None
    else if Matches(accounts[0], username, password) then Some(0)
    else
      match FindAccount(accounts[1..], username, password)
      case None => None
      case Some(k) => Some(k + 1)
  }

  /** The session record built from an account: every field but the password. */
  function ToUser(a: Account): (u: User)
    ensures u.id == a.id && u.username == a.username && u.role == a.role && u.fullName == a.fullName
  {
    User(a.id, a.username, a.role, a.fullName)
  }

  datatype LoginResult = LoginResult(session: Session, success: bool)

  /**
   * `login`. `response` is the parsed `/users` list, or `None` when the
   * request failed, the status was not ok, or the body did not parse.
   * `persisted` says whether `localStorage.setItem` returned normally. It runs
   * after `setUser`, so when it throws the user is already set, nothing is
   * stored, and the `catch` reports failure.
   */
  function Login(s: Session, username: string, password: string, response: Option<seq<Account>>,
                 persisted: bool, c: JsonCodec): (r: LoginResult)
    ensures r.success <==>
      && response.Some?
      && (exists i :: 0 <= i < |response.value| && Matches(response.value[i], username, password))
      && persisted
    ensures response.Some? && (exists i :: 0 <= i < |response.value| && Matches(response.value[i], username, password)) ==>
      && (exists i :: IsFirstMatch(response.value, i, username, password) && r.session.user == Some(ToUser(response.value[i])))
      && r.session.isLoading == s.isLoading
      && r.session.storage == (if persisted then s.storage[StorageKey := c.stringify(r.session.user.value)] else s.storage)
    ensures response.None? || (forall i :: 0 <= i < |response.value| ==> !Matches(response.value[i], username, password)) ==>
      r.session == s && !r.success
  {
    if response.None? then LoginResult(s, false)
    else
      match FindAccount(response.value, username, password)
      case None => LoginResult(s, false)
      case Some(i) =>
        var u := ToUser(response.value[i]);
        if persisted then LoginResult(Session(Some(u), s.isLoading, s.storage[StorageKey := c.stringify(u)]), true)
        else LoginResult(Session(Some(u), s.isLoading, s.storage), false)
  }

  /** `logout`: no user, no stored record, every other stored key kept. */
  function Logout(s: Session): (r: Session)
    ensures r.user.None? && StorageKey !in r.storage
    ensures forall k :: k != StorageKey ==> (k in r.storage <==> k in s.storage)
    ensures forall k :: k in r.storage ==> r.storage[k] == s.storage[k]
    ensures r.isLoading == s.isLoading
  {
    Session(None, s.isLoading, s.storage - {StorageKey})
  }

  /**
   * `checkAuth`, run once after mounting. An absent or empty stored value is
   * ignored; one that parses becomes the user; one that throws is removed.
   * Loading ends in every case.
   */
  function CheckAuth(s: Session, c: JsonCodec): (r: Session)
    ensures !r.isLoading
    ensures StorageKey !in s.storage || s.storage[StorageKey] == "" ==>
      r.user == s.user && r.storage == s.storage
    ensures StorageKey in s.storage && s.storage[StorageKey] != "" && c.parse(s.storage[StorageKey]).Some? ==>
      r.user == c.parse(s.storage[StorageKey]) && r.storage == s.storage
    ensures StorageKey in s.storage && s.storage[StorageKey] != "" && c.parse(s.storage[StorageKey]).None? ==>
      r.user == s.user && StorageKey !in r.storage
    ensures forall k :: k != StorageKey ==> (k in r.storage <==> k in s.storage)
    ensures forall k :: k in r.storage ==> r.storage[k] == s.storage[k]
  {
    if StorageKey in s.storage && s.storage[StorageKey] != "" then
      match c.parse(s.storage[StorageKey])
      case Some(u) => s.(user := Some(u), isLoading := false)
      case None => s.(storage := s.storage - {StorageKey}, isLoading := false)
    else
      s.(isLoading := false)
  }

  /** The stored record is exactly the in-memory user, or absent when there is none. */
  ghost predicate Agrees(s: Session, c: JsonCodec)
  {
    match s.user
    case None => StorageKey !in s.storage
    case Some(u) => StorageKey in s.storage && s.storage[StorageKey] == c.stringify(u)
  }

  /**
   * Login and logout keep memory and storage in agreement: a successful
   * login and every logout establish it, and a login whose storage write
   * went through preserves it.
   */
  lemma LoginLogoutAgree(s: Session, username: string, password: string, response: Option<seq<Account>>,
                         persisted: bool, c: JsonCodec)
    ensures Agrees(Logout(s), c)
    ensures Login(s, username, password, response, persisted, c).success ==>
      Agrees(Login(s, username, password, response, persisted, c).session, c)
    ensures Agrees(s, c) && persisted ==> Agrees(Login(s, username, password, response, persisted, c).session, c)
  {
  }

  /**
   * A login whose credentials match but whose storage write throws reports
   * failure while leaving the user signed in with nothing stored, so memory
   * and storage no longer agree.
   */
  lemma FailedWriteBreaksAgreement(s: Session, username: string, password: string, accounts: seq<Account>, c: JsonCodec)
    requires exists i :: 0 <= i < |accounts| && Matches(accounts[i], username, password)
    requires StorageKey !in s.storage
    ensures var r := Login(s, username, password, Some(accounts), false, c);
      !r.success && r.session.user.Some? && !Agrees(r.session, c)
  {
  }

  /** With a record that parses back, restoring from storage never breaks the agreement nor changes the user. */
  lemma CheckAuthKeepsAgreement(s: Session, c: JsonCodec)
    requires Agrees(s, c)
    requires s.user.Some? ==> Restores(c, s.user.value)
    ensures Agrees(CheckAuth(s, c), c) && CheckAuth(s, c).user == s.user
  {
  }

  /** A user persisted by a successful login is restored unchanged after a reload. */
  lemma LoginSurvivesReload(s: Session, username: string, password: string, response: Option<seq<Account>>, c: JsonCodec)
    requires Login(s, username, password, response, true, c).success
    requires Restores(c, Login(s, username, password, response, true, c).session.user.value)
    ensures CheckAuth(Start(Login(s, username, password, response, true, c).session.storage), c)
      == Login(s, username, password, response, true, c).session.(isLoading := false)
  {
  }

  /** A value that does not parse is dropped at start-up, leaving no user. */
  lemma CorruptRecordIsDropped(storage: Storage, c: JsonCodec)
    requires StorageKey in storage && storage[StorageKey] != "" && c.parse(storage[StorageKey]).None?
    ensures CheckAuth(Start(storage), c).user.None?
    ensures StorageKey !in CheckAuth(Start(storage), c).storage
    ensures !CheckAuth(Start(storage), c).isLoading
  {
  }
}
