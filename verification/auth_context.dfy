/** The session manager: a fixed table of demo accounts, the current user,
    the loading flag, and the one browser-storage entry that keeps the
    signed-in user across page loads.

    Browser storage is a map from key to string (a key that is absent has no
    value). `JSON.parse` and `JSON.stringify` are left uninterpreted and are
    passed in as functions; a parse that throws is `None`. The 800 ms login
    delay and the toast notifications have no effect on the state and are
    not modelled. */
module AuthContext {
  import opened Common

  datatype Role = Researcher | Developer | Admin

  /** A demo account as it is stored in the credential table. */
  datatype Account = Account(
    id: string,
    email: string,
    password: string,
    name: string,
    role: Role,
    organization: Option<string>)

  /** The user record the rest of the application sees: an account without
      its password. */
  datatype User = User(
    id: string,
    email: string,
    name: string,
    role: Role,
    organization: Option<string>)

  /** The three demo accounts, in table order. */
  function MockUsers(): seq<Account> {
    [ Account("1", "researcher@example.com", "password", "Alex Researcher",
              Researcher, Some("AI Research Lab")),
      Account("2", "dev@example.com", "password", "Sam Developer",
              Developer, Some("Tech Solutions")),
      Account("3", "admin@example.com", "password", "Jordan Admin",
              Admin, None) ]
  }

  /** The storage key under which the signed-in user is persisted. */
  const StorageKey := "llm_playground_user"

  /** The message of the error a failed login throws. */
  const InvalidCredentials := "Invalid email or password"

  type Storage = map<string, string>

  /** What the provider holds: the current user, the loading flag, and the
      browser storage it reads and writes. */
  datatype Session = Session(user: Option<User>, isLoading: bool, storage: Storage)

  /** The provider's state when it mounts, before the stored user is read. */
  function Mounted(storage: Storage): Session {
    Session(None, true, storage)
  }

  /** `isAuthenticated`: there is a current user. */
  predicate IsAuthenticated(s: Session) {
    s.user.Some?
  }

  /** The record kept for a signed-in account: every field but the password. */
  function WithoutPassword(a: Account): (u: User)
    ensures u.id == a.id && u.email == a.email && u.name == a.name
    ensures u.role == a.role && u.organization == a.organization
  {
    User(a.id, a.email, a.name, a.role, a.organization)
  }

  predicate Matches(a: Account, email: string, password: string) {
    a.email == email && a.password == password
  }

  /** `Array.prototype.find` over the account table: the first account whose
      email and password both equal the given ones exactly. */
  function FindAccount(accounts: seq<Account>, email: string, password: string): (r: Option<Account>)
    ensures r.None? <==> forall i :: 0 <= i < |accounts| ==> !Matches(accounts[i], email, password)
    ensures r.Some? ==> exists k :: 0 <= k < |accounts| && r.value == accounts[k]
                                   && Matches(accounts[k], email, password)
                                   && forall j :: 0 <= j < k ==> !Matches(accounts[j], email, password)
  {
    if |accounts| == 0 then None
    else if Matches(accounts[0], email, password) then Some(accounts[0])
    else
      var r := FindAccount(accounts[1..], email, password);
      if r.Some? then
        var k :| 0 <= k < |accounts[1..]| && r.value == accounts[1..][k]
                 && Matches(accounts[1..][k], email, password)
                 && forall j :: 0 <= j < k ==> !Matches(accounts[1..][j], email, password);
        assert r.value == accounts[k + 1];
        r
      else r
  }

  // ---------------------------------------------------------------------------
  // Restoring the stored user when the provider mounts

  /** The effect that runs once on mount. A stored value that is absent or
      empty (the empty string is falsy) leaves no user; a value that parses
      becomes the user; a value that does not parse is removed. In every case
      loading ends. */
  function Restore(storage: Storage, parse: string -> Option<User>): (r: Session)
    ensures !r.isLoading
    ensures StorageKey !in storage || storage[StorageKey] == "" ==>
              r.user == None && r.storage == storage
    ensures StorageKey in storage && storage[StorageKey] != "" && parse(storage[StorageKey]).Some? ==>
              r.user == parse(storage[StorageKey]) && r.storage == storage
    ensures StorageKey in storage && storage[StorageKey] != "" && parse(storage[StorageKey]).None? ==>
              r.user == None && r.storage == storage - {StorageKey}
  {
    var s := Mounted(storage);
    var stored := if StorageKey in storage then storage[StorageKey] else "";
    var after :=
      if stored == "" then s
      else match parse(stored)
        case Some(u) => s.(user := Some(u))
        case None => s.(storage := s.storage - {StorageKey});
    after.(isLoading := false)
  }

  /** Restoring again from the storage a restore left behind gives the same
      state: a parsed value is still there and parses the same way, and a
      removed value stays absent. */
  lemma RestoreIdempotent(storage: Storage, parse: string -> Option<User>)
    ensures Restore(Restore(storage, parse).storage, parse) == Restore(storage, parse)
  {
  }

  /** A restore authenticates exactly when a non-empty stored value parses. */
  lemma RestoreAuthenticates(storage: Storage, parse: string -> Option<User>)
    ensures IsAuthenticated(Restore(storage, parse)) <==>
              StorageKey in storage && storage[StorageKey] != "" && parse(storage[StorageKey]).Some?
  {
  }

  // ---------------------------------------------------------------------------
  // Login and logout

  /** How a login ends: the signed-in user, or the message of the error. */
  datatype LoginOutcome = Welcome(user: User) | Rejected(message: string)

  datatype LoginResult = LoginResult(session: Session, outcome: LoginOutcome)

  /** `login(email, password)`: look the pair up in the demo table; on a
      match keep and persist the account without its password, otherwise
      reject with the invalid-credentials message and leave the user and the
      storage as they were. Loading is off once it returns, either way. */
  function Login(s: Session, email: string, password: string,
                 stringify: User -> string): (r: LoginResult)
    ensures !r.session.isLoading
    ensures r.outcome.Welcome? <==>
              exists a :: a in MockUsers() && a.email == email && a.password == password
    ensures r.outcome.Welcome? ==>
              && (exists a :: a in MockUsers() && Matches(a, email, password)
                              && r.outcome.user == WithoutPassword(a))
              && r.session.user == Some(r.outcome.user)
              && r.session.storage == s.storage[StorageKey := stringify(r.outcome.user)]
    ensures r.outcome.Rejected? ==>
              && r.outcome.message == InvalidCredentials
              && r.session.user == s.user
              && r.session.storage == s.storage
  {
    var loading := s.(isLoading := true);
    match FindAccount(MockUsers(), email, password)
    case Some(a) =>
      var u := WithoutPassword(a);
      LoginResult(loading.(user := Some(u), storage := loading.storage[StorageKey := stringify(u)],
                           isLoading := false),
                  Welcome(u))
    case None =>
      LoginResult(loading.(isLoading := false), Rejected(InvalidCredentials))
  }

  /** `logout()`: no user and no stored entry afterwards, from any state;
      every other storage key and the loading flag are untouched. */
  function Logout(s: Session): (r: Session)
    ensures r.user == None && !IsAuthenticated(r)
    ensures StorageKey !in r.storage
    ensures forall k :: k in s.storage && k != StorageKey ==> k in r.storage && r.storage[k] == s.storage[k]
    ensures forall k :: k in r.storage ==> k in s.storage
    ensures r.isLoading == s.isLoading
  {
    s.(user := None, storage := s.storage - {StorageKey})
  }

  /** After a logout, a page load finds nothing to restore: the session
      stays signed out whatever `JSON.parse` does, and the storage is left
      as the logout left it. */
  lemma LogoutThenRestore(s: Session, parse: string -> Option<User>)
    ensures !IsAuthenticated(Restore(Logout(s).storage, parse))
    ensures Restore(Logout(s).storage, parse).storage == Logout(s).storage
  {
  }

  /** The email addresses of the demo table are distinct, so at most one
      account can match, whatever the password. */
  lemma MockEmailsDistinct()
    ensures forall i, j :: 0 <= i < j < |MockUsers()| ==> MockUsers()[i].email != MockUsers()[j].email
  {
  }

  /** Every demo account can sign in with its own credentials, and the user
      it yields is that account without its password. */
  lemma SeedAccountsLogIn(s: Session, a: Account, stringify: User -> string)
    requires a in MockUsers()
    ensures Login(s, a.email, a.password, stringify).outcome == Welcome(WithoutPassword(a))
  {
    var r := Login(s, a.email, a.password, stringify);
    var b :| b in MockUsers() && Matches(b, a.email, a.password) && r.outcome.user == WithoutPassword(b);
    MockEmailsDistinct();
    assert b == a;
  }

  /** When `JSON.parse` undoes `JSON.stringify` on user records, a page load
      after a successful login restores the user who signed in. */
  lemma LoginThenRestore(s: Session, email: string, password: string,
                         parse: string -> Option<User>, stringify: User -> string)
    requires forall u :: parse(stringify(u)) == Some(u)
    requires forall u :: stringify(u) != ""
    ensures var r := Login(s, email, password, stringify);
            r.outcome.Welcome? ==> Restore(r.session.storage, parse).user == Some(r.outcome.user)
  {
  }

  /** A failed login neither signs anyone in nor out, and a stale stored
      entry survives it. */
  lemma FailedLoginKeepsState(s: Session, email: string, password: string, stringify: User -> string)
    requires forall a :: a in MockUsers() ==> !Matches(a, email, password)
    ensures var r := Login(s, email, password, stringify);
            r.outcome == Rejected(InvalidCredentials) && r.session == s.(isLoading := false)
  {
  }
}
