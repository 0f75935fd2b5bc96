/** The mock authentication service (src/app/auth/auth.service.ts): two
    fixed accounts, registration of any complete form, and the session kept
    in `localStorage` under "auth_token" and "user_data". The observables'
    delay is dropped: each operation is run to its result. The clock
    readings that make up ids and tokens are parameters. */
module Auth {
  import opened Wrappers
  import opened Storage

  datatype User = User(id: string, email: string, name: string, role: Option<string>)

  /** `Partial<User>`: a field is Some when the object has that key. */
  datatype PartialUser = PartialUser(id: Option<string>, email: Option<string>,
                                     name: Option<string>, role: Option<string>)

  datatype RegisterData = RegisterData(name: string, email: string, password: string)

  /** A stored value: a token string, the JSON of a user, or any other
      text (which JSON.parse rejects). */
  datatype AuthItem = Token(token: string) | UserData(user: User) | Garbled(text: string)

  datatype AuthResult = AuthResult(success: bool, user: Option<User>, token: Option<string>, error: Option<string>)

  const TokenKey := "auth_token"
  const UserKey := "user_data"
  const TokenPrefix := "mock_jwt_token_"
  const InvalidCredentials := "Credenciais inválidas"
  const InvalidData := "Dados inválidos"
  const UserNotFound := "Usuário não encontrado"

  const AdminUser := User("1", "admin@lima.com", "Administrador", Some("admin"))
  const StandardUser := User("2", "user@lima.com", "Usuário Padrão", Some("user"))

  /** The account a pair of credentials opens, if any. */
  function Account(email: string, password: string): (r: Option<User>)
    ensures r == Some(AdminUser) <==> email == "admin@lima.com" && password == "admin123"
    ensures r == Some(StandardUser) <==> email == "user@lima.com" && password == "user123"
    ensures r.Some? ==> r == Some(AdminUser) || r == Some(StandardUser)
  {
    if email == "admin@lima.com" && password == "admin123" then Some(AdminUser)
    else if email == "user@lima.com" && password == "user123" then Some(StandardUser)
    else None
  }

  /** `data.email && data.password && data.name`. */
  predicate Accepts(data: RegisterData) {
    data.email != "" && data.password != "" && data.name != ""
  }

  function NewUser(data: RegisterData, idStamp: string): (u: User)
    ensures u.role == Some("user") && u.email == data.email && u.name == data.name
  {
    User(idStamp, data.email, data.name, Some("user"))
  }

  /** `{ ...current, ...changes }`. */
  function Merge(current: User, changes: PartialUser): (r: User)
    ensures r.id == changes.id.GetOr(current.id) && r.email == changes.email.GetOr(current.email)
    ensures r.name == changes.name.GetOr(current.name)
    ensures r.role == if changes.role.Some? then changes.role else current.role
  {
    User(changes.id.GetOr(current.id), changes.email.GetOr(current.email),
         changes.name.GetOr(current.name), if changes.role.Some? then changes.role else current.role)
  }

  /** Merging no changes keeps the user; merging twice the same changes
      is merging once. */
  lemma MergeFacts(current: User, changes: PartialUser)
    ensures Merge(current, PartialUser(None, None, None, None)) == current
    ensures Merge(Merge(current, changes), changes) == Merge(current, changes)
  {
  }

  /** Whether `getItem` returns a truthy string. */
  predicate Present(v: Option<AuthItem>) {
    v.Some? && match v.value
      case Token(t) => t != ""
      case UserData(_) => true
      case Garbled(t) => t != ""
  }

  /** The user loadStoredAuth restores from a storage state: only when
      both keys hold a truthy string and the user data parses. */
  function Restored(items: map<string, AuthItem>): (r: Option<User>)
    ensures r.Some? ==> TokenKey in items && UserKey in items && items[UserKey] == UserData(r.value)
  {
    var t := if TokenKey in items then Some(items[TokenKey]) else None;
    var u := if UserKey in items then Some(items[UserKey]) else None;
    if Present(t) && Present(u) && u.value.UserData? then Some(u.value.user) else None
  }

  /** A session saved by login or register restores to its user, and
      after logout nothing is restored. */
  lemma SessionRoundTrip(items: map<string, AuthItem>, tokenStamp: string, u: User)
    ensures Restored(items[TokenKey := Token(TokenPrefix + tokenStamp)][UserKey := UserData(u)]) == Some(u)
    ensures Restored(items - {TokenKey, UserKey}).None?
  {
    var saved := items[TokenKey := Token(TokenPrefix + tokenStamp)][UserKey := UserData(u)];
    assert saved[TokenKey] == Token(TokenPrefix + tokenStamp);
    assert |TokenPrefix + tokenStamp| > 0;
  }

  class AuthService {
    var currentUser: Option<User>
    var isAuthenticated: bool
    const store: LocalStorage<AuthItem>

    /** The session state agrees with itself and with storage: it is
        authenticated exactly when there is a user, and then the stored
        token is present and the stored user data is that user. */
    predicate Valid()
      reads this, store
    {
      && (isAuthenticated <==> currentUser.Some?)
      && (currentUser.Some? ==>
            Present(store.GetItem(TokenKey)) && store.GetItem(UserKey) == Some(UserData(currentUser.value)))
    }

    /** A consistent service restores from its own storage the user it
        holds. */
    lemma ValidRestores()
      requires Valid() && currentUser.Some?
      ensures Restored(store.items) == currentUser
    {
    }

    /** The service as created: no user, then loadStoredAuth. */
    constructor(store: LocalStorage<AuthItem>)
      modifies store
      ensures this.store == store && Valid()
      ensures currentUser == Restored(old(store.items))
      ensures isAuthenticated <==> Restored(old(store.items)).Some?
      ensures var t, u := old(store.GetItem(TokenKey)), old(store.GetItem(UserKey));
        store.items == if Present(t) && Present(u) && !u.value.UserData?
                       then old(store.items) - {TokenKey, UserKey}
                       else old(store.items)
    {
      currentUser := None;
      isAuthenticated := false;
      this.store := store;
      new;
      LoadStoredAuth();
    }

    /** loadStoredAuth: with both keys truthy, the parsed user is signed
        in, or, when the user data does not parse, the session is logged
        out; otherwise nothing changes. */
    method LoadStoredAuth()
      requires Valid()
      modifies `currentUser, `isAuthenticated, store
      ensures var t, u := old(store.GetItem(TokenKey)), old(store.GetItem(UserKey));
        !(Present(t) && Present(u)) ==> unchanged(this) && unchanged(store)
      ensures var r := Restored(old(store.items));
        r.Some? ==> currentUser == r && isAuthenticated && unchanged(store)
      ensures var t, u := old(store.GetItem(TokenKey)), old(store.GetItem(UserKey));
        Present(t) && Present(u) && !u.value.UserData? ==>
          currentUser.None? && !isAuthenticated && store.items == old(store.items) - {TokenKey, UserKey}
      ensures Valid()
    {
      var token := store.GetItem(TokenKey);
      var userData := store.GetItem(UserKey);
      if Present(token) && Present(userData) {
        if userData.value.UserData? {
          currentUser := Some(userData.value.user);
          isAuthenticated := true;
        } else {
          Logout();
        }
      }
    }

    /** login: the two fixed accounts sign in and save the session;
        anything else fails with "Credenciais inválidas" and changes
        nothing. */
    method Login(email: string, password: string, tokenStamp: string) returns (r: AuthResult)
      requires Valid()
      modifies `currentUser, `isAuthenticated, store
      ensures Valid()
      ensures r.success <==> Account(email, password).Some?
      ensures Account(email, password).None? ==>
        r == AuthResult(false, None, None, Some(InvalidCredentials)) && unchanged(this) && unchanged(store)
      ensures Account(email, password).Some? ==>
        && r == AuthResult(true, Account(email, password), Some(TokenPrefix + tokenStamp), None)
        && currentUser == r.user && isAuthenticated
        && store.items == old(store.items)[TokenKey := Token(TokenPrefix + tokenStamp)][UserKey := UserData(r.user.value)]
    {
      var account := Account(email, password);
      if account.None? {
        return AuthResult(false, None, None, Some(InvalidCredentials));
      }
      var user := account.value;
      var token := TokenPrefix + tokenStamp;
      SaveSession(user, token);
      r := AuthResult(true, Some(user), Some(token), None);
    }

    /** register: a form with name, e-mail and password all non-empty
        creates a user with role "user" and signs it in; otherwise it
        fails with "Dados inválidos" and changes nothing. */
    method Register(data: RegisterData, idStamp: string, tokenStamp: string) returns (r: AuthResult)
      requires Valid()
      modifies `currentUser, `isAuthenticated, store
      ensures Valid()
      ensures r.success <==> Accepts(data)
      ensures !Accepts(data) ==>
        r == AuthResult(false, None, None, Some(InvalidData)) && unchanged(this) && unchanged(store)
      ensures Accepts(data) ==>
        && r == AuthResult(true, Some(NewUser(data, idStamp)), Some(TokenPrefix + tokenStamp), None)
        && currentUser == r.user && isAuthenticated
        && store.items == old(store.items)[TokenKey := Token(TokenPrefix + tokenStamp)][UserKey := UserData(r.user.value)]
    {
      if !(data.email != "" && data.password != "" && data.name != "") {
        return AuthResult(false, None, None, Some(InvalidData));
      }
      var user := User(idStamp, data.email, data.name, Some("user"));
      var token := TokenPrefix + tokenStamp;
      SaveSession(user, token);
      r := AuthResult(true, Some(user), Some(token), None);
    }

    /** The two storage writes and the state update shared by login and
        register. */
    method SaveSession(user: User, token: string)
      requires token != ""
      modifies `currentUser, `isAuthenticated, store
      ensures Valid()
      ensures currentUser == Some(user) && isAuthenticated
      ensures store.items == old(store.items)[TokenKey := Token(token)][UserKey := UserData(user)]
    {
      store.SetItem(TokenKey, Token(token));
      store.SetItem(UserKey, UserData(user));
      currentUser := Some(user);
      isAuthenticated := true;
      assert store.items[TokenKey] == Token(token);
    }

    /** logout: both keys removed, no user, not authenticated. */
    method Logout()
      modifies `currentUser, `isAuthenticated, store
      ensures Valid()
      ensures currentUser.None? && !isAuthenticated
      ensures store.items == old(store.items) - {TokenKey, UserKey}
    {
      store.RemoveItem(TokenKey);
      store.RemoveItem(UserKey);
      currentUser := None;
      isAuthenticated := false;
    }

    /** hasRole: there is a user and its role is exactly `role`. */
    function HasRole(role: string): (b: bool)
      reads this
      ensures b ==> currentUser.Some? && currentUser.value.role.Some?
      ensures b <==> currentUser.Some? && currentUser.value.role == Some(role)
    {
      match currentUser
      case None => false
      case Some(user) => user.role == Some(role)
    }

    /** updateProfile: without a user it fails with "Usuário não
        encontrado" and changes nothing; otherwise the merged user
        replaces the current one, in memory and in storage. */
    method UpdateProfile(changes: PartialUser) returns (r: AuthResult)
      requires Valid()
      modifies `currentUser, store
      ensures Valid()
      ensures old(currentUser).None? ==>
        r == AuthResult(false, None, None, Some(UserNotFound)) && unchanged(this) && unchanged(store)
      ensures old(currentUser).Some? ==>
        && r == AuthResult(true, Some(Merge(old(currentUser).value, changes)), None, None)
        && currentUser == r.user
        && store.items == old(store.items)[UserKey := UserData(r.user.value)]
    {
      if currentUser.None? {
        return AuthResult(false, None, None, Some(UserNotFound));
      }
      var updated := Merge(currentUser.value, changes);
      store.SetItem(UserKey, UserData(updated));
      currentUser := Some(updated);
      r := AuthResult(true, Some(updated), None, None);
      assert store.items[TokenKey] == old(store.items)[TokenKey];
    }
  }

  /** Signing in with a fixed account grants exactly that account's role. */
  lemma AccountRoles(email: string, password: string)
    requires Account(email, password).Some?
    ensures var u := Account(email, password).value;
      && (u.role == Some("admin") <==> email == "admin@lima.com")
      && (u.role == Some("user") <==> email == "user@lima.com")
      && u.email == email
  {
  }
}
