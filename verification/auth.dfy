/** The account registry and the signed-in session. `users` is the `users`
    collection in local storage and `session` the `currentUser` record; the
    500 ms simulated delay before each call is left out. */
module Auth {
  import opened Wrappers
  import opened Tasks

  /** A registered account, password included, as it is stored. */
  datatype User = User(id: UserId, name: string, email: string, password: string)

  /** The signed-in user as the session keeps it: the stored account with the
      `password` key left out. The type has no place for a password. */
  datatype SessionUser = SessionUser(id: UserId, name: string, email: string)

  datatype AuthError = InvalidCredentials | UserExists

  /** The message of the error the call throws. */
  function Message(e: AuthError): (r: string)
    ensures r == "Invalid email or password" <==> e == InvalidCredentials
    ensures r == "User already exists" <==> e == UserExists
  {
    match e
    case InvalidCredentials => "Invalid email or password"
    case UserExists => "User already exists"
  }

  datatype AuthState = AuthState(users: seq<User>, session: Option<SessionUser>)

  /** The outcome of a call: the state afterwards, and the error it threw, if any. */
  datatype Reply = Reply(state: AuthState, error: Option<AuthError>)

  /** `const { password, ...userWithoutPassword } = user`. */
  function WithoutPassword(u: User): (r: SessionUser)
    ensures r.id == u.id && r.name == u.name && r.email == u.email
  {
    SessionUser(u.id, u.name, u.email)
  }

  /** The session record says nothing about the password: accounts that
      differ only in their password give the same session. */
  lemma SessionHidesPassword(u: User, password: string)
    ensures WithoutPassword(u.(password := password)) == WithoutPassword(u)
  {
  }

  predicate Matches(u: User, email: string, password: string) {
    u.email == email && u.password == password
  }

  /** `users.find(...)` for the given credentials: the index of the first
      matching account. */
  function FindUser(users: seq<User>, email: string, password: string): (r: Option<nat>)
    ensures r.Some? ==>
      && r.value < |users|
      && Matches(users[r.value], email, password)
      && forall j :: 0 <= j < r.value ==> !Matches(users[j], email, password)
    ensures r.None? ==> forall u :: u in users ==> !Matches(u, email, password)
    decreases |users|
  {
    if users == [] then None
    else if Matches(users[0], email, password) then Some(0)
    else
      match FindUser(users[1..], email, password)
      case None => None
      case Some(i) => Some(i + 1)
  }

  /** `login`: on a match the session becomes the first matching account
      without its password; otherwise it throws "Invalid email or password"
      and nothing changes. The account list never changes. */
  function Login(s: AuthState, email: string, password: string): (r: Reply)
    ensures r.state.users == s.users
    ensures r.error.None? <==> exists u :: u in s.users && Matches(u, email, password)
    ensures r.error.Some? ==> r.error == Some(InvalidCredentials) && r.state == s
    ensures r.error.Some? ==> Message(r.error.value) == "Invalid email or password"
    ensures r.error.None? ==> exists i ::
      && 0 <= i < |s.users|
      && Matches(s.users[i], email, password)
      && (forall j :: 0 <= j < i ==> !Matches(s.users[j], email, password))
      && r.state.session == Some(WithoutPassword(s.users[i]))
  {
    match FindUser(s.users, email, password)
    case None => Reply(s, Some(InvalidCredentials))
    case Some(i) =>
      assert s.users[i] in s.users;
      Reply(s.(session := Some(WithoutPassword(s.users[i]))), None)
  }

  predicate EmailTaken(users: seq<User>, email: string) {
    exists i :: 0 <= i < |users| && users[i].email == email
  }

  /** `register`: an email already in use throws "User already exists" and
      changes nothing; otherwise exactly one account is appended and becomes
      the session, without its password. `id` stands for `Date.now()`. */
  function Register(s: AuthState, id: UserId, name: string, email: string, password: string): (r: Reply)
    ensures (exists u :: u in s.users && u.email == email) ==>
      r.error == Some(UserExists) && r.state == s && Message(r.error.value) == "User already exists"
    ensures (forall u :: u in s.users ==> u.email != email) ==>
      && r.error.None?
      && r.state.users == s.users + [User(id, name, email, password)]
      && r.state.session == Some(SessionUser(id, name, email))
  {
    if EmailTaken(s.users, email) then Reply(s, Some(UserExists))
    else
      var u := User(id, name, email, password);
      Reply(AuthState(s.users + [u], Some(WithoutPassword(u))), None)
  }

  /** `logout`: the session is cleared; the accounts stay. */
  function Logout(s: AuthState): (r: AuthState)
    ensures r.users == s.users && r.session.None?
  {
    s.(session := None)
  }

  /** No two accounts share an email. */
  ghost predicate DistinctEmails(users: seq<User>) {
    forall i, j :: 0 <= i < j < |users| ==> users[i].email != users[j].email
  }

  /** The session, when there is one, is an account on file without its password. */
  ghost predicate SessionOnFile(s: AuthState) {
    s.session.Some? ==> exists u :: u in s.users && WithoutPassword(u) == s.session.value
  }

  /** Registering keeps emails pairwise distinct. */
  lemma RegisterKeepsEmailsDistinct(s: AuthState, id: UserId, name: string, email: string, password: string)
    requires DistinctEmails(s.users)
    ensures DistinctEmails(Register(s, id, name, email, password).state.users)
  {
    var r := Register(s, id, name, email, password);
    if r.state.users != s.users {
      forall i, j | 0 <= i < j < |r.state.users|
        ensures r.state.users[i].email != r.state.users[j].email
      {
        if j == |s.users| {
          assert r.state.users[i] in s.users;
        }
      }
    }
  }

  /** Every call keeps the session pointing at an account on file. */
  lemma CallsKeepSessionOnFile(s: AuthState, id: UserId, name: string, email: string, password: string)
    requires SessionOnFile(s)
    ensures SessionOnFile(Login(s, email, password).state)
    ensures SessionOnFile(Register(s, id, name, email, password).state)
    ensures SessionOnFile(Logout(s))
  {
    var r := Register(s, id, name, email, password);
    if r.error.None? {
      assert r.state.users[|s.users|] in r.state.users;
    } else if s.session.Some? {
      var u :| u in s.users && WithoutPassword(u) == s.session.value;
      assert u in r.state.users;
    }
  }

  /** A fresh account can sign in straight away with the credentials it was
      registered with, and the session is then that account. */
  lemma RegisterThenLogin(s: AuthState, id: UserId, name: string, email: string, password: string)
    requires forall u :: u in s.users ==> u.email != email
    ensures var r := Register(s, id, name, email, password);
      Login(r.state, email, password) == Reply(r.state, None)
  {
    var r := Register(s, id, name, email, password);
    var users := r.state.users;
    assert Matches(users[|s.users|], email, password);
    assert forall j :: 0 <= j < |s.users| ==> !Matches(users[j], email, password) by {
      forall j | 0 <= j < |s.users|
        ensures !Matches(users[j], email, password)
      {
        assert users[j] in s.users;
      }
    }
    assert users[|s.users|] in users;
  }
}
