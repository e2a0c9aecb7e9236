/**
 * Sign-in and sign-up against the in-memory user list (`handleLogin` and
 * `handleRegister` in App.tsx): plain comparison, no hashing.
 */
module Accounts {
  import opened Wrappers
  import opened Types

  const InvalidCredentials: string := "Invalid email or password."
  const EmailTaken: string := "An account with this email already exists."

  /** What the sign-in form submits; the password is optional in the handler's type. */
  datatype Credentials = Credentials(email: string, password: Option<string>)

  /** What the sign-up form submits. */
  datatype Details = Details(name: string, email: string, password: Option<string>)

  /** Email and password both equal, with `===` (an absent password equals only an absent one). */
  predicate Accepts(u: User, c: Credentials)
  {
    u.email == c.email && u.password == c.password
  }

  /** Position `k` holds the first user the credentials are accepted by. */
  predicate FirstAccepting(users: seq<User>, k: int, c: Credentials)
  {
    0 <= k < |users| && Accepts(users[k], c) && forall j :: 0 <= j < k ==> !Accepts(users[j], c)
  }

  /**
   * `handleLogin`: the first user whose email and password match becomes the
   * current user; if there is none the handler throws "Invalid email or password.".
   */
  function Login(users: seq<User>, c: Credentials): (r: Result<User>)
    ensures r.Ok? <==> exists u :: u in users && Accepts(u, c)
    ensures r.Ok? ==> exists k :: FirstAccepting(users, k, c) && users[k] == r.value
    ensures r.Err? ==> r.message == InvalidCredentials
  {
    if |users| == 0 then Err(InvalidCredentials)
    else if Accepts(users[0], c) then
      assert FirstAccepting(users, 0, c);
      Ok(users[0])
    else
      var r := Login(users[1..], c);
      assert forall u :: u in users ==> u == users[0] || u in users[1..];
      if r.Ok? then
        var k :| FirstAccepting(users[1..], k, c) && users[1..][k] == r.value;
        assert FirstAccepting(users, k + 1, c);
        r
      else r
  }

  /** Some user already has this email. */
  predicate EmailInUse(users: seq<User>, email: string)
  {
    exists u :: u in users && u.email == email
  }

  /** The user list after a successful sign-up, and the new user, who is now signed in. */
  datatype Registration = Registration(users: seq<User>, current: User)

  /**
   * `handleRegister`: an email already on file throws "An account with this
   * email already exists."; otherwise a 'Customer' with the given details is
   * appended and signed in. Its id and creation time come from the clock and
   * are passed in.
   */
  function Register(users: seq<User>, d: Details, newId: int, createdAt: string): (r: Result<Registration>)
    ensures r.Err? <==> EmailInUse(users, d.email)
    ensures r.Err? ==> r.message == EmailTaken
    ensures r.Ok? ==> r.value.users == users + [r.value.current]
    ensures r.Ok? ==> r.value.current == User(newId, d.name, d.email, d.password, Customer, None, createdAt)
  {
    if EmailInUse(users, d.email) then Err(EmailTaken)
    else
      var u := User(newId, d.name, d.email, d.password, Customer, None, createdAt);
      Ok(Registration(users + [u], u))
  }

  /** Appending a user only matters to credentials no earlier user accepts. */
  lemma {:induction false} LoginAppend(users: seq<User>, u: User, c: Credentials)
    ensures (exists v :: v in users && Accepts(v, c)) ==> Login(users + [u], c) == Login(users, c)
    ensures (forall v :: v in users ==> !Accepts(v, c))
            ==> Login(users + [u], c) == if Accepts(u, c) then Ok(u) else Err(InvalidCredentials)
    decreases |users|
  {
    if |users| == 0 {
      assert users + [u] == [u];
      assert [u][1..] == [];
    } else {
      assert (users + [u])[1..] == users[1..] + [u];
      assert forall v :: v in users <==> v == users[0] || v in users[1..];
      LoginAppend(users[1..], u, c);
    }
  }

  /** Right after signing up, signing in with the same email and password finds exactly the new account. */
  lemma LoginAfterRegister(users: seq<User>, d: Details, newId: int, createdAt: string)
    requires Register(users, d, newId, createdAt).Ok?
    ensures var reg := Register(users, d, newId, createdAt).value;
      Login(reg.users, Credentials(d.email, d.password)) == Ok(reg.current)
  {
    var reg := Register(users, d, newId, createdAt).value;
    LoginAppend(users, reg.current, Credentials(d.email, d.password));
  }

  /** Signing up never changes the outcome for credentials an existing account already accepts. */
  lemma RegisterKeepsExistingLogins(users: seq<User>, d: Details, newId: int, createdAt: string, c: Credentials)
    requires Register(users, d, newId, createdAt).Ok?
    requires exists u :: u in users && Accepts(u, c)
    ensures Login(Register(users, d, newId, createdAt).value.users, c) == Login(users, c)
  {
    LoginAppend(users, Register(users, d, newId, createdAt).value.current, c);
  }
}
