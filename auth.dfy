/** Registration and login over the `users` table. The password digest is an
    abstract scheme; the access token is reduced to the identity it carries,
    the decimal text of the user's id. */
module AuthRoutes {
  import opened Common
  import opened Models
  import Decimal

  datatype AccessToken = AccessToken(identity: string)

  const RequiredMessage := "username and password required"
  const TakenMessage := "username taken"
  const CreatedMessage := "user created"

  /** The index of the first user called `name`, or None. */
  function FirstNamed(us: seq<User>, name: string): (r: Option<nat>)
    ensures r.Some? ==> r.value < |us| && us[r.value].username == name
    ensures r.None? <==> forall j :: 0 <= j < |us| ==> us[j].username != name
  {
    if |us| == 0 then None
    else if us[0].username == name then Some(0)
    else match FirstNamed(us[1..], name)
      case None => None
      case Some(i) => Some(i + 1)
  }

  /** Python truthiness of an optional string: present and non-empty. */
  predicate Given(s: Option<string>) {
    s.Some? && s.value != ""
  }

  class UserTable {
    var users: seq<User>
    var nextId: int

    /** Ids are positive, below the next one and distinct; usernames are
        distinct; every stored user has a digest. */
    ghost predicate Valid()
      reads this, users
    {
      && nextId >= 1
      && (forall i :: 0 <= i < |users| ==> 1 <= users[i].id < nextId && users[i].password.Some?)
      && (forall i, j :: 0 <= i < j < |users| ==> users[i].username != users[j].username && users[i].id != users[j].id)
    }

    constructor ()
      ensures Valid() && users == [] && nextId == 1
    {
      users := [];
      nextId := 1;
    }

    /** POST /auth/register: 400 unless both fields are given and non-empty,
        400 when the username is taken, and otherwise one new user with that
        username and the digest of the password is added (201), or nothing
        changes when the commit fails (500). */
    method Register(scheme: PasswordScheme, username: Option<string>, password: Option<string>, salt: nat, commitOk: bool)
      returns (r: Reply<string>)
      requires Valid()
      modifies this
      ensures Valid()
      ensures !Given(username) || !Given(password) ==> r == Failure(BadRequest(RequiredMessage)) && unchanged(this)
      ensures Given(username) && Given(password) && FirstNamed(old(users), username.value).Some? ==>
        r == Failure(BadRequest(TakenMessage)) && unchanged(this)
      ensures Given(username) && Given(password) && FirstNamed(old(users), username.value).None? && !commitOk ==>
        r == Failure(InternalError) && unchanged(this)
      ensures Given(username) && Given(password) && FirstNamed(old(users), username.value).None? && commitOk ==>
        && r == Success(201, CreatedMessage)
        && |users| == |old(users)| + 1 && users[..|old(users)|] == old(users)
        && fresh(users[|old(users)|])
        && users[|old(users)|].id == old(nextId)
        && users[|old(users)|].username == username.value
        && users[|old(users)|].password == Some(scheme.hash(salt, password.value))
        && nextId == old(nextId) + 1
    {
      if !Given(username) || !Given(password) {
        r := Failure(BadRequest(RequiredMessage));
        return;
      }
      if FirstNamed(users, username.value).Some? {
        r := Failure(BadRequest(TakenMessage));
        return;
      }
      if !commitOk {
        r := Failure(InternalError);
        return;
      }
      var user := new User(nextId, username.value);
      user.SetPassword(scheme, salt, password.value);
      users := users + [user];
      nextId := nextId + 1;
      r := Success(201, CreatedMessage);
    }

    /** POST /auth/login with the role claim left out: 401 when no user has
        the username or the password does not match; otherwise 200 with a
        token whose identity is the decimal text of the user's id. A user
        found with no password given makes the hash check raise (500). */
    function Login(scheme: PasswordScheme, username: Option<string>, password: Option<string>): (r: Reply<AccessToken>)
      reads this, users
      requires Valid()
    {
      var found := if username.Some? then FirstNamed(users, username.value) else None;
      if found.None? then Failure(Unauthorized)
      else
        var user := users[found.value];
        if password.None? then Failure(InternalError)
        else if !user.CheckPassword(scheme, password.value) then Failure(Unauthorized)
        else Success(200, AccessToken(Decimal.Show(user.id)))
    }

    /** POST /auth/login as written: the same checks, but a successful one then
        reads `user.role`, a column the user record does not have, and the
        route fails with 500. */
    function LoginAsWritten(scheme: PasswordScheme, username: Option<string>, password: Option<string>): (r: Reply<AccessToken>)
      reads this, users
      requires Valid()
    {
      var found := if username.Some? then FirstNamed(users, username.value) else None;
      if found.None? then Failure(Unauthorized)
      else
        var user := users[found.value];
        if password.None? then Failure(InternalError)
        else if !user.CheckPassword(scheme, password.value) then Failure(Unauthorized)
        else Failure(InternalError)
    }
  }

  /** Login succeeds exactly for a stored username with a matching password,
      and the token's identity reads back as that user's id, the id the task
      routes then scope every lookup to. */
  lemma LoginMeaning(table: UserTable, scheme: PasswordScheme, username: string, password: string)
    requires table.Valid()
    ensures table.Login(scheme, Some(username), Some(password)).Success? <==>
      exists i :: 0 <= i < |table.users| && table.users[i].username == username && table.users[i].CheckPassword(scheme, password)
    ensures table.Login(scheme, Some(username), Some(password)).Success? ==>
      exists i :: 0 <= i < |table.users| && table.users[i].username == username
        && Decimal.Parse(table.Login(scheme, Some(username), Some(password)).value.identity) == Some(table.users[i].id as nat)
    ensures table.Login(scheme, Some(username), Some(password)).Failure? ==>
      table.Login(scheme, Some(username), Some(password)).error == Unauthorized
  {
    var found := FirstNamed(table.users, username);
    if found.Some? {
      var i := found.value;
      Decimal.ParseShow(table.users[i].id);
    }
  }

  /** The discrepancy: for every registered user and matching password the
      corrected login replies 200 with a token, while the login as written
      replies 500; no input makes the login as written succeed. */
  lemma LoginAsWrittenFails(table: UserTable, scheme: PasswordScheme, username: Option<string>, password: Option<string>)
    requires table.Valid()
    ensures table.LoginAsWritten(scheme, username, password).Failure?
    ensures table.Login(scheme, username, password).Success? ==>
      table.Login(scheme, username, password).Status() == 200
      && table.LoginAsWritten(scheme, username, password) == Failure(InternalError)
  {
  }
}
