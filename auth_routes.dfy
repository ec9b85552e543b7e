/** `POST /auth/signup` and `POST /auth/login` of backend/app/routes/auth.py
    over the users table. Password hashing, password checking and token
    creation are the functions `hash`, `verify` and `createToken`. */
module AuthRoutes {
  import opened Wrappers
  import opened Strings
  import opened Http

  /** A row of the users table. */
  datatype User = User(id: nat, email: string, hashedPassword: string, fullName: Option<string>)

  /** The `UserResponse` signup returns: the row without its password. */
  datatype UserResponse = UserResponse(id: nat, email: string, fullName: Option<string>)

  /** The body of a successful login. */
  datatype TokenReply = TokenReply(accessToken: string, tokenType: string)

  const EmailTaken := HttpError(400, "Email already registered")
  const InvalidCredentials := HttpError(401, "Invalid email or password")

  /** The first user with this email, if any. */
  function FindUser(users: seq<User>, email: string): (r: Option<User>)
    ensures r.Some? ==> r.value in users && r.value.email == email
    ensures r.None? ==> forall u :: u in users ==> u.email != email
  {
    if users == [] then None
    else if users[0].email == email then Some(users[0])
    else FindUser(users[1..], email)
  }

  /** No two users share an email. */
  ghost predicate EmailsDistinct(users: seq<User>) {
    forall i, j :: 0 <= i < j < |users| ==> users[i].email != users[j].email
  }

  /** The users table and the next id it hands out. */
  class UserTable {
    var users: seq<User>
    var nextId: nat

    /** Emails are unique and ids are handed out in increasing order. */
    ghost predicate Valid()
      reads this
    {
      EmailsDistinct(users)
      && (forall i :: 0 <= i < |users| ==> users[i].id < nextId)
      && (forall i, j :: 0 <= i < j < |users| ==> users[i].id < users[j].id)
    }

    constructor ()
      ensures Valid() && users == [] && nextId == 0
    {
      users := [];
      nextId := 0;
    }

    /** `signup`: a registered email is refused with 400 and nothing is
        added; otherwise exactly one user is added, holding the hash of the
        password and not the password, and returned without it. */
    method Signup(email: string, password: string, fullName: Option<string>, hash: string -> string)
      returns (r: Result<UserResponse, HttpError>)
      requires Valid()
      modifies this
      ensures Valid()
      ensures FindUser(old(users), email).Some? ==>
        r == Err(EmailTaken) && users == old(users) && nextId == old(nextId)
      ensures FindUser(old(users), email).None? ==>
        && r == Ok(UserResponse(old(nextId), email, fullName))
        && users == old(users) + [User(old(nextId), email, hash(password), fullName)]
        && nextId == old(nextId) + 1
    {
      var existing := FindUser(users, email);
      if existing.Some? {
        return Err(EmailTaken);
      }
      var hashed := hash(password);
      var user := User(nextId, email, hashed, fullName);
      SignupKeepsEmailsDistinct(users, user);
      users := users + [user];
      nextId := nextId + 1;
      r := Ok(UserResponse(user.id, user.email, user.fullName));
    }
  }

  /** `login`: the form's username is the email; an unknown email and a
      wrong password both give 401, otherwise a bearer token for the user's
      id. */
  function Login(users: seq<User>, username: string, password: string,
                 verify: (string, string) -> bool, createToken: string -> string)
    : Result<TokenReply, HttpError>
  {
    match FindUser(users, username)
    case None => Err(InvalidCredentials)
    case Some(user) =>
      if !verify(password, user.hashedPassword) then Err(InvalidCredentials)
      else Ok(TokenReply(createToken(IntToString(user.id)), "bearer"))
  }

  /** Adding a user whose email is not taken keeps emails distinct. */
  lemma SignupKeepsEmailsDistinct(users: seq<User>, user: User)
    requires EmailsDistinct(users) && FindUser(users, user.email).None?
    ensures EmailsDistinct(users + [user])
  {
    assert forall i :: 0 <= i < |users| ==> users[i] in users;
  }

  /** Login fails in one way only: whether the email is unknown or the
      password does not match, the error is the same 401 "Invalid email or
      password"; when it succeeds, the token is made from the decimal id of
      the user with that email, which reads back as that id, and the type is
      "bearer". */
  lemma LoginOutcomes(users: seq<User>, username: string, password: string,
                      verify: (string, string) -> bool, createToken: string -> string)
    ensures var r := Login(users, username, password, verify, createToken);
      && ((forall u :: u in users ==> u.email != username) ==> r == Err(InvalidCredentials))
      && (FindUser(users, username).Some? && !verify(password, FindUser(users, username).value.hashedPassword) ==>
            r == Err(InvalidCredentials))
      && (r.Err? ==> r.error == InvalidCredentials)
      && (r.Ok? <==> FindUser(users, username).Some? && verify(password, FindUser(users, username).value.hashedPassword))
      && (r.Ok? ==>
            var user := FindUser(users, username).value;
            && user.email == username
            && r.value == TokenReply(createToken(IntToString(user.id)), "bearer")
            && ParseInt(IntToString(user.id)) == Some(user.id as int))
  {
    match FindUser(users, username)
    case None =>
    case Some(user) =>
      IntToStringRoundTrip(user.id);
  }

  /** After a successful signup the new user is the one found by its email,
      so logging in with the same password (which the checker accepts
      against its hash) gives a token for the new id. */
  lemma SignupThenLogin(users: seq<User>, user: User, password: string,
                        verify: (string, string) -> bool, createToken: string -> string)
    requires FindUser(users, user.email).None?
    requires verify(password, user.hashedPassword)
    ensures FindUser(users + [user], user.email) == Some(user)
    ensures Login(users + [user], user.email, password, verify, createToken)
      == Ok(TokenReply(createToken(IntToString(user.id)), "bearer"))
  {
    FindUserAppend(users, user);
  }

  /** A user appended after every user with a different email is the one
      found by that email. */
  lemma {:induction false} FindUserAppend(users: seq<User>, user: User)
    requires FindUser(users, user.email).None?
    ensures FindUser(users + [user], user.email) == Some(user)
    decreases |users|
  {
    if users == [] {
      assert users + [user] == [user];
    } else {
      assert (users + [user])[1..] == users[1..] + [user];
      FindUserAppend(users[1..], user);
    }
  }
}
