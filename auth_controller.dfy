/** Registration and login. Registering checks the e-mail before the password
    confirmation and answers with the new user's id, e-mail, creation time and
    a token, never the password. Logging in searches only the first page of the
    default user listing (ten users), and answers the same 401 for an unknown
    e-mail and for a wrong password. */
module AuthController {
  import opened Common
  import opened Text
  import opened Pagination
  import opened Crypto
  import opened Http
  import opened Users
  import opened Middleware

  /** The registration body: `password`, `confirmPassword`, and the rest
      (`userData`), which is stored as given. */
  datatype RegisterBody = RegisterBody(
    email: Option<string>, password: string, confirmPassword: string,
    role: Option<UserRole>, createdBy: Option<string>)

  /** The answer to a successful register or login. */
  datatype AuthData = AuthData(id: string, email: Option<string>, createdAt: int, token: string)

  const EmailExists := "Email already exists"
  const PasswordMismatch := "Passwords do not match"
  const InvalidCredentials := "Invalid credentials"

  /** What the handler answers for a user. */
  function AuthDataOf(u: User): (d: AuthData)
    ensures d.id == u.id && d.email == u.email && d.createdAt == u.createdAt
    ensures Verify(d.token) == Some(Claims(u.id))
  {
    AuthData(u.id, u.email, u.createdAt, GenerateToken(u))
  }

  /** `createUser` (register): 400 when some user already has the e-mail (even
      when the passwords differ), else 400 when the passwords differ, else one
      user is appended with the hashed password and the answer is 201. */
  function RegisterOutcome(s: seq<User>, body: RegisterBody, now: int): (r: (Response<AuthData>, seq<User>))
    ensures r.0.code == 201 || r.0.code == 400
    ensures r.0.code == 400 && r.0.message == EmailExists <==> exists j :: 0 <= j < |s| && s[j].email == body.email
    ensures r.0.code == 400 && r.0.message == PasswordMismatch <==>
              (forall j :: 0 <= j < |s| ==> s[j].email != body.email) && body.password != body.confirmPassword
    ensures r.0.code != 201 ==> r.1 == s && r.0.data.None? && !r.0.status
    ensures r.0.code == 201 ==>
              && |r.1| == |s| + 1 && r.1[..|s|] == s
              && (forall j :: 0 <= j < |s| ==> s[j].id != r.1[|s|].id)
              && r.1[|s|].email == body.email && r.1[|s|].role == body.role && r.1[|s|].createdAt == now
              && r.1[|s|].password != body.password && Compare(body.password, r.1[|s|].password)
              && r.0.data == Some(AuthDataOf(r.1[|s|]))
  {
    if EmailTaken(s, body.email) then (Fail(400, EmailExists), s)
    else if body.password != body.confirmPassword then (Fail(400, PasswordMismatch), s)
    else
      var createdUser := NewUser(s, UserInput(body.email, body.password, body.role, body.createdBy), now);
      assert (s + [createdUser])[..|s|] == s;
      (Ok(201, "User created successfully", Some(AuthDataOf(createdUser))), s + [createdUser])
  }

  /** The position `find` reports among `getAllUsers().rows` is the first
      position with the e-mail among the first ten users. */
  lemma FindInDefaultRows(s: seq<User>, test: (string, Option<string>) -> bool, email: Option<string>)
    ensures var rows := DefaultRows(s, test);
            match FirstIndex(rows, Email, email)
            case None => forall j :: 0 <= j < |s| && j < 10 ==> s[j].email != email
            case Some(i) => i < |s| && i < 10 && rows[i] == s[i] && s[i].email == email
                            && forall j :: 0 <= j < i ==> s[j].email != email
  {
    var rows := DefaultRows(s, test);
    match FirstIndex(rows, Email, email)
    case None =>
      forall j | 0 <= j < |s| && j < 10 ensures s[j].email != email {
        assert rows[j] == s[j];
      }
    case Some(i) =>
      forall j | 0 <= j < i ensures s[j].email != email {
        assert rows[j] == s[j];
      }
  }

  /** `loginUser`: the first user with the e-mail among `getAllUsers().rows`
      (page 1 of 10, no filter); 401 when there is none or the password does
      not match its hash, else 200 with that user's data and a fresh token. */
  function LoginOutcome(s: seq<User>, test: (string, Option<string>) -> bool, email: Option<string>,
                        password: string): (r: Response<AuthData>)
    ensures r.code == 200 || r.code == 401
    ensures r.code == 401 ==> r.message == InvalidCredentials && r.data.None? && !r.status
    ensures (forall j :: 0 <= j < |s| && j < 10 ==> s[j].email != email) ==> r.code == 401
    ensures r.code == 200 ==>
              exists i :: 0 <= i < |s| && i < 10 && s[i].email == email
                          && (forall j :: 0 <= j < i ==> s[j].email != email)
                          && Compare(password, s[i].password)
                          && r.data == Some(AuthDataOf(s[i]))
    ensures var f := FirstIndex(DefaultRows(s, test), Email, email);
            && (r.code == 200 <==> f.Some? && Compare(password, s[f.value].password))
            && (r.code == 200 ==> r.data == Some(AuthDataOf(s[f.value])))
  {
    var users := DefaultRows(s, test);
    FindInDefaultRows(s, test, email);
    match FirstIndex(users, Email, email)
    case None => Fail(401, InvalidCredentials)
    case Some(i) =>
      var user := users[i];
      if !Compare(password, user.password) then Fail(401, InvalidCredentials)
      else Ok(200, "Login successful", Some(AuthDataOf(user)))
  }

  /** A correct password logs in: when the user at position `i` is the first
      of the first ten with the e-mail and the password matches their stored
      hash, the answer is 200 with their data. */
  lemma {:induction false} CorrectPasswordLogsIn(s: seq<User>, test: (string, Option<string>) -> bool,
                                                 email: Option<string>, password: string, i: nat)
    requires i < |s| && i < 10 && s[i].email == email
    requires forall j :: 0 <= j < i ==> s[j].email != email
    requires Compare(password, s[i].password)
    ensures LoginOutcome(s, test, email, password) == Ok(200, "Login successful", Some(AuthDataOf(s[i])))
  {
    var rows := DefaultRows(s, test);
    assert rows[i] == s[i];
    forall j | 0 <= j < i ensures Email(rows[j]) != email {
      assert rows[j] == s[j];
    }
    LookupFirst(rows, Email, email, i);
  }

  /** A user who has just registered while fewer than ten users were stored
      can log in with the registered password, and is answered as themself. */
  lemma {:induction false} RegisterThenLogin(s: seq<User>, test: (string, Option<string>) -> bool,
                                             body: RegisterBody, now: int)
    requires |s| < 10
    requires forall j :: 0 <= j < |s| ==> s[j].email != body.email
    requires body.password == body.confirmPassword
    ensures var (resp, s') := RegisterOutcome(s, body, now);
            && resp.code == 201
            && LoginOutcome(s', test, body.email, body.password) == Ok(200, "Login successful", resp.data)
  {
    var (resp, s') := RegisterOutcome(s, body, now);
    assert DefaultRows(s', test) == s';
    forall j | 0 <= j < |s| ensures Email(s'[j]) != body.email {
      assert s'[j] == s[j];
    }
    LookupFirst(s', Email, body.email, |s|);
    CompareHash(body.password, body.password);
  }

  /** Login only looks at the first ten stored users: once ten users exist, a
      newly registered user cannot log in, even with the right password. */
  lemma {:induction false} EleventhUserCannotLogIn(s: seq<User>, test: (string, Option<string>) -> bool,
                                                   body: RegisterBody, now: int)
    requires |s| >= 10
    requires forall j :: 0 <= j < |s| ==> s[j].email != body.email
    requires body.password == body.confirmPassword
    ensures var (resp, s') := RegisterOutcome(s, body, now);
            && resp.code == 201
            && LoginOutcome(s', test, body.email, body.password).code == 401
  {
    var (resp, s') := RegisterOutcome(s, body, now);
    forall j | 0 <= j < |s'| && j < 10 ensures s'[j].email != body.email {
      assert s'[j] == s[j];
    }
  }

  /** A user whose stored password is not in the hash format (as after an
      update that sets `password` directly) cannot log in with any password,
      because login compares against a hash. */
  lemma {:induction false} PlainPasswordLocksOut(s: seq<User>, test: (string, Option<string>) -> bool,
                                                 email: Option<string>, password: string)
    requires forall i :: 0 <= i < |s| && i < 10 && s[i].email == email ==>
               !(|s[i].password| >= |HashPrefix| && s[i].password[..|HashPrefix|] == HashPrefix)
    ensures LoginOutcome(s, test, email, password).code == 401
  {
    if LoginOutcome(s, test, email, password).code == 200 {
      var i :| 0 <= i < |s| && i < 10 && s[i].email == email && Compare(password, s[i].password);
      CompareNeedsPrefix(password, s[i].password);
    }
  }

  /** A user who changes their own password through the update handler is
      locked out: `updateUser` stores the new password unhashed, and login
      rejects every password for them afterwards. This holds for the user at
      any position `i` that login would pick for their e-mail (no earlier user
      has it) and that update would pick for their id (no earlier user has it). */
  lemma {:induction false} PasswordUpdateLocksOut(s: seq<User>, test: (string, Option<string>) -> bool,
                                                  i: nat, patch: UserPatch, password: string)
    requires i < |s|
    requires forall j :: 0 <= j < i ==> s[j].id != s[i].id && s[j].email != s[i].email
    requires patch.id.None? && patch.email.None?
    requires patch.password.Some? && !(|patch.password.value| >= |HashPrefix|
                                       && patch.password.value[..|HashPrefix|] == HashPrefix)
    ensures var s' := UpdateFirst(s, Users.Key, Merge, s[i].id, patch).1;
            LoginOutcome(s', test, s[i].email, password).code == 401
  {
    UpdateFirstSpec(s, Users.Key, Merge, s[i].id, patch, i);
    var s' := UpdateFirst(s, Users.Key, Merge, s[i].id, patch).1;
    assert s'[i].email == s[i].email && s'[i].password == patch.password.value;
    CompareNeedsPrefix(password, s'[i].password);
  }

  // ---------------------------------------------------------------------
  // The handlers over the repository

  method CreateUser(svc: UserService, body: RegisterBody, now: int) returns (resp: Response<AuthData>)
    modifies svc
    ensures (resp, svc.users) == RegisterOutcome(old(svc.users), body, now)
  {
    if svc.IsEmailExists(body.email) {
      return Fail(400, EmailExists);
    }
    if body.password != body.confirmPassword {
      return Fail(400, PasswordMismatch);
    }
    var newUser := UserInput(body.email, body.password, body.role, body.createdBy);
    var createdUser := svc.CreateUser(newUser, now);
    var token := GenerateToken(createdUser);
    var responseData := AuthData(createdUser.id, createdUser.email, createdUser.createdAt, token);
    resp := Ok(201, "User created successfully", Some(responseData));
  }

  method LoginUser(svc: UserService, email: Option<string>, password: string) returns (resp: Response<AuthData>)
    ensures resp == LoginOutcome(svc.users, svc.emailMatches, email, password)
  {
    var page := svc.GetAllUsers(1, 10, "");
    var users := page.value.rows;
    var user := Lookup(users, Email, email);
    if user.None? {
      return Fail(401, InvalidCredentials);
    }
    var passwordMatch := Compare(password, user.value.password);
    if !passwordMatch {
      return Fail(401, InvalidCredentials);
    }
    var token := GenerateToken(user.value);
    var responseData := AuthData(user.value.id, user.value.email, user.value.createdAt, token);
    resp := Ok(200, "Login successful", Some(responseData));
  }
}
