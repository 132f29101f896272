/**
 * Registration and login (server/src/controllers/auth.controller.ts) over the user table.
 * bcrypt and jsonwebtoken are oracles: `hash(password, rounds)` is the stored hash,
 * `compare(password, stored)` the bcrypt check, and `sign(payload, secret, expiresIn)` the token.
 */
module AuthController {

  import opened Wrappers
  import opened Text
  import opened Db

  const EmptyCredentials: string := "用户名和密码不能为空"
  const UsernameTaken: string := "用户名已存在"
  const Registered: string := "注册成功"
  const BadCredentials: string := "用户名或密码错误"
  const LoggedIn: string := "登录成功"
  const InternalError: string := "服务器内部错误"

  const DefaultAvatar: string := "https://cube.elemecdn.com/3/7c/3ea6beec64369c2642b92c6726f1epng.png"
  /** The signing secret when the environment provides none. */
  const DefaultSecret: string := "my-super-secret-key"
  const TokenLifetime: string := "24h"
  const SaltRounds: int := 10

  /** The user fields a successful registration returns. */
  datatype RegisteredUser = RegisteredUser(id: int, username: string, avatar: Option<string>)

  /** The user fields a successful login returns. */
  datatype SessionUser = SessionUser(id: int, username: string, avatar: Option<string>, role: string)

  /** The signed token payload. */
  datatype TokenPayload = TokenPayload(userId: int, username: string, role: string)

  datatype RegisterReply =
    | RegisterRefused(status: int, message: string)
    | RegisterCreated(status: int, message: string, user: RegisteredUser)

  datatype LoginReply =
    | LoginRefused(status: int, message: string)
    | LoginAccepted(message: string, token: string, user: SessionUser)

  /** `process.env.JWT_SECRET || 'my-super-secret-key'` */
  function Secret(env: Option<string>): (s: string)
    ensures Truthy(env) ==> s == env.value
    ensures !Truthy(env) ==> s == DefaultSecret
  {
    if Truthy(env) then env.value else DefaultSecret
  }

  /** The row `register` creates: the hashed password and the default avatar; every profile field empty. */
  function NewUser(id: int, username: string, hashed: string, now: Moment): User {
    User(id, username, hashed, DefaultRole, None, Some(DefaultAvatar), None, None, None, None, now)
  }

  /**
   * `register`: both fields must be present and non-empty, the username must be free; then
   * exactly one user is added and 201 answers with its id, username and avatar only.
   */
  method Register(users: UserTable, username: Option<string>, password: Option<string>,
                  hash: (string, int) -> string, now: Moment) returns (r: RegisterReply)
    requires users.Valid()
    modifies users
    ensures users.Valid()
    ensures !Truthy(username) || !Truthy(password) ==>
      r == RegisterRefused(400, EmptyCredentials) && users.rows == old(users.rows) && users.nextId == old(users.nextId)
    ensures Truthy(username) && Truthy(password) && UserNamed(old(users.rows), username.value).Some? ==>
      r == RegisterRefused(400, UsernameTaken) && users.rows == old(users.rows) && users.nextId == old(users.nextId)
    ensures Truthy(username) && Truthy(password) && UserNamed(old(users.rows), username.value).None? ==>
      var id := old(users.nextId);
      && users.rows == old(users.rows) + [NewUser(id, username.value, hash(password.value, SaltRounds), now)]
      && r == RegisterCreated(201, Registered, RegisteredUser(id, username.value, Some(DefaultAvatar)))
  {
    if !Truthy(username) || !Truthy(password) {
      return RegisterRefused(400, EmptyCredentials);
    }
    var existing := UserNamed(users.rows, username.value);
    if existing.Some? {
      return RegisterRefused(400, UsernameTaken);
    }
    var hashed := hash(password.value, SaltRounds);
    var u := users.Create(username.value, hashed, Some(DefaultAvatar), now);
    r := RegisterCreated(201, Registered, RegisteredUser(u.id, u.username, u.avatar));
  }

  /**
   * `login`: an unknown username and a wrong password get the same 401. A missing username or
   * password makes the lookup or bcrypt throw, which the handler answers with 500.
   */
  function Login(rows: seq<User>, username: Option<string>, password: Option<string>,
                 compare: (string, string) -> bool, sign: (TokenPayload, string, string) -> string,
                 env: Option<string>): (r: LoginReply)
    ensures username.None? ==> r == LoginRefused(500, InternalError)
    ensures username.Some? && UserNamed(rows, username.value).None? ==> r == LoginRefused(401, BadCredentials)
    ensures r.LoginAccepted? <==>
      username.Some? && password.Some? && UserNamed(rows, username.value).Some?
      && compare(password.value, UserNamed(rows, username.value).value.password)
    ensures r.LoginAccepted? ==>
      var u := UserNamed(rows, username.value).value;
      && r.message == LoggedIn
      && r.token == sign(TokenPayload(u.id, u.username, u.role), Secret(env), TokenLifetime)
      && r.user == SessionUser(u.id, u.username, u.avatar, u.role)
  {
    if username.None? then LoginRefused(500, InternalError)
    else
      match UserNamed(rows, username.value)
      case None => LoginRefused(401, BadCredentials)
      case Some(u) =>
        if password.None? then LoginRefused(500, InternalError)
        else if !compare(password.value, u.password) then LoginRefused(401, BadCredentials)
        else
          var token := sign(TokenPayload(u.id, u.username, u.role), Secret(env), TokenLifetime);
          LoginAccepted(LoggedIn, token, SessionUser(u.id, u.username, u.avatar, u.role))
  }

  /** The reply does not reveal whether the username exists: unknown user and wrong password look alike. */
  lemma UnknownUserLooksLikeWrongPassword(rows1: seq<User>, rows2: seq<User>, username: string, password: string,
                                          compare: (string, string) -> bool,
                                          sign: (TokenPayload, string, string) -> string, env: Option<string>)
    requires UserNamed(rows1, username).None?
    requires UserNamed(rows2, username).Some? && !compare(password, UserNamed(rows2, username).value.password)
    ensures Login(rows1, Some(username), Some(password), compare, sign, env)
         == Login(rows2, Some(username), Some(password), compare, sign, env)
         == LoginRefused(401, BadCredentials)
  {
  }

  lemma {:induction false} UserNamedAfterAppend(rows: seq<User>, u: User)
    requires UserNamed(rows, u.username).None?
    ensures UserNamed(rows + [u], u.username) == Some(u)
  {
    if rows != [] {
      assert (rows + [u])[1..] == rows[1..] + [u];
      UserNamedAfterAppend(rows[1..], u);
    }
  }

  /**
   * Registering and then logging in with the same credentials succeeds, as the new user with
   * the default role, provided bcrypt accepts the password against its own hash.
   */
  lemma RegisteredUserCanLogIn(rows: seq<User>, id: int, username: string, password: string, now: Moment,
                               hash: (string, int) -> string, compare: (string, string) -> bool,
                               sign: (TokenPayload, string, string) -> string, env: Option<string>)
    requires UserNamed(rows, username).None?
    requires compare(password, hash(password, SaltRounds))
    ensures
      var after := rows + [NewUser(id, username, hash(password, SaltRounds), now)];
      Login(after, Some(username), Some(password), compare, sign, env)
        == LoginAccepted(LoggedIn, sign(TokenPayload(id, username, DefaultRole), Secret(env), TokenLifetime),
                         SessionUser(id, username, Some(DefaultAvatar), DefaultRole))
  {
    UserNamedAfterAppend(rows, NewUser(id, username, hash(password, SaltRounds), now));
  }
}
