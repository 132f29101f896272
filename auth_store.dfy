/**
 * The client's authentication store (src/stores/auth.ts): the `token` and `user` refs and the
 * actions that set them. Each action issues one request through the client and receives how
 * that request settled (`Request.Settled`) as a parameter.
 */
module AuthStore {

  import opened Wrappers
  import opened Text
  import opened Request

  /** The user object the client keeps. */
  datatype ClientUser = ClientUser(id: int, username: string, role: string, avatar: Option<string>)

  /** The body of a login or register response; either field may be missing. */
  datatype AuthBody = AuthBody(token: Option<string>, user: Option<ClientUser>)

  /** The body of a profile update response. */
  datatype UpdateBody = UpdateBody(message: string, user: Option<ClientUser>)

  /** How an action's promise settles: with a value, with nothing, or by rethrowing the request error. */
  datatype ActionResult = ReturnedTrue | ReturnedNothing | Threw(message: string)

  const LoginUrl: string := "/auth/login"
  const RegisterUrl: string := "/auth/register"
  const ProfileUrl: string := "/user/profile"

  function CredentialsBody(username: string, password: string): seq<(string, string)> {
    [("username", username), ("password", password)]
  }

  class Store {
    var token: string
    var user: Option<ClientUser>

    /** A fresh store: logged out. */
    constructor ()
      ensures token == "" && user == None
    {
      token := "";
      user := None;
    }

    predicate LoggedIn()
      reads this
    {
      token != ""
    }

    /** `login`: keeps a truthy token and a present user from the response, then returns true; a failure rethrows. */
    method Login(username: string, password: string, reply: Settled<AuthBody>) returns (call: Call, result: ActionResult)
      modifies this
      ensures call == Post(LoginUrl, CredentialsBody(username, password))
      ensures reply.Rejected? ==> result == Threw(reply.message) && token == old(token) && user == old(user)
      ensures reply.Resolved? ==> result == ReturnedTrue
      ensures reply.Resolved? ==>
        token == (if Truthy(reply.data.token) then reply.data.token.value else old(token))
      ensures reply.Resolved? ==>
        user == (if reply.data.user.Some? then reply.data.user else old(user))
    {
      call := Post(LoginUrl, CredentialsBody(username, password));
      if reply.Rejected? {
        return call, Threw(reply.message);
      }
      if Truthy(reply.data.token) {
        token := reply.data.token.value;
      }
      if reply.data.user.Some? {
        user := reply.data.user;
      }
      result := ReturnedTrue;
    }

    /** `register`: never touches the session; it returns true or rethrows. */
    method Register(username: string, password: string, reply: Settled<AuthBody>) returns (call: Call, result: ActionResult)
      ensures call == Post(RegisterUrl, CredentialsBody(username, password))
      ensures result == if reply.Resolved? then ReturnedTrue else Threw(reply.message)
    {
      call := Post(RegisterUrl, CredentialsBody(username, password));
      result := if reply.Resolved? then ReturnedTrue else Threw(reply.message);
    }

    /** `logout`: clears the token and the user. */
    method Logout()
      modifies this
      ensures token == "" && user == None
      ensures !LoggedIn()
    {
      token := "";
      user := None;
    }

    /** `fetchUserProfile`: stores the fetched user; a failure is swallowed and the user kept. */
    method FetchUserProfile(reply: Settled<ClientUser>) returns (call: Call, result: ActionResult)
      modifies this
      ensures call == Get(ProfileUrl, map[]) && result == ReturnedNothing
      ensures token == old(token)
      ensures user == if reply.Resolved? then Some(reply.data) else old(user)
    {
      call := Get(ProfileUrl, map[]);
      if reply.Resolved? {
        user := Some(reply.data);
      }
      result := ReturnedNothing;
    }

    /**
     * `updateUserProfile`: sends the partial profile as the body; replaces the user only when the
     * response carries one; a failure rethrows.
     */
    method UpdateUserProfile(data: map<string, Option<string>>, reply: Settled<UpdateBody>) returns (call: Call, result: ActionResult)
      modifies this
      ensures call == Put(ProfileUrl, data)
      ensures token == old(token)
      ensures reply.Rejected? ==> result == Threw(reply.message) && user == old(user)
      ensures reply.Resolved? ==> result == ReturnedTrue
      ensures reply.Resolved? ==> user == if reply.data.user.Some? then reply.data.user else old(user)
    {
      call := Put(ProfileUrl, data);
      if reply.Rejected? {
        return call, Threw(reply.message);
      }
      if reply.data.user.Some? {
        user := reply.data.user;
      }
      result := ReturnedTrue;
    }
  }
}
