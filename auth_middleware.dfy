/**
 * The authentication middlewares (server/src/middleware/auth.middleware.ts).
 *
 * Both read the `authorization` header, take the second space-separated field as the token
 * and hand it to `jwt.verify`, which is an oracle here: `verify(token)` is the decoded payload,
 * or `None` when verification throws. `authMiddleware` answers 401 on every failure;
 * `optionalAuthMiddleware` never answers and only attaches the user when everything worked.
 */
module AuthMiddleware {

  import opened Wrappers
  import opened Text

  /** The decoded token payload the middlewares read. */
  datatype Claims = Claims(userId: int, username: string)

  /** `req.user` */
  datatype ReqUser = ReqUser(id: int, username: string)

  const MissingToken: string := "未提供认证令牌"
  const MalformedToken: string := "令牌格式错误"
  const InvalidToken: string := "无效或过期的令牌"

  /** An incoming request: its `authorization` header and the user a middleware attaches. */
  class HttpRequest {
    var authorization: Option<string>
    var user: Option<ReqUser>

    constructor (authorization: Option<string>)
      ensures this.authorization == authorization && user == None
    {
      this.authorization := authorization;
      user := None;
    }
  }

  /** A JSON reply sent with `res.status(status).json({ message })`. */
  datatype Reply = Reply(status: int, message: string)

  /** What a middleware did: how often it called `next`, and the reply it sent, if any. */
  datatype Handled = Handled(nextCalls: nat, reply: Option<Reply>)

  /** `authHeader.split(' ')[1]`: the second space-separated field, `undefined` if there is none. */
  function TokenField(header: string): Option<string> {
    var fields := Split(header, ' ');
    if |fields| > 1 then Some(fields[1]) else None
  }

  /** The decision both middlewares share: reject with a message, or accept the verified user. */
  datatype Decision = Reject(message: string) | Accept(user: ReqUser)

  function Authenticate(header: Option<string>, verify: string -> Option<Claims>): (d: Decision)
    ensures !Truthy(header) ==> d == Reject(MissingToken)
    ensures Truthy(header) && !Truthy(TokenField(header.value)) ==> d == Reject(MalformedToken)
    ensures Truthy(header) && Truthy(TokenField(header.value)) && verify(TokenField(header.value).value).None? ==>
      d == Reject(InvalidToken)
    ensures d.Accept? <==>
      Truthy(header) && Truthy(TokenField(header.value)) && verify(TokenField(header.value).value).Some?
    ensures d.Accept? ==>
      var c := verify(TokenField(header.value).value).value;
      d.user == ReqUser(c.userId, c.username)
    ensures d.Reject? ==> d.message in {MissingToken, MalformedToken, InvalidToken}
  {
    if !Truthy(header) then Reject(MissingToken)
    else
      var token := TokenField(header.value);
      if !Truthy(token) then Reject(MalformedToken)
      else
        match verify(token.value)
        case None => Reject(InvalidToken)
        case Some(c) => Accept(ReqUser(c.userId, c.username))
  }

  /** `authMiddleware`: either attaches the user and calls `next` once, or answers 401 and stops. */
  method Authenticated(req: HttpRequest, verify: string -> Option<Claims>) returns (h: Handled)
    modifies req
    ensures req.authorization == old(req.authorization)
    ensures (h.nextCalls == 1 && h.reply.None?) || (h.nextCalls == 0 && h.reply.Some?)
    ensures match Authenticate(req.authorization, verify)
      case Accept(user) => req.user == Some(user) && h == Handled(1, None)
      case Reject(message) => req.user == old(req.user) && h == Handled(0, Some(Reply(401, message)))
  {
    var header := req.authorization;
    if !Truthy(header) {
      return Handled(0, Some(Reply(401, MissingToken)));
    }
    var token := TokenField(header.value);
    if !Truthy(token) {
      return Handled(0, Some(Reply(401, MalformedToken)));
    }
    var decoded := verify(token.value);
    if decoded.None? {
      return Handled(0, Some(Reply(401, InvalidToken)));
    }
    req.user := Some(ReqUser(decoded.value.userId, decoded.value.username));
    h := Handled(1, None);
  }

  /** `optionalAuthMiddleware`: always calls `next` once, never answers; attaches the user only on success. */
  method OptionallyAuthenticated(req: HttpRequest, verify: string -> Option<Claims>) returns (h: Handled)
    modifies req
    ensures req.authorization == old(req.authorization)
    ensures h == Handled(1, None)
    ensures req.user == match Authenticate(req.authorization, verify)
      case Accept(user) => Some(user)
      case Reject(_) => old(req.user)
  {
    var header := req.authorization;
    if !Truthy(header) {
      return Handled(1, None);
    }
    var token := TokenField(header.value);
    if !Truthy(token) {
      return Handled(1, None);
    }
    var decoded := verify(token.value);
    if decoded.Some? {
      req.user := Some(ReqUser(decoded.value.userId, decoded.value.username));
    }
    h := Handled(1, None);
  }

  /**
   * The scheme word is not checked: for any space-free first word and space-free token, the
   * token field of `scheme + " " + token` is the token. In particular the client's
   * `"Bearer " + token` header yields the token back.
   */
  lemma {:induction false} TokenFieldOfSchemeAndToken(scheme: string, token: string)
    requires ' ' !in scheme && ' ' !in token
    ensures TokenField(scheme + " " + token) == Some(token)
  {
    SplitPiece(scheme, token, ' ');
    SplitNoSeparator(token, ' ');
    assert scheme + " " + token == scheme + [' '] + token;
  }

  /** Only the text up to the next space counts: `"Bearer a b"` carries the token `a`. */
  lemma {:induction false} TokenFieldStopsAtSpace(scheme: string, token: string, rest: string)
    requires ' ' !in scheme && ' ' !in token
    ensures TokenField(scheme + " " + token + " " + rest) == Some(token)
  {
    SplitPiece(scheme, token + " " + rest, ' ');
    SplitPiece(token, rest, ' ');
    assert scheme + " " + token + " " + rest == scheme + [' '] + (token + [' '] + rest);
    assert token + " " + rest == token + [' '] + rest;
  }

  /** A header without a space has no token field: it is rejected as malformed, whatever `verify` says. */
  lemma {:induction false} NoSpaceIsMalformed(header: string, verify: string -> Option<Claims>)
    requires header != "" && ' ' !in header
    ensures Authenticate(Some(header), verify) == Reject(MalformedToken)
  {
    SplitNoSeparator(header, ' ');
  }
}
