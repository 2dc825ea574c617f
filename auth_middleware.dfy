/** The backend's `verifyToken` middleware: it takes the token out of the
    `Authorization` header, has it verified, and either records the user
    id on the request and passes it on, or answers 401 with a message
    that says what went wrong.  Signature checking is a parameter; the
    client side's header format is included for the round trip. */
module AuthMiddleware {
  import opened Wrappers
  import opened Text
  import opened JsObjects

  const NoToken := "未提供认证令牌"
  const BadFormat := "无效的认证令牌格式"
  const Expired := "认证令牌已过期，请重新登录"
  const Invalid := "无效的认证令牌，请重新登录"
  const Failed := "认证失败"

  /** What verifying a token gives: the payload's `id` (missing when the
      payload has none), or the name of the error it throws. */
  datatype Verdict = Decoded(id: Option<Json>) | Thrown(name: string)

  /** What the middleware does with a request. */
  datatype Outcome = Pass(userId: Option<Json>) | Reject(status: int, message: string)

  /** `authHeader.split(' ')[1]`, when it is a non-empty string. */
  function BearerToken(header: string): (r: Option<string>)
    ensures r.Some? ==> r.value != "" && ' ' !in r.value && ' ' in header
  {
    var parts := Split(header, ' ');
    if |parts| >= 2 && parts[1] != "" then
      SpaceBetween(parts, ' ');
      Some(parts[1])
    else None
  }

  /** Joining two or more pieces puts the separator in the result. */
  lemma SpaceBetween(parts: seq<string>, c: char)
    requires |parts| >= 2
    ensures c in Join(parts, [c])
  {
    assert Join(parts, [c]) == parts[0] + [c] + Join(parts[1..], [c]);
    assert Join(parts, [c])[|parts[0]|] == c;
  }

  /** The message for an error thrown while verifying. */
  function ThrownMessage(name: string): string {
    if name == "TokenExpiredError" then Expired
    else if name == "JsonWebTokenError" then Invalid
    else Failed
  }

  /** The decision on the header's value (`None` when the request has
      none), with `verify` standing for `jwt.verify` with the secret. */
  function Classify(header: Option<string>, verify: string -> Verdict): (o: Outcome)
    ensures o.Reject? ==> o.status == 401
    ensures (header.None? || header.value == "") ==> o == Reject(401, NoToken)
    ensures header.Some? && header.value != "" && BearerToken(header.value).None? ==> o == Reject(401, BadFormat)
    ensures o.Pass? <==> header.Some? && BearerToken(header.value).Some? && verify(BearerToken(header.value).value).Decoded?
    ensures o.Pass? ==> o.userId == verify(BearerToken(header.value).value).id
  {
    if header.None? || header.value == "" then Reject(401, NoToken)
    else
      match BearerToken(header.value)
      case None => Reject(401, BadFormat)
      case Some(token) =>
        match verify(token)
        case Decoded(id) => Pass(id)
        case Thrown(name) => Reject(401, ThrownMessage(name))
  }

  /** The three kinds of verification failure give three messages, none
      of them the ones for a missing or malformed header. */
  lemma ThrownMessagesDistinct(name: string)
    ensures ThrownMessage(name) == Expired <==> name == "TokenExpiredError"
    ensures ThrownMessage(name) == Invalid <==> name == "JsonWebTokenError"
    ensures ThrownMessage(name) != NoToken && ThrownMessage(name) != BadFormat
  {
    assert |NoToken| == 7 && |BadFormat| == 9 && |Expired| == 13 && |Invalid| == 13 && |Failed| == 4;
    assert Expired[0] != Invalid[0];
  }

  /** A header without a space carries no token. */
  lemma {:induction false} NoSpaceNoToken(header: string)
    requires ' ' !in header
    ensures BearerToken(header).None?
  {
    SplitFree(header, ' ');
  }

  /** The header the client sends: `Bearer <token>` for a non-empty token,
      none otherwise. */
  function ClientHeader(token: Option<string>): (h: Option<string>)
    ensures h.Some? <==> token.Some? && token.value != ""
  {
    if token.Some? && token.value != "" then Some("Bearer " + token.value) else None
  }

  /** The server reads back exactly the token the client put in the header
      when it has no space, so the request is judged on that token alone. */
  lemma {:induction false} ClientHeaderRoundTrip(token: string, verify: string -> Verdict)
    requires token != "" && ' ' !in token
    ensures BearerToken(ClientHeader(Some(token)).value) == Some(token)
    ensures Classify(ClientHeader(Some(token)), verify) ==
              match verify(token)
              case Decoded(id) => Pass(id)
              case Thrown(name) => Reject(401, ThrownMessage(name))
  {
    assert ' ' !in "Bearer";
    SplitPrefix("Bearer", ' ', token);
    SplitFree(token, ' ');
    assert "Bearer" + [' '] + token == "Bearer " + token;
  }

  /** A request: its `Authorization` header and the `userId` the
      middleware records. */
  class Request {
    var authorization: Option<string>
    var userId: Option<Json>

    constructor (authorization: Option<string>)
      ensures this.authorization == authorization && userId.None?
    {
      this.authorization := authorization;
      userId := None;
    }
  }

  /** A response: the status and the `message` of the JSON body, once set. */
  class Response {
    var status: Option<int>
    var message: Option<string>

    constructor ()
      ensures status.None? && message.None?
    {
      status, message := None, None;
    }
  }

  /** `verifyToken`: on a pass the user id is recorded and `next` is called
      once; on a rejection the response carries the status and message and
      `next` is not called. */
  method VerifyToken(req: Request, res: Response, verify: string -> Verdict) returns (nextCalls: nat)
    modifies req, res
    ensures req.authorization == old(req.authorization)
    ensures match Classify(old(req.authorization), verify)
            case Pass(id) =>
              req.userId == id && nextCalls == 1 && res.status == old(res.status) && res.message == old(res.message)
            case Reject(status, message) =>
              req.userId == old(req.userId) && nextCalls == 0 && res.status == Some(status) && res.message == Some(message)
  {
    var header := req.authorization;
    if header.None? || header.value == "" {
      res.status, res.message := Some(401), Some(NoToken);
      return 0;
    }
    var token := BearerToken(header.value);
    if token.None? {
      res.status, res.message := Some(401), Some(BadFormat);
      return 0;
    }
    match verify(token.value)
    case Decoded(id) =>
      req.userId := id;
      nextCalls := 1;
    case Thrown(name) =>
      res.status, res.message := Some(401), Some(ThrownMessage(name));
      nextCalls := 0;
  }
}
