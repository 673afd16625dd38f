/**
 * The bearer-token gate that guards the HTTP routes and every realtime
 * message handler (backend/src/auth/jwt-auth.guard.ts).
 *
 * Token verification and the user lookup are collaborators whose code is not
 * part of this model; the guard receives them as functions.  A verification
 * that throws is `None`; a lookup that finds nothing (or throws) is `None`.
 */
module JwtAuth {
  import opened Wrappers

  /** The scheme prefix an `Authorization` header must start with. */
  const BearerPrefix: string := "Bearer "

  const NoTokenMessage: string := "Unauthorized: No token provided"
  const InvalidTokenMessage: string := "Unauthorized: Invalid token"

  /** The user record that `findOneById` returns. */
  datatype User = User(id: int, username: string, email: string)

  /** The decoded payload of a verified token; `sub` is the user's id. */
  datatype Claims = Claims(sub: int, email: string)

  /** Headers of a request or a handshake, keyed by lower-case name. */
  type Headers = map<string, string>

  /** The socket handshake as far as the guard looks at it; `headers` may be absent. */
  datatype Handshake = Handshake(headers: Option<Headers>)

  /** A value stored in a socket's `client.data` record. */
  datatype DataValue = UserIdValue(id: int) | UserValue(user: User) | OtherValue(json: string)

  function Authorization(headers: Headers): (h: Option<string>)
    ensures h.Some? <==> "authorization" in headers
    ensures h.Some? ==> h.value == headers["authorization"]
  {
    if "authorization" in headers then Some(headers["authorization"]) else None
  }

  predicate StartsWith(s: string, prefix: string)
  {
    |prefix| <= |s| && s[..|prefix|] == prefix
  }

  /**
   * The token of an `Authorization` header: the header must be present,
   * non-empty and start with "Bearer "; the token is what follows those
   * seven characters.
   */
  function ExtractTokenFromHeader(authorization: Option<string>): (token: Option<string>)
    ensures forall t :: authorization == Some(BearerPrefix + t) ==> token == Some(t)
    ensures token.Some? ==> authorization == Some(BearerPrefix + token.value)
  {
    match authorization
    case None => None
    case Some(header) =>
      if header == "" || !StartsWith(header, BearerPrefix) then None
      else
        assert header == BearerPrefix + header[7..];
        Some(header[7..])
  }

  /** `client.handshake?.headers?.authorization`: absent when any link is absent. */
  function HandshakeAuthorization(handshake: Option<Handshake>): (h: Option<string>)
    ensures h.Some? <==>
      handshake.Some? && handshake.value.headers.Some? && "authorization" in handshake.value.headers.value
    ensures h.Some? ==> h.value == handshake.value.headers.value["authorization"]
  {
    match handshake
    case None => None
    case Some(hs) =>
      match hs.headers
      case None => None
      case Some(headers) => Authorization(headers)
  }

  /** The same extraction rule applied to the handshake's `Authorization` header. */
  function ExtractTokenFromWebSocket(handshake: Option<Handshake>): (token: Option<string>)
    ensures token.Some? ==>
      handshake.Some? && handshake.value.headers.Some? &&
      Authorization(handshake.value.headers.value) == Some(BearerPrefix + token.value)
    ensures forall t :: HandshakeAuthorization(handshake) == Some(BearerPrefix + t) ==> token == Some(t)
  {
    ExtractTokenFromHeader(HandshakeAuthorization(handshake))
  }

  /** `if (!token)`: an absent token and the empty token are both rejected. */
  predicate HasToken(token: Option<string>)
  {
    token.Some? && token.value != ""
  }

  /** An HTTP request: its headers, and the fields the guard attaches on success. */
  class HttpRequest {
    const headers: Headers
    var user: Option<User>
    var userId: Option<int>

    constructor (headers: Headers)
      ensures this.headers == headers && user == None && userId == None
    {
      this.headers := headers;
      user := None;
      userId := None;
    }
  }

  /** A realtime client socket: its handshake and its mutable `data` record. */
  class WsClient {
    const handshake: Option<Handshake>
    var data: map<string, DataValue>

    constructor (handshake: Option<Handshake>, data: map<string, DataValue>)
      ensures this.handshake == handshake && this.data == data
    {
      this.handshake := handshake;
      this.data := data;
    }
  }

  /** What `context.getType()`, `switchToHttp()` and `switchToWs()` give the guard. */
  datatype ExecutionContext = ExecutionContext(kind: string, request: HttpRequest, client: WsClient)

  class JwtAuthGuard {
    /** `jwtService.verify`: the token's claims, or `None` when it throws. */
    const verify: string -> Option<Claims>
    /** `userService.findOneById`: the user, or `None` when there is none. */
    const findOneById: int -> Option<User>

    constructor (verify: string -> Option<Claims>, findOneById: int -> Option<User>)
      ensures this.verify == verify && this.findOneById == findOneById
    {
      this.verify := verify;
      this.findOneById := findOneById;
    }

    /** The user a token stands for: its claims verify and their subject exists. */
    function Resolve(token: string): (user: Option<User>)
      ensures user.Some? <==> verify(token).Some? && findOneById(verify(token).value.sub).Some?
      ensures user.Some? ==> user == findOneById(verify(token).value.sub)
    {
      match verify(token)
      case None => None
      case Some(claims) => findOneById(claims.sub)
    }

    /**
     * `canActivate`: a context of type "ws" is decided by `ValidateWebSocket`
     * (a failure is the exception it raises); any other type by the HTTP branch.
     */
    method CanActivate(context: ExecutionContext) returns (r: Result<bool, string>)
      modifies context.request, context.client
      ensures context.kind == "ws" ==>
        context.request.user == old(context.request.user) &&
        context.request.userId == old(context.request.userId) &&
        WsDecided(context.client, old(context.client.data), r)
      ensures context.kind != "ws" ==>
        context.client.data == old(context.client.data) &&
        r.Success? && HttpDecided(context.request, old(context.request.user), old(context.request.userId), r.value)
    {
      if context.kind == "ws" {
        r := ValidateWebSocket(context.client);
        return;
      }
      var ok := CanActivateHttp(context.request);
      r := Success(ok);
    }

    /** The HTTP branch's promise, relating the request before and after. */
    ghost predicate HttpDecided(request: HttpRequest, oldUser: Option<User>, oldUserId: Option<int>, ok: bool)
      reads request
    {
      var token := ExtractTokenFromHeader(Authorization(request.headers));
      && (ok <==> HasToken(token) && Resolve(token.value).Some?)
      && (ok ==> request.user == Resolve(token.value) && request.userId == Some(request.user.value.id))
      && (!ok ==> request.user == oldUser && request.userId == oldUserId)
    }

    /** The realtime branch's promise, relating `client.data` before and after. */
    ghost predicate WsDecided(client: WsClient, oldData: map<string, DataValue>, r: Result<bool, string>)
      reads client
    {
      var token := ExtractTokenFromWebSocket(client.handshake);
      && (!HasToken(token) ==> r == Failure(NoTokenMessage) && client.data == oldData)
      && (HasToken(token) && Resolve(token.value).None? ==>
            r == Failure(InvalidTokenMessage) && client.data == oldData)
      && (HasToken(token) && Resolve(token.value).Some? ==>
            var user := Resolve(token.value).value;
            r == Success(true) &&
            client.data == oldData["userId" := UserIdValue(user.id)]["user" := UserValue(user)])
    }

    /**
     * The HTTP branch: false when the token is missing, does not verify or
     * names an unknown user; otherwise true, with the user attached to the request.
     */
    method CanActivateHttp(request: HttpRequest) returns (ok: bool)
      modifies request
      ensures HttpDecided(request, old(request.user), old(request.userId), ok)
    {
      var token := ExtractTokenFromHeader(Authorization(request.headers));
      if !HasToken(token) {
        return false;
      }
      var payload := verify(token.value);
      if payload.None? {
        return false;   // the catch clause
      }
      var user := findOneById(payload.value.sub);
      if user.None? {
        return false;
      }
      request.user := user;
      request.userId := Some(user.value.id);
      ok := true;
    }

    /**
     * The realtime branch: raises "No token provided" without a token and
     * "Invalid token" when it does not resolve; on success merges the user's
     * id and record into `client.data`, keeping every other field.
     */
    method ValidateWebSocket(client: WsClient) returns (r: Result<bool, string>)
      modifies client
      ensures WsDecided(client, old(client.data), r)
    {
      var token := ExtractTokenFromWebSocket(client.handshake);
      if !HasToken(token) {
        return Failure(NoTokenMessage);
      }
      // The try block: every exception raised inside it is caught and
      // re-raised as "Invalid token".
      var attempt: Result<User, string>;
      var payload := verify(token.value);
      if payload.None? {
        attempt := Failure("verification failed");
      } else {
        var user := findOneById(payload.value.sub);
        if user.None? {
          attempt := Failure(InvalidTokenMessage);
        } else {
          client.data := client.data["userId" := UserIdValue(user.value.id)]["user" := UserValue(user.value)];
          attempt := Success(user.value);
        }
      }
      if attempt.Failure? {
        return Failure(InvalidTokenMessage);
      }
      r := Success(true);
    }
  }

  /** "Bearer " followed by a token extracts to exactly that token, on both transports. */
  lemma BearerRoundTrip(t: string, headers: Headers)
    requires "authorization" in headers && headers["authorization"] == BearerPrefix + t
    ensures ExtractTokenFromHeader(Authorization(headers)) == Some(t)
    ensures ExtractTokenFromWebSocket(Some(Handshake(Some(headers)))) == Some(t)
  {
  }

  /** A header that does not start with "Bearer " yields no token, whatever follows. */
  lemma WrongSchemeRejected(header: string)
    requires !StartsWith(header, BearerPrefix)
    ensures ExtractTokenFromHeader(Some(header)) == None
  {
  }

  /** The bare prefix "Bearer " extracts to the empty token, which the guard rejects. */
  lemma BarePrefixIsNoToken()
    ensures ExtractTokenFromHeader(Some(BearerPrefix)) == Some("")
    ensures !HasToken(ExtractTokenFromHeader(Some(BearerPrefix)))
  {
    assert BearerPrefix == BearerPrefix + "";
  }
}
