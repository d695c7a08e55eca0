/** The `auth` middleware: admits a request whose Authorization header carries a
    token that verifies to the id of an existing user, records that user on the
    request, and runs the rest of the pipeline. Token verification (`jwt.verify`
    with the application key) is a partial function from token to user id. */
module AuthMiddleware {
  import opened Common
  import opened Accounts

  const BearerPrefix := "Bearer "

  const TokenMissing := "TOKEN_MISSING"
  const InvalidToken := "INVALID_TOKEN"
  const AuthError := "AUTH_ERROR"

  /** What the middleware answers. `Passed` means `next` ran to completion and the
      downstream handler's response stands. */
  datatype AuthReply = Passed | Unauthorized(code: string, message: string)

  function MissingReply(): (r: AuthReply) {
    Unauthorized(TokenMissing, "Token de autenticação não fornecido")
  }

  function InvalidReply(): (r: AuthReply) {
    Unauthorized(InvalidToken, "Token inválido ou expirado")
  }

  /** `authHeader.replace('Bearer ', '')`: the first occurrence of the prefix is
      removed, wherever it stands. */
  function StripBearer(header: string): (r: string) {
    ReplaceFirst(header, BearerPrefix, "")
  }

  /** The header the frontend sends, `Bearer ${token}`, gives back the token. */
  lemma StripBearerRoundTrip(token: string)
    ensures StripBearer(BearerPrefix + token) == token
  {
    var h := BearerPrefix + token;
    assert h[..|BearerPrefix|] == BearerPrefix;
    assert h[|BearerPrefix|..] == token;
  }

  /** A header without the prefix anywhere is taken as the token itself. */
  lemma StripBearerWithoutPrefix(header: string)
    requires !Contains(header, BearerPrefix)
    ensures StripBearer(header) == header
  {
    ReplaceFirstAbsent(header, BearerPrefix, "");
  }

  /** The decision of the gate before `next` runs. */
  datatype Admission = Missing | Invalid | Admit(user: User)

  /** The gate as a decision: a falsy header is missing; otherwise the stripped
      token must verify to an id and that id must name a user. */
  function Decide(header: Option<string>, verify: string -> Option<int>, users: seq<User>): (r: Admission)
  {
    if !Truthy(header) then Missing
    else match verify(StripBearer(header.value))
      case None => Invalid
      case Some(id) =>
        match FindUser(users, id)
        case None => Invalid
        case Some(u) => Admit(u)
  }

  /** A request is admitted exactly when its header is present, its token
      verifies, and the decoded id is that of a stored user, who is the one
      admitted. */
  lemma AdmitIff(header: Option<string>, verify: string -> Option<int>, users: seq<User>, u: User)
    ensures Decide(header, verify, users) == Admit(u) <==>
      && Truthy(header)
      && verify(StripBearer(header.value)).Some?
      && FindUser(users, verify(StripBearer(header.value)).value) == Some(u)
    ensures Decide(header, verify, users).Admit? ==>
      var a := Decide(header, verify, users);
      a.user in users && Some(a.user.id) == verify(StripBearer(header.value))
  {
  }

  /** The request object: the only field the gate writes is `user`. */
  class Request {
    var user: Option<User>

    constructor (user: Option<User>)
      ensures this.user == user
    {
      this.user := user;
    }
  }

  /** `Auth.handle`. `downstreamThrows` says whether `next` (the rest of the
      pipeline) throws; `nextRuns` counts how often `next` was called. */
  method Handle(request: Request, header: Option<string>, verify: string -> Option<int>,
                users: seq<User>, downstreamThrows: bool)
    returns (reply: AuthReply, nextRuns: nat)
    modifies request
    ensures var a := Decide(header, verify, users);
      && (a == Missing ==> reply == MissingReply() && nextRuns == 0 && request.user == old(request.user))
      && (a == Invalid ==> reply == InvalidReply() && nextRuns == 0 && request.user == old(request.user))
      && (a.Admit? ==>
            && request.user == Some(a.user) && nextRuns == 1
            && reply == (if downstreamThrows then InvalidReply() else Passed))
    ensures reply.Unauthorized? ==> reply.code != AuthError
  {
    nextRuns := 0;
    if !Truthy(header) {
      reply := MissingReply();
      return;
    }
    var token := StripBearer(header.value);
    var decoded := verify(token);
    if decoded.None? {
      reply := InvalidReply();
      return;
    }
    var user := FindUser(users, decoded.value);
    if user.None? {
      reply := InvalidReply();
      return;
    }
    request.user := user;
    nextRuns := nextRuns + 1;
    if downstreamThrows {
      reply := InvalidReply();
      return;
    }
    reply := Passed;
  }
}
