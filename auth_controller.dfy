/** The account lifecycle: registration creates an unverified user (and, for the
    candidate role, an empty candidate profile); e-mail verification is a
    one-shot token valid for 24 hours that also sets the password; login needs a
    verified e-mail before the password is even checked. The uuid generator,
    the password hash check, token signing and the mail service are parameters. */
module AuthController {
  import opened Common
  import opened Accounts
  import opened CandidateModel
  import AuthMiddleware

  // ---------------------------------------------------------------------------
  // generateToken

  /** `expiresIn: '24h'`, in seconds. */
  const TokenLifetimeSeconds := 24 * 60 * 60

  /** The payload and lifetime `generateToken` signs. */
  datatype Claims = Claims(id: int, email: string, role: string, expiresInSeconds: int)

  function GenerateToken(u: User): (c: Claims)
    ensures c.id == u.id && c.email == u.email && c.role == u.role
    ensures c.expiresInSeconds == 86400
  {
    Claims(u.id, u.email, u.role, TokenLifetimeSeconds)
  }

  /** A token whose verification yields the id signed into it by GenerateToken
      is admitted by the `auth` gate as that very user, when sent as the
      frontend sends it. */
  lemma IssuedTokenAdmits(users: seq<User>, u: User, token: string, verify: string -> Option<int>)
    requires forall i :: 0 <= i < |users| ==> users[i].id == i + 1
    requires u in users
    requires verify(token) == Some(GenerateToken(u).id)
    ensures AuthMiddleware.Decide(Some(AuthMiddleware.BearerPrefix + token), verify, users)
            == AuthMiddleware.Admit(u)
  {
    AuthMiddleware.StripBearerRoundTrip(token);
    var r := FindUser(users, u.id);
    var k :| 0 <= k < |users| && users[k] == u;
    assert r.Some?;
  }

  // ---------------------------------------------------------------------------
  // register

  const EmailInUse := "Este email já está em uso"
  const Registered := "Usuário registrado com sucesso. Por favor, verifique seu email para completar o registro."
  const RegisterFailed := "Erro ao registrar usuário"

  /** `data.role || 'candidate'`. */
  function RoleOrDefault(role: Option<string>): (r: string)
    ensures r == CandidateRole || (role.Some? && r == role.value)
  {
    if Truthy(role) then role.value else CandidateRole
  }

  /** `register`. `verificationToken` and `temporaryPassword` are the two uuids it
      draws, `now` the creation time, `mailDelivered` whether the verification
      mail went out. `email` is `None` when the body has no e-mail: the lookup
      then binds `undefined`, which the query builder refuses, and the catch
      answers 500 with nothing stored. A duplicate e-mail is refused; otherwise
      the user is stored
      unverified, a candidate profile is created only when the request named
      the role `candidate`, and a mail failure answers 500 with everything
      already stored. */
  method Register(accounts: UserTable, db: CandidateTable, name: string, email: Option<string>,
                  role: Option<string>, verificationToken: string, temporaryPassword: string,
                  now: int, mailDelivered: bool)
    returns (reply: Reply, user: Option<User>)
    requires accounts.Valid() && db.Valid()
    requires IndexByToken(accounts.users, verificationToken) == None
    modifies accounts, db
    ensures accounts.Valid() && db.Valid()
    ensures db.educations == old(db.educations) && db.nextEducationId == old(db.nextEducationId)
    ensures email.None? ==>
      && reply == Reply(InternalServerError, "", RegisterFailed) && user == None
      && accounts.users == old(accounts.users) && db.candidates == old(db.candidates)
    ensures email.Some? && IndexByEmail(old(accounts.users), email.value).Some? ==>
      && reply == Reply(Conflict, "", EmailInUse) && user == None
      && accounts.users == old(accounts.users) && db.candidates == old(db.candidates)
    ensures email.Some? && IndexByEmail(old(accounts.users), email.value).None? ==>
      var u := User(|old(accounts.users)| + 1, name, email.value, temporaryPassword, RoleOrDefault(role),
                    false, Some(verificationToken), now);
      && user == Some(u)
      && accounts.users == old(accounts.users) + [u]
      && db.candidates == (if role == Some(CandidateRole)
                           then old(db.candidates) + [Candidate(|old(db.candidates)| + 1, u.id,
                                  NextCode(old(db.candidates)), EmptyProfile, false, None, false)]
                           else old(db.candidates))
      && reply == (if mailDelivered then Reply(Created, "", Registered)
                   else Reply(InternalServerError, "", RegisterFailed))
  {
    user := None;
    if email.None? {
      reply := Reply(InternalServerError, "", RegisterFailed);
      return;
    }
    var existing := IndexByEmail(accounts.users, email.value);
    if existing.Some? {
      reply := Reply(Conflict, "", EmailInUse);
      return;
    }
    var u := accounts.Create(name, email.value, temporaryPassword, RoleOrDefault(role), verificationToken, now);
    user := Some(u);
    if role == Some(CandidateRole) {
      var c := db.Create(u.id, EmptyProfile);
    }
    if !mailDelivered {
      reply := Reply(InternalServerError, "", RegisterFailed);
      return;
    }
    reply := Reply(Created, "", Registered);
  }

  /** Omitting the role registers a candidate-role user without a candidate
      profile; only the literal role `candidate` gets one. */
  lemma RoleDefaultWithoutProfile(role: Option<string>)
    ensures !Truthy(role) ==> RoleOrDefault(role) == CandidateRole && role != Some(CandidateRole)
    ensures Truthy(role) ==> RoleOrDefault(role) == role.value
  {
  }

  // ---------------------------------------------------------------------------
  // login

  const EmailNotVerified := "EMAIL_NOT_VERIFIED"
  const InvalidCredentials := "INVALID_CREDENTIALS"

  datatype LoginResult = LoggedIn(user: User, claims: Claims) | LoginRefused(reply: Reply)

  function NotVerifiedReply(): (r: Reply) {
    Reply(Unauthorized, EmailNotVerified, "Por favor, verifique seu email primeiro")
  }

  function BadCredentialsReply(): (r: Reply) {
    Reply(Unauthorized, InvalidCredentials, "Credenciais inválidas")
  }

  /** `login`: the user with that e-mail must exist and be verified, and only
      then is `passwordMatches(stored, given)` (`Hash.verify`) consulted. */
  function Login(users: seq<User>, email: string, password: string,
                 passwordMatches: (string, string) -> bool): (r: LoginResult)
  {
    match IndexByEmail(users, email)
    case None => LoginRefused(BadCredentialsReply())
    case Some(i) =>
      var u := users[i];
      if !u.emailVerified then LoginRefused(NotVerifiedReply())
      else if !passwordMatches(u.password, password) then LoginRefused(BadCredentialsReply())
      else LoggedIn(u, GenerateToken(u))
  }

  /** Login succeeds exactly for a stored, verified user whose password matches,
      and the token it issues names that user. */
  lemma LoginIff(users: seq<User>, email: string, password: string,
                 passwordMatches: (string, string) -> bool)
    ensures Login(users, email, password, passwordMatches).LoggedIn? <==>
      exists i :: 0 <= i < |users| && users[i].email == email
        && (forall j :: 0 <= j < i ==> users[j].email != email)
        && users[i].emailVerified && passwordMatches(users[i].password, password)
    ensures var r := Login(users, email, password, passwordMatches);
      r.LoggedIn? ==>
        (r.user in users && r.user.email == email && r.user.emailVerified
         && r.claims == Claims(r.user.id, email, r.user.role, TokenLifetimeSeconds))
  {
    var r := Login(users, email, password, passwordMatches);
    match IndexByEmail(users, email)
    case None =>
    case Some(i) =>
      if r.LoggedIn? {
        assert users[i].email == email;
      }
      forall k | 0 <= k < |users| && users[k].email == email
        && (forall j :: 0 <= j < k ==> users[j].email != email)
        ensures k == i
      {
      }
  }

  /** An unverified user is told so whatever password is given: the e-mail
      check comes before the password check. */
  lemma UnverifiedBeforePassword(users: seq<User>, email: string, p1: string, p2: string,
                                 m1: (string, string) -> bool, m2: (string, string) -> bool)
    requires IndexByEmail(users, email).Some? && !users[IndexByEmail(users, email).value].emailVerified
    ensures Login(users, email, p1, m1) == Login(users, email, p2, m2) == LoginRefused(NotVerifiedReply())
  {
  }

  /** An unknown e-mail and a wrong password for a verified user are answered
      identically. */
  lemma UnknownEmailLooksLikeWrongPassword(users: seq<User>, unknown: string, known: string,
                                           password: string, passwordMatches: (string, string) -> bool)
    requires IndexByEmail(users, unknown).None?
    requires IndexByEmail(users, known).Some?
    requires var u := users[IndexByEmail(users, known).value];
      u.emailVerified && !passwordMatches(u.password, password)
    ensures Login(users, unknown, password, passwordMatches) == Login(users, known, password, passwordMatches)
  {
  }

  // ---------------------------------------------------------------------------
  // verifyEmail

  /** 24 hours in milliseconds. */
  const VerificationWindowMillis := 24 * 60 * 60 * 1000

  const TokenExpired := "TOKEN_EXPIRED"
  const InvalidVerificationToken := "INVALID_TOKEN"

  function ExpiredReply(): (r: Reply) {
    Reply(BadRequest, TokenExpired, "Token de verificação expirado")
  }

  function InvalidTokenReply(): (r: Reply) {
    Reply(BadRequest, InvalidVerificationToken, "Token de verificação inválido ou expirado")
  }

  const VerifiedMessage := "Email verificado e senha definida com sucesso. Você já pode fazer login."

  /** The `token` of the request body as `request.only` hands it over: absent,
      JSON `null`, or text. */
  datatype TokenField = NoToken | NullToken | TokenText(text: string)

  /** A non-empty token text. */
  predicate IsTokenText(token: TokenField) {
    token.TokenText? && token.text != ""
  }

  /** The body parser's default `convertEmptyStringsToNull`: an empty string
      arrives as `null`. */
  function Received(token: TokenField): (r: TokenField)
    ensures r != TokenText("")
    ensures token.TokenText? && token.text != "" ==> r == token
  {
    if token == TokenText("") then NullToken else token
  }

  /** `User.findByOrFail('verificationToken', token)` as the query builder runs
      it: an absent value is an undefined binding and throws; `null` becomes
      `verification_token IS NULL`, which finds the first user holding no
      pending token (verification clears it); text finds its holder. */
  function FindByTokenAsWritten(users: seq<User>, token: TokenField): (r: Option<nat>)
    ensures r.Some? ==> r.value < |users|
    ensures token.NoToken? ==> r.None?
    ensures token.NullToken? && r.Some? ==> users[r.value].verificationToken.None?
    ensures token.NullToken? && r.None? ==> forall i :: 0 <= i < |users| ==> users[i].verificationToken.Some?
  {
    match token
    case NoToken => None
    case NullToken => FirstIndex(users, (u: User) => u.verificationToken.None?)
    case TokenText(t) => IndexByToken(users, t)
  }

  /** The lookup `verifyEmail` needs: only a token text finds a user, the one
      holding it. */
  function FindByPendingToken(users: seq<User>, token: TokenField): (r: Option<nat>)
    ensures r.Some? ==>
      r.value < |users| && token.TokenText? && users[r.value].verificationToken == Some(token.text)
    ensures token.TokenText? && r.None? ==>
      forall i :: 0 <= i < |users| ==> users[i].verificationToken != Some(token.text)
  {
    match token
    case TokenText(t) => IndexByToken(users, t)
    case _ => None
  }

  /** The result of `verifyEmail`: the reply, the claims of the issued JWT, and
      the users table afterwards. */
  datatype Verification = Verification(reply: Reply, issued: Option<Claims>, users: seq<User>)

  /** `verifyEmail` at time `now` (milliseconds) once the lookup found the row
      `found` (lines 125-160): no row is INVALID_TOKEN; a user created more
      than 24 hours ago gets TOKEN_EXPIRED and is left as is; otherwise the row
      becomes verified, loses its token, takes the given password, and a JWT
      is issued for it. */
  function Verify(users: seq<User>, found: Option<nat>, password: string, now: int): (r: Verification)
    requires found.Some? ==> found.value < |users|
  {
    match found
    case None => Verification(InvalidTokenReply(), None, users)
    case Some(i) =>
      var u := users[i];
      if now - u.createdAt > VerificationWindowMillis then Verification(ExpiredReply(), None, users)
      else
        var v := u.(emailVerified := true, verificationToken := None, password := password);
        Verification(Reply(Ok, "", VerifiedMessage), Some(GenerateToken(v)), users[i := v])
  }

  /** Lines 125-160 on the row the lookup found. */
  method CompleteVerification(accounts: UserTable, found: Option<nat>, password: string, now: int)
    returns (reply: Reply, issued: Option<Claims>)
    requires accounts.Valid()
    requires found.Some? ==> found.value < |accounts.users|
    modifies accounts
    ensures accounts.Valid()
    ensures var o := Verify(old(accounts.users), found, password, now);
      reply == o.reply && issued == o.issued && accounts.users == o.users
  {
    issued := None;
    if found.None? {
      reply := InvalidTokenReply();
      return;
    }
    var u := accounts.users[found.value];
    var tokenAge := now - u.createdAt;
    if tokenAge > VerificationWindowMillis {
      reply := ExpiredReply();
      return;
    }
    u := u.(emailVerified := true, verificationToken := None, password := password);
    accounts.SaveVerified(u);
    reply, issued := Reply(Ok, "", VerifiedMessage), Some(GenerateToken(u));
  }

  /** `verifyEmail` as written: the lookup also runs for a `null` (or empty)
      token. */
  method VerifyEmailAsWritten(accounts: UserTable, token: TokenField, password: string, now: int)
    returns (reply: Reply, issued: Option<Claims>)
    requires accounts.Valid()
    modifies accounts
    ensures accounts.Valid()
    ensures var o := Verify(old(accounts.users), FindByTokenAsWritten(old(accounts.users), Received(token)),
                            password, now);
      reply == o.reply && issued == o.issued && accounts.users == o.users
  {
    var found := FindByTokenAsWritten(accounts.users, Received(token));
    reply, issued := CompleteVerification(accounts, found, password, now);
  }

  /** A `null` or empty token, as written, selects the first user holding no
      pending token, an already verified one: within 24 hours of that user's
      creation the request overwrites the user's password with its own and is
      issued a JWT for that user; later it is told TOKEN_EXPIRED rather than
      INVALID_TOKEN. */
  lemma NullTokenSelectsVerifiedUser(users: seq<User>, k: nat, token: TokenField, password: string, now: int)
    requires token == NullToken || token == TokenText("")
    requires k < |users| && users[k].verificationToken.None?
    requires forall j :: 0 <= j < k ==> users[j].verificationToken.Some?
    ensures var o := Verify(users, FindByTokenAsWritten(users, Received(token)), password, now);
      if now - users[k].createdAt <= VerificationWindowMillis then
        && o.reply == Reply(Ok, "", VerifiedMessage)
        && |o.users| == |users| && o.users[k].password == password
        && o.users[k].id == users[k].id && o.users[k].email == users[k].email
        && o.issued == Some(Claims(users[k].id, users[k].email, users[k].role, TokenLifetimeSeconds))
      else
        o.reply == ExpiredReply() && o.users == users
  {
    var found := FindByTokenAsWritten(users, Received(token));
    assert found == Some(k);
  }

  /** `verifyEmail` as it is meant to work: only a token text that some user
      holds reaches that user. */
  method VerifyEmail(accounts: UserTable, token: TokenField, password: string, now: int)
    returns (reply: Reply, issued: Option<Claims>)
    requires accounts.Valid()
    modifies accounts
    ensures accounts.Valid()
    ensures var o := Verify(old(accounts.users), FindByPendingToken(old(accounts.users), Received(token)),
                            password, now);
      reply == o.reply && issued == o.issued && accounts.users == o.users
  {
    var found := FindByPendingToken(accounts.users, Received(token));
    reply, issued := CompleteVerification(accounts, found, password, now);
  }

  /** What VerifyEmail promises: an absent, `null` or empty token, or one that
      no user holds, is INVALID_TOKEN with nothing changed; a user created more
      than 24 hours ago gets TOKEN_EXPIRED and is unchanged; otherwise exactly
      the holder becomes verified with the given password, is issued a JWT,
      and no user holds the token afterwards. */
  lemma VerifyEmailMeans(users: seq<User>, token: TokenField, password: string, now: int)
    requires forall i, j :: 0 <= i < j < |users| && users[i].verificationToken.Some? ==>
      users[i].verificationToken != users[j].verificationToken
    ensures var o := Verify(users, FindByPendingToken(users, Received(token)), password, now);
      && (!IsTokenText(token) || IndexByToken(users, token.text).None? ==>
            o == Verification(InvalidTokenReply(), None, users))
      && (IsTokenText(token) && IndexByToken(users, token.text).Some? ==>
            var i := IndexByToken(users, token.text).value;
            var u := users[i];
            if now - u.createdAt > VerificationWindowMillis then
              o == Verification(ExpiredReply(), None, users)
            else
              var v := u.(emailVerified := true, verificationToken := None, password := password);
              && o.users == users[i := v]
              && o.reply == Reply(Ok, "", VerifiedMessage) && o.issued == Some(GenerateToken(v))
              && IndexByToken(o.users, token.text).None?)
  {
    if IsTokenText(token) {
      var found := IndexByToken(users, token.text);
      if found.Some? {
        var u := users[found.value];
        var v := u.(emailVerified := true, verificationToken := None, password := password);
        TokenHeldOnce(users, found.value, token.text, v);
      }
    }
  }

  /** The token held by row k is held by no other row, so clearing it at k
      leaves no row that holds it. */
  lemma TokenHeldOnce(users: seq<User>, k: nat, token: string, u: User)
    requires k < |users| && users[k].verificationToken == Some(token)
    requires forall i, j :: 0 <= i < j < |users| && users[i].verificationToken.Some? ==>
      users[i].verificationToken != users[j].verificationToken
    requires u.verificationToken == None
    ensures IndexByToken(users[k := u], token).None?
  {
    var updated := users[k := u];
    forall j | 0 <= j < |updated|
      ensures updated[j].verificationToken != Some(token)
    {
      if j < k {
        assert users[j].verificationToken.Some? ==> users[j].verificationToken != users[k].verificationToken;
      } else if k < j {
        assert users[k].verificationToken != users[j].verificationToken;
      }
    }
  }
}
