/**
  The two HTTP handlers of the authentication handshake: the session-token
  endpoint and the signature-challenge endpoint. Each maps a directory lookup
  and the user model's answers to one reply.
*/
module AuthController {
  import opened Wrappers
  import opened Text
  import Jwt
  import opened Users

  /** The reply a handler sends, or none when its promise chain rejects. */
  datatype Reply =
    | PlainText(status: int, body: string)     // res.status(status).send(body)
    | SessionTokenJson(sessionToken: Jwt.Token) // res.json({sessionToken})
    | AuthFailure(message: string)              // res.json({success: false, message})
    | AuthSuccess(token: Jwt.Token)             // res.json({success: true, token})
    | NoReply

  const UserNotFound := "User not found"
  const WrongFingerprint := "Wrong fingerprint"
  const InvalidSignature := "Invalid signature"

  /** The body of a POST to the authentication endpoint. */
  datatype AuthRequest = AuthRequest(username: string, fingerprint: string, signature: string)

  /** `token`: the trimmed path name's session token, or 404 for an unknown user. */
  function TokenEndpoint(dir: Directory, pathName: string, secret: string, now: int): (r: Reply)
    reads dir, dir.users.Values
    ensures r.PlainText? || r.SessionTokenJson?
    ensures r.SessionTokenJson? ==> Some(r.sessionToken) == dir.GetSessionToken(Trim(pathName), secret, now)
  {
    match dir.GetSessionToken(Trim(pathName), secret, now)
    case None => PlainText(404, UserNotFound)
    case Some(sessionToken) => SessionTokenJson(sessionToken)
  }

  /** `auth`: user lookup, then fingerprint comparison, then the signature challenge. */
  function AuthEndpoint(dir: Directory, req: AuthRequest, svc: Services, now: int): (r: Reply)
    reads dir, dir.users.Values
    ensures r.AuthFailure? || r.AuthSuccess? || r.NoReply?
  {
    match dir.FindByName(req.username)
    case None => AuthFailure(UserNotFound)
    case Some(user) =>
      if user.fingerprint != req.fingerprint then AuthFailure(WrongFingerprint)
      else match user.Authenticate(req.signature, svc, now)
        case Refused => AuthFailure(InvalidSignature)
        case Rejected => NoReply
        case Issued(token) => AuthSuccess(token)
  }

  /** The path name is trimmed before lookup: surrounding white space makes no difference. */
  lemma TokenEndpointTrims(dir: Directory, pathName: string, secret: string, now: int)
    ensures TokenEndpoint(dir, Trim(pathName), secret, now) == TokenEndpoint(dir, pathName, secret, now)
  {
    TrimIdempotent(pathName);
  }

  /**
    The reply is 404 'User not found' exactly for an unknown user; otherwise
    it is a session token for the stored user, valid for 8 minutes.
  */
  lemma TokenEndpointReplies(dir: Directory, pathName: string, secret: string, issued: int, now: int)
    requires dir.Valid()
    ensures TokenEndpoint(dir, pathName, secret, issued) == PlainText(404, UserNotFound)
        <==> dir.FindByName(Trim(pathName)).None?
    ensures TokenEndpoint(dir, pathName, secret, issued).SessionTokenJson? ==>
              Jwt.Verify(TokenEndpoint(dir, pathName, secret, issued).sessionToken, secret, now)
              == if now < issued + Jwt.SessionTokenLifetime
                 then Some(Jwt.Claims(Some(Lower(Trim(pathName))), None)) else None
  {
    if dir.GetSessionToken(Trim(pathName), secret, issued).Some? {
      SessionTokenWindow(dir, Trim(pathName), secret, issued, secret, now);
    }
  }

  /** An unknown user is answered 'User not found', whatever else the request holds. */
  lemma AuthUnknownUser(dir: Directory, req: AuthRequest, svc: Services, now: int)
    requires dir.FindByName(req.username).None?
    ensures AuthEndpoint(dir, req, svc, now) == AuthFailure(UserNotFound)
  {
  }

  /**
    A fingerprint that differs from the stored one is answered 'Wrong
    fingerprint' before the signature is looked at: the reply is the same for
    every signature and every collaborator.
  */
  lemma AuthWrongFingerprint(dir: Directory, req: AuthRequest, svc: Services, now: int,
                             otherSignature: string, otherSvc: Services, otherNow: int)
    requires dir.FindByName(req.username).Some?
    requires dir.FindByName(req.username).value.fingerprint != req.fingerprint
    ensures AuthEndpoint(dir, req, svc, now) == AuthFailure(WrongFingerprint)
    ensures AuthEndpoint(dir, req.(signature := otherSignature), otherSvc, otherNow) == AuthFailure(WrongFingerprint)
  {
  }

  /**
    Past the lookup and the fingerprint, the reply follows `authenticate`:
    'Invalid signature' when it yields false, success with its token when it
    yields one, and no reply when it rejects.
  */
  lemma AuthFollowsAuthenticate(dir: Directory, req: AuthRequest, svc: Services, now: int)
    requires dir.FindByName(req.username).Some?
    requires dir.FindByName(req.username).value.fingerprint == req.fingerprint
    ensures var result := dir.FindByName(req.username).value.Authenticate(req.signature, svc, now);
            AuthEndpoint(dir, req, svc, now) == match result
              case Refused => AuthFailure(InvalidSignature)
              case Rejected => NoReply
              case Issued(token) => AuthSuccess(token)
  {
  }

  /**
    A stored user with the right fingerprint whose signature is invalid, or
    whose signed payload names another user or lacks the request tag, is
    answered 'Invalid signature'.
  */
  lemma AuthInvalidSignature(dir: Directory, req: AuthRequest, svc: Services, now: int)
    requires dir.FindByName(req.username).Some?
    requires dir.FindByName(req.username).value.fingerprint == req.fingerprint
    requires svc.pgp.fingerprintOf(dir.FindByName(req.username).value.publicKey).Some?
    requires forall m :: svc.pgp.readCleartext(req.signature) == Some(m) ==> svc.parseJson(m.text).Some?
    requires || (forall m :: svc.pgp.readCleartext(req.signature) == Some(m) ==>
                              !svc.pgp.signatureValid(m, dir.FindByName(req.username).value.publicKey))
             || (forall m, p :: svc.pgp.readCleartext(req.signature) == Some(m) && svc.parseJson(m.text) == Some(p) ==>
                                  p.username != Some(dir.FindByName(req.username).value.username))
             || (forall m, p :: svc.pgp.readCleartext(req.signature) == Some(m) && svc.parseJson(m.text) == Some(p) ==>
                                  p.msg != Some(AuthRequestTag))
    ensures AuthEndpoint(dir, req, svc, now) == AuthFailure(InvalidSignature)
  {
    AuthenticateRefusals(dir.FindByName(req.username).value, req.signature, svc, now);
  }

  /**
    Success is answered only after all three checks pass in order: the user
    exists, the fingerprint is the stored one, and the signed request proves
    possession of the user's key for a fresh session token; the token it
    returns lets that user connect.
  */
  lemma AuthSuccessNeedsAllChecks(dir: Directory, req: AuthRequest, svc: Services, now: int)
    requires AuthEndpoint(dir, req, svc, now).AuthSuccess?
    ensures dir.FindByName(req.username).Some?
    ensures dir.FindByName(req.username).value.fingerprint == req.fingerprint
    ensures dir.FindByName(req.username).value.Authenticate(req.signature, svc, now).Issued?
    ensures dir.AuthToken(req.username, AuthEndpoint(dir, req, svc, now).token, svc.secret, now)
  {
    var user := dir.FindByName(req.username).value;
    AuthenticateIssuesOnlyWithProof(user, req.signature, svc, now);
  }

  /**
    The handshake end to end: a session token fetched for a registered user,
    embedded in a payload the user signs with the request tag, and posted
    with the user's fingerprint within 8 minutes, is exchanged for an auth
    token that the user can connect with for the next 24 hours.
  */
  lemma HandshakeSucceeds(dir: Directory, name: string, svc: Services, fetched: int, posted: int,
                          signature: string, message: OpenPgp.Cleartext, connected: int)
    requires dir.Valid()
    requires dir.FindByName(name).Some?
    requires TokenEndpoint(dir, name, svc.secret, fetched).SessionTokenJson?
    requires fetched <= posted < fetched + Jwt.SessionTokenLifetime
    requires svc.pgp.readCleartext(signature) == Some(message)
    requires svc.pgp.fingerprintOf(dir.FindByName(name).value.publicKey).Some?
    requires svc.pgp.signatureValid(message, dir.FindByName(name).value.publicKey)
    requires message.text != ""
    requires svc.parseJson(message.text)
          == Some(Payload(Some(Lower(Trim(name))), Some(AuthRequestTag),
                          Some(TokenEndpoint(dir, name, svc.secret, fetched).sessionToken)))
    requires name == Trim(name)
    requires posted <= connected < posted + Jwt.AuthTokenLifetime
    ensures var req := AuthRequest(name, dir.FindByName(name).value.fingerprint, signature);
            && AuthEndpoint(dir, req, svc, posted).AuthSuccess?
            && dir.AuthToken(name, AuthEndpoint(dir, req, svc, posted).token, svc.secret, connected)
  {
    var user := dir.FindByName(name).value;
    var sessionToken := TokenEndpoint(dir, name, svc.secret, fetched).sessionToken;
    FindByNameIgnoresCase(dir, name, name);
    assert user.username == Lower(Trim(name));
    TokenEndpointReplies(dir, name, svc.secret, fetched, posted);
    assert Jwt.Verify(sessionToken, svc.secret, posted) == Some(Jwt.Claims(Some(user.username), None));
    var token := user.GenerateAuthToken(sessionToken, svc.secret, posted);
    assert token.Some?;
    AuthenticateExchangesSessionToken(user, signature, svc, posted, message, sessionToken);
    var req := AuthRequest(name, user.fingerprint, signature);
    assert AuthEndpoint(dir, req, svc, posted) == AuthSuccess(token.value);
    AuthTokenWindow(user, sessionToken, svc.secret, posted, connected);
  }
}
