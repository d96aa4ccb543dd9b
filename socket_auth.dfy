/**
  The connection gate run before a socket connection is accepted: three
  handshake query parameters must be present and the auth token must verify
  for the named user.
*/
module SocketAuth {
  import opened Wrappers
  import opened Text
  import Jwt
  import opened Users

  /** The handshake query; a parameter the client did not send is None. */
  datatype Query = Query(username: Option<string>, token: Option<Jwt.Token>, deviceId: Option<string>)

  /** `next()` or `next(new Error(message))`. */
  datatype Verdict = Accept | Reject(message: string)

  const EmptyParameter := "Username/token/deviceId is empty"
  const AuthenticationError := "Authentication error"

  /** A parameter JavaScript treats as truthy: sent and not the empty string. */
  predicate Given(p: Option<string>) {
    p.Some? && p.value != ""
  }

  predicate TokenGiven(t: Option<Jwt.Token>) {
    t.Some? && !t.value.IsEmpty()
  }

  /** The gate: reject a missing parameter before any lookup, then ask `authToken`. */
  function Gate(dir: Directory, q: Query, secret: string, now: int): (v: Verdict)
    reads dir, dir.users.Values
    ensures v.Reject? ==> v.message == EmptyParameter || v.message == AuthenticationError
  {
    if !Given(q.username) || !TokenGiven(q.token) || !Given(q.deviceId) then Reject(EmptyParameter)
    else if !dir.AuthToken(q.username.value, q.token.value, secret, now) then Reject(AuthenticationError)
    else Accept
  }

  /**
    A connection is accepted exactly when all three parameters are given and
    the token is a valid auth token naming the user stored under that name.
  */
  lemma GateAcceptsExactly(dir: Directory, q: Query, secret: string, now: int)
    requires dir.Valid()
    ensures Gate(dir, q, secret, now) == Accept <==>
              && Given(q.username) && TokenGiven(q.token) && Given(q.deviceId)
              && Lower(q.username.value) in dir.users
              && Jwt.Verify(q.token.value, secret, now).Some?
              && Jwt.Verify(q.token.value, secret, now).value.loggedInAs == Some(Lower(q.username.value))
  {
  }

  /**
    A missing parameter is rejected without a lookup or a token check: the
    verdict is the same for any directory, secret and time.
  */
  lemma GateMissingParameter(dir: Directory, q: Query, secret: string, now: int,
                             otherDir: Directory, otherSecret: string, otherNow: int)
    requires !Given(q.username) || !TokenGiven(q.token) || !Given(q.deviceId)
    ensures Gate(dir, q, secret, now) == Reject(EmptyParameter)
    ensures Gate(otherDir, q, otherSecret, otherNow) == Reject(EmptyParameter)
  {
  }

  /** The device id is only checked for presence: any other given id gets the same verdict. */
  lemma GateIgnoresDeviceId(dir: Directory, q: Query, secret: string, now: int, deviceId: string)
    requires Given(q.deviceId) && deviceId != ""
    ensures Gate(dir, q.(deviceId := Some(deviceId)), secret, now) == Gate(dir, q, secret, now)
  {
  }

  /** A token `authToken` does not accept is refused with 'Authentication error'. */
  lemma GateRejectsBadToken(dir: Directory, q: Query, secret: string, now: int)
    requires Given(q.username) && TokenGiven(q.token) && Given(q.deviceId)
    requires !dir.AuthToken(q.username.value, q.token.value, secret, now)
    ensures Gate(dir, q, secret, now) == Reject(AuthenticationError)
  {
  }

  /** A session token never opens a connection. */
  lemma GateRefusesSessionTokens(dir: Directory, q: Query, secret: string, issued: int, name: string, now: int)
    requires dir.GetSessionToken(name, secret, issued).Some?
    requires q.token == dir.GetSessionToken(name, secret, issued)
    ensures Gate(dir, q, secret, now) != Accept
  {
    if Given(q.username) && Given(q.deviceId) {
      var user := dir.FindByName(q.username.value);
      if user.Some? {
        SessionTokenIsNotAuthToken(dir, name, secret, issued, user.value, now);
      }
    }
  }
}
