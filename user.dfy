/**
  The user model: a registered identity with its public key and its list of
  pending invites, the directory that stores identities under their
  lower-cased username, and the token logic of the authentication handshake.
*/
module Users {
  import opened Wrappers
  import opened Text
  import Jwt
  import OpenPgp

  /** The `msg` tag a signed authentication request must carry. */
  const AuthRequestTag := "SIGNAL_AUTH_REQUEST"

  /** A pending invite: the inviter's signature and public data. */
  datatype Invite = Invite(signature: string, username: string, fingerprint: string, publicKey: string)

  /** The attributes of a user that may be shared with others. */
  datatype PublicData = PublicData(username: string, fingerprint: string, publicKey: string)

  /** The fields read from the JSON text a client signs; a missing field is None. */
  datatype Payload = Payload(username: Option<string>, msg: Option<string>, sessionToken: Option<Jwt.Token>)

  /**
    The collaborators of the handshake: the JWT secret, the OpenPGP
    capability and `JSON.parse` (None when it throws or yields null, so that
    reading a field of the result would throw).
  */
  datatype Services = Services(secret: string, pgp: OpenPgp.Pgp, parseJson: string -> Option<Payload>)

  /** What `checkSignature` resolves or rejects with. */
  datatype SignatureCheck =
    | NotVerified        // resolves with false
    | Verified(text: string)
    | KeyUnreadable      // `readKey` throws, so the promise rejects

  /** What `authenticate` resolves or rejects with. */
  datatype AuthResult =
    | Issued(token: Jwt.Token)
    | Refused            // resolves with false
    | Rejected           // the promise rejects

  datatype RegisterError = UnreadableKey | MissingField | DuplicateUsername

  /* ---------------------------------------------------------------------- */
  /* Pending invites                                                          */
  /* ---------------------------------------------------------------------- */

  /** `_.findWhere(invites, {username: name})` finds something. */
  predicate HasInviteFrom(invites: seq<Invite>, name: string) {
    exists k :: 0 <= k < |invites| && invites[k].username == name
  }

  /** No inviter has two entries in the list. */
  predicate OneInvitePerInviter(invites: seq<Invite>) {
    forall i, j :: 0 <= i < j < |invites| ==> invites[i].username != invites[j].username
  }

  /** The list after `addInvite(data)`. */
  function WithInvite(invites: seq<Invite>, data: Invite): seq<Invite> {
    var name := Lower(data.username);
    if HasInviteFrom(invites, name) then invites else invites + [data.(username := name)]
  }

  /** `_.filter(invites, invite => invite.username !== name)`. */
  function Filtered(invites: seq<Invite>, name: string): seq<Invite> {
    if invites == [] then []
    else
      var kept := Filtered(invites[..|invites| - 1], name);
      if invites[|invites| - 1].username != name then kept + [invites[|invites| - 1]] else kept
  }

  /** The list after `removeInvite({username: name})`. */
  function WithoutInvite(invites: seq<Invite>, name: string): seq<Invite> {
    var n := Lower(name);
    if !HasInviteFrom(invites, n) then invites else Filtered(invites, n)
  }

  /** Filtering keeps exactly the entries from other inviters. */
  lemma {:induction false} FilteredMembers(invites: seq<Invite>, name: string)
    ensures forall x :: x in Filtered(invites, name) <==> x in invites && x.username != name
  {
    if invites != [] {
      var init := invites[..|invites| - 1];
      FilteredMembers(init, name);
      assert invites == init + [invites[|invites| - 1]];
    }
  }

  /** Filtering a list with no entry from `name` leaves it as it is. */
  lemma {:induction false} FilteredNothing(invites: seq<Invite>, name: string)
    requires !HasInviteFrom(invites, name)
    ensures Filtered(invites, name) == invites
  {
    if invites != [] {
      var init := invites[..|invites| - 1];
      assert !HasInviteFrom(init, name) by {
        forall k | 0 <= k < |init| ensures init[k].username != name {
          assert init[k] == invites[k];
        }
      }
      FilteredNothing(init, name);
      assert invites[|invites| - 1].username != name;
      assert invites == init + [invites[|invites| - 1]];
    }
  }

  /** Filtering preserves the relative order: it distributes over concatenation. */
  lemma {:induction false} FilteredAppend(a: seq<Invite>, b: seq<Invite>, name: string)
    ensures Filtered(a + b, name) == Filtered(a, name) + Filtered(b, name)
  {
    if b == [] {
      assert a + b == a;
    } else {
      var init := b[..|b| - 1];
      FilteredAppend(a, init, name);
      assert (a + b)[..|a + b| - 1] == a + init;
      assert (a + b)[|a + b| - 1] == b[|b| - 1];
    }
  }

  /** A filtered list has no two entries from one inviter when the original had none. */
  lemma FilteredKeepsOnePerInviter(invites: seq<Invite>, name: string)
    requires OneInvitePerInviter(invites)
    ensures OneInvitePerInviter(Filtered(invites, name))
    decreases |invites|
  {
    if invites != [] {
      var init := invites[..|invites| - 1];
      var last := invites[|invites| - 1];
      FilteredKeepsOnePerInviter(init, name);
      FilteredMembers(init, name);
      forall x | x in Filtered(init, name) ensures x.username != last.username {
        var k :| 0 <= k < |init| && init[k] == x;
        assert invites[k] == x;
      }
    }
  }

  /**
    `addInvite` adds nothing when the inviter already has an entry, and
    otherwise appends exactly one entry, under the lower-cased name.
  */
  lemma AddInviteAppendsOnce(invites: seq<Invite>, data: Invite)
    ensures HasInviteFrom(invites, Lower(data.username)) ==> WithInvite(invites, data) == invites
    ensures !HasInviteFrom(invites, Lower(data.username)) ==>
              WithInvite(invites, data) == invites + [data.(username := Lower(data.username))]
    ensures HasInviteFrom(WithInvite(invites, data), Lower(data.username))
  {
    var r := WithInvite(invites, data);
    if !HasInviteFrom(invites, Lower(data.username)) {
      assert r[|invites|].username == Lower(data.username);
    }
  }

  /** Adding the same invite twice is the same as adding it once. */
  lemma AddInviteIdempotent(invites: seq<Invite>, data: Invite)
    ensures WithInvite(WithInvite(invites, data), data) == WithInvite(invites, data)
  {
    AddInviteAppendsOnce(invites, data);
  }

  /** `addInvite` keeps the list at one entry per inviter. */
  lemma AddInviteKeepsOnePerInviter(invites: seq<Invite>, data: Invite)
    requires OneInvitePerInviter(invites)
    ensures OneInvitePerInviter(WithInvite(invites, data))
  {
  }

  /**
    `removeInvite` leaves no entry from the lower-cased name, keeps every other
    entry, and changes nothing when there was no such entry.
  */
  lemma RemoveInviteRemovesOnlyThatInviter(invites: seq<Invite>, name: string)
    ensures !HasInviteFrom(WithoutInvite(invites, name), Lower(name))
    ensures forall x :: x in WithoutInvite(invites, name) <==> x in invites && x.username != Lower(name)
    ensures !HasInviteFrom(invites, Lower(name)) ==> WithoutInvite(invites, name) == invites
  {
    FilteredMembers(invites, Lower(name));
  }

  /** Removing an invite right after adding it gives the list as removal alone would. */
  lemma RemoveAfterAdd(invites: seq<Invite>, data: Invite)
    ensures WithoutInvite(WithInvite(invites, data), data.username) == WithoutInvite(invites, data.username)
  {
    var n := Lower(data.username);
    if !HasInviteFrom(invites, n) {
      var added := data.(username := n);
      FilteredAppend(invites, [added], n);
      assert Filtered([added], n) == [] by {
        assert [added][..0] == [];
      }
      FilteredNothing(invites, n);
      AddInviteAppendsOnce(invites, data);
    }
  }

  /* ---------------------------------------------------------------------- */
  /* A user document                                                          */
  /* ---------------------------------------------------------------------- */

  class User {
    var username: string
    var fingerprint: string
    var publicKey: string
    var pendingInvites: seq<Invite>

    constructor (username: string, fingerprint: string, publicKey: string, pendingInvites: seq<Invite>)
      ensures this.username == username && this.fingerprint == fingerprint
      ensures this.publicKey == publicKey && this.pendingInvites == pendingInvites
    {
      this.username := username;
      this.fingerprint := fingerprint;
      this.publicKey := publicKey;
      this.pendingInvites := pendingInvites;
    }

    /** `getPublicData`: the three shareable fields; the reads clause shows it never sees the invites. */
    function GetPublicData(): (d: PublicData)
      reads this`username, this`fingerprint, this`publicKey
      ensures d.username == username && d.fingerprint == fingerprint && d.publicKey == publicKey
    {
      PublicData(username, fingerprint, publicKey)
    }

    /**
      `verifyToken` followed by the `loggedInAs` comparison of `verifyAuthToken`:
      true exactly when the token verifies and names this user as logged in.
    */
    function VerifyAuthToken(token: Jwt.Token, secret: string, now: int): (ok: bool)
      reads this`username
      ensures ok <==> && token.Signed? && token.algorithm == Jwt.HS256 && token.signedWith == secret
                      && Jwt.Unexpired(token.expiresAt, now)
                      && token.claims.loggedInAs == Some(username)
    {
      match Jwt.Verify(token, secret, now)
      case None => false
      case Some(claims) => claims.loggedInAs == Some(username)
    }

    /**
      `generateAuthToken`: exchanges a session token minted for this user, still
      valid at `now`, for a 24-hour auth token naming this user.
    */
    function GenerateAuthToken(sessionToken: Jwt.Token, secret: string, now: int): (r: Option<Jwt.Token>)
      reads this`username
      ensures r.Some? <==> (match Jwt.Verify(sessionToken, secret, now)
                             case None => false
                             case Some(claims) => claims.sessionTokenFor == Some(username))
      ensures r.Some? ==> Jwt.Verify(r.value, secret, now) == Some(Jwt.Claims(None, Some(username)))
    {
      match Jwt.Verify(sessionToken, secret, now)
      case None => None
      case Some(claims) =>
        if claims.sessionTokenFor != Some(username) then None
        else Some(Jwt.Sign(Jwt.Claims(None, Some(username)), secret, now, Jwt.AuthTokenLifetime))
    }

    /** `checkSignature`: the signed text when the signature is valid under this user's key. */
    function CheckSignature(signature: string, pgp: OpenPgp.Pgp): (r: SignatureCheck)
      reads this`publicKey
      ensures r.Verified? <==> && pgp.readCleartext(signature).Some?
                               && pgp.fingerprintOf(publicKey).Some?
                               && pgp.signatureValid(pgp.readCleartext(signature).value, publicKey)
      ensures r.Verified? ==> r.text == pgp.readCleartext(signature).value.text
      ensures r.KeyUnreadable? <==> pgp.readCleartext(signature).Some? && pgp.fingerprintOf(publicKey).None?
    {
      match pgp.readCleartext(signature)
      case None => NotVerified
      case Some(message) =>
        if pgp.fingerprintOf(publicKey).None? then KeyUnreadable
        else if !pgp.signatureValid(message, publicKey) then NotVerified
        else Verified(message.text)
    }

    /**
      `authenticate`: a valid signature over a payload naming this user and
      carrying the request tag, whose session token is exchanged for an auth
      token. An empty signed text counts as no result, as in the source.
    */
    function Authenticate(signature: string, svc: Services, now: int): (r: AuthResult)
      reads this`username, this`publicKey
      ensures var message := svc.pgp.readCleartext(signature);
              r.Rejected? <==> && message.Some?
                               && (|| svc.pgp.fingerprintOf(publicKey).None?
                                   || (&& svc.pgp.signatureValid(message.value, publicKey)
                                       && message.value.text != ""
                                       && svc.parseJson(message.value.text).None?))
      ensures r.Issued? ==> VerifyAuthToken(r.token, svc.secret, now)
    {
      match CheckSignature(signature, svc.pgp)
      case KeyUnreadable => Rejected
      case NotVerified => Refused
      case Verified(text) =>
        if text == "" then Refused
        else match svc.parseJson(text)
          case None => Rejected
          case Some(data) =>
            if data.username != Some(username) || data.msg != Some(AuthRequestTag) then Refused
            else match data.sessionToken
              case None => Refused
              case Some(sessionToken) =>
                match GenerateAuthToken(sessionToken, svc.secret, now)
                case None => Refused
                case Some(token) => Issued(token)
    }

    /** `addInvite`: record an invite unless one from the same inviter is pending. */
    method AddInvite(data: Invite)
      modifies this`pendingInvites
      ensures pendingInvites == WithInvite(old(pendingInvites), data)
    {
      var name := Lower(data.username);
      if HasInviteFrom(pendingInvites, name) {
        return;
      }
      pendingInvites := pendingInvites + [data.(username := name)];
    }

    /** `removeInvite`: drop every pending invite from the given inviter. */
    method RemoveInvite(name: string)
      modifies this`pendingInvites
      ensures pendingInvites == WithoutInvite(old(pendingInvites), name)
    {
      var n := Lower(name);
      if !HasInviteFrom(pendingInvites, n) {
        return;
      }
      pendingInvites := Filtered(pendingInvites, n);
    }

    /**
      `register`: lower-case the username (even when the key turns out to be
      unreadable), take the fingerprint from the public key, then save, which
      fails on an empty required field or a username already stored.
    */
    method Register(pgp: OpenPgp.Pgp, dir: Directory) returns (result: Option<RegisterError>)
      requires dir.Valid() && this !in dir.users.Values
      modifies this`username, this`fingerprint, dir`users
      ensures dir.Valid()
      ensures username == Lower(old(username))
      ensures pgp.fingerprintOf(publicKey).None? ==>
                result == Some(UnreadableKey) && fingerprint == old(fingerprint)
      ensures pgp.fingerprintOf(publicKey).Some? ==> fingerprint == pgp.fingerprintOf(publicKey).value
      ensures result.None? <==> && pgp.fingerprintOf(publicKey).Some?
                                && username != "" && fingerprint != "" && publicKey != ""
                                && username !in old(dir.users)
      ensures result.None? ==> dir.users == old(dir.users)[username := this]
      ensures result.None? ==> dir.FindByName(old(username)) == Some(this)
      ensures result.Some? ==> dir.users == old(dir.users)
    {
      username := Lower(username);
      LowerIsLower(old(username));
      var key := pgp.fingerprintOf(publicKey);
      if key.None? {
        return Some(UnreadableKey);
      }
      fingerprint := key.value;
      if username == "" || fingerprint == "" || publicKey == "" {
        return Some(MissingField);
      }
      if username in dir.users {
        return Some(DuplicateUsername);
      }
      dir.users := dir.users[username := this];
      result := None;
    }
  }

  /* ---------------------------------------------------------------------- */
  /* The directory                                                            */
  /* ---------------------------------------------------------------------- */

  /** The stored users, keyed by username. */
  class Directory {
    var users: map<string, User>

    /** Every user is stored under its own, lower-case, username. */
    ghost predicate Valid()
      reads this, users.Values
    {
      forall k :: k in users ==> users[k].username == k && IsLower(k)
    }

    constructor ()
      ensures users == map[] && Valid()
    {
      users := map[];
    }

    /** `findByName`: the query is lower-cased before it is matched against stored usernames. */
    function FindByName(name: string): (r: Option<User>)
      reads this
      ensures r.Some? <==> Lower(name) in users
      ensures r.Some? ==> r.value in users.Values
    {
      var key := Lower(name);
      if key in users then Some(users[key]) else None
    }

    /** `getSessionToken`: an 8-minute token for the stored username, or None for an unknown user. */
    function GetSessionToken(name: string, secret: string, now: int): (r: Option<Jwt.Token>)
      reads this, users.Values
      ensures r.None? <==> FindByName(name).None?
    {
      match FindByName(name)
      case None => None
      case Some(user) =>
        Some(Jwt.Sign(Jwt.Claims(Some(user.username), None), secret, now, Jwt.SessionTokenLifetime))
    }

    /** `authToken`: false for an unknown user, else that user's `verifyAuthToken`. */
    function AuthToken(name: string, token: Jwt.Token, secret: string, now: int): (ok: bool)
      reads this, users.Values
      ensures ok <==> Lower(name) in users && users[Lower(name)].VerifyAuthToken(token, secret, now)
    {
      match FindByName(name)
      case None => false
      case Some(user) => user.VerifyAuthToken(token, secret, now)
    }
  }

  /* ---------------------------------------------------------------------- */
  /* Properties of the handshake                                              */
  /* ---------------------------------------------------------------------- */

  /** Lookup is case-insensitive, and finds the user stored under the lower-cased name. */
  lemma FindByNameIgnoresCase(dir: Directory, a: string, b: string)
    requires dir.Valid()
    requires Lower(a) == Lower(b)
    ensures dir.FindByName(a) == dir.FindByName(b)
    ensures dir.FindByName(a).Some? ==> dir.FindByName(a).value.username == Lower(a)
  {
  }

  /**
    A stored user's name is lower-case, and looking it up finds that very
    user: every user a session is built for came from `findByName`.
  */
  lemma StoredUserIsFoundByName(dir: Directory, user: User)
    requires dir.Valid() && user in dir.users.Values
    ensures IsLower(user.username)
    ensures dir.FindByName(user.username) == Some(user)
  {
    var k :| k in dir.users && dir.users[k] == user;
    LowerFixesLower(k);
  }

  /**
    A session token names the stored user and verifies for exactly 8 minutes
    after issue, and only under the secret that signed it.
  */
  lemma SessionTokenWindow(dir: Directory, name: string, secret: string, issued: int, key: string, now: int)
    requires dir.Valid()
    requires dir.GetSessionToken(name, secret, issued).Some?
    ensures Jwt.Verify(dir.GetSessionToken(name, secret, issued).value, key, now)
         == if key == secret && now < issued + Jwt.SessionTokenLifetime
            then Some(Jwt.Claims(Some(Lower(name)), None)) else None
  {
  }

  /** An auth token verifies for its user for exactly 24 hours after issue. */
  lemma AuthTokenWindow(user: User, sessionToken: Jwt.Token, secret: string, issued: int, now: int)
    requires user.GenerateAuthToken(sessionToken, secret, issued).Some?
    ensures user.VerifyAuthToken(user.GenerateAuthToken(sessionToken, secret, issued).value, secret, now)
        <==> now < issued + Jwt.AuthTokenLifetime
  {
  }

  /** A session token never passes as an auth token, for any user and at any time. */
  lemma SessionTokenIsNotAuthToken(dir: Directory, name: string, secret: string, issued: int,
                                   other: User, now: int)
    requires dir.GetSessionToken(name, secret, issued).Some?
    ensures !other.VerifyAuthToken(dir.GetSessionToken(name, secret, issued).value, secret, now)
  {
  }

  /** An auth token never passes as a session token, for any user and at any time. */
  lemma AuthTokenIsNotSessionToken(user: User, sessionToken: Jwt.Token, secret: string, issued: int,
                                   other: User, now: int)
    requires user.GenerateAuthToken(sessionToken, secret, issued).Some?
    ensures other.GenerateAuthToken(user.GenerateAuthToken(sessionToken, secret, issued).value, secret, now).None?
  {
  }

  /** A session token minted for one user cannot be exchanged by another. */
  lemma SessionTokenIsPerUser(user: User, other: User, sessionToken: Jwt.Token, secret: string, now: int)
    requires user.GenerateAuthToken(sessionToken, secret, now).Some?
    requires other.username != user.username
    ensures other.GenerateAuthToken(sessionToken, secret, now).None?
  {
  }

  /**
    `authenticate` resolves false, so `auth` can answer 'Invalid signature',
    for a signature that is not valid under the user's key, a payload naming
    another user, and a payload without the request tag. The stored key is
    readable (registration checked it) and a signed text is JSON, so the
    promise does not reject on the way.
  */
  lemma AuthenticateRefusals(user: User, signature: string, svc: Services, now: int)
    requires svc.pgp.fingerprintOf(user.publicKey).Some?
    requires forall m :: svc.pgp.readCleartext(signature) == Some(m) ==> svc.parseJson(m.text).Some?
    ensures (forall m :: svc.pgp.readCleartext(signature) == Some(m) ==> !svc.pgp.signatureValid(m, user.publicKey))
            ==> user.Authenticate(signature, svc, now) == Refused
    ensures (forall m, p ::
               svc.pgp.readCleartext(signature) == Some(m) && svc.parseJson(m.text) == Some(p) ==>
               p.username != Some(user.username))
            ==> user.Authenticate(signature, svc, now) == Refused
    ensures (forall m, p ::
               svc.pgp.readCleartext(signature) == Some(m) && svc.parseJson(m.text) == Some(p) ==>
               p.msg != Some(AuthRequestTag))
            ==> user.Authenticate(signature, svc, now) == Refused
  {
    var message := svc.pgp.readCleartext(signature);
    if message.Some? {
      assert svc.parseJson(message.value.text).Some?;
    }
  }

  /**
    Once the signature is valid and the signed payload names the user with the
    request tag, `authenticate` returns what `generateAuthToken` makes of the
    payload's session token: its token, or false.
  */
  lemma AuthenticateExchangesSessionToken(user: User, signature: string, svc: Services, now: int,
                                          message: OpenPgp.Cleartext, sessionToken: Jwt.Token)
    requires svc.pgp.readCleartext(signature) == Some(message)
    requires svc.pgp.fingerprintOf(user.publicKey).Some?
    requires svc.pgp.signatureValid(message, user.publicKey)
    requires message.text != ""
    requires svc.parseJson(message.text) == Some(Payload(Some(user.username), Some(AuthRequestTag), Some(sessionToken)))
    ensures user.Authenticate(signature, svc, now)
         == match user.GenerateAuthToken(sessionToken, svc.secret, now)
            case None => Refused
            case Some(token) => Issued(token)
  {
  }

  /**
    An auth token is issued only for a valid signature under the user's key,
    over a payload naming the user with the request tag and carrying a
    session token minted for the user that is still valid.
  */
  lemma AuthenticateIssuesOnlyWithProof(user: User, signature: string, svc: Services, now: int)
    requires user.Authenticate(signature, svc, now).Issued?
    ensures exists m, p, s ::
              && svc.pgp.readCleartext(signature) == Some(m)
              && svc.pgp.signatureValid(m, user.publicKey)
              && svc.parseJson(m.text) == Some(p)
              && p == Payload(Some(user.username), Some(AuthRequestTag), Some(s))
              && Jwt.Verify(s, svc.secret, now).Some?
              && Jwt.Verify(s, svc.secret, now).value.sessionTokenFor == Some(user.username)
    ensures user.VerifyAuthToken(user.Authenticate(signature, svc, now).token, svc.secret, now)
  {
    var m := svc.pgp.readCleartext(signature).value;
    var p := svc.parseJson(m.text).value;
    var s := p.sessionToken.value;
    assert p == Payload(Some(user.username), Some(AuthRequestTag), Some(s));
  }
}
