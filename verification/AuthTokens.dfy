/**
 Sessions and the tokens that stand for them: issue, validate, refresh and revoke, over a clock that each operation
 reads anew. Serialisation and signing are parameters of which only the inverse and the alphabet are used.
 */
module AuthTokens {
  import opened Common

  /** Instants and durations, in nanoseconds. */
  const SECOND: int := 1_000_000_000
  const TOKEN_LIFE: int := 8 * 3600 * SECOND

  datatype Claims = Claims(sub: string, uid: nat, role: string, crews: seq<string>, sessionId: string,
                           iat: int, exp: int, scope: seq<string>)

  datatype AuthError = BadFormat | BadSignature | BadPayload | TokenExpired | TokenRevoked | InvalidSession
                     | SessionExpired | SessionNotFound | UnknownIdentity | InvalidCredential

  /** Claims to base64url text and back, and the signature under the store's secret. */
  datatype Codec = Codec(encode: Claims -> string, decode: string -> Option<Claims>, sign: string -> string)

  ghost predicate Lawful(k: Codec) {
    forall c :: k.decode(k.encode(c)) == Some(c) && '.' !in k.encode(c)
  }

  // Tokens.

  function BeforeDot(s: string): string {
    if s == [] || s[0] == '.' then [] else [s[0]] + BeforeDot(s[1..])
  }

  function Issue(k: Codec, c: Claims): string {
    k.encode(c) + "." + k.sign(k.encode(c))
  }

  function ValidateToken(k: Codec, token: string, now: int): Result<Claims, AuthError> {
    var payload := BeforeDot(token);
    if '.' !in token then Err(BadFormat)
    else if !(payload + "." <= token) || token[|payload| + 1..] != k.sign(payload) then Err(BadSignature)
    else
      match k.decode(payload)
      case None => Err(BadPayload)
      case Some(c) => if c.exp < now then Err(TokenExpired) else Ok(c)
  }

  lemma {:induction false} BeforeDotOf(p: string, rest: string)
    requires '.' !in p
    ensures BeforeDot(p + "." + rest) == p
  {
    if p == [] {
      assert (p + "." + rest)[0] == '.';
    } else {
      assert (p + "." + rest)[1..] == p[1..] + "." + rest;
      BeforeDotOf(p[1..], rest);
    }
  }

  lemma {:induction false} DotEndsPayload(token: string)
    requires '.' in token
    ensures BeforeDot(token) + "." <= token && '.' !in BeforeDot(token)
  {
    if token[0] != '.' {
      DotEndsPayload(token[1..]);
      var p := BeforeDot(token[1..]);
      assert token == [token[0]] + token[1..];
      assert BeforeDot(token) + "." == [token[0]] + (p + ".");
    }
  }

  /** A token validates exactly when it is a payload with its own signature that decodes to unexpired claims. */
  lemma ValidatesIff(k: Codec, token: string, now: int, c: Claims)
    ensures ValidateToken(k, token, now) == Ok(c) <==>
      exists p: string :: '.' !in p && token == p + "." + k.sign(p) && k.decode(p) == Some(c) && now <= c.exp
  {
    if ValidateToken(k, token, now) == Ok(c) {
      var p := BeforeDot(token);
      DotEndsPayload(token);
      assert token == p + "." + token[|p| + 1..];
    }
    if p: string :| '.' !in p && token == p + "." + k.sign(p) && k.decode(p) == Some(c) && now <= c.exp {
      BeforeDotOf(p, k.sign(p));
      assert token[|p|] == '.';
      assert token[|p| + 1..] == k.sign(p);
      assert (p + ".") <= token by { assert token[..|p| + 1] == p + "."; }
    }
  }

  /** Issuing then validating gives the claims back until they expire. */
  lemma IssueThenValidate(k: Codec, c: Claims, now: int)
    requires Lawful(k)
    ensures ValidateToken(k, Issue(k, c), now) == if c.exp < now then Err(TokenExpired) else Ok(c)
  {
    var p := k.encode(c);
    BeforeDotOf(p, k.sign(p));
    var token := Issue(k, c);
    assert token[|p|] == '.';
    assert token[|p| + 1..] == k.sign(p);
    assert (p + ".") <= token by { assert token[..|p| + 1] == p + "."; }
  }

  /** Which error a text that does not validate gets: no dot, a wrong signature, an unreadable payload, or an expiry
      that has passed, in this order. */
  lemma ValidationErrors(k: Codec, token: string, now: int)
    ensures ValidateToken(k, token, now) == Err(BadFormat) <==> '.' !in token
    ensures forall p: string, sig: string :: '.' !in p && token == p + "." + sig ==>
      && (ValidateToken(k, token, now) == Err(BadSignature) <==> sig != k.sign(p))
      && (ValidateToken(k, token, now) == Err(BadPayload) <==> sig == k.sign(p) && k.decode(p).None?)
      && (ValidateToken(k, token, now) == Err(TokenExpired) <==>
            sig == k.sign(p) && k.decode(p).Some? && k.decode(p).value.exp < now)
  {
    forall p: string, sig: string | '.' !in p && token == p + "." + sig
      ensures BeforeDot(token) == p && p + "." <= token && token[|p| + 1..] == sig && '.' in token
    {
      BeforeDotOf(p, sig);
      assert token[|p|] == '.' && token[..|p| + 1] == p + ".";
    }
  }

  function StoreValidate(k: Codec, revoked: set<string>, token: string, now: int): Result<Claims, AuthError> {
    match ValidateToken(k, token, now)
    case Err(e) => Err(e)
    case Ok(c) => if c.sessionId in revoked then Err(TokenRevoked) else Ok(c)
  }

  // Sessions.

  datatype Session = Session(id: string, identity: string, uid: nat, role: string, crews: seq<string>,
                             scope: seq<string>, connectedAt: int, ttl: nat)

  /** A clock before the connection counts as no time elapsed. */
  predicate Expired(s: Session, now: int) {
    var elapsed := if now < s.connectedAt then 0 else now - s.connectedAt;
    elapsed > s.ttl
  }

  function ValidateSession(sessions: map<string, Session>, id: string, now: int): Result<Session, AuthError> {
    if id !in sessions then Err(InvalidSession)
    else if Expired(sessions[id], now) then Err(SessionExpired)
    else Ok(sessions[id])
  }

  /** What one refresh meets: the two stores, and the clock as read by the token check, the session check and the
      reissue. */
  datatype Moment = Moment(sessions: map<string, Session>, revoked: set<string>, tokenRead: int, sessionRead: int,
                           issueRead: int)

  function Renew(c: Claims, now: int): Claims {
    c.(iat := now, exp := now + TOKEN_LIFE)
  }

  function Refresh(k: Codec, token: string, m: Moment): Result<(string, Claims), AuthError> {
    match StoreValidate(k, m.revoked, token, m.tokenRead)
    case Err(e) => Err(e)
    case Ok(c) =>
      match ValidateSession(m.sessions, c.sessionId, m.sessionRead)
      case Err(e) => Err(e)
      case Ok(_) => Ok((Issue(k, Renew(c, m.issueRead)), Renew(c, m.issueRead)))
  }

  /** Exactly when a token can be refreshed, and what comes of it. */
  lemma RefreshIff(k: Codec, c: Claims, m: Moment)
    requires Lawful(k)
    ensures Refresh(k, Issue(k, c), m).Ok? <==>
      && m.tokenRead <= c.exp && c.sessionId !in m.revoked && c.sessionId in m.sessions
      && m.sessionRead <= m.sessions[c.sessionId].connectedAt + m.sessions[c.sessionId].ttl
    ensures Refresh(k, Issue(k, c), m).Ok? ==>
      Refresh(k, Issue(k, c), m).value == (Issue(k, Renew(c, m.issueRead)), Renew(c, m.issueRead))
  {
    IssueThenValidate(k, c, m.tokenRead);
  }

  /** Which error stops a refresh: the token's own, a revoked session id, an unknown session, or one whose time is
      up. */
  lemma RefreshErrors(k: Codec, c: Claims, m: Moment)
    requires Lawful(k)
    ensures var r := Refresh(k, Issue(k, c), m);
      && (r == Err(TokenExpired) <==> c.exp < m.tokenRead)
      && (r == Err(TokenRevoked) <==> c.exp >= m.tokenRead && c.sessionId in m.revoked)
      && (r == Err(InvalidSession) <==>
            c.exp >= m.tokenRead && c.sessionId !in m.revoked && c.sessionId !in m.sessions)
      && (r == Err(SessionExpired) <==>
            && c.exp >= m.tokenRead && c.sessionId !in m.revoked && c.sessionId in m.sessions
            && m.sessionRead > m.sessions[c.sessionId].connectedAt + m.sessions[c.sessionId].ttl)
  {
    IssueThenValidate(k, c, m.tokenRead);
  }

  /** Refreshing again and again, each time with the token just received. */
  function Chain(k: Codec, token: string, c: Claims, moments: seq<Moment>): Result<(string, Claims), AuthError>
    decreases |moments|
  {
    if moments == [] then Ok((token, c))
    else
      match Refresh(k, token, moments[0])
      case Err(e) => Err(e)
      case Ok((next, claims)) => Chain(k, next, claims, moments[1..])
  }

  /** However long the chain, only the issue and expiry times differ from the first token's claims. */
  lemma {:induction false} ChainKeepsIdentity(k: Codec, c: Claims, moments: seq<Moment>)
    requires Lawful(k) && Chain(k, Issue(k, c), c, moments).Ok?
    ensures var (token, last) := Chain(k, Issue(k, c), c, moments).value;
      && token == Issue(k, last)
      && last == if moments == [] then c
                 else
                   var now := moments[|moments| - 1].issueRead;
                   Claims(c.sub, c.uid, c.role, c.crews, c.sessionId, now, now + 8 * 3600 * SECOND, c.scope)
    decreases |moments|
  {
    if moments != [] {
      var m := moments[0];
      RefreshIff(k, c, m);
      ChainKeepsIdentity(k, Renew(c, m.issueRead), moments[1..]);
    }
  }

  /** Every refresh of the chain found the session id alive: not revoked, not removed, and within its time to live. */
  lemma {:induction false} ChainNeedsLiveSession(k: Codec, c: Claims, moments: seq<Moment>, i: nat)
    requires Lawful(k) && Chain(k, Issue(k, c), c, moments).Ok? && i < |moments|
    ensures var m := moments[i];
      && c.sessionId !in m.revoked && c.sessionId in m.sessions
      && m.sessionRead <= m.sessions[c.sessionId].connectedAt + m.sessions[c.sessionId].ttl
    decreases |moments|
  {
    var m := moments[0];
    RefreshIff(k, c, m);
    if i > 0 {
      ChainNeedsLiveSession(k, Renew(c, m.issueRead), moments[1..], i - 1);
    }
  }

  /** The expiry of a refreshed token stays within eight hours of the session's end exactly when the session check would
      still pass at the clock read for the reissue; the check that was made read an earlier clock. */
  lemma {:induction false} RefreshedExpiryBound(k: Codec, c: Claims, moments: seq<Moment>, token: string,
                                                claims: Claims)
    requires Lawful(k) && moments != [] && Chain(k, Issue(k, c), c, moments) == Ok((token, claims))
    ensures var m := moments[|moments| - 1];
      && c.sessionId in m.sessions
      && var session := m.sessions[c.sessionId];
         var end := session.connectedAt + session.ttl;
         && (claims.exp <= end + TOKEN_LIFE <==> !Expired(session, m.issueRead))
         && claims.exp <= end + TOKEN_LIFE + (m.issueRead - m.sessionRead)
  {
    ChainKeepsIdentity(k, c, moments);
    ChainNeedsLiveSession(k, c, moments, |moments| - 1);
  }

  /** The bound does fail: a session that ends between the two reads still yields a token, which lives longer. */
  lemma ExpiryBoundCanFail(k: Codec, c: Claims, s: Session, late: nat)
    requires Lawful(k) && late > 0 && s.id == c.sessionId && c.exp >= s.connectedAt + s.ttl
    ensures var end := s.connectedAt + s.ttl;
      var m := Moment(map[s.id := s], {}, end, end, end + late);
      && Refresh(k, Issue(k, c), m).Ok?
      && Refresh(k, Issue(k, c), m).value.1.exp == end + TOKEN_LIFE + late
  {
    var end := s.connectedAt + s.ttl;
    RefreshIff(k, c, Moment(map[s.id := s], {}, end, end, end + late));
  }

  // Histories of the two stores.

  datatype Op =
    | Login(session: Session)
    | RevokeSession(id: string)
    | RevokeToken(id: string)

  function SessionsAfter(ops: seq<Op>): map<string, Session> {
    if ops == [] then map[]
    else
      var before, op := SessionsAfter(ops[..|ops| - 1]), ops[|ops| - 1];
      match op
      case Login(s) => before[s.id := s]
      case RevokeSession(id) => before - {id}
      case RevokeToken(_) => before
  }

  function RevokedAfter(ops: seq<Op>): set<string> {
    if ops == [] then {}
    else
      var before, op := RevokedAfter(ops[..|ops| - 1]), ops[|ops| - 1];
      if op.RevokeToken? then before + {op.id} else before
  }

  lemma {:induction false} RevokedIsExact(ops: seq<Op>, id: string)
    ensures id in RevokedAfter(ops) <==> RevokeToken(id) in ops
  {
    if ops != [] {
      var before := ops[..|ops| - 1];
      RevokedIsExact(before, id);
      assert ops == before + [ops[|ops| - 1]];
    }
  }

  ghost predicate LoggedInAt(ops: seq<Op>, i: int, id: string) {
    && 0 <= i < |ops| && ops[i].Login? && ops[i].session.id == id
    && forall j :: i < j < |ops| ==> ops[j] != RevokeSession(id)
  }

  /** A session is known exactly from its login to its removal. */
  lemma {:induction false} SessionsAreExact(ops: seq<Op>, id: string)
    ensures id in SessionsAfter(ops) <==> exists i :: LoggedInAt(ops, i, id)
    decreases |ops|
  {
    if ops != [] {
      var n := |ops| - 1;
      var before := ops[..n];
      SessionsAreExact(before, id);
      assert forall i :: 0 <= i < n ==> before[i] == ops[i];
      if i :| LoggedInAt(ops, i, id) {
        if i < n { assert LoggedInAt(before, i, id); }
      }
      if ops[n].Login? && ops[n].session.id == id {
        assert LoggedInAt(ops, n, id);
      } else if ops[n] != RevokeSession(id) && id in SessionsAfter(before) {
        var i :| LoggedInAt(before, i, id);
        assert LoggedInAt(ops, i, id);
      }
    }
  }

  /** Once a session id is revoked in the token store, no later history lets any text validate or refresh as that
      session. */
  lemma RevokedForever(k: Codec, ops: seq<Op>, later: seq<Op>, id: string, token: string, m: Moment, now: int)
    requires RevokeToken(id) in ops && m.revoked == RevokedAfter(ops + later)
    ensures var r := StoreValidate(k, m.revoked, token, now); r.Ok? ==> r.value.sessionId != id
    ensures var r := Refresh(k, token, m); r.Ok? ==> r.value.1.sessionId != id
  {
    RevokedIsExact(ops + later, id);
  }

  /** Removing only the session stops refreshes but not validation: until it expires, the token still passes the
      store. */
  lemma RemovedSessionStillValidates(k: Codec, c: Claims, ops: seq<Op>, m: Moment)
    requires Lawful(k) && ops != [] && ops[|ops| - 1] == RevokeSession(c.sessionId) && RevokeToken(c.sessionId) !in ops
    requires m.sessions == SessionsAfter(ops) && m.revoked == RevokedAfter(ops)
    ensures StoreValidate(k, m.revoked, Issue(k, c), m.tokenRead)
      == if c.exp < m.tokenRead then Err(TokenExpired) else Ok(c)
    ensures Refresh(k, Issue(k, c), m).Err?
  {
    RevokedIsExact(ops, c.sessionId);
    IssueThenValidate(k, c, m.tokenRead);
    RefreshIff(k, c, m);
  }

  // The two stores as objects.

  datatype Identity = Identity(name: string, uid: nat, role: string)

  const DEFAULT_SCOPE: seq<string> := ["proc", "signal", "fs", "snap", "cron"]

  /** The claims of the first token of a session, as the login handler makes them. */
  function FirstClaims(s: Session, now: int): Claims {
    Claims(s.identity, s.uid, s.role, s.crews, s.id, now, now + TOKEN_LIFE, s.scope)
  }

  /** From login through any number of refreshes a token speaks for the session's own identity, role, crews and
      scope. */
  lemma {:induction false} TokensSpeakForTheirSession(k: Codec, s: Session, loginRead: int, moments: seq<Moment>,
                                                      token: string, claims: Claims)
    requires Lawful(k) && Chain(k, Issue(k, FirstClaims(s, loginRead)), FirstClaims(s, loginRead), moments)
      == Ok((token, claims))
    ensures claims.sub == s.identity && claims.uid == s.uid && claims.role == s.role && claims.crews == s.crews
      && claims.scope == s.scope && claims.sessionId == s.id
    ensures claims.iat == if moments == [] then loginRead else moments[|moments| - 1].issueRead
    ensures claims.exp == claims.iat + 8 * 3600 * SECOND
    ensures forall now :: ValidateToken(k, token, now) == if claims.exp < now then Err(TokenExpired) else Ok(claims)
  {
    ChainKeepsIdentity(k, FirstClaims(s, loginRead), moments);
    forall now ensures ValidateToken(k, token, now) == if claims.exp < now then Err(TokenExpired) else Ok(claims) {
      IssueThenValidate(k, claims, now);
    }
  }

  class TokenStore {
    const codec: Codec
    var revoked: set<string>
    ghost var ops: seq<Op>

    ghost predicate Valid()
      reads this
    {
      revoked == RevokedAfter(ops)
    }

    constructor (codec: Codec)
      ensures Valid() && this.codec == codec && revoked == {} && ops == []
    {
      this.codec, revoked, ops := codec, {}, [];
    }

    method Validate(token: string, now: int) returns (r: Result<Claims, AuthError>)
      requires Valid()
      ensures r == StoreValidate(codec, revoked, token, now)
      ensures r.Ok? ==> RevokeToken(r.value.sessionId) !in ops && now <= r.value.exp
    {
      r := ValidateToken(codec, token, now);
      if r.Ok? {
        RevokedIsExact(ops, r.value.sessionId);
        if r.value.sessionId in revoked {
          r := Err(TokenRevoked);
        }
      }
    }

    method Revoke(id: string)
      requires Valid()
      modifies this
      ensures Valid() && ops == old(ops) + [RevokeToken(id)] && revoked == old(revoked) + {id}
    {
      ops := ops + [RevokeToken(id)];
      assert ops[..|ops| - 1] == old(ops);
      revoked := revoked + {id};
    }
  }

  class AuthService {
    const identities: seq<Identity>
    const ttl: nat
    var sessions: map<string, Session>
    ghost var ops: seq<Op>

    ghost predicate Valid()
      reads this
    {
      sessions == SessionsAfter(ops)
    }

    constructor (identities: seq<Identity>, ttl: nat)
      ensures Valid() && this.identities == identities && this.ttl == ttl && ops == []
    {
      this.identities, this.ttl := identities, ttl;
      sessions, ops := map[], [];
    }

    /** No identity before this one has the name. */
    ghost predicate IsFirst(i: nat, name: string) {
      && i < |identities| && identities[i].name == name
      && forall j :: 0 <= j < i ==> identities[j].name != name
    }

    /** The first configured identity of that name decides; `accepts` is the credential check, `uuid` the new session
        id. */
    method Login(name: string, accepts: Identity -> bool, uuid: string, now: int)
      returns (r: Result<Session, AuthError>)
      requires Valid()
      modifies this
      ensures Valid()
      ensures r == Err(UnknownIdentity) <==> forall i :: 0 <= i < |identities| ==> identities[i].name != name
      ensures forall i :: 0 <= i < |identities| && IsFirst(i, name) ==>
        if accepts(identities[i])
        then r == Ok(Session(uuid, name, identities[i].uid, identities[i].role, [],
                             ["proc", "signal", "fs", "snap", "cron"], now, ttl))
        else r == Err(InvalidCredential)
      ensures r.Err? ==> ops == old(ops) && sessions == old(sessions)
      ensures r.Ok? ==>
        && (exists i ::
              && 0 <= i < |identities| && identities[i] == Identity(name, r.value.uid, r.value.role)
              && accepts(identities[i])
              && forall j :: 0 <= j < i ==> identities[j].name != name)
        && r.value == Session(uuid, name, r.value.uid, r.value.role, [], DEFAULT_SCOPE, now, ttl)
        && ops == old(ops) + [Op.Login(r.value)] && sessions == old(sessions)[uuid := r.value]
    {
      var i := 0;
      while i < |identities| && identities[i].name != name
        invariant 0 <= i <= |identities|
        invariant forall j :: 0 <= j < i ==> identities[j].name != name
      {
        i := i + 1;
      }
      if i == |identities| {
        return Err(UnknownIdentity);
      }
      var found := identities[i];
      assert forall k :: 0 <= k < |identities| && IsFirst(k, name) ==> k == i;
      if !accepts(found) {
        return Err(InvalidCredential);
      }
      var s := Session(uuid, found.name, found.uid, found.role, [], DEFAULT_SCOPE, now, ttl);
      sessions := sessions[uuid := s];
      ops := ops + [Op.Login(s)];
      assert ops[..|ops| - 1] == old(ops);
      r := Ok(s);
    }

    method RevokeSession(id: string) returns (r: Result<(), AuthError>)
      requires Valid()
      modifies this
      ensures Valid() && ops == old(ops) + [Op.RevokeSession(id)] && sessions == old(sessions) - {id}
      ensures r == if id in old(sessions) then Ok(()) else Err(SessionNotFound)
    {
      r := if id in sessions then Ok(()) else Err(SessionNotFound);
      sessions := sessions - {id};
      ops := ops + [Op.RevokeSession(id)];
      assert ops[..|ops| - 1] == old(ops);
    }

    /** The clock is read once by each of the three stages. */
    method RefreshToken(token: string, store: TokenStore, tokenRead: int, sessionRead: int, issueRead: int)
      returns (r: Result<(string, Claims), AuthError>)
      requires Valid() && store.Valid()
      ensures r == Refresh(store.codec, token, Moment(sessions, store.revoked, tokenRead, sessionRead, issueRead))
      ensures r.Ok? ==> RevokeToken(r.value.1.sessionId) !in store.ops && r.value.1.sessionId in sessions
    {
      var claims := store.Validate(token, tokenRead);
      if claims.Err? {
        return Err(claims.error);
      }
      var session := ValidateSession(sessions, claims.value.sessionId, sessionRead);
      if session.Err? {
        return Err(session.error);
      }
      var renewed := claims.value.(iat := issueRead, exp := issueRead + TOKEN_LIFE);
      r := Ok((Issue(store.codec, renewed), renewed));
    }
  }
}
