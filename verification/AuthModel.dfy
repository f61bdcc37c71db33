/**
  Access tokens, refresh tokens and the refresh-session table: login, refresh with rotation, logout,
  revocation and password change, each as one transaction (src/api/users, src/core/sessions.py,
  src/core/security.py, src/api/security/dependencies.py).

  Clocks are integers in microseconds. Tokens cannot be forged: a token decodes only if it was issued.
  A jti is a uuid4 value and never repeats.
*/
module AuthModel {
  import opened Wrappers

  type UserId = string
  type Jti = string

  const ACCESS_TOKEN_EXPIRE_MINUTES := 60
  const REFRESH_TOKEN_EXPIRE_DAYS := 30

  function AccessLifetime(): int { ACCESS_TOKEN_EXPIRE_MINUTES * 60 * 1_000_000 }

  function RefreshLifetime(): int { REFRESH_TOKEN_EXPIRE_DAYS * 86_400 * 1_000_000 }

  /** `int(t)` of a clock reading. */
  function Seconds(micros: int): int { micros / 1_000_000 }

  /** `int(t * 1000)` of a clock reading. */
  function Millis(micros: int): int { micros / 1_000 }

  // The `exp` claim is in whole seconds.
  datatype Token =
    | Access(jti: Jti, sub: UserId, exp: int)
    | Refresh(jti: Jti, sub: UserId, exp: int)

  datatype User = User(email: string, password: string, active: bool)

  // A row of refresh_sessions; its times are in milliseconds.
  datatype Session = Session(userId: UserId, createdAt: int, expiresAt: int, revokedAt: Option<int>)

  // The session table, and as history: the refresh tokens handed out, for each session the jtis from
  // the login that started its lineage down to itself, and the jtis redeemed, in order.
  datatype Ledger = Ledger(
    sessions: map<Jti, Session>, tokens: set<Token>, ancestry: map<Jti, seq<Jti>>, redeemed: seq<Jti>)

  // `blocklist` maps a jti to the instant at which its Redis entry expires.
  datatype State = State(users: map<UserId, User>, ledger: Ledger, access: set<Token>, blocklist: map<Jti, int>)

  datatype Request =
    | Login(email: string, password: string, accessJti: Jti, refreshJti: Jti)
    | RefreshTokens(token: Token, accessJti: Jti, refreshJti: Jti)
    | Logout(auth: Token, refresh: Option<Token>)
    | RevokeSession(auth: Token, jti: Jti)
    | RevokeAll(auth: Token)
    | ChangePassword(auth: Token, current: string, replacement: string)
    | PutUser(who: UserId, user: User)

  datatype Reply = Tokens(access: Token, refresh: Token) | Done | Unauthorized | Forbidden | NotFound

  // ---------------------------------------------------------------- tokens

  function CreateAccessToken(user: UserId, jti: Jti, now: int): Token
  {
    Access(jti, user, Seconds(now + AccessLifetime()))
  }

  function CreateRefreshToken(user: UserId, jti: Jti, now: int): (Token, int)
  {
    var expiresAt := now + RefreshLifetime();
    (Refresh(jti, user, Seconds(expiresAt)), expiresAt)
  }

  /** decode_access_token: the signature is ours and `exp` lies in the future (RFC 7519, section 4.1.4). */
  predicate Decodes(s: State, token: Token, now: int)
  {
    (token in s.access || token in s.ledger.tokens) && token.exp * 1_000_000 > now
  }

  predicate Blocked(s: State, jti: Jti, now: int)
  {
    jti in s.blocklist && now < s.blocklist[jti]
  }

  /** get_current_user. */
  predicate Accepts(s: State, token: Token, now: int)
  {
    && Decodes(s, token, now)
    && token.Access?
    && !Blocked(s, token.jti, now)
    && token.sub in s.users && s.users[token.sub].active
  }

  // ---------------------------------------------------------------- the session table

  predicate Live(l: Ledger, jti: Jti)
  {
    jti in l.sessions && l.sessions[jti].revokedAt.None?
  }

  /** revoke_refresh_session. */
  function Revoke(l: Ledger, jti: Jti, ms: int): Ledger
  {
    if Live(l, jti) then l.(sessions := l.sessions[jti := l.sessions[jti].(revokedAt := Some(ms))]) else l
  }

  /** revoke_all_refresh_sessions. */
  function RevokeAllOf(l: Ledger, user: UserId, ms: int): Ledger
  {
    l.(sessions := map jti | jti in l.sessions ::
         var row := l.sessions[jti];
         if row.userId == user && row.revokedAt.None? then row.(revokedAt := Some(ms)) else row)
  }

  /** record_refresh_session for a token just created. */
  function Record(l: Ledger, user: UserId, jti: Jti, now: int, path: seq<Jti>): Ledger
  {
    var (token, expiresAt) := CreateRefreshToken(user, jti, now);
    l.(sessions := l.sessions[jti := Session(user, Millis(now), Millis(expiresAt), None)],
       tokens := l.tokens + {token},
       ancestry := l.ancestry[jti := path])
  }

  /** The jtis from the login that a session goes back to, down to the session. */
  function Lineage(l: Ledger, jti: Jti): seq<Jti>
  {
    if jti in l.ancestry then l.ancestry[jti] else [jti]
  }

  /** Revokes a redeemed session and records its successor in the same lineage. */
  function Rotate(l: Ledger, used: Jti, user: UserId, jti: Jti, now: int): Ledger
  {
    Record(Redeem(l, used, now), user, jti, now, Lineage(l, used) + [jti])
  }

  function Redeem(l: Ledger, used: Jti, now: int): Ledger
  {
    Revoke(l, used, Millis(now)).(redeemed := l.redeemed + [used])
  }

  // ---------------------------------------------------------------- transitions

  /** The checks of refresh. */
  predicate Redeemable(s: State, token: Token, now: int)
  {
    && Decodes(s, token, now)
    && token.Refresh?
    && Live(s.ledger, token.jti) && !(s.ledger.sessions[token.jti].expiresAt < Millis(now))
    && token.sub in s.users && s.users[token.sub].active
  }

  /**
    What the world allows: ids that a request draws are new, and the users table has a unique index on
    the email.
  */
  ghost predicate Possible(s: State, r: Request)
  {
    && (r.PutUser? ==> UniqueEmails(s.users[r.who := r.user]))
    && (r.Login? || r.RefreshTokens? ==>
      && r.refreshJti !in s.ledger.sessions && r.refreshJti !in s.ledger.ancestry
      && r.accessJti !in s.blocklist
      && (forall t :: t in s.access ==> t.jti != r.accessJti))
  }

  /** No two users have the same email. */
  ghost predicate UniqueEmails(users: map<UserId, User>)
  {
    forall a, b :: a in users && b in users && users[a].email == users[b].email ==> a == b
  }

  /** The user that a query by email finds. */
  ghost function UserWith(users: map<UserId, User>, email: string): (r: Option<UserId>)
    ensures r.Some? ==> r.value in users && users[r.value].email == email
    ensures r.None? ==> forall who :: who in users ==> users[who].email != email
  {
    if exists who :: who in users && users[who].email == email then
      var who :| who in users && users[who].email == email; Some(who)
    else None
  }

  function Authenticate(s: State, l: Ledger, user: UserId, r: Request, now: int): (State, Reply)
    requires r.Login? || r.RefreshTokens?
  {
    var access := CreateAccessToken(user, r.accessJti, now);
    (s.(ledger := l, access := s.access + {access}), Tokens(access, CreateRefreshToken(user, r.refreshJti, now).0))
  }

  ghost function Handle(s: State, r: Request, now: int): (State, Reply)
  {
    match r
    case Login(email, password, _, refreshJti) =>
      var found := UserWith(s.users, email);
      if found.None? || s.users[found.value].password != password then (s, Unauthorized)
      else if !s.users[found.value].active then (s, Forbidden)
      else Authenticate(s, Record(s.ledger, found.value, refreshJti, now, [refreshJti]), found.value, r, now)
    case RefreshTokens(token, _, refreshJti) =>
      if !Redeemable(s, token, now) then (s, Unauthorized)
      else Authenticate(s, Rotate(s.ledger, token.jti, token.sub, refreshJti, now), token.sub, r, now)
    case Logout(auth, refresh) =>
      if !Accepts(s, auth, now) then (s, Unauthorized)
      else
        var blocked := s.(blocklist := s.blocklist[auth.jti := now + LogoutTtl(auth.exp, now) * 1_000_000]);
        if refresh.Some? && Decodes(s, refresh.value, now) && refresh.value.Refresh? && refresh.value.sub == auth.sub
        then (blocked.(ledger := Revoke(s.ledger, refresh.value.jti, Millis(now))), Done)
        else (blocked, Done)
    case RevokeSession(auth, jti) =>
      if !Accepts(s, auth, now) then (s, Unauthorized)
      else if jti !in s.ledger.sessions || s.ledger.sessions[jti].userId != auth.sub then (s, NotFound)
      else (s.(ledger := Revoke(s.ledger, jti, Millis(now))), Done)
    case RevokeAll(auth) =>
      if !Accepts(s, auth, now) then (s, Unauthorized)
      else (s.(ledger := RevokeAllOf(s.ledger, auth.sub, Millis(now))), Done)
    case ChangePassword(auth, current, replacement) =>
      if !Accepts(s, auth, now) || s.users[auth.sub].password != current then (s, Unauthorized)
      else
        var user := s.users[auth.sub].(password := replacement);
        (s.(users := s.users[auth.sub := user], ledger := RevokeAllOf(s.ledger, auth.sub, Millis(now))), Done)
    case PutUser(who, user) => (s.(users := s.users[who := user]), Done)
  }

  /** The life of a blocklist entry in seconds. */
  function LogoutTtl(exp: int, now: int): (ttl: int)
    ensures ttl >= 1
    ensures now + ttl * 1_000_000 >= exp * 1_000_000
  {
    if exp - Seconds(now) > 1 then exp - Seconds(now) else 1
  }

  /** list_sessions, as the set of jtis it shows. */
  function ListSessions(s: State, user: UserId, now: int): set<Jti>
  {
    set jti | jti in s.ledger.sessions && s.ledger.sessions[jti].userId == user
              && s.ledger.sessions[jti].revokedAt.None? && s.ledger.sessions[jti].expiresAt > Millis(now)
  }
}
