/**
  The session-table writers of src/core/sessions.py and the handlers that use them, over the tables
  they update. `now` is the clock reading of the request, in microseconds; jtis are fresh uuid4 values.
*/
module AuthService {
  import opened Wrappers
  import opened AuthModel
  import opened AuthProofs
  import opened AuthAnswers

  class Service {
    var users: map<UserId, User>
    var sessions: map<Jti, Session>
    var blocklist: map<Jti, int>
    // The tokens signed so far: what a signature check recognises.
    var access: set<Token>
    var refresh: set<Token>
    ghost var ancestry: map<Jti, seq<Jti>>
    ghost var redeemed: seq<Jti>

    constructor ()
      ensures State() == INITIAL && Valid()
    {
      users, sessions, blocklist, access, refresh := map[], map[], map[], {}, {};
      ancestry, redeemed := map[], [];
    }

    ghost function Table(): Ledger
      reads this
    {
      Ledger(sessions, refresh, ancestry, redeemed)
    }

    ghost function State(): AuthModel.State
      reads this
    {
      AuthModel.State(users, Table(), access, blocklist)
    }

    ghost predicate Valid()
      reads this
    {
      AuthInv(State())
    }

    // -------------------------------------------------------------- table writers

    method RecordRefreshSession(user: UserId, jti: Jti, token: Token, expiresAt: int, now: int, ghost path: seq<Jti>)
      requires (token, expiresAt) == CreateRefreshToken(user, jti, now)
      modifies this`sessions, this`refresh, this`ancestry
      ensures Table() == Record(old(Table()), user, jti, now, path)
      ensures sessions == old(sessions)[jti := Session(user, now / 1000, expiresAt / 1000, None)]
    {
      sessions := sessions[jti := Session(user, Millis(now), Millis(expiresAt), None)];
      refresh := refresh + {token};
      ancestry := ancestry[jti := path];
    }

    method RevokeRefreshSession(jti: Jti, now: int)
      modifies this`sessions
      ensures Table() == Revoke(old(Table()), jti, Millis(now))
      ensures jti in sessions ==> sessions[jti].revokedAt.Some?
      ensures jti in old(sessions) && old(sessions)[jti].revokedAt.None? ==>
        sessions == old(sessions)[jti := old(sessions)[jti].(revokedAt := Some(now / 1000))]
      ensures jti !in old(sessions) || old(sessions)[jti].revokedAt.Some? ==> sessions == old(sessions)
    {
      if jti in sessions {
        var session := sessions[jti];
        if session.revokedAt.None? {
          sessions := sessions[jti := session.(revokedAt := Some(Millis(now)))];
        }
      }
    }

    method RevokeAllRefreshSessions(user: UserId, now: int)
      modifies this`sessions
      ensures Table() == RevokeAllOf(old(Table()), user, Millis(now))
      ensures forall jti :: jti in sessions && sessions[jti].userId == user ==> sessions[jti].revokedAt.Some?
    {
      sessions := map jti | jti in sessions ::
        var row := sessions[jti];
        if row.userId == user && row.revokedAt.None? then row.(revokedAt := Some(Millis(now))) else row;
    }

    // -------------------------------------------------------------- checks

    method Decode(token: Token, now: int) returns (valid: bool)
      ensures valid <==> Decodes(State(), token, now)
    {
      valid := (token in access || token in refresh) && token.exp * 1_000_000 > now;
    }

    method GetCurrentUser(token: Token, now: int) returns (user: Option<UserId>)
      ensures user == if Accepts(State(), token, now) then Some(token.sub) else None
      ensures Valid() ==> user == if SignedIn(State(), token, now) then Some(token.sub) else None
    {
      if Valid() { AcceptsSignedIn(State(), token, now); }
      var valid := Decode(token, now);
      if !valid || !token.Access? {
        return None;
      }
      if token.jti in blocklist && now < blocklist[token.jti] {
        return None;
      }
      if token.sub !in users || !users[token.sub].active {
        return None;
      }
      user := Some(token.sub);
    }

    // -------------------------------------------------------------- handlers

    method PutUser(who: UserId, user: User)
      requires Valid() && Possible(State(), Request.PutUser(who, user))
      modifies this`users
      ensures Valid() && State() == Handle(old(State()), Request.PutUser(who, user), 0).0
      ensures users == old(users)[who := user]
    {
      users := users[who := user];
    }

    /** The query by email, which is unique. */
    method FindUser(email: string) returns (found: Option<UserId>)
      requires UniqueEmails(users)
      ensures found == UserWith(users, email)
    {
      if exists who :: who in users && users[who].email == email {
        var who :| who in users && users[who].email == email;
        found := Some(who);
      } else {
        found := None;
      }
    }

    /** Signs two tokens and records the session of the second one. */
    method Issue(who: UserId, accessJti: Jti, refreshJti: Jti, now: int, ghost path: seq<Jti>) returns (reply: Reply)
      modifies this`access, this`sessions, this`refresh, this`ancestry
      ensures reply == Tokens(CreateAccessToken(who, accessJti, now), CreateRefreshToken(who, refreshJti, now).0)
      ensures access == old(access) + {reply.access}
      ensures Table() == Record(old(Table()), who, refreshJti, now, path)
    {
      var accessToken := CreateAccessToken(who, accessJti, now);
      var (refreshToken, expiresAt) := CreateRefreshToken(who, refreshJti, now);
      access := access + {accessToken};
      RecordRefreshSession(who, refreshJti, refreshToken, expiresAt, now, path);
      reply := Tokens(accessToken, refreshToken);
    }

    method Login(email: string, password: string, accessJti: Jti, refreshJti: Jti, now: int) returns (reply: Reply)
      requires Valid() && Possible(State(), Request.Login(email, password, accessJti, refreshJti))
      modifies this
      ensures Valid()
      ensures (State(), reply) == Handle(old(State()), Request.Login(email, password, accessJti, refreshJti), now)
      ensures LoginAnswer(old(State()), email, password, accessJti, refreshJti, now, State(), reply)
      ensures reply.Tokens? ==> Redeemable(State(), reply.refresh, now) && Lineage(Table(), refreshJti) == [refreshJti]
      ensures reply.Tokens? ==> reply.refresh.sub in users && users[reply.refresh.sub].email == email
    {
      HandleKeepsInv(State(), Request.Login(email, password, accessJti, refreshJti), now);
      LoginAnswers(State(), email, password, accessJti, refreshJti, now);
      var found := FindUser(email);
      if found.None? || users[found.value].password != password {
        return Unauthorized;
      }
      var who := found.value;
      if !users[who].active {
        return Forbidden;
      }
      reply := Issue(who, accessJti, refreshJti, now, [refreshJti]);
    }

    /** The checks of a refresh. */
    method CheckRefresh(token: Token, now: int) returns (valid: bool)
      ensures valid <==> Redeemable(State(), token, now)
    {
      var decoded := Decode(token, now);
      if !decoded || !token.Refresh? {
        return false;
      }
      if token.jti !in sessions {
        return false;
      }
      var session := sessions[token.jti];
      if session.revokedAt.Some? || session.expiresAt < Millis(now) {
        return false;
      }
      valid := token.sub in users && users[token.sub].active;
    }

    method Refresh(token: Token, accessJti: Jti, refreshJti: Jti, now: int) returns (reply: Reply)
      requires Valid() && Possible(State(), RefreshTokens(token, accessJti, refreshJti))
      modifies this
      ensures Valid()
      ensures (State(), reply) == Handle(old(State()), RefreshTokens(token, accessJti, refreshJti), now)
      ensures RefreshAnswer(old(State()), token, accessJti, refreshJti, now, State(), reply)
      ensures reply.Tokens? ==> Redeemable(State(), reply.refresh, now) && !Redeemable(State(), token, now)
    {
      HandleKeepsInv(State(), RefreshTokens(token, accessJti, refreshJti), now);
      RefreshAnswers(State(), token, accessJti, refreshJti, now);
      var valid := CheckRefresh(token, now);
      if !valid {
        return Unauthorized;
      }
      ghost var path := Lineage(Table(), token.jti) + [refreshJti];
      RevokeRefreshSession(token.jti, now);
      redeemed := redeemed + [token.jti];
      reply := Issue(token.sub, accessJti, refreshJti, now, path);
      SuccessorIsRedeemable(old(State()), RefreshTokens(token, accessJti, refreshJti), now);
    }

    method Logout(auth: Token, refreshToken: Option<Token>, now: int) returns (reply: Reply)
      requires Valid()
      modifies this
      ensures Valid()
      ensures (State(), reply) == Handle(old(State()), Request.Logout(auth, refreshToken), now)
      ensures LogoutAnswer(old(State()), auth, refreshToken, now, State(), reply)
      ensures reply.Done? ==> forall instant :: !Accepts(State(), auth, instant)
    {
      HandleKeepsInv(State(), Request.Logout(auth, refreshToken), now);
      LogoutAnswers(State(), auth, refreshToken, now);
      var user := GetCurrentUser(auth, now);
      if user.None? {
        return Unauthorized;
      }
      var ttl := auth.exp - Seconds(now);
      if ttl < 1 { ttl := 1; }
      assert ttl == LogoutTtl(auth.exp, now);
      var own := false;
      if refreshToken.Some? {
        var valid := Decode(refreshToken.value, now);
        own := valid && refreshToken.value.Refresh? && refreshToken.value.sub == user.value;
      }
      blocklist := blocklist[auth.jti := now + ttl * 1_000_000];
      if own {
        RevokeRefreshSession(refreshToken.value.jti, now);
      }
      forall instant
        ensures !Accepts(State(), auth, instant)
      {
        SilencedIsRejected(State(), auth, instant);
      }
      reply := Done;
    }

    method RevokeSession(auth: Token, jti: Jti, now: int) returns (reply: Reply)
      requires Valid()
      modifies this
      ensures Valid()
      ensures (State(), reply) == Handle(old(State()), Request.RevokeSession(auth, jti), now)
      ensures RevokeAnswer(old(State()), auth, jti, now, State(), reply)
      ensures reply.Done? ==> jti in sessions && sessions[jti].userId == auth.sub && sessions[jti].revokedAt.Some?
    {
      HandleKeepsInv(State(), Request.RevokeSession(auth, jti), now);
      RevokeAnswers(State(), auth, jti, now);
      var user := GetCurrentUser(auth, now);
      if user.None? {
        return Unauthorized;
      }
      if jti !in sessions || sessions[jti].userId != user.value {
        return NotFound;
      }
      if sessions[jti].revokedAt.None? {
        sessions := sessions[jti := sessions[jti].(revokedAt := Some(Millis(now)))];
      }
      reply := Done;
    }

    method RevokeAllSessions(auth: Token, now: int) returns (reply: Reply)
      requires Valid()
      modifies this
      ensures Valid()
      ensures (State(), reply) == Handle(old(State()), RevokeAll(auth), now)
      ensures RevokeAllAnswer(old(State()), auth, now, State(), reply)
      ensures reply.Done? ==> ListSessions(State(), auth.sub, now) == {}
    {
      HandleKeepsInv(State(), RevokeAll(auth), now);
      RevokeAllAnswers(State(), auth, now);
      var user := GetCurrentUser(auth, now);
      if user.None? {
        return Unauthorized;
      }
      RevokeAllRefreshSessions(user.value, now);
      reply := Done;
    }

    method ChangePassword(auth: Token, current: string, replacement: string, now: int) returns (reply: Reply)
      requires Valid()
      modifies this
      ensures Valid()
      ensures (State(), reply) == Handle(old(State()), Request.ChangePassword(auth, current, replacement), now)
      ensures PasswordAnswer(old(State()), auth, current, replacement, now, State(), reply)
      ensures reply.Done? ==> users[auth.sub].password == replacement && ListSessions(State(), auth.sub, now) == {}
    {
      HandleKeepsInv(State(), Request.ChangePassword(auth, current, replacement), now);
      PasswordAnswers(State(), auth, current, replacement, now);
      var user := GetCurrentUser(auth, now);
      if user.None? || users[user.value].password != current {
        return Unauthorized;
      }
      users := users[user.value := users[user.value].(password := replacement)];
      RevokeAllRefreshSessions(user.value, now);
      reply := Done;
    }
  }
}
