/**
  What each request answers and what it leaves in the tables, said of the tables themselves: who gets
  tokens and which, who is refused, what is revoked, and that nothing else changes.
*/
module AuthAnswers {
  import opened Wrappers
  import opened AuthModel
  import opened AuthProofs

  /** The bearer of an access token that was issued, has not expired, is not blocked, and whose user is active. */
  ghost predicate SignedIn(s: State, auth: Token, now: int)
  {
    && auth in s.access && now < auth.exp * 1_000_000
    && !(auth.jti in s.blocklist && now < s.blocklist[auth.jti])
    && ActiveUser(s, auth.sub)
  }

  ghost predicate ActiveUser(s: State, who: UserId)
  {
    who in s.users && s.users[who].active
  }

  /** A refresh token that was issued and has not expired. */
  ghost predicate Unexpired(s: State, token: Token, now: int)
  {
    token in s.ledger.tokens && now < token.exp * 1_000_000
  }

  /** The rows named, where live, are revoked at the instant; all other rows are as before. */
  ghost predicate OnlyRevoked(s: State, t: State, which: set<Jti>, now: int)
  {
    && t.ledger.sessions.Keys == s.ledger.sessions.Keys
    && forall jti :: jti in s.ledger.sessions ==>
         t.ledger.sessions[jti] ==
           if jti in which && s.ledger.sessions[jti].revokedAt.None?
           then s.ledger.sessions[jti].(revokedAt := Some(now / 1000)) else s.ledger.sessions[jti]
  }

  ghost predicate SameTokens(s: State, t: State)
  {
    t.access == s.access && t.ledger.tokens == s.ledger.tokens
  }

  /** A user gets two new tokens, for one hour and thirty days, and a row for the latter; no user or block changes. */
  ghost predicate Issued(s: State, t: State, who: UserId, accessJti: Jti, refreshJti: Jti, now: int, reply: Reply)
  {
    var hour, month := 60 * 60 * 1_000_000, 30 * 24 * 60 * 60 * 1_000_000;
    && reply.Tokens?
    && reply.access == Access(accessJti, who, (now + hour) / 1_000_000)
    && reply.refresh == Refresh(refreshJti, who, (now + month) / 1_000_000)
    && t.access == s.access + {reply.access} && t.ledger.tokens == s.ledger.tokens + {reply.refresh}
    && refreshJti !in s.ledger.sessions && t.ledger.sessions.Keys == s.ledger.sessions.Keys + {refreshJti}
    && t.ledger.sessions[refreshJti] == Session(who, now / 1000, (now + month) / 1000, None)
    && t.users == s.users && t.blocklist == s.blocklist
  }

  // ---------------------------------------------------------------- login

  ghost predicate LoginAnswer(s: State, email: string, password: string, accessJti: Jti, refreshJti: Jti, now: int,
                              t: State, reply: Reply)
  {
    && (reply.Tokens? <==> exists who :: who in s.users && s.users[who] == User(email, password, true))
    && (reply == Forbidden <==> exists who :: who in s.users && s.users[who] == User(email, password, false))
    && (reply.Tokens? || reply == Forbidden || reply == Unauthorized)
    && (!reply.Tokens? ==> t == s)
    && (reply.Tokens? ==>
          var who := reply.refresh.sub;
          && who in s.users && s.users[who] == User(email, password, true)
          && Issued(s, t, who, accessJti, refreshJti, now, reply)
          && forall jti :: jti in s.ledger.sessions ==> t.ledger.sessions[jti] == s.ledger.sessions[jti])
  }

  /**
    A login succeeds exactly for an active user with this email and exactly this password, is forbidden
    to an inactive one with this password, and is unauthorized otherwise; a refusal changes nothing.
  */
  lemma LoginAnswers(s: State, email: string, password: string, accessJti: Jti, refreshJti: Jti, now: int)
    requires AuthInv(s) && Possible(s, Login(email, password, accessJti, refreshJti))
    ensures var (t, reply) := Handle(s, Login(email, password, accessJti, refreshJti), now);
      LoginAnswer(s, email, password, accessJti, refreshJti, now, t, reply)
  {
    var found := UserWith(s.users, email);
    if found.Some? {
      var user := s.users[found.value];
      assert user == User(email, user.password, user.active);
      assert forall who :: who in s.users && s.users[who].email == email ==> who == found.value;
    }
  }

  // ---------------------------------------------------------------- refresh

  ghost predicate RefreshAnswer(s: State, token: Token, accessJti: Jti, refreshJti: Jti, now: int,
                                t: State, reply: Reply)
  {
    && (reply.Tokens? <==>
          && Unexpired(s, token, now)
          && token.jti in s.ledger.sessions && s.ledger.sessions[token.jti].revokedAt.None?
          && ActiveUser(s, token.sub))
    && (!reply.Tokens? ==> reply == Unauthorized && t == s)
    && (reply.Tokens? ==>
          && Issued(s, t, token.sub, accessJti, refreshJti, now, reply)
          && forall jti :: jti in s.ledger.sessions ==>
               t.ledger.sessions[jti] ==
                 if jti == token.jti then s.ledger.sessions[jti].(revokedAt := Some(now / 1000))
                 else s.ledger.sessions[jti])
  }

  /** A refresh succeeds exactly with an unexpired token of an active user whose session is not revoked. */
  lemma RefreshAnswers(s: State, token: Token, accessJti: Jti, refreshJti: Jti, now: int)
    requires AuthInv(s) && Possible(s, RefreshTokens(token, accessJti, refreshJti))
    ensures var (t, reply) := Handle(s, RefreshTokens(token, accessJti, refreshJti), now);
      RefreshAnswer(s, token, accessJti, refreshJti, now, t, reply)
  {
    if token in s.ledger.tokens {
      assert SoundToken(s.ledger, token);
      if Decodes(s, token, now) { ExpiryChecksAgree(s, token, now); }
    } else {
      assert token in s.access ==> token.Access?;
    }
  }

  /** The access token just issued is accepted exactly until it expires, as long as its user stays active. */
  lemma NewAccessTokenIsAccepted(s: State, r: Request, now: int, instant: int)
    requires AuthInv(s) && Possible(s, r) && (r.Login? || r.RefreshTokens?) && Handle(s, r, now).1.Tokens?
    ensures var (t, reply) := Handle(s, r, now);
      && SignedIn(t, reply.access, instant) == Accepts(t, reply.access, instant)
      && (Accepts(t, reply.access, instant) <==> instant < (now + 60 * 60 * 1_000_000) / 1_000_000 * 1_000_000)
  {
    if r.Login? {
      LoginAnswers(s, r.email, r.password, r.accessJti, r.refreshJti, now);
    } else {
      RefreshAnswers(s, r.token, r.accessJti, r.refreshJti, now);
    }
  }

  lemma AcceptsSignedIn(s: State, auth: Token, now: int)
    requires AuthInv(s)
    ensures Accepts(s, auth, now) <==> SignedIn(s, auth, now)
  {
    AcceptedIsAccessToken(s, auth, now);
  }

  // ---------------------------------------------------------------- logout

  /** The refresh token sent along is one's own and still good. */
  ghost predicate Own(s: State, auth: Token, refresh: Option<Token>, now: int)
  {
    refresh.Some? && Unexpired(s, refresh.value, now) && refresh.value.sub == auth.sub
  }

  ghost predicate LogoutAnswer(s: State, auth: Token, refresh: Option<Token>, now: int, t: State, reply: Reply)
  {
    && reply == (if SignedIn(s, auth, now) then Done else Unauthorized)
    && (reply == Unauthorized ==> t == s)
    && (reply == Done ==>
          var left := auth.exp - now / 1_000_000;
          && t.users == s.users && SameTokens(s, t)
          && t.blocklist == s.blocklist[auth.jti := now + (if left > 1 then left else 1) * 1_000_000]
          && OnlyRevoked(s, t, if Own(s, auth, refresh, now) then {refresh.value.jti} else {}, now)
          && (Own(s, auth, refresh, now) ==> forall instant :: !Redeemable(t, refresh.value, instant)))
  }

  /** A logout blocks the access token for the rest of its life and revokes the session of one's own refresh token. */
  lemma LogoutAnswers(s: State, auth: Token, refresh: Option<Token>, now: int)
    requires AuthInv(s)
    ensures var (t, reply) := Handle(s, Logout(auth, refresh), now);
      LogoutAnswer(s, auth, refresh, now, t, reply)
  {
    AcceptsSignedIn(s, auth, now);
    if refresh.Some? {
      RefreshTokenIsIssued(s, refresh.value, now);
      if Own(s, auth, refresh, now) { assert SoundToken(s.ledger, refresh.value); }
    }
  }

  lemma RefreshTokenIsIssued(s: State, token: Token, now: int)
    requires AuthInv(s)
    ensures Decodes(s, token, now) && token.Refresh? <==> Unexpired(s, token, now)
  {
    if token in s.ledger.tokens { assert SoundToken(s.ledger, token); }
  }

  // ---------------------------------------------------------------- revocation

  ghost predicate RevokeAnswer(s: State, auth: Token, jti: Jti, now: int, t: State, reply: Reply)
  {
    && reply == (if !SignedIn(s, auth, now) then Unauthorized
                 else if jti in s.ledger.sessions && s.ledger.sessions[jti].userId == auth.sub then Done else NotFound)
    && (reply != Done ==> t == s)
    && (reply == Done ==>
          && t.users == s.users && SameTokens(s, t) && t.blocklist == s.blocklist
          && OnlyRevoked(s, t, {jti}, now))
  }

  /** Revoking a session takes exactly that one session of one's own. */
  lemma RevokeAnswers(s: State, auth: Token, jti: Jti, now: int)
    requires AuthInv(s)
    ensures var (t, reply) := Handle(s, RevokeSession(auth, jti), now); RevokeAnswer(s, auth, jti, now, t, reply)
  {
    AcceptsSignedIn(s, auth, now);
  }

  ghost function SessionsOf(s: State, who: UserId): set<Jti>
  {
    set jti | jti in s.ledger.sessions && s.ledger.sessions[jti].userId == who
  }

  ghost predicate RevokeAllAnswer(s: State, auth: Token, now: int, t: State, reply: Reply)
  {
    && reply == (if SignedIn(s, auth, now) then Done else Unauthorized)
    && (reply == Unauthorized ==> t == s)
    && (reply == Done ==>
          && t.users == s.users && SameTokens(s, t) && t.blocklist == s.blocklist
          && OnlyRevoked(s, t, SessionsOf(s, auth.sub), now))
  }

  lemma RevokeAllAnswers(s: State, auth: Token, now: int)
    requires AuthInv(s)
    ensures var (t, reply) := Handle(s, RevokeAll(auth), now); RevokeAllAnswer(s, auth, now, t, reply)
  {
    AcceptsSignedIn(s, auth, now);
  }

  ghost predicate PasswordAnswer(s: State, auth: Token, current: string, replacement: string, now: int,
                                 t: State, reply: Reply)
  {
    && reply == (if SignedIn(s, auth, now) && s.users[auth.sub].password == current then Done else Unauthorized)
    && (reply == Unauthorized ==> t == s)
    && (reply == Done ==>
          && t.users == s.users[auth.sub := s.users[auth.sub].(password := replacement)]
          && SameTokens(s, t) && t.blocklist == s.blocklist
          && OnlyRevoked(s, t, SessionsOf(s, auth.sub), now))
  }

  /** A password changes exactly for a bearer who gives the current one, and then ends all sessions of that user. */
  lemma PasswordAnswers(s: State, auth: Token, current: string, replacement: string, now: int)
    requires AuthInv(s)
    ensures var (t, reply) := Handle(s, ChangePassword(auth, current, replacement), now);
      PasswordAnswer(s, auth, current, replacement, now, t, reply)
  {
    AcceptsSignedIn(s, auth, now);
  }
}
