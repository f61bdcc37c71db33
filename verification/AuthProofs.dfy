/** What the session table keeps over every run of requests, and what revocation and logout guarantee. */
module AuthProofs {
  import opened Wrappers
  import opened AuthModel

  // ---------------------------------------------------------------- the invariant

  /**
    A session knows its lineage: a chain from a login, each link the redemption of the session before
    it, that ends in the session itself.
  */
  ghost predicate SoundPath(l: Ledger, jti: Jti)
    requires jti in l.sessions
  {
    && jti in l.ancestry
    && var path := l.ancestry[jti];
       && path != [] && path[|path| - 1] == jti
       && (forall i :: 0 <= i < |path| ==>
             path[i] in l.sessions && l.sessions[path[i]].userId == l.sessions[jti].userId)
       && (forall i :: 0 <= i < |path| - 1 ==> path[i] in l.redeemed)
       && (forall i :: 0 <= i < |path| ==> Lineage(l, path[i]) == path[..i + 1])
  }

  /** A refresh token has its session, with the same user and the same expiry. */
  ghost predicate SoundToken(l: Ledger, t: Token)
  {
    && t.Refresh?
    && t.jti in l.sessions
    && l.sessions[t.jti].userId == t.sub
    && l.sessions[t.jti].expiresAt / 1000 == t.exp
  }

  /** The login session at the top of the lineage. */
  function Root(l: Ledger, jti: Jti): Jti
  {
    var path := Lineage(l, jti);
    if path == [] then jti else path[0]
  }

  ghost predicate Paths(l: Ledger)
  {
    && l.ancestry.Keys == l.sessions.Keys
    && forall jti {:trigger SoundPath(l, jti)} :: jti in l.sessions ==> SoundPath(l, jti)
  }

  ghost predicate TokensMatch(l: Ledger)
  {
    forall t {:trigger SoundToken(l, t)} :: t in l.tokens ==> SoundToken(l, t)
  }

  /** Two live sessions never share a lineage. */
  ghost predicate OneLivePerLineage(l: Ledger)
  {
    forall i, j {:trigger Live(l, i), Live(l, j)} :: Live(l, i) && Live(l, j) && Root(l, i) == Root(l, j) ==> i == j
  }

  /** No jti is redeemed twice, and a redeemed session is revoked. */
  ghost predicate RedeemedOnce(l: Ledger)
  {
    && (forall i, j :: 0 <= i < j < |l.redeemed| ==> l.redeemed[i] != l.redeemed[j])
    && (forall i :: 0 <= i < |l.redeemed| ==> l.redeemed[i] in l.sessions && !Live(l, l.redeemed[i]))
  }

  ghost predicate LedgerInv(l: Ledger)
  {
    Paths(l) && TokensMatch(l) && OneLivePerLineage(l) && RedeemedOnce(l)
  }

  /** Access tokens are issued as such, each with its own jti. */
  ghost predicate AuthInv(s: State)
  {
    && LedgerInv(s.ledger)
    && UniqueEmails(s.users)
    && (forall t :: t in s.access ==> t.Access?)
    && (forall t, u :: t in s.access && u in s.access && t.jti == u.jti ==> t == u)
  }

  // ---------------------------------------------------------------- table operations

  /** The table after a revocation: the same rows, some live ones revoked. */
  ghost predicate Fewer(k: Ledger, l: Ledger)
  {
    && k.tokens == l.tokens && k.ancestry == l.ancestry && k.redeemed == l.redeemed
    && k.sessions.Keys == l.sessions.Keys
    && forall jti :: jti in l.sessions ==>
         k.sessions[jti] == l.sessions[jti] ||
         (&& l.sessions[jti].revokedAt.None?
          && k.sessions[jti] == l.sessions[jti].(revokedAt := k.sessions[jti].revokedAt))
  }

  lemma FewerKeepsPaths(k: Ledger, l: Ledger)
    requires LedgerInv(l) && Fewer(k, l)
    ensures Paths(k) && TokensMatch(k)
  {
    forall jti | jti in k.sessions
      ensures SoundPath(k, jti)
    {
      assert SoundPath(l, jti);
    }
    forall t | t in k.tokens
      ensures SoundToken(k, t)
    {
      assert SoundToken(l, t);
    }
  }

  lemma FewerKeepsInv(k: Ledger, l: Ledger)
    requires LedgerInv(l) && Fewer(k, l)
    ensures LedgerInv(k)
  {
    FewerKeepsPaths(k, l);
    forall i, j | Live(k, i) && Live(k, j) && Root(k, i) == Root(k, j)
      ensures i == j
    {
      assert Live(l, i) && Live(l, j) && Root(l, i) == Root(l, j);
    }
  }

  lemma RevokeIsFewer(l: Ledger, jti: Jti, ms: int)
    ensures Fewer(Revoke(l, jti, ms), l) && !Live(Revoke(l, jti, ms), jti)
  {
  }

  lemma RevokeAllIsFewer(l: Ledger, user: UserId, ms: int)
    ensures Fewer(RevokeAllOf(l, user, ms), l)
    ensures forall jti :: Live(RevokeAllOf(l, user, ms), jti) ==> Live(l, jti) && l.sessions[jti].userId != user
  {
  }

  /** A path for a new session: it alone, or the path of a redeemed session of the same user and it. */
  ghost predicate NewPath(l: Ledger, user: UserId, jti: Jti, path: seq<Jti>)
  {
    && path != [] && path[|path| - 1] == jti
    && (forall i :: 0 <= i < |path| - 1 ==>
          path[i] in l.sessions && l.sessions[path[i]].userId == user && path[i] in l.redeemed
          && path[i] in l.ancestry && l.ancestry[path[i]] == path[..i + 1])
  }

  lemma MillisThenSeconds(micros: int)
    ensures Millis(micros) / 1000 == Seconds(micros)
  {
  }

  lemma RecordKeepsPaths(l: Ledger, user: UserId, jti: Jti, now: int, path: seq<Jti>)
    requires Paths(l) && TokensMatch(l) && jti !in l.sessions && NewPath(l, user, jti, path)
    ensures Paths(Record(l, user, jti, now, path)) && TokensMatch(Record(l, user, jti, now, path))
  {
    var k := Record(l, user, jti, now, path);
    forall j | j in k.sessions
      ensures SoundPath(k, j)
    {
      if j != jti { assert SoundPath(l, j); }
    }
    forall t | t in k.tokens
      ensures SoundToken(k, t)
    {
      if t in l.tokens {
        assert SoundToken(l, t);
      } else {
        MillisThenSeconds(now + RefreshLifetime());
      }
    }
  }

  lemma RecordKeepsInv(l: Ledger, user: UserId, jti: Jti, now: int, path: seq<Jti>)
    requires LedgerInv(l) && jti !in l.sessions && NewPath(l, user, jti, path)
    requires forall j :: Live(l, j) ==> Root(l, j) != path[0]
    ensures LedgerInv(Record(l, user, jti, now, path))
  {
    var k := Record(l, user, jti, now, path);
    RecordKeepsPaths(l, user, jti, now, path);
    forall i, j | Live(k, i) && Live(k, j) && Root(k, i) == Root(k, j)
      ensures i == j
    {
      if i != jti && j != jti {
        assert Live(l, i) && Live(l, j) && Root(l, i) == Root(l, j);
      } else {
        assert i != jti ==> Live(l, i);
        assert j != jti ==> Live(l, j);
      }
    }
    forall i | 0 <= i < |k.redeemed|
      ensures k.redeemed[i] in k.sessions && !Live(k, k.redeemed[i])
    {
      assert l.redeemed[i] in l.sessions && !Live(l, l.redeemed[i]);
    }
  }

  lemma LiveIsUnredeemed(l: Ledger, jti: Jti)
    requires LedgerInv(l) && Live(l, jti)
    ensures jti !in l.redeemed
  {
  }

  lemma RedeemKeepsInv(l: Ledger, used: Jti, now: int)
    requires LedgerInv(l) && Live(l, used)
    ensures LedgerInv(Redeem(l, used, now))
    ensures forall j :: Live(Redeem(l, used, now), j) ==> Live(l, j) && j != used
  {
    var k := Revoke(l, used, Millis(now));
    RevokeIsFewer(l, used, Millis(now));
    FewerKeepsInv(k, l);
    LiveIsUnredeemed(l, used);
    var m := Redeem(l, used, now);
    forall jti | jti in m.sessions
      ensures SoundPath(m, jti)
    {
      assert SoundPath(k, jti);
    }
    forall t | t in m.tokens
      ensures SoundToken(m, t)
    {
      assert SoundToken(k, t);
    }
    forall i, j | Live(m, i) && Live(m, j) && Root(m, i) == Root(m, j)
      ensures i == j
    {
      assert Live(k, i) && Live(k, j) && Root(k, i) == Root(k, j);
    }
  }

  lemma RotateKeepsInv(l: Ledger, used: Jti, user: UserId, jti: Jti, now: int)
    requires LedgerInv(l) && Live(l, used) && l.sessions[used].userId == user && jti !in l.sessions
    ensures LedgerInv(Rotate(l, used, user, jti, now))
  {
    var k := Redeem(l, used, now);
    var path := Lineage(l, used) + [jti];
    RedeemKeepsInv(l, used, now);
    assert SoundPath(k, used);
    assert path[0] == Root(l, used);
    forall j | Live(k, j)
      ensures Root(k, j) != path[0]
    {
      assert Live(l, j) && Live(l, used);
    }
    RecordKeepsInv(k, user, jti, now, path);
  }

  lemma LoginKeepsInv(l: Ledger, user: UserId, jti: Jti, now: int)
    requires LedgerInv(l) && jti !in l.sessions
    ensures LedgerInv(Record(l, user, jti, now, [jti]))
  {
    forall j | Live(l, j)
      ensures Root(l, j) != jti
    {
      assert SoundPath(l, j);
    }
    RecordKeepsInv(l, user, jti, now, [jti]);
  }

  // ---------------------------------------------------------------- requests

  /** Requests that issue no refresh token only revoke. */
  lemma OthersOnlyRevoke(s: State, r: Request, now: int)
    requires !r.Login? && !r.RefreshTokens?
    ensures Fewer(Handle(s, r, now).0.ledger, s.ledger)
  {
    match r
    case Logout(_, refresh) =>
      if refresh.Some? { RevokeIsFewer(s.ledger, refresh.value.jti, Millis(now)); }
    case RevokeSession(_, jti) => RevokeIsFewer(s.ledger, jti, Millis(now));
    case RevokeAll(auth) => RevokeAllIsFewer(s.ledger, auth.sub, Millis(now));
    case ChangePassword(auth, _, _) => RevokeAllIsFewer(s.ledger, auth.sub, Millis(now));
    case _ =>
  }

  lemma HandleKeepsInv(s: State, r: Request, now: int)
    requires AuthInv(s) && Possible(s, r)
    ensures AuthInv(Handle(s, r, now).0)
  {
    var t := Handle(s, r, now).0;
    match r
    case Login(email, _, _, refreshJti) =>
      if UserWith(s.users, email).Some? {
        LoginKeepsInv(s.ledger, UserWith(s.users, email).value, refreshJti, now);
      }
    case RefreshTokens(token, _, refreshJti) =>
      if Redeemable(s, token, now) {
        assert SoundToken(s.ledger, token);
        RotateKeepsInv(s.ledger, token.jti, token.sub, refreshJti, now);
      }
    case _ =>
      OthersOnlyRevoke(s, r, now);
      FewerKeepsInv(t.ledger, s.ledger);
  }

  // ---------------------------------------------------------------- runs

  datatype Timed = Timed(request: Request, now: int)

  /** A run of requests at any clock readings; impossible requests do not occur. */
  ghost function Run(s: State, es: seq<Timed>): State
    decreases es
  {
    if es == [] then s
    else Run(if Possible(s, es[0].request) then Handle(s, es[0].request, es[0].now).0 else s, es[1..])
  }

  const INITIAL := State(map[], Ledger(map[], {}, map[], []), {}, map[])

  lemma {:induction false} RunKeepsInv(s: State, es: seq<Timed>)
    requires AuthInv(s)
    ensures AuthInv(Run(s, es))
    decreases es
  {
    if es != [] {
      if Possible(s, es[0].request) { HandleKeepsInv(s, es[0].request, es[0].now); }
      RunKeepsInv(if Possible(s, es[0].request) then Handle(s, es[0].request, es[0].now).0 else s, es[1..]);
    }
  }

  /** Over every run: one redemption per jti, one live session per lineage, the user of a session is its token's. */
  lemma LineagesAreSound(es: seq<Timed>)
    ensures var l := Run(INITIAL, es).ledger;
      && (forall i, j :: 0 <= i < j < |l.redeemed| ==> l.redeemed[i] != l.redeemed[j])
      && (forall i, j :: Live(l, i) && Live(l, j) && Root(l, i) == Root(l, j) ==> i == j)
      && (forall t :: t in l.tokens ==> t.jti in l.sessions && l.sessions[t.jti].userId == t.sub)
  {
    RunKeepsInv(INITIAL, es);
    var l := Run(INITIAL, es).ledger;
    forall t | t in l.tokens
      ensures t.jti in l.sessions && l.sessions[t.jti].userId == t.sub
    {
      assert SoundToken(l, t);
    }
  }

  // ---------------------------------------------------------------- revoked for good

  /** A request leaves revoked rows and the record of redemptions standing. */
  lemma HandleKeepsRevoked(s: State, r: Request, now: int, jti: Jti)
    requires AuthInv(s) && Possible(s, r)
    requires jti in s.ledger.sessions && s.ledger.sessions[jti].revokedAt.Some?
    ensures var l := Handle(s, r, now).0.ledger;
      jti in l.sessions && l.sessions[jti] == s.ledger.sessions[jti]
  {
  }

  /** Once set, `revoked_at` never changes again. */
  lemma {:induction false} RevokedForGood(s: State, es: seq<Timed>, jti: Jti)
    requires AuthInv(s)
    requires jti in s.ledger.sessions && s.ledger.sessions[jti].revokedAt.Some?
    ensures var l := Run(s, es).ledger;
      jti in l.sessions && l.sessions[jti] == s.ledger.sessions[jti]
    decreases es
  {
    if es != [] {
      var e := es[0];
      if Possible(s, e.request) {
        HandleKeepsInv(s, e.request, e.now);
        HandleKeepsRevoked(s, e.request, e.now, jti);
      }
      RevokedForGood(if Possible(s, e.request) then Handle(s, e.request, e.now).0 else s, es[1..], jti);
    }
  }

  /** A refresh redeems exactly its token; its successor continues the lineage. */
  lemma RefreshRotates(s: State, r: Request, now: int)
    requires AuthInv(s) && Possible(s, r) && r.RefreshTokens?
    ensures var (t, reply) := Handle(s, r, now);
      && (reply.Tokens? <==> Redeemable(s, r.token, now))
      && (reply.Tokens? ==>
            && t.ledger.redeemed == s.ledger.redeemed + [r.token.jti]
            && !Live(t.ledger, r.token.jti) && Live(t.ledger, r.refreshJti)
            && Lineage(t.ledger, r.refreshJti) == Lineage(s.ledger, r.token.jti) + [r.refreshJti]
            && reply.refresh.sub == r.token.sub)
      && (!reply.Tokens? ==> t == s)
  {
    if Redeemable(s, r.token, now) {
      assert SoundToken(s.ledger, r.token);
    }
  }

  /** The token that a refresh returns can be redeemed at once, and the one it took no more. */
  lemma SuccessorIsRedeemable(s: State, r: Request, now: int)
    requires AuthInv(s) && Possible(s, r) && r.RefreshTokens? && Handle(s, r, now).1.Tokens?
    ensures var (t, reply) := Handle(s, r, now);
      Redeemable(t, reply.refresh, now) && !Redeemable(t, r.token, now)
  {
    assert SoundToken(s.ledger, r.token);
  }

  /** A refresh token that was used once is refused ever after. */
  lemma UsedTokenIsRefused(s: State, r: Request, now: int, es: seq<Timed>, again: Request, later: int)
    requires AuthInv(s) && Possible(s, r) && r.RefreshTokens? && Handle(s, r, now).1.Tokens?
    requires again.RefreshTokens? && again.token == r.token
    ensures Handle(Run(Handle(s, r, now).0, es), again, later).1 == Unauthorized
  {
    var t := Handle(s, r, now).0;
    HandleKeepsInv(s, r, now);
    RefreshRotates(s, r, now);
    assert r.token.jti in t.ledger.sessions;
    RevokedForGood(t, es, r.token.jti);
  }

  // ---------------------------------------------------------------- cutting a user off

  /** Every live session of the user stems, link by link, from a login after the sessions in `before`. */
  ghost predicate CutOff(l: Ledger, user: UserId, before: set<Jti>)
  {
    && before <= l.sessions.Keys
    && forall jti {:trigger Live(l, jti)} :: Live(l, jti) && l.sessions[jti].userId == user ==>
         forall i :: 0 <= i < |Lineage(l, jti)| ==> Lineage(l, jti)[i] !in before
  }

  lemma FewerKeepsCutOff(k: Ledger, l: Ledger, user: UserId, before: set<Jti>)
    requires Fewer(k, l) && CutOff(l, user, before)
    ensures CutOff(k, user, before)
  {
    forall jti | Live(k, jti) && k.sessions[jti].userId == user
      ensures forall i :: 0 <= i < |Lineage(k, jti)| ==> Lineage(k, jti)[i] !in before
    {
      assert Live(l, jti) && Lineage(k, jti) == Lineage(l, jti);
    }
  }

  lemma RecordKeepsCutOff(l: Ledger, owner: UserId, jti: Jti, now: int, path: seq<Jti>, user: UserId, before: set<Jti>)
    requires CutOff(l, user, before) && jti !in l.sessions
    requires owner == user ==> forall i :: 0 <= i < |path| ==> path[i] !in before
    ensures CutOff(Record(l, owner, jti, now, path), user, before)
  {
    var k := Record(l, owner, jti, now, path);
    forall j | Live(k, j) && k.sessions[j].userId == user
      ensures forall i :: 0 <= i < |Lineage(k, j)| ==> Lineage(k, j)[i] !in before
    {
      if j != jti {
        assert Live(l, j) && Lineage(k, j) == Lineage(l, j);
      }
    }
  }

  lemma RotateKeepsCutOff(l: Ledger, used: Jti, jti: Jti, now: int, user: UserId, before: set<Jti>)
    requires CutOff(l, user, before) && Live(l, used) && jti !in l.sessions
    ensures CutOff(Rotate(l, used, l.sessions[used].userId, jti, now), user, before)
  {
    var owner, path := l.sessions[used].userId, Lineage(l, used) + [jti];
    var k := Revoke(l, used, Millis(now));
    RevokeIsFewer(l, used, Millis(now));
    FewerKeepsCutOff(k, l, user, before);
    var m := Redeem(l, used, now);
    forall j | Live(m, j) && m.sessions[j].userId == user
      ensures forall i :: 0 <= i < |Lineage(m, j)| ==> Lineage(m, j)[i] !in before
    {
      assert Live(k, j) && Lineage(m, j) == Lineage(k, j);
    }
    RecordKeepsCutOff(m, owner, jti, now, path, user, before);
  }

  lemma HandleKeepsCutOff(s: State, r: Request, now: int, user: UserId, before: set<Jti>)
    requires AuthInv(s) && Possible(s, r) && CutOff(s.ledger, user, before)
    ensures CutOff(Handle(s, r, now).0.ledger, user, before)
  {
    if r.RefreshTokens? {
      if Redeemable(s, r.token, now) {
        assert SoundToken(s.ledger, r.token);
        RotateKeepsCutOff(s.ledger, r.token.jti, r.refreshJti, now, user, before);
      }
    } else if r.Login? {
      var found := UserWith(s.users, r.email);
      if found.Some? {
        RecordKeepsCutOff(s.ledger, found.value, r.refreshJti, now, [r.refreshJti], user, before);
      }
    } else {
      OthersOnlyRevoke(s, r, now);
      FewerKeepsCutOff(Handle(s, r, now).0.ledger, s.ledger, user, before);
    }
  }

  lemma {:induction false} RunKeepsCutOff(s: State, es: seq<Timed>, user: UserId, before: set<Jti>)
    requires AuthInv(s) && CutOff(s.ledger, user, before)
    ensures AuthInv(Run(s, es)) && CutOff(Run(s, es).ledger, user, before)
    decreases es
  {
    if es != [] {
      var e := es[0];
      if Possible(s, e.request) {
        HandleKeepsInv(s, e.request, e.now);
        HandleKeepsCutOff(s, e.request, e.now, user, before);
      }
      RunKeepsCutOff(if Possible(s, e.request) then Handle(s, e.request, e.now).0 else s, es[1..], user, before);
    }
  }

  /**
    After a password change or revoke-all, every refresh that ever succeeds for the user descends,
    through any number of rotations, from a login that committed afterwards.
  */
  lemma RevocationEndsAllLineages(s: State, r: Request, now: int, es: seq<Timed>, token: Token, later: int)
    requires AuthInv(s) && Possible(s, r) && (r.RevokeAll? || r.ChangePassword?) && Handle(s, r, now).1.Done?
    requires token.sub == r.auth.sub
    requires Redeemable(Run(Handle(s, r, now).0, es), token, later)
    ensures var l := Run(Handle(s, r, now).0, es).ledger;
      var path := Lineage(l, token.jti);
      && path != [] && path[|path| - 1] == token.jti
      && Lineage(l, path[0]) == [path[0]]
      && (forall i :: 0 <= i < |path| ==> path[i] !in s.ledger.sessions)
  {
    var t := Handle(s, r, now).0;
    RevocationCutsOff(s, r, now);
    RunKeepsCutOff(t, es, r.auth.sub, s.ledger.sessions.Keys);
    RedeemableIsIssued(Run(t, es), token, later);
    LineageOfLive(Run(t, es).ledger, token, r.auth.sub, s.ledger.sessions.Keys);
  }

  lemma RevocationCutsOff(s: State, r: Request, now: int)
    requires AuthInv(s) && Possible(s, r) && (r.RevokeAll? || r.ChangePassword?) && Handle(s, r, now).1.Done?
    ensures var t := Handle(s, r, now).0;
      AuthInv(t) && CutOff(t.ledger, r.auth.sub, s.ledger.sessions.Keys)
  {
    HandleKeepsInv(s, r, now);
    RevokeAllIsFewer(s.ledger, r.auth.sub, Millis(now));
  }

  lemma RedeemableIsIssued(s: State, token: Token, now: int)
    requires AuthInv(s) && Redeemable(s, token, now)
    ensures token in s.ledger.tokens && Live(s.ledger, token.jti)
  {
  }

  lemma LineageOfLive(l: Ledger, token: Token, user: UserId, before: set<Jti>)
    requires LedgerInv(l) && CutOff(l, user, before)
    requires token in l.tokens && Live(l, token.jti) && token.sub == user
    ensures var path := Lineage(l, token.jti);
      && path != [] && path[|path| - 1] == token.jti
      && Lineage(l, path[0]) == [path[0]]
      && (forall i :: 0 <= i < |path| ==> path[i] !in before)
  {
    assert SoundToken(l, token);
    assert SoundPath(l, token.jti);
    var path := Lineage(l, token.jti);
    assert path[..1] == [path[0]];
  }

  // ---------------------------------------------------------------- logout

  /** The blocklist holds the token until it expires. */
  ghost predicate Silenced(s: State, token: Token)
  {
    token.jti in s.blocklist && s.blocklist[token.jti] >= token.exp * 1_000_000
  }

  lemma AcceptedIsAccessToken(s: State, token: Token, now: int)
    requires AuthInv(s)
    ensures Accepts(s, token, now) ==> token in s.access
  {
    assert token in s.ledger.tokens ==> SoundToken(s.ledger, token);
  }

  lemma SilencedIsRejected(s: State, token: Token, now: int)
    requires Silenced(s, token)
    ensures !Accepts(s, token, now)
  {
  }

  lemma HandleKeepsSilence(s: State, r: Request, now: int, token: Token)
    requires AuthInv(s) && Possible(s, r) && token in s.access && Silenced(s, token)
    ensures token in Handle(s, r, now).0.access && Silenced(Handle(s, r, now).0, token)
  {
    SilencedIsRejected(s, token, now);
    if r.Logout? {
      AcceptedIsAccessToken(s, r.auth, now);
    }
  }

  /** Once logged out, an access token is rejected in every later state, at every instant. */
  lemma {:induction false} LoggedOutForGood(s: State, es: seq<Timed>, token: Token, instant: int)
    requires AuthInv(s) && token in s.access && Silenced(s, token)
    ensures !Accepts(Run(s, es), token, instant)
    decreases es
  {
    if es == [] {
      SilencedIsRejected(s, token, instant);
    } else {
      var e := es[0];
      if Possible(s, e.request) {
        HandleKeepsInv(s, e.request, e.now);
        HandleKeepsSilence(s, e.request, e.now, token);
      }
      LoggedOutForGood(if Possible(s, e.request) then Handle(s, e.request, e.now).0 else s, es[1..], token, instant);
    }
  }

  lemma LogoutEndsTheToken(s: State, r: Request, now: int, es: seq<Timed>, instant: int)
    requires AuthInv(s) && Possible(s, r) && r.Logout? && Handle(s, r, now).1.Done?
    ensures !Accepts(Run(Handle(s, r, now).0, es), r.auth, instant)
  {
    var t := Handle(s, r, now).0;
    HandleKeepsInv(s, r, now);
    AcceptedIsAccessToken(s, r.auth, now);
    assert Silenced(t, r.auth);
    LoggedOutForGood(t, es, r.auth, instant);
  }

  // ---------------------------------------------------------------- expiry and listing

  /** The database check of refresh never refuses a token that its `exp` claim still admits. */
  lemma ExpiryChecksAgree(s: State, token: Token, now: int)
    requires AuthInv(s) && token.Refresh? && Decodes(s, token, now)
    ensures token.jti in s.ledger.sessions && s.ledger.sessions[token.jti].expiresAt > Millis(now)
  {
    assert SoundToken(s.ledger, token);
  }

  /**
    A refresh token is accepted exactly if it decodes, its user is active, and its session is in the
    user's list at that instant.
  */
  lemma AcceptedIsListed(s: State, token: Token, now: int)
    requires AuthInv(s) && token in s.ledger.tokens
    ensures Redeemable(s, token, now) <==>
      && token.exp * 1_000_000 > now
      && token.jti in ListSessions(s, token.sub, now)
      && token.sub in s.users && s.users[token.sub].active
  {
    assert SoundToken(s.ledger, token);
    if token.exp * 1_000_000 > now {
      ExpiryChecksAgree(s, token, now);
    }
  }

  /** Such a session exists: log in half a second past a full second, and read within the last half second. */
  lemma ListedAfterExpiry(user: User)
    requires user.active
    ensures var es := [Timed(PutUser("u", user), 0), Timed(Login(user.email, user.password, "a", "r"), 500_000)];
      var s := Run(INITIAL, es);
      var token := CreateRefreshToken("u", "r", 500_000).0;
      var now := token.exp * 1_000_000 + 100_000;
      && token in s.ledger.tokens
      && "r" in ListSessions(s, "u", now)
      && !Redeemable(s, token, now)
  {
    var put, login := PutUser("u", user), Login(user.email, user.password, "a", "r");
    var es := [Timed(put, 0), Timed(login, 500_000)];
    var s1 := Handle(INITIAL, put, 0).0;
    assert s1.users == map["u" := user];
    assert s1.users["u"].email == user.email;
    assert UserWith(s1.users, user.email) == Some("u");
    var s2 := Handle(s1, login, 500_000).0;
    assert es[1..] == [Timed(login, 500_000)] && es[1..][1..] == [];
    assert Possible(INITIAL, put) && Possible(s1, login);
    assert Run(INITIAL, es) == Run(s1, es[1..]) == Run(s2, []) == s2;
  }

  /** A listed session that refresh refuses is in the last second before its expiry. */
  lemma ListedButExpired(s: State, token: Token, now: int)
    requires AuthInv(s) && token in s.ledger.tokens && token.jti in ListSessions(s, token.sub, now)
    requires !(token.exp * 1_000_000 > now)
    ensures s.ledger.sessions[token.jti].expiresAt - 1000 < Millis(now) < s.ledger.sessions[token.jti].expiresAt
  {
    assert SoundToken(s.ledger, token);
  }

  // ---------------------------------------------------------------- isolation

  /** A request made with a user's token leaves the sessions of all other users as they are. */
  lemma SessionsStayWithTheirUser(s: State, r: Request, now: int, jti: Jti)
    requires AuthInv(s) && Possible(s, r) && !r.Login? && !r.RefreshTokens? && !r.PutUser?
    requires jti in s.ledger.sessions && s.ledger.sessions[jti].userId != r.auth.sub
    ensures var l := Handle(s, r, now).0.ledger;
      jti in l.sessions && l.sessions[jti] == s.ledger.sessions[jti]
  {
    if r.Logout? && r.refresh.Some? && Decodes(s, r.refresh.value, now) && r.refresh.value.Refresh? {
      assert SoundToken(s.ledger, r.refresh.value);
    }
  }
}
