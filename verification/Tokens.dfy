/**
 The life of access and refresh tokens over a clock and an expiring blocklist: login and refresh
 mint tokens, logout blocks one, and every authenticated request is checked against both.
 Times are seconds as reals; the `exp` claim (section 4.1.4 of RFC 7519) is a whole number.
 */
module Tokens {
  import opened Prelude

  datatype Settings = Settings(accessMinutes: int, refreshDays: int) {
    function AccessTtl(): int { 60 * accessMinutes }
    function RefreshTtl(): int { 86400 * refreshDays }
  }

  datatype Kind = Access | Refresh

  /** A signed token's claims; `jti` (section 4.1.7 of RFC 7519) is unique to it. */
  datatype Token = Token(sub: string, roles: seq<string>, kind: Kind, jti: nat, exp: int)

  datatype Login = Login(time: real, sub: string, roles: seq<string>)

  /** `issued` holds the tokens that carry a valid signature; `blocklist` maps a jti to the last
      instant of its entry.  `logins` and `origin` are history: the logins so far, and the one that each
      jti goes back to. */
  datatype State = State(
    now: real, nextJti: nat, issued: set<Token>, blocklist: map<nat, real>,
    logins: seq<Login>, origin: map<nat, nat>)

  datatype Event =
    | Elapse(seconds: real)
    | LogIn(sub: string, roles: seq<string>)   // with the right password, to an active account
    | RefreshWith(token: Token)
    | Request(token: Token)
    | LogOut(token: Token)

  // ---------------------------------------------------------------- checks

  /** PyJWT's check: the signature is good and exp is still ahead. */
  predicate Decodes(s: State, t: Token) {
    t in s.issued && s.now < t.exp as real
  }

  predicate Blocked(s: State, jti: nat) {
    jti in s.blocklist && s.now <= s.blocklist[jti]
  }

  datatype Verdict = Invalid | Revoked | WrongKind | Accepted

  /** The middleware on an authenticated path. */
  function Check(s: State, t: Token): Verdict {
    if !Decodes(s, t) then Invalid
    else if Blocked(s, t.jti) then Revoked
    else if t.kind != Access then WrongKind
    else Accepted
  }

  /** The refresh endpoint, which looks at the kind first. */
  function CheckRefresh(s: State, t: Token): Verdict {
    if !Decodes(s, t) then Invalid
    else if t.kind != Refresh then WrongKind
    else if Blocked(s, t.jti) then Revoked
    else Accepted
  }

  // ---------------------------------------------------------------- effects

  /** The exp claim of a token minted at `now`: fractions of a second are dropped. */
  function Expiry(now: real, ttl: int): int {
    (now + ttl as real).Floor
  }

  function Ttl(cfg: Settings, kind: Kind): int {
    if kind == Access then cfg.AccessTtl() else cfg.RefreshTtl()
  }

  function NewToken(cfg: Settings, s: State, sub: string, roles: seq<string>, kind: Kind): Token {
    Token(sub, roles, kind, s.nextJti, Expiry(s.now, Ttl(cfg, kind)))
  }

  function OriginOf(s: State, t: Token): nat {
    if t.jti in s.origin then s.origin[t.jti] else 0
  }

  function Mint(cfg: Settings, s: State, sub: string, roles: seq<string>, kind: Kind, login: nat): State {
    var t := NewToken(cfg, s, sub, roles, kind);
    s.(nextJti := s.nextJti + 1, issued := s.issued + {t}, origin := s.origin[t.jti := login])
  }

  /** Python's int(): truncation toward zero. */
  function Truncated(x: real): int {
    if x >= 0.0 then x.Floor else -((-x).Floor)
  }

  /** How many seconds a logout at `now` blocks a token: the truncated rest of its life, but
      never less than one. */
  function BlockSeconds(exp: int, now: real): int {
    var rest := Truncated(exp as real - now);
    var ttl := if rest > 0 then rest else 0;
    if ttl == 0 then 1 else ttl
  }

  function Apply(cfg: Settings, s: State, ev: Event): State {
    match ev
    case Elapse(d) => if d >= 0.0 then s.(now := s.now + d) else s
    case LogIn(sub, roles) =>
      var n := |s.logins|;
      var s1 := s.(logins := s.logins + [Login(s.now, sub, roles)]);
      Mint(cfg, Mint(cfg, s1, sub, roles, Access, n), sub, roles, Refresh, n)
    case RefreshWith(t) =>
      if CheckRefresh(s, t) == Accepted
      then Mint(cfg, s, t.sub, t.roles, Access, OriginOf(s, t)) else s
    case Request(t) => s
    case LogOut(t) =>
      if Check(s, t) == Accepted
      then s.(blocklist := s.blocklist[t.jti := s.now + BlockSeconds(t.exp, s.now) as real]) else s
  }

  function Init(now: real): State {
    State(now, 0, {}, map[], [], map[])
  }

  function Run(cfg: Settings, s: State, evs: seq<Event>): State {
    if evs == [] then s else Apply(cfg, Run(cfg, s, Front(evs)), Last(evs))
  }

  ghost predicate Reachable(cfg: Settings, s: State) {
    exists t0: real, evs: seq<Event> :: s == Run(cfg, Init(t0), evs)
  }

  // ---------------------------------------------------------------- the invariant

  function NonNegative(n: int): int {
    if n < 0 then 0 else n
  }

  /** The time before which a token that goes back to a login at `time` expires. */
  function LatestExpiry(cfg: Settings, time: real, kind: Kind): real {
    if kind == Refresh then time + cfg.RefreshTtl() as real
    else time + NonNegative(cfg.RefreshTtl()) as real + cfg.AccessTtl() as real
  }

  ghost predicate TokenOk(cfg: Settings, s: State, t: Token) {
    && t.jti < s.nextJti && t.jti in s.origin && s.origin[t.jti] < |s.logins|
    && var login := s.logins[s.origin[t.jti]];
    && login.sub == t.sub && login.roles == t.roles && login.time <= s.now
    && t.exp as real <= LatestExpiry(cfg, login.time, t.kind)
  }

  ghost predicate UniqueIds(s: State) {
    forall t, u :: t in s.issued && u in s.issued && t.jti == u.jti ==> t == u
  }

  ghost predicate Inv(cfg: Settings, s: State) {
    && (forall t :: t in s.issued ==> TokenOk(cfg, s, t))
    && UniqueIds(s)
    && (forall j :: j in s.blocklist ==> exists t :: t in s.issued && t.jti == j && t.kind == Access)
  }

  lemma MintKeepsInv(cfg: Settings, s: State, sub: string, roles: seq<string>, kind: Kind, n: nat)
    requires Inv(cfg, s) && n < |s.logins|
    requires s.logins[n].sub == sub && s.logins[n].roles == roles && s.logins[n].time <= s.now
    requires s.now + Ttl(cfg, kind) as real <= LatestExpiry(cfg, s.logins[n].time, kind)
    ensures Inv(cfg, Mint(cfg, s, sub, roles, kind, n))
  {
    var s' := Mint(cfg, s, sub, roles, kind, n);
    forall t | t in s'.issued ensures TokenOk(cfg, s', t) {
      if t in s.issued { assert TokenOk(cfg, s, t); }
    }
    assert forall t :: t in s.issued ==> TokenOk(cfg, s, t);
    forall j | j in s'.blocklist
      ensures exists t :: t in s'.issued && t.jti == j && t.kind == Access
    {
      var t :| t in s.issued && t.jti == j && t.kind == Access;
      assert t in s'.issued;
    }
  }

  lemma InvStep(cfg: Settings, s: State, ev: Event)
    requires Inv(cfg, s)
    ensures Inv(cfg, Apply(cfg, s, ev))
  {
    assert forall t :: t in s.issued ==> TokenOk(cfg, s, t);
    match ev
    case Elapse(d) =>
      var s' := Apply(cfg, s, ev);
      assert forall t :: t in s.issued ==> TokenOk(cfg, s', t);
    case LogIn(sub, roles) =>
      var n := |s.logins|;
      var s1 := s.(logins := s.logins + [Login(s.now, sub, roles)]);
      assert forall t :: t in s.issued ==> TokenOk(cfg, s1, t);
      MintKeepsInv(cfg, s1, sub, roles, Access, n);
      MintKeepsInv(cfg, Mint(cfg, s1, sub, roles, Access, n), sub, roles, Refresh, n);
    case RefreshWith(t) =>
      if CheckRefresh(s, t) == Accepted {
        assert TokenOk(cfg, s, t);
        MintKeepsInv(cfg, s, t.sub, t.roles, Access, OriginOf(s, t));
      }
    case Request(_) =>
    case LogOut(t) =>
      var s' := Apply(cfg, s, ev);
      assert forall u :: u in s.issued ==> TokenOk(cfg, s', u);
  }

  lemma {:induction false} InvRun(cfg: Settings, s: State, evs: seq<Event>)
    requires Inv(cfg, s)
    ensures Inv(cfg, Run(cfg, s, evs))
  {
    if evs != [] {
      InvRun(cfg, s, Front(evs));
      InvStep(cfg, Run(cfg, s, Front(evs)), Last(evs));
    }
  }

  lemma ReachableInv(cfg: Settings, s: State)
    requires Reachable(cfg, s)
    ensures Inv(cfg, s)
  {
    var t0: real, evs :| s == Run(cfg, Init(t0), evs);
    InvRun(cfg, Init(t0), evs);
  }

  // ---------------------------------------------------------------- where tokens come from

  /** A login of the token's subject and roles, less than both lifetimes ago. */
  predicate ExplainedBy(cfg: Settings, s: State, t: Token, login: Login) {
    && login.sub == t.sub && login.roles == t.roles
    && login.time <= s.now < login.time + NonNegative(cfg.RefreshTtl()) as real + cfg.AccessTtl() as real
  }

  /** An accepted token goes back, through any number of refreshes, to one login of the same
      subject with the same roles, less than both lifetimes ago. */
  lemma AcceptedTokensComeFromALogin(cfg: Settings, s: State, t: Token)
    requires Reachable(cfg, s) && Check(s, t) == Accepted
    ensures t.jti in s.origin && s.origin[t.jti] < |s.logins|
    ensures ExplainedBy(cfg, s, t, s.logins[s.origin[t.jti]])
  {
    ReachableInv(cfg, s);
    assert TokenOk(cfg, s, t);
  }

  /** The blocklist names access tokens only, so a refresh token works until it expires, whatever
      has been logged out. */
  lemma RefreshTokensAreNeverRevoked(cfg: Settings, s: State, t: Token)
    requires Reachable(cfg, s)
    ensures CheckRefresh(s, t) == Accepted <==> t in s.issued && t.kind == Refresh && s.now < t.exp as real
    ensures forall j :: j in s.blocklist ==> exists u :: u in s.issued && u.jti == j && u.kind == Access
  {
    ReachableInv(cfg, s);
  }

  // ---------------------------------------------------------------- how long a token is good

  lemma OnlyOwnLogoutBlocks(cfg: Settings, s: State, t: Token, ev: Event)
    requires Inv(cfg, s) && t in s.issued && t.jti !in s.blocklist && ev != LogOut(t)
    ensures t in Apply(cfg, s, ev).issued && t.jti !in Apply(cfg, s, ev).blocklist
  {
    if ev.LogOut? && ev.token in s.issued { assert ev.token.jti != t.jti; }
  }

  /** Nothing but its own logout blocks a token. */
  lemma {:induction false} NeverBlocked(cfg: Settings, s: State, t: Token, evs: seq<Event>)
    requires Inv(cfg, s) && t in s.issued && t.jti !in s.blocklist && LogOut(t) !in evs
    ensures var s' := Run(cfg, s, evs); t in s'.issued && t.jti !in s'.blocklist
  {
    if evs != [] {
      NeverBlocked(cfg, s, t, Front(evs));
      InvRun(cfg, s, Front(evs));
      OnlyOwnLogoutBlocks(cfg, Run(cfg, s, Front(evs)), t, Last(evs));
    }
  }

  /** So a token that is not blocked is good until it expires. */
  lemma GoodUntilExpiry(cfg: Settings, s: State, t: Token, evs: seq<Event>)
    requires Inv(cfg, s) && t in s.issued && t.jti !in s.blocklist && LogOut(t) !in evs
    ensures var s' := Run(cfg, s, evs);
      && (Check(s', t) == Accepted <==> t.kind == Access && s'.now < t.exp as real)
      && (CheckRefresh(s', t) == Accepted <==> t.kind == Refresh && s'.now < t.exp as real)
  {
    NeverBlocked(cfg, s, t, evs);
  }

  lemma BlockedAreOld(cfg: Settings, s: State, jti: nat)
    requires Inv(cfg, s) && jti in s.blocklist
    ensures jti < s.nextJti
  {
    var u :| u in s.issued && u.jti == jti && u.kind == Access;
    assert TokenOk(cfg, s, u);
  }

  lemma NewIsNotBlocked(cfg: Settings, s: State, t: Token)
    requires Inv(cfg, s) && t.jti >= s.nextJti
    ensures t.jti !in s.blocklist
  {
    if t.jti in s.blocklist { BlockedAreOld(cfg, s, t.jti); }
  }

  /** A login issues one access and one refresh token, of its subject and with its roles ... */
  lemma LoginIssues(cfg: Settings, s: State, sub: string, roles: seq<string>)
    requires Reachable(cfg, s)
    ensures exists a, r :: Apply(cfg, s, LogIn(sub, roles)).issued == s.issued + {a, r}
                     && a !in s.issued && r !in s.issued && a.jti != r.jti
                     && a.kind == Access && r.kind == Refresh
                     && a.sub == r.sub == sub && a.roles == r.roles == roles
  {
    ReachableInv(cfg, s);
    var s1 := s.(logins := s.logins + [Login(s.now, sub, roles)]);
    var a := NewToken(cfg, s1, sub, roles, Access);
    var r := NewToken(cfg, Mint(cfg, s1, sub, roles, Access, |s.logins|), sub, roles, Refresh);
    assert forall t :: t in s.issued ==> TokenOk(cfg, s, t);
    assert Apply(cfg, s, LogIn(sub, roles)).issued == s.issued + {a, r};
  }

  /** ... and until they are logged out the access token is accepted for exactly the configured
      minutes and the refresh token for exactly the configured days, cut to a whole second. */
  lemma LoginTokensLast(cfg: Settings, s: State, sub: string, roles: seq<string>, t: Token, evs: seq<Event>)
    requires Reachable(cfg, s) && t in Apply(cfg, s, LogIn(sub, roles)).issued && t !in s.issued
    requires LogOut(t) !in evs
    ensures var s' := Run(cfg, Apply(cfg, s, LogIn(sub, roles)), evs);
      && (Check(s', t) == Accepted <==>
            t.kind == Access && s'.now < (s.now + (60 * cfg.accessMinutes) as real).Floor as real)
      && (CheckRefresh(s', t) == Accepted <==>
            t.kind == Refresh && s'.now < (s.now + (86400 * cfg.refreshDays) as real).Floor as real)
  {
    LoginTokenIsNew(cfg, s, sub, roles, t);
    GoodUntilExpiry(cfg, Apply(cfg, s, LogIn(sub, roles)), t, evs);
    NewOfLogin(cfg, s, sub, roles, t);
  }

  lemma LoginTokenIsNew(cfg: Settings, s: State, sub: string, roles: seq<string>, t: Token)
    requires Reachable(cfg, s) && t in Apply(cfg, s, LogIn(sub, roles)).issued && t !in s.issued
    ensures Inv(cfg, Apply(cfg, s, LogIn(sub, roles))) && t.jti !in Apply(cfg, s, LogIn(sub, roles)).blocklist
  {
    ReachableInv(cfg, s);
    InvStep(cfg, s, LogIn(sub, roles));
    NewOfLogin(cfg, s, sub, roles, t);
    NewIsNotBlocked(cfg, s, t);
  }

  lemma NewOfLogin(cfg: Settings, s: State, sub: string, roles: seq<string>, t: Token)
    requires t in Apply(cfg, s, LogIn(sub, roles)).issued && t !in s.issued
    ensures Apply(cfg, s, LogIn(sub, roles)).blocklist == s.blocklist && t.jti >= s.nextJti
    ensures t.exp == (s.now + (if t.kind == Access then 60 * cfg.accessMinutes else 86400 * cfg.refreshDays) as real).Floor
  {
  }

  /** A refresh with an accepted refresh token issues one access token of the same subject and roles,
      and with any other nothing ... */
  lemma RefreshIssues(cfg: Settings, s: State, r: Token)
    requires Reachable(cfg, s)
    ensures CheckRefresh(s, r) != Accepted ==> Apply(cfg, s, RefreshWith(r)) == s
    ensures CheckRefresh(s, r) == Accepted ==>
      exists a :: Apply(cfg, s, RefreshWith(r)).issued == s.issued + {a} && a !in s.issued
             && a.kind == Access && a.sub == r.sub && a.roles == r.roles
  {
    ReachableInv(cfg, s);
    if CheckRefresh(s, r) == Accepted {
      var a := NewToken(cfg, s, r.sub, r.roles, Access);
      assert forall u :: u in s.issued ==> TokenOk(cfg, s, u);
      assert Apply(cfg, s, RefreshWith(r)).issued == s.issued + {a};
    }
  }

  lemma NewOfRefresh(cfg: Settings, s: State, r: Token, t: Token)
    requires t in Apply(cfg, s, RefreshWith(r)).issued && t !in s.issued
    ensures Apply(cfg, s, RefreshWith(r)).blocklist == s.blocklist && t.jti >= s.nextJti && t.kind == Access
    ensures t.exp == (s.now + (60 * cfg.accessMinutes) as real).Floor
  {
  }

  /** ... which until it is logged out is accepted for exactly the configured minutes. */
  lemma RefreshedTokensLast(cfg: Settings, s: State, r: Token, t: Token, evs: seq<Event>)
    requires Reachable(cfg, s) && t in Apply(cfg, s, RefreshWith(r)).issued && t !in s.issued && LogOut(t) !in evs
    ensures var s' := Run(cfg, Apply(cfg, s, RefreshWith(r)), evs);
      Check(s', t) == Accepted <==> s'.now < (s.now + (60 * cfg.accessMinutes) as real).Floor as real
  {
    ReachableInv(cfg, s);
    InvStep(cfg, s, RefreshWith(r));
    NewOfRefresh(cfg, s, r, t);
    NewIsNotBlocked(cfg, s, t);
    GoodUntilExpiry(cfg, Apply(cfg, s, RefreshWith(r)), t, evs);
  }

  // ---------------------------------------------------------------- revocation

  /** The instants at which a token logged out at `t0` would be accepted again. */
  predicate InGap(exp: int, t0: real, now: real) {
    1.0 <= exp as real - t0 && t0 + (exp as real - t0).Floor as real < now < exp as real
  }

  /** There is such an instant exactly when a second or more, and not a whole number of seconds,
      was left; and all of them lie in the last second. */
  lemma GapIsShort(exp: int, t0: real)
    ensures (exists now :: InGap(exp, t0, now)) <==>
      (1.0 <= exp as real - t0 && (exp as real - t0).Floor as real != exp as real - t0)
    ensures forall now :: InGap(exp, t0, now) ==> exp as real - 1.0 < now < exp as real
  {
    var rest := exp as real - t0;
    if 1.0 <= rest && rest.Floor as real != rest {
      assert InGap(exp, t0, (t0 + rest.Floor as real + exp as real) / 2.0);
    }
  }

  /** Only a logout of `t` itself touches its blocklist entry, and it can only postpone its end. */
  lemma BlockStep(cfg: Settings, s: State, t: Token, ev: Event)
    requires UniqueIds(s) && t in s.issued && t.jti in s.blocklist
    ensures var s' := Apply(cfg, s, ev);
      && t in s'.issued && t.jti in s'.blocklist && s.blocklist[t.jti] <= s'.blocklist[t.jti]
      && (ev != LogOut(t) ==> s'.blocklist[t.jti] == s.blocklist[t.jti])
  {
    if ev.LogOut? && ev.token != t {
      assert ev.token in s.issued ==> ev.token.jti != t.jti;
    }
  }

  lemma {:induction false} BlockRun(cfg: Settings, s: State, t: Token, evs: seq<Event>)
    requires Inv(cfg, s) && t in s.issued && t.jti in s.blocklist
    ensures var s' := Run(cfg, s, evs);
      && t in s'.issued && t.jti in s'.blocklist && s.blocklist[t.jti] <= s'.blocklist[t.jti]
      && (LogOut(t) !in evs ==> s'.blocklist[t.jti] == s.blocklist[t.jti])
  {
    if evs != [] {
      BlockRun(cfg, s, t, Front(evs));
      InvRun(cfg, s, Front(evs));
      BlockStep(cfg, Run(cfg, s, Front(evs)), t, Last(evs));
    }
  }

  lemma BlockedFor(exp: int, now: real)
    requires now < exp as real
    ensures now + BlockSeconds(exp, now) as real ==
      if 1.0 <= exp as real - now then now + (exp as real - now).Floor as real else now + 1.0
  {
  }

  /** After a logout at t0, whatever happens then, the token is accepted only inside the gap
      that the truncated blocking time leaves before its expiry. */
  lemma LogoutRevokes(cfg: Settings, s: State, t: Token, evs: seq<Event>)
    requires Reachable(cfg, s) && Check(s, t) == Accepted
    ensures var s' := Run(cfg, Apply(cfg, s, LogOut(t)), evs);
      Check(s', t) == Accepted ==> InGap(t.exp, s.now, s'.now)
  {
    ReachableInv(cfg, s);
    InvStep(cfg, s, LogOut(t));
    BlockedFor(t.exp, s.now);
    BlockRun(cfg, Apply(cfg, s, LogOut(t)), t, evs);
  }

  /** ... and unless it is logged out once more, it is accepted throughout that gap. */
  lemma LogoutRevokesExactly(cfg: Settings, s: State, t: Token, evs: seq<Event>)
    requires Reachable(cfg, s) && Check(s, t) == Accepted && LogOut(t) !in evs
    ensures var s' := Run(cfg, Apply(cfg, s, LogOut(t)), evs);
      Check(s', t) == Accepted <==> InGap(t.exp, s.now, s'.now)
  {
    LogoutRevokes(cfg, s, t, evs);
    ReachableInv(cfg, s);
    InvStep(cfg, s, LogOut(t));
    BlockedFor(t.exp, s.now);
    BlockRun(cfg, Apply(cfg, s, LogOut(t)), t, evs);
  }

  // ---------------------------------------------------------------- logout touches one token

  ghost predicate SameEntry(a: map<nat, real>, b: map<nat, real>, k: nat) {
    (k in a <==> k in b) && (k in a && k in b ==> a[k] == b[k])
  }

  /** The states differ at most in the blocklist entry of `j`. */
  ghost predicate AgreeBut(s: State, s': State, j: nat) {
    && s.now == s'.now && s.nextJti == s'.nextJti && s.issued == s'.issued
    && s.logins == s'.logins && s.origin == s'.origin
    && forall k :: k != j ==> SameEntry(s.blocklist, s'.blocklist, k)
  }

  /** States that agree decide alike about every token but the access token `t`. */
  lemma AgreeingChecks(s: State, s': State, t: Token, u: Token)
    requires UniqueIds(s) && t in s.issued && t.kind == Access && AgreeBut(s, s', t.jti)
    ensures CheckRefresh(s, u) == CheckRefresh(s', u)
    ensures u.jti != t.jti ==> Check(s, u) == Check(s', u)
    ensures u.jti == t.jti && Decodes(s, u) ==> u == t
  {
    assert u.jti != t.jti ==> SameEntry(s.blocklist, s'.blocklist, u.jti);
  }

  lemma AgreeStep(cfg: Settings, s: State, s': State, t: Token, ev: Event)
    requires UniqueIds(s) && t in s.issued && t.kind == Access && AgreeBut(s, s', t.jti)
    ensures AgreeBut(Apply(cfg, s, ev), Apply(cfg, s', ev), t.jti)
    ensures t in Apply(cfg, s, ev).issued
  {
    if ev.RefreshWith? || ev.LogOut? {
      AgreeingChecks(s, s', t, ev.token);
    }
    if ev.LogOut? {
      AgreeLogOut(cfg, s, s', t, ev.token);
    }
  }

  lemma AgreeLogOut(cfg: Settings, s: State, s': State, t: Token, u: Token)
    requires AgreeBut(s, s', t.jti)
    requires u.jti != t.jti ==> Check(s, u) == Check(s', u)
    ensures AgreeBut(Apply(cfg, s, LogOut(u)), Apply(cfg, s', LogOut(u)), t.jti)
  {
    var (a, b) := (Apply(cfg, s, LogOut(u)), Apply(cfg, s', LogOut(u)));
    forall k | k != t.jti ensures SameEntry(a.blocklist, b.blocklist, k) {
      assert SameEntry(s.blocklist, s'.blocklist, k);
    }
  }

  lemma {:induction false} AgreeRun(cfg: Settings, s: State, s': State, t: Token, evs: seq<Event>)
    requires Inv(cfg, s) && Inv(cfg, s') && t in s.issued && t.kind == Access && AgreeBut(s, s', t.jti)
    ensures AgreeBut(Run(cfg, s, evs), Run(cfg, s', evs), t.jti) && t in Run(cfg, s, evs).issued
  {
    if evs != [] {
      AgreeRun(cfg, s, s', t, Front(evs));
      InvRun(cfg, s, Front(evs));
      InvRun(cfg, s', Front(evs));
      AgreeStep(cfg, Run(cfg, s, Front(evs)), Run(cfg, s', Front(evs)), t, Last(evs));
    }
  }

  /** Leaving a logout out of a run changes no decision about any other token, ever. */
  lemma LogoutTouchesOneToken(cfg: Settings, s: State, t: Token, evs: seq<Event>, u: Token)
    requires Reachable(cfg, s) && Check(s, t) == Accepted && u.jti != t.jti
    ensures var (with, without) := (Run(cfg, Apply(cfg, s, LogOut(t)), evs), Run(cfg, s, evs));
      Check(with, u) == Check(without, u) && CheckRefresh(with, u) == CheckRefresh(without, u)
  {
    ReachableInv(cfg, s);
    InvStep(cfg, s, LogOut(t));
    AgreeRun(cfg, s, Apply(cfg, s, LogOut(t)), t, evs);
    InvRun(cfg, s, evs);
    AgreeingChecks(Run(cfg, s, evs), Run(cfg, Apply(cfg, s, LogOut(t)), evs), t, u);
  }
}
