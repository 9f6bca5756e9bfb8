/** The auth endpoints and the JWT branch of the middleware over their shared state. */
module AuthService {
  import opened Prelude
  import opened Tokens

  const PUBLIC_PATHS: set<string> := {
    "/health", "/metrics", "/docs", "/openapi.json", "/api/v1/auth/login", "/api/v1/auth/refresh"
  }

  predicate IsPublic(path: string) {
    || path == "/health" || path == "/metrics" || path == "/docs" || path == "/openapi.json"
    || path == "/api/v1/auth/login" || path == "/api/v1/auth/refresh"
  }

  /** The middleware's answer: the handler runs, with a user unless the path is public, or 401. */
  datatype Answer = Forwarded(user: Option<Token>) | Unauthorized(reason: Verdict)

  datatype AuthError = InvalidCredentials | AccountDisabled

  datatype TokenPair = TokenPair(access: Token, refresh: Token)

  /** Every method is one step of `Tokens.Apply`, so `Tokens.Inv` holds throughout by `InvStep`. */
  class Service {
    const cfg: Settings
    var now: real
    var nextJti: nat                // uuid4, idealised
    var blocklist: map<nat, real>   // blocklist:{jti} in Redis
    ghost var issued: set<Token>    // the tokens signed with JWT_SECRET
    ghost var logins: seq<Login>
    ghost var origin: map<nat, nat>

    ghost function Snapshot(): State
      reads this
    {
      State(now, nextJti, issued, blocklist, logins, origin)
    }

    /** The whole second before which a token of so many seconds, minted now, is accepted. */
    function LastSecond(seconds: int): int
      reads this
    {
      (now + seconds as real).Floor
    }

    constructor (cfg: Settings, now: real)
      ensures this.cfg == cfg && Snapshot() == Init(now) && Inv(cfg, Snapshot())
    {
      this.cfg, this.now := cfg, now;
      nextJti, issued, blocklist, logins, origin := 0, {}, map[], [], map[];
    }

    method Wait(seconds: real)
      requires seconds >= 0.0
      modifies this`now
      ensures Snapshot() == Apply(cfg, old(Snapshot()), Elapse(seconds)) && now == old(now) + seconds
    {
      now := now + seconds;
    }

    method EncodeJwt(sub: string, roles: seq<string>, kind: Kind, ghost login: nat) returns (t: Token)
      modifies this`nextJti, this`issued, this`origin
      ensures t == NewToken(cfg, old(Snapshot()), sub, roles, kind)
      ensures t == Token(sub, roles, kind, old(nextJti), t.exp) && t.jti < nextJti
      ensures t.exp == LastSecond(if kind == Access then 60 * cfg.accessMinutes else 86400 * cfg.refreshDays)
      ensures Snapshot() == Mint(cfg, old(Snapshot()), sub, roles, kind, login)
    {
      var ttl := if kind == Access then 60 * cfg.accessMinutes else 86400 * cfg.refreshDays;
      t := Token(sub, roles, kind, nextJti, (now + ttl as real).Floor);
      nextJti := nextJti + 1;
      issued := issued + {t};
      origin := origin[t.jti := login];
    }

    /** A good login mints a pair for the user's subject and roles; a failed one changes nothing. */
    method Login(sub: string, roles: seq<string>, passwordOk: bool, active: bool)
      returns (r: Result<TokenPair, AuthError>)
      modifies this
      ensures r.Ok? <==> passwordOk && active
      ensures r.Err? ==> Snapshot() == old(Snapshot())
      ensures r.Ok? ==>
        && Snapshot() == Apply(cfg, old(Snapshot()), LogIn(sub, roles))
        && r.value.access in issued && r.value.refresh in issued
        && r.value.access == Token(sub, roles, Access, old(nextJti), LastSecond(60 * cfg.accessMinutes))
        && r.value.refresh == Token(sub, roles, Refresh, old(nextJti) + 1, LastSecond(86400 * cfg.refreshDays))
      ensures !passwordOk ==> r == Err(InvalidCredentials)
      ensures passwordOk && !active ==> r == Err(AccountDisabled)
    {
      if !passwordOk { return Err(InvalidCredentials); }
      if !active { return Err(AccountDisabled); }
      ghost var n := |logins|;
      logins := logins + [Tokens.Login(now, sub, roles)];
      var access := EncodeJwt(sub, roles, Access, n);
      var refresh := EncodeJwt(sub, roles, Refresh, n);
      return Ok(TokenPair(access, refresh));
    }

    /** `decodes` is PyJWT's verdict on the presented token. */
    method RefreshAccess(t: Token, decodes: bool) returns (r: Result<Token, Verdict>)
      requires decodes == Decodes(Snapshot(), t)
      modifies this
      ensures Snapshot() == Apply(cfg, old(Snapshot()), RefreshWith(t))
      ensures r.Err? ==> r.error == CheckRefresh(old(Snapshot()), t) != Accepted
      ensures r.Ok? ==>
        && CheckRefresh(old(Snapshot()), t) == Accepted
        && r.value in issued
        && r.value == Token(t.sub, t.roles, Access, old(nextJti), LastSecond(60 * cfg.accessMinutes))
    {
      if !decodes { return Err(Invalid); }
      if t.kind != Refresh { return Err(WrongKind); }
      if t.jti in blocklist && now <= blocklist[t.jti] { return Err(Revoked); }
      var access := EncodeJwt(t.sub, t.roles, Access, OriginOf(Snapshot(), t));
      return Ok(access);
    }

    method Dispatch(path: string, bearer: Option<Token>, decodes: bool) returns (answer: Answer)
      requires bearer.Some? ==> decodes == Decodes(Snapshot(), bearer.value)
      ensures IsPublic(path) ==> answer == Forwarded(None)
      ensures !IsPublic(path) && bearer.None? ==> answer == Unauthorized(Invalid)
      ensures !IsPublic(path) && bearer.Some? ==>
        answer == if Check(Snapshot(), bearer.value) == Accepted then Forwarded(bearer)
                  else Unauthorized(Check(Snapshot(), bearer.value))
    {
      if path in PUBLIC_PATHS { return Forwarded(None); }
      if bearer.None? { return Unauthorized(Invalid); }
      var t := bearer.value;
      if !decodes { return Unauthorized(Invalid); }
      if t.jti in blocklist && now <= blocklist[t.jti] { return Unauthorized(Revoked); }
      if t.kind != Access { return Unauthorized(WrongKind); }
      return Forwarded(bearer);
    }

    /** A logout request: the middleware, then the handler at the same instant. */
    method Logout(t: Token, decodes: bool) returns (answer: Answer)
      requires decodes == Decodes(Snapshot(), t)
      modifies this`blocklist
      ensures Snapshot() == Apply(cfg, old(Snapshot()), LogOut(t))
      ensures answer == if Check(old(Snapshot()), t) == Accepted then Forwarded(Some(t))
                        else Unauthorized(Check(old(Snapshot()), t))
      ensures answer.Forwarded? ==> Check(Snapshot(), t) == Revoked
    {
      assert "/api/v1/auth/logout" !in PUBLIC_PATHS;
      answer := Dispatch("/api/v1/auth/logout", Some(t), decodes);
      if answer.Forwarded? {
        var rest := Truncated(t.exp as real - now);
        var ttl := if rest > 0 then rest else 0;
        blocklist := blocklist[t.jti := now + (if ttl == 0 then 1 else ttl) as real];
      }
    }
  }
}
