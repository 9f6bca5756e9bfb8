/** The limiter itself: the key store updated command by command, and one whole dispatch. */
module RateLimitMiddleware {
  import opened Prelude
  import opened RateLimit

  /** The identity a request is counted under: the authenticated user's id, else the peer host. */
  function ClientId(user: map<string, string>, host: string): (id: string)
    ensures id == host || ("id" in user && id == user["id"])
    ensures "id" in user ==> id == user["id"]
  {
    if user != map[] && "id" in user then user["id"] else host
  }

  /** The effect of a dispatch that nothing interrupts: INCR, and EXPIRE when it answered 1. */
  function Uninterrupted(s: State, r: Req): State {
    var s' := Apply(s, Incr(r));
    if Seen(s, r).count == 1 then Apply(s', Expire(r)) else s'
  }

  /** An INCR answers one more than the INCRs already in its incarnation. */
  lemma SeenCount(s: State, r: Req)
    requires Inv(s) && r !in s.seen
    ensures Seen(s, r).count == InIncarnation(s.log, Seen(s, r).born) + 1
  {
  }

  lemma NewIsNotPending(s: State, r: Req)
    requires PendingOwnsItsKey(s) && r !in s.seen
    ensures r !in s.pending
    ensures Seen(s, r).count == 1 ==> Live(Apply(s, Incr(r)).keys[r.client], s.now) || !Bumped(s, r).deadline.None?
    ensures Seen(s, r).count == 1 ==> Apply(s, Incr(r)).pending - {r} == s.pending
  {
  }

  lemma UninterruptedKeepsInv(s: State, r: Req)
    requires Inv(s) && r !in s.seen
    ensures Inv(Uninterrupted(s, r))
  {
    IncrKeepsInv(s, r);
    var s' := Apply(s, Incr(r));
    if Seen(s, r).count == 1 {
      QuietStepKeepsInv(s', Expire(r));
    }
  }

  /** The counter under `c` has no TTL. */
  predicate Waits(s: State, c: string) {
    c in s.keys && s.keys[c].deadline.None?
  }

  lemma WaitsAsBefore(s: State, r: Req, c: string)
    requires Inv(s) && r !in s.seen
    ensures Waits(Uninterrupted(s, r), c) <==> Waits(s, c)
  {
    if c == r.client && c in s.keys { assert 1 <= s.keys[c].count; }
  }

  /** An uninterrupted dispatch keeps the invariant, leaves without a TTL exactly the counters that
      had none before, and gives a new counter exactly 60 s. */
  lemma UninterruptedDispatch(s: State, r: Req)
    requires Inv(s) && r !in s.seen
    ensures Inv(Uninterrupted(s, r))
    ensures Uninterrupted(s, r).pending == s.pending
    ensures forall c :: Waits(Uninterrupted(s, r), c) <==> Waits(s, c)
    ensures Seen(s, r).count == 1 ==> Uninterrupted(s, r).keys[r.client].deadline == Some(s.now + 60000)
  {
    UninterruptedKeepsInv(s, r);
    NewIsNotPending(s, r);
    forall c ensures Waits(Uninterrupted(s, r), c) <==> Waits(s, c) { WaitsAsBefore(s, r, c); }
  }

  datatype Response = Forwarded | TooManyRequests

  class Limiter {
    const redisPresent: bool  // app.state.redis is set
    const limit: int          // RATE_LIMIT_DEFAULT
    var now: int
    var keys: map<string, Key>
    var pending: set<Req>
    var seen: set<Req>
    var log: seq<Entry>

    function Snapshot(): State
      reads this
    {
      State(now, keys, pending, seen, log)
    }

    constructor (redisPresent: bool, limit: int, now: int)
      ensures this.redisPresent == redisPresent && this.limit == limit
      ensures Snapshot() == Init(now) && Inv(Snapshot())
    {
      this.redisPresent, this.limit, this.now := redisPresent, limit, now;
      keys, pending, seen, log := map[], {}, {}, [];
    }

    method Elapse(ms: nat)
      modifies this`now
      ensures Snapshot() == Apply(old(Snapshot()), Advance(ms)) && now == old(now) + ms
    {
      now := now + ms;
    }

    /** INCR key: an absent or expired key counts from 0 and has no TTL. */
    method Increment(r: Req) returns (count: nat)
      requires Enabled(Snapshot(), Incr(r))
      modifies this
      ensures Snapshot() == Apply(old(Snapshot()), Incr(r))
      ensures count == Seen(old(Snapshot()), r).count
    {
      var entry := Seen(Snapshot(), r);
      var c := r.client;
      if c in keys && Live(keys[c], now) {
        keys := keys[c := keys[c].(count := keys[c].count + 1)];
      } else {
        keys := keys[c := Key(1, r, now, None)];
      }
      count := keys[c].count;
      seen := seen + {r};
      if count == 1 { pending := pending + {r}; }
      log := log + [entry];
    }

    /** EXPIRE key 60: no effect on an absent key. */
    method SetExpiry(r: Req)
      requires Enabled(Snapshot(), Expire(r))
      modifies this`keys, this`pending
      ensures Snapshot() == Apply(old(Snapshot()), Expire(r))
    {
      var c := r.client;
      if c in keys && Live(keys[c], now) {
        keys := keys[c := keys[c].(deadline := Some(now + WINDOW_MS))];
      }
      pending := pending - {r};
    }

    /** The request dies between its two commands. */
    method Die(r: Req)
      requires Enabled(Snapshot(), Crash(r))
      modifies this`pending
      ensures Snapshot() == Apply(old(Snapshot()), Crash(r))
    {
      pending := pending - {r};
    }

    /** A dispatch that nothing interrupts is forwarded exactly when fewer than `limit` INCRs
        came before it in its incarnation. */
    method Dispatch(id: nat, user: map<string, string>, host: string) returns (response: Response)
      requires Inv(Snapshot()) && Req(id, ClientId(user, host)) !in seen
      modifies this
      ensures Inv(Snapshot())
      ensures !redisPresent ==> response == Forwarded && Snapshot() == old(Snapshot())
      ensures redisPresent ==>
        var r := Req(id, ClientId(user, host));
        && Snapshot() == Uninterrupted(old(Snapshot()), r)
        && (response == Forwarded <==> InIncarnation(old(log), Seen(old(Snapshot()), r).born) < limit)
    {
      if !redisPresent {
        return Forwarded;
      }
      var r := Req(id, ClientId(user, host));
      UninterruptedDispatch(Snapshot(), r);
      SeenCount(Snapshot(), r);
      var count := Increment(r);
      if count == 1 {
        SetExpiry(r);
      }
      if count > limit {
        return TooManyRequests;
      }
      return Forwarded;
    }
  }
}
