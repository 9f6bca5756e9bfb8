/** What the limiter does over whole runs: how long a window lasts, what a lost EXPIRE does,
    that clients do not disturb each other, and that the admission bound is attained. */
module RateLimitRuns {
  import opened Prelude
  import opened RateLimit

  lemma {:induction false} LogGrows(s: State, evs: seq<Event>)
    ensures s.log <= Run(s, evs).log
    ensures s.seen <= Run(s, evs).seen
    ensures s.now <= Run(s, evs).now
  {
    if evs != [] { LogGrows(s, Front(evs)); }
  }

  lemma {:induction false} NobodyIsIn(log: seq<Entry>, b: Req)
    requires forall i :: 0 <= i < |log| ==> log[i].born != b
    ensures InIncarnation(log, b) == 0
  {
    if log != [] {
      NobodyIsIn(Front(log), b);
    }
  }

  // ---------------------------------------------------------------- the window

  /** What holds of client `r.client` after the EXPIRE of `r` ran with deadline `d`; `n` INCRs
      had been logged by then. */
  ghost predicate WindowInv(p: State, r: Req, d: int, n: nat) {
    && n <= |p.log| && r in p.seen && r !in p.pending && r.client in p.keys
    && (var k := p.keys[r.client];
        if k.born == r then k.deadline == Some(d) else d < k.bornAt)
    && forall j :: n <= j < |p.log| && p.log[j].req.client == r.client ==>
         if p.log[j].time <= d then p.log[j].born == r else p.log[j].born != r && d < p.log[j].bornAt
  }

  lemma WindowStep(p: State, ev: Event, r: Req, d: int, n: nat)
    requires Inv(p) && Enabled(p, ev) && WindowInv(p, r, d, n)
    ensures WindowInv(Apply(p, ev), r, d, n)
  {
  }

  lemma {:induction false} WindowRun(p: State, evs: seq<Event>, r: Req, d: int, n: nat)
    requires Inv(p) && Legal(p, evs) && WindowInv(p, r, d, n)
    ensures Inv(Run(p, evs)) && WindowInv(Run(p, evs), r, d, n)
  {
    InvRun(p, evs);
    if evs != [] {
      WindowRun(p, Front(evs), r, d, n);
      WindowStep(Run(p, Front(evs)), Last(evs), r, d, n);
    }
  }

  lemma WindowStarts(s: State, r: Req)
    requires Inv(s) && r in s.pending
    ensures Inv(Apply(s, Expire(r)))
    ensures WindowInv(Apply(s, Expire(r)), r, s.now + WINDOW_MS, |s.log|)
  {
    InvStep(s, Expire(r));
  }

  /** The log once the EXPIRE of `r` has run and `evs` have followed. */
  function LogAfterExpire(s: State, r: Req, evs: seq<Event>): seq<Entry> {
    Run(Apply(s, Expire(r)), evs).log
  }

  lemma AfterExpire(s: State, r: Req, evs: seq<Event>)
    requires Reachable(s) && r in s.pending && Legal(Apply(s, Expire(r)), evs)
    ensures s.log <= LogAfterExpire(s, r, evs)
    ensures Inv(s) && Inv(Run(Apply(s, Expire(r)), evs))
    ensures WindowInv(Run(Apply(s, Expire(r)), evs), r, s.now + WINDOW_MS, |s.log|)
  {
    ReachableInv(s);
    WindowStarts(s, r);
    LogGrows(Apply(s, Expire(r)), evs);
    WindowRun(Apply(s, Expire(r)), evs, r, s.now + WINDOW_MS, |s.log|);
  }

  /** Once the EXPIRE of `r` has run, its incarnation takes exactly the INCRs of the next 60 s,
      the millisecond of the deadline included. */
  lemma WindowLength(s: State, r: Req, evs: seq<Event>)
    requires Reachable(s) && r in s.pending && Legal(Apply(s, Expire(r)), evs)
    ensures s.log <= LogAfterExpire(s, r, evs)
    ensures var later := LogAfterExpire(s, r, evs);
      forall j :: |s.log| <= j < |later| && later[j].req.client == r.client ==>
        (later[j].born == r <==> later[j].time <= s.now + 60000)
  {
    AfterExpire(s, r, evs);
  }

  lemma LaterIncarnation(p: State, i: nat, j: nat)
    requires Inv(p) && i < j < |p.log| && p.log[i].time < p.log[j].bornAt
    ensures p.log[i].born != p.log[j].born
  {
    assert EntryOk(p, p.log[i]) && EntryOk(p, p.log[j]) && Follows(p.log[i], p.log[j]);
  }

  /** ... and the first INCR after them starts a new count, so a positive limit admits it. */
  lemma FirstAfterWindow(s: State, r: Req, evs: seq<Event>, j: nat)
    requires Reachable(s) && r in s.pending && Legal(Apply(s, Expire(r)), evs)
    requires |s.log| <= j < |LogAfterExpire(s, r, evs)|
    requires LogAfterExpire(s, r, evs)[j].req.client == r.client
    requires s.now + 60000 < LogAfterExpire(s, r, evs)[j].time
    requires forall i :: |s.log| <= i < j && LogAfterExpire(s, r, evs)[i].req.client == r.client ==>
               LogAfterExpire(s, r, evs)[i].time <= s.now + 60000
    ensures LogAfterExpire(s, r, evs)[j].count == 1
  {
    AfterExpire(s, r, evs);
    var p := Run(Apply(s, Expire(r)), evs);
    forall i | 0 <= i < j
      ensures p.log[i].born != p.log[j].born
    {
      assert EntryOk(p, p.log[i]) && EntryOk(p, p.log[j]);
      if p.log[i].req.client == r.client {
        if i < |s.log| { assert EntryOk(s, s.log[i]); }
        LaterIncarnation(p, i, j);
      }
    }
    NobodyIsIn(p.log[..j], p.log[j].born);
  }

  // ---------------------------------------------------------------- a lost EXPIRE

  ghost predicate LockedInv(p: State, r: Req, n: nat) {
    && n <= |p.log| && r in p.seen && r !in p.pending && r.client in p.keys
    && p.keys[r.client].born == r && p.keys[r.client].deadline.None?
    && forall j :: n <= j < |p.log| && p.log[j].req.client == r.client ==> p.log[j].born == r && p.log[j].count > 1
  }

  lemma LockedStep(p: State, ev: Event, r: Req, n: nat)
    requires Inv(p) && Enabled(p, ev) && LockedInv(p, r, n)
    ensures LockedInv(Apply(p, ev), r, n)
  {
  }

  lemma {:induction false} LockedRun(p: State, evs: seq<Event>, r: Req, n: nat)
    requires Inv(p) && Legal(p, evs) && LockedInv(p, r, n)
    ensures Inv(Run(p, evs)) && LockedInv(Run(p, evs), r, n)
  {
    InvRun(p, evs);
    if evs != [] {
      LockedRun(p, Front(evs), r, n);
      LockedStep(Run(p, Front(evs)), Last(evs), r, n);
    }
  }

  /** INCRs of client `c` from position `n` of the log on that were admitted. */
  ghost function AdmittedFrom(log: seq<Entry>, n: nat, c: string, limit: int): set<int> {
    set j | n <= j < |log| && log[j].req.client == c && Admits(log[j], limit)
  }

  lemma LockedAdmits(p: State, r: Req, n: nat, limit: nat)
    requires Inv(p) && LockedInv(p, r, n) && 1 <= limit
    ensures |AdmittedFrom(p.log, n, r.client, limit)| <= limit - 1
  {
    var code := seq(|p.log|, i requires 0 <= i < |p.log| => p.log[i].count - 1);
    var ix := AdmittedFrom(p.log, n, r.client, limit);
    forall i, j | i in ix && j in ix && i != j
      ensures code[i] != code[j]
    {
      if i < j { assert Follows(p.log[i], p.log[j]); } else { assert Follows(p.log[j], p.log[i]); }
    }
    Injection(ix, code, limit - 1);
  }

  /** If the EXPIRE of `r` is lost, the counter never ends: however long the run goes on, the
      client is admitted at most limit - 1 times more. */
  lemma LostExpireLocksOut(s: State, r: Req, evs: seq<Event>, limit: nat)
    requires Reachable(s) && r in s.pending && Legal(Apply(s, Crash(r)), evs) && 1 <= limit
    ensures var later := Run(Apply(s, Crash(r)), evs).log;
      && (forall j :: |s.log| <= j < |later| && later[j].req.client == r.client ==> later[j].born == r)
      && |AdmittedFrom(later, |s.log|, r.client, limit)| <= limit - 1
  {
    ReachableInv(s);
    InvStep(s, Crash(r));
    LockedRun(Apply(s, Crash(r)), evs, r, |s.log|);
    LockedAdmits(Run(Apply(s, Crash(r)), evs), r, |s.log|, limit);
  }

  // ---------------------------------------------------------------- clients are isolated

  predicate Concerns(ev: Event, c: string) {
    ev.Advance? || ev.req.client == c
  }

  function Mine(evs: seq<Event>, c: string): seq<Event> {
    if evs == [] then []
    else Mine(Front(evs), c) + (if Concerns(Last(evs), c) then [Last(evs)] else [])
  }

  function MyLog(log: seq<Entry>, c: string): seq<Entry> {
    if log == [] then []
    else MyLog(Front(log), c) + (if Last(log).req.client == c then [Last(log)] else [])
  }

  function Project(s: State, c: string): State {
    State(s.now, (map k | k in s.keys && k == c :: s.keys[k]),
          (set r | r in s.pending && r.client == c), (set r | r in s.seen && r.client == c), MyLog(s.log, c))
  }

  lemma ProjectStep(s: State, ev: Event, c: string)
    requires Enabled(s, ev)
    ensures Concerns(ev, c) ==> Enabled(Project(s, c), ev) && Apply(Project(s, c), ev) == Project(Apply(s, ev), c)
    ensures !Concerns(ev, c) ==> Project(s, c) == Project(Apply(s, ev), c)
  {
    var s' := Apply(s, ev);
    if ev.Incr? {
      assert Front(s'.log) == s.log;
    }
    if Concerns(ev, c) {
      var p := Apply(Project(s, c), ev);
      var q := Project(s', c);
      assert p.keys == q.keys;
      assert p.pending == q.pending;
      assert p.seen == q.seen;
    } else {
      var p := Project(s, c);
      var q := Project(s', c);
      assert p.keys == q.keys;
      assert p.pending == q.pending;
      assert p.seen == q.seen;
    }
  }

  /** Dropping every other client's requests from a run leaves a legal run that shows this
      client the same counts, and so the same decisions, at the same times. */
  lemma {:induction false} ClientIsolation(s: State, evs: seq<Event>, c: string)
    requires Legal(s, evs)
    ensures Legal(Project(s, c), Mine(evs, c))
    ensures Run(Project(s, c), Mine(evs, c)) == Project(Run(s, evs), c)
  {
    if evs != [] {
      ClientIsolation(s, Front(evs), c);
      ProjectStep(Run(s, Front(evs)), Last(evs), c);
      var mine := Mine(evs, c);
      if Concerns(Last(evs), c) {
        assert Front(mine) == Mine(Front(evs), c);
      } else {
        assert mine == Mine(Front(evs), c);
      }
    }
  }
}
