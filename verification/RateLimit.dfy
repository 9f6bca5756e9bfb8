/**
 The fixed-window request limiter as an interleaved protocol.

 A request is counted by one atomic INCR; only when that INCR answers 1 does a second,
 separate command give the counter its 60 second life.  Between the two commands other
 requests run, time passes, or the request dies.
 */
module RateLimit {
  import opened Prelude

  // EXPIRE key 60, in the millisecond ticks of the key store.
  const WINDOW_MS := 60000

  // A key still lives in the millisecond of its deadline, so this is the least time between the
  // beginnings of two incarnations.
  const SPAN := WINDOW_MS + 1

  /** One in-flight request; `client` is the identity its counter is kept under. */
  datatype Req = Req(id: nat, client: string)

  /** A stored counter.  `born` is the request whose INCR created it and names this
      incarnation of the key; `deadline` is absent until an EXPIRE has run. */
  datatype Key = Key(count: nat, born: Req, bornAt: int, deadline: Option<int>)

  /** History: what one INCR saw. */
  datatype Entry = Entry(req: Req, time: int, born: Req, bornAt: int, count: nat)

  datatype State = State(now: int, keys: map<string, Key>, pending: set<Req>, seen: set<Req>, log: seq<Entry>)

  datatype Event =
    | Advance(ms: nat)   // time passes
    | Incr(req: Req)     // the request's INCR
    | Expire(req: Req)   // the EXPIRE of a request whose INCR answered 1
    | Crash(req: Req)    // that request dies, or its EXPIRE fails, before EXPIRE takes effect

  predicate Live(k: Key, now: int) {
    k.deadline.None? || now <= k.deadline.value
  }

  /** The counter an INCR by `r` leaves behind. */
  function Bumped(s: State, r: Req): Key {
    if r.client in s.keys && Live(s.keys[r.client], s.now)
    then var k := s.keys[r.client]; k.(count := k.count + 1)
    else Key(1, r, s.now, None)
  }

  function Seen(s: State, r: Req): Entry {
    var k := Bumped(s, r);
    Entry(r, s.now, k.born, k.bornAt, k.count)
  }

  predicate Enabled(s: State, ev: Event) {
    match ev
    case Advance(_) => true
    case Incr(r) => r !in s.seen
    case Expire(r) => r in s.pending
    case Crash(r) => r in s.pending
  }

  function Apply(s: State, ev: Event): State {
    match ev
    case Advance(ms) => s.(now := s.now + ms)
    case Incr(r) =>
      var k := Bumped(s, r);
      State(s.now, s.keys[r.client := k], if k.count == 1 then s.pending + {r} else s.pending,
            s.seen + {r}, s.log + [Seen(s, r)])
    case Expire(r) =>
      var c := r.client;
      var keys := if c in s.keys && Live(s.keys[c], s.now)
                  then s.keys[c := s.keys[c].(deadline := Some(s.now + WINDOW_MS))] else s.keys;
      s.(keys := keys, pending := s.pending - {r})
    case Crash(r) => s.(pending := s.pending - {r})
  }

  function Init(now: int): State {
    State(now, map[], {}, {}, [])
  }

  function Run(s: State, evs: seq<Event>): State {
    if evs == [] then s else Apply(Run(s, Front(evs)), Last(evs))
  }

  predicate Legal(s: State, evs: seq<Event>) {
    evs == [] || (Legal(s, Front(evs)) && Enabled(Run(s, Front(evs)), Last(evs)))
  }

  ghost predicate Reachable(s: State) {
    exists t0: int, evs: seq<Event> :: Legal(Init(t0), evs) && s == Run(Init(t0), evs)
  }

  // ---------------------------------------------------------------- the invariant

  /** A pending EXPIRE belongs to the live counter its own INCR created, which has no TTL yet. */
  ghost predicate PendingOwnsItsKey(s: State) {
    forall r :: r in s.pending ==>
      r in s.seen && r.client in s.keys && s.keys[r.client].born == r && s.keys[r.client].deadline.None?
  }

  ghost predicate KeysOk(s: State) {
    forall c :: c in s.keys ==>
      var k := s.keys[c];
      && k.born.client == c && k.born in s.seen && k.bornAt <= s.now && 1 <= k.count
      && (k.deadline.Some? ==> k.bornAt + WINDOW_MS <= k.deadline.value)
  }

  ghost predicate EntryOk(s: State, e: Entry) {
    && e.req in s.seen && e.born in s.seen && e.born.client == e.req.client && e.req.client in s.keys
    && e.bornAt <= e.time <= s.now && 1 <= e.count
    && (e.count == 1 <==> e.born == e.req)
    && (e.count == 1 ==> e.bornAt == e.time)
    && NotAfter(e, s.keys[e.req.client].born, s.keys[e.req.client].bornAt, s.keys[e.req.client].count)
    && WithinLife(e, s.keys[e.req.client])
  }

  /** No INCR came after the deadline of its counter. */
  predicate WithinLife(e: Entry, k: Key) {
    e.born == k.born && k.deadline.Some? ==> e.time <= k.deadline.value
  }

  /** `e` was seen in the incarnation (born, bornAt) with at most `count`, or in an earlier one
      that began more than a window before and had ended when this one began. */
  predicate NotAfter(e: Entry, born: Req, bornAt: int, count: nat) {
    if e.born == born then e.bornAt == bornAt && e.count <= count
    else e.bornAt + SPAN <= bornAt && e.time < bornAt
  }

  ghost predicate LogOk(s: State) {
    forall i :: 0 <= i < |s.log| ==> EntryOk(s, s.log[i])
  }

  /** `e` was seen before `f`.  INCRs of one client either fall in one incarnation with
      growing counts, or in incarnations that begin more than a window apart. */
  predicate Follows(e: Entry, f: Entry) {
    && e.time <= f.time
    && (e.req.client == f.req.client ==>
          NotAfter(e, f.born, f.bornAt, f.count) && (e.born == f.born ==> e.count < f.count))
  }

  ghost predicate OrderOk(log: seq<Entry>) {
    forall i, j :: 0 <= i < j < |log| ==> Follows(log[i], log[j])
  }

  /** How many INCRs of the log fell in incarnation `b`. */
  function InIncarnation(log: seq<Entry>, b: Req): nat {
    if log == [] then 0 else InIncarnation(Front(log), b) + (if Last(log).born == b then 1 else 0)
  }

  ghost predicate CountsOk(s: State) {
    && (forall c :: c in s.keys ==> InIncarnation(s.log, s.keys[c].born) == s.keys[c].count)
    && (forall r :: r !in s.seen ==> InIncarnation(s.log, r) == 0)
    && (forall i :: 0 <= i < |s.log| ==> InIncarnation(s.log[..i], s.log[i].born) == s.log[i].count - 1)
  }

  ghost predicate Inv(s: State) {
    PendingOwnsItsKey(s) && KeysOk(s) && LogOk(s) && OrderOk(s.log) && CountsOk(s)
  }

  lemma IncrKeepsCounts(s: State, r: Req)
    requires Inv(s) && r !in s.seen
    ensures CountsOk(Apply(s, Incr(r)))
  {
    var s' := Apply(s, Incr(r));
    var e := Seen(s, r);
    assert Front(s'.log) == s.log && Last(s'.log) == e;
    forall i | 0 <= i < |s'.log|
      ensures InIncarnation(s'.log[..i], s'.log[i].born) == s'.log[i].count - 1
    {
      assert s'.log[..i] == s.log[..i];
      if i == |s.log| { assert s.log[..i] == s.log; }
    }
  }

  lemma IncrSeesOlder(s: State, r: Req, i: nat)
    requires Inv(s) && r !in s.seen && i < |s.log|
    ensures EntryOk(Apply(s, Incr(r)), s.log[i])
    ensures Follows(s.log[i], Seen(s, r))
  {
    assert EntryOk(s, s.log[i]);
  }

  lemma IncrKeepsOrder(s: State, r: Req)
    requires Inv(s) && r !in s.seen
    ensures OrderOk(Apply(s, Incr(r)).log)
    ensures LogOk(Apply(s, Incr(r)))
  {
    var s' := Apply(s, Incr(r));
    forall i, j | 0 <= i < j < |s'.log|
      ensures Follows(s'.log[i], s'.log[j])
    {
      if j == |s.log| { IncrSeesOlder(s, r, i); }
    }
    forall i | 0 <= i < |s'.log|
      ensures EntryOk(s', s'.log[i])
    {
      if i < |s.log| { IncrSeesOlder(s, r, i); }
    }
  }

  lemma IncrKeepsKeys(s: State, r: Req)
    requires PendingOwnsItsKey(s) && KeysOk(s) && r !in s.seen
    ensures PendingOwnsItsKey(Apply(s, Incr(r))) && KeysOk(Apply(s, Incr(r)))
  {
  }

  lemma IncrKeepsInv(s: State, r: Req)
    requires Inv(s) && r !in s.seen
    ensures Inv(Apply(s, Incr(r)))
  {
    IncrKeepsKeys(s, r);
    IncrKeepsCounts(s, r);
    IncrKeepsOrder(s, r);
  }

  /** Nothing but the clock, the deadlines and the pending EXPIREs differs, and time goes on. */
  ghost predicate SameCounts(s: State, s': State) {
    && s'.log == s.log && s'.seen == s.seen && s'.keys.Keys == s.keys.Keys && s.now <= s'.now
    && forall c :: c in s.keys ==>
         var (k, k') := (s.keys[c], s'.keys[c]);
         && k'.born == k.born && k'.bornAt == k.bornAt && k'.count == k.count
         && (k'.deadline == k.deadline || (k'.deadline.Some? && s.now <= k'.deadline.value))
  }

  lemma SameCountsKeepLog(s: State, s': State)
    requires LogOk(s) && SameCounts(s, s')
    ensures LogOk(s')
  {
    forall i | 0 <= i < |s.log|
      ensures EntryOk(s', s'.log[i])
    {
      assert EntryOk(s, s.log[i]);
    }
  }

  lemma SameCountsKeepCounts(s: State, s': State)
    requires CountsOk(s) && SameCounts(s, s')
    ensures CountsOk(s')
  {
  }

  lemma QuietStepKeepsKeys(s: State, ev: Event)
    requires PendingOwnsItsKey(s) && KeysOk(s) && Enabled(s, ev) && !ev.Incr?
    ensures PendingOwnsItsKey(Apply(s, ev)) && KeysOk(Apply(s, ev))
    ensures SameCounts(s, Apply(s, ev))
  {
    match ev
    case Advance(_) =>
    case Expire(r) =>
      assert Apply(s, ev).keys.Keys == s.keys.Keys;
    case Crash(_) =>
  }

  /** The steps other than INCR change neither the log nor any count. */
  lemma QuietStepKeepsInv(s: State, ev: Event)
    requires Inv(s) && Enabled(s, ev) && !ev.Incr?
    ensures Inv(Apply(s, ev))
  {
    QuietStepKeepsKeys(s, ev);
    SameCountsKeepLog(s, Apply(s, ev));
    SameCountsKeepCounts(s, Apply(s, ev));
  }

  lemma InvStep(s: State, ev: Event)
    requires Inv(s) && Enabled(s, ev)
    ensures Inv(Apply(s, ev))
  {
    if ev.Incr? { IncrKeepsInv(s, ev.req); } else { QuietStepKeepsInv(s, ev); }
  }

  lemma {:induction false} InvRun(s: State, evs: seq<Event>)
    requires Inv(s) && Legal(s, evs)
    ensures Inv(Run(s, evs))
  {
    if evs != [] {
      InvRun(s, Front(evs));
      InvStep(Run(s, Front(evs)), Last(evs));
    }
  }

  /** In every reachable state: a pending EXPIRE will land on the incarnation its own INCR
      created; a counter without TTL has no other pending EXPIRE; counts are 1..n. */
  lemma ReachableInv(s: State)
    requires Reachable(s)
    ensures Inv(s)
    ensures forall r, q :: r in s.pending && q in s.pending && r.client == q.client ==> r == q
  {
    var t0: int, evs :| Legal(Init(t0), evs) && s == Run(Init(t0), evs);
    InvRun(Init(t0), evs);
  }

  // ---------------------------------------------------------------- counters without a TTL

  /** The requests whose EXPIRE was lost. */
  function Crashed(evs: seq<Event>): set<Req> {
    set ev | ev in evs && ev.Crash? :: ev.req
  }

  ghost predicate WaitingInv(s: State, crashed: set<Req>) {
    && crashed <= s.seen
    && forall c :: c in s.keys ==>
         (s.keys[c].deadline.None? <==> s.keys[c].born in s.pending || s.keys[c].born in crashed)
  }

  lemma WaitingStep(s: State, ev: Event, crashed: set<Req>)
    requires PendingOwnsItsKey(s) && KeysOk(s) && WaitingInv(s, crashed) && crashed !! s.pending && Enabled(s, ev)
    ensures var crashed' := if ev.Crash? then crashed + {ev.req} else crashed;
      WaitingInv(Apply(s, ev), crashed') && crashed' !! Apply(s, ev).pending
  {
  }

  lemma CrashedGrows(evs: seq<Event>)
    requires evs != []
    ensures Crashed(evs) == if Last(evs).Crash? then Crashed(Front(evs)) + {Last(evs).req} else Crashed(Front(evs))
  {
    assert evs == Front(evs) + [Last(evs)];
    assert forall ev :: ev in evs <==> ev in Front(evs) || ev == Last(evs);
  }

  lemma {:induction false} WaitingRun(t0: int, evs: seq<Event>)
    requires Legal(Init(t0), evs)
    ensures Inv(Run(Init(t0), evs))
    ensures WaitingInv(Run(Init(t0), evs), Crashed(evs)) && Crashed(evs) !! Run(Init(t0), evs).pending
  {
    InvRun(Init(t0), evs);
    if evs != [] {
      WaitingRun(t0, Front(evs));
      WaitingStep(Run(Init(t0), Front(evs)), Last(evs), Crashed(Front(evs)));
      CrashedGrows(evs);
    }
  }

  /** The pending EXPIREs of one client. */
  function PendingOf(s: State, c: string): set<Req> {
    set r | r in s.pending && r.client == c
  }

  /** In every run a counter has no TTL exactly when the EXPIRE of the INCR that created it is still
      pending or was lost; and while no request has crashed, a counter without a TTL has exactly
      one pending EXPIRE, its own, and one with a TTL has none. */
  lemma WaitingKeys(t0: int, evs: seq<Event>, c: string)
    requires Legal(Init(t0), evs) && c in Run(Init(t0), evs).keys
    ensures var s := Run(Init(t0), evs);
      var k := s.keys[c];
      && (k.deadline.None? <==> k.born in s.pending || Crash(k.born) in evs)
      && PendingOf(s, c) <= {k.born}
      && ((forall ev :: ev in evs ==> !ev.Crash?) ==>
            PendingOf(s, c) == if k.deadline.None? then {k.born} else {})
  {
    WaitingRun(t0, evs);
    var s := Run(Init(t0), evs);
    var k := s.keys[c];
    assert k.born in Crashed(evs) <==> Crash(k.born) in evs;
    assert k.born.client == c;
  }

  // ---------------------------------------------------------------- bounds over every run

  /** `if count > limit` is the rejecting branch. */
  predicate Admits(e: Entry, limit: int) {
    e.count <= limit
  }

  predicate Counted(e: Entry, c: string, lo: int, hi: int, limit: int) {
    e.req.client == c && lo <= e.time < hi && Admits(e, limit)
  }

  ghost function AdmittedAt(log: seq<Entry>, c: string, lo: int, hi: int, limit: int): set<int> {
    set i | 0 <= i < |log| && Counted(log[i], c, lo, hi, limit)
  }

  /** How many INCRs of client `c` in the half-open interval [lo, hi) were admitted. */
  ghost function Admitted(log: seq<Entry>, c: string, lo: int, hi: int, limit: int): nat {
    |AdmittedAt(log, c, lo, hi, limit)|
  }

  /** Numbers an admitted INCR: the incarnations are 0 for one that began before `start` and
      1 + floor((bornAt - start) / SPAN) otherwise. */
  function Code(e: Entry, start: int, limit: int): int {
    (if e.bornAt < start then 0 else 1 + (e.bornAt - start) / SPAN) * limit + (e.count - 1)
  }

  lemma MulAtLeast(d: int, m: nat)
    requires 1 <= d
    ensures d * m >= m
  {
    assert (d - 1) * m >= 0;
  }

  lemma DivisionIsUnique(q: int, x: int, p: int, y: int, m: int)
    requires 0 <= x < m && 0 <= y < m && q * m + x == p * m + y
    ensures q == p && x == y
  {
    if q < p {
      MulAtLeast(p - q, m);
    } else if p < q {
      MulAtLeast(q - p, m);
    }
  }

  ghost predicate LogShape(log: seq<Entry>) {
    && OrderOk(log)
    && (forall i :: 0 <= i < |log| ==>
          && log[i].bornAt <= log[i].time && 1 <= log[i].count
          && (log[i].count == 1 ==> log[i].bornAt == log[i].time))
  }

  lemma CodesDiffer(log: seq<Entry>, c: string, lo: int, hi: int, limit: int, start: int, i: nat, j: nat)
    requires LogShape(log) && i < j < |log| && start <= lo + 1
    requires Counted(log[i], c, lo, hi, limit) && Counted(log[j], c, lo, hi, limit)
    ensures Code(log[i], start, limit) != Code(log[j], start, limit)
  {
    var (e, f) := (log[i], log[j]);
    assert Follows(e, f);
    if Code(e, start, limit) == Code(f, start, limit) {
      DivisionIsUnique(
        if e.bornAt < start then 0 else 1 + (e.bornAt - start) / SPAN, e.count - 1,
        if f.bornAt < start then 0 else 1 + (f.bornAt - start) / SPAN, f.count - 1, limit);
    }
  }

  /** The codes of a whole log, moved down by `shift`. */
  function Codes(log: seq<Entry>, start: int, limit: int, shift: int): (codes: seq<int>)
    ensures |codes| == |log|
    ensures forall i :: 0 <= i < |log| ==> codes[i] == Code(log[i], start, limit) - shift
  {
    seq(|log|, i requires 0 <= i < |log| => Code(log[i], start, limit) - shift)
  }

  lemma CountedAtMost(log: seq<Entry>, c: string, lo: int, hi: int, limit: int, start: int, shift: int, most: nat)
    requires LogShape(log) && start <= lo + 1
    requires forall i :: i in AdmittedAt(log, c, lo, hi, limit) ==> 1 <= Code(log[i], start, limit) - shift <= most
    ensures Admitted(log, c, lo, hi, limit) <= most
  {
    var ix := AdmittedAt(log, c, lo, hi, limit);
    var codes := Codes(log, start, limit, shift);
    forall i, j | i in ix && j in ix && i != j
      ensures codes[i] != codes[j]
    {
      if i < j { CodesDiffer(log, c, lo, hi, limit, start, i, j); } else { CodesDiffer(log, c, lo, hi, limit, start, j, i); }
    }
    Injection(ix, codes, most);
  }

  lemma ReachableShape(s: State)
    requires Reachable(s)
    ensures Inv(s) && LogShape(s.log)
  {
    ReachableInv(s);
    assert forall i :: 0 <= i < |s.log| ==> EntryOk(s, s.log[i]);
  }

  /** The most INCRs of one client that an interval of `len` milliseconds can see admitted: a full
      count for each incarnation that can begin in it, and all but the first of one that began
      before, when there is a millisecond to spare for it. */
  function Most(len: int, limit: int): int
    requires 1 <= len
  {
    if limit <= 0 then 0
    else ((len - 1) / SPAN + 1) * limit + (if (len - 1) % SPAN == 0 then 0 else limit - 1)
  }

  lemma QuotientTimes(q: int, n: int, limit: int)
    requires 0 <= q <= n && 0 <= limit
    ensures 0 <= q * limit <= n * limit
  {
    if q < n { MulAtLeast(n - q, limit); }
    if 0 < q { MulAtLeast(q, limit); }
  }

  /** Without an incarnation that began earlier, the codes start with the interval. */
  lemma CodeOfNew(e: Entry, t: int, len: int, limit: int)
    requires 1 <= len && 1 <= limit && 1 <= e.count <= limit && t <= e.bornAt <= e.time < t + len
    ensures 1 <= Code(e, t, limit) - (limit - 1) <= Most(len, limit)
  {
    var (q, n) := ((e.bornAt - t) / SPAN, (len - 1) / SPAN);
    QuotientTimes(q, n, limit);
    assert (1 + q) * limit == q * limit + limit && (n + 1) * limit == n * limit + limit;
  }

  lemma NextQuotient(q: int, len: int)
    requires 2 <= len && q == (len - 2) / SPAN
    ensures q == if (len - 1) % SPAN == 0 then (len - 1) / SPAN - 1 else (len - 1) / SPAN
  {
  }

  /** With one, no other begins in the interval's first millisecond, and the codes start after it. */
  lemma CodeBesideOld(e: Entry, t: int, len: int, limit: int)
    requires 1 <= len && 1 <= e.count <= limit && e.bornAt <= e.time && t <= e.time < t + len
    requires e.bornAt != t && (e.count == 1 ==> e.bornAt == e.time)
    ensures 1 <= Code(e, t + 1, limit) <= Most(len, limit)
  {
    var n := (len - 1) / SPAN;
    assert (n + 1) * limit == n * limit + limit;
    QuotientTimes(0, n, limit);
    if e.bornAt > t {
      var q := (e.bornAt - t - 1) / SPAN;
      NextQuotient((len - 2) / SPAN, len);
      QuotientTimes(q, (len - 2) / SPAN, limit);
      assert (1 + q) * limit == q * limit + limit;
      assert (n - 1) * limit == n * limit - limit;
    }
  }

  lemma NoneBeginsWithOld(log: seq<Entry>, i: nat, j: nat, t: int)
    requires LogShape(log) && i < |log| && j < |log| && log[i].req.client == log[j].req.client
    requires log[i].bornAt < t <= log[i].time && t <= log[j].time
    ensures log[j].bornAt != t
  {
    if i < j { assert Follows(log[i], log[j]); }
    if j < i { assert Follows(log[j], log[i]); }
  }

  lemma BoundBesideOld(log: seq<Entry>, c: string, t: int, len: int, limit: int, i: nat)
    requires LogShape(log) && 1 <= len && i in AdmittedAt(log, c, t, t + len, limit) && log[i].bornAt < t
    ensures Admitted(log, c, t, t + len, limit) <= Most(len, limit)
  {
    forall j | j in AdmittedAt(log, c, t, t + len, limit)
      ensures 1 <= Code(log[j], t + 1, limit) <= Most(len, limit)
    {
      NoneBeginsWithOld(log, i, j, t);
      CodeBesideOld(log[j], t, len, limit);
    }
    CodeBesideOld(log[i], t, len, limit);
    CountedAtMost(log, c, t, t + len, limit, t + 1, 0, Most(len, limit));
  }

  lemma MostIsNotNegative(len: int, limit: int)
    requires 1 <= len
    ensures 0 <= Most(len, limit)
  {
    if 1 <= limit { QuotientTimes(0, (len - 1) / SPAN + 1, limit); }
  }

  lemma BoundWithoutOld(log: seq<Entry>, c: string, t: int, len: int, limit: int)
    requires LogShape(log) && 1 <= len && 1 <= limit
    requires forall i :: i in AdmittedAt(log, c, t, t + len, limit) ==> t <= log[i].bornAt
    ensures Admitted(log, c, t, t + len, limit) <= Most(len, limit)
  {
    MostIsNotNegative(len, limit);
    forall j | j in AdmittedAt(log, c, t, t + len, limit)
      ensures 1 <= Code(log[j], t, limit) - (limit - 1) <= Most(len, limit)
    {
      CodeOfNew(log[j], t, len, limit);
    }
    CountedAtMost(log, c, t, t + len, limit, t, limit - 1, Most(len, limit));
  }

  /** In every run, under any interleaving, delay or crash: an interval of any length admits at
      most `Most` INCRs of one client. */
  lemma IntervalBound(s: State, c: string, t: int, len: int, limit: int)
    requires Reachable(s) && 1 <= len
    ensures Admitted(s.log, c, t, t + len, limit) <= Most(len, limit)
  {
    ReachableShape(s);
    var ix := AdmittedAt(s.log, c, t, t + len, limit);
    if limit <= 0 {
      assert ix == {};
    } else if exists i :: i in ix && s.log[i].bornAt < t {
      var i :| i in ix && s.log[i].bornAt < t;
      BoundBesideOld(s.log, c, t, len, limit, i);
    } else {
      BoundWithoutOld(s.log, c, t, len, limit);
    }
  }

  lemma WindowsInSpans(k: int)
    requires 1 <= k
    ensures 0 <= (k * WINDOW_MS - 1) / SPAN <= k - 1
    ensures k < WINDOW_MS ==> (k * WINDOW_MS - 1) / SPAN == k - 1 && (k * WINDOW_MS - 1) % SPAN != 0
  {
    var x := k * WINDOW_MS - 1;
    assert x == (k - 1) * SPAN + (WINDOW_MS - k);
    if k < WINDOW_MS {
      DivisionIsUnique(x / SPAN, x % SPAN, k - 1, WINDOW_MS - k, SPAN);
    }
  }

  lemma MostInWindows(k: nat, limit: int)
    requires 1 <= k && 1 <= limit
    ensures Most(k * WINDOW_MS, limit) <= (k + 1) * limit - 1
    ensures k < WINDOW_MS ==> Most(k * WINDOW_MS, limit) == (k + 1) * limit - 1
  {
    WindowsInSpans(k);
    QuotientTimes((k * WINDOW_MS - 1) / SPAN + 1, k, limit);
    assert (k + 1) * limit == k * limit + limit;
  }

  /** k windows admit at most (k + 1) * limit - 1 INCRs of one client, and none when the limit is
      not positive; for k below 60000, some forty days, that is the very `Most` of `IntervalBound`. */
  lemma WindowBound(s: State, c: string, t: int, k: nat, limit: int)
    requires Reachable(s) && 1 <= k
    ensures Admitted(s.log, c, t, t + k * 60000, limit) <= if limit <= 0 then 0 else (k + 1) * limit - 1
    ensures 1 <= limit && k < 60000 ==> Most(k * 60000, limit) == (k + 1) * limit - 1
  {
    IntervalBound(s, c, t, k * WINDOW_MS, limit);
    if 1 <= limit { MostInWindows(k, limit); }
  }

  /** A request is turned away exactly when `limit` earlier INCRs fell in its incarnation. */
  lemma RejectionIsExact(s: State, j: nat, limit: nat)
    requires Reachable(s) && j < |s.log|
    ensures !Admits(s.log[j], limit) <==> InIncarnation(s.log[..j], s.log[j].born) >= limit
  {
    ReachableInv(s);
  }
}
