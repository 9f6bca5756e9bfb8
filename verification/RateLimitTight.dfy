/** The admission bound of `RateLimit.IntervalBound` is attained, for every limit and every
    length of the interval. */
module RateLimitTight {
  import opened Prelude
  import opened RateLimit

  lemma {:induction false} RunConcat(s: State, a: seq<Event>, b: seq<Event>)
    requires Legal(s, a) && Legal(Run(s, a), b)
    ensures Legal(s, a + b) && Run(s, a + b) == Run(Run(s, a), b)
  {
    if b == [] {
      assert a + b == a;
    } else {
      RunConcat(s, a, Front(b));
      assert Front(a + b) == a + Front(b);
    }
  }

  lemma RunOne(s: State, ev: Event)
    requires Enabled(s, ev)
    ensures Legal(s, [ev]) && Run(s, [ev]) == Apply(s, ev)
  {
    assert Front([ev]) == [];
  }

  predicate FreshFrom(s: State, c: string, id: nat) {
    forall r :: r in s.seen && r.client == c ==> r.id < id
  }

  /** The entries from `n` on are INCRs of `c` that a positive `limit` admits, in [lo, hi). */
  predicate Good(log: seq<Entry>, n: nat, c: string, lo: int, hi: int, limit: int) {
    forall i :: n <= i < |log| ==> Counted(log[i], c, lo, hi, limit)
  }

  /** `n` INCRs in a row. */
  function Burst(c: string, id: nat, n: nat): seq<Event> {
    if n == 0 then [] else Burst(c, id, n - 1) + [Incr(Req(id + n - 1, c))]
  }

  /** `p` is `s` after `n` further INCRs of `c` with fresh ids from `id`. */
  predicate AfterBurst(s: State, p: State, c: string, id: nat, n: nat, limit: int) {
    && p.now == s.now && FreshFrom(p, c, id + n) && c in s.keys && c in p.keys
    && p.keys[c] == s.keys[c].(count := s.keys[c].count + n)
    && s.log <= p.log && |p.log| == |s.log| + n
    && Good(p.log, |s.log|, c, s.now, s.now + 1, limit)
  }

  lemma BurstStep(s: State, p: State, c: string, id: nat, n: nat, limit: nat)
    requires AfterBurst(s, p, c, id, n, limit) && Live(s.keys[c], s.now)
    requires 1 <= s.keys[c].count && s.keys[c].count + n + 1 <= limit
    ensures Enabled(p, Incr(Req(id + n, c)))
    ensures AfterBurst(s, Apply(p, Incr(Req(id + n, c))), c, id, n + 1, limit)
  {
  }

  lemma {:induction false} BurstRuns(s: State, c: string, id: nat, n: nat, limit: nat)
    requires FreshFrom(s, c, id) && c in s.keys && Live(s.keys[c], s.now)
    requires 1 <= s.keys[c].count && s.keys[c].count + n <= limit
    ensures Legal(s, Burst(c, id, n))
    ensures AfterBurst(s, Run(s, Burst(c, id, n)), c, id, n, limit)
  {
    if n > 0 {
      BurstRuns(s, c, id, n - 1, limit);
      var p := Run(s, Burst(c, id, n - 1));
      assert Front(Burst(c, id, n)) == Burst(c, id, n - 1) && Last(Burst(c, id, n)) == Incr(Req(id + (n - 1), c));
      BurstStep(s, p, c, id, n - 1, limit);
      assert Run(s, Burst(c, id, n)) == Apply(p, Incr(Req(id + (n - 1), c)));
    }
  }

  /** A whole window used up at once: INCR, EXPIRE, limit - 1 more INCRs, then `wait` ms. */
  function Round(c: string, id: nat, limit: nat, wait: nat): seq<Event>
    requires 1 <= limit
  {
    [Incr(Req(id, c))] + [Expire(Req(id, c))] + Burst(c, id + 1, limit - 1) + [Advance(wait)]
  }

  lemma RoundRuns(s: State, c: string, id: nat, limit: nat, wait: nat)
    requires 1 <= limit && FreshFrom(s, c, id) && (c in s.keys ==> !Live(s.keys[c], s.now))
    ensures Legal(s, Round(c, id, limit, wait))
    ensures var p := Run(s, Round(c, id, limit, wait));
      && p.now == s.now + wait && FreshFrom(p, c, id + limit)
      && (WINDOW_MS < wait ==> c in p.keys && !Live(p.keys[c], p.now))
      && s.log <= p.log && |p.log| == |s.log| + limit
      && Good(p.log, |s.log|, c, s.now, s.now + 1, limit)
  {
    var r := Req(id, c);
    var s1, s2 := Apply(s, Incr(r)), Apply(Apply(s, Incr(r)), Expire(r));
    RunOne(s, Incr(r));
    RunOne(s1, Expire(r));
    RunConcat(s, [Incr(r)], [Expire(r)]);
    BurstRuns(s2, c, id + 1, limit - 1, limit);
    RunConcat(s, [Incr(r)] + [Expire(r)], Burst(c, id + 1, limit - 1));
    var s3 := Run(s2, Burst(c, id + 1, limit - 1));
    RunOne(s3, Advance(wait));
    RunConcat(s, [Incr(r)] + [Expire(r)] + Burst(c, id + 1, limit - 1), [Advance(wait)]);
  }

  /** One INCR at 0 and its EXPIRE, limit - 1 INCRs in the millisecond of its deadline, then on to
      the next one. */
  function Opening(c: string, limit: nat): seq<Event>
    requires 1 <= limit
  {
    [Incr(Req(0, c))] + [Expire(Req(0, c))] + [Advance(WINDOW_MS)] + Burst(c, 1, limit - 1) + [Advance(1)]
  }

  /** The opening, or as long a silence, and then `n` full counts back to back. */
  function Worst(c: string, limit: nat, primed: bool, n: nat): seq<Event>
    requires 1 <= limit
  {
    if n == 0 then if primed then Opening(c, limit) else [Advance(SPAN)]
    else Worst(c, limit, primed, n - 1) + Round(c, n * limit, limit, SPAN)
  }

  lemma OpeningRuns(c: string, limit: nat)
    requires 1 <= limit
    ensures Legal(Init(0), Opening(c, limit))
    ensures var p := Run(Init(0), Opening(c, limit));
      && p.now == SPAN && FreshFrom(p, c, limit) && (c in p.keys ==> !Live(p.keys[c], p.now))
      && |p.log| == limit && p.log[0].time == 0
      && Good(p.log, 1, c, WINDOW_MS, SPAN, limit)
  {
    var r := Req(0, c);
    var s0 := Init(0);
    var s1 := Apply(s0, Incr(r));
    var s2 := Apply(s1, Expire(r));
    var s3 := Apply(s2, Advance(WINDOW_MS));
    RunOne(s0, Incr(r));
    RunOne(s1, Expire(r));
    RunConcat(s0, [Incr(r)], [Expire(r)]);
    RunOne(s2, Advance(WINDOW_MS));
    RunConcat(s0, [Incr(r)] + [Expire(r)], [Advance(WINDOW_MS)]);
    BurstRuns(s3, c, 1, limit - 1, limit);
    RunConcat(s0, [Incr(r)] + [Expire(r)] + [Advance(WINDOW_MS)], Burst(c, 1, limit - 1));
    var s4 := Run(s3, Burst(c, 1, limit - 1));
    RunOne(s4, Advance(1));
    RunConcat(s0, [Incr(r)] + [Expire(r)] + [Advance(WINDOW_MS)] + Burst(c, 1, limit - 1), [Advance(1)]);
  }

  /** An upper limit on the times logged up to the `n`-th round. */
  function End(n: nat): int {
    if n == 0 then SPAN else n * SPAN + 1
  }

  /** When the interval begins that sees the most: with the opening, in its deadline's millisecond. */
  function Start(primed: bool): int {
    if primed then WINDOW_MS else SPAN
  }

  /** The state `p` after the opening or the silence, and `n` rounds. */
  predicate AfterWorst(p: State, c: string, limit: nat, primed: bool, n: nat) {
    && p.now == (n + 1) * SPAN && FreshFrom(p, c, (n + 1) * limit)
    && (c in p.keys ==> !Live(p.keys[c], p.now))
    && |p.log| == (if primed then limit else 0) + n * limit
    && (primed ==> 1 <= |p.log| && p.log[0].time == 0)
    && Good(p.log, if primed then 1 else 0, c, Start(primed), End(n), limit)
  }

  lemma RoundAfterWorst(p: State, c: string, limit: nat, primed: bool, n: nat)
    requires 1 <= limit && AfterWorst(p, c, limit, primed, n)
    ensures Legal(p, Round(c, (n + 1) * limit, limit, SPAN))
    ensures AfterWorst(Run(p, Round(c, (n + 1) * limit, limit, SPAN)), c, limit, primed, n + 1)
  {
    RoundRuns(p, c, (n + 1) * limit, limit, SPAN);
    assert (n + 1) * limit + limit == (n + 2) * limit && n * limit + limit == (n + 1) * limit;
  }

  lemma {:induction false} WorstRuns(c: string, limit: nat, primed: bool, n: nat)
    requires 1 <= limit
    ensures Legal(Init(0), Worst(c, limit, primed, n))
    ensures AfterWorst(Run(Init(0), Worst(c, limit, primed, n)), c, limit, primed, n)
  {
    if n == 0 {
      if primed { OpeningRuns(c, limit); } else { RunOne(Init(0), Advance(SPAN)); }
    } else {
      WorstRuns(c, limit, primed, n - 1);
      RoundAfterWorst(Run(Init(0), Worst(c, limit, primed, n - 1)), c, limit, primed, n - 1);
      RunConcat(Init(0), Worst(c, limit, primed, n - 1), Round(c, n * limit, limit, SPAN));
    }
  }

  /** The positions from `m` up to `n`. */
  ghost function Positions(m: nat, n: nat): set<int> {
    if n <= m then {} else Positions(m, n - 1) + {n - 1}
  }

  lemma {:induction false} PositionsSize(m: nat, n: nat)
    requires m <= n
    ensures |Positions(m, n)| == n - m
    ensures forall i :: i in Positions(m, n) <==> m <= i < n
  {
    if m < n { PositionsSize(m, n - 1); }
  }

  lemma GoodAreAdmitted(log: seq<Entry>, m: nat, c: string, lo: int, hi: int, limit: int)
    requires m <= |log| && Good(log, m, c, lo, hi, limit) && forall i :: 0 <= i < m ==> log[i].time < lo
    ensures Admitted(log, c, lo, hi, limit) == |log| - m
  {
    PositionsSize(m, |log|);
    assert AdmittedAt(log, c, lo, hi, limit) == Positions(m, |log|);
  }

  /** Whether an interval of this length has a millisecond to spare for an earlier incarnation. */
  predicate Spare(len: int) {
    (len - 1) % SPAN != 0
  }

  lemma AfterWorstAdmits(s: State, c: string, limit: nat, len: int)
    requires 1 <= limit && 1 <= len && AfterWorst(s, c, limit, Spare(len), (len - 1) / SPAN + 1)
    ensures Admitted(s.log, c, Start(Spare(len)), Start(Spare(len)) + len, limit) == Most(len, limit)
  {
    var (primed, n) := (Spare(len), (len - 1) / SPAN + 1);
    assert End(n) <= Start(primed) + len;
    assert 0 <= n * limit;
    GoodAreAdmitted(s.log, if primed then 1 else 0, c, Start(primed), Start(primed) + len, limit);
  }

  /** For every positive limit and every length there is a run in which an interval of that length
      sees exactly `Most` requests of one client admitted. */
  lemma BoundIsAttained(c: string, limit: nat, len: int)
    requires 1 <= limit && 1 <= len
    ensures exists s ::
      (Reachable(s) && Admitted(s.log, c, Start(Spare(len)), Start(Spare(len)) + len, limit) == Most(len, limit))
  {
    var evs := Worst(c, limit, Spare(len), (len - 1) / SPAN + 1);
    WorstRuns(c, limit, Spare(len), (len - 1) / SPAN + 1);
    AfterWorstAdmits(Run(Init(0), evs), c, limit, len);
    assert Reachable(Run(Init(0), evs));
  }
}
