/** What every interleaving of the fan-out keeps. */
module FanoutRuns {
  import opened Prelude
  import opened Envelopes
  import opened Fanout

  // ---------------------------------------------------------------- the invariant

  ghost predicate SubOk(s: State, i: nat)
    requires i < |s.subs|
  {
    var sub := s.subs[i];
    && sub.taken <= |sub.arrived|
    && (!sub.phase.Idle? ==>
          && sub.taken == sub.phase.pos + 1
          && sub.phase.m == sub.arrived[sub.phase.pos] && sub.phase.m.domain.Some?)
    && (sub.phase.Storing? ==> (i, sub.phase.pos) !in s.snapshots)
    && (sub.phase.Sending? ==>
          && sub.phase.next < |sub.phase.order|
          && (i, sub.phase.pos) in s.snapshots && s.snapshots[(i, sub.phase.pos)] == sub.phase.order
          && sub.phase.dead == FailedSocks(s.attempts, i, sub.phase.pos)
          && InStore(s, sub.phase.m))
  }

  ghost predicate SubsOk(s: State) {
    |s.subs| == 3 && forall i :: 0 <= i < 3 ==> SubOk(s, i)
  }

  /** The message is in the store that its domain selects. */
  predicate InStore(s: State, m: Message) {
    if m.domain == Some(PM) then m in s.metrics else m in s.events
  }

  ghost predicate StoresOk(s: State) {
    && (forall m :: m in s.metrics ==> m.domain == Some(PM))
    && (forall m :: m in s.events ==> m.domain == Some(FM) || m.domain == Some(LOG))
  }

  ghost predicate Routed(s: State)
    requires |s.subs| == 3
  {
    forall i, p :: 0 <= i < 3 && 0 <= p < |s.subs[i].arrived| ==>
      s.subs[i].arrived[p].id in s.published && Matches(SUBJECTS[i], s.subs[i].arrived[p].subject)
  }

  ghost predicate DistinctIds(log: seq<Message>) {
    forall p, q :: 0 <= p < q < |log| ==> log[p].id != log[q].id
  }

  ghost predicate DisjointIds(a: seq<Message>, b: seq<Message>) {
    forall p, q :: 0 <= p < |a| && 0 <= q < |b| ==> a[p].id != b[q].id
  }

  ghost predicate ArrivalsOk(s: State)
    requires |s.subs| == 3
  {
    && Routed(s)
    && (forall i :: 0 <= i < 3 ==> DistinctIds(s.subs[i].arrived))
    && (forall i, j :: 0 <= i < j < 3 ==> DisjointIds(s.subs[i].arrived, s.subs[j].arrived))
  }

  /** The sockets tried in one broadcast, in order. */
  function Tried(log: seq<Attempt>, i: nat, pos: nat): seq<Sock> {
    if log == [] then []
    else Tried(Front(log), i, pos) + if Last(log).sub == i && Last(log).pos == pos then [Last(log).sock] else []
  }

  function FailedSocks(log: seq<Attempt>, i: nat, pos: nat): seq<Sock> {
    if log == [] then []
    else FailedSocks(Front(log), i, pos)
         + if Last(log).sub == i && Last(log).pos == pos && !Last(log).ok then [Last(log).sock] else []
  }

  ghost predicate AttemptOk(s: State, a: Attempt)
    requires |s.subs| == 3
  {
    && a.sub < 3 && a.pos < s.subs[a.sub].taken <= |s.subs[a.sub].arrived|
    && a.m == s.subs[a.sub].arrived[a.pos] && InStore(s, a.m) && (a.sub, a.pos) in s.snapshots
  }

  ghost predicate AttemptsOk(s: State)
    requires |s.subs| == 3
  {
    forall k :: 0 <= k < |s.attempts| ==> AttemptOk(s, s.attempts[k])
  }

  /** A socket's sends of one subscription go through its messages strictly forwards. */
  ghost predicate Forwards(log: seq<Attempt>) {
    forall j, k :: 0 <= j < k < |log| && log[j].sub == log[k].sub && log[j].sock == log[k].sock ==>
      log[j].pos < log[k].pos
  }

  /** What is due of a broadcast: the part of its snapshot already tried, or all once finished. */
  function Due(s: State, i: nat, pos: nat): seq<Sock>
    requires |s.subs| == 3 && i < 3 && (i, pos) in s.snapshots
  {
    var p := s.subs[i].phase;
    if p.Sending? && p.pos == pos && p.next <= |p.order| then p.order[..p.next] else s.snapshots[(i, pos)]
  }

  ghost predicate RoundsOk(s: State)
    requires |s.subs| == 3
  {
    forall i: nat, pos: nat :: (i, pos) in s.snapshots ==>
      && i < 3 && pos < s.subs[i].taken && Distinct(s.snapshots[(i, pos)])
      && Elements(s.snapshots[(i, pos)]) <= s.joined
      && Tried(s.attempts, i, pos) == Due(s, i, pos)
  }

  ghost predicate Inv(s: State) {
    && SubsOk(s) && StoresOk(s) && ArrivalsOk(s) && AttemptsOk(s) && Forwards(s.attempts) && RoundsOk(s)
    && s.connections <= s.joined
  }

  // ---------------------------------------------------------------- steps

  /** What no step undoes: arrivals, takes, stored messages, snapshots, joined sockets. */
  ghost predicate Later(s: State, s': State) {
    && |s.subs| == |s'.subs| == 3
    && (forall i :: 0 <= i < 3 ==> s.subs[i].arrived <= s'.subs[i].arrived && s.subs[i].taken <= s'.subs[i].taken)
    && (forall m :: m in s.metrics ==> m in s'.metrics)
    && (forall m :: m in s.events ==> m in s'.events)
    && (forall k :: k in s.snapshots ==> k in s'.snapshots)
    && s.joined <= s'.joined
  }

  lemma StepIsLater(e: bool, s: State, ev: Event)
    requires |s.subs| == 3 && Enabled(s, ev)
    ensures Later(s, Apply(e, s, ev))
  {
  }

  lemma AttemptsStay(s: State, s': State)
    requires Later(s, s') && AttemptsOk(s) && SubsOk(s')
    ensures forall k :: 0 <= k < |s.attempts| ==> AttemptOk(s', s.attempts[k])
  {
    forall k | 0 <= k < |s.attempts| ensures AttemptOk(s', s.attempts[k]) {
      assert AttemptOk(s, s.attempts[k]) && SubOk(s', s.attempts[k].sub);
    }
  }

  lemma ArrivalsStay(s: State, s': State)
    requires |s.subs| == |s'.subs| == 3 && ArrivalsOk(s) && s.published == s'.published
    requires forall i :: 0 <= i < 3 ==> s.subs[i].arrived == s'.subs[i].arrived
    ensures ArrivalsOk(s')
  {
  }

  /** A step that neither sends nor takes a snapshot leaves all rounds as they are. */
  lemma RoundsStay(s: State, s': State)
    requires Later(s, s') && RoundsOk(s) && s.snapshots == s'.snapshots && s.attempts == s'.attempts
    requires forall i :: 0 <= i < 3 ==>
               (s.subs[i].phase.Sending? || s'.subs[i].phase.Sending? ==> s.subs[i].phase == s'.subs[i].phase)
    ensures RoundsOk(s')
  {
    forall i: nat, pos: nat | (i, pos) in s'.snapshots
      ensures i < 3 && Tried(s'.attempts, i, pos) == Due(s', i, pos)
    {
      assert Tried(s.attempts, i, pos) == Due(s, i, pos);
    }
  }

  lemma PublishArrives(e: bool, s: State, m: Message)
    requires |s.subs| == 3 && ArrivalsOk(s) && Enabled(s, Publish(m))
    ensures ArrivalsOk(Apply(e, s, Publish(m)))
  {
    var s' := Apply(e, s, Publish(m));
    forall i | 0 <= i < 3 ensures DistinctIds(s'.subs[i].arrived) {
      assert DistinctIds(s.subs[i].arrived);
    }
    forall i, j | 0 <= i < j < 3 ensures DisjointIds(s'.subs[i].arrived, s'.subs[j].arrived) {
      assert DisjointIds(s.subs[i].arrived, s.subs[j].arrived);
      if Matches(SUBJECTS[i], m.subject) && Matches(SUBJECTS[j], m.subject) {
        OneSubscription(i, j, m.subject);
      }
    }
  }

  lemma PublishKeeps(e: bool, s: State, m: Message)
    requires Inv(s) && Enabled(s, Publish(m))
    ensures Inv(Apply(e, s, Publish(m)))
  {
    var s' := Apply(e, s, Publish(m));
    forall i | 0 <= i < 3 ensures SubOk(s', i) {
      assert SubOk(s, i);
    }
    StepIsLater(e, s, Publish(m));
    PublishArrives(e, s, m);
    AttemptsStay(s, s');
    RoundsStay(s, s');
  }

  lemma TakeSubs(e: bool, s: State, i: nat)
    requires SubsOk(s) && RoundsOk(s) && Enabled(s, Take(i))
    ensures SubsOk(Apply(e, s, Take(i)))
  {
    var s' := Apply(e, s, Take(i));
    forall j | 0 <= j < 3 ensures SubOk(s', j) {
      assert SubOk(s, j);
    }
  }

  lemma TakeKeeps(e: bool, s: State, i: nat)
    requires Inv(s) && Enabled(s, Take(i))
    ensures Inv(Apply(e, s, Take(i)))
  {
    var s' := Apply(e, s, Take(i));
    StepIsLater(e, s, Take(i));
    TakeSubs(e, s, i);
    ArrivalsStay(s, s');
    AttemptsStay(s, s');
    RoundsStay(s, s');
  }

  lemma StoreFailsKeeps(e: bool, s: State, i: nat)
    requires Inv(s) && Enabled(s, StoreFails(i))
    ensures Inv(Apply(e, s, StoreFails(i)))
  {
    var s' := Apply(e, s, StoreFails(i));
    forall j | 0 <= j < 3 ensures SubOk(s', j) { assert SubOk(s, j); }
    StepIsLater(e, s, StoreFails(i));
    ArrivalsStay(s, s');
    AttemptsStay(s, s');
    RoundsStay(s, s');
  }

  lemma SocketsKeep(e: bool, s: State, ev: Event)
    requires Inv(s) && Enabled(s, ev) && (ev.Connect? || ev.Disconnect?)
    ensures Inv(Apply(e, s, ev))
  {
    var s' := Apply(e, s, ev);
    forall j | 0 <= j < 3 ensures SubOk(s', j) { assert SubOk(s, j); }
    StepIsLater(e, s, ev);
    ArrivalsStay(s, s');
    AttemptsStay(s, s');
    RoundsStay(s, s');
  }

  lemma {:induction false} TriedHas(log: seq<Attempt>, k: nat)
    requires k < |log|
    ensures log[k].sock in Tried(log, log[k].sub, log[k].pos)
  {
    if k < |log| - 1 {
      TriedHas(Front(log), k);
    }
  }

  lemma {:induction false} NothingTried(log: seq<Attempt>, i: nat, pos: nat)
    requires forall k :: 0 <= k < |log| ==> !(log[k].sub == i && log[k].pos == pos)
    ensures Tried(log, i, pos) == [] && FailedSocks(log, i, pos) == []
  {
    if log != [] {
      NothingTried(Front(log), i, pos);
    }
  }

  lemma FreshRound(s: State, i: nat)
    requires SubsOk(s) && AttemptsOk(s) && i < 3 && s.subs[i].phase.Storing?
    ensures Tried(s.attempts, i, s.subs[i].phase.pos) == []
    ensures FailedSocks(s.attempts, i, s.subs[i].phase.pos) == []
  {
    assert SubOk(s, i);
    var pos := s.subs[i].phase.pos;
    forall k | 0 <= k < |s.attempts| ensures !(s.attempts[k].sub == i && s.attempts[k].pos == pos) {
      assert AttemptOk(s, s.attempts[k]);
    }
    NothingTried(s.attempts, i, pos);
  }

  lemma StoresOwnSub(e: bool, s: State, i: nat, order: seq<Sock>)
    requires SubsOk(s) && AttemptsOk(s) && Enabled(s, Stores(i, order))
    ensures SubOk(Apply(e, s, Stores(i, order)), i)
  {
    assert SubOk(s, i);
    FreshRound(s, i);
  }

  lemma StoresOtherSub(e: bool, s: State, i: nat, order: seq<Sock>, j: nat)
    requires SubsOk(s) && Enabled(s, Stores(i, order)) && j < 3 && j != i
    ensures SubOk(Apply(e, s, Stores(i, order)), j)
  {
    assert SubOk(s, j);
  }

  lemma StoresSubs(e: bool, s: State, i: nat, order: seq<Sock>)
    requires SubsOk(s) && AttemptsOk(s) && Enabled(s, Stores(i, order))
    ensures SubsOk(Apply(e, s, Stores(i, order)))
  {
    forall j | 0 <= j < 3 ensures SubOk(Apply(e, s, Stores(i, order)), j) {
      if j == i { StoresOwnSub(e, s, i, order); } else { StoresOtherSub(e, s, i, order, j); }
    }
  }

  lemma StoresRight(e: bool, s: State, i: nat, order: seq<Sock>)
    requires SubsOk(s) && StoresOk(s) && Enabled(s, Stores(i, order))
    ensures StoresOk(Apply(e, s, Stores(i, order)))
  {
    var m := s.subs[i].phase.m;
    assert SubOk(s, i) && m.domain.Some?;
    match m.domain.value
    case PM =>
    case FM =>
    case LOG =>
  }

  lemma StoresRounds(s: State, i: nat, order: seq<Sock>)
    requires SubsOk(s) && AttemptsOk(s) && RoundsOk(s) && s.connections <= s.joined && Enabled(s, Stores(i, order))
    ensures RoundsOk(Apply(true, s, Stores(i, order)))
  {
    var s' := Apply(true, s, Stores(i, order));
    var pos := s.subs[i].phase.pos;
    assert SubOk(s, i);
    FreshRound(s, i);
    forall j: nat, q: nat | (j, q) in s'.snapshots
      ensures j < 3 && q < s'.subs[j].taken && Distinct(s'.snapshots[(j, q)])
      ensures Elements(s'.snapshots[(j, q)]) <= s'.joined && Tried(s'.attempts, j, q) == Due(s', j, q)
    {
      if (j, q) != (i, pos) {
        assert Tried(s.attempts, j, q) == Due(s, j, q);
      }
    }
  }

  lemma StoresKeeps(e: bool, s: State, i: nat, order: seq<Sock>)
    requires Inv(s) && Enabled(s, Stores(i, order))
    ensures Inv(Apply(e, s, Stores(i, order)))
  {
    var s' := Apply(e, s, Stores(i, order));
    assert SubOk(s, i);
    StepIsLater(e, s, Stores(i, order));
    StoresSubs(e, s, i, order);
    StoresRight(e, s, i, order);
    ArrivalsStay(s, s');
    AttemptsStay(s, s');
    if e { StoresRounds(s, i, order); } else { RoundsStay(s, s'); }
  }

  /** The attempt a send logs. */
  function NextAttempt(s: State, i: nat, ok: bool): Attempt
    requires Enabled(s, Send(i, ok))
  {
    var p := s.subs[i].phase;
    Attempt(i, p.pos, p.m, p.order[p.next], ok)
  }

  lemma SendSubs(e: bool, s: State, i: nat, ok: bool)
    requires SubsOk(s) && Enabled(s, Send(i, ok))
    ensures SubsOk(Apply(e, s, Send(i, ok)))
  {
    var s' := Apply(e, s, Send(i, ok));
    assert Front(s'.attempts) == s.attempts && Last(s'.attempts) == NextAttempt(s, i, ok);
    forall j | 0 <= j < 3 ensures SubOk(s', j) { assert SubOk(s, j); }
  }

  lemma SendOwnRound(e: bool, s: State, i: nat, ok: bool)
    requires SubsOk(s) && RoundsOk(s) && Enabled(s, Send(i, ok))
    ensures var pos := s.subs[i].phase.pos;
      && (i, pos) in Apply(e, s, Send(i, ok)).snapshots
      && Tried(Apply(e, s, Send(i, ok)).attempts, i, pos) == Due(Apply(e, s, Send(i, ok)), i, pos)
  {
    var s' := Apply(e, s, Send(i, ok));
    var p := s.subs[i].phase;
    assert SubOk(s, i);
    assert Front(s'.attempts) == s.attempts && Last(s'.attempts) == NextAttempt(s, i, ok);
    assert Tried(s.attempts, i, p.pos) == Due(s, i, p.pos) == p.order[..p.next];
    assert p.order[..p.next] + [p.order[p.next]] == p.order[..p.next + 1];
    assert p.order[..|p.order|] == p.order;
  }

  lemma SendOtherRound(e: bool, s: State, i: nat, ok: bool, j: nat, q: nat)
    requires |s.subs| == 3 && RoundsOk(s) && Enabled(s, Send(i, ok)) && (j, q) in s.snapshots
    requires (j, q) != (i, s.subs[i].phase.pos)
    ensures j < 3 && Tried(Apply(e, s, Send(i, ok)).attempts, j, q) == Due(Apply(e, s, Send(i, ok)), j, q)
  {
    var s' := Apply(e, s, Send(i, ok));
    assert Front(s'.attempts) == s.attempts && Last(s'.attempts) == NextAttempt(s, i, ok);
    assert Tried(s.attempts, j, q) == Due(s, j, q);
    assert Tried(s'.attempts, j, q) == Tried(s.attempts, j, q) + [];
    assert Due(s', j, q) == Due(s, j, q);
  }

  lemma SendRounds(e: bool, s: State, i: nat, ok: bool)
    requires SubsOk(s) && RoundsOk(s) && Enabled(s, Send(i, ok))
    ensures RoundsOk(Apply(e, s, Send(i, ok)))
  {
    var s' := Apply(e, s, Send(i, ok));
    assert s'.snapshots == s.snapshots && s'.joined == s.joined;
    forall j: nat, q: nat | (j, q) in s'.snapshots
      ensures j < 3 && q < s'.subs[j].taken && Tried(s'.attempts, j, q) == Due(s', j, q)
    {
      assert Tried(s.attempts, j, q) == Due(s, j, q);
      if (j, q) == (i, s.subs[i].phase.pos) { SendOwnRound(e, s, i, ok); } else { SendOtherRound(e, s, i, ok, j, q); }
    }
  }

  lemma SendForwards(e: bool, s: State, i: nat, ok: bool)
    requires SubsOk(s) && AttemptsOk(s) && RoundsOk(s) && Forwards(s.attempts) && Enabled(s, Send(i, ok))
    ensures Forwards(Apply(e, s, Send(i, ok)).attempts)
  {
    var p := s.subs[i].phase;
    var a := NextAttempt(s, i, ok);
    assert SubOk(s, i);
    assert Tried(s.attempts, i, p.pos) == p.order[..p.next];
    forall k | 0 <= k < |s.attempts| && s.attempts[k].sub == i && s.attempts[k].sock == a.sock
      ensures s.attempts[k].pos < a.pos
    {
      assert AttemptOk(s, s.attempts[k]);
      TriedHas(s.attempts, k);
    }
    ForwardsSnoc(s.attempts, a);
  }

  lemma ForwardsSnoc(log: seq<Attempt>, a: Attempt)
    requires Forwards(log)
    requires forall k :: 0 <= k < |log| && log[k].sub == a.sub && log[k].sock == a.sock ==> log[k].pos < a.pos
    ensures Forwards(log + [a])
  {
  }

  lemma SendAttempts(e: bool, s: State, i: nat, ok: bool)
    requires SubsOk(s) && AttemptsOk(s) && Enabled(s, Send(i, ok))
    ensures AttemptsOk(Apply(e, s, Send(i, ok)))
  {
    var s' := Apply(e, s, Send(i, ok));
    assert SubOk(s, i);
    StepIsLater(e, s, Send(i, ok));
    SendSubs(e, s, i, ok);
    AttemptsStay(s, s');
    assert AttemptOk(s', NextAttempt(s, i, ok));
  }

  lemma SendKeeps(e: bool, s: State, i: nat, ok: bool)
    requires Inv(s) && Enabled(s, Send(i, ok))
    ensures Inv(Apply(e, s, Send(i, ok)))
  {
    SendSubs(e, s, i, ok);
    SendAttempts(e, s, i, ok);
    ArrivalsStay(s, Apply(e, s, Send(i, ok)));
    SendRounds(e, s, i, ok);
    SendForwards(e, s, i, ok);
  }

  lemma InvStep(e: bool, s: State, ev: Event)
    requires Inv(s) && Enabled(s, ev)
    ensures Inv(Apply(e, s, ev))
  {
    match ev
    case Publish(m) => PublishKeeps(e, s, m);
    case Take(i) => TakeKeeps(e, s, i);
    case StoreFails(i) => StoreFailsKeeps(e, s, i);
    case Stores(i, order) => StoresKeeps(e, s, i, order);
    case Send(i, ok) => SendKeeps(e, s, i, ok);
    case Connect(_) => SocketsKeep(e, s, ev);
    case Disconnect(_) => SocketsKeep(e, s, ev);
  }

  lemma {:induction false} InvRun(e: bool, s: State, evs: seq<Event>)
    requires Inv(s) && Legal(e, s, evs)
    ensures Inv(Run(e, s, evs))
    decreases |evs|
  {
    if evs != [] {
      InvRun(e, s, Front(evs));
      InvStep(e, Run(e, s, Front(evs)), Last(evs));
    }
  }

  ghost predicate Reachable(e: bool, s: State) {
    exists evs: seq<Event> :: Legal(e, Init(), evs) && s == Run(e, Init(), evs)
  }

  lemma ReachableInv(e: bool, s: State)
    requires Reachable(e, s)
    ensures Inv(s)
  {
    var evs :| Legal(e, Init(), evs) && s == Run(e, Init(), evs);
    InvRun(e, Init(), evs);
  }

  // ---------------------------------------------------------------- what each client receives

  /** `pos` is the place of the message among the arrivals of its subscription. */
  predicate FromArrivals(s: State, a: Attempt) {
    && a.sub < |s.subs| && a.pos < |s.subs[a.sub].arrived| && a.m == s.subs[a.sub].arrived[a.pos]
  }

  /** The sends of one subscription to one socket follow the order of arrival, none twice; and no
      message is ever sent twice to a socket, by whatever subscriptions. */
  lemma InOrderAndAtMostOnce(e: bool, s: State, j: nat, k: nat)
    requires Reachable(e, s) && j < k < |s.attempts| && s.attempts[j].sock == s.attempts[k].sock
    ensures s.attempts[j].sub == s.attempts[k].sub ==> s.attempts[j].pos < s.attempts[k].pos
    ensures FromArrivals(s, s.attempts[j]) && FromArrivals(s, s.attempts[k])
    ensures s.attempts[j].m.id != s.attempts[k].m.id
  {
    ReachableInv(e, s);
    var (a, b) := (s.attempts[j], s.attempts[k]);
    assert AttemptOk(s, a) && AttemptOk(s, b);
    if a.sub == b.sub {
      assert DistinctIds(s.subs[a.sub].arrived);
    } else if a.sub < b.sub {
      assert DisjointIds(s.subs[a.sub].arrived, s.subs[b.sub].arrived);
    } else {
      assert DisjointIds(s.subs[b.sub].arrived, s.subs[a.sub].arrived);
    }
  }

  /** Nothing is broadcast before it is in the store its domain selects. */
  lemma StoredBeforeBroadcast(e: bool, s: State, a: Attempt)
    requires Reachable(e, s) && a in s.attempts
    ensures a.m.domain.Some? && InStore(s, a.m)
    ensures a.m.domain == Some(PM) <==> a.m in s.metrics
    ensures a.m.domain != Some(PM) <==> a.m in s.events
  {
    ReachableInv(e, s);
    var k :| 0 <= k < |s.attempts| && s.attempts[k] == a;
    assert AttemptOk(s, s.attempts[k]);
  }

  // ---------------------------------------------------------------- rounds and connections

  /** A broadcast that is over has tried every socket of its snapshot exactly once, in order. */
  lemma FinishedBroadcastTriedAll(e: bool, s: State, i: nat, pos: nat)
    requires Reachable(e, s) && (i, pos) in s.snapshots
    requires i < 3 && |s.subs| == 3 && !(s.subs[i].phase.Sending? && s.subs[i].phase.pos == pos)
    ensures Tried(s.attempts, i, pos) == s.snapshots[(i, pos)] && Distinct(s.snapshots[(i, pos)])
  {
    ReachableInv(e, s);
    assert Tried(s.attempts, i, pos) == Due(s, i, pos);
  }

  lemma {:induction false} FailedHas(log: seq<Attempt>, i: nat, pos: nat, w: Sock)
    requires w in FailedSocks(log, i, pos)
    ensures exists k :: 0 <= k < |log| && log[k].sub == i && log[k].pos == pos && log[k].sock == w && !log[k].ok
  {
    var n := |log| - 1;
    if log[n].sub == i && log[n].pos == pos && !log[n].ok && log[n].sock == w {
    } else {
      FailedHas(Front(log), i, pos, w);
      var k :| 0 <= k < n && Front(log)[k].sub == i && Front(log)[k].pos == pos && Front(log)[k].sock == w && !Front(log)[k].ok;
      assert log[k].sub == i;
    }
  }

  /** A broadcast of subscription `i` that removes `w` had a failed send to it and had it in its
      snapshot. */
  ghost predicate FailedTo(s: State, i: nat, w: Sock) {
    exists k :: 0 <= k < |s.attempts| && s.attempts[k].sub == i && s.attempts[k].sock == w && !s.attempts[k].ok
                && (i, s.attempts[k].pos) in s.snapshots && w in Elements(s.snapshots[(i, s.attempts[k].pos)])
                && i < |s.subs| && s.attempts[k].pos + 1 == s.subs[i].taken
  }

  /** The sockets a send can remove are those whose sends failed in this very broadcast. */
  lemma DeadAfterSend(e: bool, s: State, i: nat, ok: bool, w: Sock)
    requires SubsOk(s) && Enabled(s, Send(i, ok)) && w in s.connections && w !in Apply(e, s, Send(i, ok)).connections
    ensures w in FailedSocks(Apply(e, s, Send(i, ok)).attempts, i, s.subs[i].phase.pos)
  {
    var s' := Apply(e, s, Send(i, ok));
    assert SubOk(s, i);
    assert Front(s'.attempts) == s.attempts && Last(s'.attempts) == NextAttempt(s, i, ok);
  }

  lemma TriedInSnapshot(s: State, k: nat)
    requires Inv(s) && k < |s.attempts|
    ensures var a := s.attempts[k];
      (a.sub, a.pos) in s.snapshots && a.sock in Elements(s.snapshots[(a.sub, a.pos)])
  {
    var (i, pos) := (s.attempts[k].sub, s.attempts[k].pos);
    assert AttemptOk(s, s.attempts[k]) && SubOk(s, i);
    TriedHas(s.attempts, k);
    assert Tried(s.attempts, i, pos) == Due(s, i, pos);
    var x :| 0 <= x < |Due(s, i, pos)| && Due(s, i, pos)[x] == s.attempts[k].sock;
    assert s.snapshots[(i, pos)][x] == s.attempts[k].sock;
  }

  lemma FailedInSnapshot(s: State, i: nat, pos: nat, w: Sock)
    requires Inv(s) && i < 3 && pos + 1 == s.subs[i].taken && w in FailedSocks(s.attempts, i, pos)
    ensures FailedTo(s, i, w)
  {
    FailedHas(s.attempts, i, pos, w);
    var k :| 0 <= k < |s.attempts| && s.attempts[k].sub == i && s.attempts[k].pos == pos
             && s.attempts[k].sock == w && !s.attempts[k].ok;
    TriedInSnapshot(s, k);
  }

  lemma SendRemoves(e: bool, s: State, i: nat, ok: bool, w: Sock)
    requires Inv(s) && Enabled(s, Send(i, ok)) && w in s.connections && w !in Apply(e, s, Send(i, ok)).connections
    ensures FailedTo(Apply(e, s, Send(i, ok)), i, w)
  {
    assert SubOk(s, i);
    SendKeeps(e, s, i, ok);
    DeadAfterSend(e, s, i, ok, w);
    FailedInSnapshot(Apply(e, s, Send(i, ok)), i, s.subs[i].phase.pos, w);
  }

  lemma LeavesByFailure(e: bool, s: State, ev: Event, w: Sock)
    requires Inv(s) && Enabled(s, ev) && w in s.connections && w !in Apply(e, s, ev).connections
    ensures ev == Disconnect(w) || (ev.Send? && FailedTo(Apply(e, s, ev), ev.i, w))
  {
    match ev
    case Send(i, ok) => SendRemoves(e, s, i, ok, w);
    case _ =>
  }

  /** A socket leaves the connection set only by its own disconnect, or at the end of a broadcast
      whose snapshot it was in and whose send to it failed. */
  lemma OnlyDeadSocketsRemoved(e: bool, s: State, ev: Event, w: Sock)
    requires Reachable(e, s) && Enabled(s, ev) && w in s.connections && w !in Apply(e, s, ev).connections
    ensures ev == Disconnect(w) || (ev.Send? && FailedTo(Apply(e, s, ev), ev.i, w))
  {
    ReachableInv(e, s);
    LeavesByFailure(e, s, ev, w);
  }

  // ---------------------------------------------------------------- dead sockets are removed

  /** The broadcast of the message at `pos` of subscription `i` is not under way (any more). */
  ghost predicate Over(s: State, i: nat, pos: nat) {
    i < |s.subs| && !(s.subs[i].phase.Sending? && s.subs[i].phase.pos == pos)
  }

  ghost predicate DeadAreGone(s: State) {
    forall k :: 0 <= k < |s.attempts| && !s.attempts[k].ok && Over(s, s.attempts[k].sub, s.attempts[k].pos) ==>
      s.attempts[k].sock !in s.connections
  }

  lemma {:induction false} FailureIsNoted(log: seq<Attempt>, k: nat)
    requires k < |log| && !log[k].ok
    ensures log[k].sock in FailedSocks(log, log[k].sub, log[k].pos)
  {
    if k < |log| - 1 {
      FailureIsNoted(Front(log), k);
      assert Front(log)[k] == log[k];
    }
  }

  lemma TriedHadJoined(s: State, k: nat)
    requires Inv(s) && k < |s.attempts|
    ensures s.attempts[k].sock in s.joined
  {
    TriedInSnapshot(s, k);
  }

  lemma ConnectKeepsGone(e: bool, s: State, w: Sock)
    requires Inv(s) && DeadAreGone(s) && Enabled(s, Connect(w))
    ensures DeadAreGone(Apply(e, s, Connect(w)))
  {
    forall k | 0 <= k < |s.attempts| ensures s.attempts[k].sock != w { TriedHadJoined(s, k); }
  }

  lemma FailedOnesRemoved(e: bool, s: State, i: nat, ok: bool)
    requires SubsOk(s) && Enabled(s, Send(i, ok))
    ensures var s' := Apply(e, s, Send(i, ok));
      && s'.connections <= s.connections && s'.attempts == s.attempts + [NextAttempt(s, i, ok)]
      && (Over(s', i, s.subs[i].phase.pos) ==>
            s'.connections !! Elements(FailedSocks(s'.attempts, i, s.subs[i].phase.pos)))
  {
    var s' := Apply(e, s, Send(i, ok));
    assert SubOk(s, i);
    assert Front(s'.attempts) == s.attempts && Last(s'.attempts) == NextAttempt(s, i, ok);
  }

  /** The send that ends a broadcast removes every socket that failed in it. */
  lemma SendKeepsGone(e: bool, s: State, i: nat, ok: bool)
    requires SubsOk(s) && DeadAreGone(s) && Enabled(s, Send(i, ok))
    ensures DeadAreGone(Apply(e, s, Send(i, ok)))
  {
    var s' := Apply(e, s, Send(i, ok));
    var pos := s.subs[i].phase.pos;
    FailedOnesRemoved(e, s, i, ok);
    forall k | 0 <= k < |s'.attempts| && !s'.attempts[k].ok && Over(s', s'.attempts[k].sub, s'.attempts[k].pos)
      ensures s'.attempts[k].sock !in s'.connections
    {
      var a := s'.attempts[k];
      if a.sub == i && a.pos == pos {
        FailureIsNoted(s'.attempts, k);
        assert a.sock in Elements(FailedSocks(s'.attempts, i, pos));
      } else {
        assert a == s.attempts[k] && Over(s, a.sub, a.pos);
      }
    }
  }

  /** No other step ends a broadcast that is under way. */
  lemma OthersKeepSending(e: bool, s: State, ev: Event)
    requires SubsOk(s) && Enabled(s, ev) && !ev.Send? && !ev.Connect?
    ensures var s' := Apply(e, s, ev);
      && s'.attempts == s.attempts && s'.connections <= s.connections && |s'.subs| == 3
      && forall i :: 0 <= i < 3 && s.subs[i].phase.Sending? ==> s'.subs[i].phase == s.subs[i].phase
  {
  }

  lemma GoneStaysGone(e: bool, s: State, ev: Event)
    requires Inv(s) && DeadAreGone(s) && Enabled(s, ev)
    ensures DeadAreGone(Apply(e, s, ev))
  {
    match ev
    case Connect(w) => ConnectKeepsGone(e, s, w);
    case Send(i, ok) => SendKeepsGone(e, s, i, ok);
    case _ => OthersKeepSending(e, s, ev);
  }

  lemma {:induction false} DeadAreGoneInRuns(e: bool, evs: seq<Event>)
    requires Legal(e, Init(), evs)
    ensures DeadAreGone(Run(e, Init(), evs))
    decreases |evs|
  {
    if evs != [] {
      DeadAreGoneInRuns(e, Front(evs));
      InvRun(e, Init(), Front(evs));
      GoneStaysGone(e, Run(e, Init(), Front(evs)), Last(evs));
    }
  }

  /** In every reachable state a socket that a finished broadcast failed to send to is not connected. */
  lemma DeadSocketsRemoved(e: bool, s: State, a: Attempt)
    requires Reachable(e, s) && a in s.attempts && !a.ok && Over(s, a.sub, a.pos)
    ensures a.sock !in s.connections
  {
    var evs :| Legal(e, Init(), evs) && s == Run(e, Init(), evs);
    DeadAreGoneInRuns(e, evs);
  }

  lemma GoneStep(e: bool, s: State, ev: Event, w: Sock)
    requires Enabled(s, ev) && w in s.joined && w !in s.connections
    ensures w in Apply(e, s, ev).joined && w !in Apply(e, s, ev).connections
  {
  }

  /** No removed socket ever returns. */
  lemma {:induction false} RemovedStaysRemoved(e: bool, s: State, evs: seq<Event>, w: Sock)
    requires Legal(e, s, evs) && w in s.joined && w !in s.connections
    ensures w in Run(e, s, evs).joined && w !in Run(e, s, evs).connections
    decreases |evs|
  {
    if evs != [] {
      RemovedStaysRemoved(e, s, Front(evs), w);
      GoneStep(e, Run(e, s, Front(evs)), Last(evs), w);
    }
  }

  lemma SnapshotStep(e: bool, s: State, ev: Event, key: (nat, nat))
    requires Inv(s) && Enabled(s, ev) && key in s.snapshots
    ensures key in Apply(e, s, ev).snapshots && Apply(e, s, ev).snapshots[key] == s.snapshots[key]
  {
    if ev.Stores? { assert SubOk(s, ev.i); }
  }

  lemma {:induction false} SnapshotRun(e: bool, s: State, evs: seq<Event>, key: (nat, nat))
    requires Inv(s) && Legal(e, s, evs) && key in s.snapshots
    ensures key in Run(e, s, evs).snapshots && Run(e, s, evs).snapshots[key] == s.snapshots[key]
    decreases |evs|
  {
    if evs != [] {
      SnapshotRun(e, s, Front(evs), key);
      InvRun(e, s, Front(evs));
      SnapshotStep(e, Run(e, s, Front(evs)), Last(evs), key);
    }
  }

  /** A socket that joins after a broadcast took its snapshot is never sent that message by it,
      however the run goes on, and so is never removed by it. */
  lemma LateSocketsUntouched(e: bool, s: State, evs: seq<Event>, i: nat, pos: nat, a: Attempt)
    requires Reachable(e, s) && Legal(e, s, evs) && (i, pos) in s.snapshots
    requires a in Run(e, s, evs).attempts && a.sub == i && a.pos == pos
    ensures a.sock in s.joined
  {
    ReachableInv(e, s);
    var s' := Run(e, s, evs);
    InvRun(e, s, evs);
    SnapshotRun(e, s, evs, (i, pos));
    var k :| 0 <= k < |s'.attempts| && s'.attempts[k] == a;
    TriedInSnapshot(s', k);
    assert Elements(s.snapshots[(i, pos)]) <= s.joined;
  }

  /** How many sends of the message at `pos` of subscription `i` went to `w`. */
  function Tries(log: seq<Attempt>, i: nat, pos: nat, w: Sock): nat {
    if log == [] then 0
    else Tries(Front(log), i, pos, w)
         + if Last(log).sub == i && Last(log).pos == pos && Last(log).sock == w then 1 else 0
  }

  lemma {:induction false} TriesCountTried(log: seq<Attempt>, i: nat, pos: nat, w: Sock)
    ensures Tries(log, i, pos, w) == multiset(Tried(log, i, pos))[w]
  {
    if log != [] { TriesCountTried(Front(log), i, pos, w); }
  }

  lemma {:induction false} DistinctOnce(order: seq<Sock>, w: Sock)
    requires Distinct(order)
    ensures multiset(order)[w] == if w in Elements(order) then 1 else 0
  {
    if order != [] {
      DistinctOnce(Front(order), w);
      assert order == Front(order) + [Last(order)];
      assert Elements(order) == Elements(Front(order)) + {Last(order)};
    }
  }

  lemma SnapshotIsOrder(s: State, i: nat, order: seq<Sock>)
    requires Enabled(s, Stores(i, order))
    ensures var s' := Apply(true, s, Stores(i, order));
      (i, s.subs[i].phase.pos) in s'.snapshots && s'.snapshots[(i, s.subs[i].phase.pos)] == order
  {
  }

  /** A broadcast reaches everybody: once it is over, every socket that was connected when the message
      had been stored was sent it exactly once, and no other socket was. */
  lemma EveryConnectedSocketIsTried(s: State, i: nat, order: seq<Sock>, evs: seq<Event>, w: Sock)
    requires Reachable(true, s) && Enabled(s, Stores(i, order)) && Legal(true, Apply(true, s, Stores(i, order)), evs)
    requires Over(Run(true, Apply(true, s, Stores(i, order)), evs), i, s.subs[i].phase.pos)
    ensures Tries(Run(true, Apply(true, s, Stores(i, order)), evs).attempts, i, s.subs[i].phase.pos, w)
         == if w in s.connections then 1 else 0
  {
    var (s1, pos) := (Apply(true, s, Stores(i, order)), s.subs[i].phase.pos);
    var s' := Run(true, s1, evs);
    ReachableInv(true, s);
    InvStep(true, s, Stores(i, order));
    SnapshotIsOrder(s, i, order);
    SnapshotRun(true, s1, evs, (i, pos));
    InvRun(true, s1, evs);
    assert Tried(s'.attempts, i, pos) == Due(s', i, pos) == order;
    TriesCountTried(s'.attempts, i, pos, w);
    DistinctOnce(order, w);
  }

  // ---------------------------------------------------------------- joining and leaving

  /** `w` is connected, or a send to it failed. */
  ghost predicate ConnectedOrFailed(s: State, w: Sock) {
    w in s.joined && (w in s.connections || exists k :: 0 <= k < |s.attempts| && s.attempts[k].sock == w && !s.attempts[k].ok)
  }

  lemma AttemptsGrow(e: bool, s: State, ev: Event)
    requires Enabled(s, ev)
    ensures s.attempts <= Apply(e, s, ev).attempts
  {
  }

  lemma StaysConnectedStep(e: bool, s: State, ev: Event, w: Sock)
    requires Inv(s) && Enabled(s, ev) && ev != Disconnect(w) && ConnectedOrFailed(s, w)
    ensures ConnectedOrFailed(Apply(e, s, ev), w)
  {
    AttemptsGrow(e, s, ev);
    StepIsLater(e, s, ev);
    if w in s.connections {
      if w !in Apply(e, s, ev).connections { LeavesByFailure(e, s, ev, w); }
    } else {
      var k :| 0 <= k < |s.attempts| && s.attempts[k].sock == w && !s.attempts[k].ok;
      assert Apply(e, s, ev).attempts[k] == s.attempts[k];
    }
  }

  lemma {:induction false} StaysConnectedRun(e: bool, s: State, evs: seq<Event>, w: Sock)
    requires Inv(s) && Legal(e, s, evs) && Disconnect(w) !in evs && ConnectedOrFailed(s, w)
    ensures ConnectedOrFailed(Run(e, s, evs), w)
    decreases |evs|
  {
    if evs != [] {
      StaysConnectedRun(e, s, Front(evs), w);
      InvRun(e, s, Front(evs));
      StaysConnectedStep(e, Run(e, s, Front(evs)), Last(evs), w);
    }
  }

  /** A socket that joins is connected until it leaves or a send to it fails ... */
  lemma JoinedStaysConnected(e: bool, s: State, w: Sock, evs: seq<Event>)
    requires Reachable(e, s) && Enabled(s, Connect(w)) && Legal(e, Apply(e, s, Connect(w)), evs)
    requires Disconnect(w) !in evs
    requires forall a :: a in Run(e, Apply(e, s, Connect(w)), evs).attempts && a.sock == w ==> a.ok
    ensures w in Run(e, Apply(e, s, Connect(w)), evs).connections
  {
    ReachableInv(e, s);
    InvStep(e, s, Connect(w));
    StaysConnectedRun(e, Apply(e, s, Connect(w)), evs, w);
  }

  /** ... and one that leaves is not connected again. */
  lemma LeftStaysAway(e: bool, s: State, w: Sock, evs: seq<Event>)
    requires Reachable(e, s) && Enabled(s, Disconnect(w)) && Legal(e, Apply(e, s, Disconnect(w)), evs)
    ensures w !in Run(e, Apply(e, s, Disconnect(w)), evs).connections
  {
    RemovedStaysRemoved(e, Apply(e, s, Disconnect(w)), evs, w);
  }

  // ---------------------------------------------------------------- what arrives and what is lost

  /** The subscription that takes a subject: by its second token, when the first is `fcaps` and there
      are more than two. */
  predicate GoesTo(subject: seq<string>, i: nat) {
    && |subject| >= 3 && subject[0] == "fcaps"
    && ((i == 0 && subject[1] == "done") || (i == 1 && subject[1] == "ingest") || (i == 2 && subject[1] == "simulated"))
  }

  lemma MatchesOne(a: string, b: string, subject: seq<string>)
    requires a != "*" && b != "*" && a != ">" && b != ">"
    ensures Matches([a, b, ">"], subject) <==> |subject| >= 3 && subject[0] == a && subject[1] == b
  {
    var p := [a, b, ">"];
    assert p[1..] == [b, ">"] && p[1..][1..] == [">"];
    if |subject| >= 2 {
      assert Matches(p[1..], subject[1..]) <==> subject[1] == b && Matches(p[1..][1..], subject[1..][1..]);
    }
  }

  /** A published message arrives at the end of exactly the subscription its subject goes to. */
  lemma PublishDelivers(e: bool, s: State, m: Message, i: nat)
    requires Reachable(e, s) && Enabled(s, Publish(m)) && i < 3
    ensures |s.subs| == |Apply(e, s, Publish(m)).subs| == 3
    ensures Apply(e, s, Publish(m)).subs[i].arrived
         == if GoesTo(m.subject, i) then s.subs[i].arrived + [m] else s.subs[i].arrived
  {
    ReachableInv(e, s);
    MatchesOne("fcaps", "done", m.subject);
    MatchesOne("fcaps", "ingest", m.subject);
    MatchesOne("fcaps", "simulated", m.subject);
  }

  /** How many of the messages were valid envelopes. */
  function ValidOnes(log: seq<Message>): nat {
    if log == [] then 0 else ValidOnes(Front(log)) + if Last(log).domain.Some? then 1 else 0
  }

  /** How many writes to a store failed. */
  function FailedWrites(evs: seq<Event>): nat {
    if evs == [] then 0 else FailedWrites(Front(evs)) + if Last(evs).StoreFails? then 1 else 0
  }

  lemma ValidOnesSnoc(log: seq<Message>, m: Message)
    ensures ValidOnes(log + [m]) == ValidOnes(log) + if m.domain.Some? then 1 else 0
  {
    assert Front(log + [m]) == log;
  }

  lemma LostStep(e: bool, s: State, ev: Event)
    requires Inv(s) && Enabled(s, ev) && forall m :: m in s.lost ==> m in s.errors
    ensures var s' := Apply(e, s, ev);
      && ValidOnes(s'.lost) == ValidOnes(s.lost) + (if ev.StoreFails? then 1 else 0)
      && forall m :: m in s'.lost ==> m in s'.errors
  {
    match ev
    case Take(i) => ValidOnesSnoc(s.lost, s.subs[i].arrived[s.subs[i].taken]);
    case StoreFails(i) =>
      assert SubOk(s, i);
      ValidOnesSnoc(s.lost, s.subs[i].phase.m);
    case _ =>
  }

  /** A valid envelope is lost only to a failed write, one for each, and whatever is lost is logged. */
  lemma {:induction false} OnlyFailedWritesLose(e: bool, evs: seq<Event>)
    requires Legal(e, Init(), evs)
    ensures ValidOnes(Run(e, Init(), evs).lost) == FailedWrites(evs)
    ensures forall m :: m in Run(e, Init(), evs).lost ==> m in Run(e, Init(), evs).errors
    decreases |evs|
  {
    if evs != [] {
      OnlyFailedWritesLose(e, Front(evs));
      InvRun(e, Init(), Front(evs));
      LostStep(e, Run(e, Init(), Front(evs)), Last(evs));
    }
  }

  // ---------------------------------------------------------------- conservation

  /** How often `x` was taken from a subscription, and is in its handler but not yet stored. */
  function TakenOf(sub: Sub, x: Message): nat {
    if sub.taken <= |sub.arrived| then multiset(sub.arrived[..sub.taken])[x] else 0
  }

  function InFlight(sub: Sub, x: Message): nat {
    if sub.phase.Storing? && sub.phase.m == x then 1 else 0
  }

  /** Taken and no longer in the handler. */
  function Settled(sub: Sub, x: Message): int {
    TakenOf(sub, x) - InFlight(sub, x)
  }

  function SettledTimes(subs: seq<Sub>, x: Message): int
    requires |subs| == 3
  {
    Settled(subs[0], x) + Settled(subs[1], x) + Settled(subs[2], x)
  }

  function KeptTimes(s: State, x: Message): int {
    multiset(s.metrics)[x] + multiset(s.events)[x] + multiset(s.lost)[x]
  }

  ghost predicate Conserved(s: State, x: Message) {
    |s.subs| == 3 && SettledTimes(s.subs, x) == KeptTimes(s, x)
  }

  lemma OneSubChanges(subs: seq<Sub>, subs': seq<Sub>, i: nat, x: Message)
    requires |subs| == |subs'| == 3 && i < 3 && forall j :: 0 <= j < 3 && j != i ==> subs'[j] == subs[j]
    ensures SettledTimes(subs', x) == SettledTimes(subs, x) + Settled(subs'[i], x) - Settled(subs[i], x)
  {
    if i == 0 {} else if i == 1 {} else {}
  }

  lemma TakenGrows(sub: Sub, phase: Phase, x: Message)
    requires sub.taken < |sub.arrived|
    ensures TakenOf(sub.(taken := sub.taken + 1, phase := phase), x)
         == TakenOf(sub, x) + if sub.arrived[sub.taken] == x then 1 else 0
  {
    assert sub.arrived[..sub.taken + 1] == sub.arrived[..sub.taken] + [sub.arrived[sub.taken]];
  }

  lemma ArrivalKeepsTaken(sub: Sub, i: nat, m: Message, x: Message)
    requires sub.taken <= |sub.arrived|
    ensures TakenOf(Delivered(sub, i, m), x) == TakenOf(sub, x)
    ensures InFlight(Delivered(sub, i, m), x) == InFlight(sub, x)
  {
    assert (sub.arrived + [m])[..sub.taken] == sub.arrived[..sub.taken];
  }

  lemma AppendTimes(log: seq<Message>, m: Message, x: Message)
    ensures multiset(log + [m])[x] == multiset(log)[x] + if m == x then 1 else 0
  {
  }

  lemma PublishConserves(e: bool, s: State, m: Message, x: Message)
    requires SubsOk(s) && Conserved(s, x) && Enabled(s, Publish(m))
    ensures Conserved(Apply(e, s, Publish(m)), x)
  {
    forall i | 0 <= i < 3 ensures Settled(Apply(e, s, Publish(m)).subs[i], x) == Settled(s.subs[i], x) {
      assert SubOk(s, i);
      ArrivalKeepsTaken(s.subs[i], i, m, x);
    }
  }

  lemma TakeConserves(e: bool, s: State, i: nat, x: Message)
    requires SubsOk(s) && Conserved(s, x) && Enabled(s, Take(i))
    ensures Conserved(Apply(e, s, Take(i)), x)
  {
    var (sub, m) := (s.subs[i], s.subs[i].arrived[s.subs[i].taken]);
    TakenGrows(sub, if m.domain.None? then Idle else Storing(m, sub.taken), x);
    AppendTimes(s.lost, m, x);
    OneSubChanges(s.subs, Apply(e, s, Take(i)).subs, i, x);
  }

  /** Only subscription `i` changes from s to s', and only in its phase. */
  predicate PhaseOnly(s: State, s': State, i: nat) {
    && |s.subs| == |s'.subs| == 3 && i < 3
    && (forall j :: 0 <= j < 3 && j != i ==> s'.subs[j] == s.subs[j])
    && s'.subs[i].arrived == s.subs[i].arrived && s'.subs[i].taken == s.subs[i].taken
  }

  /** A message leaves its handler for one of the stores or the lost ones. */
  lemma MovingConserves(s: State, s': State, i: nat, x: Message)
    requires Conserved(s, x) && PhaseOnly(s, s', i) && s.subs[i].phase.Storing? && !s'.subs[i].phase.Storing?
    requires var m := s.subs[i].phase.m;
      || (s'.metrics == s.metrics + [m] && s'.events == s.events && s'.lost == s.lost)
      || (s'.metrics == s.metrics && s'.events == s.events + [m] && s'.lost == s.lost)
      || (s'.metrics == s.metrics && s'.events == s.events && s'.lost == s.lost + [m])
    ensures Conserved(s', x)
  {
    var m := s.subs[i].phase.m;
    AppendTimes(s.metrics, m, x);
    AppendTimes(s.events, m, x);
    AppendTimes(s.lost, m, x);
    OneSubChanges(s.subs, s'.subs, i, x);
  }

  lemma SendConserves(s: State, s': State, i: nat, x: Message)
    requires Conserved(s, x) && PhaseOnly(s, s', i) && s.subs[i].phase.Sending? && !s'.subs[i].phase.Storing?
    requires s'.metrics == s.metrics && s'.events == s.events && s'.lost == s.lost
    ensures Conserved(s', x)
  {
    OneSubChanges(s.subs, s'.subs, i, x);
  }

  lemma StoreFailsConserves(e: bool, s: State, i: nat, x: Message)
    requires SubsOk(s) && Conserved(s, x) && Enabled(s, StoreFails(i))
    ensures Conserved(Apply(e, s, StoreFails(i)), x)
  {
    MovingConserves(s, Apply(e, s, StoreFails(i)), i, x);
  }

  lemma StoresMoves(e: bool, s: State, i: nat, order: seq<Sock>)
    requires SubsOk(s) && Enabled(s, Stores(i, order))
    ensures var (s', m) := (Apply(e, s, Stores(i, order)), s.subs[i].phase.m);
      && PhaseOnly(s, s', i) && !s'.subs[i].phase.Storing? && s'.lost == s.lost
      && ((s'.metrics == s.metrics + [m] && s'.events == s.events)
          || (s'.metrics == s.metrics && s'.events == s.events + [m]))
  {
  }

  lemma StoresConserves(e: bool, s: State, i: nat, order: seq<Sock>, x: Message)
    requires SubsOk(s) && Conserved(s, x) && Enabled(s, Stores(i, order))
    ensures Conserved(Apply(e, s, Stores(i, order)), x)
  {
    StoresMoves(e, s, i, order);
    MovingConserves(s, Apply(e, s, Stores(i, order)), i, x);
  }

  lemma SendMoves(e: bool, s: State, i: nat, ok: bool)
    requires SubsOk(s) && Enabled(s, Send(i, ok))
    ensures var s' := Apply(e, s, Send(i, ok));
      && PhaseOnly(s, s', i) && !s'.subs[i].phase.Storing?
      && s'.metrics == s.metrics && s'.events == s.events && s'.lost == s.lost
  {
  }

  lemma SendStepConserves(e: bool, s: State, i: nat, ok: bool, x: Message)
    requires SubsOk(s) && Conserved(s, x) && Enabled(s, Send(i, ok))
    ensures Conserved(Apply(e, s, Send(i, ok)), x)
  {
    SendMoves(e, s, i, ok);
    SendConserves(s, Apply(e, s, Send(i, ok)), i, x);
  }

  lemma ConservedStep(e: bool, s: State, ev: Event, x: Message)
    requires SubsOk(s) && Conserved(s, x) && Enabled(s, ev)
    ensures Conserved(Apply(e, s, ev), x)
  {
    match ev
    case Publish(m) => PublishConserves(e, s, m, x);
    case Take(i) => TakeConserves(e, s, i, x);
    case StoreFails(i) => StoreFailsConserves(e, s, i, x);
    case Stores(i, order) => StoresConserves(e, s, i, order, x);
    case Send(i, ok) => SendStepConserves(e, s, i, ok, x);
    case Connect(_) =>
    case Disconnect(_) =>
  }

  lemma {:induction false} ConservedRun(e: bool, evs: seq<Event>, x: Message)
    requires Legal(e, Init(), evs)
    ensures Inv(Run(e, Init(), evs)) && Conserved(Run(e, Init(), evs), x)
    decreases |evs|
  {
    InvRun(e, Init(), evs);
    if evs != [] {
      ConservedRun(e, Front(evs), x);
      ConservedStep(e, Run(e, Init(), Front(evs)), Last(evs), x);
    }
  }

  lemma {:induction false} DistinctTimes(log: seq<Message>, x: Message)
    requires DistinctIds(log)
    ensures multiset(log)[x] == if x in log then 1 else 0
  {
    if log != [] {
      DistinctTimes(Front(log), x);
      assert log == Front(log) + [Last(log)];
    }
  }

  lemma TakenOnce(s: State, i: nat, p: nat, j: nat)
    requires Inv(s) && i < 3 && j < 3 && p < s.subs[i].taken <= |s.subs[i].arrived|
    ensures TakenOf(s.subs[j], s.subs[i].arrived[p]) == if j == i then 1 else 0
  {
    assert SubOk(s, i) && SubOk(s, j);
    var x := s.subs[i].arrived[p];
    var took := s.subs[j].arrived[..s.subs[j].taken];
    assert DistinctIds(s.subs[j].arrived);
    DistinctTimes(took, x);
    if j == i {
      assert took[p] == x;
    } else if i < j {
      assert DisjointIds(s.subs[i].arrived, s.subs[j].arrived);
    } else {
      assert DisjointIds(s.subs[j].arrived, s.subs[i].arrived);
    }
  }

  /** How often `x` is waiting for its store in some handler. */
  function WaitingTimes(s: State, x: Message): nat
    requires |s.subs| == 3
  {
    InFlight(s.subs[0], x) + InFlight(s.subs[1], x) + InFlight(s.subs[2], x)
  }

  /** Every consumed message is at every point in exactly one place: waiting for its store, in one
      store, or lost; and a stored one is in the store that its domain selects. */
  lemma Conservation(e: bool, s: State, i: nat, p: nat)
    requires Reachable(e, s) && i < 3 && |s.subs| == 3 && p < s.subs[i].taken <= |s.subs[i].arrived|
    ensures var x := s.subs[i].arrived[p];
      WaitingTimes(s, x) + multiset(s.metrics)[x] + multiset(s.events)[x] + multiset(s.lost)[x] == 1
    ensures forall m :: m in s.metrics ==> m.domain == Some(PM)
    ensures forall m :: m in s.events ==> m.domain == Some(FM) || m.domain == Some(LOG)
  {
    var evs :| Legal(e, Init(), evs) && s == Run(e, Init(), evs);
    ConservedRun(e, evs, s.subs[i].arrived[p]);
    TakenOnce(s, i, p, 0);
    TakenOnce(s, i, p, 1);
    TakenOnce(s, i, p, 2);
  }

  // ---------------------------------------------------------------- a log call that raises

  ghost predicate Silent(s: State) {
    && s.attempts == [] && s.snapshots == map[]
    && (forall i :: 0 <= i < |s.subs| ==> !s.subs[i].phase.Sending?)
    && (forall m :: m in s.metrics || m in s.events ==> m in s.errors)
  }

  lemma SilentStep(s: State, ev: Event)
    requires Silent(s) && Enabled(s, ev)
    ensures Silent(Apply(false, s, ev))
  {
  }

  lemma {:induction false} SilentRun(evs: seq<Event>)
    requires Legal(false, Init(), evs)
    ensures Silent(Run(false, Init(), evs))
    decreases |evs|
  {
    if evs != [] {
      SilentRun(Front(evs));
      SilentStep(Run(false, Init(), Front(evs)), Last(evs));
    }
  }

  lemma AndThen(evs: seq<Event>, ev: Event)
    requires Legal(true, Init(), evs) && Enabled(Run(true, Init(), evs), ev)
    ensures Legal(true, Init(), evs + [ev]) && Run(true, Init(), evs + [ev]) == Apply(true, Run(true, Init(), evs), ev)
  {
    assert Front(evs + [ev]) == evs;
  }

  const ALARM := Message(0, ["fcaps", "done", "x"], Some(FM))

  lemma AlarmArrives()
    ensures Delivered(Sub([], 0, Idle), 0, ALARM) == Sub([ALARM], 0, Idle)
  {
    var (p, x) := (SUBJECTS[0], ALARM.subject);
    assert p[1..][1..] == [">"];
    assert Matches(p[1..][1..], x[1..][1..]);
    assert Matches(p[1..], x[1..]);
    assert [] + [ALARM] == [ALARM];
  }

  /** One socket is connected and the alarm has arrived. */
  predicate AlarmWaits(s: State) {
    |s.subs| == 3 && s.subs[0] == Sub([ALARM], 0, Idle) && s.connections == {0}
  }

  predicate AlarmIsStored(s: State) {
    |s.subs| == 3 && s.subs[0].phase == Storing(ALARM, 0) && s.connections == {0}
  }

  predicate AlarmGoesOut(s: State) {
    |s.subs| == 3 && s.subs[0].phase == Sending(ALARM, 0, [0], 0, [])
  }

  lemma AlarmPublished()
    ensures Legal(true, Init(), [Connect(0)] + [Publish(ALARM)])
    ensures AlarmWaits(Run(true, Init(), [Connect(0)] + [Publish(ALARM)]))
  {
    AlarmArrives();
    assert [] + [Connect(0)] == [Connect(0)];
    AndThen([], Connect(0));
    AndThen([Connect(0)], Publish(ALARM));
  }

  lemma AlarmTaken(s: State)
    requires AlarmWaits(s)
    ensures Enabled(s, Take(0)) && AlarmIsStored(Apply(true, s, Take(0)))
  {
  }

  lemma AlarmStored(s: State)
    requires AlarmIsStored(s)
    ensures Enabled(s, Stores(0, [0])) && AlarmGoesOut(Apply(true, s, Stores(0, [0])))
  {
    assert [0][0] in Elements([0]);
    assert Elements([0]) == {0};
  }

  lemma AlarmSent(s: State)
    requires AlarmGoesOut(s)
    ensures Enabled(s, Send(0, true)) && Apply(true, s, Send(0, true)).attempts != []
  {
  }

  lemma SomethingIsSent()
    ensures exists s :: Reachable(true, s) && s.attempts != []
  {
    var evs := [Connect(0)] + [Publish(ALARM)];
    AlarmPublished();
    AlarmTaken(Run(true, Init(), evs));
    AndThen(evs, Take(0));
    AlarmStored(Run(true, Init(), evs + [Take(0)]));
    AndThen(evs + [Take(0)], Stores(0, [0]));
    AlarmSent(Run(true, Init(), evs + [Take(0)] + [Stores(0, [0])]));
    AndThen(evs + [Take(0)] + [Stores(0, [0])], Send(0, true));
    assert Reachable(true, Run(true, Init(), evs + [Take(0)] + [Stores(0, [0])] + [Send(0, true)]));
  }

  /** What hangs on the log call after the store: some run sends something to a client exactly when
      that call works; when it raises, every stored message is logged as failed. */
  lemma BroadcastNeedsTheLogCall(domainIsEnum: bool)
    ensures (exists s :: Reachable(domainIsEnum, s) && s.attempts != []) <==> domainIsEnum
    ensures !domainIsEnum ==> forall s :: Reachable(false, s) ==> Silent(s)
  {
    if domainIsEnum {
      SomethingIsSent();
    } else {
      forall s | Reachable(false, s)
        ensures Silent(s)
      {
        var evs :| Legal(false, Init(), evs) && s == Run(false, Init(), evs);
        SilentRun(evs);
      }
    }
  }
}
