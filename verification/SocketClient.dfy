/**
 The browser's reconnecting event socket: the module variables `ws`, `reconnects` and
 `reconnectTimer`, every socket ever opened, and every timer still pending.
 */
module SocketClient {
  import opened Prelude

  const RECONNECT_DELAY_MS := 3000
  const MAX_RECONNECT := 10

  datatype ReadyState = Connecting | Open | Closing | Closed

  /** `ws` and `timer` are the module variables; sockets and timers are named by number.
      `waited` is history: the sum of all delays scheduled so far. */
  datatype State = State(
    sockets: seq<ReadyState>, ws: Option<nat>, reconnects: nat,
    timer: Option<nat>, pending: set<nat>, timers: nat, waited: nat)

  datatype Event =
    | Start
    | Stop
    | Opens(i: nat)    // open event of socket i
    | Fails(i: nat)    // error and close events of socket i
    | Closes(i: nat)   // close event of socket i, which was open once
    | Drops(i: nat)    // the peer begins to close socket i; no callback runs yet
    | Fires(t: nat)    // a reconnect timer runs out

  predicate IsLive(r: ReadyState) {
    r.Connecting? || r.Open?
  }

  predicate Enabled(s: State, ev: Event) {
    match ev
    case Opens(i) => i < |s.sockets| && s.sockets[i] == Connecting
    case Fails(i) => i < |s.sockets| && s.sockets[i] != Closed
    case Closes(i) => i < |s.sockets| && (s.sockets[i] == Open || s.sockets[i] == Closing)
    case Drops(i) => i < |s.sockets| && s.sockets[i] == Open
    case Fires(t) => t in s.pending
    case _ => true
  }

  function Connect(s: State): State {
    if s.ws.Some? && s.ws.value < |s.sockets| && IsLive(s.sockets[s.ws.value]) then s
    else s.(sockets := s.sockets + [Connecting], ws := Some(|s.sockets|))
  }

  /** ws?.close() */
  function CloseCurrent(s: State): State {
    if s.ws.Some? && s.ws.value < |s.sockets| && IsLive(s.sockets[s.ws.value])
    then s.(sockets := s.sockets[s.ws.value := Closing]) else s
  }

  function Delay(attempt: nat): nat {
    RECONNECT_DELAY_MS * if attempt < 4 then attempt else 4
  }

  function OnClose(s: State): State {
    if s.reconnects < MAX_RECONNECT
    then s.(reconnects := s.reconnects + 1, timer := Some(s.timers), pending := s.pending + {s.timers},
            timers := s.timers + 1, waited := s.waited + Delay(s.reconnects + 1))
    else s
  }

  function Apply(s: State, ev: Event): State
    requires Enabled(s, ev)
  {
    match ev
    case Start => Connect(s)
    case Stop =>
      CloseCurrent(s.(pending := if s.timer.Some? then s.pending - {s.timer.value} else s.pending)).(ws := None)
    case Opens(i) => s.(sockets := s.sockets[i := Open], reconnects := 0)
    case Fails(i) => OnClose(CloseCurrent(s.(sockets := s.sockets[i := Closed])))
    case Closes(i) => OnClose(s.(sockets := s.sockets[i := Closed]))
    case Drops(i) => s.(sockets := s.sockets[i := Closing])
    case Fires(t) => Connect(s.(pending := s.pending - {t}))
  }

  function Init(): State {
    State([], None, 0, None, {}, 0, 0)
  }

  predicate Legal(s: State, evs: seq<Event>)
    decreases |evs|, 0
  {
    evs == [] || (Legal(s, Front(evs)) && Enabled(Run(s, Front(evs)), Last(evs)))
  }

  function Run(s: State, evs: seq<Event>): State
    requires Legal(s, evs)
    decreases |evs|, 1
  {
    if evs == [] then s else Apply(Run(s, Front(evs)), Last(evs))
  }

  ghost predicate Reachable(s: State) {
    exists evs: seq<Event> :: Legal(Init(), evs) && s == Run(Init(), evs)
  }

  // ---------------------------------------------------------------- one live socket

  /** Only the current socket can be connecting or open. */
  ghost predicate Inv(s: State) {
    && s.reconnects <= MAX_RECONNECT
    && (s.ws.Some? ==> s.ws.value < |s.sockets|)
    && (forall t :: t in s.pending ==> t < s.timers)
    && (forall i :: 0 <= i < |s.sockets| && IsLive(s.sockets[i]) ==> s.ws == Some(i))
  }

  lemma InvStep(s: State, ev: Event)
    requires Inv(s) && Enabled(s, ev)
    ensures Inv(Apply(s, ev))
  {
  }

  lemma {:induction false} InvRun(s: State, evs: seq<Event>)
    requires Inv(s) && Legal(s, evs)
    ensures Inv(Run(s, evs))
    decreases |evs|
  {
    if evs != [] {
      InvRun(s, Front(evs));
      InvStep(Run(s, Front(evs)), Last(evs));
    }
  }

  lemma ReachableInv(s: State)
    requires Reachable(s)
    ensures Inv(s)
  {
    var evs :| Legal(Init(), evs) && s == Run(Init(), evs);
    InvRun(Init(), evs);
  }

  /** In every reachable state at most one socket is connecting or open, though the callbacks of
      every socket ever made can still run. */
  lemma AtMostOneLive(s: State, i: nat, j: nat)
    requires Reachable(s) && i < |s.sockets| && j < |s.sockets| && IsLive(s.sockets[i]) && IsLive(s.sockets[j])
    ensures i == j && s.ws == Some(i)
  {
    ReachableInv(s);
  }

  // ---------------------------------------------------------------- the reconnect budget

  /** Total delay of the first n attempts after an open. */
  function TotalDelay(n: nat): nat {
    if n == 0 then 0 else TotalDelay(n - 1) + Delay(n)
  }

  predicate NoOpen(evs: seq<Event>) {
    forall k :: 0 <= k < |evs| ==> !evs[k].Opens?
  }

  /** From s to s', `reconnects` counted the timers scheduled and their delays added up. */
  predicate Spent(s: State, s': State) {
    && s.reconnects <= s'.reconnects && s'.timers - s.timers == s'.reconnects - s.reconnects
    && s'.waited - s.waited == TotalDelay(s'.reconnects) - TotalDelay(s.reconnects)
  }

  lemma CloseSpends(s: State)
    ensures Spent(s, OnClose(s))
  {
  }

  lemma BudgetStep(s: State, ev: Event)
    requires Enabled(s, ev) && !ev.Opens?
    ensures Spent(s, Apply(s, ev))
  {
    match ev
    case Fails(i) => CloseSpends(CloseCurrent(s.(sockets := s.sockets[i := Closed])));
    case Closes(i) => CloseSpends(s.(sockets := s.sockets[i := Closed]));
    case _ =>
  }

  /** While no socket opens, every timer scheduled is paid for by `reconnects`. */
  lemma {:induction false} BudgetRun(s: State, evs: seq<Event>)
    requires Legal(s, evs) && NoOpen(evs)
    ensures Spent(s, Run(s, evs))
    decreases |evs|
  {
    if evs != [] {
      BudgetRun(s, Front(evs));
      BudgetStep(Run(s, Front(evs)), Last(evs));
    }
  }

  lemma {:induction false} TotalDelayGrows(m: nat, n: nat)
    requires m <= n
    ensures TotalDelay(m) <= TotalDelay(n)
  {
    if m < n { TotalDelayGrows(m, n - 1); }
  }

  lemma TenDelays()
    ensures TotalDelay(10) == 102000
  {
    assert TotalDelay(4) == 30000;
    assert TotalDelay(7) == TotalDelay(4) + 36000;
  }

  /** From any point of any run on, until a socket opens, at most 10 reconnects are scheduled,
      with a total delay of at most 102 s. */
  lemma ReconnectBudget(s: State, evs: seq<Event>)
    requires Reachable(s) && Legal(s, evs) && NoOpen(evs)
    ensures Run(s, evs).timers - s.timers <= 10
    ensures Run(s, evs).waited - s.waited <= 102000
  {
    ReachableInv(s);
    InvRun(s, evs);
    BudgetRun(s, evs);
    TenDelays();
    TotalDelayGrows(Run(s, evs).reconnects, 10);
  }

  /** Once ten reconnects have been spent nothing is scheduled until a socket opens, not even after
      a fresh start. */
  lemma GivesUp(s: State, evs: seq<Event>)
    requires Reachable(s) && s.reconnects == MAX_RECONNECT && Legal(s, evs) && NoOpen(evs)
    ensures Run(s, evs).timers == s.timers
  {
    ReachableInv(s);
    InvRun(s, evs);
    BudgetRun(s, evs);
  }

  // ---------------------------------------------------------------- an open renews the budget

  predicate IsLoss(ev: Event) {
    ev.Closes? || ev.Fails?
  }

  /** How many sockets closed or failed. */
  function Losses(evs: seq<Event>): nat {
    if evs == [] then 0 else Losses(Front(evs)) + if IsLoss(Last(evs)) then 1 else 0
  }

  lemma {:induction false} LossesCount(s: State, evs: seq<Event>)
    requires Inv(s) && Legal(s, evs) && NoOpen(evs)
    ensures Run(s, evs).reconnects == if s.reconnects + Losses(evs) < 10 then s.reconnects + Losses(evs) else 10
    decreases |evs|
  {
    if evs != [] {
      LossesCount(s, Front(evs));
      InvRun(s, Front(evs));
    }
  }

  /** What the k-th loss schedules when nothing was spent before the first: a timer after 3, 6, 9 and
      then always 12 seconds, ten times, and nothing after that. */
  ghost predicate SchedulesKth(s: State, ev: Event, k: nat)
    requires Enabled(s, ev)
  {
    var s' := Apply(s, ev);
    if k <= 10 then
      && s'.timers == s.timers + 1 && s'.timer == Some(s.timers) && s'.pending == s.pending + {s.timers}
      && s'.waited == s.waited + 3000 * (if k < 4 then k else 4)
    else s'.timers == s.timers && s'.timer == s.timer && s'.pending == s.pending && s'.waited == s.waited
  }

  lemma UnspentSchedules(s: State, evs: seq<Event>, ev: Event)
    requires Inv(s) && s.reconnects == 0 && Legal(s, evs) && NoOpen(evs)
    requires Enabled(Run(s, evs), ev) && IsLoss(ev)
    ensures SchedulesKth(Run(s, evs), ev, Losses(evs) + 1)
  {
    LossesCount(s, evs);
  }

  /** The state after an open event of socket `i`. */
  function Opened(s: State, i: nat): State
    requires Enabled(s, Opens(i))
  {
    Apply(s, Opens(i))
  }

  /** An open event, whatever was spent before it, makes ten reconnects available again: of the losses
      that follow it, until the next open, the first ten schedule a timer each. */
  lemma OpenRenewsBudget(s: State, i: nat, evs: seq<Event>, ev: Event)
    requires Reachable(s) && Enabled(s, Opens(i)) && Legal(Opened(s, i), evs) && NoOpen(evs)
    requires Enabled(Run(Opened(s, i), evs), ev) && IsLoss(ev)
    ensures Opened(s, i).sockets[i] == Open
    ensures SchedulesKth(Run(Opened(s, i), evs), ev, Losses(evs) + 1)
  {
    ReachableInv(s);
    InvStep(s, Opens(i));
    UnspentSchedules(Opened(s, i), evs, ev);
  }

  /** So it is before the first open. */
  lemma FirstBudget(evs: seq<Event>, ev: Event)
    requires Legal(Init(), evs) && NoOpen(evs) && Enabled(Run(Init(), evs), ev) && IsLoss(ev)
    ensures SchedulesKth(Run(Init(), evs), ev, Losses(evs) + 1)
  {
    UnspentSchedules(Init(), evs, ev);
  }

  // ---------------------------------------------------------------- what start, stop and a timer do

  /** A start, or a timer that runs out, leaves one socket connecting or open, a new one only if there
      was none; and a stop leaves none and no last timer. */
  lemma StartAndStop(s: State)
    requires Reachable(s)
    ensures var s' := Apply(s, Start);
      && s'.ws.Some? && s'.ws.value < |s'.sockets| && IsLive(s'.sockets[s'.ws.value])
      && s'.sockets == if exists i :: 0 <= i < |s.sockets| && IsLive(s.sockets[i]) then s.sockets
                       else s.sockets + [Connecting]
    ensures forall t :: t in s.pending ==>
      Apply(s, Fires(t)).sockets == Apply(s, Start).sockets && Apply(s, Fires(t)).pending == s.pending - {t}
    ensures var s' := Apply(s, Stop);
      && s'.ws == None && |s'.sockets| == |s.sockets| && (forall t :: s.timer == Some(t) ==> t !in s'.pending)
      && forall i :: 0 <= i < |s.sockets| ==>
           s'.sockets[i] == if IsLive(s.sockets[i]) then Closing else s.sockets[i]
  {
    ReachableInv(s);
  }

  // ---------------------------------------------------------------- what stop does not do

  predicate NoStart(evs: seq<Event>) {
    forall k :: 0 <= k < |evs| ==> !evs[k].Start?
  }

  /** However the run goes on from here, no socket is opened without a new start. */
  ghost predicate StaysStopped(s: State) {
    forall evs :: Legal(s, evs) && NoStart(evs) ==> |Run(s, evs).sockets| == |s.sockets|
  }

  predicate AllClosed(s: State) {
    forall i :: 0 <= i < |s.sockets| ==> s.sockets[i].Closed?
  }

  /** Nothing is left that could still open a socket. */
  ghost predicate Quiet(s: State, n: nat) {
    && Inv(s) && s.ws == None && s.pending == {} && |s.sockets| == n
    && (s.reconnects == MAX_RECONNECT || AllClosed(s))
  }

  lemma QuietStep(s: State, ev: Event, n: nat)
    requires Quiet(s, n) && Enabled(s, ev) && !ev.Start?
    ensures Quiet(Apply(s, ev), n)
  {
    assert forall i :: 0 <= i < |s.sockets| ==> !IsLive(s.sockets[i]);
    match ev
    case Fails(i) => assert CloseCurrent(s.(sockets := s.sockets[i := Closed])).reconnects == s.reconnects;
    case _ =>
  }

  lemma {:induction false} QuietRun(s: State, evs: seq<Event>)
    requires Quiet(s, |s.sockets|) && Legal(s, evs) && NoStart(evs)
    ensures Quiet(Run(s, evs), |s.sockets|)
    decreases |evs|
  {
    if evs != [] {
      QuietRun(s, Front(evs));
      QuietStep(Run(s, Front(evs)), Last(evs), |s.sockets|);
    }
  }

  lemma RunsOne(s: State, ev: Event)
    requires Enabled(s, ev)
    ensures Legal(s, [ev]) && Run(s, [ev]) == Apply(s, ev)
  {
    assert Front([ev]) == [];
  }

  lemma RunsTwo(s: State, ev: Event, ev': Event)
    requires Enabled(s, ev) && Enabled(Apply(s, ev), ev')
    ensures Legal(s, [ev, ev']) && Run(s, [ev, ev']) == Apply(Apply(s, ev), ev')
  {
    RunsOne(s, ev);
    assert Front([ev, ev']) == [ev];
  }

  /** A timer that is still pending opens a socket. */
  lemma TimerOpens(s: State, t: nat)
    requires s.ws == None && t in s.pending
    ensures !StaysStopped(s)
  {
    RunsOne(s, Fires(t));
    assert NoStart([Fires(t)]);
  }

  /** So does a socket that is not closed yet, once it fails, while the budget lasts. */
  lemma CloseOpens(s: State, i: nat)
    requires s.ws == None && i < |s.sockets| && s.sockets[i] != Closed && s.reconnects < MAX_RECONNECT
    ensures !StaysStopped(s)
  {
    RunsTwo(s, Fails(i), Fires(s.timers));
    assert NoStart([Fails(i), Fires(s.timers)]);
  }

  lemma StoppedState(s: State)
    requires Inv(s)
    ensures var s' := Apply(s, Stop);
      && Inv(s') && s'.ws == None && s'.reconnects == s.reconnects && (AllClosed(s') <==> AllClosed(s))
      && s'.pending == s.pending - (if s.timer.Some? then {s.timer.value} else {})
  {
    if s.ws.Some? && IsLive(s.sockets[s.ws.value]) {
      assert Apply(s, Stop).sockets[s.ws.value] == Closing;
    }
  }

  /** A stop keeps the client stopped exactly when no timer but the last one scheduled is pending, and
      no close event can schedule another: the budget is spent or every socket is closed. */
  lemma StopIsFinalExactly(s: State)
    requires Reachable(s)
    ensures StaysStopped(Apply(s, Stop)) <==>
      && (forall t :: t in s.pending ==> s.timer == Some(t))
      && (s.reconnects == MAX_RECONNECT || AllClosed(s))
  {
    ReachableInv(s);
    StoppedState(s);
    var s' := Apply(s, Stop);
    if s'.pending != {} {
      var t := Pick(s'.pending);
      TimerOpens(s', t);
    } else if s.reconnects < MAX_RECONNECT && !AllClosed(s') {
      var i :| 0 <= i < |s'.sockets| && !s'.sockets[i].Closed?;
      CloseOpens(s', i);
    } else {
      forall evs | Legal(s', evs) && NoStart(evs)
        ensures |Run(s', evs).sockets| == |s'.sockets|
      {
        QuietRun(s', evs);
      }
    }
  }

  /** The state after a stop and then the close event of the socket that it closed. */
  function StoppedAndClosed(s: State, i: nat): State
    requires Enabled(Apply(s, Stop), Closes(i))
  {
    Apply(Apply(s, Stop), Closes(i))
  }

  /** The usual case: stopping closes the live socket, but its close event still schedules a
      reconnect, exactly while the budget is not spent; and when that timer runs out a new socket
      is opened. */
  lemma StopStillReconnects(s: State, i: nat)
    requires Reachable(s) && s.ws == Some(i) && i < |s.sockets| && IsLive(s.sockets[i])
    ensures Enabled(Apply(s, Stop), Closes(i))
    ensures StoppedAndClosed(s, i).timers == s.timers + 1 <==> s.reconnects < MAX_RECONNECT
    ensures StoppedAndClosed(s, i).pending - s.pending == {s.timers} <==> s.reconnects < MAX_RECONNECT
    ensures s.reconnects < MAX_RECONNECT ==>
      Enabled(StoppedAndClosed(s, i), Fires(s.timers)) &&
      var again := Apply(StoppedAndClosed(s, i), Fires(s.timers));
      |again.sockets| == |s.sockets| + 1 && IsLive(again.sockets[|s.sockets|])
  {
    ReachableInv(s);
    var s' := StoppedAndClosed(s, i);
    if s.reconnects < MAX_RECONNECT {
      assert s'.pending - s.pending == {s.timers};
    } else {
      assert s.timers !in s'.pending;
    }
  }

  lemma AndThen(evs: seq<Event>, ev: Event)
    requires Legal(Init(), evs) && Enabled(Run(Init(), evs), ev)
    ensures Legal(Init(), evs + [ev]) && Run(Init(), evs + [ev]) == Apply(Run(Init(), evs), ev)
  {
    assert Front(evs + [ev]) == evs;
  }

  /** Started, stopped and started again: the first socket is closing, the second connecting. */
  lemma Restarted()
    ensures Legal(Init(), [Start, Stop, Start])
    ensures Run(Init(), [Start, Stop, Start]) == State([Closing, Connecting], Some(1), 0, None, {}, 0, 0)
  {
    assert [] + [Start] == [Start] && [Start] + [Stop] == [Start, Stop];
    assert [Start, Stop] + [Start] == [Start, Stop, Start];
    AndThen([], Start);
    AndThen([Start], Stop);
    AndThen([Start, Stop], Start);
  }

  /** Two sockets that close one after the other leave two timers, of which a stop clears only the
      second: with every socket closed and the client stopped, the first still opens a socket. */
  lemma SurvivingTimerOpens()
    ensures exists s :: (Reachable(s) && AllClosed(s) && !StaysStopped(Apply(s, Stop)))
  {
    var evs := [Start, Stop, Start];
    Restarted();
    AndThen(evs, Fails(0));
    AndThen(evs + [Fails(0)], Fails(1));
    var s := Run(Init(), evs + [Fails(0)] + [Fails(1)]);
    assert s.sockets == [Closed, Closed] && s.pending == {0, 1} && s.timer == Some(1);
    assert Reachable(s);
    TimerOpens(Apply(s, Stop), 0);
  }

  /** The error of a socket that has been replaced closes the live one. */
  lemma StaleErrorClosesLive(s: State, i: nat, c: nat)
    requires Reachable(s) && s.ws == Some(c) && c < |s.sockets| && IsLive(s.sockets[c])
    requires i < |s.sockets| && i != c && s.sockets[i] != Closed
    ensures Apply(s, Fails(i)).sockets[c] == Closing
    ensures forall j :: 0 <= j < |s.sockets| ==> !IsLive(Apply(s, Fails(i)).sockets[j])
  {
    ReachableInv(s);
  }

  predicate OtherIsLive(s: State, i: nat, c: nat) {
    c != i && c < |s.sockets| && IsLive(s.sockets[c])
  }

  /** The error of a socket closes another one exactly when another one is live. */
  lemma ErrorClosesAnother(s: State, i: nat)
    requires Reachable(s) && Enabled(s, Fails(i))
    ensures (exists c: nat :: OtherIsLive(s, i, c) && !OtherIsLive(Apply(s, Fails(i)), i, c))
       <==> (exists c: nat :: OtherIsLive(s, i, c))
  {
    if exists c: nat :: OtherIsLive(s, i, c) {
      var c: nat :| OtherIsLive(s, i, c);
      ReachableInv(s);
      StaleErrorClosesLive(s, i, c);
    }
  }

  /** Such a state comes about by a stop and a new start. */
  lemma StaleErrorHappens()
    ensures exists s, i: nat, c: nat :: Reachable(s) && s.ws == Some(c) && c < |s.sockets| && IsLive(s.sockets[c])
              && i < |s.sockets| && i != c && s.sockets[i] != Closed && !IsLive(Apply(s, Fails(i)).sockets[c])
  {
    Restarted();
    var s := Run(Init(), [Start, Stop, Start]);
    assert Reachable(s);
    StaleErrorClosesLive(s, 0, 1);
  }

  // ---------------------------------------------------------------- the module itself

  /** The module variables, with the browser's sockets and timers. */
  class Client {
    var ws: Option<nat>
    var reconnects: nat
    var reconnectTimer: Option<nat>
    var sockets: seq<ReadyState>
    var pending: set<nat>
    var timers: nat
    ghost var waited: nat

    ghost function Snapshot(): State
      reads this
    {
      State(sockets, ws, reconnects, reconnectTimer, pending, timers, waited)
    }

    constructor ()
      ensures Snapshot() == Init()
    {
      ws, reconnects, reconnectTimer, sockets, pending, timers, waited := None, 0, None, [], {}, 0, 0;
    }

    method Reconnect()
      modifies this`sockets, this`ws
      ensures Snapshot() == Connect(old(Snapshot()))
    {
      if ws.Some? && ws.value < |sockets| && IsLive(sockets[ws.value]) { return; }
      sockets := sockets + [Connecting];
      ws := Some(|sockets| - 1);
    }

    method CloseWs()
      modifies this`sockets
      ensures Snapshot() == CloseCurrent(old(Snapshot()))
    {
      if ws.Some? && ws.value < |sockets| && IsLive(sockets[ws.value]) {
        sockets := sockets[ws.value := Closing];
      }
    }

    method HandleClose()
      modifies this`reconnects, this`reconnectTimer, this`pending, this`timers, this`waited
      ensures Snapshot() == OnClose(old(Snapshot()))
    {
      if reconnects < MAX_RECONNECT {
        reconnects := reconnects + 1;
        var delay := RECONNECT_DELAY_MS * if reconnects < 4 then reconnects else 4;
        reconnectTimer := Some(timers);
        pending := pending + {timers};
        timers := timers + 1;
        waited := waited + delay;
      }
    }

    method StartWebSocket()
      modifies this`sockets, this`ws
      ensures Snapshot() == Apply(old(Snapshot()), Start)
    {
      Reconnect();
    }

    method StopWebSocket()
      modifies this`pending, this`sockets, this`ws
      ensures Snapshot() == Apply(old(Snapshot()), Stop)
    {
      if reconnectTimer.Some? { pending := pending - {reconnectTimer.value}; }
      CloseWs();
      ws := None;
    }

    method Opened(i: nat)
      requires Enabled(Snapshot(), Opens(i))
      modifies this`sockets, this`reconnects
      ensures Snapshot() == Apply(old(Snapshot()), Opens(i))
    {
      sockets := sockets[i := Open];
      reconnects := 0;
    }

    method Failed(i: nat)
      requires Enabled(Snapshot(), Fails(i))
      modifies this
      ensures Snapshot() == Apply(old(Snapshot()), Fails(i))
    {
      sockets := sockets[i := Closed];
      CloseWs();
      HandleClose();
    }

    method ClosedBy(i: nat)
      requires Enabled(Snapshot(), Closes(i))
      modifies this
      ensures Snapshot() == Apply(old(Snapshot()), Closes(i))
    {
      sockets := sockets[i := Closed];
      HandleClose();
    }

    method PeerClosing(i: nat)
      requires Enabled(Snapshot(), Drops(i))
      modifies this`sockets
      ensures Snapshot() == Apply(old(Snapshot()), Drops(i))
    {
      sockets := sockets[i := Closing];
    }

    method TimerFired(t: nat)
      requires Enabled(Snapshot(), Fires(t))
      modifies this
      ensures Snapshot() == Apply(old(Snapshot()), Fires(t))
    {
      pending := pending - {t};
      Reconnect();
    }
  }
}
