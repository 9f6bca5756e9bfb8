/**
 Notification fan-out: three subscriptions each run their handlers one message at a time, and
 interleave with each other, with sockets joining and leaving, and with failing sends.
 Every step below runs from one await point to the next.
 */
module Fanout {
  import opened Prelude
  import opened Envelopes

  // ---------------------------------------------------------------- subjects

  const SUBJECTS: seq<seq<string>> := [["fcaps", "done", ">"], ["fcaps", "ingest", ">"], ["fcaps", "simulated", ">"]]

  /** NATS subject matching: `*` stands for one token, a final `>` for one or more. */
  predicate Matches(pattern: seq<string>, subject: seq<string>) {
    if pattern == [] || subject == [] then pattern == subject
    else if pattern == [">"] then true
    else (pattern[0] == "*" || pattern[0] == subject[0]) && Matches(pattern[1..], subject[1..])
  }

  lemma SecondToken(i: nat, subject: seq<string>)
    requires i < 3 && Matches(SUBJECTS[i], subject)
    ensures |subject| > 2 && subject[1] == SUBJECTS[i][1]
  {
    var p := SUBJECTS[i];
    assert Matches(p[1..], subject[1..]);
    assert p[1..][0] == p[1] && subject[1..][0] == subject[1];
    assert Matches(p[1..][1..], subject[1..][1..]);
  }

  /** No subject is delivered by two of the subscriptions. */
  lemma OneSubscription(i: nat, j: nat, subject: seq<string>)
    requires i < 3 && j < 3 && Matches(SUBJECTS[i], subject) && Matches(SUBJECTS[j], subject)
    ensures i == j
  {
    SecondToken(i, subject);
    SecondToken(j, subject);
  }

  // ---------------------------------------------------------------- the state machine

  type Sock = nat

  /** A published message; `domain` is absent when its data is no valid envelope. */
  datatype Message = Message(id: nat, subject: seq<string>, domain: Option<Domain>)

  /** Where a handler waits: for a message, for the store, or for the send to order[next].
      `pos` is the message's place in its subscription. */
  datatype Phase =
    | Idle
    | Storing(m: Message, pos: nat)
    | Sending(m: Message, pos: nat, order: seq<Sock>, next: nat, dead: seq<Sock>)

  /** One subscription: all that arrived on it, how much its handler took, and its phase. */
  datatype Sub = Sub(arrived: seq<Message>, taken: nat, phase: Phase)

  /** History: one send of the message at `pos` of subscription `sub`. */
  datatype Attempt = Attempt(sub: nat, pos: nat, m: Message, sock: Sock, ok: bool)

  datatype State = State(
    subs: seq<Sub>, published: set<nat>,
    metrics: seq<Message>, events: seq<Message>,   // the two stores
    lost: seq<Message>,                            // rejected, or their store failed
    errors: seq<Message>,                          // logged as storage_write_failed
    connections: set<Sock>, joined: set<Sock>,
    attempts: seq<Attempt>, snapshots: map<(nat, nat), seq<Sock>>)

  datatype Event =
    | Publish(m: Message)
    | Take(i: nat)                        // the next message is decoded and validated
    | StoreFails(i: nat)
    | Stores(i: nat, order: seq<Sock>)    // ... and the broadcast takes its snapshot
    | Send(i: nat, ok: bool)
    | Connect(w: Sock)
    | Disconnect(w: Sock)                 // a ping failed or the peer left

  predicate Distinct(order: seq<Sock>) {
    forall i, j :: 0 <= i < j < |order| ==> order[i] != order[j]
  }

  function Elements(order: seq<Sock>): set<Sock> {
    set i | 0 <= i < |order| :: order[i]
  }

  predicate Enabled(s: State, ev: Event) {
    match ev
    case Publish(m) => m.id !in s.published
    case Take(i) => i < |s.subs| && s.subs[i].phase.Idle? && s.subs[i].taken < |s.subs[i].arrived|
    case StoreFails(i) => i < |s.subs| && s.subs[i].phase.Storing?
    case Stores(i, order) =>
      i < |s.subs| && s.subs[i].phase.Storing? && Distinct(order) && Elements(order) == s.connections
    case Send(i, _) =>
      i < |s.subs| && s.subs[i].phase.Sending? && s.subs[i].phase.next < |s.subs[i].phase.order|
    case Connect(w) => w !in s.joined
    case Disconnect(w) => w in s.joined
  }

  function Delivered(sub: Sub, i: nat, m: Message): Sub {
    if i < |SUBJECTS| && Matches(SUBJECTS[i], m.subject) then sub.(arrived := sub.arrived + [m]) else sub
  }

  function WithPhase(s: State, i: nat, phase: Phase): State
    requires i < |s.subs|
  {
    s.(subs := s.subs[i := s.subs[i].(phase := phase)])
  }

  /** A broadcast whose sends are all done drops its dead sockets and ends the handler. */
  function Settle(s: State, i: nat): State
    requires i < |s.subs|
  {
    var p := s.subs[i].phase;
    if p.Sending? && p.next >= |p.order|
    then WithPhase(s, i, Idle).(connections := s.connections - Elements(p.dead)) else s
  }

  /** `domainIsEnum` says whether `envelope.domain.value` in the log call after the store works;
      when it raises, the handler ends there. */
  function Apply(domainIsEnum: bool, s: State, ev: Event): State
    requires Enabled(s, ev)
  {
    match ev
    case Publish(m) =>
      s.(subs := seq(|s.subs|, i requires 0 <= i < |s.subs| => Delivered(s.subs[i], i, m)),
         published := s.published + {m.id})
    case Take(i) =>
      var sub := s.subs[i];
      var m := sub.arrived[sub.taken];
      if m.domain.None?
      then s.(subs := s.subs[i := sub.(taken := sub.taken + 1)], lost := s.lost + [m], errors := s.errors + [m])
      else s.(subs := s.subs[i := sub.(taken := sub.taken + 1, phase := Storing(m, sub.taken))])
    case StoreFails(i) =>
      var m := s.subs[i].phase.m;
      WithPhase(s, i, Idle).(lost := s.lost + [m], errors := s.errors + [m])
    case Stores(i, order) =>
      var (m, pos) := (s.subs[i].phase.m, s.subs[i].phase.pos);
      var stored := if m.domain == Some(PM) then s.(metrics := s.metrics + [m]) else s.(events := s.events + [m]);
      if !domainIsEnum then WithPhase(stored, i, Idle).(errors := s.errors + [m])
      else Settle(WithPhase(stored, i, Sending(m, pos, order, 0, []))
                  .(snapshots := s.snapshots[(i, pos) := order]), i)
    case Send(i, ok) =>
      var p := s.subs[i].phase;
      var w := p.order[p.next];
      Settle(WithPhase(s, i, p.(next := p.next + 1, dead := if ok then p.dead else p.dead + [w]))
             .(attempts := s.attempts + [Attempt(i, p.pos, p.m, w, ok)]), i)
    case Connect(w) => s.(connections := s.connections + {w}, joined := s.joined + {w})
    case Disconnect(w) => s.(connections := s.connections - {w})
  }

  function Init(): State {
    State([Sub([], 0, Idle), Sub([], 0, Idle), Sub([], 0, Idle)], {}, [], [], [], [], {}, {}, [], map[])
  }

  predicate Legal(e: bool, s: State, evs: seq<Event>)
    decreases |evs|, 0
  {
    evs == [] || (Legal(e, s, Front(evs)) && Enabled(Run(e, s, Front(evs)), Last(evs)))
  }

  function Run(e: bool, s: State, evs: seq<Event>): State
    requires Legal(e, s, evs)
    decreases |evs|, 1
  {
    if evs == [] then s else Apply(e, Run(e, s, Front(evs)), Last(evs))
  }
}
