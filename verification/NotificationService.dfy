/** The notification service and its sockets, updated in place from one await point to the next. */
module NotificationService {
  import opened Prelude
  import opened Envelopes
  import opened Fanout

  lemma ElementsAre(order: seq<Sock>)
    ensures forall w :: w in Elements(order) <==> w in order
  {
  }

  /** Each method is one step of `Fanout.Apply`, so what `FanoutRuns` proves of every run holds of
      every sequence of calls. */
  class Service {
    const domainIsEnum: bool   // whether the log call after the store can read envelope.domain.value
    var subs: seq<Sub>
    var metrics: seq<Message>
    var events: seq<Message>
    var connections: set<Sock>
    var errors: seq<Message>
    ghost var published: set<nat>
    ghost var lost: seq<Message>
    ghost var joined: set<Sock>
    ghost var attempts: seq<Attempt>
    ghost var snapshots: map<(nat, nat), seq<Sock>>

    ghost function Snapshot(): State
      reads this
    {
      State(subs, published, metrics, events, lost, errors, connections, joined, attempts, snapshots)
    }

    /** start: one subscription for each of the subjects. */
    constructor (domainIsEnum: bool)
      ensures this.domainIsEnum == domainIsEnum && Snapshot() == Init()
    {
      this.domainIsEnum := domainIsEnum;
      subs, metrics, events, connections, errors := [], [], [], {}, [];
      published, lost, joined, attempts, snapshots := {}, [], {}, [], map[];
      new;
      for i := 0 to |SUBJECTS|
        invariant subs == seq(i, k => Sub([], 0, Idle))
        invariant Snapshot() == Init().(subs := subs)
      {
        subs := subs + [Sub([], 0, Idle)];
      }
    }

    /** NATS hands a message to every subscription whose subject matches. */
    method Arrive(m: Message)
      requires Enabled(Snapshot(), Publish(m))
      modifies this`subs, this`published
      ensures Snapshot() == Apply(domainIsEnum, old(Snapshot()), Publish(m))
    {
      ghost var before := subs;
      for i := 0 to |subs|
        invariant |subs| == |before|
        invariant Snapshot() == old(Snapshot()).(subs := subs)
        invariant forall k :: 0 <= k < i ==> subs[k] == Delivered(before[k], k, m)
        invariant forall k :: i <= k < |subs| ==> subs[k] == before[k]
      {
        subs := subs[i := Delivered(subs[i], i, m)];
      }
      published := published + {m.id};
    }

    /** _handle up to the store's await: a message that does not validate is logged and dropped. */
    method HandleNext(i: nat)
      requires Enabled(Snapshot(), Take(i))
      modifies this`subs, this`errors, this`lost
      ensures Snapshot() == Apply(domainIsEnum, old(Snapshot()), Take(i))
    {
      var sub := subs[i];
      var m := sub.arrived[sub.taken];
      if m.domain.None? {
        errors := errors + [m];
        lost := lost + [m];
        subs := subs[i := sub.(taken := sub.taken + 1)];
      } else {
        subs := subs[i := sub.(taken := sub.taken + 1, phase := Storing(m, sub.taken))];
      }
    }

    /** The store's write raised. */
    method StoreFailed(i: nat)
      requires Enabled(Snapshot(), StoreFails(i))
      modifies this`subs, this`errors, this`lost
      ensures Snapshot() == Apply(domainIsEnum, old(Snapshot()), StoreFails(i))
    {
      var m := subs[i].phase.m;
      errors := errors + [m];
      lost := lost + [m];
      subs := subs[i := subs[i].(phase := Idle)];
    }

    /** The store's write returned: route by domain, log, list the connections and begin to send. */
    method Stored(i: nat, order: seq<Sock>)
      requires Enabled(Snapshot(), Stores(i, order))
      modifies this`subs, this`metrics, this`events, this`errors, this`connections, this`snapshots
      ensures Snapshot() == Apply(domainIsEnum, old(Snapshot()), Stores(i, order))
    {
      var (m, pos) := (subs[i].phase.m, subs[i].phase.pos);
      if m.domain == Some(PM) {
        metrics := metrics + [m];
      } else {
        events := events + [m];
      }
      if !domainIsEnum {
        errors := errors + [m];
        subs := subs[i := subs[i].(phase := Idle)];
        return;
      }
      snapshots := snapshots[(i, pos) := order];
      subs := subs[i := subs[i].(phase := Sending(m, pos, order, 0, []))];
      FinishIfDone(i);
    }

    /** One send returned or raised. */
    method Sent(i: nat, ok: bool)
      requires Enabled(Snapshot(), Send(i, ok))
      modifies this`subs, this`connections, this`attempts
      ensures Snapshot() == Apply(domainIsEnum, old(Snapshot()), Send(i, ok))
    {
      var p := subs[i].phase;
      var w := p.order[p.next];
      attempts := attempts + [Attempt(i, p.pos, p.m, w, ok)];
      subs := subs[i := subs[i].(phase := p.(next := p.next + 1, dead := if ok then p.dead else p.dead + [w]))];
      FinishIfDone(i);
    }

    /** After the last send the dead sockets are discarded one by one. */
    method FinishIfDone(i: nat)
      requires i < |subs|
      modifies this`subs, this`connections
      ensures Snapshot() == Settle(old(Snapshot()), i)
    {
      var p := subs[i].phase;
      if !p.Sending? || p.next < |p.order| { return; }
      for k := 0 to |p.dead|
        invariant subs == old(subs)
        invariant connections == old(connections) - Elements(p.dead[..k])
      {
        connections := connections - {p.dead[k]};
        ElementsAre(p.dead[..k + 1]);
        ElementsAre(p.dead[..k]);
        assert p.dead[..k + 1] == p.dead[..k] + [p.dead[k]];
      }
      assert p.dead[..|p.dead|] == p.dead;
      subs := subs[i := subs[i].(phase := Idle)];
    }

    method Joins(w: Sock)
      requires Enabled(Snapshot(), Connect(w))
      modifies this`connections, this`joined
      ensures Snapshot() == Apply(domainIsEnum, old(Snapshot()), Connect(w))
    {
      connections := connections + {w};
      joined := joined + {w};
    }

    method Leaves(w: Sock)
      requires Enabled(Snapshot(), Disconnect(w))
      modifies this`connections
      ensures Snapshot() == Apply(domainIsEnum, old(Snapshot()), Disconnect(w))
    {
      connections := connections - {w};
    }
  }
}
