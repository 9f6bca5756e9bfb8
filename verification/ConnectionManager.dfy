/** The WebSocket connection set, and a broadcast that nothing interleaves with. */
module ConnectionManager {
  import opened Prelude
  import opened Fanout

  /** One send: to whom, what, and whether it went through. */
  datatype Sent = Sent(sock: Sock, message: string, ok: bool)

  const PING := "{\"type\":\"ping\"}"

  class Manager {
    var connections: set<Sock>
    var log: seq<Sent>

    constructor ()
      ensures connections == {} && log == []
    {
      connections, log := {}, [];
    }

    method Connect(w: Sock)
      modifies this`connections
      ensures connections == old(connections) + {w}
    {
      connections := connections + {w};
    }

    method Disconnect(w: Sock)
      modifies this`connections
      ensures connections == old(connections) - {w}
    {
      connections := connections - {w};
    }

    /** ws_events: the socket joins, is pinged until a ping fails, here after `pings` that went
        through, and leaves.  Whatever the number, the set is left as it was without the socket. */
    method WsEvents(w: Sock, pings: nat)
      modifies this
      ensures connections == old(connections) - {w}
      ensures w !in old(connections) ==> connections == old(connections)
      ensures log == old(log) + seq(pings, _ => Sent(w, PING, true)) + [Sent(w, PING, false)]
    {
      Connect(w);
      for i := 0 to pings
        invariant connections == old(connections) + {w}
        invariant log == old(log) + seq(i, _ => Sent(w, PING, true))
      {
        log := log + [Sent(w, PING, true)];
      }
      log := log + [Sent(w, PING, false)];
      Disconnect(w);
    }

    /** list(self._connections): some order of the set. */
    method Listed() returns (order: seq<Sock>)
      ensures Distinct(order) && Elements(order) == connections
    {
      order := [];
      var rest := connections;
      while rest != {}
        invariant Distinct(order) && rest <= connections
        invariant forall w :: w in order <==> w in connections && w !in rest
        decreases |rest|
      {
        var w: Sock :| w in rest;
        order := order + [w];
        rest := rest - {w};
      }
    }

    /** Every socket is sent the message once, in some order, and exactly those whose send failed
        leave the set. */
    method Broadcast(message: string, ok: Sock -> bool) returns (order: seq<Sock>)
      modifies this
      ensures Distinct(order) && Elements(order) == old(connections)
      ensures |log| == |old(log)| + |order| && old(log) <= log
      ensures forall i :: 0 <= i < |order| ==> log[|old(log)| + i] == Sent(order[i], message, ok(order[i]))
      ensures forall w :: w in connections <==> w in old(connections) && ok(w)
    {
      order := Listed();
      var dead: seq<Sock> := [];
      for i := 0 to |order|
        invariant connections == old(connections)
        invariant |log| == |old(log)| + i && old(log) <= log
        invariant forall j :: 0 <= j < i ==> log[|old(log)| + j] == Sent(order[j], message, ok(order[j]))
        invariant forall w :: w in dead <==> w in order[..i] && !ok(w)
      {
        log := log + [Sent(order[i], message, ok(order[i]))];
        if !ok(order[i]) {
          dead := dead + [order[i]];
        }
      }
      assert forall w :: w in order <==> w in old(connections);
      ghost var sent := log;
      for i := 0 to |dead|
        invariant log == sent
        invariant forall w :: w in connections <==> w in old(connections) && w !in dead[..i]
      {
        connections := connections - {dead[i]};
      }
    }
  }
}
