/** The WebSocket hub: its clients map and their bounded send queues (server/internal/api/hub.go), and the replay of
    missed calls to one client (server/internal/api/calls.go). */
module WsHub {
  import opened Ordering
  import opened ReplaySpec

  class HubClient {
    const user: string
    var send: seq<Msg>
    var closed: bool

    constructor (user: string)
      ensures this.user == user && send == [] && !closed
    {
      this.user, send, closed := user, [], false;
    }
  }

  class Hub {
    var clients: set<HubClient>

    constructor ()
      ensures clients == {} && Valid()
    {
      clients := {};
    }

    /** A registered client's queue is open and within its buffer. */
    ghost predicate Valid()
      reads this, clients
    {
      forall c :: c in clients ==> !c.closed && |c.send| <= SEND_BUFFER
    }

    ghost function View(c: HubClient): Conn
      reads this, c
    {
      Conn(c in clients, c.send)
    }

    method Register(c: HubClient)
      requires Valid() && c !in clients && !c.closed && c.send == []
      modifies this
      ensures Valid() && clients == old(clients) + {c}
    {
      clients := clients + {c};
    }

    /** Safe to call again for the same client: the queue is closed once. */
    method RemoveClientLocked(c: HubClient)
      requires Valid()
      modifies this, c`closed
      ensures Valid() && clients == old(clients) - {c}
      ensures c.closed == (old(c.closed) || c in old(clients))
    {
      if c !in clients {
        return;
      }
      clients := clients - {c};
      assert !c.closed;
      c.closed := true;
    }

    method EnqueueLocked(c: HubClient, msg: Msg)
      requires Valid()
      modifies this, c`send, c`closed
      ensures Valid() && View(c) == Enqueue(old(View(c)), msg)
      ensures c.send == if c in old(clients) && |old(c.send)| < 256 then old(c.send) + [msg] else old(c.send)
      ensures c in clients <==> c in old(clients) && |old(c.send)| < 256
      ensures clients == if View(c).registered then old(clients) else old(clients) - {c}
      ensures c.closed == (old(c.closed) || (c in old(clients) && c !in clients))
    {
      if c !in clients {
        return;
      }
      if |c.send| < SEND_BUFFER {
        assert !c.closed;
        c.send := c.send + [msg];
      } else {
        RemoveClientLocked(c);
      }
    }

    /** One message per connected client, built for its user. Each client's queue changes as if it were the only one:
        a full queue costs that client its registration and nothing else. */
    method BroadcastForUsers(build: string -> Msg)
      requires Valid()
      modifies this, clients
      ensures Valid() && clients <= old(clients)
      ensures forall c :: c in old(clients) ==> View(c) == Enqueue(old(View(c)), build(c.user))
      ensures forall c :: c in old(clients) ==> (c.closed <==> c !in clients)
    {
      var rest := clients;
      ghost var all := clients;
      while rest != {}
        invariant rest <= clients <= all
        invariant forall c :: c in clients ==> !c.closed && |c.send| <= SEND_BUFFER
        invariant forall c :: c in rest ==> c.send == old(c.send)
        invariant forall c :: c in all && c !in rest ==>
                    View(c) == Enqueue(old(View(c)), build(c.user)) && (c.closed <==> c !in clients)
        decreases |rest|
      {
        var c := AnyOf(rest);
        rest := rest - {c};
        EnqueueLocked(c, build(c.user));
      }
    }

    method Broadcast(msg: Msg)
      requires Valid()
      modifies this, clients
      ensures Valid() && clients <= old(clients)
      ensures forall c :: c in old(clients) ==> View(c) == Enqueue(old(View(c)), msg)
    {
      BroadcastForUsers(_ => msg);
    }

    /** The listed calls of a replay are offered in order, and counted. */
    method ReplayCalls(c: HubClient, missed: seq<int>) returns (count: nat)
      requires Valid()
      modifies this, c`send, c`closed
      ensures Valid() && count == |missed|
      ensures View(c) == EnqueueAll(old(View(c)), CallMsgs(missed))
      ensures clients == if View(c).registered then old(clients) else old(clients) - {c}
      ensures c.closed == (old(c.closed) || (c in old(clients) && c !in clients))
    {
      hide EnqueueAll, Enqueue;
      count := 0;
      ghost var before, calls := View(c), CallMsgs(missed);
      assert calls[..0] == [];
      EnqueueOneMore(before, [], Heartbeat);
      while count < |missed|
        invariant Valid() && 0 <= count <= |missed|
        invariant View(c) == EnqueueAll(before, calls[..count])
        invariant clients == if View(c).registered then old(clients) else old(clients) - {c}
        invariant c.closed == (old(c.closed) || (c in old(clients) && c !in clients))
        modifies this, c`send, c`closed
      {
        EnqueueOneMore(before, calls[..count], CallMsg(missed[count]));
        assert calls[..count + 1] == calls[..count] + [CallMsg(missed[count])];
        EnqueueLocked(c, CallMsg(missed[count]));
        count := count + 1;
      }
      assert calls[..count] == calls;
    }

    /** The replay of one client when nothing comes in between: the first 200 stored calls above the cursor, in order,
        then the sentinel. The count in the sentinel is the number of calls offered, whether or not the client was
        dropped on the way; a dropped client's queue holds the 256 messages that fitted. */
    method ReplayMissedCalls(c: HubClient, since: int, stored: set<int>, queriesWork: bool)
        returns (ghost todo: seq<int>)
      requires Valid()
      modifies this, c`send, c`closed
      ensures Valid()
      ensures if since > 0 && queriesWork then FirstAbove(stored, since, 200, todo) else todo == []
      ensures var msgs := CallMsgs(todo) + [ReplayComplete(since, |todo|)];
              if c !in old(clients) then clients == old(clients) && c.send == old(c.send)
              else if |old(c.send)| + |msgs| <= 256 then clients == old(clients) && c.send == old(c.send) + msgs
              else clients == old(clients) - {c} && c.closed && c.send == (old(c.send) + msgs)[..256]
    {
      hide ListCallsSince, FirstAbove, EnqueueAll, Enqueue;
      ReplayListIs(stored, since);
      ghost var before := View(c);
      var count := 0;
      var missed := [];
      if since > 0 && queriesWork {
        missed := ListCallsSince(stored, since);
        count := ReplayCalls(c, missed);
      } else {
        assert CallMsgs([]) == [];
        EnqueueOneMore(before, [], Heartbeat);
      }
      todo := missed;
      ghost var last := ReplayComplete(since, |todo|);
      EnqueueOneMore(before, CallMsgs(todo), last);
      EnqueueLocked(c, ReplayComplete(since, count));
      EnqueueAllIs(before, CallMsgs(todo) + [last]);
    }
  }
}
