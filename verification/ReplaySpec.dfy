/** One WebSocket client that registers, replays what it missed and receives live broadcasts, interleaved with any
    uploads, heartbeats and writes (server/internal/api/hub.go, server/internal/api/calls.go). */
module ReplaySpec {
  import opened Ordering

  const SEND_BUFFER: nat := 256
  const REPLAY_LIMIT: nat := 200

  datatype Msg = CallMsg(id: int) | Heartbeat | ReplayComplete(since: int, count: nat)

  /** A client as the hub sees it: in the clients map or not, and its send queue. */
  datatype Conn = Conn(registered: bool, queue: seq<Msg>)

  /** The non-blocking enqueue: a client whose queue is full is removed. */
  function Enqueue(c: Conn, msg: Msg): Conn {
    if !c.registered then c
    else if |c.queue| < SEND_BUFFER then c.(queue := c.queue + [msg])
    else c.(registered := false)
  }

  function EnqueueAll(c: Conn, msgs: seq<Msg>): Conn {
    if msgs == [] then c else Enqueue(EnqueueAll(c, msgs[..|msgs| - 1]), msgs[|msgs| - 1])
  }

  lemma EnqueueOneMore(c: Conn, msgs: seq<Msg>, msg: Msg)
    ensures EnqueueAll(c, []) == c
    ensures EnqueueAll(c, msgs + [msg]) == Enqueue(EnqueueAll(c, msgs), msg)
  {
    assert (msgs + [msg])[..|msgs|] == msgs;
  }

  /** What a client's queue holds after a list of messages: all of them, or the 256 that fit before it is removed. */
  lemma {:induction false} EnqueueAllIs(c: Conn, msgs: seq<Msg>)
    requires c.registered ==> |c.queue| <= 256
    ensures EnqueueAll(c, msgs) ==
            if !c.registered then c
            else if |c.queue| + |msgs| <= 256 then Conn(true, c.queue + msgs)
            else Conn(false, (c.queue + msgs)[..256])
  {
    if msgs == [] {
      assert c.queue + msgs == c.queue;
    } else {
      var n := |msgs| - 1;
      EnqueueAllIs(c, msgs[..n]);
      assert c.queue + msgs == c.queue + msgs[..n] + [msgs[n]];
      if |c.queue| + n > 256 {
        assert (c.queue + msgs)[..256] == (c.queue + msgs[..n])[..256];
      } else if |c.queue| + n == 256 {
        assert (c.queue + msgs)[..256] == c.queue + msgs[..n];
      }
    }
  }

  function AboveCursor(stored: set<int>, since: int): set<int> {
    set id | id in stored && id > since
  }

  /** ListCallsSince: the first `REPLAY_LIMIT` stored ids above the cursor, ascending. */
  function ListCallsSince(stored: set<int>, since: int): seq<int> {
    var ids := Ascending(AboveCursor(stored, since));
    if |ids| <= REPLAY_LIMIT then ids else ids[..REPLAY_LIMIT]
  }

  /** What a replay sends: nothing without a cursor, and nothing when a query fails. */
  function ReplayList(stored: set<int>, since: int, queriesWork: bool): seq<int> {
    if since > 0 && queriesWork then ListCallsSince(stored, since) else []
  }

  lemma ListCallsSinceIsPrefix(stored: set<int>, since: int)
    ensures var r := ListCallsSince(stored, since);
            && (forall i, j :: 0 <= i < j < |r| ==> r[i] < r[j])
            && (forall id :: id in r ==> id in AboveCursor(stored, since))
            && |r| <= REPLAY_LIMIT
            && (|AboveCursor(stored, since)| <= REPLAY_LIMIT ==>
                forall id :: id in AboveCursor(stored, since) ==> id in r)
            && (forall id, x :: id in AboveCursor(stored, since) && x in r && id < x ==> id in r)
  {
    var ids, r := Ascending(AboveCursor(stored, since)), ListCallsSince(stored, since);
    hide AboveCursor, Ascending;
    forall id, x | id in AboveCursor(stored, since) && x in r && id < x ensures id in r {
      var i :| 0 <= i < |ids| && ids[i] == id;
      var j :| 0 <= j < |r| && r[j] == x;
      assert i < j && r[i] == id;
    }
  }

  /** The replay list in full: the first 200 stored ids above the cursor, or all of them when there are fewer. */
  lemma ReplayListIs(stored: set<int>, since: int)
    ensures FirstAbove(stored, since, 200, ListCallsSince(stored, since))
    ensures var above := set id | id in stored && id > since;
            |ListCallsSince(stored, since)| == if |above| <= 200 then |above| else 200
  {
    TakeIsFirstAbove(stored, since, 200, Ascending(AboveCursor(stored, since)));
    assert AboveCursor(stored, since) == set id | id in stored && id > since;
  }

  /** Distinct: registered but nothing replayed yet, replaying, or the sentinel has been queued. `listed` is what was
      stored when the missed calls were listed, `todo` the listed calls, `sent` how many of them were queued. */
  datatype Phase = Absent | Fresh | Replaying(listed: set<int>, todo: seq<int>, sent: nat)
    | Done(listed: set<int>, todo: seq<int>)

  /** `stored`: committed calls. `announced`: calls whose broadcast has run. `live`: those announced while the client
      was registered. `delivered`: what the writer has put on the wire. `dropped`: the message whose write failed; after
      that the writer is gone, while the client stays registered until the read side returns. */
  datatype State = State(stored: set<int>, announced: set<int>, live: set<int>, since: int, phase: Phase,
                         conn: Conn, delivered: seq<Msg>, dropped: seq<Msg>)

  datatype Event =
    | Commit(id: int)
    | Announce(id: int)
    | Beat
    | Register
    | List(queriesWork: bool)
    | ReplayOne
    | Sentinel
    | Write
    | FailWrite
    | Disconnect

  function Start(stored: set<int>, announced: set<int>, since: int): State {
    State(stored, announced, {}, since, Absent, Conn(false, []), [], [])
  }

  /** Events that are not possible leave the state as it is. Each is one critical section or one statement. */
  function Next(s: State, e: Event): State {
    match e
    case Commit(id) => s.(stored := s.stored + {id})
    case Announce(id) =>
      if id !in s.stored || id in s.announced then s
      else
        var conn := Enqueue(s.conn, CallMsg(id));
        s.(announced := s.announced + {id}, conn := conn,
           live := if conn.registered then s.live + {id} else s.live)
    case Beat => s.(conn := Enqueue(s.conn, Heartbeat))
    case Register => if s.phase.Absent? then s.(phase := Fresh, conn := Conn(true, [])) else s
    case List(queriesWork) =>
      if s.phase.Fresh? then s.(phase := Replaying(s.stored, ReplayList(s.stored, s.since, queriesWork), 0)) else s
    case ReplayOne =>
      if s.phase.Replaying? && s.phase.sent < |s.phase.todo| then
        s.(phase := s.phase.(sent := s.phase.sent + 1), conn := Enqueue(s.conn, CallMsg(s.phase.todo[s.phase.sent])))
      else s
    case Sentinel =>
      if s.phase.Replaying? && s.phase.sent == |s.phase.todo| then
        s.(phase := Done(s.phase.listed, s.phase.todo),
           conn := Enqueue(s.conn, ReplayComplete(s.since, |s.phase.todo|)))
      else s
    case Write =>
      if s.dropped == [] && s.conn.queue != [] then
        s.(delivered := s.delivered + [s.conn.queue[0]], conn := s.conn.(queue := s.conn.queue[1..]))
      else s
    case FailWrite =>
      if s.dropped == [] && s.conn.queue != [] then
        s.(dropped := [s.conn.queue[0]], conn := s.conn.(queue := s.conn.queue[1..]))
      else s
    case Disconnect => s.(conn := s.conn.(registered := false))
  }

  function Run(s: State, events: seq<Event>): State {
    if events == [] then s else Next(Run(s, events[..|events| - 1]), events[|events| - 1])
  }

  /** Everything queued for the client: what it has received, the message a failed write dropped, and what waits. */
  function Stream(s: State): seq<Msg> {
    s.delivered + s.dropped + s.conn.queue
  }

  function CallMsgs(ids: seq<int>): (msgs: seq<Msg>)
    ensures |msgs| == |ids| && forall i :: 0 <= i < |ids| ==> msgs[i] == CallMsg(ids[i])
  {
    seq(|ids|, i requires 0 <= i < |ids| => CallMsg(ids[i]))
  }

  /** What the client has received or is still going to receive: nothing more once a write has failed. */
  function Receives(s: State): seq<Msg> {
    if s.dropped == [] then s.delivered + s.conn.queue else s.delivered
  }

  /** The calls replayed so far. */
  function Replayed(p: Phase): seq<int> {
    match p
    case Replaying(_, todo, sent) => if sent <= |todo| then todo[..sent] else todo
    case Done(_, todo) => todo
    case _ => []
  }

  function Once(b: bool): nat {
    if b then 1 else 0
  }

  // ---------- the invariant, one conjunct per concern

  ghost predicate Tables(s: State) {
    s.announced <= s.stored && s.live <= s.announced
  }

  ghost predicate PhaseOk(s: State) {
    && (s.phase.Replaying? ==> s.phase.sent <= |s.phase.todo|)
    && |s.dropped| <= 1
    && (s.phase.Absent? ==> Stream(s) == [] && s.live == {} && !s.conn.registered)
    && (s.phase.Replaying? || s.phase.Done? ==>
          && s.phase.listed <= s.stored
          && (s.phase.todo == ListCallsSince(s.phase.listed, s.since) || s.phase.todo == []))
  }

  /** A call is in the stream once for its live broadcast and once for its replay. */
  ghost predicate Counts(s: State) {
    forall id :: var n := Once(id in s.live) + Once(id in Replayed(s.phase));
                 multiset(Stream(s))[CallMsg(id)] <= n
                 && (s.conn.registered ==> multiset(Stream(s))[CallMsg(id)] == n)
  }

  /** While registered, a call announced before registration was stored before the missed calls were listed. */
  ghost predicate NothingBetween(s: State) {
    s.conn.registered && (s.phase.Replaying? || s.phase.Done?) ==>
      forall id :: id in s.announced && id !in s.live ==> id in s.phase.listed
  }

  /** The sentinel is queued once, last of the replay, with the number of replayed calls. */
  ghost predicate SentinelLast(s: State) {
    forall k :: 0 <= k < |Stream(s)| && Stream(s)[k].ReplayComplete? ==>
      && s.phase.Done?
      && Stream(s)[k] == ReplayComplete(s.since, |s.phase.todo|)
      && forall id :: id in s.phase.todo ==> CallMsg(id) in Stream(s)[..k]
  }

  ghost predicate Inv(s: State) {
    Tables(s) && PhaseOk(s) && Counts(s) && NothingBetween(s) && SentinelLast(s)
  }

  // ---------- preservation

  /** What an enqueue does to the stream. */
  lemma EnqueueStream(s: State, msg: Msg)
    ensures var t := s.(conn := Enqueue(s.conn, msg));
            Stream(t) == (if s.conn.registered && |s.conn.queue| < SEND_BUFFER then Stream(s) + [msg] else Stream(s))
            && (t.conn.registered <==> s.conn.registered && |s.conn.queue| < SEND_BUFFER)
  {
  }

  /** Counting one more message, or none. */
  lemma CountAppend(a: seq<Msg>, msg: Msg, id: int)
    ensures multiset(a + [msg])[CallMsg(id)] == multiset(a)[CallMsg(id)] + Once(msg == CallMsg(id))
  {
    assert multiset(a + [msg]) == multiset(a) + multiset{msg};
  }

  /** An enqueue keeps the counts when it is the one new reason for a call to be in the stream. */
  lemma AppendKeepsCounts(before: State, after: State, msg: Msg)
    requires Counts(before) && (after.conn.registered ==> before.conn.registered)
    requires Stream(after) == Stream(before) || Stream(after) == Stream(before) + [msg]
    requires after.conn.registered ==> Stream(after) == Stream(before) + [msg]
    requires forall id :: Once(id in after.live) + Once(id in Replayed(after.phase)) >=
                          Once(id in before.live) + Once(id in Replayed(before.phase))
                          + Once(msg == CallMsg(id) && Stream(after) != Stream(before))
    requires after.conn.registered ==>
               forall id :: Once(id in after.live) + Once(id in Replayed(after.phase)) ==
                            Once(id in before.live) + Once(id in Replayed(before.phase)) + Once(msg == CallMsg(id))
    ensures Counts(after)
  {
    hide Stream, Replayed;
    forall id ensures multiset(Stream(after))[CallMsg(id)] <= Once(id in after.live) + Once(id in Replayed(after.phase))
      ensures after.conn.registered ==>
                multiset(Stream(after))[CallMsg(id)] == Once(id in after.live) + Once(id in Replayed(after.phase))
    {
      CountAppend(Stream(before), msg, id);
    }
  }

  lemma AppendKeepsSentinel(before: State, after: State, msg: Msg)
    requires SentinelLast(before) && before.since == after.since
    requires before.phase.Done? ==> after.phase == before.phase
    requires Stream(after) == Stream(before) || Stream(after) == Stream(before) + [msg]
    requires msg.ReplayComplete? && Stream(after) != Stream(before) ==>
               && after.phase.Done? && msg == ReplayComplete(after.since, |after.phase.todo|)
               && forall id :: id in after.phase.todo ==> CallMsg(id) in Stream(before)
    ensures SentinelLast(after)
  {
    forall k | 0 <= k < |Stream(after)| && Stream(after)[k].ReplayComplete?
      ensures && after.phase.Done?
              && Stream(after)[k] == ReplayComplete(after.since, |after.phase.todo|)
              && forall id :: id in after.phase.todo ==> CallMsg(id) in Stream(after)[..k]
    {
      if k < |Stream(before)| {
        assert Stream(before)[k].ReplayComplete?;
        assert Stream(after)[..k] == Stream(before)[..k];
      } else {
        assert Stream(after)[..k] == Stream(before);
      }
    }
  }

  lemma AnnounceStep(s: State, id: int)
    requires Inv(s) && id in s.stored && id !in s.announced
    ensures var t := Next(s, Announce(id));
            && Tables(t) && PhaseOk(t) && NothingBetween(t)
            && (Stream(t) == Stream(s) || Stream(t) == Stream(s) + [CallMsg(id)])
            && (t.conn.registered ==> s.conn.registered && Stream(t) == Stream(s) + [CallMsg(id)] && id in t.live)
            && (Stream(t) != Stream(s) ==> t.conn.registered)
            && t.phase == s.phase && t.since == s.since
            && t.live == (if t.conn.registered then s.live + {id} else s.live)
  {
    hide Counts, SentinelLast, ListCallsSince;
    EnqueueStream(s, CallMsg(id));
    assert Stream(Next(s, Announce(id))) == Stream(s.(conn := Next(s, Announce(id)).conn));
  }

  lemma AnnounceKeeps(s: State, id: int)
    requires Inv(s)
    ensures Inv(Next(s, Announce(id)))
  {
    var t := Next(s, Announce(id));
    if t != s {
      AnnounceStep(s, id);
      assert id !in s.live;
      hide Next, Stream, Counts, SentinelLast, PhaseOk, NothingBetween, Replayed;
      AppendKeepsSentinel(s, t, CallMsg(id));
      AppendKeepsCounts(s, t, CallMsg(id));
    }
  }

  lemma BeatKeeps(s: State)
    requires Inv(s)
    ensures Inv(Next(s, Beat))
  {
    hide SentinelLast, ListCallsSince;
    var t := Next(s, Beat);
    EnqueueStream(s, Heartbeat);
    AppendKeepsSentinel(s, t, Heartbeat);
    assert multiset(Stream(s) + [Heartbeat]) == multiset(Stream(s)) + multiset{Heartbeat};
  }

  lemma RegisterKeeps(s: State)
    requires Inv(s)
    ensures Inv(Next(s, Register))
  {
    hide ListCallsSince;
    assert s.phase.Absent? ==> Stream(Next(s, Register)) == [];
  }

  lemma ListKeeps(s: State, queriesWork: bool)
    requires Inv(s)
    ensures Inv(Next(s, List(queriesWork)))
  {
    hide ListCallsSince;
    var t := Next(s, List(queriesWork));
    assert Stream(t) == Stream(s);
    if s.phase.Fresh? {
      assert Replayed(t.phase) == [];
    }
  }

  lemma ReplayOneKeeps(s: State)
    requires Inv(s)
    ensures Inv(Next(s, ReplayOne))
  {
    hide SentinelLast, ListCallsSince;
    var t := Next(s, ReplayOne);
    if t != s {
      var id := s.phase.todo[s.phase.sent];
      ListCallsSinceIsPrefix(s.phase.listed, s.since);
      assert t.phase.todo[..t.phase.sent] == s.phase.todo[..s.phase.sent] + [id];
      EnqueueStream(s, CallMsg(id));
      assert Stream(t) == Stream(s.(conn := t.conn));
      assert id !in Replayed(s.phase);
      assert Replayed(t.phase) == Replayed(s.phase) + [id];
      assert NothingBetween(t);
      hide Stream, Counts, Enqueue, Replayed, NothingBetween;
      AppendKeepsSentinel(s, t, CallMsg(id));
      AppendKeepsCounts(s, t, CallMsg(id));
    }
  }

  lemma SentinelKeeps(s: State)
    requires Inv(s)
    ensures Inv(Next(s, Sentinel))
  {
    hide SentinelLast, ListCallsSince;
    var t := Next(s, Sentinel);
    if t != s {
      var msg := ReplayComplete(s.since, |s.phase.todo|);
      EnqueueStream(s, msg);
      assert Stream(t) == Stream(s.(conn := t.conn));
      assert s.phase.todo[..s.phase.sent] == s.phase.todo;
      if s.conn.registered {
        forall id | id in s.phase.todo ensures CallMsg(id) in Stream(s) {
          assert multiset(Stream(s))[CallMsg(id)] >= 1;
        }
      }
      AppendKeepsSentinel(s, t, msg);
      assert multiset(Stream(s) + [msg]) == multiset(Stream(s)) + multiset{msg};
    }
  }

  /** A write, failing or not, moves the front of the queue and keeps everything queued so far in order. */
  lemma WriteMoves(s: State, e: Event)
    requires e.Write? || e.FailWrite?
    ensures var t := Next(s, e);
            && Stream(t) == Stream(s) && t.conn.registered == s.conn.registered && t.phase == s.phase
            && t == s.(conn := t.conn, delivered := t.delivered, dropped := t.dropped)
            && (|s.dropped| <= 1 ==> |t.dropped| <= 1)
  {
    if s.conn.queue != [] {
      assert s.conn.queue == [s.conn.queue[0]] + s.conn.queue[1..];
    }
  }

  lemma WriteKeeps(s: State, e: Event)
    requires Inv(s) && (e.Write? || e.FailWrite?)
    ensures Inv(Next(s, e))
  {
    WriteMoves(s, e);
    hide Next, Stream, Replayed, ListCallsSince;
  }

  lemma NextKeeps(s: State, e: Event)
    requires Inv(s)
    ensures Inv(Next(s, e))
  {
    match e
    case Commit(id) =>
      assert Stream(Next(s, e)) == Stream(s);
    case Disconnect =>
      assert Stream(Next(s, e)) == Stream(s);
    case Announce(id) => AnnounceKeeps(s, id);
    case Beat => BeatKeeps(s);
    case Register => RegisterKeeps(s);
    case List(queriesWork) => ListKeeps(s, queriesWork);
    case ReplayOne => ReplayOneKeeps(s);
    case Sentinel => SentinelKeeps(s);
    case Write => WriteKeeps(s, e);
    case FailWrite => WriteKeeps(s, e);
  }

  lemma {:induction false} RunKeeps(s: State, events: seq<Event>)
    requires Inv(s)
    ensures Inv(Run(s, events))
  {
    hide Next, Inv;
    if events != [] {
      RunKeeps(s, events[..|events| - 1]);
      NextKeeps(Run(s, events[..|events| - 1]), events[|events| - 1]);
    }
  }

  // ---------- what a client receives

  /** Exactly what a still registered client has, once its replay is done: each call once for a broadcast that ran
      while it was registered and once if it was replayed. */
  lemma ClientReceives(stored: set<int>, announced: set<int>, since: int, events: seq<Event>, id: int)
    requires announced <= stored
    ensures var s := Run(Start(stored, announced, since), events);
            && multiset(Stream(s))[CallMsg(id)] <= 2
            && (s.phase.Done? && s.conn.registered ==>
                  multiset(Stream(s))[CallMsg(id)] == Once(id in s.live) + Once(id in s.phase.todo))
  {
    hide Run, ListCallsSince;
    assert Inv(Start(stored, announced, since));
    RunKeeps(Start(stored, announced, since), events);
  }

  /** With a cursor and working queries, what is replayed in any run are the first 200 calls above the cursor of those
      stored when they were listed. */
  lemma {:induction false} ReplaysTheFirst200(stored: set<int>, announced: set<int>, since: int, events: seq<Event>)
    requires since > 0 && List(false) !in events
    ensures var s := Run(Start(stored, announced, since), events);
            s.phase.Replaying? || s.phase.Done? ==> FirstAbove(s.phase.listed, since, 200, s.phase.todo)
  {
    hide ListCallsSince, FirstAbove, Enqueue;
    if events != [] {
      var before, e := events[..|events| - 1], events[|events| - 1];
      assert e in events && forall x :: x in before ==> x in events;
      ReplaysTheFirst200(stored, announced, since, before);
      RunKeepsCursor(Start(stored, announced, since), before);
      var s := Run(Start(stored, announced, since), before);
      if e.List? && s.phase.Fresh? {
        assert e.queriesWork;
        ReplayListIs(s.stored, since);
      }
    }
  }

  /** Without a cursor, and when the queries fail, no run replays a call. */
  lemma {:induction false} NoReplay(stored: set<int>, announced: set<int>, since: int, events: seq<Event>)
    requires since <= 0 || List(true) !in events
    ensures var s := Run(Start(stored, announced, since), events);
            s.phase.Replaying? || s.phase.Done? ==> s.phase.todo == []
  {
    hide ListCallsSince, Enqueue;
    if events != [] {
      var before, e := events[..|events| - 1], events[|events| - 1];
      assert e in events && forall x :: x in before ==> x in events;
      NoReplay(stored, announced, since, before);
      RunKeepsCursor(Start(stored, announced, since), before);
    }
  }

  /** No traffic is lost: with a cursor, at most 200 calls stored above it and working queries, a client that is still
      registered after its replay has every call above the cursor whose broadcast has run, at most twice; it receives
      them all unless a write fails. */
  lemma NothingIsLost(stored: set<int>, announced: set<int>, since: int, events: seq<Event>, id: int)
    requires announced <= stored && since > 0 && List(false) !in events
    ensures var s := Run(Start(stored, announced, since), events);
            s.phase.Done? && s.conn.registered && |set y | y in s.phase.listed && y > since| <= 200
            && id in s.announced && id > since
            ==> 1 <= multiset(Stream(s))[CallMsg(id)] <= 2 && (s.dropped == [] ==> CallMsg(id) in Receives(s))
  {
    var s := Run(Start(stored, announced, since), events);
    MissedExactly(stored, announced, since, events, id);
    ClientReceives(stored, announced, since, events, id);
    hide Run;
    if s.phase.Done? && id in s.phase.listed && id > since {
      FewerBefore(s.phase.listed, since, id);
    }
    assert CallMsg(id) in Stream(s) <==> multiset(Stream(s))[CallMsg(id)] > 0;
    hide Stream;
  }

  lemma FewerBefore(listed: set<int>, since: int, id: int)
    requires id in listed && id > since
    ensures |set y | y in listed && since < y < id| < |set y | y in listed && y > since|
  {
    var earlier, above := set y | y in listed && since < y < id, set y | y in listed && y > since;
    assert earlier <= above - {id} && id in above;
    SubsetSize(earlier, above - {id});
  }

  /** Exactly which announced calls above the cursor a still registered client misses, when the queries work: those
      whose broadcast ran before it registered, with 200 or more stored calls between the cursor and them. */
  lemma MissedExactly(stored: set<int>, announced: set<int>, since: int, events: seq<Event>, id: int)
    requires announced <= stored && since > 0 && List(false) !in events
    ensures var s := Run(Start(stored, announced, since), events);
            s.phase.Done? && s.conn.registered && id in s.announced && id > since ==>
              && (CallMsg(id) !in Stream(s) <==>
                  id !in s.live && |set y | y in s.phase.listed && since < y < id| >= 200)
              && (id !in s.live ==> id in s.phase.listed)
  {
    hide Run, ListCallsSince;
    assert Inv(Start(stored, announced, since));
    var s := Run(Start(stored, announced, since), events);
    RunKeeps(Start(stored, announced, since), events);
    ClientReceives(stored, announced, since, events, id);
    ReplaysTheFirst200(stored, announced, since, events);
    assert CallMsg(id) in Stream(s) <==> multiset(Stream(s))[CallMsg(id)] > 0;
    if s.phase.Done? && s.conn.registered && id in s.announced && id > since && id !in s.live {
      LeftOutIff(s.phase.listed, since, 200, s.phase.todo, id);
    }
  }

  /** Once a write has failed, nothing more arrives, although the client can stay registered and go on being sent to. */
  lemma {:induction false} FailedWriteEndsDelivery(s: State, events: seq<Event>)
    requires s.dropped != []
    ensures Receives(Run(s, events)) == Receives(s)
  {
    hide ReplayList, Enqueue;
    if events != [] {
      FailedWriteEndsDelivery(s, events[..|events| - 1]);
      StaysFailed(s, events[..|events| - 1]);
    }
  }

  lemma {:induction false} StaysFailed(s: State, events: seq<Event>)
    requires s.dropped != []
    ensures Run(s, events).dropped == s.dropped
  {
    hide ReplayList, Enqueue;
    if events != [] {
      StaysFailed(s, events[..|events| - 1]);
    }
  }

  /** The first failed write loses its message and everything after it. */
  lemma FailedWriteLosesTheRest(s: State, events: seq<Event>)
    requires s.dropped == [] && s.conn.queue != []
    ensures Receives(Run(Next(s, FailWrite), events)) == s.delivered
  {
    FailedWriteEndsDelivery(Next(s, FailWrite), events);
    hide Run;
  }

  /** As long as no write fails, what waits in the queue arrives in order. */
  lemma {:induction false} WritesDeliver(s: State, n: nat)
    requires s.dropped == [] && n <= |s.conn.queue|
    ensures var t := Run(s, seq(n, _ => Write));
            t.delivered == s.delivered + s.conn.queue[..n] && t.conn.queue == s.conn.queue[n..] && t.dropped == []
  {
    if n > 0 {
      var writes := seq(n, _ => Write);
      assert writes[..n - 1] == seq(n - 1, _ => Write) && writes[n - 1] == Write;
      WritesDeliver(s, n - 1);
    }
  }

  /** After a disconnect nothing more is queued, whatever is announced, replayed or sent. */
  lemma {:induction false} NothingQueuedAfterDisconnect(s: State, events: seq<Event>)
    requires !s.phase.Absent?
    ensures var t := Run(Next(s, Disconnect), events);
            Stream(t) == Stream(s) && !t.conn.registered && !t.phase.Absent?
  {
    hide ReplayList;
    if events != [] {
      NothingQueuedAfterDisconnect(s, events[..|events| - 1]);
    }
  }

  /** A heartbeat reaches a registered client with room, and drops one without. */
  lemma HeartbeatReaches(s: State)
    requires s.conn.registered
    ensures if |s.conn.queue| < 256
            then Stream(Next(s, Beat)) == Stream(s) + [Heartbeat] && Next(s, Beat).conn.registered
            else Stream(Next(s, Beat)) == Stream(s) && !Next(s, Beat).conn.registered
  {
  }

  /** Exactly the committed calls are stored, and they are announced only when stored. */
  lemma {:induction false} CommittedAreStored(s: State, events: seq<Event>, id: int)
    ensures id in Run(s, events).stored <==> id in s.stored || Commit(id) in events
    ensures id in Run(s, events).announced ==>
              id in s.announced || (id in Run(s, events).stored && Announce(id) in events)
  {
    hide ReplayList, Enqueue;
    if events != [] {
      var before, e := events[..|events| - 1], events[|events| - 1];
      assert forall x :: x in events <==> x in before || x == e;
      CommittedAreStored(s, before, id);
    }
  }

  // ---------- a client that misses calls

  /** Register, list, replay `n` calls. */
  function ReplayRun(n: nat): seq<Event> {
    if n == 0 then [Register, List(true)] else ReplayRun(n - 1) + [ReplayOne]
  }

  ghost predicate ReplayReached(s: State, start: State, n: nat) {
    var todo := ListCallsSince(start.stored, start.since);
    && n <= |todo| && s.phase == Replaying(start.stored, todo, n)
    && s.conn == Conn(true, CallMsgs(todo[..n])) && s.delivered == [] && s.dropped == []
    && s.stored == start.stored && s.announced == start.announced && s.live == {} && s.since == start.since
  }

  lemma ReplayStarts(stored: set<int>, announced: set<int>, since: int)
    requires since > 0
    ensures var start := Start(stored, announced, since);
            ReplayReached(Run(start, [Register, List(true)]), start, 0)
  {
    hide ListCallsSince;
    var start := Start(stored, announced, since);
    assert [Register, List(true)][..1] == [Register] && [Register][..0] == [];
    assert Run(start, [Register]) == Next(start, Register);
    assert Run(start, [Register, List(true)]) == Next(Next(start, Register), List(true));
    assert CallMsgs([]) == [];
  }

  lemma ReplayOneReaches(s: State, start: State, n: nat)
    requires ReplayReached(s, start, n) && n < |ListCallsSince(start.stored, start.since)| && n < SEND_BUFFER
    ensures ReplayReached(Next(s, ReplayOne), start, n + 1)
  {
    hide ListCallsSince;
    var todo := ListCallsSince(start.stored, start.since);
    assert CallMsgs(todo[..n + 1]) == CallMsgs(todo[..n]) + [CallMsg(todo[n])];
  }

  lemma {:induction false} ReplayRunReaches(stored: set<int>, announced: set<int>, since: int, n: nat)
    requires since > 0 && n <= |ListCallsSince(stored, since)| <= REPLAY_LIMIT
    ensures ReplayReached(Run(Start(stored, announced, since), ReplayRun(n)), Start(stored, announced, since), n)
  {
    hide ListCallsSince, Next, ReplayReached;
    if n == 0 {
      ReplayStarts(stored, announced, since);
    } else {
      var start, events := Start(stored, announced, since), ReplayRun(n);
      ReplayRunReaches(stored, announced, since, n - 1);
      assert events[..|events| - 1] == ReplayRun(n - 1);
      hide ReplayRun;
      ReplayOneReaches(Run(start, events[..|events| - 1]), start, n - 1);
    }
  }

  lemma SentinelReached(s: State, start: State)
    requires ReplayReached(s, start, |ListCallsSince(start.stored, start.since)|)
    requires |ListCallsSince(start.stored, start.since)| <= REPLAY_LIMIT
    ensures var t, todo := Next(s, Sentinel), ListCallsSince(start.stored, start.since);
            && t.phase == Done(start.stored, todo) && t.conn.registered && t.live == {}
            && t.announced == start.announced && t.dropped == []
            && Stream(t) == CallMsgs(todo) + [ReplayComplete(start.since, |todo|)]
  {
    hide ListCallsSince;
    var todo := ListCallsSince(start.stored, start.since);
    assert todo[..|todo|] == todo;
  }

  lemma {:induction false} ReplayRunQueries(n: nat)
    ensures List(false) !in ReplayRun(n)
  {
    if n > 0 {
      ReplayRunQueries(n - 1);
    }
  }

  /** Such a run is possible from any tables: an undisturbed client gets the first 200 calls above its cursor in order
      and then the sentinel with their number, and of the calls announced before it misses exactly those above the
      cursor with 200 or more stored calls in between. */
  lemma UndisturbedReplay(stored: set<int>, announced: set<int>, since: int)
    returns (events: seq<Event>, todo: seq<int>)
    requires announced <= stored && since > 0
    ensures FirstAbove(stored, since, 200, todo)
    ensures var s := Run(Start(stored, announced, since), events);
            && s.phase.Done? && s.conn.registered && s.announced == announced
            && Stream(s) == CallMsgs(todo) + [ReplayComplete(since, |todo|)]
            && forall id :: id in announced && id > since ==>
                 (CallMsg(id) !in Stream(s) <==> |set y | y in stored && since < y < id| >= 200)
  {
    todo := ListCallsSince(stored, since);
    ReplayListIs(stored, since);
    hide ListCallsSince;
    var start := Start(stored, announced, since);
    events := ReplayRun(|todo|) + [Sentinel];
    ReplayRunReaches(stored, announced, since, |todo|);
    ReplayRunQueries(|todo|);
    assert events[..|events| - 1] == ReplayRun(|todo|);
    SentinelReached(Run(start, ReplayRun(|todo|)), start);
    var s := Run(start, events);
    assert s == Next(Run(start, ReplayRun(|todo|)), Sentinel);
    hide Run, Next, Stream;
    forall id | id in announced && id > since
      ensures CallMsg(id) !in Stream(s) <==> |set y | y in stored && since < y < id| >= 200
    {
      MissedExactly(stored, announced, since, events, id);
    }
  }

  /** The failing input: with more than 200 calls above the cursor, all of them announced, some run misses one. */
  lemma MoreThanTheLimitIsMissed(stored: set<int>, since: int) returns (events: seq<Event>, id: int)
    requires since > 0 && |set y | y in stored && y > since| > 200
    ensures var s := Run(Start(stored, stored, since), events);
            && s.phase.Done? && s.conn.registered
            && id in s.announced && id > since && CallMsg(id) !in Stream(s)
  {
    var todo;
    events, todo := UndisturbedReplay(stored, stored, since);
    hide Run, Stream, FirstAbove;
    id := SomeLeftOut(stored, since, todo);
  }

  lemma SomeLeftOut(stored: set<int>, since: int, todo: seq<int>) returns (id: int)
    requires FirstAbove(stored, since, 200, todo) && |set y | y in stored && y > since| > 200
    ensures id in stored && id > since && |set y | y in stored && since < y < id| >= 200
  {
    var above := set y | y in stored && y > since;
    DistinctSize(todo);
    if above - Elements(todo) == {} {
      forall x | x in above ensures x in Elements(todo) {
        assert x !in above - Elements(todo);
      }
      SubsetSize(above, Elements(todo));
      assert false;
    }
    id := Member(above - Elements(todo));
    LeftOutIff(stored, since, 200, todo, id);
  }

  /** The ids 1, ..., n. */
  function FirstIds(n: nat): (s: set<int>)
    ensures |s| == n && forall id :: id in s <==> 1 <= id <= n
  {
    if n == 0 then {} else FirstIds(n - 1) + {n}
  }

  function From(first: int, n: nat): (r: seq<int>)
    ensures |r| == n && forall i :: 0 <= i < n ==> r[i] == first + i
  {
    seq(n, i requires 0 <= i < n => first + i)
  }

  /** Of consecutive ids, the first 200 above the cursor are the next 200. */
  lemma FirstOfConsecutive(n: nat, since: nat, r: seq<int>)
    requires FirstAbove(FirstIds(n), since, 200, r) && since + 200 <= n
    ensures r == From(since + 1, 200)
  {
    hide FirstIds;
    var expected := From(since + 1, 200);
    forall x | since < x <= since + 200 ensures x in expected {
      assert expected[x - since - 1] == x;
    }
    assert FirstAbove(FirstIds(n), since, 200, expected);
    SameFirst(FirstIds(n), since, 200, r, expected);
  }

  lemma FirstAboveCommon(all: set<int>, since: int, limit: nat, a: seq<int>, b: seq<int>, x: int)
    requires FirstAbove(all, since, limit, a) && FirstAbove(all, since, limit, b) && x in a
    ensures x in b
  {
    if x !in b {
      DistinctSize(a);
      DistinctSize(b);
      forall y | y in b ensures y in a {
      }
      assert Elements(b) <= Elements(a) - {x} && x in Elements(a);
      SubsetSize(Elements(b), Elements(a) - {x});
      assert false;
    }
  }

  /** There is only one list of the first `limit` ids above a cursor. */
  lemma {:induction false} SameFirst(all: set<int>, since: int, limit: nat, a: seq<int>, b: seq<int>)
    requires FirstAbove(all, since, limit, a) && FirstAbove(all, since, limit, b)
    ensures a == b
  {
    forall x ensures x in a <==> x in b {
      if x in a {
        FirstAboveCommon(all, since, limit, a, b, x);
      }
      if x in b {
        FirstAboveCommon(all, since, limit, b, a, x);
      }
    }
    AscendingIsUnique(a, b);
  }

  /** For instance, with 202 announced calls and the cursor 1 an undisturbed client gets exactly the calls 2 to 201 and
      a sentinel that counts 200, and misses call 202. */
  lemma ClientMissesACall() returns (events: seq<Event>)
    ensures var s := Run(Start(FirstIds(202), FirstIds(202), 1), events);
            && s.phase.Done? && s.conn.registered && 202 in s.announced
            && Stream(s) == CallMsgs(From(2, 200)) + [ReplayComplete(1, 200)]
            && CallMsg(202) !in Stream(s)
  {
    hide Run, FirstIds;
    var todo;
    events, todo := UndisturbedReplay(FirstIds(202), FirstIds(202), 1);
    FirstOfConsecutive(202, 1, todo);
  }

  /** A client that has received the sentinel has received every replayed call before it. */
  lemma SentinelMeansReplayed(stored: set<int>, announced: set<int>, since: int, events: seq<Event>, k: nat)
    requires announced <= stored
    requires var s := Run(Start(stored, announced, since), events);
             k < |s.delivered| && s.delivered[k].ReplayComplete?
    ensures var s := Run(Start(stored, announced, since), events);
            && s.phase.Done? && s.delivered[k] == ReplayComplete(s.since, |s.phase.todo|)
            && forall id :: id in s.phase.todo ==> CallMsg(id) in s.delivered[..k]
  {
    hide Run, ListCallsSince;
    assert Inv(Start(stored, announced, since));
    var s := Run(Start(stored, announced, since), events);
    RunKeeps(Start(stored, announced, since), events);
    assert Stream(s)[k] == s.delivered[k] && Stream(s)[..k] == s.delivered[..k];
  }

  lemma {:induction false} RunKeepsCursor(s: State, events: seq<Event>)
    ensures Run(s, events).since == s.since
  {
    if events != [] {
      RunKeepsCursor(s, events[..|events| - 1]);
    }
  }
}
