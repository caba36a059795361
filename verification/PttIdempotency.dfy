/** Concurrent push-to-talk requests: check the key, insert the call, record the key, recover on a conflict, publish
    (server/internal/api/ptt.go, server/internal/database/ptt.go). */
module PttIdempotency {

  /** The single upload and the per-set delivery of a broadcast differ only in how they recover. */
  datatype Handler = Upload | Dispatch

  /** What a request does next. */
  datatype Pc =
    | Check
    | Insert
    | Record(callId: int)
    | Recheck(callId: int)
    | Publish(callId: int)
    | Responded(callId: int)
    | Refused

  /** `own` is the call the request has stored, 0 before that. */
  datatype Request = Request(key: string, handler: Handler, pc: Pc, own: int)

  datatype Broadcast = Broadcast(request: nat, key: string, callId: int)

  /** `uploads` is the ptt_uploads table, keyed by client id. `writers` remembers which request wrote each row, `strays`
      which requests went on to publish a call that is not in the table. */
  datatype State = State(requests: seq<Request>, nextCallId: int, calls: set<int>, uploads: map<string, int>,
                         writers: map<string, nat>, strays: set<nat>, broadcasts: seq<Broadcast>)

  /** A request arrives; request i takes its next step; request i is turned away before it stores anything. The last
      three are database errors: the row is not written; the row is written but the answer is lost; the lookup after a
      failed record fails too. */
  datatype Event =
    | Arrive(key: string, handler: Handler)
    | Step(i: nat)
    | Refuse(i: nat)
    | FailRecord(i: nat)
    | LoseAnswer(i: nat)
    | FailLookup(i: nat)

  const START: State := State([], 1, {}, map[], map[], {}, [])

  function SetPc(s: State, i: nat, pc: Pc): State
    requires i < |s.requests|
  {
    s.(requests := s.requests[i := s.requests[i].(pc := pc)])
  }

  /** Request i wrote the row of its key. */
  predicate Writer(s: State, i: nat)
    requires i < |s.requests|
  {
    s.requests[i].key in s.writers && s.writers[s.requests[i].key] == i
  }

  function StoreCall(s: State, i: nat): State
    requires i < |s.requests|
  {
    s.(calls := s.calls + {s.nextCallId}, nextCallId := s.nextCallId + 1,
       requests := s.requests[i := s.requests[i].(pc := Record(s.nextCallId), own := s.nextCallId)])
  }

  function WriteRow(s: State, i: nat, id: int, pc: Pc): State
    requires i < |s.requests|
  {
    var key := s.requests[i].key;
    SetPc(s.(uploads := s.uploads[key := id], writers := s.writers[key := i]), i, pc)
  }

  /** The handler goes on with its own call. */
  function GoOn(s: State, i: nat, id: int): State
    requires i < |s.requests|
  {
    SetPc(if Writer(s, i) then s else s.(strays := s.strays + {i}), i, Publish(id))
  }

  function Announce(s: State, i: nat, id: int): State
    requires i < |s.requests|
  {
    SetPc(s.(broadcasts := s.broadcasts + [Broadcast(i, s.requests[i].key, id)]), i, Responded(id))
  }

  /** Whether the lookup after a failed record answers the request. */
  predicate Recovers(s: State, r: Request, id: int) {
    var existing := if r.key in s.uploads then s.uploads[r.key] else 0;
    match r.handler
    case Upload => existing != 0 && existing != id
    case Dispatch => r.key in s.uploads && existing != id
  }

  /** One statement of request i. The table's primary key turns a second record of a key into an error. */
  function StepOf(s: State, i: nat): State
    requires i < |s.requests|
  {
    var r := s.requests[i];
    match r.pc
    case Check => SetPc(s, i, if r.key in s.uploads then Responded(s.uploads[r.key]) else Insert)
    case Insert => StoreCall(s, i)
    case Record(id) => if r.key in s.uploads then SetPc(s, i, Recheck(id)) else WriteRow(s, i, id, Publish(id))
    case Recheck(id) =>
      if r.key in s.uploads && Recovers(s, r, id) then SetPc(s, i, Responded(s.uploads[r.key])) else GoOn(s, i, id)
    case Publish(id) => Announce(s, i, id)
    case Responded(_) => s
    case Refused => s
  }

  /** An event that is not possible leaves the state as it is. */
  function Next(s: State, e: Event): State {
    match e
    case Arrive(key, handler) => s.(requests := s.requests + [Request(key, handler, Check, 0)])
    case Step(i) => if i < |s.requests| then StepOf(s, i) else s
    case Refuse(i) =>
      if i < |s.requests| && (s.requests[i].pc.Check? || s.requests[i].pc.Insert?) then SetPc(s, i, Refused) else s
    case FailRecord(i) =>
      if i < |s.requests| && s.requests[i].pc.Record? then SetPc(s, i, Recheck(s.requests[i].pc.callId)) else s
    case LoseAnswer(i) =>
      if i < |s.requests| && s.requests[i].pc.Record? && s.requests[i].key !in s.uploads then
        WriteRow(s, i, s.requests[i].pc.callId, Recheck(s.requests[i].pc.callId))
      else s
    case FailLookup(i) =>
      if i < |s.requests| && s.requests[i].pc.Recheck? then GoOn(s, i, s.requests[i].pc.callId) else s
  }

  function Run(events: seq<Event>): State {
    if events == [] then START else Next(Run(events[..|events| - 1]), events[|events| - 1])
  }

  // ---------- the invariant

  /** What request i knows at its program counter. */
  ghost predicate RequestOk(s: State, i: nat)
    requires i < |s.requests|
  {
    var r := s.requests[i];
    match r.pc
    case Check => r.own == 0 && i !in s.strays
    case Insert => r.own == 0 && i !in s.strays
    case Refused => r.own == 0 && i !in s.strays
    case Record(id) => r.own == id != 0 && i !in s.strays && !Writer(s, i)
    case Recheck(id) => r.own == id != 0 && i !in s.strays
    case Publish(id) => r.own == id != 0 && (i in s.strays <==> !Writer(s, i))
    case Responded(id) =>
      if i in s.strays then r.own == id != 0 && !Writer(s, i) && Broadcast(i, r.key, id) in s.broadcasts
      else r.key in s.uploads && s.uploads[r.key] == id
  }

  ghost predicate RequestsOk(s: State) {
    forall i :: 0 <= i < |s.requests| ==> RequestOk(s, i)
  }

  /** A stored call belongs to one request. */
  ghost predicate OwnCalls(s: State) {
    && s.nextCallId > 0
    && (forall id :: id in s.calls ==> 0 < id < s.nextCallId)
    && (forall i :: 0 <= i < |s.requests| && s.requests[i].own != 0 ==> s.requests[i].own in s.calls)
    && (forall i, j :: 0 <= i < j < |s.requests| && s.requests[i].own != 0 ==> s.requests[i].own != s.requests[j].own)
  }

  /** Where the writer of a row can be: it is about to publish the recorded call, or has published it. */
  ghost predicate WriterAt(s: State, key: string, w: nat, callId: int) {
    && w < |s.requests| && s.requests[w].key == key && s.requests[w].own == callId != 0
    && (s.requests[w].pc == Recheck(callId) || s.requests[w].pc == Publish(callId)
        || (s.requests[w].pc == Responded(callId) && Broadcast(w, key, callId) in s.broadcasts))
  }

  ghost predicate LedgerOk(s: State) {
    && s.writers.Keys == s.uploads.Keys
    && forall k :: k in s.writers ==> k in s.uploads && WriterAt(s, k, s.writers[k], s.uploads[k])
  }

  /** Only the writer of a ledger row and the strays broadcast, once, their own call. */
  ghost predicate BroadcastOk(s: State, x: Broadcast) {
    && x.request < |s.requests| && s.requests[x.request].pc == Responded(x.callId)
    && s.requests[x.request].key == x.key && s.requests[x.request].own == x.callId != 0
    && (x.request in s.strays || Writer(s, x.request))
  }

  ghost predicate BroadcastsOk(s: State) {
    && (forall b :: 0 <= b < |s.broadcasts| ==> BroadcastOk(s, s.broadcasts[b]))
    && (forall a, b :: 0 <= a < b < |s.broadcasts| ==> s.broadcasts[a].request != s.broadcasts[b].request)
  }

  ghost predicate StraysOk(s: State) {
    forall i :: i in s.strays ==> i < |s.requests| && (s.requests[i].pc.Publish? || s.requests[i].pc.Responded?)
  }

  ghost predicate Inv(s: State) {
    RequestsOk(s) && OwnCalls(s) && LedgerOk(s) && BroadcastsOk(s) && StraysOk(s)
  }

  /** Only the program counter of a request that has not answered changes. */
  lemma MoveKeeps(s: State, i: nat, pc: Pc)
    requires Inv(s) && i < |s.requests| && !s.requests[i].pc.Responded? && i !in s.strays
    requires RequestOk(SetPc(s, i, pc), i) && (Writer(s, i) ==> pc == Publish(s.requests[i].own))
    ensures Inv(SetPc(s, i, pc))
  {
    var t := SetPc(s, i, pc);
    assert RequestsOk(t) by {
      hide OwnCalls, LedgerOk, BroadcastsOk;
      forall k | 0 <= k < |t.requests| ensures RequestOk(t, k) {
        assert RequestOk(s, k);
      }
    }
    hide RequestOk, RequestsOk;
    assert LedgerOk(t) by {
      hide OwnCalls, BroadcastsOk;
      forall k | k in t.writers ensures WriterAt(t, k, t.writers[k], t.uploads[k]) {
        assert WriterAt(s, k, s.writers[k], s.uploads[k]);
      }
    }
    hide LedgerOk;
    assert BroadcastsOk(t) by {
      forall b | 0 <= b < |t.broadcasts| ensures BroadcastOk(t, t.broadcasts[b]) {
        assert BroadcastOk(s, s.broadcasts[b]);
      }
    }
  }

  lemma StoreKeeps(s: State, i: nat)
    requires Inv(s) && i < |s.requests| && s.requests[i].pc.Insert?
    ensures Inv(StoreCall(s, i))
  {
    var t := StoreCall(s, i);
    assert RequestOk(s, i);
    assert !Writer(s, i) by {
      assert Writer(s, i) ==> WriterAt(s, s.requests[i].key, i, s.uploads[s.requests[i].key]);
    }
    assert RequestsOk(t) by {
      hide OwnCalls, LedgerOk, BroadcastsOk;
      forall k | 0 <= k < |t.requests| ensures RequestOk(t, k) {
        assert RequestOk(s, k);
      }
    }
    hide RequestOk, RequestsOk;
    assert LedgerOk(t) by {
      hide OwnCalls, BroadcastsOk;
      forall k | k in t.writers ensures WriterAt(t, k, t.writers[k], t.uploads[k]) {
        assert WriterAt(s, k, s.writers[k], s.uploads[k]);
      }
    }
    hide LedgerOk;
    assert BroadcastsOk(t) by {
      forall b | 0 <= b < |t.broadcasts| ensures BroadcastOk(t, t.broadcasts[b]) {
        assert BroadcastOk(s, s.broadcasts[b]);
      }
    }
  }

  lemma WriteRowRequest(s: State, i: nat, id: int, pc: Pc, k: nat)
    requires RequestsOk(s) && i < |s.requests| && s.requests[i].pc == Record(id) && k < |s.requests|
    requires s.requests[i].key !in s.uploads && s.requests[i].key !in s.writers
    requires pc == Publish(id) || pc == Recheck(id)
    ensures RequestOk(WriteRow(s, i, id, pc), k)
  {
    assert RequestOk(s, k) && RequestOk(s, i);
    hide RequestsOk;
  }

  lemma WriteRowLedger(s: State, i: nat, id: int, pc: Pc, key: string)
    requires LedgerOk(s) && i < |s.requests| && s.requests[i].pc == Record(id) && s.requests[i].own == id != 0
    requires s.requests[i].key !in s.uploads && (pc == Publish(id) || pc == Recheck(id))
    requires key in WriteRow(s, i, id, pc).writers
    ensures var t := WriteRow(s, i, id, pc); key in t.uploads && WriterAt(t, key, t.writers[key], t.uploads[key])
  {
    if key in s.writers {
      assert WriterAt(s, key, s.writers[key], s.uploads[key]);
      assert s.writers[key] != i;
    }
    hide LedgerOk;
  }

  /** Request i writes the free row of its key. */
  lemma WriteRowKeeps(s: State, i: nat, id: int, pc: Pc)
    requires Inv(s) && i < |s.requests| && s.requests[i].pc == Record(id) && s.requests[i].key !in s.uploads
    requires pc == Publish(id) || pc == Recheck(id)
    ensures Inv(WriteRow(s, i, id, pc))
  {
    var t := WriteRow(s, i, id, pc);
    SameKeys(s, s.requests[i].key);
    assert RequestOk(s, i);
    forall k: nat | k < |s.requests| ensures RequestOk(t, k) {
      WriteRowRequest(s, i, id, pc, k);
    }
    assert RequestsOk(t);
    forall k | k in t.writers ensures k in t.uploads && WriterAt(t, k, t.writers[k], t.uploads[k]) {
      WriteRowLedger(s, i, id, pc, k);
    }
    hide RequestOk, RequestsOk, WriterAt;
    assert LedgerOk(t);
    hide LedgerOk;
    assert BroadcastsOk(t) by {
      hide OwnCalls;
      forall b | 0 <= b < |t.broadcasts| ensures BroadcastOk(t, t.broadcasts[b]) {
        assert BroadcastOk(s, s.broadcasts[b]);
      }
    }
  }

  lemma GoOnKeeps(s: State, i: nat, id: int)
    requires Inv(s) && i < |s.requests| && s.requests[i].pc == Recheck(id)
    ensures Inv(GoOn(s, i, id))
  {
    var t := GoOn(s, i, id);
    assert RequestOk(s, i);
    assert RequestsOk(t) by {
      hide OwnCalls, LedgerOk, BroadcastsOk;
      forall k | 0 <= k < |t.requests| ensures RequestOk(t, k) {
        assert RequestOk(s, k);
      }
    }
    hide RequestOk, RequestsOk;
    assert LedgerOk(t) by {
      hide OwnCalls, BroadcastsOk;
      forall k | k in t.writers ensures WriterAt(t, k, t.writers[k], t.uploads[k]) {
        assert WriterAt(s, k, s.writers[k], s.uploads[k]);
      }
    }
    hide LedgerOk;
    assert BroadcastsOk(t) by {
      forall b | 0 <= b < |t.broadcasts| ensures BroadcastOk(t, t.broadcasts[b]) {
        assert BroadcastOk(s, s.broadcasts[b]);
      }
    }
  }

  lemma AnnounceKeeps(s: State, i: nat, id: int)
    requires Inv(s) && i < |s.requests| && s.requests[i].pc == Publish(id)
    ensures Inv(Announce(s, i, id))
  {
    var t := Announce(s, i, id);
    var x := Broadcast(i, s.requests[i].key, id);
    assert RequestOk(s, i);
    assert forall y :: y in t.broadcasts <==> y in s.broadcasts || y == x;
    assert Writer(s, i) ==> s.uploads[s.requests[i].key] == id by {
      assert Writer(s, i) ==> WriterAt(s, s.requests[i].key, i, s.uploads[s.requests[i].key]);
    }
    assert RequestsOk(t) by {
      hide OwnCalls, BroadcastsOk, WriterAt;
      forall k | 0 <= k < |t.requests| ensures RequestOk(t, k) {
        assert RequestOk(s, k);
      }
    }
    assert LedgerOk(t) by {
      hide OwnCalls, BroadcastsOk, RequestOk, RequestsOk;
      forall k | k in t.writers ensures WriterAt(t, k, t.writers[k], t.uploads[k]) {
        assert WriterAt(s, k, s.writers[k], s.uploads[k]);
      }
    }
    AnnounceKeepsBroadcasts(s, i, id);
  }

  lemma AnnounceKeepsBroadcasts(s: State, i: nat, id: int)
    requires Inv(s) && i < |s.requests| && s.requests[i].pc == Publish(id)
    ensures BroadcastsOk(Announce(s, i, id))
  {
    var t := Announce(s, i, id);
    assert RequestOk(s, i);
    hide OwnCalls, LedgerOk, RequestsOk, RequestOk;
    var n := |s.broadcasts|;
    forall b | 0 <= b < |t.broadcasts|
      ensures BroadcastOk(t, t.broadcasts[b]) && (b < n ==> t.broadcasts[b].request != i) {
      assert b < n ==> BroadcastOk(s, s.broadcasts[b]);
    }
  }

  lemma StepKeeps(s: State, i: nat)
    requires Inv(s) && i < |s.requests|
    ensures Inv(StepOf(s, i))
  {
    var r := s.requests[i];
    assert RequestOk(s, i);
    NotYetWriter(s, i);
    match r.pc
    case Check => MoveKeeps(s, i, if r.key in s.uploads then Responded(s.uploads[r.key]) else Insert);
    case Insert => StoreKeeps(s, i);
    case Record(id) =>
      if r.key in s.uploads {
        MoveKeeps(s, i, Recheck(id));
      } else {
        WriteRowKeeps(s, i, id, Publish(id));
      }
    case Recheck(id) =>
      if r.key in s.uploads && Recovers(s, r, id) {
        MoveKeeps(s, i, Responded(s.uploads[r.key]));
      } else {
        GoOnKeeps(s, i, id);
      }
    case Publish(id) => AnnounceKeeps(s, i, id);
    case _ =>
  }

  /** A request has written its row only when it is past recording; the row then holds its own call. */
  lemma NotYetWriter(s: State, i: nat)
    requires Inv(s) && i < |s.requests|
    ensures s.requests[i].pc.Check? || s.requests[i].pc.Insert? || s.requests[i].pc.Record? ==> !Writer(s, i)
    ensures Writer(s, i) ==> s.requests[i].key in s.uploads && s.uploads[s.requests[i].key] == s.requests[i].own
  {
    hide OwnCalls, BroadcastsOk, RequestsOk;
    var key := s.requests[i].key;
    if Writer(s, i) {
      assert WriterAt(s, key, s.writers[key], s.uploads[key]);
    }
  }

  lemma ArriveKeeps(s: State, key: string, handler: Handler)
    requires Inv(s)
    ensures Inv(Next(s, Arrive(key, handler)))
  {
    var t := Next(s, Arrive(key, handler));
    assert RequestsOk(t) by {
      hide OwnCalls, BroadcastsOk;
      forall k | 0 <= k < |t.requests| ensures RequestOk(t, k) {
        assert k < |s.requests| ==> RequestOk(s, k);
      }
    }
    hide RequestOk, RequestsOk;
    assert LedgerOk(t) by {
      hide OwnCalls, BroadcastsOk;
      forall k | k in t.writers ensures WriterAt(t, k, t.writers[k], t.uploads[k]) {
        assert WriterAt(s, k, s.writers[k], s.uploads[k]);
      }
    }
    hide LedgerOk;
    assert BroadcastsOk(t) by {
      forall b | 0 <= b < |t.broadcasts| ensures BroadcastOk(t, t.broadcasts[b]) {
        assert BroadcastOk(s, s.broadcasts[b]);
      }
    }
  }

  lemma NextKeeps(s: State, e: Event)
    requires Inv(s)
    ensures Inv(Next(s, e))
  {
    hide StepOf, WriteRow, GoOn;
    match e
    case Arrive(key, handler) => ArriveKeeps(s, key, handler);
    case Step(i) =>
      if i < |s.requests| {
        StepKeeps(s, i);
      }
    case Refuse(i) =>
      if i < |s.requests| {
        assert RequestOk(s, i);
        NotYetWriter(s, i);
        if s.requests[i].pc.Check? || s.requests[i].pc.Insert? {
          MoveKeeps(s, i, Refused);
        }
      }
    case FailRecord(i) =>
      if i < |s.requests| {
        assert RequestOk(s, i);
        NotYetWriter(s, i);
        if s.requests[i].pc.Record? {
          MoveKeeps(s, i, Recheck(s.requests[i].pc.callId));
        }
      }
    case LoseAnswer(i) =>
      if i < |s.requests| && s.requests[i].pc.Record? && s.requests[i].key !in s.uploads {
        WriteRowKeeps(s, i, s.requests[i].pc.callId, Recheck(s.requests[i].pc.callId));
      }
    case FailLookup(i) =>
      if i < |s.requests| && s.requests[i].pc.Recheck? {
        GoOnKeeps(s, i, s.requests[i].pc.callId);
      }
  }

  lemma {:induction false} RunKeeps(events: seq<Event>)
    ensures Inv(Run(events))
  {
    hide Next, Inv;
    if events == [] {
      StartOk();
    } else {
      RunKeeps(events[..|events| - 1]);
      NextKeeps(Run(events[..|events| - 1]), events[|events| - 1]);
    }
  }

  lemma StartOk()
    ensures Inv(START)
  {
  }

  // ---------- what clients and listeners see

  ghost predicate Answered(s: State, i: nat) {
    i < |s.requests| && s.requests[i].pc.Responded?
  }

  /** All answers to one key carry the same stored call, the one in the table, except those of strays; a stray answers
      with its own call, which is not in the table. */
  lemma OneCallPerKey(events: seq<Event>, i: nat, j: nat)
    requires Answered(Run(events), i) && Answered(Run(events), j)
    requires Run(events).requests[i].key == Run(events).requests[j].key
    ensures var s := Run(events);
            var r := s.requests[i];
            && r.pc.callId in s.calls
            && (i !in s.strays <==> r.key in s.uploads && s.uploads[r.key] == r.pc.callId)
            && (i !in s.strays && j !in s.strays ==> r.pc.callId == s.requests[j].pc.callId)
            && (i != j && i in s.strays ==> r.pc.callId != s.requests[j].pc.callId)
  {
    hide Run, Inv;
    var s := Run(events);
    RunKeeps(events);
    AnswerIs(s, i);
    AnswerIs(s, j);
    if i in s.strays {
      StrayIsAlone(s, i, j);
    }
  }

  /** An answer that is not a stray's is the recorded call, which its writer stored. */
  lemma AnswerIs(s: State, i: nat)
    requires Inv(s) && Answered(s, i)
    ensures var r := s.requests[i];
            && r.pc.callId in s.calls
            && (i in s.strays ==> r.pc.callId == r.own != 0)
            && (i !in s.strays ==> r.key in s.uploads && r.key in s.writers && s.uploads[r.key] == r.pc.callId
                                   && WriterAt(s, r.key, s.writers[r.key], r.pc.callId)
                                   && s.writers[r.key] !in s.strays)
  {
    assert RequestOk(s, i);
    var key := s.requests[i].key;
    if i !in s.strays {
      var w := s.writers[key];
      assert WriterAt(s, key, w, s.uploads[key]);
      assert RequestOk(s, w);
    }
  }

  lemma OwnCallsDiffer(s: State, i: nat, j: nat)
    requires OwnCalls(s) && i < |s.requests| && j < |s.requests| && i != j && s.requests[i].own != 0
    ensures s.requests[i].own != s.requests[j].own
  {
    if j < i && s.requests[j].own != 0 {
      assert s.requests[j].own != s.requests[i].own;
    }
  }

  lemma WriterIs(s: State, key: string)
    requires Inv(s) && key in s.uploads
    ensures key in s.writers && WriterAt(s, key, s.writers[key], s.uploads[key]) && s.writers[key] !in s.strays
  {
    assert WriterAt(s, key, s.writers[key], s.uploads[key]);
    assert RequestOk(s, s.writers[key]);
  }

  lemma StrayIsAlone(s: State, i: nat, j: nat)
    requires Inv(s) && Answered(s, i) && Answered(s, j) && s.requests[i].key == s.requests[j].key && i in s.strays
    ensures i != j ==> s.requests[i].pc.callId != s.requests[j].pc.callId
    ensures s.requests[i].key in s.uploads ==> s.uploads[s.requests[i].key] != s.requests[i].pc.callId
  {
    AnswerIs(s, i);
    AnswerIs(s, j);
    var key := s.requests[i].key;
    if key in s.uploads {
      WriterIs(s, key);
      OwnCallsDiffer(s, i, s.writers[key]);
    }
    if i != j {
      OwnCallsDiffer(s, i, j);
    }
  }

  ghost predicate WroteRow(s: State, b: Broadcast) {
    && b.key in s.uploads && s.uploads[b.key] == b.callId
    && b.key in s.writers && s.writers[b.key] == b.request
  }

  /** A key is broadcast at most once by a request that is not a stray: by the request that wrote its row, with the
      recorded call. */
  lemma OneBroadcastPerKey(events: seq<Event>, a: nat, b: nat)
    requires a < |Run(events).broadcasts| && b < |Run(events).broadcasts|
    requires Run(events).broadcasts[a].key == Run(events).broadcasts[b].key
    requires Run(events).broadcasts[a].request !in Run(events).strays
    requires Run(events).broadcasts[b].request !in Run(events).strays
    ensures a == b && WroteRow(Run(events), Run(events).broadcasts[a])
  {
    hide Run;
    var s := Run(events);
    RunKeeps(events);
    hide RequestsOk, OwnCalls;
    assert BroadcastOk(s, s.broadcasts[a]) && BroadcastOk(s, s.broadcasts[b]);
    assert WriterAt(s, s.broadcasts[a].key, s.broadcasts[a].request, s.uploads[s.broadcasts[a].key]);
  }

  ghost predicate KeyAnswered(s: State, key: string) {
    forall i :: 0 <= i < |s.requests| && s.requests[i].key == key ==>
      s.requests[i].pc.Responded? || s.requests[i].pc.Refused?
  }

  /** Once every request with a recorded key has answered, the recorded call has been broadcast. */
  lemma AnsweredMeansBroadcast(events: seq<Event>, key: string)
    requires key in Run(events).uploads && KeyAnswered(Run(events), key)
    ensures exists b :: 0 <= b < |Run(events).broadcasts| && Run(events).broadcasts[b].key == key
                        && WroteRow(Run(events), Run(events).broadcasts[b])
  {
    hide Run;
    var s := Run(events);
    RunKeeps(events);
    assert WriterAt(s, key, s.writers[key], s.uploads[key]);
    assert Broadcast(s.writers[key], key, s.uploads[key]) in s.broadcasts;
  }

  // ---------- a retry stores nothing

  /** A run that goes on from a state. */
  function RunFrom(s: State, events: seq<Event>): State {
    if events == [] then s else Next(RunFrom(s, events[..|events| - 1]), events[|events| - 1])
  }

  lemma {:induction false} RunGoesOn(before: seq<Event>, after: seq<Event>)
    ensures Run(before + after) == RunFrom(Run(before), after)
  {
    hide Next;
    if after == [] {
      assert before + after == before;
    } else {
      var n := |after| - 1;
      RunGoesOn(before, after[..n]);
      assert (before + after)[..|before + after| - 1] == before + after[..n];
    }
  }

  /** Every stored call was stored by a request. */
  ghost predicate CallsAreOwned(s: State) {
    forall id :: id in s.calls ==> exists j :: 0 <= j < |s.requests| && s.requests[j].own == id
  }

  /** Requests stay, and a request's own call only changes from none to a fresh one. */
  lemma RequestsStay(s: State, e: Event, j: nat)
    requires j < |s.requests|
    ensures j < |Next(s, e).requests|
    ensures Next(s, e).requests[j].key == s.requests[j].key
    ensures Next(s, e).requests[j].own == s.requests[j].own || s.requests[j].pc.Insert?
  {
    hide Recovers, Writer;
    if e.Step? && e.i < |s.requests| {
      if e.i == j {
        OwnStep(s, j);
      } else {
        StepOfOther(s, e.i, j);
      }
      hide StepOf;
    }
  }

  lemma OwnStep(s: State, j: nat)
    requires j < |s.requests|
    ensures j < |StepOf(s, j).requests| && StepOf(s, j).requests[j].key == s.requests[j].key
    ensures StepOf(s, j).requests[j].own == s.requests[j].own || s.requests[j].pc.Insert?
  {
    hide Recovers, Writer;
  }

  lemma NewCallIsOwned(s: State, e: Event)
    ensures Next(s, e).calls == s.calls
            || (e.Step? && e.i < |s.requests| && s.requests[e.i].pc.Insert? && e.i < |Next(s, e).requests|
                && Next(s, e).calls == s.calls + {Next(s, e).requests[e.i].own})
  {
    hide Recovers, Writer;
  }

  lemma OwnedNext(s: State, e: Event)
    requires Inv(s) && CallsAreOwned(s)
    ensures CallsAreOwned(Next(s, e))
  {
    var t := Next(s, e);
    NewCallIsOwned(s, e);
    forall id | id in t.calls ensures exists j :: 0 <= j < |t.requests| && t.requests[j].own == id {
      if id in s.calls {
        var j: nat :| j < |s.requests| && s.requests[j].own == id;
        RequestsStay(s, e, j);
        assert RequestOk(s, j);
        assert t.requests[j].own == id;
      } else {
        assert t.requests[e.i].own == id;
      }
    }
  }

  lemma {:induction false} CallsStayOwned(events: seq<Event>)
    ensures CallsAreOwned(Run(events))
  {
    hide Next, Inv, CallsAreOwned;
    if events == [] {
      assert CallsAreOwned(START) by { NothingStored(); }
    } else {
      RunKeeps(events[..|events| - 1]);
      CallsStayOwned(events[..|events| - 1]);
      OwnedNext(Run(events[..|events| - 1]), events[|events| - 1]);
    }
  }

  lemma NothingStored()
    ensures CallsAreOwned(START)
  {
  }

  /** Request i arrived when its key had the row `callId`: it has answered with that call, was turned away, or waits. */
  ghost predicate Retries(s: State, i: nat, key: string, callId: int) {
    && i < |s.requests| && s.requests[i].key == key && s.requests[i].own == 0
    && key in s.uploads && s.uploads[key] == callId
    && s.requests[i].pc in {Check, Responded(callId), Refused}
  }

  lemma RetriesNext(s: State, e: Event, i: nat, key: string, callId: int)
    requires Retries(s, i, key, callId)
    ensures Retries(Next(s, e), i, key, callId)
    ensures e == Step(i) || e == Refuse(i) ==> !Next(s, e).requests[i].pc.Check?
    ensures !s.requests[i].pc.Check? ==> Next(s, e).requests[i].pc == s.requests[i].pc
    ensures e != Refuse(i) && !s.requests[i].pc.Refused? ==> !Next(s, e).requests[i].pc.Refused?
  {
    hide Recovers, Writer;
  }

  lemma {:induction false} RetriesRun(s: State, events: seq<Event>, i: nat, key: string, callId: int)
    requires Retries(s, i, key, callId) && s.requests[i].pc.Check?
    ensures var t := RunFrom(s, events);
            && Retries(t, i, key, callId)
            && (Step(i) in events || Refuse(i) in events ==> !t.requests[i].pc.Check?)
            && (Refuse(i) !in events ==> !t.requests[i].pc.Refused?)
  {
    hide Next, Retries;
    assert i < |s.requests| by { RetryExists(s, i, key, callId); }
    if events != [] {
      var n := |events| - 1;
      var before, e := events[..n], events[n];
      assert forall x :: x in events <==> x in before || x == e;
      RetriesRun(s, before, i, key, callId);
      RetryExists(RunFrom(s, before), i, key, callId);
      RetriesNext(RunFrom(s, before), e, i, key, callId);
      RetryExists(RunFrom(s, events), i, key, callId);
    }
  }

  lemma RetryExists(s: State, i: nat, key: string, callId: int)
    requires Retries(s, i, key, callId)
    ensures i < |s.requests|
  {
  }

  /** A request that arrives when its key has a row never stores a call, whatever happens afterwards: all stored calls
      are those of other requests. It answers with the recorded call on its first step, unless it is turned away. */
  lemma RetryStoresNothing(before: seq<Event>, key: string, handler: Handler, after: seq<Event>)
    requires key in Run(before).uploads
    ensures var i, t := |Run(before).requests|, Run(before + [Arrive(key, handler)] + after);
            var callId := Run(before).uploads[key];
            && i < |t.requests| && t.requests[i].key == key && t.requests[i].own == 0
            && (forall id :: id in t.calls ==> exists j :: 0 <= j < |t.requests| && j != i && t.requests[j].own == id)
            && t.requests[i].pc in {Check, Responded(callId), Refused}
            && (Step(i) in after && Refuse(i) !in after ==> t.requests[i].pc == Responded(callId))
  {
    var i, s := |Run(before).requests|, Run(before + [Arrive(key, handler)]);
    var callId := Run(before).uploads[key];
    RunMore(before, Arrive(key, handler));
    assert s.requests[i] == Request(key, handler, Check, 0);
    assert Retries(s, i, key, callId);
    RunGoesOn(before + [Arrive(key, handler)], after);
    RetriesRun(s, after, i, key, callId);
    RunKeeps(before + [Arrive(key, handler)] + after);
    CallsStayOwned(before + [Arrive(key, handler)] + after);
    hide Run, RunFrom, Next;
    OwnCallsArePositive(Run(before + [Arrive(key, handler)] + after));
  }

  lemma OwnCallsArePositive(s: State)
    requires Inv(s)
    ensures forall id :: id in s.calls ==> id != 0
  {
  }

  /** The same for a request that has arrived and takes its first step when there is a row: it stores nothing and
      answers with the recorded call. */
  lemma LateCheckStoresNothing(events: seq<Event>, i: nat)
    requires i < |Run(events).requests| && Run(events).requests[i].pc.Check?
    requires Run(events).requests[i].key in Run(events).uploads
    ensures var s, t := Run(events), Run(events + [Step(i)]);
            && t.calls == s.calls && t.uploads == s.uploads && t.broadcasts == s.broadcasts
            && i < |t.requests| && t.requests[i].own == 0
            && t.requests[i].pc == Responded(s.uploads[s.requests[i].key])
  {
    RunMore(events, Step(i));
    RunKeeps(events);
    hide Run;
    assert RequestOk(Run(events), i);
  }

  // ---------- how often a key is heard

  function Heard(broadcasts: seq<Broadcast>, key: string): nat {
    if broadcasts == [] then 0
    else Heard(broadcasts[..|broadcasts| - 1], key) + if broadcasts[|broadcasts| - 1].key == key then 1 else 0
  }

  function HeardFrom(broadcasts: seq<Broadcast>, key: string): set<nat> {
    set b | b in broadcasts && b.key == key :: b.request
  }

  function StraysOf(s: State, key: string): set<nat> {
    set i | i in s.strays && i < |s.requests| && s.requests[i].key == key
  }

  lemma {:induction false} HeardIsSize(broadcasts: seq<Broadcast>, key: string)
    requires forall a, b :: 0 <= a < b < |broadcasts| ==> broadcasts[a].request != broadcasts[b].request
    ensures Heard(broadcasts, key) == |HeardFrom(broadcasts, key)|
  {
    if broadcasts == [] {
      assert HeardFrom(broadcasts, key) == {};
    } else {
      var n := |broadcasts| - 1;
      HeardIsSize(broadcasts[..n], key);
      HeardFromStep(broadcasts[..n], key, broadcasts[n]);
      assert broadcasts == broadcasts[..n] + [broadcasts[n]];
      hide HeardFrom;
      assert broadcasts[n].request !in HeardFrom(broadcasts[..n], key) by { NotHeardFrom(broadcasts, key, n); }
    }
  }

  lemma HeardFromStep(broadcasts: seq<Broadcast>, key: string, x: Broadcast)
    ensures HeardFrom(broadcasts + [x], key) ==
            if x.key == key then HeardFrom(broadcasts, key) + {x.request} else HeardFrom(broadcasts, key)
  {
    assert forall b :: b in broadcasts + [x] <==> b in broadcasts || b == x;
  }

  lemma NotHeardFrom(broadcasts: seq<Broadcast>, key: string, n: nat)
    requires n < |broadcasts|
    requires forall a, b :: 0 <= a < b < |broadcasts| ==> broadcasts[a].request != broadcasts[b].request
    ensures broadcasts[n].request !in HeardFrom(broadcasts[..n], key)
  {
    forall b | b in broadcasts[..n] ensures b.request != broadcasts[n].request {
      var a :| 0 <= a < n && broadcasts[a] == b;
    }
  }

  lemma HeardFromIs(s: State, key: string)
    requires Inv(s) && KeyAnswered(s, key)
    ensures HeardFrom(s.broadcasts, key) == StraysOf(s, key) + if key in s.writers then {s.writers[key]} else {}
    ensures key in s.writers ==> s.writers[key] !in StraysOf(s, key)
  {
    forall i ensures i in HeardFrom(s.broadcasts, key) ==>
              i in StraysOf(s, key) || (key in s.writers && i == s.writers[key]) {
      if i in HeardFrom(s.broadcasts, key) {
        var b :| 0 <= b < |s.broadcasts| && s.broadcasts[b].key == key && s.broadcasts[b].request == i;
        assert BroadcastOk(s, s.broadcasts[b]);
      }
    }
    forall i | i in StraysOf(s, key)
      ensures i in HeardFrom(s.broadcasts, key) && (key in s.writers ==> s.writers[key] != i) {
      assert RequestOk(s, i);
      assert Broadcast(i, key, s.requests[i].pc.callId) in s.broadcasts;
    }
    if key in s.writers {
      assert WriterAt(s, key, s.writers[key], s.uploads[key]);
      assert Broadcast(s.writers[key], key, s.uploads[key]) in s.broadcasts;
    }
  }

  /** Once every request of a key has answered, it has been broadcast once for its row and once for every stray. So one
      broadcast per key survives failures exactly when none went on without a row, or a single one did and no row was
      ever written. */
  lemma HeardOnceIff(events: seq<Event>, key: string)
    requires KeyAnswered(Run(events), key)
    ensures var s := Run(events);
            && Heard(s.broadcasts, key) == |StraysOf(s, key)| + (if key in s.uploads then 1 else 0)
            && (Heard(s.broadcasts, key) <= 1 <==>
                StraysOf(s, key) == {} || (key !in s.uploads && |StraysOf(s, key)| == 1))
  {
    hide Run;
    var s := Run(events);
    RunKeeps(events);
    HeardIsSize(s.broadcasts, key);
    HeardFromIs(s, key);
    hide Inv, Heard, HeardFrom, StraysOf;
    assert key in s.writers <==> key in s.uploads by { SameKeys(s, key); }
    if key in s.writers {
      assert |StraysOf(s, key) + {s.writers[key]}| == |StraysOf(s, key)| + 1;
    } else {
      assert StraysOf(s, key) + {} == StraysOf(s, key);
    }
  }

  lemma SameKeys(s: State, key: string)
    requires Inv(s)
    ensures key in s.writers <==> key in s.uploads
  {
    assert key in s.writers.Keys <==> key in s.uploads.Keys;
  }

  ghost predicate NoFailures(events: seq<Event>) {
    forall e :: e in events ==> !e.FailRecord? && !e.FailLookup?
  }

  ghost predicate RecheckFindsRow(s: State) {
    forall i :: 0 <= i < |s.requests| && s.requests[i].pc.Recheck? ==> s.requests[i].key in s.uploads
  }

  lemma NoStrayStep(s: State, e: Event)
    requires Inv(s) && s.strays == {} && RecheckFindsRow(s) && !e.FailRecord? && !e.FailLookup?
    ensures Next(s, e).strays == {} && RecheckFindsRow(Next(s, e))
  {
    if e.Step? && e.i < |s.requests| && s.requests[e.i].pc.Recheck? {
      RecheckRecovers(s, e.i);
    }
    hide Inv, Recovers;
  }

  /** Where the only errors are the key conflict and lost answers, nothing strays. */
  lemma {:induction false} NoFailuresNoStrays(events: seq<Event>)
    requires NoFailures(events)
    ensures Run(events).strays == {} && RecheckFindsRow(Run(events))
  {
    hide Next, Inv;
    if events != [] {
      var before, e := events[..|events| - 1], events[|events| - 1];
      assert e in events && NoFailures(before);
      NoFailuresNoStrays(before);
      RunKeeps(before);
      NoStrayStep(Run(before), e);
    }
  }

  /** With a row for its key, a recheck either recovers or finds its own call. */
  lemma RecheckRecovers(s: State, i: nat)
    requires Inv(s) && i < |s.requests| && s.requests[i].pc.Recheck? && s.requests[i].key in s.uploads
    ensures Writer(s, i) || Recovers(s, s.requests[i], s.requests[i].pc.callId)
  {
    hide BroadcastsOk;
    assert RequestOk(s, i);
    var key := s.requests[i].key;
    assert WriterAt(s, key, s.writers[key], s.uploads[key]);
  }

  lemma RunMore(events: seq<Event>, e: Event)
    ensures Run(events + [e]) == Next(Run(events), e)
  {
    assert (events + [e])[..|events|] == events;
  }

  /** The failing input: the record of an upload fails with no row in the table, so its call is published; the client's
      retry finds no row and is broadcast again. */
  lemma FailedRecordIsHeardTwice(key: string) returns (events: seq<Event>)
    ensures Heard(Run(events).broadcasts, key) == 2 && KeyAnswered(Run(events), key)
  {
    hide Run, Heard;
    EmptyRun();
    events := More([], Arrive(key, Upload));
    events := More(events, Step(0));
    events := More(events, Step(0));
    events := More(events, FailRecord(0));
    events := More(events, Step(0));
    events := More(events, Step(0));
    assert Run(events).requests == [Request(key, Upload, Responded(1), 1)];
    events := More(events, Arrive(key, Upload));
    events := More(events, Step(1));
    events := More(events, Step(1));
    events := More(events, Step(1));
    events := More(events, Step(1));
    assert Run(events).requests == [Request(key, Upload, Responded(1), 1), Request(key, Upload, Responded(2), 2)];
    assert Run(events).broadcasts == [Broadcast(0, key, 1), Broadcast(1, key, 2)];
    HeardTwice(key);
  }

  /** The other cause: two requests race, and the lookup after the second one's key conflict fails. */
  lemma FailedLookupIsHeardTwice(key: string, handler: Handler) returns (events: seq<Event>)
    ensures Heard(Run(events).broadcasts, key) == 2 && KeyAnswered(Run(events), key) && key in Run(events).uploads
  {
    hide Run, Heard;
    EmptyRun();
    events := More([], Arrive(key, handler));
    events := More(events, Arrive(key, handler));
    events := More(events, Step(0));
    events := More(events, Step(1));
    events := More(events, Step(0));
    events := More(events, Step(1));
    var s := Run(events);
    assert s.requests == [Request(key, handler, Record(1), 1), Request(key, handler, Record(2), 2)];
    events := More(events, Step(0));
    events := More(events, Step(1));
    events := More(events, FailLookup(1));
    events := More(events, Step(0));
    events := More(events, Step(1));
    var t := Run(events);
    assert t.requests == [Request(key, handler, Responded(1), 1), Request(key, handler, Responded(2), 2)];
    assert t.broadcasts == [Broadcast(0, key, 1), Broadcast(1, key, 2)];
    HeardTwice(key);
  }

  /** A record whose answer is lost is in the table: the request finds its own row, goes on, and its call is broadcast
      once. */
  lemma LostAnswerIsHeardOnce(key: string, handler: Handler) returns (before: seq<Event>, events: seq<Event>)
    ensures Run(before).uploads == map[] && Run(before + [LoseAnswer(0)]).uploads == map[key := 1]
    ensures before + [LoseAnswer(0)] <= events && KeyAnswered(Run(events), key)
    ensures Heard(Run(events).broadcasts, key) == 1 && Run(events).uploads == map[key := 1] && Run(events).strays == {}
  {
    hide Run;
    EmptyRun();
    before := More([], Arrive(key, handler));
    before := More(before, Step(0));
    before := More(before, Step(0));
    events := More(before, LoseAnswer(0));
    assert Run(events).requests == [Request(key, handler, Recheck(1), 1)];
    events := More(events, Step(0));
    events := More(events, Step(0));
    assert Run(events).requests == [Request(key, handler, Responded(1), 1)];
    assert Run(events).broadcasts == [Broadcast(0, key, 1)];
  }

  lemma More(events: seq<Event>, e: Event) returns (more: seq<Event>)
    ensures more == events + [e] && Run(more) == Next(Run(events), e)
  {
    more := events + [e];
    RunMore(events, e);
  }

  lemma HeardTwice(key: string)
    ensures Heard([Broadcast(0, key, 1), Broadcast(1, key, 2)], key) == 2
  {
    assert Heard([Broadcast(0, key, 1)], key) == 1;
    assert [Broadcast(0, key, 1), Broadcast(1, key, 2)][..1] == [Broadcast(0, key, 1)];
  }

  lemma EmptyRun()
    ensures Run([]) == START
  {
  }

  /** How many more steps a request needs at most. */
  function StepsLeft(pc: Pc): nat {
    match pc
    case Check => 5
    case Insert => 4
    case Record(_) => 3
    case Recheck(_) => 2
    case Publish(_) => 1
    case _ => 0
  }

  lemma StepIsCloser(s: State, i: nat)
    requires i < |s.requests| && StepsLeft(s.requests[i].pc) > 0
    ensures i < |StepOf(s, i).requests| && StepsLeft(StepOf(s, i).requests[i].pc) < StepsLeft(s.requests[i].pc)
  {
    hide Recovers, Writer;
  }

  lemma StepOfOther(s: State, k: nat, i: nat)
    requires i < |s.requests| && k < |s.requests| && k != i
    ensures i < |StepOf(s, k).requests| && StepOf(s, k).requests[i] == s.requests[i]
  {
    hide Recovers, Writer;
  }

  /** A request answers after at most five steps of its own, whatever fails and whatever the others do in between. */
  lemma StepsGetCloser(s: State, e: Event, i: nat)
    requires i < |s.requests|
    ensures i < |Next(s, e).requests| && StepsLeft(Next(s, e).requests[i].pc) <= StepsLeft(s.requests[i].pc) <= 5
    ensures StepsLeft(s.requests[i].pc) == 0 <==> s.requests[i].pc.Responded? || s.requests[i].pc.Refused?
    ensures e == Step(i) && StepsLeft(s.requests[i].pc) > 0 ==>
              StepsLeft(Next(s, e).requests[i].pc) < StepsLeft(s.requests[i].pc)
  {
    hide Recovers, Writer;
    if e.Step? && e.i < |s.requests| {
      if e.i != i {
        StepOfOther(s, e.i, i);
        hide StepOf;
      } else if StepsLeft(s.requests[i].pc) > 0 {
        StepIsCloser(s, i);
        hide StepOf;
      }
    }
  }

  // ---------- the keys of one broadcast

  function DispatchKey(clientId: string, radioSetId: string): string {
    clientId + ":" + radioSetId
  }

  /** Within one broadcast, different radio sets have different keys. */
  lemma KeysOfOneBroadcast(clientId: string, a: string, b: string)
    ensures DispatchKey(clientId, a) == DispatchKey(clientId, b) <==> a == b
  {
    assert DispatchKey(clientId, a)[|clientId| + 1..] == a;
    assert DispatchKey(clientId, b)[|clientId| + 1..] == b;
  }

  lemma ShorterClientId(c1: string, a: string, c2: string, b: string)
    requires DispatchKey(c1, a) == DispatchKey(c2, b) && |c1| < |c2|
    ensures ':' in a
  {
    var k := DispatchKey(c2, b);
    assert k[|c2|] == ':' && DispatchKey(c1, a)[|c2|] == a[|c2| - |c1| - 1];
  }

  /** Across broadcasts, keys agree only for the same client id and radio set, when set ids contain no colon. */
  lemma KeysAcrossBroadcasts(c1: string, a: string, c2: string, b: string)
    requires ':' !in a && ':' !in b
    ensures DispatchKey(c1, a) == DispatchKey(c2, b) <==> c1 == c2 && a == b
  {
    var k1, k2 := DispatchKey(c1, a), DispatchKey(c2, b);
    if k1 == k2 {
      if |c1| != |c2| {
        if |c1| < |c2| {
          ShorterClientId(c1, a, c2, b);
        } else {
          ShorterClientId(c2, b, c1, a);
        }
        assert false;
      }
      assert c1 == k1[..|c1|] && c2 == k2[..|c2|];
      assert a == k1[|c1| + 1..] && b == k2[|c2| + 1..];
    }
  }
}
