/** The transcription queue: rows leased to workers (server/internal/database/transcriptions.go). Each SQL statement is
    one function on the rows; a run is any sequence of them. */
module TranscriptionSpec {
  import opened Ordering
  import opened Text

  datatype Status = Pending | Processing | Finished | Failed | Skipped

  /** What a worker hands in. */
  datatype Transcript = Transcript(text: string, provider: string, language: string, confidence: real)

  const NO_TRANSCRIPT := Transcript("", "", "", 0.0)

  datatype Row = Row(status: Status, transcript: Transcript, error: string, attempts: nat,
                     claimedBy: string, claimedUntil: int)

  datatype CallInfo = CallInfo(duration: real, talkgroup: int)

  type Rows = map<int, Row>

  // ---------- the statements

  function Released(r: Row, status: Status, error: string): Row {
    r.(status := status, error := error, claimedBy := "", claimedUntil := 0)
  }

  function NewRow(status: Status, error: string): Row {
    Row(status, NO_TRANSCRIPT, error, 0, "", 0)
  }

  /** UpsertCallTranscriptStatus. */
  function Upsert(rows: Rows, id: int, status: Status, error: string): Rows {
    rows[id := if id in rows then Released(rows[id], status, error) else NewRow(status, error)]
  }

  /** A bulk skip of some rows. */
  function SkipAll(rows: Rows, ids: set<int>, error: string): Rows {
    map id | id in rows :: if id in ids then Released(rows[id], Skipped, error) else rows[id]
  }

  predicate Queued(r: Row) {
    r.status.Pending? || r.status.Processing?
  }

  function QueuedIds(rows: Rows): set<int> {
    set id | id in rows && Queued(rows[id])
  }

  /** SkipShortPendingTranscriptionJobs. */
  function ShortIds(rows: Rows, calls: map<int, CallInfo>, least: real): set<int> {
    if least <= 0.0 then {}
    else set id | id in rows && id in calls && rows[id].status.Pending? && 0.0 < calls[id].duration < least
  }

  /** The message of a short call's skip, with one decimal (Go's %.1f rounds a tie to the even digit). */
  function ShortMessage(least: real): string {
    if least <= 0.0 then "" else "audio duration below " + OneDecimal(least) + "s minimum"
  }

  /** SkipUnselectedPendingTranscriptionJobs. */
  function UnselectedIds(rows: Rows, calls: map<int, CallInfo>, selected: set<int>): set<int> {
    set id | id in rows && id in calls && Queued(rows[id]) && calls[id].talkgroup !in selected
  }

  /** EnsureTranscriptionQueueRows. */
  function EnsureRows(rows: Rows, calls: map<int, CallInfo>): Rows {
    map id | id in rows.Keys + calls.Keys :: if id in rows then rows[id] else NewRow(Pending, "")
  }

  predicate Claimable(r: Row, now: int) {
    r.status.Pending? || (r.status.Processing? && r.claimedUntil < now)
  }

  function ClaimableIds(rows: Rows, now: int): set<int> {
    set id | id in rows && Claimable(rows[id], now)
  }

  function Largest(s: set<int>): (m: int)
    requires s != {}
    ensures m in s && forall x :: x in s ==> x <= m
  {
    LargestExists(s);
    var m :| m in s && forall x :: x in s ==> x <= m;
    m
  }

  lemma {:induction false} LargestExists(s: set<int>)
    requires s != {}
    ensures exists m :: m in s && forall x :: x in s ==> x <= m
  {
    var x := Member(s);
    var rest := s - {x};
    if rest == {} {
      assert s == {x};
    } else {
      LargestExists(rest);
      var m :| m in rest && forall y :: y in rest ==> y <= m;
      var best := if x > m then x else m;
      assert best in s && forall y :: y in s ==> y <= best by {
        forall y | y in s ensures y <= best {
          assert y == x || y in rest;
        }
      }
    }
  }

  function LeaseSeconds(lease: int): int {
    if lease <= 0 then 300 else lease
  }

  function Leased(r: Row, worker: string, until: int): Row {
    r.(status := Processing, attempts := r.attempts + 1, claimedBy := worker, claimedUntil := until, error := "")
  }

  function WorkerName(trimmed: string): (name: string)
    ensures name != ""
  {
    if trimmed == "" then "local-transcriber" else trimmed
  }

  // ---------- runs

  /** The log of a run: what touched which row. `until` is the end of the lease. */
  datatype Entry =
    | Claimed(id: int, worker: string, at: int, until: int)
    | Requeued(id: int)
    | Rewritten(ids: set<int>)

  datatype State = State(rows: Rows, calls: map<int, CallInfo>, selected: set<int>, lastCallId: nat,
                         now: nat, log: seq<Entry>)

  datatype Event =
    | Tick(seconds: nat)
    | StoreCall(info: CallInfo)
    | DeleteCall(id: int)
    | Select(talkgroups: set<int>)
    | UpsertStatus(id: int, skip: bool, message: string)
    | CancelPending(reason: string)
    | Ensure
    | SkipShort(least: real)
    | SkipUnselected
    | Claim(worker: string, lease: int)
    | Complete(id: int, transcript: Transcript)
    | Fail(id: int, message: string)
    | Skip(id: int, message: string)

  const START := State(map[], map[], {}, 0, 0, [])

  function Rewrite(s: State, rows: Rows, ids: set<int>): State {
    s.(rows := rows, log := s.log + [Rewritten(ids)])
  }

  /** The call is put back in the queue. */
  function Requeue(s: State, id: int, message: string): State {
    s.(rows := Upsert(s.rows, id, Pending, message), log := s.log + [Requeued(id)])
  }

  function RewriteOne(s: State, id: int, row: Row): State {
    Rewrite(s, s.rows[id := row], {id})
  }

  function ClaimStep(s: State, worker: string, lease: int): State {
    var rows := EnsureRows(s.rows, s.calls);
    var ids := ClaimableIds(rows, s.now);
    if ids == {} then s.(rows := rows)
    else
      var id, until := Largest(ids), s.now + LeaseSeconds(lease);
      s.(rows := rows[id := Leased(rows[id], WorkerName(worker), until)],
         log := s.log + [Claimed(id, WorkerName(worker), s.now, until)])
  }

  /** A statement about a row that does not exist changes nothing. */
  function Next(s: State, e: Event): State {
    match e
    case Tick(seconds) => s.(now := s.now + seconds)
    case StoreCall(info) => s.(lastCallId := s.lastCallId + 1, calls := s.calls[s.lastCallId + 1 := info])
    case DeleteCall(id) => s.(calls := s.calls - {id}, rows := s.rows - {id})
    case Select(talkgroups) => s.(selected := talkgroups)
    case UpsertStatus(id, skip, message) =>
      if id !in s.calls then s
      else if skip then Rewrite(s, Upsert(s.rows, id, Skipped, message), {id})
      else Requeue(s, id, message)
    case CancelPending(reason) => Rewrite(s, SkipAll(s.rows, QueuedIds(s.rows), reason), QueuedIds(s.rows))
    case Ensure => s.(rows := EnsureRows(s.rows, s.calls))
    case SkipShort(least) =>
      var ids := ShortIds(s.rows, s.calls, least);
      Rewrite(s, SkipAll(s.rows, ids, ShortMessage(least)), ids)
    case SkipUnselected =>
      var ids := UnselectedIds(s.rows, s.calls, s.selected);
      Rewrite(s, SkipAll(s.rows, ids, "talkgroup not enabled for transcription"), ids)
    case Claim(worker, lease) => ClaimStep(s, worker, lease)
    case Complete(id, transcript) =>
      if id in s.rows then RewriteOne(s, id, Released(s.rows[id], Finished, "").(transcript := transcript)) else s
    case Fail(id, message) => if id in s.rows then RewriteOne(s, id, Released(s.rows[id], Failed, message)) else s
    case Skip(id, message) => if id in s.rows then RewriteOne(s, id, Released(s.rows[id], Skipped, message)) else s
  }

  function Run(events: seq<Event>): State {
    if events == [] then START else Next(Run(events[..|events| - 1]), events[|events| - 1])
  }

  // ---------- the invariant

  predicate Touches(e: Entry, id: int) {
    match e
    case Claimed(c, _, _, _) => c == id
    case Requeued(c) => c == id
    case Rewritten(ids) => id in ids
  }

  /** Number of claims of a call. */
  function Claims(log: seq<Entry>, id: int): nat {
    if log == [] then 0
    else Claims(log[..|log| - 1], id) + (if log[|log| - 1].Claimed? && log[|log| - 1].id == id then 1 else 0)
  }

  /** Index of the last entry that touched a call, or -1. */
  function LastTouch(log: seq<Entry>, id: int): (i: int)
    ensures -1 <= i < |log| && (i >= 0 ==> Touches(log[i], id))
    ensures forall k :: i < k < |log| ==> !Touches(log[k], id)
  {
    if log == [] then -1
    else if Touches(log[|log| - 1], id) then |log| - 1
    else LastTouch(log[..|log| - 1], id)
  }

  /** The lease fields are set exactly while the row is being processed. */
  ghost predicate LeaseFields(r: Row) {
    (r.claimedUntil > 0 <==> r.status.Processing?) && (r.claimedBy != "" <==> r.status.Processing?)
  }

  /** The last thing that touched a row decides its status: a claim leaves it leased until the end of that claim, a
      requeue (or nothing at all) leaves it pending, anything else ends it. */
  ghost predicate RowOk(s: State, id: int)
    requires id in s.rows
  {
    var r, t := s.rows[id], LastTouch(s.log, id);
    && LeaseFields(r)
    && r.attempts == Claims(s.log, id)
    && (r.status.Pending? <==> t == -1 || s.log[t].Requeued?)
    && (r.status.Processing? <==> t >= 0 && s.log[t].Claimed?)
    && (r.status.Processing? ==> r.claimedUntil == s.log[t].until)
  }

  ghost predicate Known(s: State) {
    && (forall id :: id in s.rows ==> id in s.calls)
    && (forall id :: id in s.calls ==> 0 < id <= s.lastCallId)
    && (forall id :: id > s.lastCallId ==> Claims(s.log, id) == 0 && LastTouch(s.log, id) == -1)
    && (forall id :: id in s.calls && id !in s.rows ==> Claims(s.log, id) == 0 && LastTouch(s.log, id) == -1)
  }

  /** Two claims of one call with no requeue of it in between have disjoint leases, the earlier one first. */
  ghost predicate LeasesDisjoint(log: seq<Entry>) {
    forall i, j :: 0 <= i < j < |log| && log[i].Claimed? && log[j].Claimed? && log[i].id == log[j].id
      && (forall k :: i < k < j ==> log[k] != Requeued(log[i].id))
      ==> log[i].until < log[j].at
  }

  ghost predicate LeasesForward(log: seq<Entry>) {
    forall i :: 0 <= i < |log| && log[i].Claimed? ==> log[i].at < log[i].until
  }

  ghost predicate Inv(s: State) {
    && Known(s) && (forall id :: id in s.rows ==> RowOk(s, id))
    && LeasesDisjoint(s.log) && LeasesForward(s.log)
  }

  lemma LogStep(log: seq<Entry>, e: Entry, id: int)
    ensures Claims(log + [e], id) == Claims(log, id) + (if e.Claimed? && e.id == id then 1 else 0)
    ensures LastTouch(log + [e], id) == if Touches(e, id) then |log| else LastTouch(log, id)
  {
    assert (log + [e])[..|log|] == log;
  }

  lemma EntryKeepsLeases(log: seq<Entry>, e: Entry)
    requires LeasesDisjoint(log) && LeasesForward(log) && !e.Claimed?
    ensures LeasesDisjoint(log + [e]) && LeasesForward(log + [e])
  {
    var longer := log + [e];
    forall i, j | 0 <= i < j < |longer| && longer[i].Claimed? && longer[j].Claimed? && longer[i].id == longer[j].id
      && (forall k :: i < k < j ==> longer[k] != Requeued(longer[i].id))
      ensures longer[i].until < longer[j].at
    {
      assert j < |log|;
      assert forall k :: i < k < j ==> longer[k] == log[k];
    }
  }

  ghost predicate Touched(e: Entry, ids: set<int>) {
    !e.Claimed? && forall id :: Touches(e, id) <==> id in ids
  }

  /** Some rows are released, or put back, and the rest stay: what every operation but a claim does. */
  lemma EntryKeeps(s: State, rows: Rows, ids: set<int>, e: Entry)
    requires Inv(s) && ids <= rows.Keys && s.rows.Keys <= rows.Keys <= s.calls.Keys && Touched(e, ids)
    requires forall id :: id in rows && id !in ids ==> id in s.rows && rows[id] == s.rows[id]
    requires forall id :: id in ids ==>
               && rows[id].attempts == (if id in s.rows then s.rows[id].attempts else 0)
               && !rows[id].status.Processing? && rows[id].claimedBy == "" && rows[id].claimedUntil == 0
               && (rows[id].status.Pending? <==> e.Requeued?)
    ensures Inv(s.(rows := rows, log := s.log + [e]))
  {
    hide Claims, LastTouch, Touches;
    var t := s.(rows := rows, log := s.log + [e]);
    EntryKeepsLeases(s.log, e);
    forall id ensures Claims(t.log, id) == Claims(s.log, id)
      ensures LastTouch(t.log, id) == if id in ids then |s.log| else LastTouch(s.log, id)
    {
      LogStep(s.log, e, id);
    }
    hide LeasesDisjoint, LeasesForward;
    forall id | id in rows ensures RowOk(t, id) {
      assert id in s.rows ==> RowOk(s, id);
    }
  }

  lemma EnsureKeeps(s: State)
    requires Inv(s)
    ensures Inv(s.(rows := EnsureRows(s.rows, s.calls)))
  {
    hide Claims, LastTouch;
    var t := s.(rows := EnsureRows(s.rows, s.calls));
    forall id | id in t.rows ensures RowOk(t, id) {
      assert id in s.rows ==> RowOk(s, id);
    }
  }

  lemma ClaimKeepsLeases(s: State, id: int, worker: string, until: int)
    requires LeasesDisjoint(s.log) && LeasesForward(s.log) && s.now < until && id in s.rows && RowOk(s, id)
    requires Claimable(s.rows[id], s.now)
    ensures var log := s.log + [Claimed(id, worker, s.now, until)]; LeasesDisjoint(log) && LeasesForward(log)
  {
    hide Claims;
    var log := s.log + [Claimed(id, worker, s.now, until)];
    var t := LastTouch(s.log, id);
    forall i, j | 0 <= i < j < |log| && log[i].Claimed? && log[j].Claimed? && log[i].id == log[j].id
      && (forall k :: i < k < j ==> log[k] != Requeued(log[i].id))
      ensures log[i].until < log[j].at
    {
      if j < |s.log| {
        assert forall k :: i < k < j ==> log[k] == s.log[k];
        assert s.log[i].until < s.log[j].at;
      } else {
        assert Touches(s.log[i], id);
        assert t >= i;
        assert log[t] == s.log[t] && s.log[t].Claimed?;
        if i < t {
          assert forall k :: i < k < t ==> log[k] == s.log[k];
          assert s.log[i].until < s.log[t].at;
        }
      }
    }
  }

  function LeaseRow(s: State, id: int, worker: string, until: int): State
    requires id in s.rows
  {
    s.(rows := s.rows[id := Leased(s.rows[id], worker, until)], log := s.log + [Claimed(id, worker, s.now, until)])
  }

  lemma LeaseRowKeepsKnown(s: State, id: int, worker: string, until: int)
    requires Known(s) && id in s.rows
    ensures Known(LeaseRow(s, id, worker, until))
  {
    hide Claims, LastTouch;
    forall x ensures Claims(s.log + [Claimed(id, worker, s.now, until)], x)
              == Claims(s.log, x) + (if x == id then 1 else 0)
      ensures LastTouch(s.log + [Claimed(id, worker, s.now, until)], x)
              == if x == id then |s.log| else LastTouch(s.log, x)
    {
      LogStep(s.log, Claimed(id, worker, s.now, until), x);
    }
  }

  lemma LeaseRowKeepsRow(s: State, id: int, worker: string, until: int, x: int)
    requires id in s.rows && x in s.rows && RowOk(s, x) && worker != "" && 0 < until
    ensures RowOk(LeaseRow(s, id, worker, until), x)
  {
    LogStep(s.log, Claimed(id, worker, s.now, until), x);
    hide Claims, LastTouch;
  }

  lemma LeaseRowKeeps(s: State, id: int, worker: string, until: int)
    requires Inv(s) && id in s.rows && Claimable(s.rows[id], s.now) && worker != "" && s.now < until
    ensures Inv(LeaseRow(s, id, worker, until))
  {
    assert RowOk(s, id);
    ClaimKeepsLeases(s, id, worker, until);
    LeaseRowKeepsKnown(s, id, worker, until);
    hide Known, LeasesDisjoint, LeasesForward, Claimable, RowOk;
    var t := LeaseRow(s, id, worker, until);
    forall x | x in t.rows ensures RowOk(t, x) {
      LeaseRowKeepsRow(s, id, worker, until, x);
    }
  }

  lemma CandidateIsClaimable(rows: Rows, now: int)
    requires ClaimableIds(rows, now) != {}
    ensures Largest(ClaimableIds(rows, now)) in rows && Claimable(rows[Largest(ClaimableIds(rows, now))], now)
  {
  }

  lemma ClaimKeeps(s: State, worker: string, lease: int)
    requires Inv(s)
    ensures Inv(ClaimStep(s, worker, lease))
  {
    hide EnsureRows, Inv, Largest, ClaimableIds, Claimable;
    EnsureKeeps(s);
    var mid := s.(rows := EnsureRows(s.rows, s.calls));
    if ClaimableIds(mid.rows, s.now) != {} {
      CandidateIsClaimable(mid.rows, s.now);
      LeaseRowKeeps(mid, Largest(ClaimableIds(mid.rows, s.now)), WorkerName(worker), s.now + LeaseSeconds(lease));
    }
  }

  lemma CallsKeep(s: State, e: Event)
    requires Inv(s) && (e.StoreCall? || e.DeleteCall? || e.Tick? || e.Select?)
    ensures Inv(Next(s, e))
  {
    hide Claims, LastTouch, LeasesDisjoint, LeasesForward;
    var t := Next(s, e);
    forall id | id in t.rows ensures RowOk(t, id) {
      assert RowOk(s, id);
    }
  }

  lemma NextKeeps(s: State, e: Event)
    requires Inv(s)
    ensures Inv(Next(s, e))
  {
    hide Inv, ClaimStep;
    match e
    case UpsertStatus(id, skip, message) =>
      if id in s.calls {
        RowsAreOfCalls(s);
        if skip {
          EntryKeeps(s, Upsert(s.rows, id, Skipped, message), {id}, Rewritten({id}));
        } else {
          EntryKeeps(s, Upsert(s.rows, id, Pending, message), {id}, Requeued(id));
        }
      }
    case CancelPending(reason) =>
      RowsAreOfCalls(s);
      EntryKeeps(s, SkipAll(s.rows, QueuedIds(s.rows), reason), QueuedIds(s.rows), Rewritten(QueuedIds(s.rows)));
    case Ensure => EnsureKeeps(s);
    case SkipShort(least) =>
      RowsAreOfCalls(s);
      var ids := ShortIds(s.rows, s.calls, least);
      EntryKeeps(s, SkipAll(s.rows, ids, ShortMessage(least)), ids, Rewritten(ids));
    case SkipUnselected =>
      RowsAreOfCalls(s);
      var ids := UnselectedIds(s.rows, s.calls, s.selected);
      EntryKeeps(s, SkipAll(s.rows, ids, "talkgroup not enabled for transcription"), ids, Rewritten(ids));
    case Claim(worker, lease) => ClaimKeeps(s, worker, lease);
    case Complete(id, transcript) =>
      if id in s.rows {
        OneKeeps(s, id, Released(s.rows[id], Finished, "").(transcript := transcript));
      }
    case Fail(id, message) =>
      if id in s.rows {
        OneKeeps(s, id, Released(s.rows[id], Failed, message));
      }
    case Skip(id, message) =>
      if id in s.rows {
        OneKeeps(s, id, Released(s.rows[id], Skipped, message));
      }
    case _ => CallsKeep(s, e);
  }

  lemma RowsAreOfCalls(s: State)
    requires Inv(s)
    ensures s.rows.Keys <= s.calls.Keys
  {
    forall id: int | id in s.rows.Keys ensures id in s.calls.Keys {
      assert id in s.rows;
    }
  }

  lemma OneKeeps(s: State, id: int, row: Row)
    requires Inv(s) && id in s.rows && row.attempts == s.rows[id].attempts
    requires !row.status.Processing? && !row.status.Pending? && row.claimedBy == "" && row.claimedUntil == 0
    ensures Inv(RewriteOne(s, id, row))
  {
    hide Inv;
    RowsAreOfCalls(s);
    EntryKeeps(s, s.rows[id := row], {id}, Rewritten({id}));
  }

  lemma {:induction false} RunKeeps(events: seq<Event>)
    ensures Inv(Run(events))
  {
    hide Next, Inv;
    if events == [] {
      StartOk();
    } else {
      RunKeeps(events[..|events| - 1]);
      NextKeeps(Run(events[..|events| - 1]), events[|events| - 1]);
    }
  }

  lemma StartOk()
    ensures Inv(START)
  {
    assert Known(START) && LeasesDisjoint(START.log) && LeasesForward(START.log);
  }

  // ---------- what holds in every run

  /** Lease fields are set exactly while a row is being processed, and its attempts are the claims it has had. */
  lemma LeasesFollowStatus(events: seq<Event>, id: int)
    requires id in Run(events).rows
    ensures LeaseFields(Run(events).rows[id]) && Run(events).rows[id].attempts == Claims(Run(events).log, id)
  {
    hide Run;
    RunKeeps(events);
    assert RowOk(Run(events), id);
  }

  /** Index of the last claim of a call, or -1. */
  function LastClaim(log: seq<Entry>, id: int): (i: int)
    ensures -1 <= i < |log| && (i >= 0 ==> log[i].Claimed? && log[i].id == id)
    ensures forall k :: i < k < |log| ==> !(log[k].Claimed? && log[k].id == id)
  {
    if log == [] then -1
    else if log[|log| - 1].Claimed? && log[|log| - 1].id == id then |log| - 1
    else LastClaim(log[..|log| - 1], id)
  }

  /** While the last lease of a call has not run out, the call can be leased again if and only if its row is pending. */
  lemma RunningLeaseIsRetakenIffPending(events: seq<Event>, id: int)
    requires id in Run(events).rows
    ensures var s := Run(events);
            var c := LastClaim(s.log, id);
            c >= 0 && s.now <= s.log[c].until ==> (Claimable(s.rows[id], s.now) <==> s.rows[id].status.Pending?)
  {
    hide Run, Claims;
    var s := Run(events);
    RunKeeps(events);
    assert RowOk(s, id);
    var c, t := LastClaim(s.log, id), LastTouch(s.log, id);
    if c >= 0 && s.rows[id].status.Processing? {
      assert Touches(s.log[c], id);
      assert c == t;
    }
  }

  /** The one event that makes an existing row pending again is putting its call back in the queue. */
  lemma OnlyRequeueMakesPending(events: seq<Event>, e: Event, id: int)
    requires id in Run(events).rows && !Run(events).rows[id].status.Pending?
    ensures var t := Next(Run(events), e);
            id in t.rows && t.rows[id].status.Pending? <==> e.UpsertStatus? && e.id == id && !e.skip
  {
    hide Run, Largest;
    var s := Run(events);
    RunKeeps(events);
    if e.Claim? {
      var ids := ClaimableIds(EnsureRows(s.rows, s.calls), s.now);
      if ids != {} {
        CandidateIsClaimable(EnsureRows(s.rows, s.calls), s.now);
      }
    }
  }

  /** Two claims of one call whose row was not put back in the queue in between have disjoint leases, whatever else
      happened: two workers hold a call at the same time only after a requeue. */
  lemma NoDoubleLease(events: seq<Event>, i: nat, j: nat)
    requires i < j < |Run(events).log| && Run(events).log[i].Claimed? && Run(events).log[j].Claimed?
    requires Run(events).log[i].id == Run(events).log[j].id
    requires forall k :: i < k < j ==> Run(events).log[k] != Requeued(Run(events).log[i].id)
    ensures Run(events).log[i].until < Run(events).log[j].at
  {
    hide Run;
    RunKeeps(events);
  }

  /** A claim takes the largest claimable call, or nothing when there is none; after EnsureRows every stored call has
      a row. */
  lemma ClaimTakesLargest(s: State, worker: string, lease: int)
    ensures var rows, t := EnsureRows(s.rows, s.calls), Next(s, Claim(worker, lease));
            && (forall id :: id in s.calls ==> id in rows)
            && (t.log == s.log <==> ClaimableIds(rows, s.now) == {})
            && (t.log != s.log ==>
                  && |t.log| == |s.log| + 1 && t.log[|s.log|].Claimed?
                  && var id := t.log[|s.log|].id;
                     && id in rows && Claimable(rows[id], s.now)
                     && (forall x :: x in rows && Claimable(rows[x], s.now) ==> x <= id)
                     && t.rows[id].status.Processing? && t.rows[id].attempts == rows[id].attempts + 1)
  {
    var rows, t := EnsureRows(s.rows, s.calls), Next(s, Claim(worker, lease));
    if ClaimableIds(rows, s.now) != {} {
      assert |t.log| == |s.log| + 1;
      assert forall x :: x in rows && Claimable(rows[x], s.now) ==> x in ClaimableIds(rows, s.now);
    } else {
      assert t.log == s.log;
    }
  }

  lemma OnlyCallIsClaimed(s: State, worker: string)
    requires worker != "" && s.calls.Keys == {1} && s.rows.Keys <= {1} && (1 in s.rows ==> s.rows[1].status.Pending?)
    ensures var t := Next(s, Claim(worker, 60));
            && t.log == s.log + [Claimed(1, worker, s.now, s.now + 60)]
            && t.rows.Keys == {1} && t.calls == s.calls && t.now == s.now
  {
    var rows := EnsureRows(s.rows, s.calls);
    assert rows.Keys == {1} && rows[1].status.Pending?;
    assert ClaimableIds(rows, s.now) == {1};
    hide EnsureRows, ClaimableIds;
  }

  /** A lease ends by itself: without a requeue a leased call is leased again if and only if more than the lease has
      passed. */
  lemma LeaseRunsOut(info: CallInfo, first: string, second: string, lease: int, seconds: nat)
    ensures var log := Run([StoreCall(info), Claim(first, lease), Tick(seconds), Claim(second, lease)]).log;
            var most := if lease <= 0 then 300 else lease;
            && |log| >= 1 && log[0].Claimed? && log[0].id == 1 && log[0].at == 0 && log[0].until == most
            && (if seconds > most
                then |log| == 2 && log[1].Claimed? && log[1].id == 1 && log[1].at == seconds
                else |log| == 1)
  {
    var e0, e1, e2, e3 := StoreCall(info), Claim(first, lease), Tick(seconds), Claim(second, lease);
    RunOfFour(e0, e1, e2, e3);
    hide Run;
    var s1 := Next(START, e0);
    assert EnsureRows(s1.rows, s1.calls) == map[1 := NewRow(Pending, "")];
    assert ClaimableIds(map[1 := NewRow(Pending, "")], 0) == {1};
    var s2 := Next(s1, e1);
    assert s2.rows == map[1 := Leased(NewRow(Pending, ""), WorkerName(first), LeaseSeconds(lease))];
    var s3 := Next(s2, e2);
    assert EnsureRows(s3.rows, s3.calls) == s2.rows;
    assert ClaimableIds(s2.rows, seconds) == if seconds > LeaseSeconds(lease) then {1} else {};
  }

  /** A deleted call has no row and is never leased again: its id is not given out twice. */
  lemma {:induction false} DeletedIsNeverLeased(before: seq<Event>, id: int, after: seq<Event>)
    requires id in Run(before).calls
    ensures var s := Run(before + [DeleteCall(id)] + after);
            id !in s.rows && id !in s.calls && Claims(s.log, id) == Claims(Run(before).log, id)
            && id <= s.lastCallId
  {
    if after == [] {
      RunMore(before, DeleteCall(id));
      RunKeeps(before);
      assert before + [DeleteCall(id)] + [] == before + [DeleteCall(id)];
    } else {
      var n := |after| - 1;
      DeletedIsNeverLeased(before, id, after[..n]);
      var most := before + [DeleteCall(id)] + after[..n];
      assert before + [DeleteCall(id)] + after == most + [after[n]];
      RunMore(most, after[n]);
      RunKeeps(most);
      hide Run;
      GoneStaysGone(Run(most), after[n], id);
    }
  }

  lemma GoneStaysGone(s: State, e: Event, id: int)
    requires id !in s.calls && id !in s.rows && id <= s.lastCallId
    ensures var t := Next(s, e);
            id !in t.calls && id !in t.rows && id <= t.lastCallId && Claims(t.log, id) == Claims(s.log, id)
  {
    hide Largest;
    assert id !in EnsureRows(s.rows, s.calls);
    var log := Next(s, e).log;
    if |log| > |s.log| {
      assert log[..|s.log|] == s.log;
    }
  }

  /** Only the talkgroups selected last decide which queued rows are skipped. */
  lemma SelectionDecides(s: State, talkgroups: set<int>, id: int)
    requires id in s.rows && id in s.calls && Queued(s.rows[id])
    ensures var t := Next(Next(s, Select(talkgroups)), SkipUnselected);
            id in t.rows && (t.rows[id].status.Skipped? <==> s.calls[id].talkgroup !in talkgroups)
  {
  }

  /** The exception is real: a call put back in the queue while leased is leased again at once. This is what happens
      when a worker claims a new call before the upload handler has queued it. */
  lemma RequeuedCallIsLeasedTwice()
    ensures exists events ::
              && |Run(events).log| == 3 && Run(events).log[0].Claimed? && Run(events).log[2].Claimed?
              && Run(events).log[0].id == Run(events).log[2].id && Run(events).log[2].at < Run(events).log[0].until
  {
    var e0, e1, e2, e3 := StoreCall(CallInfo(1.0, 7)), Claim("a", 60), UpsertStatus(1, false, ""), Claim("b", 60);
    var events := [e0, e1, e2, e3];
    RunOfFour(e0, e1, e2, e3);
    hide Run, ClaimStep;
    var s2 := Next(Next(START, e0), e1);
    OnlyCallIsClaimed(Next(START, e0), "a");
    var s3 := Next(s2, e2);
    RequeuedOnce(s2);
    OnlyCallIsClaimed(s3, "b");
    hide Next;
    assert Run(events).log == [Claimed(1, "a", 0, 60), Requeued(1), Claimed(1, "b", 0, 60)];
  }

  lemma RequeuedOnce(s: State)
    requires s.log == [Claimed(1, "a", 0, 60)] && s.rows.Keys == {1} && s.calls.Keys == {1}
    ensures var t := Next(s, UpsertStatus(1, false, ""));
            && t.log == [Claimed(1, "a", 0, 60), Requeued(1)] && t.rows.Keys == {1}
            && t.calls == s.calls && t.now == s.now
            && t.rows[1].status.Pending?
  {
    assert 1 in s.calls.Keys && 1 in s.rows.Keys;
  }

  lemma RunOfFour(e0: Event, e1: Event, e2: Event, e3: Event)
    ensures Run([e0, e1, e2, e3]) == Next(Next(Next(Next(START, e0), e1), e2), e3)
  {
    hide Next, Run;
    EmptyRun();
    RunMore([], e0);
    RunMore([e0], e1);
    RunMore([e0, e1], e2);
    RunMore([e0, e1, e2], e3);
    assert [] + [e0] == [e0] && [e0] + [e1] == [e0, e1] && [e0, e1] + [e2] == [e0, e1, e2];
    assert [e0, e1, e2] + [e3] == [e0, e1, e2, e3];
  }

  lemma EmptyRun()
    ensures Run([]) == START
  {
  }

  lemma RunMore(events: seq<Event>, e: Event)
    ensures Run(events + [e]) == Next(Run(events), e)
  {
    hide Next;
    assert (events + [e])[..|events|] == events;
  }
}
