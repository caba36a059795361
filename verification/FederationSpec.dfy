/** One hub pulling another hub's calls: the capped newest-first backfill and the live pull
    (server/internal/api/federation.go, federation_limits.go, server/internal/database/calls.go). */
module FederationSpec {
  import opened Ordering
  import opened Text

  // ---------- caps and limits

  const CAP_UNLISTED: nat := 500
  const CAP_LISTED: nat := 1000

  function ImportCapForDirectoryStatus(status: string): nat {
    if ToLower(TrimSpace(status)) in {"listed", "verified"} then CAP_LISTED else CAP_UNLISTED
  }

  /** The largest number that is neither above 100 nor above what remains. */
  function ImportBatchLimit(remaining: int): (limit: nat)
    ensures limit <= 100 && (remaining <= 0 ==> limit == 0)
    ensures remaining > 0 ==> limit <= remaining && (limit == remaining || limit == 100)
  {
    if remaining <= 0 then 0 else if remaining > 100 then 100 else remaining
  }

  // ---------- what the remote hub answers

  function QueryLimit(limit: int): nat {
    if limit <= 0 || limit > 250 then 100 else limit
  }

  function Below(exports: set<int>, before: int): set<int> {
    set x | x in exports && (before <= 0 || x < before)
  }

  function Above(exports: set<int>, since: int): set<int> {
    set x | x in exports && x > since
  }

  /** ListRecentFederatedCalls: the newest exportable ids below `before` (all when it is 0), oldest first. */
  function ListRecent(exports: set<int>, before: int, limit: int): seq<int> {
    var ids, k := Ascending(Below(exports, before)), QueryLimit(limit);
    if |ids| <= k then ids else ids[|ids| - k..]
  }

  /** ListFederatedCalls: the oldest exportable ids above `since`, oldest first. */
  function ListSince(exports: set<int>, since: int, limit: int): seq<int> {
    var ids, k := Ascending(Above(exports, since)), QueryLimit(limit);
    if |ids| <= k then ids else ids[..k]
  }

  /** ORDER BY id DESC LIMIT k. */
  function NewestFirst(ids: seq<int>, k: nat): (r: seq<int>)
    ensures |r| == if |ids| <= k then |ids| else k
    ensures forall i :: 0 <= i < |r| ==> r[i] == ids[|ids| - 1 - i]
  {
    seq(if |ids| <= k then |ids| else k, i requires 0 <= i < |ids| => ids[|ids| - 1 - i])
  }

  /** The slice reversal, two ends at a time. */
  method OldestFirst(answer: seq<int>) returns (calls: seq<int>)
    ensures |calls| == |answer|
    ensures forall j :: 0 <= j < |answer| ==> calls[j] == answer[|answer| - 1 - j]
  {
    calls := answer;
    var n := |calls|;
    var left, right := 0, n - 1;
    while left < right
      invariant 0 <= left <= n && left + right == n - 1 && |calls| == n
      invariant forall j :: 0 <= j < n && (j < left || j > right) ==> calls[j] == answer[n - 1 - j]
      invariant forall j :: left <= j <= right && j < n ==> calls[j] == answer[j]
    {
      var l, r := calls[left], calls[right];
      calls := calls[left := r][right := l];
      left, right := left + 1, right - 1;
    }
  }

  /** The query answers newest first; the slice is then reversed. */
  method ListRecentFederatedCalls(exports: set<int>, beforeId: int, limit: int) returns (calls: seq<int>)
    ensures calls == ListRecent(exports, beforeId, limit)
    ensures LastBelow(exports, beforeId, if 1 <= limit <= 250 then limit else 100, calls)
  {
    ListRecentIs(exports, beforeId, limit);
    var ids, k := Ascending(Below(exports, beforeId)), QueryLimit(limit);
    var answer := NewestFirst(ids, k);
    calls := OldestFirst(answer);
    hide Below, Ascending, NewestFirst, QueryLimit;
    ReversedIsTail(ids, k, answer, calls);
  }

  /** Taking the newest k and reversing them leaves the last k. */
  lemma ReversedIsTail(ids: seq<int>, k: nat, answer: seq<int>, calls: seq<int>)
    requires |answer| == |calls| == if |ids| <= k then |ids| else k
    requires forall i :: 0 <= i < |answer| ==> answer[i] == ids[|ids| - 1 - i]
    requires forall j :: 0 <= j < |calls| ==> calls[j] == answer[|answer| - 1 - j]
    ensures calls == if |ids| <= k then ids else ids[|ids| - k..]
  {
    var d := |ids| - |calls|;
    forall j | 0 <= j < |calls| ensures calls[j] == ids[d..][j] {
    }
    assert ids[0..] == ids;
    assert calls == ids[d..];
  }

  /** The newest exportable ids below the cursor, as many as asked for, 100 when the limit is out of range. */
  lemma ListRecentIs(exports: set<int>, before: int, limit: int)
    ensures LastBelow(exports, before, if 1 <= limit <= 250 then limit else 100, ListRecent(exports, before, limit))
  {
    hide LastBelow, Ascending;
    var ids := Ascending(Below(exports, before));
    DropIsLastBelow(exports, before, QueryLimit(limit), ids);
    hide Below;
    assert ListRecent(exports, before, limit) ==
           if |ids| <= QueryLimit(limit) then ids else ids[|ids| - QueryLimit(limit)..];
  }

  /** The oldest exportable ids above the cursor, as many as asked for, 100 when the limit is out of range. */
  lemma ListSinceIs(exports: set<int>, since: int, limit: int)
    ensures FirstAbove(exports, since, if 1 <= limit <= 250 then limit else 100, ListSince(exports, since, limit))
  {
    hide FirstAbove, Ascending;
    var ids := Ascending(Above(exports, since));
    TakeIsFirstAbove(exports, since, QueryLimit(limit), ids);
    hide Above;
    assert ListSince(exports, since, limit) == if |ids| <= QueryLimit(limit) then ids else ids[..QueryLimit(limit)];
  }

  lemma ListRecentIsSuffix(exports: set<int>, before: int, limit: int, x: int)
    ensures x in ListRecent(exports, before, limit) ==> x in Below(exports, before)
    ensures ListRecent(exports, before, limit) == [] ==> Below(exports, before) == {}
    ensures var r := ListRecent(exports, before, limit);
            r != [] && x in Below(exports, before) && x >= r[0] ==> x in r
  {
    hide Below;
    var ids, k := Ascending(Below(exports, before)), QueryLimit(limit);
    if x in Below(exports, before) && |ids| > k {
      var i :| 0 <= i < |ids| && ids[i] == x;
      if i >= |ids| - k {
        assert ids[|ids| - k..][i - (|ids| - k)] == x;
      }
    }
  }

  lemma ListRecentOrdered(exports: set<int>, before: int, limit: int)
    ensures |ListRecent(exports, before, limit)| <= QueryLimit(limit)
    ensures var r := ListRecent(exports, before, limit); forall i, j :: 0 <= i < j < |r| ==> r[i] < r[j]
  {
    hide Below, Ascending;
  }

  lemma ListSinceIsPrefix(exports: set<int>, since: int, limit: int, k: nat, x: int)
    requires k <= |ListSince(exports, since, limit)|
    ensures x in ListSince(exports, since, limit)[..k] ==> x in Above(exports, since)
    ensures var r := ListSince(exports, since, limit);
            k > 0 && x in Above(exports, since) && x <= r[k - 1] ==> x in r[..k]
    ensures k > 0 && x in ListSince(exports, since, limit)[..k] ==> x <= ListSince(exports, since, limit)[k - 1]
  {
    hide Above;
    var ids, r := Ascending(Above(exports, since)), ListSince(exports, since, limit);
    assert r[..k] == ids[..k];
    if x in Above(exports, since) && k > 0 && x <= r[k - 1] {
      var i :| 0 <= i < |ids| && ids[i] == x;
      assert i < k && ids[..k][i] == x;
    }
  }

  // ---------- one batch against the ledger of one peer

  /** The ids in the ledger after a batch. An id that is not positive or already present is skipped; when the
      cap is enforced, the batch stops once `room` new ids are in. */
  function Admit(seen: set<int>, ids: seq<int>, room: int, enforce: bool): (r: set<int>)
    ensures seen <= r
    ensures forall x :: x in r ==> x in seen || (x in ids && x > 0)
  {
    if ids == [] then seen
    else
      var n := |ids| - 1;
      var before := Admit(seen, ids[..n], room, enforce);
      if (enforce && |before| - |seen| >= room) || ids[n] <= 0 then before else before + {ids[n]}
  }

  lemma {:induction false} AdmitStaysInRoom(seen: set<int>, ids: seq<int>, room: int, enforce: bool)
    ensures enforce ==> |Admit(seen, ids, room, enforce)| <= |seen| + (if room < 0 then 0 else room)
    ensures |Admit(seen, ids, room, enforce)| <= |seen| + |ids|
  {
    if ids != [] {
      AdmitStaysInRoom(seen, ids[..|ids| - 1], room, enforce);
    }
  }

  lemma AdmitOneMore(seen: set<int>, ids: seq<int>, n: nat, room: int, enforce: bool)
    requires n < |ids|
    ensures var before := Admit(seen, ids[..n], room, enforce);
            Admit(seen, ids[..n + 1], room, enforce) ==
            if (enforce && |before| - |seen| >= room) || ids[n] <= 0 then before else before + {ids[n]}
  {
    assert ids[..n + 1][..n] == ids[..n];
  }

  /** Once the room is used up the rest of the batch changes nothing: this is the source's break. */
  lemma {:induction false} AdmitStops(seen: set<int>, ids: seq<int>, room: int, k: nat, n: nat)
    requires k <= n <= |ids| && |Admit(seen, ids[..k], room, true)| - |seen| >= room
    ensures Admit(seen, ids[..n], room, true) == Admit(seen, ids[..k], room, true)
  {
    hide Admit;
    if k < n {
      AdmitStops(seen, ids, room, k, n - 1);
      AdmitOneMore(seen, ids, n - 1, room, true);
    }
  }

  ghost predicate Positive(ids: seq<int>) {
    forall x :: x in ids ==> x > 0
  }

  lemma {:induction false} AdmitAll(seen: set<int>, ids: seq<int>, room: int, enforce: bool)
    requires Positive(ids) && (enforce ==> |ids| <= room)
    ensures Admit(seen, ids, room, enforce) == seen + Elements(ids)
  {
    if ids == [] {
      assert Elements(ids) == {};
    } else {
      var n := |ids| - 1;
      AdmitStaysInRoom(seen, ids[..n], room, enforce);
      AdmitOneMore(seen, ids, n, room, enforce);
      hide Admit;
      assert Positive(ids[..n]) by {
        forall x | x in ids[..n] ensures x > 0 {
          assert x in ids;
        }
      }
      AdmitAll(seen, ids[..n], room, enforce);
      assert ids[..n + 1] == ids == ids[..n] + [ids[n]];
      assert Elements(ids) == Elements(ids[..n]) + {ids[n]};
    }
  }

  // ---------- an error-free backfill run against a fixed export list

  function MinId(ids: seq<int>): (m: int)
    requires ids != []
    ensures m in ids && forall x :: x in ids ==> m <= x
  {
    if |ids| == 1 then ids[0]
    else
      var n := |ids| - 1;
      var m := MinId(ids[..n]);
      assert ids == ids[..n] + [ids[n]];
      if ids[n] < m then ids[n] else m
  }

  function BackfillRun(seen: set<int>, exports: set<int>, importCap: nat, before: nat): set<int>
    requires forall x :: x in exports ==> x > 0
    decreases if before == 0 then 1 else 0, before
  {
    if |seen| >= importCap then seen
    else
      var room := importCap - |seen|;
      var batch := ListRecent(exports, before, ImportBatchLimit(room));
      if batch == [] then seen
      else
        var next := Admit(seen, batch, room, true);
        ListRecentIsSuffix(exports, before, ImportBatchLimit(room), MinId(batch));
        var nextBefore := MinId(batch);
        if before > 0 && nextBefore >= before then next
        else BackfillRun(next, exports, importCap, nextBefore)
  }

  /** One round of `BackfillRun`. */
  lemma BackfillRunStep(seen: set<int>, exports: set<int>, importCap: nat, before: nat)
    requires forall x :: x in exports ==> x > 0
    ensures var room := importCap - |seen|;
            var batch := ListRecent(exports, before, ImportBatchLimit(room));
            BackfillRun(seen, exports, importCap, before) ==
            if room <= 0 || batch == [] then seen
            else
              var next := Admit(seen, batch, room, true);
              if MinId(batch) <= 0 || (before > 0 && MinId(batch) >= before) then next
              else BackfillRun(next, exports, importCap, MinId(batch))
  {
    var batch := ListRecent(exports, before, ImportBatchLimit(importCap - |seen|));
    hide ListRecent, Admit;
    if batch != [] {
      ListRecentIsSuffix(exports, before, ImportBatchLimit(importCap - |seen|), MinId(batch));
    }
  }

  lemma BackfillBatch(seen: set<int>, exports: set<int>, room: nat, before: nat)
    requires room > 0 && forall x :: x in exports ==> x > 0
    requires before > 0 ==> forall x :: x in exports && x >= before ==> x in seen
    ensures var batch := ListRecent(exports, before, ImportBatchLimit(room));
            && Admit(seen, batch, room, true) == seen + Elements(batch)
            && Elements(batch) <= exports
            && (batch == [] ==> exports <= seen)
            && (batch != [] && before > 0 ==> MinId(batch) < before)
            && (batch != [] ==> forall x :: x in exports && x >= MinId(batch) ==> x in seen + Elements(batch))
  {
    var limit := ImportBatchLimit(room);
    var batch := ListRecent(exports, before, limit);
    hide ListRecent;
    forall x ensures x in batch ==> x in Below(exports, before) {
      ListRecentIsSuffix(exports, before, limit, x);
    }
    ListRecentOrdered(exports, before, limit);
    AdmitAll(seen, batch, room, true);
    if batch == [] {
      ListRecentIsSuffix(exports, before, limit, 0);
      forall x | x in exports ensures x in seen {
        assert x !in Below(exports, before);
      }
    } else {
      assert batch[0] <= MinId(batch);
      forall x | x in exports && x >= MinId(batch) ensures x in seen + Elements(batch) {
        ListRecentIsSuffix(exports, before, limit, x);
      }
    }
  }

  lemma BatchIsExported(batch: seq<int>, exports: set<int>)
    requires batch != [] && Elements(batch) <= exports
    ensures MinId(batch) in exports
  {
    assert MinId(batch) in Elements(batch);
  }

  /** The ledger `r` is filled exactly to the cap or holds everything exportable, and what it has beyond `seen` is a
      newest-first suffix: every exportable id above an added one is in it too. */
  ghost predicate FilledOrFinished(seen: set<int>, exports: set<int>, importCap: nat, r: set<int>) {
    && seen <= r <= seen + exports
    && (|r| == importCap || exports <= r)
    && |r| <= importCap
    && forall a, b :: a in r && a !in seen && b in exports && a <= b ==> b in r
  }

  lemma OneBatchBefore(seen: set<int>, batch: seq<int>, exports: set<int>, importCap: nat, r: set<int>)
    requires batch != [] && Elements(batch) <= exports
    requires forall x :: x in exports && x >= MinId(batch) ==> x in seen + Elements(batch)
    requires FilledOrFinished(seen + Elements(batch), exports, importCap, r)
    ensures FilledOrFinished(seen, exports, importCap, r)
  {
    forall a, b | a in r && a !in seen && b in exports && a <= b ensures b in r {
      if a in Elements(batch) {
        assert MinId(batch) <= a;
      }
    }
  }

  /** A finished run has either filled the ledger exactly to the cap or imported everything exportable, newest first. */
  lemma {:induction false} BackfillFillsOrFinishes(seen: set<int>, exports: set<int>, importCap: nat, before: nat)
    requires (forall x :: x in exports ==> x > 0) && |seen| <= importCap
    requires before > 0 ==> forall x :: x in exports && x >= before ==> x in seen
    ensures FilledOrFinished(seen, exports, importCap, BackfillRun(seen, exports, importCap, before))
    decreases if before == 0 then 1 else 0, before
  {
    BackfillRunStep(seen, exports, importCap, before);
    hide BackfillRun, ListRecent, Admit, ImportBatchLimit;
    if |seen| < importCap {
      var room := importCap - |seen|;
      var batch := ListRecent(exports, before, ImportBatchLimit(room));
      BackfillBatch(seen, exports, room, before);
      AdmitStaysInRoom(seen, batch, room, true);
      if batch != [] {
        hide FilledOrFinished;
        BatchIsExported(batch, exports);
        var next := seen + Elements(batch);
        BackfillFillsOrFinishes(next, exports, importCap, MinId(batch));
        OneBatchBefore(seen, batch, exports, importCap, BackfillRun(next, exports, importCap, MinId(batch)));
      }
    }
  }

  // ---------- when backfill ends

  datatype BackfillState = Running(seen: set<int>, cursor: int) | Finished(seen: set<int>)

  /** One round of the loop with an answer of any kind; `ids` are the answered calls' ids. */
  function BackfillRound(st: BackfillState, ids: seq<int>, importCap: nat): BackfillState {
    if st.Finished? || |st.seen| >= importCap || ids == [] then Finished(st.seen)
    else
      var next := Admit(st.seen, ids, importCap - |st.seen|, true);
      if st.cursor > 0 && MinId(ids) >= st.cursor then Finished(next) else Running(next, MinId(ids))
  }

  function BackfillRounds(st: BackfillState, ids: seq<int>, importCap: nat, n: nat): BackfillState {
    if n == 0 then st else BackfillRound(BackfillRounds(st, ids, importCap, n - 1), ids, importCap)
  }

  function PositiveIds(ids: seq<int>): set<int> {
    set x | x in ids && x > 0
  }

  lemma PositiveIdsAppend(ids: seq<int>, x: int)
    ensures PositiveIds(ids + [x]) == if x > 0 then PositiveIds(ids) + {x} else PositiveIds(ids)
  {
  }

  lemma UnionSize(a: set<int>, b: set<int>)
    ensures |a + b| == |a| + |b - a|
  {
    assert a + b == a + (b - a);
  }

  lemma OneMoreSize(seen: set<int>, s: set<int>, x: int)
    ensures |s + {x} - seen| == |s - seen| + if x in seen || x in s then 0 else 1
  {
    if x in seen || x in s {
      assert s + {x} - seen == s - seen;
    } else {
      assert s + {x} - seen == s - seen + {x};
    }
  }

  /** The ledger `r` holds `seen` and all of `offered`, or the offered ids have filled the room exactly. */
  ghost predicate FillsOrAddsAll(seen: set<int>, offered: set<int>, r: set<int>, room: nat) {
    && (|offered - seen| <= room ==> r == seen + offered)
    && (|offered - seen| >= room ==> |r| == |seen| + room)
  }

  lemma OneMoreOffer(seen: set<int>, offered: set<int>, r: set<int>, room: nat, x: int)
    requires FillsOrAddsAll(seen, offered, r, room)
    ensures FillsOrAddsAll(seen, offered + {x}, if |r| - |seen| >= room then r else r + {x}, room)
  {
    OneMoreSize(seen, offered, x);
    UnionSize(seen, offered);
    if |r| - |seen| < room {
      assert r + {x} == seen + (offered + {x});
      UnionSize(seen, offered + {x});
    } else if |offered - seen| == room && x in seen + offered {
      assert seen + (offered + {x}) == seen + offered;
    }
  }

  /** A capped batch adds every positive id of the batch, or fills the room exactly. */
  lemma {:induction false} AdmitFillsOrAddsAll(seen: set<int>, ids: seq<int>, room: nat)
    ensures FillsOrAddsAll(seen, PositiveIds(ids), Admit(seen, ids, room, true), room)
  {
    if ids == [] {
      assert PositiveIds(ids) == {};
      assert seen + {} == seen;
    } else {
      var n := |ids| - 1;
      AdmitFillsOrAddsAll(seen, ids[..n], room);
      AdmitOneMore(seen, ids, n, room, true);
      assert ids[..n + 1] == ids == ids[..n] + [ids[n]];
      PositiveIdsAppend(ids[..n], ids[n]);
      hide Admit, PositiveIds, FillsOrAddsAll;
      OneMoreOffer(seen, PositiveIds(ids[..n]), Admit(seen, ids[..n], room, true), room, ids[n]);
    }
  }

  lemma {:induction false} StaleAnswerRepeats(seen: set<int>, ids: seq<int>, importCap: nat, n: nat)
    requires ids != [] && MinId(ids) <= 0 && |PositiveIds(ids) - seen| < importCap - |seen|
    ensures BackfillRounds(Running(seen, 0), ids, importCap, n) ==
            if n == 0 then Running(seen, 0) else Running(seen + PositiveIds(ids), MinId(ids))
  {
    hide Admit, MinId, PositiveIds;
    if n > 0 {
      StaleAnswerRepeats(seen, ids, importCap, n - 1);
      var all := seen + PositiveIds(ids);
      UnionSize(seen, PositiveIds(ids));
      assert PositiveIds(ids) - all == {} && all + PositiveIds(ids) == all;
      AdmitFillsOrAddsAll(seen, ids, importCap - |seen|);
      AdmitFillsOrAddsAll(all, ids, importCap - |all|);
    }
  }

  lemma SecondRoundEnds(seen: set<int>, ids: seq<int>, importCap: nat)
    requires ids != [] && |seen| < importCap && (MinId(ids) > 0 || |PositiveIds(ids) - seen| >= importCap - |seen|)
    ensures BackfillRounds(Running(seen, 0), ids, importCap, 2).Finished?
  {
    AdmitFillsOrAddsAll(seen, ids, importCap - |seen|);
    hide Admit, MinId, PositiveIds;
    assert BackfillRounds(Running(seen, 0), ids, importCap, 0) == Running(seen, 0);
    assert BackfillRounds(Running(seen, 0), ids, importCap, 1) == BackfillRound(Running(seen, 0), ids, importCap);
  }

  /** A remote that answers every request with the same batch is left alone after finitely many rounds if and only if
      every id in the batch is positive, or the positive ones fill the room under the cap: an id of 0 or less becomes
      the cursor, and such a cursor asks from the newest call again. */
  lemma ConstantAnswerEndsIff(seen: set<int>, ids: seq<int>, importCap: nat)
    ensures (exists n: nat :: BackfillRounds(Running(seen, 0), ids, importCap, n).Finished?) <==>
            Positive(ids) || |PositiveIds(ids) - seen| >= importCap - |seen|
  {
    hide Admit, PositiveIds;
    if ids == [] || |seen| >= importCap {
      assert BackfillRounds(Running(seen, 0), ids, importCap, 0) == Running(seen, 0);
      assert BackfillRounds(Running(seen, 0), ids, importCap, 1).Finished?;
    } else {
      assert MinId(ids) in ids;
      assert Positive(ids) <==> MinId(ids) > 0;
      if MinId(ids) > 0 || |PositiveIds(ids) - seen| >= importCap - |seen| {
        SecondRoundEnds(seen, ids, importCap);
      } else {
        forall n: nat ensures BackfillRounds(Running(seen, 0), ids, importCap, n).Running? {
          StaleAnswerRepeats(seen, ids, importCap, n);
        }
      }
    }
  }

  /** The failing input: a remote that always answers one call with id 0. */
  lemma ZeroIdNeverEnds(seen: set<int>, importCap: nat, n: nat)
    requires |seen| < importCap
    ensures BackfillRounds(Running(seen, 0), [0], importCap, n).Running?
  {
    assert 0 in [0] && PositiveIds([0]) == {};
    ConstantAnswerEndsIff(seen, [0], importCap);
  }

  // ---------- live pulls

  function MaxId(s: set<int>): (m: int)
    ensures m >= 0 && (m in s || m == 0) && forall x :: x in s ==> x <= m
  {
    var ids := Ascending(s);
    if ids == [] || ids[|ids| - 1] < 0 then 0 else ids[|ids| - 1]
  }

  /** `last` is the largest id the remote hub has ever given out; `passed` remembers the ids that were not exportable
      when a pull moved the cursor past them. */
  datatype LiveState = LiveState(last: nat, exports: set<int>, seen: set<int>, passed: set<int>)

  /** The remote stores a new exportable call; an older stored call becomes exportable, as its source is shared or
      enabled; a call stops being exportable or is deleted; the local hub pulls and gets through `done` calls. */
  datatype LiveStep = Publish(id: int) | Share(id: int) | Withdraw(id: int) | Pull(done: nat)

  function PullLive(seen: set<int>, exports: set<int>, done: nat): set<int> {
    var batch := ListSince(exports, MaxId(seen), ImportBatchLimit(100));
    Admit(seen, batch[..if done < |batch| then done else |batch|], 0, false)
  }

  function LiveNext(st: LiveState, step: LiveStep): LiveState {
    match step
    case Publish(id) => if id > st.last then st.(last := id, exports := st.exports + {id}) else st
    case Share(id) => if 0 < id <= st.last then st.(exports := st.exports + {id}) else st
    case Withdraw(id) => st.(exports := st.exports - {id})
    case Pull(done) =>
      var next := PullLive(st.seen, st.exports, done);
      st.(seen := next,
          passed := st.passed + set x | MaxId(st.seen) < x <= MaxId(next) && x !in st.exports)
  }

  function LiveRun(st: LiveState, steps: seq<LiveStep>): LiveState {
    if steps == [] then st else LiveNext(LiveRun(st, steps[..|steps| - 1]), steps[|steps| - 1])
  }

  ghost predicate WithinLast(st: LiveState) {
    (forall x :: x in st.exports ==> 0 < x <= st.last) && (forall x :: x in st.seen ==> 0 < x <= st.last)
  }

  /** Every exportable id between the starting cursor and the present one is in the ledger. */
  ghost predicate NoHoles(st: LiveState, start: int) {
    forall x :: x in st.exports && start < x <= MaxId(st.seen) ==> x in st.seen
  }

  /** Between the starting cursor and the present one, an id is in the ledger unless it was passed while it was not
      exportable. */
  ghost predicate MissingIsPassed(st: LiveState, start: int) {
    && (forall x :: x in st.passed ==> start < x <= MaxId(st.seen))
    && (forall x :: start < x <= MaxId(st.seen) ==> (x in st.seen <==> x !in st.passed))
  }

  lemma PullLiveAdds(seen: set<int>, exports: set<int>, done: nat)
    requires forall x :: x in exports ==> x > 0
    ensures var r := PullLive(seen, exports, done);
            && seen <= r <= seen + exports
            && MaxId(seen) <= MaxId(r)
            && (forall x :: x in r && x !in seen ==> x > MaxId(seen))
            && forall x :: x in exports && MaxId(seen) < x <= MaxId(r) ==> x in r
  {
    hide MaxId, ListSince, Admit;
    var m := MaxId(seen);
    var batch := ListSince(exports, m, ImportBatchLimit(100));
    var k := if done < |batch| then done else |batch|;
    var r := PullLive(seen, exports, done);
    forall x ensures x in batch[..k] ==> x in Above(exports, m) {
      ListSinceIsPrefix(exports, m, ImportBatchLimit(100), k, x);
    }
    AdmitAll(seen, batch[..k], 0, false);
    assert r == seen + Elements(batch[..k]);
    assert MaxId(seen) in seen ==> MaxId(seen) in r;
    forall x | x in exports && m < x <= MaxId(r) ensures x in r {
      ListSinceIsPrefix(exports, m, ImportBatchLimit(100), k, x);
      ListSinceIsPrefix(exports, m, ImportBatchLimit(100), k, MaxId(r));
    }
  }

  /** A live pull that gets through its whole answer adds exactly the first 100 exportable ids above the cursor. */
  lemma WholePull(seen: set<int>, exports: set<int>, done: nat)
    requires (forall x :: x in exports ==> x > 0) && done >= |ListSince(exports, MaxId(seen), ImportBatchLimit(100))|
    ensures var pulled := ListSince(exports, MaxId(seen), ImportBatchLimit(100));
            FirstAbove(exports, MaxId(seen), 100, pulled) && PullLive(seen, exports, done) == seen + Elements(pulled)
  {
    hide MaxId, ListSince, Admit;
    var pulled := ListSince(exports, MaxId(seen), ImportBatchLimit(100));
    ListSinceIs(exports, MaxId(seen), ImportBatchLimit(100));
    assert pulled[..|pulled|] == pulled;
    AdmitAll(seen, pulled, 0, false);
  }

  lemma LiveStepKeeps(st: LiveState, step: LiveStep, start: int)
    requires WithinLast(st) && MissingIsPassed(st, start) && start <= MaxId(st.seen)
    ensures var end := LiveNext(st, step);
            WithinLast(end) && MissingIsPassed(end, start) && start <= MaxId(end.seen)
  {
    hide MaxId, PullLive;
    match step
    case Publish(id) =>
      assert MaxId(st.seen) <= st.last;
    case Share(id) =>
    case Withdraw(id) =>
    case Pull(done) =>
      PullLiveAdds(st.seen, st.exports, done);
  }

  /** Over any number of live pulls, some failing part-way, while remote calls are stored, withdrawn and shared again:
      the cursor never moves back, and between the starting cursor and the present one exactly those ids are missing
      from the ledger that were not exportable when a pull passed them. So there are no holes if and only if none of
      those is exportable now. */
  lemma {:induction false} LivePullsMissExactly(st: LiveState, steps: seq<LiveStep>)
    requires WithinLast(st) && st.passed == {}
    ensures var end, start := LiveRun(st, steps), MaxId(st.seen);
            && WithinLast(end) && start <= MaxId(end.seen) && MissingIsPassed(end, start)
            && (NoHoles(end, start) <==> end.exports !! end.passed)
  {
    if steps != [] {
      hide MaxId, LiveNext;
      LivePullsMissExactly(st, steps[..|steps| - 1]);
      LiveStepKeeps(LiveRun(st, steps[..|steps| - 1]), steps[|steps| - 1], MaxId(st.seen));
    }
    HolesAreShared(LiveRun(st, steps), MaxId(st.seen));
  }

  lemma HolesAreShared(st: LiveState, start: int)
    requires MissingIsPassed(st, start)
    ensures NoHoles(st, start) <==> st.exports !! st.passed
  {
    hide MaxId;
    if NoHoles(st, start) {
      forall x | x in st.exports ensures x !in st.passed {
        assert x in st.passed ==> start < x <= MaxId(st.seen);
      }
    }
  }

  ghost predicate NothingShared(steps: seq<LiveStep>) {
    forall step :: step in steps ==> !step.Share?
  }

  /** When nothing is shared again, no exportable id is ever skipped. */
  lemma LivePullsLeaveNoHoles(st: LiveState, steps: seq<LiveStep>)
    requires WithinLast(st) && st.passed == {}
    ensures var end := LiveRun(st, steps);
            && MaxId(st.seen) <= MaxId(end.seen)
            && (NothingShared(steps) ==> NoHoles(end, MaxId(st.seen)))
  {
    LivePullsMissExactly(st, steps);
    if NothingShared(steps) {
      PassedStaysHidden(st, steps);
    }
  }

  lemma HiddenStep(st: LiveState, step: LiveStep, start: int)
    requires WithinLast(st) && MissingIsPassed(st, start) && st.exports !! st.passed && !step.Share?
    ensures LiveNext(st, step).exports !! LiveNext(st, step).passed
  {
    hide PullLive;
    match step
    case Publish(id) =>
      assert MaxId(st.seen) <= st.last;
      hide MaxId;
    case Withdraw(id) =>
    case Pull(done) =>
  }

  lemma {:induction false} PassedStaysHidden(st: LiveState, steps: seq<LiveStep>)
    requires WithinLast(st) && st.passed == {} && NothingShared(steps)
    ensures LiveRun(st, steps).exports !! LiveRun(st, steps).passed
  {
    if steps != [] {
      var before, last := steps[..|steps| - 1], steps[|steps| - 1];
      assert last in steps && NothingShared(before);
      PassedStaysHidden(st, before);
      LivePullsMissExactly(st, before);
      hide MaxId, LiveNext, MissingIsPassed, NoHoles, NothingShared;
      HiddenStep(LiveRun(st, before), last, MaxId(st.seen));
    }
  }

  /** A call that the remote stores reaches the ledger with the next whole pull, unless 100 others come before it. */
  lemma PublishedIsPulled(st: LiveState, id: int, done: nat)
    requires WithinLast(st) && id > st.last && done >= 100
    requires |set x | x in st.exports && x > MaxId(st.seen)| < 100
    ensures id in LiveNext(LiveNext(st, Publish(id)), Pull(done)).seen
  {
    var exports, cursor := LiveNext(st, Publish(id)).exports, MaxId(st.seen);
    assert cursor <= st.last;
    var before := set y | y in exports && cursor < y < id;
    SubsetSize(before, set x | x in st.exports && x > cursor);
    hide MaxId, PullLive, ListSince;
    var pulled := ListSince(exports, cursor, ImportBatchLimit(100));
    ListSinceIs(exports, cursor, ImportBatchLimit(100));
    LeftOutIff(exports, cursor, 100, pulled, id);
    WholePull(st.seen, exports, done);
  }

  /** A call withdrawn before a pull is not imported by it. */
  lemma WithdrawnIsNotPulled(st: LiveState, id: int, done: nat)
    requires WithinLast(st) && id !in st.seen
    ensures id !in LiveNext(LiveNext(st, Withdraw(id)), Pull(done)).seen
  {
    PullLiveAdds(st.seen, st.exports - {id}, done);
    hide MaxId, PullLive;
  }

  /** The failing input: call 2 is pulled while call 1 is not shared; once call 1 is shared it is missing. */
  lemma SharedAgainIsMissed()
    ensures var end := LiveRun(LiveState(2, {2}, {}, {}), [Pull(1), Share(1)]);
            1 in end.exports && 1 <= MaxId(end.seen) && 1 !in end.seen
  {
    var st := LiveState(2, {2}, {}, {});
    assert MaxId({}) == 0;
    var batch := ListSince({2}, 0, ImportBatchLimit(100));
    assert Above({2}, 0) == {2};
    assert |Ascending({2})| == 1 && Ascending({2})[0] == 2 by {
      assert Ascending({2})[0] in {2};
    }
    assert batch[..1] == [2];
    AdmitAll({}, [2], 0, false);
    assert Elements([2]) == {2};
    assert PullLive({}, {2}, 1) == {2};
    assert [Pull(1), Share(1)][..1] == [Pull(1)] && [Pull(1)][..0] == [];
    assert LiveRun(st, [Pull(1)]) == LiveNext(st, Pull(1));
    hide PullLive;
    assert 2 in {2};
  }
}
