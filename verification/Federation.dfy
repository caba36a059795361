/** The pulling hub: its tables, one import, one batch, backfill, live pull and removal of a peer's imports
    (server/internal/api/federation.go, server/internal/database/calls.go, hub_identity.go).

    Every database statement and every fetch may fail; a failure is a nondeterministic choice. */
module Federation {
  import opened Ordering
  import opened SqlLike
  import opened Text
  import opened SourceIds
  import opened FederationSpec

  /** The columns an import copies as they are. */
  datatype CallInfo = CallInfo(dateTime: int, system: int, systemLabel: string, talkgroup: int, talkgroupLabel: string,
                               talkgroupGroup: string, talkgroupTag: string, frequency: int, duration: real,
                               audioName: string, audioType: string, origin: string, senderUserId: string)

  /** The base64 text of a remote call's audio either decodes or does not. */
  datatype AudioText = Decodes(audio: seq<bv8>) | Malformed

  datatype RemoteCall = RemoteCall(id: int, source: string, callSourceId: string, info: CallInfo, audio: AudioText)

  datatype SourceInfo = SourceInfo(systemId: int, systemLabel: string, lastSeen: int, errorCount: int,
                                    callsReceived: int)

  const NO_INFO := SourceInfo(0, "", 0, 0, 0)

  datatype RemoteSource = RemoteSource(id: string, title: string, info: SourceInfo)

  datatype Payload = Payload(sources: seq<RemoteSource>, calls: seq<RemoteCall>)

  datatype Response = Unavailable | Answer(payload: Payload)

  /** What a remote hub answers to (cursor, limit) the n-th time it is asked: anything at all. */
  type Remote = (int, int, nat) -> Response

  datatype Peer = Peer(hubId: string, name: string)

  /** An empty owner stands for NULL. */
  datatype Row = Row(owner: string, sourceId: string, info: CallInfo, audio: seq<bv8>)

  datatype Source = Source(owner: string, title: string, enabled: bool, isShared: bool, deletedAt: int,
                           info: SourceInfo)

  datatype ImportKey = ImportKey(peer: string, remoteId: int)

  datatype ImportResult = Inserted | Skipped | Failed

  function Ids(calls: seq<RemoteCall>): (ids: seq<int>)
    ensures |ids| == |calls| && forall i :: 0 <= i < |calls| ==> ids[i] == calls[i].id
  {
    seq(|calls|, i requires 0 <= i < |calls| => calls[i].id)
  }

  function CallSourceId(item: RemoteCall): string {
    var source := TrimSpace(item.source);
    if source == "" then TrimSpace(item.callSourceId) else source
  }

  function SourceLabel(source: RemoteSource): string {
    var title := TrimSpace(source.title);
    if title == "" then source.id else title
  }

  /** A call without an origin came over the radio. */
  function StoredInfo(info: CallInfo): CallInfo {
    if info.origin == "" then info.(origin := "rf") else info
  }

  function ImportedRow(peer: Peer, item: RemoteCall): Row
    requires item.audio.Decodes?
  {
    Row("", FederatedSourceId(peer.hubId, CallSourceId(item)), StoredInfo(item.info), item.audio.audio)
  }

  /** An unowned copy of the remote call's columns and audio under the prefixed id of its source, which the answer gives
      beside the call or, when that is blank, in it; an empty origin becomes "rf". */
  ghost predicate IsCopyOf(row: Row, peer: Peer, item: RemoteCall) {
    && item.audio.Decodes? && row.audio == item.audio.audio && row.owner == ""
    && row.sourceId == FederatedSourceId(peer.hubId, if TrimSpace(item.source) != "" then TrimSpace(item.source)
                                                     else TrimSpace(item.callSourceId))
    && row.info == item.info.(origin := if item.info.origin == "" then "rf" else item.info.origin)
  }

  lemma ImportedRowIs(peer: Peer, item: RemoteCall)
    requires item.audio.Decodes?
    ensures IsCopyOf(ImportedRow(peer, item), peer, item)
    ensures ImportedRow(peer, item) ==
            Row("", FederatedSourceId(peer.hubId, CallSourceId(item)), StoredInfo(item.info), item.audio.audio)
  {
    hide TrimSpace, FederatedSourceId;
  }

  /** The remote ids a peer's ledger rows hold; (peer, remote id) is the table's primary key. */
  function ImportedIds(ledger: map<ImportKey, int>, peer: string): set<int> {
    set k | k in ledger && k.peer == peer :: k.remoteId
  }

  lemma ImportedIdsMember(ledger: map<ImportKey, int>, peer: string, id: int)
    ensures id in ImportedIds(ledger, peer) <==> ImportKey(peer, id) in ledger
  {
  }

  lemma ImportedIdsRecord(ledger: map<ImportKey, int>, key: ImportKey, local: int, peer: string)
    ensures ImportedIds(ledger[key := local], peer) ==
            if key.peer == peer then ImportedIds(ledger, peer) + {key.remoteId} else ImportedIds(ledger, peer)
  {
    forall id ensures id in ImportedIds(ledger[key := local], peer) <==>
        id in ImportedIds(ledger, peer) || (key.peer == peer && id == key.remoteId)
    {
      ImportedIdsMember(ledger[key := local], peer, id);
      ImportedIdsMember(ledger, peer, id);
    }
  }

  /** INSERT ... ON CONFLICT (id) DO UPDATE without an owner: an existing owner stays, a deleted source comes back. */
  function WithSource(sources: map<string, Source>, id: string, title: string, info: SourceInfo): map<string, Source> {
    sources[id := Source(if id in sources then sources[id].owner else "", title, true, false, 0, info)]
  }

  /** IncrementSourceMetrics of a successful import at time `now`. */
  function Counted(sources: map<string, Source>, id: string, now: int): map<string, Source> {
    if id in sources then
      var s := sources[id];
      sources[id := s.(info := s.info.(callsReceived := s.info.callsReceived + 1, lastSeen := now, errorCount := 0))]
    else sources[id := Source("", "", true, false, 0, SourceInfo(0, "", now, 0, 1))]
  }

  function WithRemoteSources(sources: map<string, Source>, peer: Peer, added: seq<RemoteSource>): map<string, Source> {
    if added == [] then sources
    else
      var last := added[|added| - 1];
      WithSource(WithRemoteSources(sources, peer, added[..|added| - 1]), FederatedSourceId(peer.hubId, last.id),
                 peer.name + " / " + SourceLabel(last), last.info)
  }

  /** No later source of the list has the same local id. */
  ghost predicate LastOfItsId(peer: Peer, added: seq<RemoteSource>, i: nat)
    requires i < |added|
  {
    forall j :: i < j < |added| ==>
      FederatedSourceId(peer.hubId, added[j].id) != FederatedSourceId(peer.hubId, added[i].id)
  }

  /** An offered source is there under its prefixed id, enabled, unshared and not deleted, titled with the peer's name
      and its own title (or its id, when the title is blank), with its own system and metrics and the earlier owner. */
  ghost predicate UpsertedAs(before: map<string, Source>, after: map<string, Source>, peer: Peer, s: RemoteSource) {
    var id := FederatedSourceId(peer.hubId, s.id);
    && id in after
    && after[id].owner == (if id in before then before[id].owner else "")
    && after[id].title == peer.name + " / " + (if TrimSpace(s.title) == "" then s.id else TrimSpace(s.title))
    && after[id].enabled && !after[id].isShared && after[id].deletedAt == 0 && after[id].info == s.info
  }

  lemma {:induction false} OwnerKept(sources: map<string, Source>, peer: Peer, added: seq<RemoteSource>, id: string)
    ensures var after := WithRemoteSources(sources, peer, added);
            && (id in sources ==> id in after && after[id].owner == sources[id].owner)
            && (id !in sources && id in after ==> after[id].owner == "")
  {
    hide FederatedSourceId, SourceLabel;
    if added != [] {
      OwnerKept(sources, peer, added[..|added| - 1], id);
    }
  }

  lemma {:induction false} LastOnesUpserted(sources: map<string, Source>, peer: Peer, added: seq<RemoteSource>)
    ensures forall i :: 0 <= i < |added| && LastOfItsId(peer, added, i) ==>
              UpsertedAs(sources, WithRemoteSources(sources, peer, added), peer, added[i])
  {
    forall i | 0 <= i < |added| && LastOfItsId(peer, added, i)
      ensures UpsertedAs(sources, WithRemoteSources(sources, peer, added), peer, added[i])
    {
      LastOneUpserted(sources, peer, added, i);
    }
  }

  lemma {:induction false} LastOneUpserted(sources: map<string, Source>, peer: Peer, added: seq<RemoteSource>, i: nat)
    requires i < |added| && LastOfItsId(peer, added, i)
    ensures UpsertedAs(sources, WithRemoteSources(sources, peer, added), peer, added[i])
  {
    hide FederatedSourceId, TrimSpace;
    var n := |added| - 1;
    var id := FederatedSourceId(peer.hubId, added[i].id);
    if i < n {
      assert LastOfItsId(peer, added[..n], i);
      LastOneUpserted(sources, peer, added[..n], i);
      assert FederatedSourceId(peer.hubId, added[n].id) != id;
    } else {
      OwnerKept(sources, peer, added[..n], id);
    }
  }

  /** Rows are only added, for one peer only. */
  ghost predicate GrowsFor(before: map<ImportKey, int>, after: map<ImportKey, int>, peer: string) {
    && (forall k :: k in before ==> k in after && after[k] == before[k])
    && (forall k :: k in after && k !in before ==> k.peer == peer)
  }

  /** What an import leaves alone: old call rows, and sources without the prefix; new call rows carry the prefix. */
  ghost predicate LocalKept(calls: map<int, Row>, callsAfter: map<int, Row>,
                            sources: map<string, Source>, sourcesAfter: map<string, Source>) {
    && (forall id :: id in calls ==> id in callsAfter && callsAfter[id] == calls[id])
    && (forall id :: id in callsAfter && id !in calls ==> Like(REMOTE_PATTERN, callsAfter[id].sourceId))
    && (forall s :: !Like(REMOTE_PATTERN, s) ==> (s in sources <==> s in sourcesAfter)
                                                 && (s in sources ==> sourcesAfter[s] == sources[s]))
  }

  /** Every ledger row was published exactly once. */
  ghost predicate PublishedOnce(ledger: map<ImportKey, int>, published: seq<ImportKey>) {
    && (forall i, j :: 0 <= i < j < |published| ==> published[i] != published[j])
    && (forall k :: k in ledger <==> k in published)
  }

  /** The tables an import changes. */
  datatype Tables = Tables(ledger: map<ImportKey, int>, published: seq<ImportKey>, calls: map<int, Row>,
                           sources: map<string, Source>)

  /** What any import, batch or sync of one peer keeps, whatever fails: the ledger only grows, for that peer only; if
      every ledger row was published exactly once, so it is afterwards; nothing local is touched. */
  ghost predicate Imports(before: Tables, after: Tables, peer: string) {
    && GrowsFor(before.ledger, after.ledger, peer)
    && (PublishedOnce(before.ledger, before.published) ==> PublishedOnce(after.ledger, after.published))
    && LocalKept(before.calls, after.calls, before.sources, after.sources)
  }

  /** An import of one peer leaves the ids imported from the others alone. */
  lemma OtherPeersKept(before: Tables, after: Tables, peer: string)
    requires Imports(before, after, peer)
    ensures forall other :: other != peer ==> ImportedIds(after.ledger, other) == ImportedIds(before.ledger, other)
  {
    hide LocalKept, PublishedOnce;
    forall other | other != peer ensures ImportedIds(after.ledger, other) == ImportedIds(before.ledger, other) {
      forall id ensures id in ImportedIds(after.ledger, other) <==> id in ImportedIds(before.ledger, other) {
        ImportedIdsMember(before.ledger, other, id);
        ImportedIdsMember(after.ledger, other, id);
      }
    }
  }

  /** Call rows and sources were only removed, and only those that match. */
  ghost predicate OnlyMatchingGone(pattern: string, calls: map<int, Row>, callsAfter: map<int, Row>,
                                   sources: map<string, Source>, sourcesAfter: map<string, Source>) {
    && (forall id :: id in callsAfter ==> id in calls && callsAfter[id] == calls[id])
    && (forall id :: id in calls && id !in callsAfter ==> Like(pattern, calls[id].sourceId))
    && (forall s :: s in sourcesAfter ==> s in sources && sourcesAfter[s] == sources[s])
    && (forall s :: s in sources && s !in sourcesAfter ==> Like(pattern, s))
  }

  /** From its `calm`-th answer on, the remote answers positive ids only. */
  ghost predicate PositiveFrom(remote: Remote, calm: nat) {
    forall cursor, limit, n :: n >= calm && remote(cursor, limit, n).Answer? ==>
      forall i :: 0 <= i < |remote(cursor, limit, n).payload.calls| ==> remote(cursor, limit, n).payload.calls[i].id > 0
  }

  /** Every call of the payload that would be imported has audio that decodes. */
  ghost predicate Decodable(payload: Payload) {
    forall i :: 0 <= i < |payload.calls| ==> payload.calls[i].id <= 0 || payload.calls[i].audio.Decodes?
  }

  ghost predicate Sound(response: Response) {
    response.Answer? && Decodable(response.payload)
  }

  ghost predicate AlwaysSound(remote: Remote) {
    forall cursor, limit, n :: Sound(remote(cursor, limit, n))
  }

  /** A remote that answers backfill requests from a fixed set of exportable ids. */
  ghost predicate ServesRecent(remote: Remote, exports: set<int>) {
    forall cursor, limit, n :: remote(cursor, limit, n).Answer? ==>
      Ids(remote(cursor, limit, n).payload.calls) == ListRecent(exports, cursor, limit)
  }

  class PullingHub {
    /** Whether nothing the methods call ever fails. */
    const reliable: bool
    var calls: map<int, Row>
    var lastCallId: int
    var sources: map<string, Source>
    var ledger: map<ImportKey, int>
    /** Imports handed to the WebSocket hub and the stream hub, in order. */
    var published: seq<ImportKey>

    ghost predicate Valid()
      reads this`calls, this`lastCallId, this`ledger
    {
      && lastCallId >= 0
      && (forall id :: id in calls ==> 0 < id <= lastCallId)
      && (forall k :: k in ledger ==> ledger[k] in calls && k.remoteId > 0)
      && (forall k :: k in ledger ==> Like(REMOTE_PATTERN, calls[ledger[k]].sourceId))
    }

    ghost function All(): Tables
      reads this
    {
      Tables(ledger, published, calls, sources)
    }

    constructor (reliable: bool)
      ensures this.reliable == reliable && Valid() && ledger == map[] && published == [] && calls == map[]
    {
      this.reliable := reliable;
      calls, lastCallId, sources, ledger, published := map[], 0, map[], map[], [];
    }

    /** Whether the next statement or tool fails. */
    method Fails() returns (fails: bool)
      ensures reliable ==> !fails
    {
      fails := false;
      if * {
        fails := !reliable;
      }
    }

    /** INSERT INTO calls ... RETURNING id. */
    method InsertCall(row: Row) returns (ok: bool, id: int)
      requires Valid()
      modifies this`calls, this`lastCallId
      ensures Valid()
      ensures ok ==> id == lastCallId == old(lastCallId) + 1 && calls == old(calls)[id := row]
      ensures !ok ==> !reliable && lastCallId == old(lastCallId) && calls == old(calls)
    {
      var fails := Fails();
      if fails {
        return false, 0;
      }
      lastCallId := lastCallId + 1;
      id := lastCallId;
      calls := calls[id := row];
      ok := true;
    }

    /** INSERT ... ON CONFLICT (peer_hub_id, remote_call_id) DO NOTHING; reports whether a row was added. */
    method RecordFederatedCallImport(peerHubId: string, remoteCallId: int, localCallId: int)
        returns (ok: bool, inserted: bool)
      requires Valid() && remoteCallId > 0 && localCallId in calls
      requires Like(REMOTE_PATTERN, calls[localCallId].sourceId)
      modifies this`ledger
      ensures Valid() && (reliable ==> ok)
      ensures inserted <==> ok && ImportKey(peerHubId, remoteCallId) !in old(ledger)
      ensures ledger == if inserted then old(ledger)[ImportKey(peerHubId, remoteCallId) := localCallId] else old(ledger)
    {
      var fails := Fails();
      if fails {
        return false, false;
      }
      var key := ImportKey(peerHubId, remoteCallId);
      ok, inserted := true, key !in ledger;
      if inserted {
        ledger := ledger[key := localCallId];
      }
    }

    method UpsertIngestionSource(id: string, title: string, info: SourceInfo)
      modifies this`sources
      ensures sources == WithSource(old(sources), id, title, info)
      ensures forall s :: s != id ==>
                (s in sources <==> s in old(sources)) && (s in sources ==> sources[s] == old(sources)[s])
      ensures id in sources && sources[id] == Source(if id in old(sources) then old(sources)[id].owner else "", title,
                                                     true, false, 0, info)
    {
      var owner := if id in sources then sources[id].owner else "";
      sources := sources[id := Source(owner, title, true, false, 0, info)];
    }

    /** Its error is ignored by the caller. */
    method IncrementSourceMetrics(id: string, now: int)
      modifies this`sources
      ensures (!reliable && sources == old(sources)) || sources == Counted(old(sources), id, now)
      ensures forall s :: s != id ==>
                (s in sources <==> s in old(sources)) && (s in sources ==> sources[s] == old(sources)[s])
      ensures sources != old(sources) ==>
                && id in sources && sources[id].info.lastSeen == now && sources[id].info.errorCount == 0
                && if id !in old(sources) then sources[id].info.callsReceived == 1 && sources[id].enabled
                   else
                     && sources[id].info.callsReceived == old(sources)[id].info.callsReceived + 1
                     && sources[id] == old(sources)[id].(info := old(sources)[id].info.(
                          callsReceived := sources[id].info.callsReceived, lastSeen := now, errorCount := 0))
    {
      var fails := Fails();
      if fails {
        return;
      }
      if id in sources {
        var source := sources[id];
        var info := source.info;
        info := info.(callsReceived := info.callsReceived + 1, lastSeen := now, errorCount := 0);
        sources := sources[id := source.(info := info)];
      } else {
        sources := sources[id := Source("", "", true, false, 0, SourceInfo(0, "", now, 0, 1))];
      }
    }

    /** Every offered source becomes an enabled, unshared local source; on a failure the first `done` did. */
    method UpsertFederatedSources(peer: Peer, remoteSources: seq<RemoteSource>)
        returns (ok: bool, known: set<string>, ghost done: nat)
      modifies this`sources
      ensures done <= |remoteSources| && (ok ==> done == |remoteSources|) && (reliable ==> ok)
      ensures ok ==> known == set i | 0 <= i < |remoteSources| :: remoteSources[i].id
      ensures forall i :: 0 <= i < done && LastOfItsId(peer, remoteSources[..done], i) ==>
                UpsertedAs(old(sources), sources, peer, remoteSources[i])
      ensures sources == WithRemoteSources(old(sources), peer, remoteSources[..done])
    {
      hide FederatedSourceId, SourceLabel, WithSource;
      known, done := {}, 0;
      var i := 0;
      assert WithRemoteSources(sources, peer, remoteSources[..0]) == sources;
      while i < |remoteSources|
        invariant 0 <= i <= |remoteSources| && done == i
        invariant known == set j | 0 <= j < i :: remoteSources[j].id
        invariant sources == WithRemoteSources(old(sources), peer, remoteSources[..i])
      {
        var source := remoteSources[i];
        known := known + {source.id};
        var fails := Fails();
        if fails {
          LastOnesUpserted(old(sources), peer, remoteSources[..done]);
          return false, known, done;
        }
        UpsertIngestionSource(FederatedSourceId(peer.hubId, source.id), peer.name + " / " + SourceLabel(source),
                              source.info);
        i := i + 1;
        done := i;
        assert remoteSources[..i][..i - 1] == remoteSources[..i - 1];
      }
      assert remoteSources[..i] == remoteSources;
      ok := true;
      LastOnesUpserted(old(sources), peer, remoteSources[..done]);
    }

    method UpsertFallbackFederatedSource(peer: Peer, localSourceId: string) returns (ok: bool)
      modifies this`sources
      ensures sources == if ok then WithSource(old(sources), localSourceId, peer.name + " / remote source", NO_INFO)
                         else old(sources)
      ensures reliable ==> ok
    {
      var fails := Fails();
      if fails {
        return false;
      }
      UpsertIngestionSource(localSourceId, peer.name + " / remote source", NO_INFO);
      ok := true;
    }

    /** One call: the call row first, then the ledger row, then publication if the ledger row is new. A repeated or
        failed import can leave an extra call row; it never touches the ledger or publishes. */
    method ImportFederatedCall(peer: Peer, known: set<string>, item: RemoteCall, now: int)
        returns (result: ImportResult)
      requires Valid()
      modifies this
      ensures Valid()
      ensures result.Inserted? ==>
                var key := ImportKey(peer.hubId, item.id);
                && item.id > 0 && item.audio.Decodes? && key !in old(ledger)
                && calls == old(calls)[lastCallId := ImportedRow(peer, item)]
                && IsCopyOf(calls[lastCallId], peer, item)
                && ledger == old(ledger)[key := lastCallId]
                && published == old(published) + [key]
      ensures !result.Inserted? ==> ledger == old(ledger) && published == old(published)
      ensures result.Skipped? ==> item.id <= 0 || ImportKey(peer.hubId, item.id) in old(ledger)
      ensures item.id <= 0 ==> result.Skipped? && calls == old(calls) && sources == old(sources)
      ensures reliable && item.id > 0 ==> (result.Failed? <==> item.audio.Malformed?)
      ensures if item.id > 0 && item.audio.Decodes?
              then calls == old(calls)[old(lastCallId) + 1 := ImportedRow(peer, item)]
                   || (!reliable && calls == old(calls))
              else calls == old(calls)
      ensures var id := FederatedSourceId(peer.hubId, CallSourceId(item));
              var upserted := if CallSourceId(item) in known then old(sources)
                              else WithSource(old(sources), id, peer.name + " / remote source", NO_INFO);
              item.id > 0 ==>
              || (sources == upserted && !(reliable && result.Inserted?))
              || (sources == old(sources) && result.Failed? && !reliable)
              || (sources == Counted(upserted, id, now) && result.Inserted?)
    {
      hide FederatedSourceId, CallSourceId, Like, WithSource, Counted, IsCopyOf, ImportedRow, StoredInfo;
      var remoteCallId := item.id;
      if remoteCallId <= 0 {
        return Skipped;
      }
      var ok;
      var remoteSourceId := CallSourceId(item);
      var localSourceId := FederatedSourceId(peer.hubId, remoteSourceId);
      if remoteSourceId !in known {
        ok := UpsertFallbackFederatedSource(peer, localSourceId);
        if !ok {
          return Failed;
        }
      }
      if item.audio.Malformed? {
        return Failed;
      }
      var localCallId;
      ImportedRowIs(peer, item);
      ok, localCallId := InsertCall(Row("", localSourceId, StoredInfo(item.info), item.audio.audio));
      if !ok {
        return Failed;
      }
      ImportedIdsAreNeverExported(peer.hubId, remoteSourceId);
      var inserted;
      ok, inserted := RecordFederatedCallImport(peer.hubId, remoteCallId, localCallId);
      if !ok {
        return Failed;
      }
      if inserted {
        IncrementSourceMetrics(localSourceId, now);
        published := published + [ImportKey(peer.hubId, remoteCallId)];
      }
      result := if inserted then Inserted else Skipped;
    }

    /** A batch: `done` calls were processed before the end or the failure. */
    method ImportFederatedCalls(peer: Peer, payload: Payload, importCap: int, alreadyImported: int, enforceCap: bool,
                                now: int)
        returns (ok: bool, ghost done: nat)
      requires Valid()
      modifies this
      ensures Valid() && done <= |payload.calls| && (ok ==> done == |payload.calls|)
      ensures reliable && Decodable(payload) ==> ok
      ensures Imports(old(All()), All(), peer.hubId)
      ensures ImportedIds(ledger, peer.hubId) ==
              Admit(old(ImportedIds(ledger, peer.hubId)), Ids(payload.calls)[..done],
                    importCap - alreadyImported, enforceCap)
    {
      hide Admit, ImportedIds, Like, FederatedSourceId, CallSourceId, Imports,
        WithRemoteSources, ImportedRow, Ids, WithSource,
        Counted, Valid, SourceTouched, SourceLabel;
      done := 0;
      ghost var ids, room := Ids(payload.calls), importCap - alreadyImported;
      ghost var seen := ImportedIds(ledger, peer.hubId);
      assert Admit(seen, ids[..0], room, enforceCap) == seen by { AdmitNone(seen, room, enforceCap); }
      var known;
      ghost var upserted;
      ok, known, upserted := UpsertFederatedSources(peer, payload.sources);
      SourcesStep(old(All()), All(), peer, payload.sources[..upserted]);
      if !ok {
        return;
      }
      var importedThisBatch := 0;
      var i := 0;
      while i < |payload.calls|
        invariant 0 <= i <= |payload.calls| && done == i && ok
        invariant Valid() && Imports(old(All()), All(), peer.hubId)
        invariant ImportedIds(ledger, peer.hubId) == Admit(seen, ids[..i], room, enforceCap)
        invariant importedThisBatch == |Admit(seen, ids[..i], room, enforceCap)| - |seen|
      {
        if enforceCap && alreadyImported + importedThisBatch >= importCap {
          AdmitStops(seen, ids, room, i, |ids|);
          assert ids[..|ids|] == ids;
          done := |payload.calls|;
          return;
        }
        ghost var before, lastBefore := All(), lastCallId;
        LedgerOfStoredCalls();
        var result := ImportFederatedCall(peer, known, payload.calls[i], now);
        OneSourceTouched(before.sources, sources, FederatedSourceId(peer.hubId, CallSourceId(payload.calls[i])),
                         peer.name + " / remote source", now);
        ImportStep(before, All(), peer, payload.calls[i], lastBefore, lastCallId, result);
        ImportsTwice(old(All()), before, All(), peer.hubId);
        AdmitOneMore(seen, ids, i, room, enforceCap);
        if result.Failed? {
          return false, i;
        }
        if result.Inserted? {
          importedThisBatch := importedThisBatch + 1;
        }
        i := i + 1;
        done := i;
      }
    }

    method CountImported(peerHubId: string) returns (ok: bool, count: nat)
      ensures (reliable ==> ok) && (ok ==> count == |ImportedIds(ledger, peerHubId)|)
    {
      var fails := Fails();
      if fails {
        return false, 0;
      }
      return true, |ImportedIds(ledger, peerHubId)|;
    }

    method MaxImportedRemoteCallId(peerHubId: string) returns (ok: bool, id: int)
      ensures (reliable ==> ok) && (ok ==> id == MaxId(ImportedIds(ledger, peerHubId)))
    {
      var fails := Fails();
      if fails {
        return false, 0;
      }
      return true, MaxId(ImportedIds(ledger, peerHubId));
    }

    /** One round of the backfill loop, whatever the remote answers: without a failure it is a `BackfillRound` with the
        answered ids. */
    method BackfillOnce(peer: Peer, remote: Remote, importCap: nat, importedCount: nat, beforeId: int,
                        round: nat, now: int)
        returns (ok: bool, finished: bool, nextBefore: int, ghost ids: seq<int>)
      requires Valid() && importedCount == |ImportedIds(ledger, peer.hubId)| < importCap
      modifies this
      ensures Valid() && Imports(old(All()), All(), peer.hubId)
      ensures |ImportedIds(ledger, peer.hubId)| <= importCap
      ensures reliable && Sound(remote(beforeId, ImportBatchLimit(importCap - importedCount), round)) ==> ok
      ensures ok ==>
                var answer := remote(beforeId, ImportBatchLimit(importCap - importedCount), round);
                && answer.Answer? && ids == Ids(answer.payload.calls) && (ids != [] ==> nextBefore == MinId(ids))
                && BackfillRound(Running(old(ImportedIds(ledger, peer.hubId)), beforeId), ids, importCap) ==
                   if finished then Finished(ImportedIds(ledger, peer.hubId))
                   else Running(ImportedIds(ledger, peer.hubId), nextBefore)
    {
      hide Admit, ImportedIds, Imports, Like;
      ImportsNone(All(), peer.hubId);
      ghost var seen := ImportedIds(ledger, peer.hubId);
      ids, nextBefore, finished := [], beforeId, true;
      var remaining := importCap - importedCount;
      var batchLimit := ImportBatchLimit(remaining);
      var response := remote(beforeId, batchLimit, round);
      if response.Unavailable? {
        ok := false;
        return;
      }
      ids := Ids(response.payload.calls);
      if response.payload.calls == [] {
        ok := true;
        return;
      }
      ghost var done;
      ok, done := ImportFederatedCalls(peer, response.payload, importCap, importedCount, true, now);
      AdmitStaysInRoom(seen, ids[..done], remaining, true);
      if !ok {
        return;
      }
      assert ids[..done] == ids;
      nextBefore := SmallestId(response.payload.calls);
      finished := beforeId > 0 && nextBefore >= beforeId;
    }

    /** Backfill against a remote that may answer anything, even ignoring the cursor and the limit, as long as it comes
        to answer positive ids only: it ends, because from then on the cursor strictly decreases, and never takes the
        ledger above the cap. Against a remote that serves a fixed export list, a run without failures computes
        `BackfillRun`. */
    method SyncBackfill(peer: Peer, remote: Remote, importCap: nat, alreadyImported: nat, now: int,
                        ghost exports: set<int>, ghost calm: nat)
        returns (ok: bool)
      requires Valid() && alreadyImported == |ImportedIds(ledger, peer.hubId)|
      requires PositiveFrom(remote, calm) && forall x :: x in exports ==> x > 0
      modifies this
      ensures Valid() && Imports(old(All()), All(), peer.hubId)
      ensures |ImportedIds(ledger, peer.hubId)| <= if alreadyImported > importCap then alreadyImported else importCap
      ensures reliable && AlwaysSound(remote) ==> ok
      ensures ok && ServesRecent(remote, exports) ==>
                ImportedIds(ledger, peer.hubId) ==
                BackfillRun(old(ImportedIds(ledger, peer.hubId)), exports, importCap, 0)
    {
      hide Admit, ImportedIds, BackfillRun, Imports, ServesRecent, Like, BackfillRound, PositiveFrom;
      ImportsNone(All(), peer.hubId);
      var beforeId := 0;
      var importedCount := alreadyImported;
      var round := 0;
      ghost var start := ImportedIds(ledger, peer.hubId);
      while importedCount < importCap
        invariant Valid() && Imports(old(All()), All(), peer.hubId)
        invariant importedCount == |ImportedIds(ledger, peer.hubId)|
        invariant importedCount <= if alreadyImported > importCap then alreadyImported else importCap
        invariant ServesRecent(remote, exports) ==>
                    && beforeId >= 0
                    && BackfillRun(start, exports, importCap, 0)
                       == BackfillRun(ImportedIds(ledger, peer.hubId), exports, importCap, beforeId)
        decreases if round < calm then calm - round else 0, if beforeId <= 0 then 1 else 0, beforeId
      {
        ghost var seen, before := ImportedIds(ledger, peer.hubId), All();
        var finished, nextBefore;
        ghost var ids;
        ok, finished, nextBefore, ids := BackfillOnce(peer, remote, importCap, importedCount, beforeId, round, now);
        ImportsTwice(old(All()), before, All(), peer.hubId);
        if !ok {
          return;
        }
        if round >= calm {
          AnsweredPositive(remote, calm, beforeId, ImportBatchLimit(importCap - importedCount), round);
          RoundIsCloser(seen, beforeId, ids, importCap);
        }
        if ServesRecent(remote, exports) {
          ServedRound(remote, exports, seen, importCap, beforeId, round);
        }
        if finished {
          return;
        }
        beforeId, round := nextBefore, round + 1;
        ok, importedCount := CountImported(peer.hubId);
        if !ok {
          return;
        }
      }
      if ServesRecent(remote, exports) {
        BackfillRunStep(ImportedIds(ledger, peer.hubId), exports, importCap, beforeId);
      }
      ok := true;
    }

    method SmallestId(calls: seq<RemoteCall>) returns (id: int)
      requires calls != []
      ensures id == MinId(Ids(calls))
    {
      id := calls[0].id;
      assert Ids(calls)[0] == id;
      for i := 1 to |calls|
        invariant id in Ids(calls) && forall j :: 0 <= j < i ==> id <= calls[j].id
      {
        if calls[i].id < id {
          id := calls[i].id;
          assert Ids(calls)[i] == id;
        }
      }
      assert forall x :: x in Ids(calls) ==> id <= x;
    }

    /** One live pull above the cursor: a prefix of the answer is imported, all of it when nothing fails. */
    method SyncLive(peer: Peer, remote: Remote, since: int, now: int)
        returns (ok: bool, ghost done: nat, ghost asked: Response)
      requires Valid()
      modifies this
      ensures Valid() && Imports(old(All()), All(), peer.hubId)
      ensures asked == remote(since, 100, 0)
      ensures asked.Unavailable? ==> !ok && ledger == old(ledger)
      ensures reliable && Sound(asked) ==> ok
      ensures asked.Answer? ==> done <= |asked.payload.calls| && (ok ==> done == |asked.payload.calls|)
      ensures asked.Answer? ==>
                var ids := Ids(asked.payload.calls);
                ImportedIds(ledger, peer.hubId) == Admit(old(ImportedIds(ledger, peer.hubId)), ids[..done], 0, false)
    {
      hide Admit, ImportedIds, Imports;
      ImportsNone(All(), peer.hubId);
      done := 0;
      var response := remote(since, ImportBatchLimit(100), 0);
      asked := response;
      if response.Unavailable? {
        ok := false;
        return;
      }
      if response.payload.calls == [] {
        AdmitNone(ImportedIds(ledger, peer.hubId), 0, false);
        assert Ids(asked.payload.calls)[..0] == [];
        return true, 0, asked;
      }
      ok, done := ImportFederatedCalls(peer, response.payload, 0, 0, false, now);
    }

    /** One sync of one peer: backfill while below the cap, then a live pull from the largest imported id. A peer at
        the cap only gets the live pull; a live pull against a remote that serves `exports` is a `PullLive` step. */
    method SyncFederatedPeer(peer: Peer, directoryStatus: string, recent: Remote, since: Remote, now: int,
                             ghost exports: set<int>, ghost calm: nat)
        returns (ok: bool, ghost afterBackfill: set<int>, ghost done: nat, ghost pulled: seq<int>)
      requires Valid() && PositiveFrom(recent, calm) && forall x :: x in exports ==> x > 0
      modifies this
      ensures Valid() && Imports(old(All()), All(), peer.hubId)
      ensures var importCap := if ToLower(TrimSpace(directoryStatus)) in {"listed", "verified"} then 1000 else 500;
              var start := old(ImportedIds(ledger, peer.hubId));
              && |afterBackfill| <= (if |start| > importCap then |start| else importCap)
              && (|start| >= importCap ==> afterBackfill == start)
              && (ok && |start| < importCap && ServesRecent(recent, exports) ==>
                    && afterBackfill == BackfillRun(start, exports, importCap, 0)
                    && FilledOrFinished(start, exports, importCap, afterBackfill))
      ensures forall other :: other != peer.hubId ==>
                ImportedIds(ledger, other) == old(ImportedIds(ledger, other))
      ensures reliable && AlwaysSound(recent) && AlwaysSound(since) ==> ok
      ensures ok && ServesSince(since, exports) ==>
                && ImportedIds(ledger, peer.hubId) == PullLive(afterBackfill, exports, done)
                && FirstAbove(exports, MaxId(afterBackfill), 100, pulled)
                && ImportedIds(ledger, peer.hubId) == afterBackfill + Elements(pulled)
      ensures !ok && ServesSince(since, exports) && ImportedIds(ledger, peer.hubId) != afterBackfill ==>
                ImportedIds(ledger, peer.hubId) == PullLive(afterBackfill, exports, done)
    {
      hide Admit, ImportedIds, ListRecent, BackfillRun, ListSince, MaxId, ImportCapForDirectoryStatus, Like, Imports,
        FilledOrFinished, FirstAbove, PullLive, TrimSpace, ToLower;
      CapIs(directoryStatus);
      pulled := [];
      ImportsNone(All(), peer.hubId);
      var importCap := ImportCapForDirectoryStatus(directoryStatus);
      afterBackfill, done := ImportedIds(ledger, peer.hubId), 0;
      var importedCount, sinceId;
      ok, importedCount := CountImported(peer.hubId);
      if !ok {
        return;
      }
      ok, sinceId := MaxImportedRemoteCallId(peer.hubId);
      if !ok {
        return;
      }
      if importedCount < importCap {
        ok := SyncBackfill(peer, recent, importCap, importedCount, now, exports, calm);
        OtherPeersKept(old(All()), All(), peer.hubId);
        BackfillFillsOrFinishes(afterBackfill, exports, importCap, 0);
        afterBackfill := ImportedIds(ledger, peer.hubId);
        if !ok {
          return;
        }
        ok, sinceId := MaxImportedRemoteCallId(peer.hubId);
        if !ok {
          return;
        }
      }
      ghost var middle := All();
      ghost var asked;
      ok, done, asked := SyncLive(peer, since, sinceId, now);
      ImportsTwice(old(All()), middle, All(), peer.hubId);
      OtherPeersKept(old(All()), All(), peer.hubId);
      if asked.Answer? {
        ServedPull(since, exports, afterBackfill, asked, done);
        pulled := ListSince(exports, MaxId(afterBackfill), ImportBatchLimit(100));
        if ok && ServesSince(since, exports) {
          WholePull(afterBackfill, exports, done);
        }
      }
    }

    lemma LedgerOfStoredCalls()
      requires Valid()
      ensures forall k :: k in ledger ==> ledger[k] in calls
      ensures forall id :: id in calls ==> id <= lastCallId
    {
    }

    /** Removal of a peer: its ledger rows, the call rows and sources its pattern matches, and, by cascade, the ledger
        rows of the call rows removed. Calls go in batches of at most 1000 until none is left. A statement that fails
        leaves the work of the earlier ones done, and the counts say how much that is. */
    method DeleteFederatedPeerImports(peerHubId: string)
        returns (ok: bool, importsDeleted: nat, callsDeleted: nat, sourcesDeleted: nat)
      requires Valid()
      modifies this
      ensures Valid() && published == old(published)
      ensures OnlyMatchingGone(PeerSourcePattern(peerHubId), old(calls), calls, old(sources), sources)
      ensures forall k :: k in ledger ==> k in old(ledger) && ledger[k] == old(ledger)[k] && old(ledger)[k] in calls
      ensures forall k :: k in old(ledger) && k !in ledger ==> k.peer == peerHubId || old(ledger)[k] !in calls
      ensures callsDeleted == |old(calls)| - |calls| && sourcesDeleted == |old(sources)| - |sources|
      ensures callsDeleted % 1000 == 0
              || forall id :: id in calls ==> !Like(PeerSourcePattern(peerHubId), calls[id].sourceId)
      ensures || (importsDeleted == |set k | k in old(ledger) && k.peer == peerHubId|
              && forall k :: k in ledger ==> k.peer != peerHubId)
              || (!ok && importsDeleted == 0 && ledger == old(ledger) && calls == old(calls) && sources == old(sources))
      ensures reliable ==> ok
      ensures ok ==>
                && (forall id :: id in calls ==> !Like(PeerSourcePattern(peerHubId), calls[id].sourceId))
                && (forall s :: s in sources ==> !Like(PeerSourcePattern(peerHubId), s))
                && importsDeleted == |set k | k in old(ledger) && k.peer == peerHubId|
                && (forall k :: k in ledger ==> k.peer != peerHubId)
    {
      hide Like, PeerSourcePattern, Valid;
      importsDeleted, callsDeleted, sourcesDeleted := 0, 0, 0;
      LedgerOfStoredCalls();
      var fails := Fails();
      if fails {
        return false, importsDeleted, callsDeleted, sourcesDeleted;
      }
      importsDeleted := DeleteLedger(peerHubId);
      ok, callsDeleted := DeleteMatchingCalls(PeerSourcePattern(peerHubId));
      if !ok {
        return;
      }
      ok, sourcesDeleted := DeleteMatchingSources(PeerSourcePattern(peerHubId));
    }

    method DeleteLedger(peerHubId: string) returns (deleted: nat)
      requires Valid()
      modifies this`ledger
      ensures Valid() && deleted == |set k | k in old(ledger) && k.peer == peerHubId|
      ensures forall k :: k in ledger <==> k in old(ledger) && k.peer != peerHubId
      ensures forall k :: k in ledger ==> ledger[k] == old(ledger)[k]
    {
      hide Like;
      deleted := |set k | k in ledger && k.peer == peerHubId|;
      ledger := map k | k in ledger && k.peer != peerHubId :: ledger[k];
    }

    method DeleteMatchingCalls(pattern: string) returns (ok: bool, deleted: nat)
      requires Valid()
      modifies this`calls, this`ledger
      ensures Valid()
      ensures forall id :: id in calls ==> id in old(calls)
      ensures forall id :: id in old(calls) && id !in calls ==> Like(pattern, old(calls)[id].sourceId)
      ensures (reliable ==> ok) && (ok ==> forall id :: id in calls ==> !Like(pattern, calls[id].sourceId))
      ensures forall id :: id in calls ==> calls[id] == old(calls)[id]
      ensures forall k :: k in ledger <==> k in old(ledger) && old(ledger)[k] in calls
      ensures forall k :: k in ledger ==> ledger[k] == old(ledger)[k]
      ensures deleted == |old(calls)| - |calls|
      ensures deleted % 1000 == 0 || forall id :: id in calls ==> !Like(pattern, calls[id].sourceId)
    {
      hide Like;
      deleted := 0;
      while true
        invariant Valid()
        invariant forall id :: id in calls ==> id in old(calls) && calls[id] == old(calls)[id]
        invariant forall id :: id in old(calls) && id !in calls ==> Like(pattern, old(calls)[id].sourceId)
        invariant forall k :: k in ledger <==> k in old(ledger) && old(ledger)[k] in calls
        invariant forall k :: k in ledger ==> ledger[k] == old(ledger)[k]
        invariant deleted == |old(calls)| - |calls|
        invariant deleted % 1000 == 0 || forall id :: id in calls ==> !Like(pattern, calls[id].sourceId)
        decreases |calls|
      {
        var fails := Fails();
        if fails {
          return false, deleted;
        }
        var matching := set id | id in calls && Like(pattern, calls[id].sourceId);
        var doomed := FirstOf(matching, 1000);
        if doomed == {} {
          assert forall id :: id in calls && Like(pattern, calls[id].sourceId) ==> id in matching;
          return true, deleted;
        }
        DeleteCalls(doomed);
        deleted := deleted + |doomed|;
      }
    }

    /** DELETE FROM calls, with ON DELETE CASCADE to the ledger. */
    method DeleteCalls(doomed: set<int>)
      requires Valid() && doomed <= calls.Keys
      modifies this`calls, this`ledger
      ensures Valid()
      ensures calls == old(calls) - doomed && |calls| == |old(calls)| - |doomed|
      ensures ledger == map k | k in old(ledger) && old(ledger)[k] !in doomed :: old(ledger)[k]
    {
      hide Like;
      SubsetSize(doomed, calls.Keys);
      assert (calls - doomed).Keys == calls.Keys - doomed;
      calls := calls - doomed;
      ledger := map k | k in ledger && ledger[k] !in doomed :: ledger[k];
    }

    method DeleteMatchingSources(pattern: string) returns (ok: bool, deleted: nat)
      modifies this`sources
      ensures ok ==> forall s :: s in sources <==> s in old(sources) && !Like(pattern, s)
      ensures forall s :: s in sources ==> s in old(sources) && sources[s] == old(sources)[s]
      ensures !ok ==> sources == old(sources) && !reliable
      ensures deleted == |old(sources)| - |sources|
    {
      hide Like;
      var fails := Fails();
      if fails {
        return false, 0;
      }
      var gone := set s | s in sources && Like(pattern, s);
      SubsetSize(gone, sources.Keys);
      assert (sources - gone).Keys == sources.Keys - gone;
      sources := sources - gone;
      deleted := |gone|;
      ok := true;
    }

    /** LIMIT without an ORDER BY: some rows, as many as the limit allows. */
    method FirstOf(s: set<int>, limit: nat) returns (some: set<int>)
      requires limit > 0
      ensures some <= s && |some| == if |s| <= limit then |s| else limit
      ensures |s| <= limit || some == {} ==> some == s
    {
      var rest := s;
      some := {};
      while |some| < limit && rest != {}
        invariant some <= s && rest == s - some && |some| <= limit
        decreases |rest|
      {
        var x := AnyOf(rest);
        some, rest := some + {x}, rest - {x};
      }
      SubsetSize(some, s);
      if rest == {} {
        assert some == s;
      }
    }
  }

  // ---------- lemmas the methods use

  lemma AdmitNone(seen: set<int>, room: int, enforce: bool)
    ensures Admit(seen, [], room, enforce) == seen
  {
  }

  lemma {:induction false} RemoteSourcesAreRemote(calls: map<int, Row>, sources: map<string, Source>, peer: Peer,
                                                  added: seq<RemoteSource>)
    ensures LocalKept(calls, calls, sources, WithRemoteSources(sources, peer, added))
  {
    hide FederatedSourceId, Like, SourceLabel;
    if added != [] {
      RemoteSourcesAreRemote(calls, sources, peer, added[..|added| - 1]);
      ImportedIdsAreNeverExported(peer.hubId, added[|added| - 1].id);
    }
  }

  lemma SourcesStep(before: Tables, after: Tables, peer: Peer, added: seq<RemoteSource>)
    requires after == before.(sources := WithRemoteSources(before.sources, peer, added))
    ensures Imports(before, after, peer.hubId)
  {
    hide LocalKept, WithRemoteSources;
    RemoteSourcesAreRemote(before.calls, before.sources, peer, added);
  }

  lemma ImportsNone(t: Tables, peer: string)
    ensures Imports(t, t, peer)
  {
    hide Like, PublishedOnce;
  }

  lemma ImportsTwice(a: Tables, b: Tables, c: Tables, peer: string)
    requires Imports(a, b, peer) && Imports(b, c, peer)
    ensures Imports(a, c, peer)
  {
    hide Like, PublishedOnce;
  }

  /** At most one source differs. */
  ghost predicate SourceTouched(before: map<string, Source>, after: map<string, Source>, id: string) {
    forall s :: s != id ==> (s in before <==> s in after) && (s in before ==> after[s] == before[s])
  }

  lemma OneSourceTouched(before: map<string, Source>, after: map<string, Source>, id: string, title: string, now: int)
    requires var upserted := WithSource(before, id, title, NO_INFO);
             after in {before, upserted, Counted(before, id, now), Counted(upserted, id, now)}
    ensures SourceTouched(before, after, id)
  {
  }

  lemma ImportIsRemote(before: Tables, after: Tables, peer: Peer, item: RemoteCall, lastCallId: int)
    requires forall id :: id in before.calls ==> id <= lastCallId
    requires after.calls == before.calls
             || (item.audio.Decodes? && after.calls == before.calls[lastCallId + 1 := ImportedRow(peer, item)])
    requires SourceTouched(before.sources, after.sources, FederatedSourceId(peer.hubId, CallSourceId(item)))
    ensures LocalKept(before.calls, after.calls, before.sources, after.sources)
  {
    ImportedIdsAreNeverExported(peer.hubId, CallSourceId(item));
    hide FederatedSourceId, Like, CallSourceId;
  }

  /** What one call does to the tables and to the peer's ledger. */
  lemma ImportStep(before: Tables, after: Tables, peer: Peer, item: RemoteCall, lastCallId: int,
                   local: int, result: ImportResult)
    requires var key := ImportKey(peer.hubId, item.id);
             if result.Inserted? then
               && key !in before.ledger && after.ledger == before.ledger[key := local]
               && after.published == before.published + [key]
             else
               && after.ledger == before.ledger && after.published == before.published
               && (result.Skipped? ==> item.id <= 0 || key in before.ledger)
    requires forall id :: id in before.calls ==> id <= lastCallId
    requires after.calls == before.calls
             || (item.audio.Decodes? && after.calls == before.calls[lastCallId + 1 := ImportedRow(peer, item)])
    requires SourceTouched(before.sources, after.sources, FederatedSourceId(peer.hubId, CallSourceId(item)))
    ensures Imports(before, after, peer.hubId)
    ensures var seen, now := ImportedIds(before.ledger, peer.hubId), ImportedIds(after.ledger, peer.hubId);
            && now == (if result.Inserted? then seen + {item.id} else seen)
            && (result.Inserted? ==> item.id !in seen)
            && (result.Skipped? ==> item.id <= 0 || item.id in seen)
  {
    var key := ImportKey(peer.hubId, item.id);
    ImportIsRemote(before, after, peer, item, lastCallId);
    ImportedIdsMember(before.ledger, peer.hubId, item.id);
    if result.Inserted? {
      ImportedIdsRecord(before.ledger, key, local, peer.hubId);
    }
    hide LocalKept, ImportedRow, FederatedSourceId, CallSourceId, ImportedIds;
  }

  /** A round against a remote that serves `exports` is a round of `BackfillRun`. */
  lemma ServedRound(remote: Remote, exports: set<int>, seen: set<int>, importCap: nat, before: nat, n: nat)
    requires (forall x :: x in exports ==> x > 0) && |seen| < importCap && ServesRecent(remote, exports)
    requires remote(before, ImportBatchLimit(importCap - |seen|), n).Answer?
    ensures var ids := Ids(remote(before, ImportBatchLimit(importCap - |seen|), n).payload.calls);
            var next := BackfillRound(Running(seen, before), ids, importCap);
            && (next.Running? ==> next.cursor >= 0)
            && BackfillRun(seen, exports, importCap, before) ==
               if next.Finished? then next.seen else BackfillRun(next.seen, exports, importCap, next.cursor)
  {
    hide BackfillRun, ListRecent, Admit, Ids, MinId, ImportBatchLimit;
    var limit := ImportBatchLimit(importCap - |seen|);
    var ids := Ids(remote(before, limit, n).payload.calls);
    assert ids == ListRecent(exports, before, limit);
    hide ServesRecent;
    BackfillRunStep(seen, exports, importCap, before);
    if ids != [] {
      ListRecentIsSuffix(exports, before, limit, MinId(ids));
    }
  }

  /** After an answer of positive ids the cursor is positive, and smaller than it was if it was positive before. */
  lemma RoundIsCloser(seen: set<int>, before: int, ids: seq<int>, importCap: nat)
    requires |seen| < importCap && Positive(ids)
    ensures var next := BackfillRound(Running(seen, before), ids, importCap);
            next.Running? ==> next.cursor > 0 && (before > 0 ==> next.cursor < before)
  {
    hide Admit;
  }

  lemma AnsweredPositive(remote: Remote, calm: nat, cursor: int, limit: int, n: nat)
    requires PositiveFrom(remote, calm) && n >= calm && remote(cursor, limit, n).Answer?
    ensures Positive(Ids(remote(cursor, limit, n).payload.calls))
  {
  }

  ghost predicate ServesSince(remote: Remote, exports: set<int>) {
    forall cursor, limit, n :: remote(cursor, limit, n).Answer? ==>
      Ids(remote(cursor, limit, n).payload.calls) == ListSince(exports, cursor, limit)
  }

  lemma CapIs(directoryStatus: string)
    ensures ImportCapForDirectoryStatus(directoryStatus) ==
            if ToLower(TrimSpace(directoryStatus)) in {"listed", "verified"} then 1000 else 500
  {
  }

  lemma ServedPull(remote: Remote, exports: set<int>, seen: set<int>, asked: Response, done: nat)
    requires asked.Answer? && asked == remote(MaxId(seen), 100, 0) && done <= |asked.payload.calls|
    ensures ServesSince(remote, exports) ==>
              && Admit(seen, Ids(asked.payload.calls)[..done], 0, false) == PullLive(seen, exports, done)
              && |asked.payload.calls| == |ListSince(exports, MaxId(seen), ImportBatchLimit(100))|
  {
  }
}
