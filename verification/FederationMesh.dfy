/** Any number of hubs pulling from each other: a call travels at most one hop
    (server/internal/api/federation.go, server/internal/database/calls.go). */
module FederationMesh {
  import opened SqlLike
  import opened Text
  import opened SourceIds

  datatype Source = Source(enabled: bool, isShared: bool, deletedAt: int)

  datatype Hub = Hub(calls: map<int, string>, nextId: nat, sources: map<string, Source>)

  /** Where a stored call came from. */
  datatype Origin = Uploaded | PulledFrom(peer: string, remoteId: int)

  datatype CallRef = CallRef(hub: string, id: int)

  /** `born` records, for every call row ever stored on any hub, how it got there; rows may be deleted later. */
  datatype Mesh = Mesh(hubs: map<string, Hub>, born: map<CallRef, Origin>)

  datatype Step =
    | Join(hub: string)
    | Upload(hub: string, sourceId: string)
    | EditSource(hub: string, sourceId: string, source: Source)
    | Pull(hub: string, peer: string, remoteId: int)
    | DeleteCall(hub: string, id: int)

  /** The condition both export queries put on a call's source. */
  predicate Exportable(h: Hub, id: int) {
    && id in h.calls
    && h.calls[id] in h.sources
    && var s := h.sources[h.calls[id]];
       s.isShared && s.enabled && s.deletedAt == 0 && !Like(REMOTE_PATTERN, h.calls[id])
  }

  function Store(m: Mesh, hub: string, sourceId: string, origin: Origin): Mesh
    requires hub in m.hubs
  {
    var h := m.hubs[hub];
    m.(hubs := m.hubs[hub := h.(calls := h.calls[h.nextId := sourceId], nextId := h.nextId + 1)],
       born := m.born[CallRef(hub, h.nextId) := origin])
  }

  function WithSource(m: Mesh, hub: string, sourceId: string, source: Source): Mesh
    requires hub in m.hubs
  {
    m.(hubs := m.hubs[hub := m.hubs[hub].(sources := m.hubs[hub].sources[sourceId := source])])
  }

  /** A step that is not possible leaves the mesh as it is. A pull upserts the imported call's source and then stores
      the call; the remote source id it sees is the one the exporting hub stored. */
  function Next(m: Mesh, step: Step): Mesh {
    match step
    case Join(hub) => if hub in m.hubs then m else m.(hubs := m.hubs[hub := Hub(map[], 1, map[])])
    case Upload(hub, sourceId) => if hub in m.hubs then Store(m, hub, sourceId, Uploaded) else m
    case EditSource(hub, sourceId, source) => if hub in m.hubs then WithSource(m, hub, sourceId, source) else m
    case Pull(hub, peer, remoteId) =>
      if hub in m.hubs && peer in m.hubs && Exportable(m.hubs[peer], remoteId) then
        var localSource := FederatedSourceId(peer, TrimSpace(m.hubs[peer].calls[remoteId]));
        Store(WithSource(m, hub, localSource, Source(true, false, 0)), hub, localSource, PulledFrom(peer, remoteId))
      else m
    case DeleteCall(hub, id) =>
      if hub in m.hubs then m.(hubs := m.hubs[hub := m.hubs[hub].(calls := m.hubs[hub].calls - {id})]) else m
  }

  function Run(steps: seq<Step>): Mesh {
    if steps == [] then Mesh(map[], map[]) else Next(Run(steps[..|steps| - 1]), steps[|steps| - 1])
  }

  /** Stored rows are known, fresh ids are unknown, imported rows carry the prefix, and every import was uploaded at
      the hub it was pulled from. */
  ghost predicate Inv(m: Mesh) {
    && (forall r :: r in m.born ==> r.hub in m.hubs && r.id < m.hubs[r.hub].nextId)
    && (forall h, id :: h in m.hubs && id in m.hubs[h].calls ==> CallRef(h, id) in m.born)
    && (forall h, id :: h in m.hubs && id in m.hubs[h].calls && m.born[CallRef(h, id)].PulledFrom? ==>
          "remote_" <= m.hubs[h].calls[id])
    && (forall r :: r in m.born && m.born[r].PulledFrom? ==>
          var from := CallRef(m.born[r].peer, m.born[r].remoteId);
          from in m.born && m.born[from].Uploaded?)
  }

  lemma StoreKeeps(m: Mesh, hub: string, sourceId: string, origin: Origin)
    requires Inv(m) && hub in m.hubs
    requires origin.PulledFrom? ==> "remote_" <= sourceId
    requires origin.PulledFrom? ==>
               CallRef(origin.peer, origin.remoteId) in m.born
               && m.born[CallRef(origin.peer, origin.remoteId)].Uploaded?
    ensures Inv(Store(m, hub, sourceId, origin))
  {
    var added := CallRef(hub, m.hubs[hub].nextId);
    assert added !in m.born;
  }

  lemma WithSourceKeeps(m: Mesh, hub: string, sourceId: string, source: Source)
    requires Inv(m) && hub in m.hubs
    ensures Inv(WithSource(m, hub, sourceId, source))
  {
  }

  /** An exportable row was never imported. */
  lemma ExportableWasUploaded(m: Mesh, hub: string, id: int)
    requires Inv(m) && hub in m.hubs && Exportable(m.hubs[hub], id)
    ensures CallRef(hub, id) in m.born && m.born[CallRef(hub, id)].Uploaded?
  {
    RemotePatternIsPrefix(m.hubs[hub].calls[id]);
  }

  /** What the export queries select: stored calls of a source that is shared, enabled, not deleted and not imported. */
  lemma ExportableIs(h: Hub, id: int)
    ensures Exportable(h, id) <==>
            && id in h.calls && h.calls[id] in h.sources
            && h.sources[h.calls[id]].isShared && h.sources[h.calls[id]].enabled
            && h.sources[h.calls[id]].deletedAt == 0
            && !("remote_" <= h.calls[id])
  {
    if id in h.calls {
      RemotePatternIsPrefix(h.calls[id]);
    }
  }

  /** What a pull does: an exportable call is stored as a new call under the prefixed id of its source, which is then
      enabled and not shared; the peer and every other hub stay as they are. A call that is not exportable is not
      pulled. */
  lemma PullIs(m: Mesh, hub: string, peer: string, remoteId: int)
    ensures var t := Next(m, Pull(hub, peer, remoteId));
            if hub in m.hubs && peer in m.hubs && Exportable(m.hubs[peer], remoteId) then
              var localSource := FederatedSourceId(peer, TrimSpace(m.hubs[peer].calls[remoteId]));
              var h := m.hubs[hub];
              && t.hubs.Keys == m.hubs.Keys && (forall x :: x in m.hubs && x != hub ==> t.hubs[x] == m.hubs[x])
              && t.hubs[hub].calls == h.calls[h.nextId := localSource]
              && localSource in t.hubs[hub].sources && t.hubs[hub].sources[localSource] == Source(true, false, 0)
              && t.born == m.born[CallRef(hub, h.nextId) := PulledFrom(peer, remoteId)]
            else t == m
  {
    hide Exportable, FederatedSourceId, TrimSpace;
  }

  lemma NextKeeps(m: Mesh, step: Step)
    requires Inv(m)
    ensures Inv(Next(m, step))
  {
    hide Inv, FederatedSourceId, TrimSpace, Like;
    match step
    case Join(hub) =>
      JoinKeeps(m, hub);
    case Upload(hub, sourceId) =>
      if hub in m.hubs {
        StoreKeeps(m, hub, sourceId, Uploaded);
      }
    case EditSource(hub, sourceId, source) =>
      if hub in m.hubs {
        WithSourceKeeps(m, hub, sourceId, source);
      }
    case Pull(hub, peer, remoteId) =>
      if hub in m.hubs && peer in m.hubs && Exportable(m.hubs[peer], remoteId) {
        var localSource := FederatedSourceId(peer, TrimSpace(m.hubs[peer].calls[remoteId]));
        ExportableWasUploaded(m, peer, remoteId);
        WithSourceKeeps(m, hub, localSource, Source(true, false, 0));
        ImportedIdsAreNeverExported(peer, TrimSpace(m.hubs[peer].calls[remoteId]));
        RemotePatternIsPrefix(localSource);
        StoreKeeps(WithSource(m, hub, localSource, Source(true, false, 0)), hub, localSource,
                   PulledFrom(peer, remoteId));
      }
    case DeleteCall(hub, id) =>
      DeleteKeeps(m, hub, id);
  }

  lemma JoinKeeps(m: Mesh, hub: string)
    requires Inv(m)
    ensures Inv(Next(m, Join(hub)))
  {
  }

  lemma DeleteKeeps(m: Mesh, hub: string, id: int)
    requires Inv(m)
    ensures Inv(Next(m, DeleteCall(hub, id)))
  {
  }

  lemma {:induction false} RunKeeps(steps: seq<Step>)
    ensures Inv(Run(steps))
  {
    hide Next;
    if steps != [] {
      RunKeeps(steps[..|steps| - 1]);
      NextKeeps(Run(steps[..|steps| - 1]), steps[|steps| - 1]);
    }
  }

  /** In every reachable mesh, what a hub exports was uploaded there, and what a hub imported was uploaded at the hub
      it was pulled from and is not exported again: a call travels at most one hop. */
  lemma CallsTravelOneHop(steps: seq<Step>, hub: string, id: int)
    requires hub in Run(steps).hubs
    ensures var m := Run(steps);
            Exportable(m.hubs[hub], id) ==> CallRef(hub, id) in m.born && m.born[CallRef(hub, id)].Uploaded?
    ensures var m := Run(steps);
            CallRef(hub, id) in m.born && m.born[CallRef(hub, id)].PulledFrom? ==>
              var from := CallRef(m.born[CallRef(hub, id)].peer, m.born[CallRef(hub, id)].remoteId);
              && from in m.born && m.born[from].Uploaded?
              && !Exportable(m.hubs[hub], id)
  {
    hide Run, Exportable;
    var m := Run(steps);
    RunKeeps(steps);
    if Exportable(m.hubs[hub], id) {
      ExportableWasUploaded(m, hub, id);
    }
  }
  /** And it does travel: a call uploaded to a shared source of one hub is stored by any hub that pulls it, under the
      prefixed id, until it is deleted; then nothing can pull it any more. */
  lemma OneHop(m: Mesh, hub: string, peer: string, sourceId: string)
    requires Inv(m) && peer in m.hubs && hub !in m.hubs && !("remote_" <= sourceId)
    ensures var id := m.hubs[peer].nextId;
            var shared := Next(Next(Next(m, Join(hub)), EditSource(peer, sourceId, Source(true, true, 0))),
                               Upload(peer, sourceId));
            var pulled := Next(shared, Pull(hub, peer, id));
            && hub in pulled.hubs && 1 in pulled.hubs[hub].calls
            && pulled.hubs[hub].calls[1] == FederatedSourceId(peer, TrimSpace(sourceId))
            && CallRef(hub, 1) in pulled.born && pulled.born[CallRef(hub, 1)] == PulledFrom(peer, id)
            && (forall again :: Next(Next(shared, DeleteCall(peer, id)), Pull(again, peer, id))
                                == Next(shared, DeleteCall(peer, id)))
  {
    hide FederatedSourceId, TrimSpace, Like;
    var id := m.hubs[peer].nextId;
    var shared := Next(Next(Next(m, Join(hub)), EditSource(peer, sourceId, Source(true, true, 0))),
                       Upload(peer, sourceId));
    assert hub != peer && shared.hubs[hub] == Hub(map[], 1, map[]);
    ExportableIs(shared.hubs[peer], id);
    var deleted := Next(shared, DeleteCall(peer, id));
    assert id !in deleted.hubs[peer].calls;
  }
}
