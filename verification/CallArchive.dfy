/** The archive sweep: batches of write, sync, delete and removal of local copies, any of which may fail
    (server/internal/api/call_archive.go, call_archive_job.go, call_archive_s3.go). One sweep runs at a time and no
    call is stored meanwhile; time is a nondeterministic choice. */
module CallArchive {
  import opened Ordering
  import opened ArchiveSpec

  datatype Batch = Batch(archived: nat, deleted: nat, freedBytes: nat, daysSynced: nat,
                         localRemoved: bool, remainingOld: nat)

  datatype Sweep = Sweep(archived: nat, deleted: nat, freedBytes: nat, daysSynced: nat, localRemoved: bool,
                         remainingOld: nat, batches: nat, stoppedEarly: bool)

  datatype Config = Config(s3: bool, deleteLocalAfterS3: bool)

  predicate RemovesLocal(config: Config) {
    config.s3 && config.deleteLocalAfterS3
  }

  // ---------- what a sweep must not lose

  ghost predicate KeepsAudio(c: Call) {
    ArchiveAudioExtension(c.audioName, c.audioType) != ".json"
  }

  /** A call's files, where present, hold what the archive writes there. */
  ghost predicate Intact(c: Call, local: Files) {
    && (AudioPath(c) in local ==> local[AudioPath(c)] == Audio(c.audio))
    && (ManifestPath(c) in local ==> local[ManifestPath(c)] == Manifest(c))
  }

  /** Every call of `all` but those in `lost` is still stored or archived; the local files of those no longer stored
      are intact. */
  ghost predicate OnlyLost(lost: set<int>, all: map<int, Call>, calls: map<int, Call>, local: Files, remote: Files) {
    && (forall id :: id in all ==> all[id].id == id)
    && (forall id :: id in calls ==> id in all && calls[id] == all[id])
    && (forall id :: id in all && id !in calls && id !in lost && KeepsAudio(all[id]) ==>
          Archived(local, remote, all[id]) && Intact(all[id], local))
  }

  /** The lost calls are deleted and archived nowhere, and nothing is left locally that a later sync could copy. */
  ghost predicate LostForGood(lost: set<int>, all: map<int, Call>, calls: map<int, Call>, local: Files, remote: Files) {
    forall id :: id in lost ==>
      && id in all && id !in calls && all[id].id == id
      && AudioPath(all[id]) !in local && ManifestPath(all[id]) !in local && !ArchivedIn(remote, all[id])
  }

  /** The deleted calls of the days a sync passed over, unless object storage has them already. */
  ghost function Exposed(all: map<int, Call>, calls: map<int, Call>, remote: Files, skipped: set<int>): set<int> {
    set id | id in all && id !in calls && DayOf(all[id]) in skipped && !ArchivedIn(remote, all[id])
  }

  /** No file is removed. */
  ghost predicate FilesStay(before: Files, after: Files) {
    forall p :: p in before ==> p in after
  }

  ghost predicate SameOutside(before: Files, after: Files, id: int) {
    forall p: Path :: p.id != id ==> (p in before <==> p in after) && (p in before ==> after[p] == before[p])
  }

  /** Some files of the given days were copied over, none of a day passed over. */
  ghost predicate CopiedFrom(local: Files, before: Files, after: Files, days: seq<int>, skipped: set<int>) {
    && (forall p: Path :: p in before ==> p in after)
    && (forall p: Path :: p in after ==>
          (p in local && p.day in days && p.day !in skipped && after[p] == local[p]) ||
          (p in before && after[p] == before[p]))
  }

  /** Every local file of the given days was copied, except of those passed over. */
  ghost predicate DaysCopied(local: Files, remote: Files, days: seq<int>, skipped: set<int>) {
    forall p: Path :: p in local && p.day in days && p.day !in skipped ==> p in remote && remote[p] == local[p]
  }

  /** Some files of the given days were removed. */
  ghost predicate RemovedFrom(before: Files, after: Files, days: seq<int>) {
    && (forall p: Path :: p in after ==> p in before && after[p] == before[p])
    && (forall p: Path :: p in before && p.day !in days ==> p in after)
  }

  ghost predicate NoneOfDays(fs: Files, days: seq<int>) {
    forall p: Path :: p in fs ==> p.day !in days
  }

  ghost predicate Distinct(days: seq<int>) {
    forall i, j :: 0 <= i < j < |days| ==> days[i] != days[j]
  }

  ghost predicate AllWritten(all: map<int, Call>, local: Files, ids: seq<int>) {
    forall i :: 0 <= i < |ids| ==>
      ids[i] in all && (KeepsAudio(all[ids[i]]) ==> ArchivedIn(local, all[ids[i]]))
  }

  lemma WriteKeeps(lost: set<int>, all: map<int, Call>, calls: map<int, Call>, before: Files, after: Files,
                   remote: Files, id: int)
    requires OnlyLost(lost, all, calls, before, remote) && LostForGood(lost, all, calls, before, remote)
    requires id in calls && SameOutside(before, after, id)
    ensures OnlyLost(lost, all, calls, after, remote) && LostForGood(lost, all, calls, after, remote)
  {
    hide KeepsAudio, ArchiveAudioExtension;
  }

  lemma WriteKeepsWritten(all: map<int, Call>, before: Files, ids: seq<int>, id: int)
    requires AllWritten(all, before, ids) && id in all && forall x :: x in all ==> all[x].id == x
    requires id !in ids
    ensures AllWritten(all, WriteFiles(before, all[id]), ids + [id])
  {
    hide ArchivedIn, KeepsAudio, WriteFiles;
    ghost var after, more := WriteFiles(before, all[id]), ids + [id];
    WrittenNow(before, all[id]);
    forall i | 0 <= i < |more|
      ensures more[i] in all && (KeepsAudio(all[more[i]]) ==> ArchivedIn(after, all[more[i]]))
    {
      if i < |ids| {
        var other := ids[i];
        assert other in ids && all[other].id == other;
        OthersStayArchived(before, all[id], all[other]);
      }
    }
  }

  lemma WrittenNow(before: Files, c: Call)
    ensures KeepsAudio(c) ==> ArchivedIn(WriteFiles(before, c), c)
  {
    hide ArchivedIn, WriteFiles, ArchiveAudioExtension;
    WriteArchivesUnlessJson(before, c);
  }

  lemma OthersStayArchived(before: Files, c: Call, other: Call)
    requires c.id != other.id
    ensures ArchivedIn(before, other) ==> ArchivedIn(WriteFiles(before, c), other)
  {
    hide ArchiveAudioExtension, DayOf;
  }

  lemma SyncKeeps(lost: set<int>, all: map<int, Call>, calls: map<int, Call>, local: Files, before: Files, after: Files,
                  days: seq<int>, skipped: set<int>)
    requires OnlyLost(lost, all, calls, local, before) && LostForGood(lost, all, calls, local, before)
    requires CopiedFrom(local, before, after, days, skipped)
    ensures OnlyLost(lost, all, calls, local, after) && LostForGood(lost, all, calls, local, after)
  {
    hide KeepsAudio, ArchiveAudioExtension;
  }

  lemma DeleteKeeps(lost: set<int>, all: map<int, Call>, calls: map<int, Call>, local: Files, remote: Files,
                    ids: seq<int>)
    requires OnlyLost(lost, all, calls, local, remote) && LostForGood(lost, all, calls, local, remote)
    requires AllWritten(all, local, ids)
    ensures OnlyLost(lost, all, calls - Elements(ids), local, remote)
    ensures LostForGood(lost, all, calls - Elements(ids), local, remote)
  {
    hide KeepsAudio, ArchiveAudioExtension;
    forall id | id in Elements(ids) && id in all && KeepsAudio(all[id]) ensures ArchivedIn(local, all[id]) {
      var i :| 0 <= i < |ids| && ids[i] == id;
    }
  }

  /** Removing any part of the synced days loses at most the deleted calls of the days the sync passed over. */
  lemma RemoveKeeps(lost: set<int>, all: map<int, Call>, calls: map<int, Call>, before: Files, after: Files,
                    remote: Files, days: seq<int>, skipped: set<int>)
    requires OnlyLost(lost, all, calls, before, remote)
    requires RemovedFrom(before, after, days) && DaysCopied(before, remote, days, skipped)
    ensures OnlyLost(lost + Exposed(all, calls, remote, skipped), all, calls, after, remote)
  {
    hide KeepsAudio, ArchiveAudioExtension;
    forall id | id in all && id !in calls && id !in lost + Exposed(all, calls, remote, skipped) && KeepsAudio(all[id])
      ensures Archived(after, remote, all[id]) && Intact(all[id], after)
    {
      assert AudioPath(all[id]).day == ManifestPath(all[id]).day == DayOf(all[id]);
    }
  }

  /** When the removal is completed, it loses all of those. */
  lemma RemoveLoses(lost: set<int>, all: map<int, Call>, calls: map<int, Call>, before: Files, after: Files,
                    remote: Files, days: seq<int>, skipped: set<int>)
    requires OnlyLost(lost, all, calls, before, remote) && LostForGood(lost, all, calls, before, remote)
    requires RemovedFrom(before, after, days) && NoneOfDays(after, days) && forall d :: d in skipped ==> d in days
    ensures LostForGood(lost + Exposed(all, calls, remote, skipped), all, calls, after, remote)
  {
    hide KeepsAudio, ArchiveAudioExtension, Intact;
  }

  /** A call archived only in a day's directory that is synced and then removed survives if and only if the sync did
      not pass over its day, or object storage had the call before. */
  lemma SurvivesIffNotSkipped(c: Call, local: Files, after: Files, before: Files, remote: Files, days: seq<int>,
                              skipped: set<int>)
    requires ArchivedIn(local, c) && DayOf(c) in days
    requires CopiedFrom(local, before, remote, days, skipped) && DaysCopied(local, remote, days, skipped)
    requires NoneOfDays(after, days)
    ensures Archived(after, remote, c) <==> DayOf(c) !in skipped || ArchivedIn(before, c)
  {
    hide ArchiveAudioExtension;
    assert AudioPath(c).day == ManifestPath(c).day == DayOf(c);
  }

  /** The failing input: one call written to an empty archive, a sync that passes over its directory, and a completed
      removal leave neither audio nor manifest. */
  lemma SkippedDayIsLost(c: Call)
    requires KeepsAudio(c)
    ensures var local: Files, none: Files, days, skipped := WriteFiles(map[], c), map[], [DayOf(c)], {DayOf(c)};
            && ArchivedIn(local, c)
            && CopiedFrom(local, none, none, days, skipped) && DaysCopied(local, none, days, skipped)
            && RemovedFrom(local, none, days) && NoneOfDays(none, days)
            && !Archived(none, none, c)
  {
    WriteArchivesUnlessJson(map[], c);
    hide ArchiveAudioExtension;
  }

  lemma NothingCopied(local: Files, remote: Files)
    ensures CopiedFrom(local, remote, remote, [], {}) && DaysCopied(local, remote, [], {})
  {
  }

  /** One more day of a sync: passed over, or copied. */
  lemma DayStep(local: Files, before: Files, remote: Files, days: seq<int>, skipped: set<int>, day: int)
    requires CopiedFrom(local, before, remote, days, skipped) && DaysCopied(local, remote, days, skipped)
    requires day !in days && day !in skipped
    ensures CopiedFrom(local, before, remote, days + [day], skipped + {day})
    ensures DaysCopied(local, remote, days + [day], skipped + {day})
    ensures CopiedFrom(local, before, SyncDay(local, remote, day), days + [day], skipped)
    ensures DaysCopied(local, SyncDay(local, remote, day), days + [day], skipped)
  {
  }

  lemma SomeCopied(local: Files, before: Files, remote: Files, days: seq<int>, skipped: set<int>, all: seq<int>,
                   day: int, some: set<Path>)
    requires CopiedFrom(local, before, remote, days, skipped) && day in all && day !in skipped
    requires (forall d :: d in days ==> d in all) && forall p: Path :: p in some ==> p in local && p.day == day
    ensures CopiedFrom(local, before, remote + map p: Path | p in some :: local[p], all, skipped)
  {
  }

  class Archive {
    /** Whether nothing the methods call ever fails. */
    const reliable: bool
    /** Whether a sweep always has time for another batch. */
    const unhurried: bool
    var calls: map<int, Call>
    var local: Files
    var remote: Files

    /** Whether the next statement or tool fails. */
    method Fails() returns (fails: bool)
      ensures reliable ==> !fails
    {
      fails := false;
      if * {
        fails := !reliable;
      }
    }

    /** writeCallArchiveFile: the audio, then the manifest; a failed write may leave a partial file. */
    method WriteCallArchiveFile(c: Call) returns (ok: bool)
      modifies this`local
      ensures SameOutside(old(local), local, c.id)
      ensures (reliable ==> ok) && (ok ==> local == WriteFiles(old(local), c))
      ensures FilesStay(old(local), local)
    {
      hide ArchiveAudioExtension;
      var fails := Fails();
      if fails {
        return false;
      }
      var audioPath := AudioPath(c);
      fails := Fails();
      if fails {
        local := local[audioPath := Partial];
        return false;
      }
      local := local[audioPath := Audio(c.audio)];
      var metaPath := ManifestPath(c);
      fails := Fails();
      if fails {
        local := local[metaPath := Partial];
        return false;
      }
      local := local[metaPath := Manifest(c)];
      ok := true;
    }

    /** A sync of one directory that fails has copied some of its files. */
    method CopyPart(day: int) returns (ghost some: set<Path>)
      modifies this`remote
      ensures forall p: Path :: p in some ==> p in local && p.day == day
      ensures remote == old(remote) + map p: Path | p in some :: local[p]
    {
      var copied := SomeOf(set p: Path | p in local && p.day == day);
      some := copied;
      remote := remote + map p: Path | p in copied :: local[p];
    }

    /** syncArchiveDirsToS3: one day directory after the other. A directory that cannot be stat'ed is passed over
        without an error. */
    method SyncArchiveDirs(dayDirs: seq<int>) returns (ok: bool, uploaded: nat, ghost skipped: set<int>)
      requires Distinct(dayDirs)
      modifies this`remote
      ensures CopiedFrom(local, old(remote), remote, dayDirs, skipped) && (forall d :: d in skipped ==> d in dayDirs)
      ensures ok ==> DaysCopied(local, remote, dayDirs, skipped) && uploaded + |skipped| == |dayDirs|
      ensures reliable ==> ok && skipped == {}
    {
      uploaded, skipped := 0, {};
      var fails := Fails();
      if fails {
        return false, uploaded, skipped;
      }
      hide CopiedFrom, DaysCopied, SyncDay;
      var i := 0;
      NothingCopied(local, remote);
      assert dayDirs[..0] == [];
      while i < |dayDirs|
        invariant 0 <= i <= |dayDirs| && uploaded + |skipped| == i
        invariant CopiedFrom(local, old(remote), remote, dayDirs[..i], skipped)
        invariant DaysCopied(local, remote, dayDirs[..i], skipped) && forall d :: d in skipped ==> d in dayDirs[..i]
        invariant reliable ==> skipped == {}
      {
        var day := dayDirs[i];
        assert day !in dayDirs[..i];
        DayStep(local, old(remote), remote, dayDirs[..i], skipped, day);
        assert dayDirs[..i + 1] == dayDirs[..i] + [day];
        i := i + 1;
        fails := Fails();
        if fails {
          skipped := skipped + {day};
          continue;
        }
        fails := Fails();
        if fails {
          ghost var before := remote;
          ghost var some := CopyPart(day);
          SomeCopied(local, old(remote), before, dayDirs[..i - 1], skipped, dayDirs, day, some);
          return false, uploaded, skipped;
        }
        remote := SyncDay(local, remote, day);
        uploaded := uploaded + 1;
      }
      assert dayDirs[..i] == dayDirs;
      ok := true;
    }

    /** DELETE FROM calls WHERE id IN (...): all or nothing. */
    method DeleteCallsByIds(ids: seq<int>) returns (ok: bool, deleted: nat)
      requires Elements(ids) <= calls.Keys
      modifies this`calls
      ensures ok ==> calls == old(calls) - Elements(ids) && deleted == |Elements(ids)|
      ensures !ok ==> calls == old(calls) && !reliable
    {
      var fails := Fails();
      if fails {
        return false, 0;
      }
      SubsetSize(Elements(ids), calls.Keys);
      assert (calls - Elements(ids)).Keys == calls.Keys - Elements(ids);
      ghost var before := calls;
      deleted := |calls|;
      calls := calls - Elements(ids);
      deleted := deleted - |calls|;
      ok := true;
    }

    /** removeArchiveDayDirs: a failed removal may have removed some files. */
    method RemoveArchiveDayDirs(dayDirs: seq<int>) returns (ok: bool)
      modifies this`local
      ensures RemovedFrom(old(local), local, dayDirs)
      ensures (reliable ==> ok) && (ok ==> NoneOfDays(local, dayDirs))
    {
      var i := 0;
      while i < |dayDirs|
        invariant 0 <= i <= |dayDirs| && RemovedFrom(old(local), local, dayDirs)
        invariant NoneOfDays(local, dayDirs[..i])
      {
        var day := dayDirs[i];
        var fails := Fails();
        if fails {
          var some := SomeOf(set p: Path | p in local && p.day == day);
          local := local - some;
          return false;
        }
        local := RemoveDay(local, day);
        i := i + 1;
      }
      ok := true;
    }

    /** The write loop of a batch: stops at the first failure. */
    method WriteRecords(ids: seq<int>, ghost all: map<int, Call>, ghost lost: set<int>)
        returns (ok: bool, freed: nat, dayDirs: seq<int>)
      requires OnlyLost(lost, all, calls, local, remote) && LostForGood(lost, all, calls, local, remote)
      requires Elements(ids) <= calls.Keys && forall i, j :: 0 <= i < j < |ids| ==> ids[i] != ids[j]
      modifies this`local
      ensures OnlyLost(lost, all, calls, local, remote) && LostForGood(lost, all, calls, local, remote)
      ensures Distinct(dayDirs) && FilesStay(old(local), local) && (ok && ids != [] ==> dayDirs != [])
      ensures (reliable ==> ok) && (ok ==> AllWritten(all, local, ids) && freed == AudioBytes(calls, ids))
      ensures ok ==> forall i :: 0 <= i < |ids| ==> ids[i] in calls && DayOf(calls[ids[i]]) in dayDirs
    {
      hide OnlyLost, LostForGood, AllWritten, ArchiveAudioExtension, SameOutside, KeepsAudio, DayOf, FilesStay,
        AudioBytes, WriteFiles, Elements;
      assert forall j :: 0 <= j < |ids| ==> ids[j] in calls by { MembersStored(calls, ids); }
      assert AudioBytes(calls, ids[..0]) == 0 by { NothingFreed(calls); }
      StayOnce(local);
      var seenDays: set<int> := {};
      freed, dayDirs := 0, [];
      var i := 0;
      assert AllWritten(all, local, ids[..0]) by { NothingWritten(all, local); }
      while i < |ids|
        invariant 0 <= i <= |ids|
        invariant OnlyLost(lost, all, calls, local, remote) && LostForGood(lost, all, calls, local, remote)
        invariant AllWritten(all, local, ids[..i]) && FilesStay(old(local), local)
        invariant freed == AudioBytes(calls, ids[..i])
        invariant Distinct(dayDirs) && forall d :: d in seenDays <==> d in dayDirs
        invariant forall j :: 0 <= j < i ==> ids[j] in calls && DayOf(calls[ids[j]]) in dayDirs
      {
        var id := ids[i];
        var rec := calls[id];
        var day := DayOf(rec);
        ghost var before := local;
        ok := WriteCallArchiveFile(rec);
        StayTwice(old(local), before, local);
        StoredCalls(lost, all, calls, before, remote);
        WriteKeeps(lost, all, calls, before, local, remote, id);
        if !ok {
          return;
        }
        WriteKeepsWritten(all, before, ids[..i], id);
        assert ids[..i + 1] == ids[..i] + [id];
        AudioBytesOneMore(calls, ids[..i], id);
        freed := freed + |rec.audio|;
        if day !in seenDays {
          seenDays := seenDays + {day};
          dayDirs := dayDirs + [day];
        }
        i := i + 1;
      }
      assert ids[..i] == ids;
      assert ids != [] ==> DayOf(calls[ids[0]]) in dayDirs;
      ok := true;
    }

    /** One batch. Whatever fails, only calls of days that the sync passed over and that were then removed are lost; a
        completed removal loses exactly those of them that object storage does not have. A batch without failure
        archives and deletes exactly the oldest calls, counts them and frees their audio. */
    method ArchiveCallsBatch(config: Config, cutoff: int, limit: int, ghost all: map<int, Call>, ghost lost: set<int>)
        returns (ok: bool, out: Batch, ghost skipped: set<int>, ghost nowLost: set<int>)
      requires OnlyLost(lost, all, calls, local, remote) && LostForGood(lost, all, calls, local, remote)
      modifies this
      ensures OnlyLost(nowLost, all, calls, local, remote) && (ok ==> LostForGood(nowLost, all, calls, local, remote))
      ensures reliable ==> ok && skipped == {} && nowLost == lost
      ensures nowLost == lost || (RemovesLocal(config) && nowLost == lost + Exposed(all, calls, remote, skipped))
      ensures var ids := ListForArchive(old(calls), cutoff, limit);
              ok && RemovesLocal(config) ==>
                forall i :: 0 <= i < |ids| && ids[i] in old(calls) && KeepsAudio(old(calls)[ids[i]]) ==>
                  var c := old(calls)[ids[i]];
                  Archived(local, remote, c) <==> DayOf(c) !in skipped || ArchivedIn(old(remote), c)
      ensures var ids := ListForArchive(old(calls), cutoff, limit);
              && (ok ==> && calls == old(calls) - Elements(ids)
                         && out.archived == out.deleted == |ids|
                         && out.freedBytes == AudioBytes(old(calls), ids)
                         && out.remainingOld + |ids| == |OldIds(old(calls), cutoff)|)
              && (!ok ==> calls == old(calls) || calls == old(calls) - Elements(ids))
      ensures OldestGone(old(calls), calls, cutoff)
      ensures ok ==> BatchCounts(old(calls), calls, cutoff, limit, out)
      ensures !config.s3 ==> remote == old(remote)
      ensures !config.s3 || !config.deleteLocalAfterS3 ==> FilesStay(old(local), local)
      ensures ok ==> (out.localRemoved <==> config.s3 && config.deleteLocalAfterS3 && out.archived > 0)
    {
      hide OnlyLost, LostForGood, Exposed, AllWritten, ListForArchive, OldIds, OldestFirst, CopiedFrom, DaysCopied,
        RemovedFrom, NoneOfDays, AudioBytes, KeepsAudio, Archived, ArchivedIn, DayOf, Distinct, OldestGone, BatchCounts,
        FilesStay;
      StayOnce(local);
      BatchIsOldest(calls, cutoff, limit);
      out, skipped, nowLost := Batch(0, 0, 0, 0, false, 0), {}, lost;
      var fails := Fails();
      if fails {
        return false, out, skipped, nowLost;
      }
      var remaining := |OldIds(calls, cutoff)|;
      out := out.(remainingOld := remaining);
      var ids := ListForArchive(calls, cutoff, limit);
      ListForArchiveMembers(calls, cutoff, limit);
      if |ids| == 0 {
        NothingToArchive(calls, ids);
        BatchCountsAre(calls, cutoff, limit, out);
        return true, out, skipped, nowLost;
      }
      fails := Fails();
      if fails {
        return false, out, skipped, nowLost;
      }
      OldIdsAreStored(calls, cutoff);
      StoredCalls(lost, all, calls, local, remote);
      var freed, dayDirs;
      ok, freed, dayDirs := WriteRecords(ids, all, lost);
      if !ok {
        return;
      }
      ghost var stored, written := calls, local;
      assert forall i :: 0 <= i < |ids| ==> ids[i] in stored && ids[i] in all && stored[ids[i]] == all[ids[i]];
      out := out.(archived := |ids|);
      if config.s3 {
        var synced;
        ok, synced, skipped := SyncArchiveDirs(dayDirs);
        SyncKeeps(lost, all, calls, written, old(remote), remote, dayDirs, skipped);
        if !ok {
          return;
        }
        out := out.(daysSynced := synced);
      }
      var deleted;
      DeleteKeeps(lost, all, calls, local, remote, ids);
      ok, deleted := DeleteCallsByIds(ids);
      if !ok {
        return;
      }
      out := out.(deleted := deleted, freedBytes := freed, remainingOld := remaining - deleted);
      BatchCountsAre(old(calls), cutoff, limit, out);
      if config.s3 && config.deleteLocalAfterS3 && |dayDirs| > 0 {
        ok := RemoveArchiveDayDirs(dayDirs);
        nowLost := lost + Exposed(all, calls, remote, skipped);
        NothingExposed(all, calls, remote);
        RemoveKeeps(lost, all, calls, written, local, remote, dayDirs, skipped);
        if !ok {
          return;
        }
        RemoveLoses(lost, all, calls, written, local, remote, dayDirs, skipped);
        BatchSurvivors(all, stored, ids, written, local, old(remote), remote, dayDirs, skipped);
        out := out.(localRemoved := true);
        BatchCountsAre(old(calls), cutoff, limit, out);
      }
    }

    /** A whole sweep. Whatever fails and wherever it stops, a call is lost only if a sync passed over its day and the
        directory was then removed; when a sweep returns without error, a deleted call is archived if and only if it is
        not in `lost`. Such a sweep has deleted exactly the k oldest of the n old calls it found, in order; its totals
        agree with that; and when it was not cut short it has deleted all of them, in max(1, ceil(n / limit))
        batches. */
    method ArchiveCallsWithProgress(config: Config, cutoff: int, limit: int, untilEmpty: bool)
        returns (ok: bool, result: Sweep, ghost skipped: set<int>, ghost lost: set<int>)
      requires forall id :: id in calls ==> calls[id].id == id
      modifies this
      ensures OnlyLost(lost, old(calls), calls, local, remote)
      ensures ok ==> forall id :: id in old(calls) && id !in calls && KeepsAudio(old(calls)[id]) ==>
                       (Archived(local, remote, old(calls)[id]) <==> id !in lost)
      ensures LostBySkipping(lost, config, old(calls), calls, skipped)
      ensures (reliable ==> ok && lost == {}) && (unhurried ==> !result.stoppedEarly)
      ensures var order := OldestFirst(old(calls), cutoff);
              ok ==>
                && result.archived == result.deleted <= |order|
                && result.remainingOld == |order| - result.archived == |OldIds(calls, cutoff)|
                && calls == old(calls) - Elements(order[..result.archived])
                && result.freedBytes == AudioBytes(old(calls), order[..result.archived])
                && (untilEmpty && !result.stoppedEarly ==> result.archived == |order|)
      ensures OldestGone(old(calls), calls, cutoff)
      ensures ok ==> SweepCounts(old(calls), calls, cutoff, limit, untilEmpty, result)
      ensures !config.s3 ==> remote == old(remote)
      ensures !config.s3 || !config.deleteLocalAfterS3 ==> FilesStay(old(local), local)
      ensures ok ==> (result.localRemoved <==> config.s3 && config.deleteLocalAfterS3 && result.archived > 0)
    {
      hide OldIds, OldestFirst, AudioBytes, ArchiveLimit, ListForArchive, Elements, OnlyLost, LostForGood,
        LostBySkipping, Exposed, KeepsAudio, Archived, ArchivedIn, DayOf, OldestGone, BatchCounts, SweepCounts,
        FilesStay;
      StayOnce(local);
      ghost var all, order, max := calls, OldestFirst(calls, cutoff), ArchiveLimit(limit);
      result, skipped, lost := Sweep(0, 0, 0, 0, false, 0, 0, false), {}, {};
      StartOfSweep(config, calls, local, remote, order);
      while true
        invariant result.archived == result.deleted <= |order| && !result.stoppedEarly
        invariant OnlyLost(lost, all, calls, local, remote) && LostForGood(lost, all, calls, local, remote)
        invariant LostBySkipping(lost, config, all, calls, skipped) && (reliable ==> lost == {})
        invariant calls == all - Elements(order[..result.archived])
        invariant result.freedBytes == AudioBytes(all, order[..result.archived])
        invariant !config.s3 ==> remote == old(remote)
        invariant !config.s3 || !config.deleteLocalAfterS3 ==> FilesStay(old(local), local)
        invariant result.localRemoved <==> config.s3 && config.deleteLocalAfterS3 && result.archived > 0
        invariant result.archived == result.batches * max
        invariant result.batches > 0 ==> result.archived < |order|
        decreases |order| - result.archived, result.batches == 0
      {
        ghost var k, before, lostBefore := result.archived, calls, lost;
        ghost var got := |ListForArchive(calls, cutoff, limit)|;
        BatchDone(all, before, before - Elements(ListForArchive(before, cutoff, limit)), cutoff, limit, k);
        SweepRound(|order|, max, result.batches, k, got);
        OldestAreGone(all, cutoff, k);
        OldestAreGone(all, cutoff, k + got);
        result := result.(batches := result.batches + 1);
        var batch;
        ghost var passedOver;
        ghost var localBefore := local;
        ok, batch, passedOver, lost := ArchiveCallsBatch(config, cutoff, limit, all, lost);
        if FilesStay(old(local), localBefore) && FilesStay(localBefore, local) {
          StayTwice(old(local), localBefore, local);
        }
        MoreLost(config, all, before, calls, remote, skipped, passedOver, lostBefore, lost);
        skipped := skipped + passedOver;
        if !ok {
          return;
        }
        result := AddBatch(result, batch);
        if batch.archived == 0 || batch.remainingOld == 0 || !untilEmpty {
          break;
        }
        if unhurried {
          continue;
        }
        if * {
          result := result.(stoppedEarly := true);
          break;
        }
      }
      NextBatch(all, calls, cutoff, result.archived);
      SweepCountsAre(all, cutoff, limit, untilEmpty, result);
      LostExactly(lost, all, calls, local, remote);
    }
  }

  /** max(1, ceil(n / most)): whole batches but for the last one, and one batch to find that there is nothing. */
  ghost predicate CeilingOf(n: nat, most: nat, batches: nat) {
    batches >= 1 && (if n == 0 then batches == 1 else (batches - 1) * most < n <= batches * most)
  }

  /** The numbers of a sweep: the rows that went, the old ones left, the bytes of the audio that went; a sweep that is
      not cut short leaves no old row, and its batches, full but for the last one, number at least one. */
  ghost predicate SweepCounts(before: map<int, Call>, after: map<int, Call>, cutoff: int, limit: int, untilEmpty: bool,
                              r: Sweep) {
    var n := |set id | id in before && before[id].dateTime < cutoff|;
    var most := if 1 <= limit <= 500 then limit else 500;
    && r.archived == r.deleted == |before| - |after|
    && r.remainingOld == n - r.deleted == |set id | id in after && after[id].dateTime < cutoff|
    && r.freedBytes == |BytePositions(before, before.Keys - after.Keys)|
    && (untilEmpty && !r.stoppedEarly ==>
          && (forall id :: id in after ==> after[id].dateTime >= cutoff)
          && CeilingOf(n, most, r.batches))
  }

  lemma SweepCountsAre(all: map<int, Call>, cutoff: int, limit: int, untilEmpty: bool, r: Sweep)
    requires var order := OldestFirst(all, cutoff);
             && r.archived == r.deleted <= |order| && r.remainingOld == |order| - r.archived
             && r.freedBytes == AudioBytes(all, order[..r.archived])
             && (untilEmpty && !r.stoppedEarly ==>
                   r.archived == |order| && CeilingOf(|order|, ArchiveLimit(limit), r.batches))
    ensures SweepCounts(all, all - Elements(OldestFirst(all, cutoff)[..r.archived]), cutoff, limit, untilEmpty, r)
  {
    hide OldestFirst, OldIds, Elements, AudioBytes, BytePositions, CeilingOf;
    var order := OldestFirst(all, cutoff);
    var now := all - Elements(order[..r.archived]);
    OldestCounts(all, cutoff, r.archived);
    TakenIsOld(all, cutoff, r.archived);
    AudioBytesIs(all, order[..r.archived]);
    GoneKeys(all, Elements(order[..r.archived]));
    if untilEmpty && !r.stoppedEarly {
      var left := set id | id in now && now[id].dateTime < cutoff;
      assert |left| == 0;
      forall id | id in now ensures now[id].dateTime >= cutoff {
        assert id !in left;
      }
    }
  }

  lemma TakenIsOld(all: map<int, Call>, cutoff: int, k: nat)
    requires k <= |OldestFirst(all, cutoff)|
    ensures var taken := OldestFirst(all, cutoff)[..k];
            && Elements(taken) <= all.Keys && forall i, j :: 0 <= i < j < |taken| ==> taken[i] != taken[j]
  {
    hide OrderBy;
    var order := OldestFirst(all, cutoff);
    forall id | id in Elements(order[..k]) ensures id in all.Keys {
      assert id in order;
    }
  }

  /** The numbers of a batch: as many rows as the limit allows (500 when it is out of range), or all the old ones; the
      old rows left; the bytes of the audio that went. */
  ghost predicate BatchCounts(before: map<int, Call>, after: map<int, Call>, cutoff: int, limit: int, out: Batch) {
    var n := |set id | id in before && before[id].dateTime < cutoff|;
    var most := if 1 <= limit <= 500 then limit else 500;
    && out.archived == out.deleted == |before| - |after| == (if n <= most then n else most)
    && out.remainingOld == n - out.deleted == |set id | id in after && after[id].dateTime < cutoff|
    && out.freedBytes == |BytePositions(before, before.Keys - after.Keys)|
  }

  lemma BatchIsOldest(calls: map<int, Call>, cutoff: int, limit: int)
    ensures OldestGone(calls, calls, cutoff)
    ensures OldestGone(calls, calls - Elements(ListForArchive(calls, cutoff, limit)), cutoff)
  {
    hide OldestFirst, OldIds, Elements;
    OldestAreGone(calls, cutoff, Least2(ArchiveLimit(limit), |OldestFirst(calls, cutoff)|));
  }

  lemma BatchCountsAre(calls: map<int, Call>, cutoff: int, limit: int, out: Batch)
    requires var ids := ListForArchive(calls, cutoff, limit);
             && out.archived == out.deleted == |ids| && out.freedBytes == AudioBytes(calls, ids)
             && out.remainingOld + |ids| == |OldIds(calls, cutoff)|
    ensures BatchCounts(calls, calls - Elements(ListForArchive(calls, cutoff, limit)), cutoff, limit, out)
  {
    hide OldestFirst, OldIds, Elements, AudioBytes, BytePositions;
    var ids := ListForArchive(calls, cutoff, limit);
    OldestCounts(calls, cutoff, |ids|);
    ListForArchiveMembers(calls, cutoff, limit);
    AudioBytesIs(calls, ids);
    OldIdsAreStored(calls, cutoff);
    GoneKeys(calls, Elements(ids));
  }

  lemma GoneKeys(calls: map<int, Call>, gone: set<int>)
    requires gone <= calls.Keys
    ensures calls.Keys - (calls - gone).Keys == gone
  {
    assert (calls - gone).Keys == calls.Keys - gone;
  }

  /** What is lost was deleted and is of a day passed over; nothing is lost when local copies are kept. */
  ghost predicate LostBySkipping(lost: set<int>, config: Config, all: map<int, Call>, calls: map<int, Call>,
                                 skipped: set<int>) {
    forall id :: id in lost ==> RemovesLocal(config) && id in all && id !in calls && DayOf(all[id]) in skipped
  }

  /** Running totals of a sweep. */
  function AddBatch(r: Sweep, b: Batch): Sweep {
    r.(archived := r.archived + b.archived, deleted := r.deleted + b.deleted, freedBytes := r.freedBytes + b.freedBytes,
       daysSynced := r.daysSynced + b.daysSynced, localRemoved := r.localRemoved || b.localRemoved,
       remainingOld := b.remainingOld)
  }

  /** Any subset: what a failing tool got through. */
  method SomeOf<T(==)>(s: set<T>) returns (some: set<T>)
    ensures some <= s
  {
    some := {};
    var rest := s;
    while rest != {}
      invariant some <= s && rest <= s
      decreases |rest|
    {
      var x := AnyOf(rest);
      rest := rest - {x};
      if * {
        some := some + {x};
      }
    }
  }

  // ---------- lemmas the methods use

  lemma StayOnce(fs: Files)
    ensures FilesStay(fs, fs)
  {
  }

  lemma StayTwice(a: Files, b: Files, c: Files)
    requires FilesStay(a, b) && FilesStay(b, c)
    ensures FilesStay(a, c)
  {
  }

  lemma NothingFreed(calls: map<int, Call>)
    ensures AudioBytes(calls, []) == 0
  {
  }

  lemma MembersStored(calls: map<int, Call>, ids: seq<int>)
    requires Elements(ids) <= calls.Keys
    ensures forall j :: 0 <= j < |ids| ==> ids[j] in calls
  {
    assert forall j :: 0 <= j < |ids| ==> ids[j] in Elements(ids);
  }

  lemma NothingWritten(all: map<int, Call>, local: Files)
    ensures AllWritten(all, local, [])
  {
  }

  lemma StoredCalls(lost: set<int>, all: map<int, Call>, calls: map<int, Call>, local: Files, remote: Files)
    requires OnlyLost(lost, all, calls, local, remote)
    ensures forall id :: id in calls ==> id in all && all[id] == calls[id]
    ensures forall id :: id in all ==> all[id].id == id
  {
  }

  lemma NothingToArchive(calls: map<int, Call>, ids: seq<int>)
    requires ids == []
    ensures calls - Elements(ids) == calls && AudioBytes(calls, ids) == 0
  {
  }

  lemma OldIdsAreStored(calls: map<int, Call>, cutoff: int)
    ensures OldIds(calls, cutoff) <= calls.Keys
  {
  }

  lemma StartOfSweep(config: Config, calls: map<int, Call>, local: Files, remote: Files, order: seq<int>)
    requires forall id :: id in calls ==> calls[id].id == id
    ensures OnlyLost({}, calls, calls, local, remote) && LostForGood({}, calls, calls, local, remote)
    ensures LostBySkipping({}, config, calls, calls, {})
    ensures calls - Elements(order[..0]) == calls && AudioBytes(calls, order[..0]) == 0
  {
    assert Elements(order[..0]) == {};
  }

  lemma BatchSurvivors(all: map<int, Call>, calls: map<int, Call>, ids: seq<int>, local: Files, after: Files,
                       before: Files, remote: Files, days: seq<int>, skipped: set<int>)
    requires AllWritten(all, local, ids) && NoneOfDays(after, days)
    requires CopiedFrom(local, before, remote, days, skipped) && DaysCopied(local, remote, days, skipped)
    requires forall i :: 0 <= i < |ids| ==> ids[i] in calls && ids[i] in all && calls[ids[i]] == all[ids[i]]
    requires forall i :: 0 <= i < |ids| ==> DayOf(calls[ids[i]]) in days
    ensures forall i :: 0 <= i < |ids| && KeepsAudio(calls[ids[i]]) ==>
              (Archived(after, remote, calls[ids[i]]) <==>
               DayOf(calls[ids[i]]) !in skipped || ArchivedIn(before, calls[ids[i]]))
  {
    hide KeepsAudio, CopiedFrom, DaysCopied, NoneOfDays, Archived, ArchivedIn, DayOf;
    forall i | 0 <= i < |ids| && KeepsAudio(calls[ids[i]])
      ensures Archived(after, remote, calls[ids[i]]) <==>
              DayOf(calls[ids[i]]) !in skipped || ArchivedIn(before, calls[ids[i]])
    {
      SurvivesIffNotSkipped(calls[ids[i]], local, after, before, remote, days, skipped);
    }
  }

  lemma LostExactly(lost: set<int>, all: map<int, Call>, calls: map<int, Call>, local: Files, remote: Files)
    requires OnlyLost(lost, all, calls, local, remote) && LostForGood(lost, all, calls, local, remote)
    ensures forall id :: id in all && id !in calls && KeepsAudio(all[id]) ==>
              (Archived(local, remote, all[id]) <==> id !in lost)
  {
    hide KeepsAudio, ArchiveAudioExtension, Intact;
  }

  lemma MoreLost(config: Config, all: map<int, Call>, before: map<int, Call>, after: map<int, Call>, remote: Files,
                 skipped: set<int>, more: set<int>, lost: set<int>, nowLost: set<int>)
    requires LostBySkipping(lost, config, all, before, skipped)
    requires forall id :: id in after ==> id in before
    requires nowLost == lost || (RemovesLocal(config) && nowLost == lost + Exposed(all, after, remote, more))
    ensures LostBySkipping(nowLost, config, all, after, skipped + more)
  {
    hide ArchivedIn;
  }

  lemma NothingExposed(all: map<int, Call>, calls: map<int, Call>, remote: Files)
    ensures Exposed(all, calls, remote, {}) == {}
  {
  }

  lemma Slices(order: seq<int>, k: nat, n: nat)
    requires k + n <= |order|
    ensures order[k..][..n] == order[k..k + n] && order[..k + n] == order[..k] + order[k..k + n]
  {
  }

  lemma ListIsTake(calls: map<int, Call>, cutoff: int, limit: int, order: seq<int>)
    requires OldestFirst(calls, cutoff) == order
    ensures ListForArchive(calls, cutoff, limit) == order[..Least2(ArchiveLimit(limit), |order|)]
  {
    hide OldestFirst, OldIds, ArchiveLimit;
  }

  lemma BatchIsSlice(all: map<int, Call>, before: map<int, Call>, cutoff: int, limit: int, k: nat)
    requires k <= |OldIds(all, cutoff)| && before == all - Elements(OldestFirst(all, cutoff)[..k])
    ensures var order, ids := OldestFirst(all, cutoff), ListForArchive(before, cutoff, limit);
            && k + |ids| <= |order| && ids == order[k..k + |ids|] && order[..k + |ids|] == order[..k] + ids
            && |ids| == Least2(ArchiveLimit(limit), |order| - k)
  {
    hide OldIds, OldestFirst, ArchiveLimit, ListForArchive, Elements;
    NextBatch(all, before, cutoff, k);
    var order := OldestFirst(all, cutoff);
    ListIsTake(before, cutoff, limit, order[k..]);
    Slices(order, k, Least2(ArchiveLimit(limit), |order| - k));
  }

  lemma MinusTwice(all: map<int, Call>, a: seq<int>, b: seq<int>)
    ensures all - Elements(a) - Elements(b) == all - Elements(a + b)
  {
    assert Elements(a + b) == Elements(a) + Elements(b);
  }

  /** A batch takes the next slice of the original order. */
  lemma BatchDone(all: map<int, Call>, before: map<int, Call>, after: map<int, Call>, cutoff: int, limit: int, k: nat)
    requires k <= |OldIds(all, cutoff)| && before == all - Elements(OldestFirst(all, cutoff)[..k])
    requires after == before - Elements(ListForArchive(before, cutoff, limit))
    ensures var order, ids := OldestFirst(all, cutoff), ListForArchive(before, cutoff, limit);
            && k + |ids| <= |order| && |ids| == Least2(ArchiveLimit(limit), |order| - k)
            && after == all - Elements(order[..k + |ids|])
            && AudioBytes(all, order[..k + |ids|]) == AudioBytes(all, order[..k]) + AudioBytes(before, ids)
            && |OldIds(before, cutoff)| == |order| - k
  {
    NextBatch(all, before, cutoff, k);
    BatchIsSlice(all, before, cutoff, limit, k);
    SliceIsStored(all, before, cutoff, limit);
    hide OldestFirst, OldIds, AudioBytes, ListForArchive, Elements;
    var order, ids := OldestFirst(all, cutoff), ListForArchive(before, cutoff, limit);
    AudioBytesJoin(all, order[..k], ids);
    MinusTwice(all, order[..k], ids);
    AudioBytesAgree(all, before, ids);
  }

  /** The number of batches after one more batch of a sweep. */
  lemma SweepRound(n: nat, max: nat, batches: nat, k: nat, got: nat)
    requires max > 0 && k == batches * max <= n && got == Least2(max, n - k) && (batches > 0 ==> k < n)
    ensures got == 0 || n - k - got == 0 ==> CeilingOf(n, max, batches + 1) && k + got == n
    ensures got != 0 && n - k - got != 0 ==> k + got == (batches + 1) * max && k + got < n
  {
    assert (batches + 1) * max == k + max;
  }

  lemma SliceIsStored(all: map<int, Call>, before: map<int, Call>, cutoff: int, limit: int)
    requires forall id :: id in before ==> id in all && before[id] == all[id]
    ensures var ids := ListForArchive(before, cutoff, limit);
            forall i :: 0 <= i < |ids| ==> ids[i] in before && ids[i] in all && all[ids[i]] == before[ids[i]]
  {
    var ids := ListForArchive(before, cutoff, limit);
    ListForArchiveMembers(before, cutoff, limit);
    forall i | 0 <= i < |ids| ensures ids[i] in before {
      assert ids[i] in Elements(ids);
    }
  }
}
