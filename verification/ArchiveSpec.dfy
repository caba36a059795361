/** Files, directories and queries of the call archive (server/internal/api/call_archive.go, call_archive_s3.go,
    server/internal/database/call_archive.go). */
module ArchiveSpec {
  import opened Ordering
  import opened Text

  datatype Call = Call(id: int, dateTime: int, audioName: string, audioType: string, info: string, audio: seq<bv8>)

  // ---------- file names

  /** The last path element has no dot. */
  ghost predicate NoDotInName(path: string) {
    exists k :: 0 <= k <= |path| && '.' !in path[k..] && (k == 0 || path[k - 1] == '/')
  }

  /** The suffix of the last path element from its final dot, or nothing (Go's filepath.Ext). */
  function FileExt(path: string): (ext: string)
    ensures ext != "" ==> ext[0] == '.' && '/' !in ext && '.' !in ext[1..]
    ensures |ext| <= |path| && path[|path| - |ext|..] == ext
    ensures ext == "" ==> NoDotInName(path)
  {
    FileExtFrom(path, |path|)
  }

  function FileExtFrom(path: string, i: nat): (ext: string)
    requires i <= |path| && '/' !in path[i..] && '.' !in path[i..]
    ensures ext != "" ==> ext[0] == '.' && '/' !in ext && '.' !in ext[1..]
    ensures |ext| <= |path| && path[|path| - |ext|..] == ext
    ensures ext == "" ==> NoDotInName(path)
  {
    if i == 0 || path[i - 1] == '/' then ""
    else if path[i - 1] == '.' then path[i - 1..]
    else FileExtFrom(path, i - 1)
  }

  function BeforeSemicolon(s: string): (t: string)
    ensures t <= s && ';' !in t && (t == s || s[|t|] == ';')
  {
    if s == "" || s[0] == ';' then "" else [s[0]] + BeforeSemicolon(s[1..])
  }

  function ArchiveAudioExtension(audioName: string, audioType: string): (ext: string)
    ensures ext != "" && ext[0] == '.' && '/' !in ext
    ensures var name := FileExt(TrimSpace(audioName)); name != "" ==> ext == ToLower(name)
    ensures FileExt(TrimSpace(audioName)) == "" ==>
              var t := ToLower(TrimSpace(BeforeSemicolon(audioType)));
              && ext in {".mp3", ".m4a", ".wav", ".webm", ".ogg", ".bin"}
              && (ext == ".mp3" <==> Contains(t, "mpeg") || Contains(t, "mp3"))
              && (ext == ".m4a" <==> ext != ".mp3" && (Contains(t, "mp4") || Contains(t, "m4a") || Contains(t, "aac")))
              && (ext == ".wav" <==> ext !in {".mp3", ".m4a"} && Contains(t, "wav"))
              && (ext == ".webm" <==> ext !in {".mp3", ".m4a", ".wav"} && Contains(t, "webm"))
              && (ext == ".ogg" <==> ext !in {".mp3", ".m4a", ".wav", ".webm"} && Contains(t, "ogg"))
  {
    var fromName := ToLower(FileExt(TrimSpace(audioName)));
    if fromName != "" then
      LowerKeepsDot(FileExt(TrimSpace(audioName)));
      fromName
    else
      var t := ToLower(TrimSpace(BeforeSemicolon(audioType)));
      if Contains(t, "mpeg") || Contains(t, "mp3") then ".mp3"
      else if Contains(t, "mp4") || Contains(t, "m4a") || Contains(t, "aac") then ".m4a"
      else if Contains(t, "wav") then ".wav"
      else if Contains(t, "webm") then ".webm"
      else if Contains(t, "ogg") then ".ogg"
      else ".bin"
  }

  lemma LowerKeepsDot(ext: string)
    requires ext != "" && ext[0] == '.' && '/' !in ext
    ensures ToLower(ext) != "" && ToLower(ext)[0] == '.' && '/' !in ToLower(ext)
  {
    forall i | 0 <= i < |ext| ensures ToLower(ext)[i] != '/' {
      assert ext[i] in ext;
    }
  }

  // ---------- archive directories

  /** "call-", the id and the extension: the name of a file inside its day's directory. */
  function FileName(id: nat, ext: string): string {
    "call-" + Decimal(id) + ext
  }

  lemma DigitsEndAtDot(id: nat, ext: string)
    requires ext != "" && ext[0] == '.'
    ensures var n, k := FileName(id, ext), 5 + |Decimal(id)|;
            && k < |n| && n[k] == '.' && (forall i :: 5 <= i < k ==> n[i] != '.')
            && n[5..k] == Decimal(id) && n[k..] == ext
  {
    hide Decimal;
    var n := FileName(id, ext);
    assert n[5..] == Decimal(id) + ext;
    forall i | 5 <= i < 5 + |Decimal(id)| ensures n[i] != '.' {
      assert n[i] == Decimal(id)[i - 5];
    }
  }

  /** File names of different calls, or with different extensions, differ. */
  lemma FileNamesDiffer(id1: nat, ext1: string, id2: nat, ext2: string)
    requires ext1 != "" && ext1[0] == '.' && ext2 != "" && ext2[0] == '.'
    ensures FileName(id1, ext1) == FileName(id2, ext2) <==> id1 == id2 && ext1 == ext2
  {
    DigitsEndAtDot(id1, ext1);
    DigitsEndAtDot(id2, ext2);
    hide FileName, Decimal;
    if FileName(id1, ext1) == FileName(id2, ext2) {
      assert |Decimal(id1)| == |Decimal(id2)|;
      DecimalIsInjective(id1, id2);
    }
  }

  /** A day's directory is named after the UTC date; inside it, `FileNamesDiffer` lets a file be named by its call's id
      and its extension. */
  datatype Path = Path(day: int, id: int, ext: string)

  datatype Contents = Audio(bytes: seq<bv8>) | Manifest(call: Call) | Partial

  type Files = map<Path, Contents>

  const SECONDS_PER_DAY := 86400

  function DayOf(c: Call): int {
    c.dateTime / SECONDS_PER_DAY
  }

  /** A day holds the 86400 seconds that start with it. */
  lemma DayOfIs(c: Call)
    ensures DayOf(c) * 86400 <= c.dateTime < DayOf(c) * 86400 + 86400
  {
  }

  function AudioPath(c: Call): Path {
    Path(DayOf(c), c.id, ArchiveAudioExtension(c.audioName, c.audioType))
  }

  function ManifestPath(c: Call): Path {
    Path(DayOf(c), c.id, ".json")
  }

  /** The audio is written before the manifest. */
  function WriteFiles(fs: Files, c: Call): Files {
    fs[AudioPath(c) := Audio(c.audio)][ManifestPath(c) := Manifest(c)]
  }

  ghost predicate ArchivedIn(fs: Files, c: Call) {
    && AudioPath(c) in fs && fs[AudioPath(c)] == Audio(c.audio)
    && ManifestPath(c) in fs && fs[ManifestPath(c)] == Manifest(c)
  }

  /** Writing a call's files archives it if and only if its audio extension is not ".json": such audio is overwritten
      by its own manifest. */
  lemma WriteArchivesUnlessJson(fs: Files, c: Call)
    ensures ArchivedIn(WriteFiles(fs, c), c) <==> ArchiveAudioExtension(c.audioName, c.audioType) != ".json"
  {
    hide ArchiveAudioExtension;
  }

  lemma JsonNameTrimmed()
    ensures TrimSpace("a.json") == "a.json"
  {
    assert TrimLeft("a.json") == "a.json" && TrimRight("a.json") == "a.json";
  }

  lemma FileExtStep(path: string, i: nat)
    requires 0 < i <= |path| && '/' !in path[i..] && '.' !in path[i..]
    ensures path[i - 1] == '.' ==> FileExtFrom(path, i) == path[i - 1..]
    ensures path[i - 1] != '.' && path[i - 1] != '/' ==>
              && '/' !in path[i - 1..] && '.' !in path[i - 1..]
              && FileExtFrom(path, i) == FileExtFrom(path, i - 1)
  {
    assert path[i - 1..] == [path[i - 1]] + path[i..];
  }

  /** The last dot after the last slash starts the extension. */
  lemma {:induction false} FileExtFromIs(path: string, k: nat, i: nat)
    requires k < i <= |path| && path[k] == '.' && '/' !in path[i..] && '.' !in path[i..]
    requires forall j :: k < j < i ==> path[j] != '.' && path[j] != '/'
    ensures FileExtFrom(path, i) == path[k..]
  {
    hide FileExtFrom;
    FileExtStep(path, i);
    if i > k + 1 {
      FileExtFromIs(path, k, i - 1);
    }
  }

  lemma JsonFileExt()
    ensures FileExt("a.json") == ".json"
  {
    hide FileExtFrom;
    var path := "a.json";
    assert path[6..] == "" && path[1..] == ".json";
    FileExtFromIs(path, 1, 6);
  }

  lemma JsonExtension(audioType: string)
    ensures ArchiveAudioExtension("a.json", audioType) == ".json"
  {
    hide TrimSpace, FileExt;
    JsonNameTrimmed();
    JsonFileExt();
    assert ToLower(".json") == ".json";
  }

  /** The failing input: the audio of a call uploaded as "a.json" is gone once its manifest is written. */
  lemma JsonNameLosesAudio(fs: Files, c: Call)
    requires c.audioName == "a.json"
    ensures !ArchivedIn(WriteFiles(fs, c), c)
  {
    JsonExtension(c.audioType);
    WriteArchivesUnlessJson(fs, c);
    hide ArchiveAudioExtension;
  }

  /** A sync copies every file of a day's directory to object storage. */
  function SyncDay(local: Files, remote: Files, day: int): Files {
    remote + map p | p in local && p.day == day :: local[p]
  }

  function RemoveDay(local: Files, day: int): Files {
    map p | p in local && p.day != day :: local[p]
  }

  ghost predicate Archived(local: Files, remote: Files, c: Call) {
    ArchivedIn(local, c) || ArchivedIn(remote, c)
  }

  // ---------- queries

  function OldIds(calls: map<int, Call>, cutoff: int): set<int> {
    set id | id in calls && calls[id].dateTime < cutoff
  }

  function StartTimes(calls: map<int, Call>): map<int, int> {
    map id | id in calls :: calls[id].dateTime
  }

  /** Every old call, ORDER BY datetime, id. */
  function OldestFirst(calls: map<int, Call>, cutoff: int): (ids: seq<int>)
    ensures |ids| == |OldIds(calls, cutoff)|
    ensures forall id :: id in ids <==> id in OldIds(calls, cutoff)
  {
    OrderBy(StartTimes(calls), OldIds(calls, cutoff))
  }

  function ArchiveLimit(limit: int): (k: nat)
    ensures 0 < k <= 500
  {
    if limit <= 0 || limit > 500 then 500 else limit
  }

  function Least2(a: nat, b: nat): nat {
    if a <= b then a else b
  }

  /** ListCallsForArchive. */
  function ListForArchive(calls: map<int, Call>, cutoff: int, limit: int): (ids: seq<int>)
    ensures |ids| == Least2(ArchiveLimit(limit), |OldIds(calls, cutoff)|)
  {
    var ids := OldestFirst(calls, cutoff);
    ids[..Least2(ArchiveLimit(limit), |ids|)]
  }

  lemma ListForArchiveMembers(calls: map<int, Call>, cutoff: int, limit: int)
    ensures var ids := ListForArchive(calls, cutoff, limit);
            && Elements(ids) <= OldIds(calls, cutoff) && |Elements(ids)| == |ids|
            && (forall i, j :: 0 <= i < j < |ids| ==> ids[i] != ids[j])
  {
    hide OldIds;
    var all, ids := OldestFirst(calls, cutoff), ListForArchive(calls, cutoff, limit);
    forall id | id in ids ensures id in OldIds(calls, cutoff) {
      assert id in all;
    }
    OrderedIsDistinct(StartTimes(calls), ids);
  }

  /** What a deletion of old calls must look like: rows are only removed, only rows from before the cutoff, and no old
      row that stays is earlier than one that goes. */
  ghost predicate OldestGone(before: map<int, Call>, after: map<int, Call>, cutoff: int) {
    && (forall id :: id in after ==> id in before && after[id] == before[id])
    && (forall id :: id in before && id !in after ==> before[id].dateTime < cutoff)
    && (forall a, b :: a in before && a !in after && b in after && before[b].dateTime < cutoff ==>
          before[a].dateTime < before[b].dateTime || (before[a].dateTime == before[b].dateTime && a < b))
  }

  lemma OrderPositions(calls: map<int, Call>, cutoff: int, i: nat, j: nat)
    requires i < j < |OldestFirst(calls, cutoff)|
    ensures var a, b := OldestFirst(calls, cutoff)[i], OldestFirst(calls, cutoff)[j];
            && a in calls && b in calls
            && (calls[a].dateTime < calls[b].dateTime || (calls[a].dateTime == calls[b].dateTime && a < b))
  {
    hide OrderBy;
    var order := OldestFirst(calls, cutoff);
    assert order[i] in order && order[j] in order;
    assert Less(StartTimes(calls), order[i], order[j]);
  }

  /** Deleting the first k of the order deletes the k oldest calls. */
  lemma OldestAreGone(all: map<int, Call>, cutoff: int, k: nat)
    requires k <= |OldestFirst(all, cutoff)|
    ensures OldestGone(all, all - Elements(OldestFirst(all, cutoff)[..k]), cutoff)
  {
    var order := OldestFirst(all, cutoff);
    var now := all - Elements(order[..k]);
    forall id | id in all && id !in now ensures id in order && all[id].dateTime < cutoff {
      var i :| 0 <= i < k && order[i] == id;
      assert order[i] in order;
    }
    forall a, b | a in all && a !in now && b in now && all[b].dateTime < cutoff
      ensures all[a].dateTime < all[b].dateTime || (all[a].dateTime == all[b].dateTime && a < b)
    {
      assert b in OldIds(all, cutoff);
      var i :| 0 <= i < k && order[i] == a;
      var j := LaterPosition(order, k, b);
      OrderPositions(all, cutoff, i, j);
    }
  }

  lemma Taken(order: seq<int>, k: nat, j: nat)
    requires j < k <= |order|
    ensures order[j] in Elements(order[..k])
  {
    assert order[..k][j] == order[j];
  }

  lemma LaterPosition(order: seq<int>, k: nat, x: int) returns (j: nat)
    requires k <= |order| && x in order && x !in Elements(order[..k])
    ensures k <= j < |order| && order[j] == x
  {
    j :| 0 <= j < |order| && order[j] == x;
    if j < k {
      Taken(order, k, j);
    }
  }

  /** The numbers: k rows go, and the old ones that stay are the others. */
  lemma OldestCounts(all: map<int, Call>, cutoff: int, k: nat)
    requires k <= |OldestFirst(all, cutoff)|
    ensures var now := all - Elements(OldestFirst(all, cutoff)[..k]);
            && |all| - |now| == k
            && |set id | id in all && all[id].dateTime < cutoff| == |OldestFirst(all, cutoff)|
            && |set id | id in now && now[id].dateTime < cutoff| == |OldestFirst(all, cutoff)| - k
  {
    var order := OldestFirst(all, cutoff);
    var now := all - Elements(order[..k]);
    OrderedIsDistinct(StartTimes(all), order[..k]);
    forall id | id in Elements(order[..k]) ensures id in all.Keys {
      assert id in order;
    }
    SubsetSize(Elements(order[..k]), all.Keys);
    assert now.Keys == all.Keys - Elements(order[..k]);
    assert |now| == |now.Keys| && |all| == |all.Keys|;
    NextBatch(all, now, cutoff, k);
    SameOld(all, cutoff);
    SameOld(now, cutoff);
  }

  lemma SameOld(calls: map<int, Call>, cutoff: int)
    ensures OldIds(calls, cutoff) == set id | id in calls && calls[id].dateTime < cutoff
  {
  }

  /** The positions of the audio bytes of some calls. */
  function BytePositions(calls: map<int, Call>, ids: set<int>): set<(int, int)> {
    set id, k | id in ids && id in calls && 0 <= k < |calls[id].audio| :: (id, k)
  }

  function PositionsOf(id: int, n: nat): (s: set<(int, int)>)
    ensures |s| == n && forall p :: p in s <==> p.0 == id && 0 <= p.1 < n
  {
    if n == 0 then {} else PositionsOf(id, n - 1) + {(id, n - 1)}
  }

  /** The bytes of a list of distinct calls are as many as their positions. */
  lemma {:induction false} AudioBytesIs(calls: map<int, Call>, ids: seq<int>)
    requires forall i, j :: 0 <= i < j < |ids| ==> ids[i] != ids[j]
    ensures AudioBytes(calls, ids) == |BytePositions(calls, Elements(ids))|
  {
    if ids == [] {
      assert BytePositions(calls, Elements(ids)) == {};
    } else {
      var n := |ids| - 1;
      AudioBytesIs(calls, ids[..n]);
      assert ids == ids[..n] + [ids[n]];
      assert Elements(ids) == Elements(ids[..n]) + {ids[n]};
      assert ids[n] !in Elements(ids[..n]);
      hide Elements, BytePositions;
      PositionsOfOneMore(calls, Elements(ids[..n]), ids[n]);
    }
  }

  lemma PositionsOfOneMore(calls: map<int, Call>, ids: set<int>, id: int)
    requires id !in ids
    ensures |BytePositions(calls, ids + {id})| ==
            |BytePositions(calls, ids)| + if id in calls then |calls[id].audio| else 0
  {
    var before := BytePositions(calls, ids);
    var added := if id in calls then PositionsOf(id, |calls[id].audio|) else {};
    assert BytePositions(calls, ids + {id}) == before + added;
    assert before !! added;
  }

  function AudioBytes(calls: map<int, Call>, ids: seq<int>): nat {
    if ids == [] then 0
    else AudioBytes(calls, ids[..|ids| - 1]) + (if ids[|ids| - 1] in calls then |calls[ids[|ids| - 1]].audio| else 0)
  }

  lemma AudioBytesOneMore(calls: map<int, Call>, ids: seq<int>, id: int)
    requires id in calls
    ensures AudioBytes(calls, ids + [id]) == AudioBytes(calls, ids) + |calls[id].audio|
  {
    assert (ids + [id])[..|ids|] == ids;
  }

  lemma {:induction false} AudioBytesJoin(calls: map<int, Call>, a: seq<int>, b: seq<int>)
    ensures AudioBytes(calls, a + b) == AudioBytes(calls, a) + AudioBytes(calls, b)
  {
    if b == [] {
      assert a + b == a;
    } else {
      assert (a + b)[..|a + b| - 1] == a + b[..|b| - 1];
      AudioBytesJoin(calls, a, b[..|b| - 1]);
    }
  }

  lemma {:induction false} AudioBytesAgree(c1: map<int, Call>, c2: map<int, Call>, ids: seq<int>)
    requires forall i :: 0 <= i < |ids| ==> ids[i] in c1 && ids[i] in c2 && c1[ids[i]] == c2[ids[i]]
    ensures AudioBytes(c1, ids) == AudioBytes(c2, ids)
  {
    if ids != [] {
      AudioBytesAgree(c1, c2, ids[..|ids| - 1]);
    }
  }

  lemma OldIdsWithout(all: map<int, Call>, gone: set<int>, cutoff: int)
    ensures OldIds(all - gone, cutoff) == OldIds(all, cutoff) - gone
  {
    forall id: int ensures id in OldIds(all - gone, cutoff) <==> id in OldIds(all, cutoff) - gone {
      assert id in all - gone <==> id in all && id !in gone;
    }
  }

  lemma StartTimesAgree(all: map<int, Call>, gone: set<int>, id: int)
    requires id in all && id !in gone
    ensures RankOf(StartTimes(all), id) == RankOf(StartTimes(all - gone), id)
  {
  }

  lemma OldIsStored(calls: map<int, Call>, cutoff: int, id: int)
    requires id in OldIds(calls, cutoff)
    ensures id in calls
  {
  }

  /** After the k oldest calls are gone, the next batch is the next slice of the original order. */
  lemma NextBatch(all: map<int, Call>, now: map<int, Call>, cutoff: int, k: nat)
    requires k <= |OldIds(all, cutoff)|
    requires now == all - Elements(OldestFirst(all, cutoff)[..k])
    ensures OldestFirst(now, cutoff) == OldestFirst(all, cutoff)[k..]
    ensures |OldIds(now, cutoff)| == |OldIds(all, cutoff)| - k
  {
    hide OrderBy, OldIds, StartTimes, Elements, RankOf;
    var gone := Elements(OldestFirst(all, cutoff)[..k]);
    OldIdsWithout(all, gone, cutoff);
    OrderByTail(StartTimes(all), OldIds(all, cutoff), k);
    forall id | id in OldIds(now, cutoff) ensures RankOf(StartTimes(all), id) == RankOf(StartTimes(now), id) {
      OldIsStored(all, cutoff, id);
      StartTimesAgree(all, gone, id);
    }
    OrderByAgrees(StartTimes(all), StartTimes(now), OldIds(now, cutoff));
  }
}
