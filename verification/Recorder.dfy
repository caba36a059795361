/** The voice-activated recorder (tools/p7-recorder/p7_recorder.py): a pre-roll, silence and length state machine over
    the stream of audio blocks. A block's loudness is an input. */
module Recorder {

  /** Lengths in whole milliseconds and seconds, as configured. */
  datatype AudioConfig = AudioConfig(blockMs: int, threshold: int, silenceMs: int, minDurationMs: int,
                                     maxDurationSec: int, preRollMs: int)

  datatype Limits = Limits(silence: nat, minBlocks: nat, maxBlocks: nat, preRoll: nat)

  datatype Block = Block(level: int, samples: seq<int>)

  datatype Cause = Quiet | TooLong | EndOfStream

  /** The blocks lo..hi-1 of the stream; `trigger` is the voiced block that started it. */
  datatype Segment = Segment(lo: nat, trigger: nat, hi: nat, cause: Cause)

  function AtLeast(x: int, least: nat): nat {
    if x < least then least else x
  }

  function Abs(x: int): nat {
    if x < 0 then -x else x
  }

  /** Python's int(x / y): the quotient without its fraction. */
  function Quotient(x: int, y: int): int
    requires y != 0
  {
    if (x < 0) == (y < 0) then Abs(x) / Abs(y) else -(Abs(x) / Abs(y))
  }

  /** Durations in whole blocks. */
  function LimitsOf(c: AudioConfig): Limits
    requires c.blockMs != 0
  {
    Limits(AtLeast(Quotient(c.silenceMs, c.blockMs), 1), AtLeast(Quotient(c.minDurationMs, c.blockMs), 1),
           AtLeast(Quotient(c.maxDurationSec * 1000, c.blockMs), 1), AtLeast(Quotient(c.preRollMs, c.blockMs), 0))
  }

  lemma OneQuotient(x: nat, y: nat)
    requires y > 0
    ensures x / y >= 1 <==> x >= y
  {
    if x >= y {
      assert x / y >= 1;
    }
  }

  /** `blocks` is the number of whole blocks that fit into a duration, but at least `least`. With a negative block
      length both are counted downwards. */
  ghost predicate WholeBlocks(duration: int, blockMs: int, least: nat, blocks: nat) {
    && blocks >= least
    && if blockMs > 0 then (blocks > least ==> blocks * blockMs <= duration) && duration < (blocks + 1) * blockMs
       else (blocks > least ==> duration <= blocks * blockMs) && (blocks + 1) * blockMs < duration
  }

  lemma QuotientFits(x: nat, y: nat)
    requires y > 0
    ensures x / y * y <= x < (x / y + 1) * y
  {
  }

  lemma MoreBlocks(a: nat, b: nat, blockMs: nat)
    requires a <= b
    ensures a * blockMs <= b * blockMs
  {
  }

  lemma AtLeastFitsUp(duration: int, blockMs: nat, least: nat)
    requires blockMs > 0
    ensures WholeBlocks(duration, blockMs, least, AtLeast(Quotient(duration, blockMs), least))
  {
    if duration >= 0 {
      var q := duration / blockMs;
      QuotientFits(duration, blockMs);
      MoreBlocks(q + 1, AtLeast(q, least) + 1, blockMs);
    } else {
      MoreBlocks(0, least + 1, blockMs);
      assert Quotient(duration, blockMs) <= 0;
    }
  }

  lemma Mirrored(duration: int, blockMs: int, least: nat, blocks: nat)
    requires blockMs < 0
    ensures WholeBlocks(duration, blockMs, least, blocks) <==> WholeBlocks(-duration, -blockMs, least, blocks)
    ensures Quotient(duration, blockMs) == Quotient(-duration, -blockMs)
  {
    assert blocks * -blockMs == -(blocks * blockMs) && (blocks + 1) * -blockMs == -((blocks + 1) * blockMs);
    if duration == 0 {
      assert Abs(duration) / Abs(blockMs) == 0;
    }
  }

  lemma AtLeastFits(duration: int, blockMs: int, least: nat)
    requires blockMs != 0
    ensures WholeBlocks(duration, blockMs, least, AtLeast(Quotient(duration, blockMs), least))
  {
    if blockMs > 0 {
      AtLeastFitsUp(duration, blockMs, least);
    } else {
      Mirrored(duration, blockMs, least, AtLeast(Quotient(duration, blockMs), least));
      AtLeastFitsUp(-duration, -blockMs, least);
    }
  }

  /** The limits are the configured durations in whole blocks: silence, minimum and maximum at least one block, the
      pre-roll at least none. */
  lemma LimitsAreWholeBlocks(c: AudioConfig)
    requires c.blockMs != 0
    ensures WholeBlocks(c.silenceMs, c.blockMs, 1, LimitsOf(c).silence)
    ensures WholeBlocks(c.minDurationMs, c.blockMs, 1, LimitsOf(c).minBlocks)
    ensures WholeBlocks(c.maxDurationSec * 1000, c.blockMs, 1, LimitsOf(c).maxBlocks)
    ensures WholeBlocks(c.preRollMs, c.blockMs, 0, LimitsOf(c).preRoll)
  {
    AtLeastFits(c.silenceMs, c.blockMs, 1);
    AtLeastFits(c.minDurationMs, c.blockMs, 1);
    AtLeastFits(c.maxDurationSec * 1000, c.blockMs, 1);
    AtLeastFits(c.preRollMs, c.blockMs, 0);
    hide WholeBlocks, Quotient;
  }

  /** There is a pre-roll if and only if it is configured to last at least one block, or, with a negative block length,
      is as negative. */
  lemma PreRollNeedsOneBlock(c: AudioConfig)
    requires c.blockMs != 0
    ensures LimitsOf(c).preRoll >= 1 <==> if c.blockMs > 0 then c.preRollMs >= c.blockMs else c.preRollMs <= c.blockMs
    ensures LimitsOf(c).silence >= 1 && LimitsOf(c).minBlocks >= 1 && LimitsOf(c).maxBlocks >= 1
  {
    OneQuotient(Abs(c.preRollMs), Abs(c.blockMs));
  }

  // ---------- the segmentation as a function of the voice flags

  function FirstVoice(v: seq<bool>, from: nat): (t: nat)
    requires from <= |v|
    ensures from <= t <= |v| && (t < |v| ==> v[t])
    ensures forall k :: from <= k < t ==> !v[k]
    decreases |v| - from
  {
    if from == |v| || v[from] then from else FirstVoice(v, from + 1)
  }

  /** Where an open segment closes, scanning from block k with `silent` silent blocks just before it. */
  function Close(v: seq<bool>, lo: nat, k: nat, silent: nat, m: Limits): (r: (nat, Cause))
    requires k <= |v|
    ensures k <= r.0 <= |v|
    ensures r.1.EndOfStream? ==> r.0 == |v|
    ensures !r.1.EndOfStream? ==> k < r.0
    decreases |v| - k
  {
    if k == |v| then (k, EndOfStream)
    else
      var quiet := if v[k] then 0 else silent + 1;
      if quiet >= m.silence then (k + 1, Quiet)
      else if k + 1 - lo >= m.maxBlocks then (k + 1, TooLong)
      else Close(v, lo, k + 1, quiet, m)
  }

  function PreRollStart(from: nat, trigger: nat, m: Limits): nat
    requires from <= trigger
  {
    if trigger + 1 - from <= m.preRoll then from else trigger + 1 - m.preRoll
  }

  function Segments(v: seq<bool>, from: nat, m: Limits): seq<Segment>
    requires from <= |v|
    decreases |v| - from
  {
    var t := FirstVoice(v, from);
    if t == |v| then []
    else
      var lo := PreRollStart(from, t, m);
      var (hi, cause) := Close(v, lo, t + 1, 0, m);
      [Segment(lo, t, hi, cause)] + Segments(v, hi, m)
  }

  predicate IsKept(s: Segment, m: Limits) {
    s.hi - s.lo >= m.minBlocks
  }

  function Voice(stream: seq<Block>, threshold: int): seq<bool> {
    seq(|stream|, i requires 0 <= i < |stream| => stream[i].level >= threshold)
  }

  /** The block lists of the segments that are long enough, in order. */
  function Clips(stream: seq<Block>, segments: seq<Segment>, m: Limits): seq<seq<Block>>
    requires forall s :: s in segments ==> s.lo <= s.hi <= |stream|
  {
    if segments == [] then []
    else
      var s := segments[0];
      assert forall x :: x in segments[1..] ==> x in segments;
      (if IsKept(s, m) then [stream[s.lo..s.hi]] else []) + Clips(stream, segments[1..], m)
  }

  lemma {:induction false} SegmentsInRange(v: seq<bool>, from: nat, m: Limits)
    requires from <= |v|
    ensures forall s :: s in Segments(v, from, m) ==> from <= s.lo <= s.hi <= |v| && s.trigger < s.hi
    decreases |v| - from
  {
    var t := FirstVoice(v, from);
    if t < |v| {
      SegmentsInRange(v, Close(v, PreRollStart(from, t, m), t + 1, 0, m).0, m);
    }
  }

  function Recording(stream: seq<Block>, threshold: int, m: Limits): seq<seq<Block>> {
    SegmentsInRange(Voice(stream, threshold), 0, m);
    Clips(stream, Segments(Voice(stream, threshold), 0, m), m)
  }

  // ---------- the recorder loop

  /** What the loop still has to produce when it is idle at block `from`. */
  ghost function ClipsFrom(stream: seq<Block>, v: seq<bool>, from: nat, m: Limits): seq<seq<Block>>
    requires from <= |v| == |stream|
  {
    SegmentsInRange(v, from, m);
    Clips(stream, Segments(v, from, m), m)
  }

  lemma ClipsFromStep(stream: seq<Block>, v: seq<bool>, from: nat, t: nat, m: Limits)
    requires from <= |v| == |stream| && t == FirstVoice(v, from)
    ensures t == |v| ==> ClipsFrom(stream, v, from, m) == []
    ensures t < |v| ==>
              var lo := PreRollStart(from, t, m);
              var hi := Close(v, lo, t + 1, 0, m).0;
              ClipsFrom(stream, v, from, m) ==
              (if hi - lo >= m.minBlocks then [stream[lo..hi]] else []) + ClipsFrom(stream, v, hi, m)
  {
    hide Close;
    if t < |v| {
      var lo := PreRollStart(from, t, m);
      var (hi, cause) := Close(v, lo, t + 1, 0, m);
      SegmentsInRange(v, hi, m);
      assert Segments(v, from, m)[1..] == Segments(v, hi, m);
    }
  }

  lemma FirstVoiceAt(v: seq<bool>, from: nat, t: nat)
    requires from <= t < |v| && v[t] && forall k :: from <= k < t ==> !v[k]
    ensures FirstVoice(v, from) == t
  {
  }

  /** Idle since block `from`, about to read block i. */
  ghost predicate IdleAt(stream: seq<Block>, v: seq<bool>, from: nat, i: nat, preRoll: seq<Block>, m: Limits) {
    && from <= i <= |v| == |stream|
    && preRoll == PreRollBlocks(stream, from, i, m)
    && forall k :: from <= k < i ==> !v[k]
  }

  /** Recording what block `trigger` started, about to read block i. */
  ghost predicate ActiveAt(stream: seq<Block>, v: seq<bool>, from: nat, trigger: nat, i: nat,
                           blocks: seq<Block>, silent: nat, m: Limits) {
    && from <= trigger < i <= |v| == |stream| && trigger == FirstVoice(v, from)
    && var lo := PreRollStart(from, trigger, m);
       && lo <= i && blocks == stream[lo..i]
       && Close(v, lo, i, silent, m) == Close(v, lo, trigger + 1, 0, m)
  }

  lemma IdleStep(stream: seq<Block>, v: seq<bool>, from: nat, i: nat, preRoll: seq<Block>, m: Limits)
    requires IdleAt(stream, v, from, i, preRoll, m) && i < |stream|
    ensures var longer := preRoll + [stream[i]];
            var kept := if |longer| > m.preRoll then longer[|longer| - m.preRoll..] else longer;
            if v[i] then ActiveAt(stream, v, from, i, i + 1, kept, 0, m)
            else IdleAt(stream, v, from, i + 1, kept, m)
  {
    hide Close;
    PreRollAppend(stream, from, i, m);
    PreRollIsSlice(stream, from, i, m);
    if v[i] {
      FirstVoiceAt(v, from, i);
    }
  }

  /** One more block of an active recording: it goes on, or the segment closes here. */
  lemma ActiveStep(stream: seq<Block>, v: seq<bool>, from: nat, trigger: nat, i: nat,
                   blocks: seq<Block>, silent: nat, m: Limits)
    requires ActiveAt(stream, v, from, trigger, i, blocks, silent, m) && i < |stream|
    ensures var longer, quiet := blocks + [stream[i]], if v[i] then 0 else silent + 1;
            if quiet >= m.silence || |longer| >= m.maxBlocks then
              ClipsFrom(stream, v, from, m) ==
              (if |longer| >= m.minBlocks then [longer] else []) + ClipsFrom(stream, v, i + 1, m)
            else ActiveAt(stream, v, from, trigger, i + 1, longer, quiet, m)
  {
    var lo := PreRollStart(from, trigger, m);
    CloseStep(v, lo, i, silent, m);
    ClipsFromStep(stream, v, from, trigger, m);
    hide Close, FirstVoice, ClipsFrom, PreRollStart;
    assert stream[lo..i] + [stream[i]] == stream[lo..i + 1];
  }

  lemma ActiveAtEnd(stream: seq<Block>, v: seq<bool>, from: nat, trigger: nat, blocks: seq<Block>,
                    silent: nat, m: Limits)
    requires ActiveAt(stream, v, from, trigger, |stream|, blocks, silent, m)
    ensures ClipsFrom(stream, v, from, m) == if |blocks| >= m.minBlocks then [blocks] else []
  {
    var lo := PreRollStart(from, trigger, m);
    CloseEnd(v, lo, silent, m);
    ClipsFromStep(stream, v, from, trigger, m);
    hide Close, FirstVoice, ClipsFrom, PreRollStart;
    NoMoreClips(stream, v, |v|, m);
  }

  lemma IdleStart(stream: seq<Block>, v: seq<bool>, from: nat, m: Limits)
    requires from <= |v| == |stream|
    ensures IdleAt(stream, v, from, from, [], m)
  {
  }

  /** The loop of `run`: its variables are those of the source, its output the queued clips. */
  method Run(config: AudioConfig, stream: seq<Block>) returns (queued: seq<seq<Block>>)
    requires config.blockMs != 0
    ensures queued == Recording(stream, config.threshold, LimitsOf(config))
    ensures var m := LimitsOf(config);
            forall i :: 0 <= i < |queued| ==>
              m.minBlocks <= |queued[i]| && (|queued[i]| <= m.maxBlocks || |queued[i]| <= m.preRoll + 1)
  {
    hide ClipsFrom, LimitsOf, Voice, IdleAt, ActiveAt, Recording;
    var m := LimitsOf(config);
    ghost var v := Voice(stream, config.threshold);
    VoiceAt(stream, config.threshold);
    PreRollNeedsOneBlock(config);
    queued := [];
    var preRoll: seq<Block> := [];
    var activeBlocks: seq<Block> := [];
    var active := false;
    var silentBlocks := 0;
    var i := 0;
    ghost var from: nat, trigger: nat := 0, 0;
    IdleStart(stream, v, 0, m);
    while i < |stream|
      invariant 0 <= i <= |stream| && from <= i && silentBlocks >= 0
      invariant queued + ClipsFrom(stream, v, from, m) == ClipsFrom(stream, v, 0, m)
      invariant !active ==> activeBlocks == [] && silentBlocks == 0 && IdleAt(stream, v, from, i, preRoll, m)
      invariant active ==> ActiveAt(stream, v, from, trigger, i, activeBlocks, silentBlocks, m)
    {
      var block := stream[i];
      var voice := block.level >= config.threshold;
      if !active {
        IdleStep(stream, v, from, i, preRoll, m);
        preRoll := preRoll + [block];
        if |preRoll| > m.preRoll {
          preRoll := preRoll[|preRoll| - m.preRoll..];
        }
        if voice {
          active := true;
          silentBlocks := 0;
          activeBlocks := preRoll;
          trigger := i;
        }
        i := i + 1;
        continue;
      }
      ActiveStep(stream, v, from, trigger, i, activeBlocks, silentBlocks, m);
      activeBlocks := activeBlocks + [block];
      if voice {
        silentBlocks := 0;
      } else {
        silentBlocks := silentBlocks + 1;
      }
      var tooQuiet := silentBlocks >= m.silence;
      var tooLong := |activeBlocks| >= m.maxBlocks;
      if tooQuiet || tooLong {
        if |activeBlocks| >= m.minBlocks {
          queued := queued + [activeBlocks];
        }
        active := false;
        activeBlocks := [];
        preRoll := [];
        silentBlocks := 0;
        from := i + 1;
        IdleStart(stream, v, from, m);
      }
      i := i + 1;
    }
    if active {
      ActiveAtEnd(stream, v, from, trigger, activeBlocks, silentBlocks, m);
    } else {
      IdleAtEnd(stream, v, from, preRoll, m);
    }
    if activeBlocks != [] && |activeBlocks| >= m.minBlocks {
      queued := queued + [activeBlocks];
    }
    RecordingIsClipsFrom(stream, config.threshold, m);
    ClipLengths(stream, config.threshold, m);
  }

  lemma IdleAtEnd(stream: seq<Block>, v: seq<bool>, from: nat, preRoll: seq<Block>, m: Limits)
    requires IdleAt(stream, v, from, |stream|, preRoll, m)
    ensures ClipsFrom(stream, v, from, m) == []
  {
    hide ClipsFrom;
    NoMoreClips(stream, v, from, m);
  }

  lemma VoiceAt(stream: seq<Block>, threshold: int)
    ensures var v := Voice(stream, threshold);
            |v| == |stream| && forall i :: 0 <= i < |v| ==> v[i] == (stream[i].level >= threshold)
  {
  }

  lemma RecordingIsClipsFrom(stream: seq<Block>, threshold: int, m: Limits)
    ensures Recording(stream, threshold, m) == ClipsFrom(stream, Voice(stream, threshold), 0, m)
  {
  }

  /** The bounded pre-roll queue after the idle blocks from..i-1. */
  ghost function PreRollBlocks(stream: seq<Block>, from: nat, i: nat, m: Limits): seq<Block>
    requires from <= i <= |stream|
  {
    if i - from <= m.preRoll then stream[from..i] else stream[i - m.preRoll..i]
  }

  lemma PreRollAppend(stream: seq<Block>, from: nat, i: nat, m: Limits)
    requires from <= i < |stream|
    ensures var longer := PreRollBlocks(stream, from, i, m) + [stream[i]];
            PreRollBlocks(stream, from, i + 1, m) ==
            if |longer| > m.preRoll then longer[|longer| - m.preRoll..] else longer
  {
  }

  lemma PreRollIsSlice(stream: seq<Block>, from: nat, i: nat, m: Limits)
    requires from <= i < |stream|
    ensures PreRollStart(from, i, m) <= i + 1
    ensures PreRollBlocks(stream, from, i + 1, m) == stream[PreRollStart(from, i, m)..i + 1]
  {
  }

  lemma CloseStep(v: seq<bool>, lo: nat, k: nat, silent: nat, m: Limits)
    requires k < |v|
    ensures var quiet := if v[k] then 0 else silent + 1;
            Close(v, lo, k, silent, m) ==
            if quiet >= m.silence then (k + 1, Quiet)
            else if k + 1 - lo >= m.maxBlocks then (k + 1, TooLong)
            else Close(v, lo, k + 1, quiet, m)
  {
  }

  lemma CloseEnd(v: seq<bool>, lo: nat, silent: nat, m: Limits)
    ensures Close(v, lo, |v|, silent, m) == (|v|, EndOfStream)
  {
  }

  lemma NoMoreClips(stream: seq<Block>, v: seq<bool>, from: nat, m: Limits)
    requires from <= |v| == |stream| && forall k :: from <= k < |v| ==> !v[k]
    ensures ClipsFrom(stream, v, from, m) == []
  {
  }

  // ---------- what the segmentation guarantees

  /** All blocks from a to b-1 are silent. */
  ghost predicate Silent(v: seq<bool>, a: int, b: int) {
    forall k :: 0 <= k < |v| && a <= k < b ==> !v[k]
  }

  /** The n blocks before block e are all silent. */
  ghost predicate SilentRun(v: seq<bool>, n: nat, e: int) {
    Silent(v, e - n, e)
  }

  /** A segment ends where, for the first time after its trigger block, a full silent run ends or the length limit is
      reached, or at the end of the stream. */
  ghost predicate ClosesAtFirstSilence(v: seq<bool>, s: Segment, m: Limits) {
    && (forall e :: s.trigger + m.silence < e < s.hi ==> !SilentRun(v, m.silence, e))
    && (s.cause.Quiet? <==> s.trigger + m.silence < s.hi && SilentRun(v, m.silence, s.hi))
    && (s.hi > s.trigger + 2 ==> s.hi - 1 - s.lo < m.maxBlocks)
    && (s.cause.TooLong? ==> s.hi - s.lo >= m.maxBlocks)
    && (s.cause.EndOfStream? ==> s.hi == |v|)
  }

  ghost predicate SegmentOk(v: seq<bool>, from: nat, s: Segment, m: Limits) {
    && from <= s.lo <= s.trigger + 1 <= s.hi <= |v| && from <= s.trigger
    && v[s.trigger] && Silent(v, from, s.trigger)
    && s.trigger + 1 - s.lo == (if m.preRoll <= s.trigger + 1 - from then m.preRoll else s.trigger + 1 - from)
    && (s.hi - s.lo <= m.maxBlocks || s.hi - s.lo <= m.preRoll + 1)
    && ClosesAtFirstSilence(v, s, m)
  }

  /** The silent blocks counted so far: exactly the last `silent` before k, or all since the trigger. */
  ghost predicate Counted(v: seq<bool>, trigger: nat, k: nat, silent: nat) {
    trigger < k - silent && Silent(v, k - silent, k)
    && (trigger + 1 < k - silent ==> 0 <= k - silent - 1 < |v| && v[k - silent - 1])
  }

  lemma {:induction false} CloseIsFirst(v: seq<bool>, lo: nat, trigger: nat, k: nat, silent: nat, m: Limits)
    requires trigger < k <= |v| && v[trigger] && lo <= trigger + 1 && silent < m.silence
    requires Counted(v, trigger, k, silent)
    requires k - lo <= trigger + 1 - lo || k - lo < m.maxBlocks
    requires forall e :: trigger + m.silence < e <= k ==> !SilentRun(v, m.silence, e)
    ensures var (hi, cause) := Close(v, lo, k, silent, m);
            && ClosesAtFirstSilence(v, Segment(lo, trigger, hi, cause), m)
            && hi - lo <= (if m.maxBlocks > trigger + 2 - lo then m.maxBlocks else trigger + 2 - lo)
    decreases |v| - k
  {
    if k < |v| {
      var quiet := if v[k] then 0 else silent + 1;
      if quiet < m.silence {
        forall e | trigger + m.silence < e <= k + 1 ensures !SilentRun(v, m.silence, e) {
          if e == k + 1 {
            if v[k] {
              assert e - m.silence <= k < e;
            } else {
              assert k - silent - 1 >= 0 && v[k - silent - 1];
              assert e - m.silence <= k - silent - 1 < e;
            }
          }
        }
        if k + 1 - lo < m.maxBlocks {
          CloseIsFirst(v, lo, trigger, k + 1, quiet, m);
        }
      }
    }
  }

  /** The first segment of the rest of the stream. */
  lemma FirstSegmentOk(v: seq<bool>, from: nat, m: Limits)
    requires from <= |v| && m.silence >= 1 && Segments(v, from, m) != []
    ensures SegmentOk(v, from, Segments(v, from, m)[0], m)
    ensures Segments(v, from, m)[1..] == Segments(v, Segments(v, from, m)[0].hi, m)
    ensures Segments(v, from, m)[0].hi > from
  {
    hide Close;
    var t := FirstVoice(v, from);
    CloseIsFirst(v, PreRollStart(from, t, m), t, t + 1, 0, m);
  }

  /** Segments are ordered and disjoint, and each meets its bounds relative to the end of the one before. */
  lemma {:induction false} SegmentsAreOrdered(v: seq<bool>, from: nat, m: Limits, i: nat)
    requires from <= |v| && m.silence >= 1 && i < |Segments(v, from, m)|
    ensures var ss := Segments(v, from, m);
            SegmentOk(v, if i == 0 then from else ss[i - 1].hi, ss[i], m)
    ensures var ss := Segments(v, from, m);
            forall j :: i < j < |ss| ==> ss[i].hi <= ss[j].lo
    decreases |v| - from
  {
    hide Segments, ClosesAtFirstSilence;
    var ss := Segments(v, from, m);
    FirstSegmentOk(v, from, m);
    SegmentsInRange(v, ss[0].hi, m);
    forall j | 0 < j < |ss| ensures ss[0].hi <= ss[j].lo {
      assert ss[j] == ss[1..][j - 1];
      assert ss[j] in Segments(v, ss[0].hi, m);
    }
    if i > 0 {
      SegmentsAreOrdered(v, ss[0].hi, m, i - 1);
      assert ss[1..][i - 1] == ss[i];
      assert i > 1 ==> ss[1..][i - 2] == ss[i - 1];
      forall j | i < j < |ss| ensures ss[i].hi <= ss[j].lo {
        assert ss[1..][j - 1] == ss[j];
      }
    }
  }

  ghost predicate InSegment(s: Segment, k: nat) {
    s.lo <= k < s.hi
  }

  /** With a pre-roll of at least one block, every voiced block lies in a segment. */
  lemma {:induction false} VoicedBlocksAreCovered(v: seq<bool>, from: nat, m: Limits, k: nat) returns (i: nat)
    requires from <= k < |v| && v[k] && m.silence >= 1 && m.preRoll >= 1
    ensures i < |Segments(v, from, m)| && InSegment(Segments(v, from, m)[i], k)
    decreases |v| - from
  {
    var ss := Segments(v, from, m);
    assert ss != [];
    hide Segments, ClosesAtFirstSilence;
    FirstSegmentOk(v, from, m);
    var s := ss[0];
    if k < s.hi {
      assert k >= s.trigger >= s.lo by {
        FirstLo(v, from, m);
      }
      i := 0;
    } else {
      var j := VoicedBlocksAreCovered(v, s.hi, m, k);
      i := j + 1;
      assert ss[i] == ss[1..][j];
    }
  }

  lemma FirstLo(v: seq<bool>, from: nat, m: Limits)
    requires from <= |v| && Segments(v, from, m) != [] && m.preRoll >= 1
    ensures Segments(v, from, m)[0].lo <= Segments(v, from, m)[0].trigger
  {
    hide Close;
  }

  /** ... and in only one. */
  lemma SegmentsDoNotOverlap(v: seq<bool>, m: Limits, i: nat, j: nat, k: nat)
    requires m.silence >= 1 && i < |Segments(v, 0, m)| && j < |Segments(v, 0, m)|
    requires InSegment(Segments(v, 0, m)[i], k) && InSegment(Segments(v, 0, m)[j], k)
    ensures i == j
  {
    hide Segments, SegmentOk;
    SegmentsAreOrdered(v, 0, m, i);
    SegmentsAreOrdered(v, 0, m, j);
  }

  ghost predicate Covered(v: seq<bool>, m: Limits, k: nat) {
    exists i :: 0 <= i < |Segments(v, 0, m)| && InSegment(Segments(v, 0, m)[i], k)
  }

  lemma TriggerIsLost(v: seq<bool>, m: Limits)
    requires m.silence >= 1 && m.preRoll == 0 && Segments(v, 0, m) != []
    ensures var t := Segments(v, 0, m)[0].trigger; t < |v| && v[t] && !Covered(v, m, t)
  {
    hide Segments, ClosesAtFirstSilence;
    var ss := Segments(v, 0, m);
    FirstSegmentOk(v, 0, m);
    SegmentsAreOrdered(v, 0, m, 0);
    forall i | 0 <= i < |ss| ensures !InSegment(ss[i], ss[0].trigger) {
      assert i > 0 ==> ss[0].hi <= ss[i].lo;
    }
  }

  /** Exactly when every voiced block lies in a segment, queued or discarded: there is a pre-roll of at least one block,
      or nothing is voiced. Without a pre-roll the block that starts a recording is not part of it. */
  lemma VoiceIsRecordedIffPreRoll(v: seq<bool>, m: Limits)
    requires m.silence >= 1
    ensures (forall k :: 0 <= k < |v| && v[k] ==> Covered(v, m, k)) <==> m.preRoll >= 1 || Silent(v, 0, |v|)
  {
    hide Segments;
    if m.preRoll >= 1 {
      forall k | 0 <= k < |v| && v[k] ensures Covered(v, m, k) {
        var i := VoicedBlocksAreCovered(v, 0, m, k);
      }
    } else if !Silent(v, 0, |v|) {
      HasSegment(v, m);
      TriggerIsLost(v, m);
    }
  }

  lemma HasSegment(v: seq<bool>, m: Limits)
    requires !Silent(v, 0, |v|)
    ensures Segments(v, 0, m) != []
  {
    hide Close;
    var k :| 0 <= k < |v| && v[k];
    assert FirstVoice(v, 0) <= k;
  }

  // ---------- what is queued

  /** The clips are, in order, the blocks of exactly the segments from position n on that are long enough; `chosen` are
      their positions. */
  ghost predicate ClipsOf(clips: seq<seq<Block>>, chosen: seq<nat>, stream: seq<Block>, segments: seq<Segment>, n: nat,
                          m: Limits) {
    && |chosen| == |clips|
    && (forall i, j :: 0 <= i < j < |chosen| ==> chosen[i] < chosen[j])
    && (forall i :: 0 <= i < |chosen| ==>
          && n <= chosen[i] < |segments|
          && var s := segments[chosen[i]];
             s.lo <= s.hi <= |stream| && s.hi - s.lo >= m.minBlocks && clips[i] == stream[s.lo..s.hi])
    && (forall j :: n <= j < |segments| && segments[j].hi - segments[j].lo >= m.minBlocks ==> j in chosen)
  }

  lemma OneMoreKept(clips: seq<seq<Block>>, chosen: seq<nat>, stream: seq<Block>, segments: seq<Segment>,
                    n: nat, m: Limits)
    requires n < |segments| && segments[n].lo <= segments[n].hi <= |stream| && IsKept(segments[n], m)
    requires ClipsOf(clips, chosen, stream, segments, n + 1, m)
    ensures ClipsOf([stream[segments[n].lo..segments[n].hi]] + clips, [n] + chosen, stream, segments, n, m)
  {
    assert forall j :: j in [n] + chosen <==> j == n || j in chosen;
  }

  lemma {:induction false} ClipsAreKept(stream: seq<Block>, segments: seq<Segment>, n: nat, m: Limits)
      returns (chosen: seq<nat>)
    requires n <= |segments| && forall s :: s in segments ==> s.lo <= s.hi <= |stream|
    ensures ClipsOf(Clips(stream, segments[n..], m), chosen, stream, segments, n, m)
    decreases |segments| - n
  {
    if n == |segments| {
      chosen := [];
    } else {
      var rest := Clips(stream, segments[n + 1..], m);
      assert segments[n..][0] == segments[n] && segments[n..][1..] == segments[n + 1..];
      chosen := ClipsAreKept(stream, segments, n + 1, m);
      if IsKept(segments[n], m) {
        OneMoreKept(rest, chosen, stream, segments, n, m);
        hide ClipsOf;
        chosen := [n] + chosen;
      } else {
        assert [] + rest == rest;
        assert Clips(stream, segments[n..], m) == rest;
      }
    }
  }

  /** What is queued is, in order, exactly the segments of at least min_blocks blocks, each as its slice of the
      stream. */
  lemma RecordingIsKeptSegments(stream: seq<Block>, threshold: int, m: Limits) returns (chosen: seq<nat>)
    ensures ClipsOf(Recording(stream, threshold, m), chosen, stream, Segments(Voice(stream, threshold), 0, m), 0, m)
  {
    hide ClipsOf, Segments;
    var ss := Segments(Voice(stream, threshold), 0, m);
    SegmentsInRange(Voice(stream, threshold), 0, m);
    chosen := ClipsAreKept(stream, ss, 0, m);
    assert ss[0..] == ss;
  }

  /** Every queued clip has at least min_blocks blocks and at most max(max_blocks, pre_roll_blocks + 1). */
  lemma ClipLengths(stream: seq<Block>, threshold: int, m: Limits)
    requires m.silence >= 1
    ensures var clips := Recording(stream, threshold, m);
            forall i :: 0 <= i < |clips| ==>
              m.minBlocks <= |clips[i]| && (|clips[i]| <= m.maxBlocks || |clips[i]| <= m.preRoll + 1)
  {
    var v, clips := Voice(stream, threshold), Recording(stream, threshold, m);
    var chosen := RecordingIsKeptSegments(stream, threshold, m);
    hide Recording, Segments, ClosesAtFirstSilence;
    forall i | 0 <= i < |clips|
      ensures m.minBlocks <= |clips[i]| && (|clips[i]| <= m.maxBlocks || |clips[i]| <= m.preRoll + 1)
    {
      SegmentsAreOrdered(v, 0, m, chosen[i]);
    }
  }

  /** Block k lies in a segment that is queued. */
  ghost predicate Queued(v: seq<bool>, m: Limits, k: nat) {
    exists i :: 0 <= i < |Segments(v, 0, m)| && IsKept(Segments(v, 0, m)[i], m) && InSegment(Segments(v, 0, m)[i], k)
  }

  /** For one stream: every voiced block is queued if and only if nothing is voiced, or there is a pre-roll and no
      segment is too short. */
  lemma VoiceIsQueuedIff(v: seq<bool>, m: Limits)
    requires m.silence >= 1
    ensures (forall k :: 0 <= k < |v| && v[k] ==> Queued(v, m, k)) <==>
            || Silent(v, 0, |v|)
            || (m.preRoll >= 1 && forall i :: 0 <= i < |Segments(v, 0, m)| ==> IsKept(Segments(v, 0, m)[i], m))
  {
    hide Segments, IsKept;
    var ss := Segments(v, 0, m);
    if m.preRoll >= 1 {
      forall k | 0 <= k < |v| && v[k] ensures Covered(v, m, k) {
        var i := VoicedBlocksAreCovered(v, 0, m, k);
      }
      forall i | 0 <= i < |ss| && !IsKept(ss[i], m) ensures exists k :: 0 <= k < |v| && v[k] && !Queued(v, m, k) {
        TriggerOf(v, m, i);
        assert !Queued(v, m, ss[i].trigger) by {
          forall j | 0 <= j < |ss| && InSegment(ss[j], ss[i].trigger) ensures j == i {
            SegmentsDoNotOverlap(v, m, i, j, ss[i].trigger);
          }
        }
      }
    } else if !Silent(v, 0, |v|) {
      HasSegment(v, m);
      TriggerIsLost(v, m);
      assert forall k :: Queued(v, m, k) ==> Covered(v, m, k);
    }
  }

  /** With a pre-roll a segment holds the voiced block that started it. */
  lemma {:induction false} TriggerInSegment(v: seq<bool>, from: nat, m: Limits, i: nat)
    requires from <= |v| && m.silence >= 1 && m.preRoll >= 1 && i < |Segments(v, from, m)|
    ensures var s := Segments(v, from, m)[i]; s.trigger < |v| && v[s.trigger] && InSegment(s, s.trigger)
    decreases |v| - from
  {
    FirstLo(v, from, m);
    hide Segments, ClosesAtFirstSilence;
    FirstSegmentOk(v, from, m);
    if i > 0 {
      var ss := Segments(v, from, m);
      TriggerInSegment(v, ss[0].hi, m, i - 1);
      assert ss[i] == ss[1..][i - 1];
    }
  }

  lemma TriggerOf(v: seq<bool>, m: Limits, i: nat)
    requires m.silence >= 1 && m.preRoll >= 1 && i < |Segments(v, 0, m)|
    ensures var s := Segments(v, 0, m)[i]; s.trigger < |v| && v[s.trigger] && InSegment(s, s.trigger)
  {
    TriggerInSegment(v, 0, m, i);
  }

  /** For all streams: every voiced block of every stream is queued if and only if there is a pre-roll of at least one
      block and no minimum length above one block. */
  lemma EveryVoiceIsQueuedIff(m: Limits)
    requires m.silence >= 1
    ensures (forall v: seq<bool>, k: nat :: k < |v| && v[k] ==> Queued(v, m, k)) <==> m.preRoll >= 1 && m.minBlocks <= 1
  {
    if m.preRoll >= 1 && m.minBlocks <= 1 {
      forall v: seq<bool>, k: nat | k < |v| && v[k] ensures Queued(v, m, k) {
        var i := VoicedBlocksAreCovered(v, 0, m, k);
        assert IsKept(Segments(v, 0, m)[i], m);
      }
    } else {
      OneVoicedBlock(m);
      assert [true][0] && !Queued([true], m, 0);
    }
  }

  /** A stream of one voiced block is one segment, of one block with a pre-roll and of none without. */
  lemma OneVoicedBlock(m: Limits)
    ensures Segments([true], 0, m) == [Segment(if m.preRoll >= 1 then 0 else 1, 0, 1, EndOfStream)]
  {
    FirstVoiceAt([true], 0, 0);
    assert FirstVoice([true], 1) == 1;
    assert Segments([true], 1, m) == [];
  }

  lemma DiscardedAlone(stream: seq<Block>, s: Segment, m: Limits)
    requires s.lo <= s.hi <= |stream| && !IsKept(s, m)
    ensures Clips(stream, [s], m) == []
  {
    assert [s][1..] == [];
  }

  /** A failing input with a pre-roll: a voiced block and a silent one make a segment that is closed by silence and
      discarded, so nothing is queued. */
  lemma ShortBurstIsDiscarded(stream: seq<Block>, threshold: int, m: Limits)
    requires m == Limits(1, 3, 10, 1) && |stream| == 2
    requires stream[0].level >= threshold && stream[1].level < threshold
    ensures Covered(Voice(stream, threshold), m, 0) && !Queued(Voice(stream, threshold), m, 0)
    ensures Recording(stream, threshold, m) == []
  {
    var v := Voice(stream, threshold);
    assert v == [true, false];
    FirstVoiceAt(v, 0, 0);
    assert FirstVoice(v, 2) == 2;
    assert Segments(v, 2, m) == [];
    var ss := Segments(v, 0, m);
    assert ss == [Segment(0, 0, 2, Quiet)];
    assert InSegment(ss[0], 0);
    DiscardedAlone(stream, ss[0], m);
  }
}
