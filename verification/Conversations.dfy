/** Grouping of calls into conversations (server/internal/database/conversations.go).

    The source groups in one greedy pass with a map from channel to the conversation it may still extend.
    `GroupCallsIntoConversations` is that pass; `Fold` is the same pass as a function; the lemmas say what
    it computes: the connected components of the "starts before the other one's end plus the gap" relation. */
module Conversations {

  datatype Call = Call(id: int, dateTime: int, system: int, talkgroup: int, duration: real)

  datatype Channel = Channel(system: int, talkgroup: int)

  /** `call` is the first part's row; its duration is the running total, as in the source. */
  datatype Conversation = Conversation(call: Call, endDateTime: int, partCount: nat, parts: seq<Call>)

  function ChannelOf(c: Call): Channel {
    Channel(c.system, c.talkgroup)
  }

  /** Go's conversion of a float to an integer drops the fraction. */
  function Truncate(x: real): int {
    if x >= 0.0 then x.Floor else -((-x).Floor)
  }

  function CallEndTime(c: Call): (end: int)
    ensures c.dateTime <= end
  {
    var whole := Truncate(c.duration);
    var rounded := if c.duration > whole as real then whole + 1 else whole;
    c.dateTime + (if rounded < 0 then 0 else rounded)
  }

  /** A call's end is the least whole second that is neither before its start nor before its exact end. */
  lemma CallEndTimeRoundsUp(c: Call, e: int)
    ensures CallEndTime(c) <= e <==> c.dateTime <= e && c.dateTime as real + c.duration <= e as real
  {
  }

  // ---------- the stable sort by (start, id)

  predicate Before(a: Call, b: Call) {
    a.dateTime < b.dateTime || (a.dateTime == b.dateTime && a.id < b.id)
  }

  ghost predicate Sorted(s: seq<Call>) {
    forall i, j :: 0 <= i < j < |s| ==> !Before(s[j], s[i])
  }

  function Insert(c: Call, s: seq<Call>): seq<Call> {
    if s == [] || !Before(s[0], c) then [c] + s else [s[0]] + Insert(c, s[1..])
  }

  function SortCalls(s: seq<Call>): seq<Call> {
    if s == [] then [] else Insert(s[0], SortCalls(s[1..]))
  }

  lemma {:induction false} InsertSorts(c: Call, s: seq<Call>)
    requires Sorted(s)
    ensures Sorted(Insert(c, s)) && multiset(Insert(c, s)) == multiset(s) + multiset{c}
  {
    if s == [] || !Before(s[0], c) {
      assert [c] + s == Insert(c, s);
    } else {
      var rest := Insert(c, s[1..]);
      InsertSorts(c, s[1..]);
      assert s == [s[0]] + s[1..];
      forall k | 0 <= k < |rest| ensures !Before(rest[k], s[0]) {
        assert rest[k] in multiset(rest);
        assert rest[k] == c || rest[k] in s[1..];
      }
    }
  }

  lemma {:induction false} SortCallsSorts(s: seq<Call>)
    ensures Sorted(SortCalls(s)) && multiset(SortCalls(s)) == multiset(s)
  {
    if s != [] {
      SortCallsSorts(s[1..]);
      InsertSorts(s[0], SortCalls(s[1..]));
      assert s == [s[0]] + s[1..];
    }
  }

  lemma SortCallsMembers(s: seq<Call>, c: Call)
    ensures c in SortCalls(s) <==> c in s
  {
    SortCallsSorts(s);
    assert c in SortCalls(s) <==> c in multiset(SortCalls(s));
    assert c in s <==> c in multiset(s);
  }

  ghost predicate DistinctIds(s: seq<Call>) {
    forall i, j :: 0 <= i < j < |s| ==> s[i].id != s[j].id
  }

  ghost predicate IdsIdentify(s: seq<Call>) {
    forall x, y :: x in s && y in s && x.id == y.id ==> x == y
  }

  lemma SortedHeadsAgree(s: seq<Call>, t: seq<Call>)
    requires s != [] && t != [] && Sorted(s) && Sorted(t) && IdsIdentify(s)
    requires s[0] in t && t[0] in s
    ensures s[0] == t[0]
  {
    var i :| 0 <= i < |t| && t[i] == s[0];
    var j :| 0 <= j < |s| && s[j] == t[0];
    if i != 0 && j != 0 {
      assert !Before(t[i], t[0]) && !Before(s[j], s[0]);
    }
  }

  lemma MultisetTail(s: seq<Call>)
    requires s != []
    ensures multiset(s[1..]) == multiset(s) - multiset{s[0]} && s[0] in multiset(s)
  {
    assert s == [s[0]] + s[1..];
  }

  /** Two sorted arrangements of the same calls with distinct ids are the same list. */
  lemma {:induction false} SortedIsUnique(s: seq<Call>, t: seq<Call>)
    requires Sorted(s) && Sorted(t) && multiset(s) == multiset(t) && IdsIdentify(s)
    ensures s == t
  {
    assert |multiset(s)| == |s| && |multiset(t)| == |t|;
    if s != [] {
      MultisetTail(s);
      MultisetTail(t);
      SortedHeadsAgree(s, t);
      SortedIsUnique(s[1..], t[1..]);
      assert s == [s[0]] + s[1..] && t == [t[0]] + t[1..];
    }
  }

  // ---------- the greedy pass

  function ChannelOfConversation(c: Conversation): Channel {
    ChannelOf(c.call)
  }

  /** Index of the newest conversation on a channel, or -1: what the source's map holds. */
  function ActiveIndex(cs: seq<Conversation>, ch: Channel): (i: int)
    ensures -1 <= i < |cs|
    ensures i >= 0 ==> ChannelOfConversation(cs[i]) == ch
    ensures forall k :: i < k < |cs| ==> ChannelOfConversation(cs[k]) != ch
  {
    if cs == [] then -1
    else if ChannelOfConversation(cs[|cs| - 1]) == ch then |cs| - 1
    else ActiveIndex(cs[..|cs| - 1], ch)
  }

  function Start(c: Call): Conversation {
    Conversation(c, CallEndTime(c), 1, [c])
  }

  function Extend(v: Conversation, c: Call): Conversation {
    var end := CallEndTime(c);
    Conversation(v.call.(duration := v.call.duration + c.duration),
                 if end > v.endDateTime then end else v.endDateTime,
                 v.partCount + 1, v.parts + [c])
  }

  /** Times are whole seconds, so only the whole seconds of the gap matter (`AllowanceIsGap`); a negative gap is 0. */
  function Allowance(gap: real): nat {
    if gap < 0.0 then 0 else gap.Floor
  }

  lemma AllowanceIsGap(start: int, end: int, gap: real)
    ensures start <= end + Allowance(gap) <==> start as real <= end as real + (if gap < 0.0 then 0.0 else gap)
  {
  }

  function Step(cs: seq<Conversation>, c: Call, gap: nat): seq<Conversation> {
    var i := ActiveIndex(cs, ChannelOf(c));
    if i >= 0 && c.dateTime <= cs[i].endDateTime + gap
    then cs[i := Extend(cs[i], c)]
    else cs + [Start(c)]
  }

  function Fold(s: seq<Call>, gap: nat): seq<Conversation> {
    if s == [] then [] else Step(Fold(s[..|s| - 1], gap), s[|s| - 1], gap)
  }

  function Grouped(calls: seq<Call>, gap: real): seq<Conversation> {
    Fold(SortCalls(calls), Allowance(gap))
  }

  method GroupCallsIntoConversations(calls: seq<Call>, gapSeconds: real) returns (conversations: seq<Conversation>)
    ensures conversations == Grouped(calls, gapSeconds)
    ensures forall i, j, k :: 0 <= i < |conversations| && 0 <= j < k < |conversations[i].parts| ==>
              var a, b := conversations[i].parts[j], conversations[i].parts[k];
              a.dateTime < b.dateTime || (a.dateTime == b.dateTime && a.id <= b.id)
  {
    hide CallEndTime, ActiveIndex, Fold, Allowance, ChannelOf, Tracks, SortCalls, ChannelOfConversation;
    conversations := [];
    EmptyFold(Allowance(gapSeconds));
    if |calls| == 0 {
      return;
    }
    forall i: nat, j: nat, k: nat | i < |Grouped(calls, gapSeconds)| && j < k < |Grouped(calls, gapSeconds)[i].parts|
      ensures var a, b := Grouped(calls, gapSeconds)[i].parts[j], Grouped(calls, gapSeconds)[i].parts[k];
              a.dateTime < b.dateTime || (a.dateTime == b.dateTime && a.id <= b.id)
    {
      PartsAreChronological(calls, gapSeconds, i, j, k);
    }
    var gap := gapSeconds;
    if gap < 0.0 {
      gap := 0.0;
    }
    var sorted := SortCalls(calls);
    var activeByChannel: map<Channel, nat> := map[];
    var n := 0;
    while n < |sorted|
      invariant 0 <= n <= |sorted|
      invariant conversations == Fold(sorted[..n], Allowance(gapSeconds))
      invariant Tracks(activeByChannel, conversations)
    {
      FoldNext(sorted, n, Allowance(gapSeconds));
      var call := sorted[n];
      ghost var before := conversations;
      var end := CallEndTime(call);
      var key := ChannelOf(call);
      TracksAt(activeByChannel, conversations, key);
      if key in activeByChannel
         && call.dateTime as real <= conversations[activeByChannel[key]].endDateTime as real + gap {
        var index := activeByChannel[key];
        AllowanceIsGap(call.dateTime, conversations[index].endDateTime, gapSeconds);
        var current := conversations[index];
        current := current.(parts := current.parts + [call]);
        current := current.(partCount := current.partCount + 1);
        current := current.(call := current.call.(duration := current.call.duration + call.duration));
        if end > current.endDateTime {
          current := current.(endDateTime := end);
        }
        assert current == Extend(before[index], call);
        TracksUpdate(activeByChannel, before, index, call);
        conversations := conversations[index := current];
      } else {
        if key in activeByChannel {
          AllowanceIsGap(call.dateTime, conversations[activeByChannel[key]].endDateTime, gapSeconds);
        }
        TracksAppend(activeByChannel, before, call);
        conversations := conversations + [Conversation(call, end, 1, [call])];
        activeByChannel := activeByChannel[key := |conversations| - 1];
      }
      assert conversations == Step(before, call, Allowance(gapSeconds));
      n := n + 1;
    }
    assert sorted[..n] == sorted;
  }

  /** The source's map from channel to the conversation it may still extend. */
  ghost predicate Tracks(active: map<Channel, nat>, cs: seq<Conversation>) {
    forall ch :: ActiveIndex(cs, ch) == if ch in active then active[ch] else -1
  }

  lemma TracksAt(active: map<Channel, nat>, cs: seq<Conversation>, ch: Channel)
    requires Tracks(active, cs)
    ensures ActiveIndex(cs, ch) == if ch in active then active[ch] else -1
  {
  }

  lemma TracksUpdate(active: map<Channel, nat>, cs: seq<Conversation>, i: nat, c: Call)
    requires Tracks(active, cs) && i < |cs|
    ensures Tracks(active, cs[i := Extend(cs[i], c)])
  {
    hide ActiveIndex, CallEndTime;
    UpdateKeepsActive(cs, i, Extend(cs[i], c));
  }

  lemma TracksAppend(active: map<Channel, nat>, cs: seq<Conversation>, c: Call)
    requires Tracks(active, cs)
    ensures Tracks(active[ChannelOf(c) := |cs|], cs + [Start(c)])
  {
    hide ActiveIndex, CallEndTime;
    AppendSetsActive(cs, Start(c));
  }

  lemma EmptyFold(gap: nat)
    ensures Fold([], gap) == [] && Tracks(map[], []) && SortCalls([]) == []
  {
  }

  lemma FoldNext(s: seq<Call>, n: nat, gap: nat)
    requires n < |s|
    ensures Fold(s[..n + 1], gap) == Step(Fold(s[..n], gap), s[n], gap)
  {
    assert s[..n + 1][..n] == s[..n];
  }

  lemma AppendSetsActive(cs: seq<Conversation>, v: Conversation)
    ensures forall ch :: ActiveIndex(cs + [v], ch) ==
                         if ch == ChannelOfConversation(v) then |cs| else ActiveIndex(cs, ch)
  {
    assert (cs + [v])[..|cs|] == cs;
  }

  lemma UpdateKeepsActive(cs: seq<Conversation>, i: nat, v: Conversation)
    requires i < |cs| && ChannelOfConversation(v) == ChannelOfConversation(cs[i])
    ensures forall ch :: ActiveIndex(cs[i := v], ch) == ActiveIndex(cs, ch)
  {
    forall ch ensures ActiveIndex(cs[i := v], ch) == ActiveIndex(cs, ch) {
      var updated := cs[i := v];
      assert forall k :: 0 <= k < |cs| ==> ChannelOfConversation(updated[k]) == ChannelOfConversation(cs[k]);
    }
  }

  // ---------- what a finished grouping looks like

  function MaxEnd(parts: seq<Call>): (end: int)
    requires parts != []
    ensures forall c :: c in parts ==> CallEndTime(c) <= end
    ensures exists c :: c in parts && CallEndTime(c) == end
  {
    var last := CallEndTime(parts[|parts| - 1]);
    if |parts| == 1 then last
    else
      var before := MaxEnd(parts[..|parts| - 1]);
      assert parts == parts[..|parts| - 1] + [parts[|parts| - 1]];
      if last > before then assert parts[|parts| - 1] in parts; last else before
  }

  function TotalDuration(parts: seq<Call>): real {
    if parts == [] then 0.0 else TotalDuration(parts[..|parts| - 1]) + parts[|parts| - 1].duration
  }

  /** Every field of a conversation is determined by its parts. */
  ghost predicate AgreesWithParts(v: Conversation) {
    && v.parts != []
    && v.call == v.parts[0].(duration := TotalDuration(v.parts))
    && v.partCount == |v.parts|
    && v.endDateTime == MaxEnd(v.parts)
  }

  /** Parts are chronological, on one channel, and each later one starts within the gap of an earlier end. */
  ghost predicate Unbroken(parts: seq<Call>, gap: nat) {
    && Sorted(parts)
    && (forall k :: 0 <= k < |parts| ==> ChannelOf(parts[k]) == ChannelOf(parts[0]))
    && (forall k :: 0 < k < |parts| ==> parts[k].dateTime <= MaxEnd(parts[..k]) + gap)
  }

  /** On one channel, a conversation plus the gap ends strictly before the next one starts. */
  ghost predicate Separated(cs: seq<Conversation>, gap: nat) {
    forall i, j :: 0 <= i < j < |cs| && cs[i].parts != [] && cs[j].parts != []
      && ChannelOf(cs[i].parts[0]) == ChannelOf(cs[j].parts[0])
      ==> cs[i].endDateTime + gap < cs[j].parts[0].dateTime
  }

  ghost predicate WellGrouped(cs: seq<Conversation>, gap: nat) {
    && (forall i :: 0 <= i < |cs| ==> AgreesWithParts(cs[i]) && Unbroken(cs[i].parts, gap))
    && Separated(cs, gap)
  }

  ghost predicate NoneAfter(cs: seq<Conversation>, c: Call) {
    forall i, k :: 0 <= i < |cs| && 0 <= k < |cs[i].parts| ==> !Before(c, cs[i].parts[k])
  }

  lemma PartsAppend(parts: seq<Call>, c: Call)
    requires parts != []
    ensures MaxEnd(parts + [c]) == if CallEndTime(c) > MaxEnd(parts) then CallEndTime(c) else MaxEnd(parts)
    ensures TotalDuration(parts + [c]) == TotalDuration(parts) + c.duration
  {
    hide CallEndTime;
    assert (parts + [c])[..|parts + [c]| - 1] == parts;
  }

  lemma ExtendAgrees(v: Conversation, c: Call)
    requires AgreesWithParts(v)
    ensures AgreesWithParts(Extend(v, c))
  {
    hide CallEndTime, MaxEnd, TotalDuration;
    PartsAppend(v.parts, c);
  }

  lemma ExtendUnbroken(v: Conversation, c: Call, gap: nat)
    requires AgreesWithParts(v) && Unbroken(v.parts, gap)
    requires ChannelOf(c) == ChannelOf(v.parts[0]) && c.dateTime <= v.endDateTime + gap
    requires forall k :: 0 <= k < |v.parts| ==> !Before(c, v.parts[k])
    ensures Unbroken(v.parts + [c], gap)
  {
    hide CallEndTime, MaxEnd, TotalDuration, Before, ChannelOf;
    var parts := v.parts + [c];
    forall k | 0 < k < |parts| ensures parts[k].dateTime <= MaxEnd(parts[..k]) + gap {
      assert parts[..k] == v.parts[..k];
      assert k == |v.parts| ==> v.parts[..k] == v.parts;
    }
  }

  lemma StartIsWell(c: Call, gap: nat)
    ensures AgreesWithParts(Start(c)) && Unbroken(Start(c).parts, gap)
  {
    hide CallEndTime, Before;
    var parts := [c];
    assert TotalDuration(parts) == TotalDuration([]) + c.duration by { assert parts[..0] == []; }
    assert MaxEnd(parts) == CallEndTime(c);
  }

  lemma SeparatedAfterExtend(cs: seq<Conversation>, i: nat, c: Call, gap: nat)
    requires Separated(cs, gap) && i < |cs| && cs[i].parts != []
    requires forall j :: i < j < |cs| && cs[j].parts != [] ==> ChannelOf(cs[j].parts[0]) != ChannelOf(cs[i].parts[0])
    ensures Separated(cs[i := Extend(cs[i], c)], gap)
  {
    hide CallEndTime, ChannelOf;
  }

  lemma SeparatedAfterStart(cs: seq<Conversation>, c: Call, gap: nat)
    requires Separated(cs, gap)
    requires forall j :: 0 <= j < |cs| && cs[j].parts != [] && ChannelOf(cs[j].parts[0]) == ChannelOf(c)
               ==> cs[j].endDateTime + gap < c.dateTime
    ensures Separated(cs + [Start(c)], gap)
  {
    hide CallEndTime, ChannelOf;
  }

  lemma EndOfGroup(cs: seq<Conversation>, gap: nat, i: nat)
    requires WellGrouped(cs, gap) && i < |cs|
    ensures cs[i].parts != [] && ChannelOf(cs[i].parts[0]) == ChannelOfConversation(cs[i])
    ensures cs[i].parts[0].dateTime <= cs[i].endDateTime
  {
    hide TotalDuration, Unbroken, Separated;
    assert AgreesWithParts(cs[i]);
    var first := cs[i].parts[0];
    assert first in cs[i].parts;
    assert first.dateTime <= CallEndTime(first) <= MaxEnd(cs[i].parts);
  }

  /** The newest conversation of a channel has the latest end. */
  lemma NewestEndsLast(cs: seq<Conversation>, ch: Channel, gap: nat, j: nat)
    requires WellGrouped(cs, gap) && j < |cs| && ChannelOfConversation(cs[j]) == ch
    ensures var i := ActiveIndex(cs, ch); i >= 0 && cs[j].endDateTime <= cs[i].endDateTime
  {
    hide ActiveIndex, AgreesWithParts, Unbroken, ChannelOf, ChannelOfConversation;
    var i := ActiveIndex(cs, ch);
    if j < i {
      EndOfGroup(cs, gap, i);
      EndOfGroup(cs, gap, j);
      assert Separated(cs, gap);
    }
  }

  lemma StepKeepsGrouping(cs: seq<Conversation>, c: Call, gap: nat)
    requires WellGrouped(cs, gap) && NoneAfter(cs, c)
    ensures WellGrouped(Step(cs, c, gap), gap)
  {
    hide MaxEnd, TotalDuration, CallEndTime, ActiveIndex, Before, Separated, Unbroken;
    var i := ActiveIndex(cs, ChannelOf(c));
    assert forall j :: 0 <= j < |cs| ==> ChannelOf(cs[j].parts[0]) == ChannelOfConversation(cs[j]);
    if i >= 0 && c.dateTime <= cs[i].endDateTime + gap {
      ExtendAgrees(cs[i], c);
      ExtendUnbroken(cs[i], c, gap);
      SeparatedAfterExtend(cs, i, c, gap);
    } else {
      StartIsWell(c, gap);
      forall j | 0 <= j < |cs| && ChannelOf(cs[j].parts[0]) == ChannelOf(c)
        ensures cs[j].endDateTime + gap < c.dateTime
      {
        NewestEndsLast(cs, ChannelOf(c), gap, j);
      }
      SeparatedAfterStart(cs, c, gap);
    }
  }

  function AllParts(cs: seq<Conversation>): multiset<Call> {
    if cs == [] then multiset{} else AllParts(cs[..|cs| - 1]) + multiset(cs[|cs| - 1].parts)
  }

  lemma {:induction false} AllPartsUpdate(cs: seq<Conversation>, i: nat, v: Conversation, c: Call)
    requires i < |cs| && v.parts == cs[i].parts + [c]
    ensures AllParts(cs[i := v]) == AllParts(cs) + multiset{c}
  {
    assert multiset(v.parts) == multiset(cs[i].parts) + multiset{c};
    var n := |cs| - 1;
    var updated := cs[i := v];
    if i == n {
      assert updated[..n] == cs[..n];
    } else {
      assert updated[..n] == cs[..n][i := v] && updated[n] == cs[n];
      AllPartsUpdate(cs[..n], i, v, c);
    }
  }

  lemma {:induction false} AllPartsMembers(cs: seq<Conversation>, c: Call)
    ensures c in AllParts(cs) <==> exists i :: 0 <= i < |cs| && c in cs[i].parts
  {
    if cs != [] {
      var n := |cs| - 1;
      AllPartsMembers(cs[..n], c);
      if c in AllParts(cs[..n]) {
        var i :| 0 <= i < n && c in cs[..n][i].parts;
        assert c in cs[i].parts;
      }
      if i :| 0 <= i < |cs| && c in cs[i].parts {
        if i < n {
          assert c in cs[..n][i].parts;
        }
      }
    }
  }

  lemma StepAddsCall(cs: seq<Conversation>, c: Call, gap: nat)
    ensures AllParts(Step(cs, c, gap)) == AllParts(cs) + multiset{c}
  {
    hide CallEndTime, ActiveIndex;
    var i := ActiveIndex(cs, ChannelOf(c));
    if i >= 0 && c.dateTime <= cs[i].endDateTime + gap {
      AllPartsUpdate(cs, i, Extend(cs[i], c), c);
    } else {
      assert (cs + [Start(c)])[..|cs|] == cs;
    }
  }

  lemma LastIsLatest(s: seq<Call>, cs: seq<Conversation>)
    requires Sorted(s) && s != [] && AllParts(cs) == multiset(s[..|s| - 1])
    ensures NoneAfter(cs, s[|s| - 1])
  {
    hide AllParts, Before;
    var n := |s| - 1;
    forall i, k | 0 <= i < |cs| && 0 <= k < |cs[i].parts| ensures !Before(s[n], cs[i].parts[k]) {
      AllPartsMembers(cs, cs[i].parts[k]);
      assert cs[i].parts[k] in multiset(s[..n]);
    }
  }

  /** The pass keeps every call exactly once and keeps the shape. */
  lemma {:induction false} FoldIsWellGrouped(s: seq<Call>, gap: nat)
    requires Sorted(s)
    ensures WellGrouped(Fold(s, gap), gap)
    ensures AllParts(Fold(s, gap)) == multiset(s)
  {
    hide Step, AllParts, WellGrouped, NoneAfter, Before, CallEndTime, ActiveIndex;
    if s == [] {
      assert WellGrouped([], gap) && AllParts([]) == multiset{} by { EmptyGrouping(gap); }
    } else {
      var n := |s| - 1;
      var cs := Fold(s[..n], gap);
      FoldIsWellGrouped(s[..n], gap);
      assert s == s[..n] + [s[n]];
      LastIsLatest(s, cs);
      StepKeepsGrouping(cs, s[n], gap);
      StepAddsCall(cs, s[n], gap);
    }
  }

  ghost predicate FirstsInOrder(cs: seq<Conversation>) {
    && (forall i :: 0 <= i < |cs| ==> cs[i].parts != [])
    && (forall i, j :: 0 <= i < j < |cs| ==> !Before(cs[j].parts[0], cs[i].parts[0]))
  }

  lemma StepKeepsOrder(cs: seq<Conversation>, c: Call, gap: nat)
    requires FirstsInOrder(cs) && NoneAfter(cs, c)
    ensures FirstsInOrder(Step(cs, c, gap))
  {
    hide Before, ActiveIndex, CallEndTime;
  }

  lemma {:induction false} FoldInOrder(s: seq<Call>, gap: nat)
    requires Sorted(s)
    ensures FirstsInOrder(Fold(s, gap))
  {
    hide Step, AllParts, WellGrouped, FirstsInOrder, NoneAfter, Before;
    if s == [] {
      assert FirstsInOrder([]) by { NoneOutOfOrder(); }
    } else {
      var n := |s| - 1;
      var cs := Fold(s[..n], gap);
      FoldInOrder(s[..n], gap);
      FoldIsWellGrouped(s[..n], gap);
      LastIsLatest(s, cs);
      StepKeepsOrder(cs, s[n], gap);
    }
  }

  lemma NoneOutOfOrder()
    ensures FirstsInOrder([])
  {
  }

  lemma EmptyGrouping(gap: nat)
    ensures WellGrouped([], gap) && AllParts([]) == multiset{}
  {
  }

  /** Grouping conserves calls: the parts are a permutation of the input, each conversation's count, duration
      and end agree with its parts, and on one channel conversations are more than the gap apart. */
  lemma GroupingConservesCalls(calls: seq<Call>, gap: real)
    ensures AllParts(Grouped(calls, gap)) == multiset(calls)
    ensures WellGrouped(Grouped(calls, gap), Allowance(gap))
  {
    SortCallsSorts(calls);
    FoldIsWellGrouped(SortCalls(calls), Allowance(gap));
  }

  /** The parts of a conversation are in order of start and, within one second, of id; its header is the first part,
      so no part starts before it, or in the same second with a smaller id; the header's duration is the total. */
  lemma PartsAreChronological(calls: seq<Call>, gap: real, i: nat, j: nat, k: nat)
    requires i < |Grouped(calls, gap)| && j < k < |Grouped(calls, gap)[i].parts|
    ensures var v := Grouped(calls, gap)[i];
            && (v.parts[j].dateTime < v.parts[k].dateTime
                || (v.parts[j].dateTime == v.parts[k].dateTime && v.parts[j].id <= v.parts[k].id))
            && (v.call.dateTime < v.parts[k].dateTime
                || (v.call.dateTime == v.parts[k].dateTime && v.call.id <= v.parts[k].id))
  {
    hide Grouped, MaxEnd, TotalDuration, Separated;
    GroupingConservesCalls(calls, gap);
    var v := Grouped(calls, gap)[i];
    assert AgreesWithParts(v) && Unbroken(v.parts, Allowance(gap));
    assert !Before(v.parts[k], v.parts[j]) && !Before(v.parts[k], v.parts[0]);
  }

  /** Conversations are in order of their first parts. */
  lemma ConversationsAreInOrder(calls: seq<Call>, gap: real, i: nat, j: nat)
    requires i < j < |Grouped(calls, gap)|
    ensures var a, b := Grouped(calls, gap)[i].call, Grouped(calls, gap)[j].call;
            a.dateTime < b.dateTime || (a.dateTime == b.dateTime && a.id <= b.id)
  {
    SortCallsSorts(calls);
    FoldInOrder(SortCalls(calls), Allowance(gap));
    GroupingConservesCalls(calls, gap);
    hide Fold, SortCalls, MaxEnd, TotalDuration, Separated, Unbroken;
    var cs := Grouped(calls, gap);
    assert AgreesWithParts(cs[i]) && AgreesWithParts(cs[j]);
    assert !Before(cs[j].parts[0], cs[i].parts[0]);
  }

  // ---------- conversations are connected components

  /** b starts no earlier than a and no later than a's rounded-up end plus the gap, on the same channel. */
  ghost predicate Link(a: Call, b: Call, gap: nat) {
    && ChannelOf(a) == ChannelOf(b)
    && a.dateTime <= b.dateTime
    && b.dateTime <= CallEndTime(a) + gap
  }

  /** In the source's terms: one system and talkgroup, and b starts between a's start and the gap after e, the least
      whole second that is neither before a's start nor before its exact end. */
  lemma LinkIs(a: Call, b: Call, gap: real, e: int)
    requires a.dateTime <= e && a.dateTime as real + a.duration <= e as real
    requires e - 1 < a.dateTime || (e - 1) as real < a.dateTime as real + a.duration
    ensures Link(a, b, Allowance(gap)) <==>
            && a.system == b.system && a.talkgroup == b.talkgroup && a.dateTime <= b.dateTime
            && b.dateTime as real <= e as real + (if gap < 0.0 then 0.0 else gap)
  {
    CallEndTimeRoundsUp(a, e);
    CallEndTimeRoundsUp(a, e - 1);
    AllowanceIsGap(b.dateTime, e, gap);
    hide CallEndTime, Allowance;
  }

  ghost predicate Adjacent(a: Call, b: Call, gap: nat) {
    Link(a, b, gap) || Link(b, a, gap)
  }

  ghost predicate Chain(path: seq<Call>, calls: seq<Call>, gap: nat) {
    && path != []
    && (forall k :: 0 <= k < |path| ==> path[k] in calls)
    && (forall k :: 0 < k < |path| ==> Adjacent(path[k - 1], path[k], gap))
  }

  ghost predicate Connected(calls: seq<Call>, gap: nat, a: Call, b: Call) {
    exists path :: Chain(path, calls, gap) && path[0] == a && path[|path| - 1] == b
  }

  ghost predicate Together(cs: seq<Conversation>, a: Call, b: Call) {
    exists i :: 0 <= i < |cs| && a in cs[i].parts && b in cs[i].parts
  }

  lemma ChainJoin(calls: seq<Call>, gap: nat, a: Call, b: Call, c: Call)
    requires Connected(calls, gap, a, b) && Connected(calls, gap, b, c)
    ensures Connected(calls, gap, a, c)
  {
    var p :| Chain(p, calls, gap) && p[0] == a && p[|p| - 1] == b;
    var q :| Chain(q, calls, gap) && q[0] == b && q[|q| - 1] == c;
    var r := p + q[1..];
    assert Chain(r, calls, gap) by {
      forall k | 0 < k < |r| ensures Adjacent(r[k - 1], r[k], gap) {
        if k == |p| {
          assert r[k - 1] == q[0] && r[k] == q[1];
        } else if k > |p| {
          assert r[k - 1] == q[k - |p|] && r[k] == q[k - |p| + 1];
        }
      }
    }
    assert r[0] == a && r[|r| - 1] == c;
  }

  lemma ChainReverse(calls: seq<Call>, gap: nat, a: Call, b: Call)
    requires Connected(calls, gap, a, b)
    ensures Connected(calls, gap, b, a)
  {
    var p :| Chain(p, calls, gap) && p[0] == a && p[|p| - 1] == b;
    var r := seq(|p|, i requires 0 <= i < |p| => p[|p| - 1 - i]);
    assert Chain(r, calls, gap) by {
      forall k | 0 < k < |r| ensures Adjacent(r[k - 1], r[k], gap) {
        assert Adjacent(p[|p| - 1 - k], p[|p| - k], gap);
      }
    }
    assert r[0] == b && r[|r| - 1] == a;
  }

  /** A part's furthest-reaching predecessor links to it. */
  lemma PredecessorLinks(parts: seq<Call>, gap: nat, k: nat) returns (j: nat)
    requires Unbroken(parts, gap) && 0 < k < |parts|
    ensures j < k && Link(parts[j], parts[k], gap)
  {
    hide CallEndTime, ChannelOf;
    var earlier := parts[..k];
    var end := MaxEnd(earlier);
    var c :| c in earlier && CallEndTime(c) == end;
    j :| 0 <= j < k && earlier[j] == c;
    assert !Before(parts[k], parts[j]);
  }

  lemma HopConnects(calls: seq<Call>, gap: nat, a: Call, b: Call)
    requires Adjacent(a, b, gap) && a in calls && b in calls
    ensures Connected(calls, gap, a, b)
  {
    hide Adjacent;
    var hop := [a, b];
    assert Chain(hop, calls, gap) && hop[0] == a && hop[|hop| - 1] == b;
  }

  /** Every part is linked, directly or not, to the first part. */
  lemma {:induction false} PartConnectsToFirst(calls: seq<Call>, parts: seq<Call>, gap: nat, k: nat)
    requires Unbroken(parts, gap) && k < |parts|
    requires forall c :: c in parts ==> c in calls
    ensures Connected(calls, gap, parts[0], parts[k])
  {
    hide Unbroken, Connected;
    if k == 0 {
      assert Connected(calls, gap, parts[0], parts[0]) by { SelfConnects(calls, gap, parts[0]); }
    } else {
      var j := PredecessorLinks(parts, gap, k);
      PartConnectsToFirst(calls, parts, gap, j);
      HopConnects(calls, gap, parts[j], parts[k]);
      ChainJoin(calls, gap, parts[0], parts[j], parts[k]);
    }
  }

  lemma SelfConnects(calls: seq<Call>, gap: nat, a: Call)
    requires a in calls
    ensures Connected(calls, gap, a, a)
  {
    assert Chain([a], calls, gap);
  }

  lemma LinkGoesNoFurther(cs: seq<Conversation>, gap: nat, a: Call, b: Call, i: nat, j: nat)
    requires WellGrouped(cs, gap) && Link(a, b, gap)
    requires i < |cs| && j < |cs| && a in cs[i].parts && b in cs[j].parts
    ensures ChannelOf(cs[i].parts[0]) == ChannelOf(cs[j].parts[0])
    ensures cs[i].parts[0].dateTime <= a.dateTime && cs[j].parts[0].dateTime <= b.dateTime
    ensures a.dateTime <= b.dateTime <= cs[i].endDateTime + gap && b.dateTime <= cs[j].endDateTime
  {
    hide CallEndTime, MaxEnd, TotalDuration, ChannelOf, Separated;
    var x :| 0 <= x < |cs[i].parts| && cs[i].parts[x] == a;
    var y :| 0 <= y < |cs[j].parts| && cs[j].parts[y] == b;
    assert 0 < x ==> !Before(cs[i].parts[x], cs[i].parts[0]);
    assert 0 < y ==> !Before(cs[j].parts[y], cs[j].parts[0]);
  }

  /** A link never leaves a conversation. */
  lemma LinkStaysInside(cs: seq<Conversation>, gap: nat, a: Call, b: Call, i: nat, j: nat)
    requires WellGrouped(cs, gap) && Link(a, b, gap)
    requires i < |cs| && j < |cs| && a in cs[i].parts && b in cs[j].parts
    ensures i == j
  {
    hide Link, Unbroken, CallEndTime, MaxEnd, TotalDuration, ChannelOf;
    LinkGoesNoFurther(cs, gap, a, b, i, j);
  }

  lemma EveryCallIsInside(cs: seq<Conversation>, calls: seq<Call>, c: Call)
    requires AllParts(cs) == multiset(calls)
    ensures c in calls <==> exists i :: 0 <= i < |cs| && c in cs[i].parts
  {
    AllPartsMembers(cs, c);
    assert c in calls <==> c in multiset(calls);
  }

  lemma {:induction false} ChainStaysInside(cs: seq<Conversation>, calls: seq<Call>, gap: nat, path: seq<Call>, i: nat)
    requires WellGrouped(cs, gap) && AllParts(cs) == multiset(calls)
    requires Chain(path, calls, gap) && i < |cs| && path[0] in cs[i].parts
    ensures path[|path| - 1] in cs[i].parts
  {
    hide WellGrouped, AllParts, Link;
    if |path| > 1 {
      EveryCallIsInside(cs, calls, path[1]);
      var j :| 0 <= j < |cs| && path[1] in cs[j].parts;
      assert Adjacent(path[0], path[1], gap);
      if Link(path[0], path[1], gap) {
        LinkStaysInside(cs, gap, path[0], path[1], i, j);
      } else {
        LinkStaysInside(cs, gap, path[1], path[0], j, i);
      }
      var rest := path[1..];
      forall k | 0 < k < |rest| ensures Adjacent(rest[k - 1], rest[k], gap) {
        assert Adjacent(path[k], path[k + 1], gap);
      }
      ChainStaysInside(cs, calls, gap, rest, i);
    }
  }

  lemma TogetherAreConnected(cs: seq<Conversation>, calls: seq<Call>, gap: nat, a: Call, b: Call)
    requires WellGrouped(cs, gap) && AllParts(cs) == multiset(calls) && Together(cs, a, b)
    ensures Connected(calls, gap, a, b)
  {
    hide AllParts, Connected, Unbroken, AgreesWithParts, Separated;
    var i :| 0 <= i < |cs| && a in cs[i].parts && b in cs[i].parts;
    var parts := cs[i].parts;
    forall c | c in parts ensures c in calls {
      EveryCallIsInside(cs, calls, c);
    }
    var x :| 0 <= x < |parts| && parts[x] == a;
    var y :| 0 <= y < |parts| && parts[y] == b;
    PartConnectsToFirst(calls, parts, gap, x);
    PartConnectsToFirst(calls, parts, gap, y);
    ChainReverse(calls, gap, parts[0], a);
    ChainJoin(calls, gap, a, parts[0], b);
  }

  lemma ConnectedAreTogether(cs: seq<Conversation>, calls: seq<Call>, gap: nat, a: Call, b: Call)
    requires WellGrouped(cs, gap) && AllParts(cs) == multiset(calls) && Connected(calls, gap, a, b)
    ensures Together(cs, a, b)
  {
    hide AllParts, WellGrouped, Adjacent;
    var path :| Chain(path, calls, gap) && path[0] == a && path[|path| - 1] == b;
    EveryCallIsInside(cs, calls, a);
    var i :| 0 <= i < |cs| && a in cs[i].parts;
    ChainStaysInside(cs, calls, gap, path, i);
  }

  /** Two calls share a conversation if and only if a chain of links joins them. */
  lemma ConversationsAreComponents(calls: seq<Call>, gap: real, a: Call, b: Call)
    ensures Together(Grouped(calls, gap), a, b) <==> Connected(calls, Allowance(gap), a, b)
  {
    hide Grouped, WellGrouped, AllParts, Together, Connected;
    var cs, allowed := Grouped(calls, gap), Allowance(gap);
    GroupingConservesCalls(calls, gap);
    if Together(cs, a, b) {
      TogetherAreConnected(cs, calls, allowed, a, b);
    }
    if Connected(calls, allowed, a, b) {
      ConnectedAreTogether(cs, calls, allowed, a, b);
    }
  }

  // ---------- consequences

  /** No call is in two conversations. */
  lemma OneConversationEach(calls: seq<Call>, gap: real, c: Call, i: nat, j: nat)
    requires i < |Grouped(calls, gap)| && j < |Grouped(calls, gap)|
    requires c in Grouped(calls, gap)[i].parts && c in Grouped(calls, gap)[j].parts
    ensures i == j
  {
    GroupingConservesCalls(calls, gap);
    LinkStaysInside(Grouped(calls, gap), Allowance(gap), c, c, i, j);
  }

  lemma WiderGapKeepsChains(calls: seq<Call>, g1: nat, g2: nat, a: Call, b: Call)
    requires g1 <= g2 && Connected(calls, g1, a, b)
    ensures Connected(calls, g2, a, b)
  {
    var path :| Chain(path, calls, g1) && path[0] == a && path[|path| - 1] == b;
    forall k | 0 < k < |path| ensures Adjacent(path[k - 1], path[k], g2) {
      assert Adjacent(path[k - 1], path[k], g1);
    }
    assert Chain(path, calls, g2);
  }

  /** Raising the gap only merges: each conversation under the smaller gap lies inside one under the larger. */
  lemma RaisingGapOnlyMerges(calls: seq<Call>, g1: real, g2: real, i: nat) returns (j: nat)
    requires g1 <= g2 && i < |Grouped(calls, g1)|
    ensures j < |Grouped(calls, g2)|
    ensures forall c :: c in Grouped(calls, g1)[i].parts ==> c in Grouped(calls, g2)[j].parts
  {
    var cs1, cs2 := Grouped(calls, g1), Grouped(calls, g2);
    GroupingConservesCalls(calls, g1);
    var first := cs1[i].parts[0];
    ShareUnderWiderGap(calls, g1, g2, i, first);
    j :| 0 <= j < |cs2| && first in cs2[j].parts;
    forall c | c in cs1[i].parts ensures c in cs2[j].parts {
      ShareUnderWiderGap(calls, g1, g2, i, c);
      var k :| 0 <= k < |cs2| && first in cs2[k].parts && c in cs2[k].parts;
      OneConversationEach(calls, g2, first, j, k);
    }
  }

  lemma ShareUnderWiderGap(calls: seq<Call>, g1: real, g2: real, i: nat, c: Call)
    requires g1 <= g2 && i < |Grouped(calls, g1)| && Grouped(calls, g1)[i].parts != []
    requires c in Grouped(calls, g1)[i].parts
    ensures Together(Grouped(calls, g2), Grouped(calls, g1)[i].parts[0], c)
  {
    var first := Grouped(calls, g1)[i].parts[0];
    assert Together(Grouped(calls, g1), first, c);
    ConversationsAreComponents(calls, g1, first, c);
    WiderGapKeepsChains(calls, Allowance(g1), Allowance(g2), first, c);
    ConversationsAreComponents(calls, g2, first, c);
  }

  /** The result does not depend on the order in which the rows arrive. */
  lemma GroupingIgnoresOrder(calls: seq<Call>, shuffled: seq<Call>, gap: real)
    requires multiset(calls) == multiset(shuffled) && DistinctIds(calls)
    ensures Grouped(calls, gap) == Grouped(shuffled, gap)
  {
    SortCallsSorts(calls);
    SortCallsSorts(shuffled);
    forall x, y | x in SortCalls(calls) && y in SortCalls(calls) && x.id == y.id ensures x == y {
      SortCallsMembers(calls, x);
      SortCallsMembers(calls, y);
    }
    SortedIsUnique(SortCalls(calls), SortCalls(shuffled));
  }

  function OnChannel(s: seq<Call>, ch: Channel): seq<Call> {
    if s == [] then []
    else OnChannel(s[..|s| - 1], ch) + (if ChannelOf(s[|s| - 1]) == ch then [s[|s| - 1]] else [])
  }

  function ConversationsOn(cs: seq<Conversation>, ch: Channel): seq<Conversation> {
    if cs == [] then []
    else ConversationsOn(cs[..|cs| - 1], ch)
         + (if ChannelOfConversation(cs[|cs| - 1]) == ch then [cs[|cs| - 1]] else [])
  }

  /** The newest conversation of a channel is the last one of the channel's own list. */
  lemma {:induction false} NewestOnChannel(cs: seq<Conversation>, ch: Channel)
    ensures ActiveIndex(cs, ch) == -1 <==> ConversationsOn(cs, ch) == []
    ensures var on := ConversationsOn(cs, ch);
            ActiveIndex(on, ch) == |on| - 1
            && (on != [] ==> on[|on| - 1] == cs[ActiveIndex(cs, ch)])
  {
    if cs != [] {
      NewestOnChannel(cs[..|cs| - 1], ch);
      var on := ConversationsOn(cs, ch);
      if on != [] && ChannelOfConversation(cs[|cs| - 1]) == ch {
        assert on[|on| - 1] == cs[|cs| - 1];
      }
    }
  }

  lemma {:induction false} NoneOnChannel(cs: seq<Conversation>, ch: Channel)
    requires forall k :: 0 <= k < |cs| ==> ChannelOfConversation(cs[k]) != ch
    ensures ConversationsOn(cs, ch) == []
  {
    if cs != [] {
      NoneOnChannel(cs[..|cs| - 1], ch);
    }
  }

  lemma {:induction false} OnChannelJoin(a: seq<Conversation>, b: seq<Conversation>, ch: Channel)
    ensures ConversationsOn(a + b, ch) == ConversationsOn(a, ch) + ConversationsOn(b, ch)
  {
    if b == [] {
      assert a + b == a;
    } else {
      var n := |b| - 1;
      OnChannelJoin(a, b[..n], ch);
      assert (a + b)[..|a| + n] == a + b[..n];
    }
  }

  lemma OneOnChannel(v: Conversation, ch: Channel)
    ensures ConversationsOn([v], ch) == if ChannelOfConversation(v) == ch then [v] else []
  {
    assert [v][..0] == [];
  }

  lemma UpdateOnChannel(cs: seq<Conversation>, i: nat, v: Conversation, ch: Channel)
    requires i < |cs| && ChannelOfConversation(v) == ChannelOfConversation(cs[i])
    requires i == ActiveIndex(cs, ChannelOfConversation(v))
    ensures var on := ConversationsOn(cs, ch);
            ConversationsOn(cs[i := v], ch) ==
            if ChannelOfConversation(v) == ch && on != [] then on[|on| - 1 := v] else on
    ensures ChannelOfConversation(v) == ch ==> ConversationsOn(cs, ch) != []
  {
    hide ConversationsOn, ActiveIndex, ChannelOfConversation;
    assert cs == cs[..i] + ([cs[i]] + cs[i + 1..]);
    assert cs[i := v] == cs[..i] + ([v] + cs[i + 1..]);
    OnChannelJoin(cs[..i], [cs[i]] + cs[i + 1..], ch);
    OnChannelJoin([cs[i]], cs[i + 1..], ch);
    OnChannelJoin(cs[..i], [v] + cs[i + 1..], ch);
    OnChannelJoin([v], cs[i + 1..], ch);
    OneOnChannel(cs[i], ch);
    OneOnChannel(v, ch);
    if ChannelOfConversation(v) == ch {
      NoneOnChannel(cs[i + 1..], ch);
    }
  }

  /** One step of the pass only touches the conversations of its own channel. */
  lemma StepOnChannel(cs: seq<Conversation>, c: Call, gap: nat, ch: Channel)
    ensures ConversationsOn(Step(cs, c, gap), ch)
         == if ChannelOf(c) == ch then Step(ConversationsOn(cs, ch), c, gap) else ConversationsOn(cs, ch)
  {
    var i := ActiveIndex(cs, ChannelOf(c));
    NewestOnChannel(cs, ChannelOf(c));
    if i >= 0 && c.dateTime <= cs[i].endDateTime + gap {
      UpdateOnChannel(cs, i, Extend(cs[i], c), ch);
    } else {
      assert (cs + [Start(c)])[..|cs|] == cs;
    }
  }

  lemma {:induction false} FoldOnChannel(s: seq<Call>, gap: nat, ch: Channel)
    ensures ConversationsOn(Fold(s, gap), ch) == Fold(OnChannel(s, ch), gap)
  {
    hide Step, ConversationsOn, ChannelOf;
    if s == [] {
      assert ConversationsOn([], ch) == [] by { NoneOnChannel([], ch); }
    } else {
      var n := |s| - 1;
      FoldOnChannel(s[..n], gap, ch);
      StepOnChannel(Fold(s[..n], gap), s[n], gap, ch);
      if ChannelOf(s[n]) == ch {
        assert OnChannel(s, ch)[..|OnChannel(s, ch)| - 1] == OnChannel(s[..n], ch);
      } else {
        assert OnChannel(s, ch) == OnChannel(s[..n], ch);
      }
    }
  }

  lemma {:induction false} OnChannelMembers(s: seq<Call>, ch: Channel)
    ensures forall c :: c in OnChannel(s, ch) <==> c in s && ChannelOf(c) == ch
  {
    if s != [] {
      var n := |s| - 1;
      OnChannelMembers(s[..n], ch);
      assert s == s[..n] + [s[n]];
    }
  }

  lemma {:induction false} CallsJoin(a: seq<Call>, b: seq<Call>, ch: Channel)
    ensures OnChannel(a + b, ch) == OnChannel(a, ch) + OnChannel(b, ch)
  {
    hide ChannelOf;
    if b == [] {
      assert a + b == a;
    } else {
      var n := |b| - 1;
      CallsJoin(a, b[..n], ch);
      assert (a + b)[..|a + b| - 1] == a + b[..n];
    }
  }

  lemma FirstOnChannel(c: Call, s: seq<Call>, ch: Channel)
    ensures OnChannel([c] + s, ch) == if ChannelOf(c) == ch then [c] + OnChannel(s, ch) else OnChannel(s, ch)
  {
    CallsJoin([c], s, ch);
    assert [c][..0] == [];
    assert OnChannel([], ch) == [];
    assert [] + OnChannel(s, ch) == OnChannel(s, ch);
  }

  /** A call goes in front of the whole list exactly when it goes in front of what is kept of it. */
  lemma InsertInFront(c: Call, s: seq<Call>, ch: Channel)
    requires Sorted(s) && (s == [] || !Before(s[0], c))
    ensures Insert(c, OnChannel(s, ch)) == [c] + OnChannel(s, ch)
  {
    var kept := OnChannel(s, ch);
    OnChannelMembers(s, ch);
    if kept != [] {
      assert kept[0] in s;
      var i :| 0 <= i < |s| && s[i] == kept[0];
      assert !Before(s[i], c);
    }
  }

  /** The insertion of the stable sort and the restriction to a channel commute. */
  lemma {:induction false} InsertOnChannel(c: Call, s: seq<Call>, ch: Channel)
    requires Sorted(s)
    ensures OnChannel(Insert(c, s), ch) ==
            if ChannelOf(c) == ch then Insert(c, OnChannel(s, ch)) else OnChannel(s, ch)
  {
    hide OnChannel, ChannelOf;
    if s == [] || !Before(s[0], c) {
      FirstOnChannel(c, s, ch);
      InsertInFront(c, s, ch);
    } else {
      InsertOnChannel(c, s[1..], ch);
      FirstOnChannel(s[0], Insert(c, s[1..]), ch);
      FirstOnChannel(s[0], s[1..], ch);
      assert s == [s[0]] + s[1..];
      assert ([s[0]] + OnChannel(s[1..], ch))[1..] == OnChannel(s[1..], ch);
    }
  }

  lemma {:induction false} RestrictedSort(calls: seq<Call>, ch: Channel)
    ensures OnChannel(SortCalls(calls), ch) == SortCalls(OnChannel(calls, ch))
  {
    if calls != [] {
      var rest := calls[1..];
      RestrictedSort(rest, ch);
      SortCallsSorts(rest);
      assert calls == [calls[0]] + rest;
      FirstOnChannel(calls[0], rest, ch);
      hide OnChannel, Insert, Sorted;
      InsertOnChannel(calls[0], SortCalls(rest), ch);
      assert ([calls[0]] + OnChannel(rest, ch))[1..] == OnChannel(rest, ch);
    }
  }

  /** Grouping and then keeping one channel is the same as keeping the channel and then grouping. */
  lemma GroupingRestrictsToChannel(calls: seq<Call>, gap: real, ch: Channel)
    ensures ConversationsOn(Grouped(calls, gap), ch) == Grouped(OnChannel(calls, ch), gap)
  {
    hide Fold, ConversationsOn, SortCalls, OnChannel;
    FoldOnChannel(SortCalls(calls), Allowance(gap), ch);
    RestrictedSort(calls, ch);
  }
}
