/** The public stream fan-out: subscriptions, matching and bounded listener channels
    (server/internal/api/stream.go). */
module StreamSpec {
  import opened Text

  const CHANNEL_SIZE: nat := 32
  const PTT_TALKGROUP_MIN := 9000000
  const PTT_TALKGROUP_MAX := 9999999

  datatype Call = Call(id: int, userId: string, sourceId: string, talkgroup: int, talkgroupGroup: string,
                       origin: string)

  datatype Subscription = Subscription(ownerUserId: string, radioSetId: string, talkgroups: set<int>,
                                       talkgroupGroups: set<string>, sourceIds: set<string>)

  function NormalizeGroup(group: string): string {
    ToLower(TrimSpace(group))
  }

  function TalkgroupSet(talkgroups: seq<int>): set<int> {
    set t | t in talkgroups
  }

  /** Blank group names are left out; the others are compared without case and surrounding space. */
  function GroupSet(groups: seq<string>): set<string> {
    set g | g in groups && TrimSpace(g) != "" :: NormalizeGroup(TrimSpace(g))
  }

  function SourceSet(sourceIds: seq<string>): set<string> {
    set s | s in sourceIds && s != ""
  }

  predicate IsPttCall(c: Call) {
    ToLower(TrimSpace(c.origin)) in {"ptt", "ptt-dispatch"} || PTT_TALKGROUP_MIN <= c.talkgroup <= PTT_TALKGROUP_MAX
  }

  predicate MatchesTalkgroup(s: Subscription, c: Call) {
    || c.talkgroup in s.talkgroups
    || (s.talkgroupGroups != {} && TrimSpace(c.talkgroupGroup) != ""
        && NormalizeGroup(TrimSpace(c.talkgroupGroup)) in s.talkgroupGroups)
  }

  predicate MatchesCall(s: Subscription, c: Call) {
    || IsPttCall(c)
    || (s.ownerUserId != "" && s.ownerUserId == c.userId)
    || (c.sourceId != "" && c.sourceId in s.sourceIds)
  }

  predicate Matches(s: Subscription, c: Call) {
    MatchesTalkgroup(s, c) && MatchesCall(s, c)
  }

  // ---------- one listener

  /** `taken` is what the consumer has read off the channel. */
  datatype Listener = Listener(sub: Subscription, subscribed: bool, queue: seq<Call>, taken: seq<Call>)

  /** The non-blocking send. */
  function Offer(l: Listener, c: Call): Listener {
    if Matches(l.sub, c) && |l.queue| < CHANNEL_SIZE then l.(queue := l.queue + [c]) else l
  }

  function Resubscribe(l: Listener, talkgroups: set<int>, groups: set<string>): Listener {
    l.(sub := l.sub.(talkgroups := talkgroups, talkgroupGroups := groups))
  }

  // ---------- runs of the hub

  datatype Event =
    | Subscribe(sub: Subscription)
    | Push(call: Call)
    | Take(token: nat)
    | Update(radioSetId: string, talkgroups: seq<int>, groups: seq<string>)
    | Unsubscribe(token: nat)

  /** All listeners ever created, by order of creation. */
  type Hub = seq<Listener>

  function TakeOne(l: Listener): Listener {
    if l.queue == [] then l else l.(queue := l.queue[1..], taken := l.taken + [l.queue[0]])
  }

  /** What an event does to one listener, looking at no other. */
  function LocalNext(l: Listener, token: nat, e: Event): Listener {
    match e
    case Subscribe(_) => l
    case Push(call) => if l.subscribed then Offer(l, call) else l
    case Take(t) => if t == token then TakeOne(l) else l
    case Update(radioSetId, talkgroups, groups) =>
      if l.subscribed && l.sub.radioSetId == radioSetId then Resubscribe(l, TalkgroupSet(talkgroups), GroupSet(groups))
      else l
    case Unsubscribe(t) => if t == token then l.(subscribed := false) else l
  }

  /** The hub runs through its listeners one after the other. */
  function PushAll(hub: Hub, call: Call, n: nat): Hub
    requires n <= |hub|
    ensures |PushAll(hub, call, n)| == |hub|
  {
    if n == 0 then hub
    else
      var before := PushAll(hub, call, n - 1);
      before[n - 1 := if before[n - 1].subscribed then Offer(before[n - 1], call) else before[n - 1]]
  }

  function UpdateAll(hub: Hub, radioSetId: string, talkgroups: set<int>, groups: set<string>, n: nat): Hub
    requires n <= |hub|
    ensures |UpdateAll(hub, radioSetId, talkgroups, groups, n)| == |hub|
  {
    if n == 0 then hub
    else
      var before := UpdateAll(hub, radioSetId, talkgroups, groups, n - 1);
      var l := before[n - 1];
      before[n - 1 := if l.subscribed && l.sub.radioSetId == radioSetId then Resubscribe(l, talkgroups, groups) else l]
  }

  function Next(hub: Hub, e: Event): Hub {
    match e
    case Subscribe(sub) => hub + [Listener(sub, true, [], [])]
    case Push(call) => PushAll(hub, call, |hub|)
    case Take(t) => if t < |hub| then hub[t := TakeOne(hub[t])] else hub
    case Update(radioSetId, talkgroups, groups) =>
      UpdateAll(hub, radioSetId, TalkgroupSet(talkgroups), GroupSet(groups), |hub|)
    case Unsubscribe(t) => if t < |hub| then hub[t := hub[t].(subscribed := false)] else hub
  }

  function Run(hub: Hub, events: seq<Event>): Hub {
    if events == [] then hub else Next(Run(hub, events[..|events| - 1]), events[|events| - 1])
  }

  function LocalRun(l: Listener, token: nat, events: seq<Event>): Listener {
    if events == [] then l else LocalNext(LocalRun(l, token, events[..|events| - 1]), token, events[|events| - 1])
  }

  lemma {:induction false} PushAllAt(hub: Hub, call: Call, n: nat, t: nat)
    requires n <= |hub| && t < |hub|
    ensures PushAll(hub, call, n)[t] == if t < n && hub[t].subscribed then Offer(hub[t], call) else hub[t]
  {
    hide Matches;
    if n > 0 {
      PushAllAt(hub, call, n - 1, t);
    }
  }

  lemma {:induction false} UpdateAllAt(hub: Hub, radioSetId: string, talkgroups: set<int>, groups: set<string>,
                                       n: nat, t: nat)
    requires n <= |hub| && t < |hub|
    ensures UpdateAll(hub, radioSetId, talkgroups, groups, n)[t] ==
            if t < n && hub[t].subscribed && hub[t].sub.radioSetId == radioSetId
            then Resubscribe(hub[t], talkgroups, groups) else hub[t]
  {
    if n > 0 {
      UpdateAllAt(hub, radioSetId, talkgroups, groups, n - 1, t);
    }
  }

  lemma NextIsLocal(hub: Hub, e: Event, t: nat)
    requires t < |hub|
    ensures t < |Next(hub, e)| && Next(hub, e)[t] == LocalNext(hub[t], t, e)
  {
    hide Offer, Matches, GroupSet;
    match e
    case Push(call) => PushAllAt(hub, call, |hub|, t);
    case Update(radioSetId, talkgroups, groups) =>
      UpdateAllAt(hub, radioSetId, TalkgroupSet(talkgroups), GroupSet(groups), |hub|, t);
    case _ =>
  }

  /** Listeners do not influence each other: over any run, each one ends up as if it were the only one. In particular a
      full channel never changes what another listener receives. */
  lemma {:induction false} ListenersAreIndependent(hub: Hub, events: seq<Event>, t: nat)
    requires t < |hub|
    ensures t < |Run(hub, events)| && Run(hub, events)[t] == LocalRun(hub[t], t, events)
  {
    hide Next, LocalNext;
    if events != [] {
      ListenersAreIndependent(hub, events[..|events| - 1], t);
      NextIsLocal(Run(hub, events[..|events| - 1]), events[|events| - 1], t);
    }
  }

  // ---------- what a listener receives

  function Received(l: Listener): seq<Call> {
    l.taken + l.queue
  }

  /** A push reaches a listener that is subscribed, matches as its subscription is then, and has room. */
  predicate Accepts(l: Listener, c: Call) {
    l.subscribed && Matches(l.sub, c) && |l.queue| < CHANNEL_SIZE
  }

  /** The pushed calls that reached the listener, in order. */
  function Accepted(l: Listener, token: nat, events: seq<Event>): seq<Call> {
    if events == [] then []
    else
      var n := |events| - 1;
      Accepted(l, token, events[..n])
      + (if events[n].Push? && Accepts(LocalRun(l, token, events[..n]), events[n].call) then [events[n].call] else [])
  }

  function Pushed(events: seq<Event>): seq<Call> {
    if events == [] then []
    else Pushed(events[..|events| - 1]) + (if events[|events| - 1].Push? then [events[|events| - 1].call] else [])
  }

  /** The chosen positions pick the calls out of the pushed ones, in order. */
  ghost predicate Picks(chosen: seq<nat>, from: seq<Call>, calls: seq<Call>) {
    && |chosen| == |calls|
    && (forall i :: 0 <= i < |chosen| ==> chosen[i] < |from| && from[chosen[i]] == calls[i])
    && (forall i, j :: 0 <= i < j < |chosen| ==> chosen[i] < chosen[j])
  }

  lemma ReceivedStep(l: Listener, token: nat, e: Event)
    ensures Received(LocalNext(l, token, e)) ==
            Received(l) + (if e.Push? && Accepts(l, e.call) then [e.call] else [])
  {
    hide Matches, GroupSet;
    match e
    case Take(t) =>
      if l.queue != [] {
        assert l.queue == [l.queue[0]] + l.queue[1..];
        assert Received(TakeOne(l)) == Received(l);
      }
    case _ =>
  }

  /** Over any run, what a listener receives is exactly the accepted calls, in the order they were pushed. */
  lemma {:induction false} ReceivesExactly(l: Listener, token: nat, events: seq<Event>)
    ensures Received(LocalRun(l, token, events)) == Received(l) + Accepted(l, token, events)
  {
    hide LocalNext, Accepts, Received;
    if events != [] {
      var n := |events| - 1;
      ReceivesExactly(l, token, events[..n]);
      ReceivedStep(LocalRun(l, token, events[..n]), token, events[n]);
    } else {
      assert Received(l) + [] == Received(l);
    }
  }

  lemma PicksMore(chosen: seq<nat>, from: seq<Call>, calls: seq<Call>, c: Call)
    requires Picks(chosen, from, calls)
    ensures Picks(chosen, from + [c], calls) && Picks(chosen + [|from|], from + [c], calls + [c])
  {
  }

  lemma {:induction false} AcceptedIsSubsequence(l: Listener, token: nat, events: seq<Event>) returns (chosen: seq<nat>)
    ensures Picks(chosen, Pushed(events), Accepted(l, token, events))
  {
    hide LocalRun, Accepts;
    if events == [] {
      chosen := [];
    } else {
      var n := |events| - 1;
      chosen := AcceptedIsSubsequence(l, token, events[..n]);
      hide Picks;
      var from, calls := Pushed(events[..n]), Accepted(l, token, events[..n]);
      if events[n].Push? {
        PicksMore(chosen, from, calls, events[n].call);
        if Accepts(LocalRun(l, token, events[..n]), events[n].call) {
          chosen := chosen + [|from|];
        } else {
          assert calls + [] == calls;
        }
      } else {
        assert calls + [] == calls && from + [] == from;
      }
    }
  }

  /** For any run of the hub: what a listener receives is the in-order subsequence of the pushed calls that matched its
      subscription when pushed and found room in its channel. */
  lemma HubDeliversExactly(hub: Hub, events: seq<Event>, t: nat) returns (chosen: seq<nat>)
    requires t < |hub|
    ensures t < |Run(hub, events)|
            && Received(Run(hub, events)[t]) == Received(hub[t]) + Accepted(hub[t], t, events)
    ensures Picks(chosen, Pushed(events), Accepted(hub[t], t, events))
  {
    ListenersAreIndependent(hub, events, t);
    ReceivesExactly(hub[t], t, events);
    chosen := AcceptedIsSubsequence(hub[t], t, events);
  }

  /** After it is unsubscribed a listener accepts nothing more. */
  lemma {:induction false} NothingAfterUnsubscribe(l: Listener, token: nat, events: seq<Event>)
    requires !l.subscribed
    ensures Accepted(l, token, events) == [] && !LocalRun(l, token, events).subscribed
  {
    hide Matches, GroupSet, Offer;
    if events != [] {
      NothingAfterUnsubscribe(l, token, events[..|events| - 1]);
    }
  }

  lemma {:induction false} SubscribedUntil(l: Listener, token: nat, events: seq<Event>)
    requires l.subscribed
    ensures LocalRun(l, token, events).subscribed <==> Unsubscribe(token) !in events
    ensures LocalRun(l, token, events).sub.radioSetId == l.sub.radioSetId
    ensures (forall e :: e in events && e.Update? ==> e.radioSetId != l.sub.radioSetId) ==>
              LocalRun(l, token, events).sub == l.sub
  {
    hide Matches, GroupSet;
    if events != [] {
      var before, e := events[..|events| - 1], events[|events| - 1];
      assert e in events && forall x :: x in events <==> x in before || x == e;
      SubscribedUntil(l, token, before);
    }
  }

  /** A new listener hears nothing of before, and from then on, until it is unsubscribed, each call that matches its
      subscription while fewer than 32 wait in its channel; only an update of its own set changes the subscription. */
  lemma NewListenerHears(hub: Hub, sub: Subscription, events: seq<Event>, c: Call)
    ensures var t, start := |hub|, Next(hub, Subscribe(sub));
            var h := Run(start, events);
            && |start| == t + 1 <= |h| && Received(start[t]) == []
            && t < |Next(h, Push(c))|
            && Received(Next(h, Push(c))[t]) ==
               Received(h[t])
               + (if Unsubscribe(t) !in events && Matches(h[t].sub, c) && |h[t].queue| < 32 then [c] else [])
            && ((forall e :: e in events && e.Update? ==> e.radioSetId != sub.radioSetId) ==> h[t].sub == sub)
  {
    var t, start := |hub|, Next(hub, Subscribe(sub));
    ListenersAreIndependent(start, events, t);
    SubscribedUntil(start[t], t, events);
    var h := Run(start, events);
    NextIsLocal(h, Push(c), t);
    hide Matches, Run, LocalRun, Next;
    ReceivedStep(h[t], t, Push(c));
  }

  // ---------- the public player's subscription

  datatype PttTalkgroup = NoPtt | Ptt(number: int)

  datatype RadioSet = RadioSet(groupsMode: bool, talkgroups: seq<int>, talkgroupGroups: seq<string>, ptt: PttTalkgroup)

  function PublicTalkgroups(rs: RadioSet): seq<int> {
    (if rs.groupsMode then [] else rs.talkgroups) + (if rs.ptt.Ptt? then [rs.ptt.number] else [])
  }

  function PublicGroups(rs: RadioSet): seq<string> {
    (if rs.groupsMode then rs.talkgroupGroups else []) + (if rs.ptt.Ptt? then ["PTT"] else [])
  }

  function PublicSubscription(owner: string, radioSetId: string, rs: RadioSet, sourceIds: seq<string>): Subscription {
    Subscription(owner, radioSetId, TalkgroupSet(PublicTalkgroups(rs)), GroupSet(PublicGroups(rs)),
                 SourceSet(sourceIds))
  }

  lemma PttName()
    ensures TrimSpace("PTT") == "PTT" && NormalizeGroup("PTT") == "ptt"
  {
    assert TrimLeft("PTT") == "PTT" && TrimRight("PTT") == "PTT";
    assert ToLower("PTT") == ['p', 't', 't'];
  }

  lemma PttOrigins()
    ensures ToLower(TrimSpace("ptt")) == "ptt"
    ensures ToLower(TrimSpace("ptt-dispatch")) == "ptt-dispatch"
  {
    assert TrimLeft("ptt") == "ptt" && TrimRight("ptt") == "ptt";
    assert TrimLeft("ptt-dispatch") == "ptt-dispatch" && TrimRight("ptt-dispatch") == "ptt-dispatch";
    hide TrimSpace;
    assert ToLower("ptt") == "ptt" && ToLower("ptt-dispatch") == "ptt-dispatch";
  }

  /** A call stored by push-to-talk, uploaded or broadcast, is heard by a public player exactly when the player's set
      has a PTT talkgroup, names the call's talkgroup, or names a group called "ptt". */
  lemma WhoHearsPtt(owner: string, radioSetId: string, rs: RadioSet, sourceIds: seq<string>, c: Call)
    requires c.origin in {"ptt", "ptt-dispatch"} && c.talkgroupGroup == "PTT"
    ensures Matches(PublicSubscription(owner, radioSetId, rs, sourceIds), c) <==>
            || rs.ptt.Ptt?
            || (!rs.groupsMode && c.talkgroup in rs.talkgroups)
            || (rs.groupsMode
                && exists g :: g in rs.talkgroupGroups && TrimSpace(g) != "" && NormalizeGroup(TrimSpace(g)) == "ptt")
  {
    PttName();
    PttOrigins();
    hide TrimSpace, ToLower, NormalizeGroup, SourceSet;
    var s := PublicSubscription(owner, radioSetId, rs, sourceIds);
    assert IsPttCall(c);
    assert "ptt" in s.talkgroupGroups <==>
      exists g :: g in PublicGroups(rs) && TrimSpace(g) != "" && NormalizeGroup(TrimSpace(g)) == "ptt";
    if rs.ptt.Ptt? {
      assert "PTT" in PublicGroups(rs) by {
        assert PublicGroups(rs)[|PublicGroups(rs)| - 1] == "PTT";
      }
    }
  }

  /** Who hears a call at all: it must be on a talkgroup of the player's set or, for a call with a group name, in one of
      its groups, compared without case and surrounding space; and unless it is a push-to-talk call, by its origin or
      by a talkgroup from 9000000 to 9999999, it must belong to the set's owner or come from a source the owner can
      read. */
  lemma WhoHears(owner: string, radioSetId: string, rs: RadioSet, sourceIds: seq<string>, c: Call)
    ensures Matches(PublicSubscription(owner, radioSetId, rs, sourceIds), c) <==>
            && (|| (rs.ptt.Ptt? && c.talkgroup == rs.ptt.number)
                || (!rs.groupsMode && c.talkgroup in rs.talkgroups)
                || (TrimSpace(c.talkgroupGroup) != "" && rs.ptt.Ptt?
                    && ToLower(TrimSpace(c.talkgroupGroup)) == "ptt")
                || (TrimSpace(c.talkgroupGroup) != "" && rs.groupsMode
                    && exists g :: g in rs.talkgroupGroups && TrimSpace(g) != ""
                                   && ToLower(TrimSpace(g)) == ToLower(TrimSpace(c.talkgroupGroup))))
            && (|| ToLower(TrimSpace(c.origin)) == "ptt"
                || ToLower(TrimSpace(c.origin)) == "ptt-dispatch"
                || 9000000 <= c.talkgroup <= 9999999
                || (owner != "" && c.userId == owner)
                || (c.sourceId != "" && c.sourceId in sourceIds))
  {
    PttName();
    TrimSpaceTwice(c.talkgroupGroup);
    forall g: string ensures TrimSpace(TrimSpace(g)) == TrimSpace(g) {
      TrimSpaceTwice(g);
    }
    hide TrimSpace, ToLower;
    PublicTalkgroupIff(rs, c.talkgroup);
    PublicGroupIff(rs, NormalizeGroup(TrimSpace(c.talkgroupGroup)));
    hide PublicTalkgroups, PublicGroups, GroupSet, TalkgroupSet;
  }

  lemma PublicTalkgroupIff(rs: RadioSet, talkgroup: int)
    ensures talkgroup in TalkgroupSet(PublicTalkgroups(rs)) <==>
            (rs.ptt.Ptt? && talkgroup == rs.ptt.number) || (!rs.groupsMode && talkgroup in rs.talkgroups)
  {
  }

  lemma PublicGroupIff(rs: RadioSet, name: string)
    ensures name in GroupSet(PublicGroups(rs)) <==>
            || (rs.ptt.Ptt? && name == "ptt")
            || (rs.groupsMode && exists g :: g in rs.talkgroupGroups && TrimSpace(g) != ""
                                             && NormalizeGroup(TrimSpace(g)) == name)
  {
    PttName();
    hide TrimSpace, ToLower, NormalizeGroup;
    var all := PublicGroups(rs);
    assert rs.ptt.Ptt? ==> all[|all| - 1] == "PTT" && "PTT" in all;
    assert name in GroupSet(all) <==>
           exists g :: g in all && TrimSpace(g) != "" && NormalizeGroup(TrimSpace(g)) == name;
    assert forall g :: g in all <==> (rs.ptt.Ptt? && g == "PTT") || (rs.groupsMode && g in rs.talkgroupGroups);
  }
}
