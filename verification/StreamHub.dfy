/** The stream hub's listener list, changed in place under its mutex (server/internal/api/stream.go). */
module StreamHub {
  import opened StreamSpec

  class StreamListener {
    const ownerUserId: string
    const radioSetId: string
    const sourceIds: set<string>
    var talkgroups: set<int>
    var talkgroupGroups: set<string>
    var ch: seq<Call>
    var closed: bool

    constructor (ownerUserId: string, radioSetId: string, talkgroups: set<int>, groups: set<string>,
                 sourceIds: set<string>)
      ensures Sub() == Subscription(ownerUserId, radioSetId, talkgroups, groups, sourceIds) && ch == [] && !closed
    {
      this.ownerUserId, this.radioSetId, this.sourceIds := ownerUserId, radioSetId, sourceIds;
      this.talkgroups, talkgroupGroups, ch, closed := talkgroups, groups, [], false;
    }

    function Sub(): Subscription
      reads this
    {
      Subscription(ownerUserId, radioSetId, talkgroups, talkgroupGroups, sourceIds)
    }
  }

  /** A listener as the hub sees it; what the consumer took is not the hub's business. */
  ghost function View(l: StreamListener): Listener
    reads l
  {
    Listener(l.Sub(), true, l.ch, [])
  }

  class Hub {
    var listeners: seq<StreamListener>

    constructor ()
      ensures Valid() && listeners == []
    {
      listeners := [];
    }

    /** Listed listeners are different objects with open channels within their size. */
    ghost predicate Valid()
      reads this, listeners
    {
      && (forall i, j :: 0 <= i < j < |listeners| ==> listeners[i] != listeners[j])
      && (forall i :: 0 <= i < |listeners| ==> !listeners[i].closed && |listeners[i].ch| <= CHANNEL_SIZE)
    }

    /** Each listed listener is offered the call; nothing is sent on a closed channel. */
    method PushCall(call: Call)
      requires Valid()
      modifies listeners
      ensures Valid()
      ensures forall i :: 0 <= i < |listeners| ==> View(listeners[i]) == Offer(old(View(listeners[i])), call)
      ensures forall i :: 0 <= i < |listeners| ==>
                listeners[i].ch == old(listeners[i].ch) +
                (if Matches(listeners[i].Sub(), call) && |old(listeners[i].ch)| < 32 then [call] else [])
    {
      hide Matches;
      var i := 0;
      while i < |listeners|
        invariant 0 <= i <= |listeners| && Valid()
        invariant forall j :: 0 <= j < i ==> View(listeners[j]) == Offer(old(View(listeners[j])), call)
        invariant forall j :: i <= j < |listeners| ==> View(listeners[j]) == old(View(listeners[j]))
        modifies listeners
      {
        var l := listeners[i];
        i := i + 1;
        if !Matches(l.Sub(), call) {
          continue;
        }
        if |l.ch| < CHANNEL_SIZE {
          assert !l.closed;
          l.ch := l.ch + [call];
        }
      }
    }

    method SubscribeListener(ownerUserId: string, radioSetId: string, talkgroups: seq<int>, groups: seq<string>,
                             sourceIds: seq<string>) returns (l: StreamListener)
      requires Valid()
      modifies this
      ensures Valid() && fresh(l) && listeners == old(listeners) + [l]
      ensures View(l) == Listener(Subscription(ownerUserId, radioSetId, TalkgroupSet(talkgroups), GroupSet(groups),
                                               SourceSet(sourceIds)), true, [], [])
    {
      hide TalkgroupSet, GroupSet, SourceSet;
      l := new StreamListener(ownerUserId, radioSetId, TalkgroupSet(talkgroups), GroupSet(groups),
                              SourceSet(sourceIds));
      listeners := listeners + [l];
    }

    /** Removes the listener and closes its channel, once: a second call finds nothing. The others keep their order. */
    method UnsubscribeListener(l: StreamListener)
      requires Valid()
      modifies this, l`closed
      ensures Valid()
      ensures l !in old(listeners) ==> listeners == old(listeners) && l.closed == old(l.closed)
      ensures l in old(listeners) ==>
                && !old(l.closed) && l.closed && l !in listeners
                && exists k :: 0 <= k < |old(listeners)| && old(listeners)[k] == l
                               && listeners == old(listeners)[..k] + old(listeners)[k + 1..]
    {
      var i := 0;
      while i < |listeners|
        invariant 0 <= i <= |listeners| && l !in listeners[..i]
      {
        if listeners[i] == l {
          assert !l.closed;
          listeners := listeners[..i] + listeners[i + 1..];
          l.closed := true;
          return;
        }
        i := i + 1;
      }
      assert listeners[..i] == listeners;
    }

    /** Replaces the talkgroups and groups of every listener of one radio set. */
    method UpdateRadioSetTalkgroups(radioSetId: string, talkgroups: seq<int>, groups: seq<string>)
      requires Valid()
      modifies listeners
      ensures Valid()
      ensures forall i :: 0 <= i < |listeners| ==>
                View(listeners[i]) == if listeners[i].radioSetId == radioSetId
                                      then Resubscribe(old(View(listeners[i])), TalkgroupSet(talkgroups),
                                                       GroupSet(groups))
                                      else old(View(listeners[i]))
    {
      hide TalkgroupSet, GroupSet;
      var tgSet, groupSet := TalkgroupSet(talkgroups), GroupSet(groups);
      var i := 0;
      while i < |listeners|
        invariant 0 <= i <= |listeners| && Valid()
        invariant forall j :: 0 <= j < i ==>
                    View(listeners[j]) == if listeners[j].radioSetId == radioSetId
                                          then Resubscribe(old(View(listeners[j])), tgSet, groupSet)
                                          else old(View(listeners[j]))
        invariant forall j :: i <= j < |listeners| ==> View(listeners[j]) == old(View(listeners[j]))
        modifies listeners
      {
        var l := listeners[i];
        if l.radioSetId == radioSetId {
          l.talkgroups := tgSet;
          l.talkgroupGroups := groupSet;
        }
        i := i + 1;
      }
    }
  }
}
