/** Source ids given to imported calls, and the pattern that removes them again
    (server/internal/api/federation.go, server/internal/database/hub_identity.go). */
module SourceIds {
  import opened SqlLike
  import opened Text

  function CleanChar(c: char): char {
    if c in {':', '/', ' '} then '_' else c
  }

  /** Trimmed, with colons, slashes and spaces replaced by underscores. */
  function Clean(s: string): string {
    var t := TrimSpace(s);
    seq(|t|, i requires 0 <= i < |t| => CleanChar(t[i]))
  }

  /** Colons, slashes and spaces become underscores, and nothing else changes. */
  lemma CleanIs(s: string)
    ensures |Clean(s)| == |TrimSpace(s)|
    ensures forall i :: 0 <= i < |Clean(s)| ==>
              if TrimSpace(s)[i] == ':' || TrimSpace(s)[i] == '/' || TrimSpace(s)[i] == ' ' then Clean(s)[i] == '_'
              else Clean(s)[i] == TrimSpace(s)[i]
  {
    hide TrimSpace;
  }

  function CleanSource(sourceId: string): (r: string)
    ensures r != ""
  {
    var c := Clean(sourceId);
    if c == "" then "unknown" else c
  }

  function FederatedSourceId(peerHubId: string, sourceId: string): string {
    "remote_" + Clean(peerHubId) + "_" + CleanSource(sourceId)
  }

  /** "remote", the cleaned peer id and the cleaned source id, which is "unknown" when it is blank, joined by
      underscores. */
  lemma FederatedSourceIdIs(peer: string, source: string)
    ensures FederatedSourceId(peer, source) ==
            "remote_" + Clean(peer) + "_" + if TrimSpace(source) == "" then "unknown" else Clean(source)
  {
    CleanIs(source);
    hide TrimSpace, Clean;
  }

  /** The LIKE pattern that DeleteFederatedPeerImports uses for one peer. */
  function PeerSourcePattern(peerHubId: string): string {
    "remote_" + EscapeSqlLike(Clean(peerHubId)) + "_%"
  }

  /** The LIKE pattern by which both export queries leave imported sources out. */
  const REMOTE_PATTERN: string := "remote\\_%"

  lemma {:induction false} RemotePatternIsPrefix(s: string)
    ensures Like(REMOTE_PATTERN, s) <==> "remote_" <= s
  {
    assert EscapeSqlLike("remote_") == "remote\\_" by {
      assert EscapeSqlLike("_") == "\\_";
      assert EscapeSqlLike("e_") == "e\\_";
      assert EscapeSqlLike("te_") == "te\\_";
      assert EscapeSqlLike("ote_") == "ote\\_";
      assert EscapeSqlLike("mote_") == "mote\\_";
      assert EscapeSqlLike("emote_") == "emote\\_";
    }
    EscapedPrefix("remote_", "%", s);
    assert EscapeSqlLike("remote_") + "%" == REMOTE_PATTERN;
    if "remote_" <= s {
      PercentMatchesAll(s[7..]);
    }
  }

  /** Every id built for an imported call is left out of both export queries. */
  lemma ImportedIdsAreNeverExported(peer: string, source: string)
    ensures Like(REMOTE_PATTERN, FederatedSourceId(peer, source))
  {
    RemotePatternIsPrefix(FederatedSourceId(peer, source));
    assert FederatedSourceId(peer, source) == "remote_" + (Clean(peer) + "_" + CleanSource(source));
  }

  /** "remote_" in the cleanup pattern is not escaped: its underscore stands for any character. */
  lemma RemoteWildcard(rest: string, s: string)
    ensures Like("remote_" + rest, s) <==> |s| >= 7 && s[..6] == "remote" && Like(rest, s[7..])
  {
    if |s| >= 7 {
      FixedHead("remote", "_" + rest, s);
      assert "remote" + ("_" + rest) == "remote_" + rest;
      assert s[6..][1..] == s[7..] && ("_" + rest)[1..] == rest;
    } else {
      ShortNeverMatches("remote", "_" + rest, s);
      assert "remote" + ("_" + rest) == "remote_" + rest;
    }
  }

  /** A head without special characters matches literally. */
  lemma {:induction false} FixedHead(head: string, rest: string, s: string)
    requires |head| <= |s| && forall i :: 0 <= i < |head| ==> head[i] !in {'\\', '%', '_'}
    ensures Like(head + rest, s) <==> s[..|head|] == head && Like(rest, s[|head|..])
  {
    if head == "" {
      assert head + rest == rest && s[0..] == s;
    } else {
      LikeStep(head + rest, s);
      assert (head + rest)[1..] == head[1..] + rest;
      FixedHead(head[1..], rest, s[1..]);
      assert s[1..][|head| - 1..] == s[|head|..];
      assert head == [head[0]] + head[1..] && s[..|head|] == [s[0]] + s[1..][..|head| - 1];
    }
  }

  lemma LikeStep(p: string, s: string)
    requires p != "" && s != "" && p[0] !in {'\\', '%', '_'}
    ensures Like(p, s) <==> s[0] == p[0] && Like(p[1..], s[1..])
  {
  }

  lemma LikeStepAny(p: string, s: string)
    requires p != "" && p[0] !in {'\\', '%', '_'}
    ensures Like(p, s) ==> s != "" && Like(p[1..], s[1..])
  {
  }

  lemma {:induction false} ShortNeverMatches(head: string, rest: string, s: string)
    requires |s| <= |head| && forall i :: 0 <= i < |head| ==> head[i] !in {'\\', '%', '_'}
    requires rest != "" && rest[0] == '_'
    ensures !Like(head + rest, s)
  {
    if head == "" {
      assert head + rest == rest;
    } else {
      assert (head + rest)[1..] == head[1..] + rest;
      LikeStepAny(head + rest, s);
      if s != "" {
        ShortNeverMatches(head[1..], rest, s[1..]);
      }
    }
  }

  /** What the cleanup pattern of a peer matches: "remote", any character, the cleaned peer id, at least one more. */
  lemma PeerPatternMeaning(peer: string, s: string)
    ensures Like(PeerSourcePattern(peer), s) <==>
            |s| >= 7 && s[..6] == "remote" && Clean(peer) <= s[7..] && |s| > 7 + |Clean(peer)|
  {
    hide Clean, EscapeSqlLike, Like;
    var p := Clean(peer);
    assert PeerSourcePattern(peer) == "remote_" + (EscapeSqlLike(p) + "_%");
    RemoteWildcard(EscapeSqlLike(p) + "_%", s);
    if |s| >= 7 {
      EscapedPrefix(p, "_%", s[7..]);
      if p <= s[7..] {
        UnderscorePercent(s[7..][|p|..]);
      }
    }
  }

  /** Exactly when cleaning up after one peer also hits another peer's source: the first peer's cleaned id is a
      proper prefix of the second one's cleaned id, underscore and source. */
  lemma CleanupHitsExactly(peer: string, other: string, source: string)
    ensures Like(PeerSourcePattern(peer), FederatedSourceId(other, source)) <==>
            Clean(peer) < Clean(other) + "_" + CleanSource(source)
  {
    hide Clean, CleanSource, PeerSourcePattern, Like;
    var s := FederatedSourceId(other, source);
    var tail := Clean(other) + "_" + CleanSource(source);
    assert s == "remote_" + tail;
    assert s[7..] == tail && s[..6] == "remote";
    PeerPatternMeaning(peer, s);
  }

  /** A peer's pattern matches every source id built for that peer. */
  lemma CleanupHitsOwnSources(peer: string, source: string)
    ensures Like(PeerSourcePattern(peer), FederatedSourceId(peer, source))
  {
    CleanupHitsExactly(peer, peer, source);
    assert Clean(peer) + "_" + CleanSource(source) == Clean(peer) + ("_" + CleanSource(source));
  }

  /** Different cleaned ids of one length never interfere. */
  lemma EqualLengthPeersAreSafe(peer: string, other: string, source: string)
    requires |Clean(peer)| == |Clean(other)| && Clean(peer) != Clean(other)
    ensures !Like(PeerSourcePattern(peer), FederatedSourceId(other, source))
  {
    hide Clean, CleanSource;
    CleanupHitsExactly(peer, other, source);
    var tail := Clean(other) + "_" + CleanSource(source);
    assert tail[..|Clean(other)|] == Clean(other);
  }

  /** Removing peer "hub" also matches the sources of peer "hub2". */
  lemma CleanupCanHitAnotherPeer()
    ensures Clean("hub") != Clean("hub2") && Like(PeerSourcePattern("hub"), FederatedSourceId("hub2", "dispatch"))
  {
    CleanupHitsExactly("hub", "hub2", "dispatch");
    assert Clean("hub") == "hub" && Clean("hub2") == "hub2";
    assert "hub2" + "_" + CleanSource("dispatch") == "hub" + ("2_" + CleanSource("dispatch"));
  }
}
