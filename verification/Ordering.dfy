/** ORDER BY: the rows of a set of ids as a list, ordered by a rank and then by id. */
module Ordering {

  lemma Member<T>(s: set<T>) returns (x: T)
    requires s != {}
    ensures x in s
  {
    x :| x in s;
  }

  method AnyOf<T(==)>(s: set<T>) returns (x: T)
    requires s != {}
    ensures x in s
  {
    x :| x in s;
  }

  function RankOf(rank: map<int, int>, id: int): int {
    if id in rank then rank[id] else 0
  }

  predicate Less(rank: map<int, int>, a: int, b: int) {
    RankOf(rank, a) < RankOf(rank, b) || (RankOf(rank, a) == RankOf(rank, b) && a < b)
  }

  ghost predicate IsLeast(rank: map<int, int>, s: set<int>, m: int) {
    m in s && forall x :: x in s && x != m ==> Less(rank, m, x)
  }

  lemma LeastOfMore(rank: map<int, int>, s: set<int>, x: int, m: int)
    requires x in s && IsLeast(rank, s - {x}, m)
    ensures IsLeast(rank, s, if Less(rank, x, m) then x else m)
  {
    forall y | y in s && y != x ensures y in s - {x} {
    }
  }

  lemma {:induction false} LeastExists(rank: map<int, int>, s: set<int>) returns (m: int)
    requires s != {}
    ensures IsLeast(rank, s, m)
  {
    m := Member(s);
    var rest := s - {m};
    if rest == {} {
      assert s == {m};
      LeastOfOne(rank, m);
    } else {
      var other := LeastExists(rank, rest);
      LeastOfMore(rank, s, m, other);
      m := if Less(rank, m, other) then m else other;
    }
  }

  lemma LeastOfOne(rank: map<int, int>, x: int)
    ensures IsLeast(rank, {x}, x)
  {
  }

  function Least(rank: map<int, int>, s: set<int>): (m: int)
    requires s != {}
    ensures IsLeast(rank, s, m)
  {
    assert exists m :: IsLeast(rank, s, m) by { var m := LeastExists(rank, s); }
    var m :| m in s && forall x :: x in s && x != m ==> Less(rank, m, x);
    m
  }

  ghost predicate Ordered(rank: map<int, int>, r: seq<int>) {
    forall i, j :: 0 <= i < j < |r| ==> Less(rank, r[i], r[j])
  }

  /** The members of s, each once, in order. */
  function OrderBy(rank: map<int, int>, s: set<int>): (r: seq<int>)
    ensures |r| == |s| && Ordered(rank, r)
    ensures forall x :: x in r <==> x in s
  {
    if s == {} then []
    else
      var m := Least(rank, s);
      var rest := OrderBy(rank, s - {m});
      assert forall i :: 0 <= i < |rest| ==> rest[i] in s - {m};
      [m] + rest
  }

  function Ascending(s: set<int>): (r: seq<int>)
    ensures |r| == |s|
    ensures forall x :: x in r <==> x in s
    ensures forall i, j :: 0 <= i < j < |r| ==> r[i] < r[j]
  {
    var r := OrderBy(map[], s);
    assert forall i, j :: 0 <= i < j < |r| ==> Less(map[], r[i], r[j]);
    r
  }

  /** WHERE id > since ORDER BY id LIMIT: an ascending list of ids above `since` from which an id is missing only if the
      list has `limit` entries, all smaller. */
  ghost predicate FirstAbove(all: set<int>, since: int, limit: nat, r: seq<int>) {
    && (forall i, j :: 0 <= i < j < |r| ==> r[i] < r[j])
    && (forall x :: x in r ==> x in all && x > since)
    && |r| <= limit
    && (forall x :: x in all && x > since && x !in r ==> |r| == limit && forall y :: y in r ==> y < x)
  }

  /** WHERE id < before (or no condition when it is 0) ORDER BY id DESC LIMIT, reversed: an ascending list from which an
      id is missing only if the list has `limit` entries, all larger. */
  ghost predicate LastBelow(all: set<int>, before: int, limit: nat, r: seq<int>) {
    && (forall i, j :: 0 <= i < j < |r| ==> r[i] < r[j])
    && (forall x :: x in r ==> x in all && (before <= 0 || x < before))
    && |r| <= limit
    && (forall x :: x in all && (before <= 0 || x < before) && x !in r ==>
          |r| == limit && forall y :: y in r ==> x < y)
  }

  /** The first `limit` ids of an ascending list. */
  lemma TakeIsFirstAbove(all: set<int>, since: int, limit: nat, ids: seq<int>)
    requires forall i, j :: 0 <= i < j < |ids| ==> ids[i] < ids[j]
    requires forall x :: x in ids <==> x in all && x > since
    ensures FirstAbove(all, since, limit, if |ids| <= limit then ids else ids[..limit])
  {
    var r := if |ids| <= limit then ids else ids[..limit];
    forall k | 0 <= k < |r| ensures ids[k] in r && ids[k] in ids {
      assert r[k] == ids[k];
    }
    forall x | x in r ensures x in ids {
      var k :| 0 <= k < |r| && r[k] == x;
    }
    forall x | x in all && x > since && x !in r ensures |r| == limit && forall y :: y in r ==> y < x {
      var i :| 0 <= i < |ids| && ids[i] == x;
      assert |r| <= i;
    }
  }

  lemma DropIsLastBelow(all: set<int>, before: int, limit: nat, ids: seq<int>)
    requires forall i, j :: 0 <= i < j < |ids| ==> ids[i] < ids[j]
    requires forall x :: x in ids <==> x in all && (before <= 0 || x < before)
    ensures LastBelow(all, before, limit, if |ids| <= limit then ids else ids[|ids| - limit..])
  {
    var d := if |ids| <= limit then 0 else |ids| - limit;
    var r := ids[d..];
    assert |ids| <= limit ==> r == ids;
    forall k | d <= k < |ids| ensures ids[k] in r && ids[k] in ids {
      assert r[k - d] == ids[k];
    }
    forall x | x in r ensures x in ids {
      var k :| 0 <= k < |r| && r[k] == x;
    }
    forall x | x in all && (before <= 0 || x < before) && x !in r
      ensures |r| == limit && forall y :: y in r ==> x < y
    {
      var i :| 0 <= i < |ids| && ids[i] == x;
      assert i < d;
    }
  }

  function Elements(r: seq<int>): set<int> {
    set x | x in r
  }

  /** A list without repetitions has as many members as entries. */
  lemma {:induction false} DistinctSize(r: seq<int>)
    requires forall i, j :: 0 <= i < j < |r| ==> r[i] != r[j]
    ensures |Elements(r)| == |r|
  {
    if r == [] {
      assert Elements(r) == {};
    } else {
      var n := |r| - 1;
      DistinctSize(r[..n]);
      assert Elements(r) == Elements(r[..n]) + {r[n]};
      assert r[n] !in Elements(r[..n]);
    }
  }

  /** Ascending lists of the same ids are the same list. */
  lemma {:induction false} AscendingIsUnique(a: seq<int>, b: seq<int>)
    requires forall i, j :: 0 <= i < j < |a| ==> a[i] < a[j]
    requires forall i, j :: 0 <= i < j < |b| ==> b[i] < b[j]
    requires forall x :: x in a <==> x in b
    ensures a == b
  {
    DistinctSize(a);
    DistinctSize(b);
    assert Elements(a) == Elements(b);
    if a != [] {
      assert a[0] in a && a[0] in b;
      assert b[0] in b && b[0] in a;
      assert a[0] == b[0];
      forall x ensures x in a[1..] <==> x in b[1..] {
        assert x in a[1..] <==> x in a && x != a[0];
        assert x in b[1..] <==> x in b && x != b[0];
      }
      AscendingIsUnique(a[1..], b[1..]);
    }
  }

  lemma SubsetSize<T>(a: set<T>, b: set<T>)
    requires a <= b
    ensures |a| <= |b| && |b - a| == |b| - |a|
  {
    assert b == a + (b - a);
  }

  lemma {:induction false} OrderByAgrees(r1: map<int, int>, r2: map<int, int>, s: set<int>)
    requires forall x :: x in s ==> RankOf(r1, x) == RankOf(r2, x)
    ensures OrderBy(r1, s) == OrderBy(r2, s)
  {
    if s != {} {
      var m1, m2 := Least(r1, s), Least(r2, s);
      assert m1 != m2 ==> Less(r1, m1, m2) && Less(r2, m2, m1);
      OrderByAgrees(r1, r2, s - {m1});
    }
  }

  lemma ElementsCons(m: int, r: seq<int>)
    ensures Elements([m] + r) == {m} + Elements(r)
  {
  }

  lemma OrderByStep(rank: map<int, int>, s: set<int>)
    requires s != {}
    ensures OrderBy(rank, s) == [Least(rank, s)] + OrderBy(rank, s - {Least(rank, s)})
  {
  }

  /** Dropping the first k rows leaves the order of the rest. */
  lemma {:induction false} OrderByTail(rank: map<int, int>, s: set<int>, k: nat)
    requires k <= |s|
    ensures OrderBy(rank, s)[k..] == OrderBy(rank, s - Elements(OrderBy(rank, s)[..k]))
  {
    hide OrderBy, Least, Less, Ordered, IsLeast, Elements;
    var r := OrderBy(rank, s);
    if k == 0 {
      NoElements();
      assert s - Elements(r[..0]) == s;
    } else {
      OrderByStep(rank, s);
      var m := Least(rank, s);
      var rest := OrderBy(rank, s - {m});
      LeastIsMember(rank, s);
      OrderByTail(rank, s - {m}, k - 1);
      assert r[..k] == [m] + rest[..k - 1];
      ElementsCons(m, rest[..k - 1]);
      assert s - Elements(r[..k]) == s - {m} - Elements(rest[..k - 1]);
      assert r[k..] == rest[k - 1..];
    }
  }

  lemma NoElements()
    ensures Elements([]) == {}
  {
  }

  lemma LeastIsMember(rank: map<int, int>, s: set<int>)
    requires s != {}
    ensures Least(rank, s) in s
  {
  }

  lemma OrderedIsDistinct(rank: map<int, int>, r: seq<int>)
    requires Ordered(rank, r)
    ensures |Elements(r)| == |r|
  {
    DistinctSize(r);
  }
  /** An id is left out of a list of the first `limit` above the cursor exactly when that many others come before it. */
  lemma LeftOutIff(stored: set<int>, since: int, limit: nat, r: seq<int>, id: int)
    requires FirstAbove(stored, since, limit, r) && id in stored && id > since
    ensures id !in r <==> |set y | y in stored && since < y < id| >= limit
  {
    var before := set y | y in stored && since < y < id;
    DistinctSize(r);
    if id !in r {
      assert Elements(r) <= before;
      SubsetSize(Elements(r), before);
    } else {
      forall y | y in before ensures y in r {
      }
      assert before <= Elements(r) - {id};
      assert id in Elements(r);
      SubsetSize(before, Elements(r) - {id});
    }
  }
}
