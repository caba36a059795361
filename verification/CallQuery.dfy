/** The call list query: WHERE conditions with numbered placeholders, built step by step
    (server/internal/database/calls.go). A condition is its syntax tree; `Holds` is what it means for a row. */
module CallQuery {
  import opened SqlLike
  import opened Text

  datatype Owner = NoOwner | OwnedBy(userId: string)

  /** The columns the conditions read; `transcript` is already empty when there is none. */
  datatype Row = Row(owner: Owner, systemLabel: string, talkgroupLabel: string, talkgroupGroup: string,
                     talkgroup: int, transcript: string)

  datatype Params = Params(userId: string, onlyUnowned: bool, search: string, talkgroups: seq<int>,
                           groups: seq<string>, group: string, limit: int, offset: int, sortBy: string, order: string)

  datatype Arg = TextArg(text: string) | NumberArg(number: int)

  /** Placeholders are the numbers after the dollar sign. */
  datatype Condition =
    | OwnedOrUnowned(user: nat)
    | Unowned
    | Search(p1: nat, p2: nat, p3: nat, p4: nat)
    | TalkgroupIn(ps: seq<nat>)
    | GroupIn(ps: seq<nat>)
    | GroupLike(pattern: nat)

  datatype Column = DateTime | Duration | Frequency | TalkgroupColumn

  datatype Query = Query(conditions: seq<Condition>, args: seq<Arg>, column: Column, ascending: bool,
                         limitAt: nat, offsetAt: nat)

  // ---------- what a condition means

  function Placeholders(c: Condition): seq<nat> {
    match c
    case OwnedOrUnowned(user) => [user]
    case Unowned => []
    case Search(p1, p2, p3, p4) => [p1, p2, p3, p4]
    case TalkgroupIn(ps) => ps
    case GroupIn(ps) => ps
    case GroupLike(pattern) => [pattern]
  }

  function Bound(args: seq<Arg>, p: nat): Arg {
    if 1 <= p <= |args| then args[p - 1] else NumberArg(0)
  }

  predicate LikeNoCase(text: string, pattern: Arg) {
    pattern.TextArg? && Like(ToLower(pattern.text), ToLower(text))
  }

  /** CAST(... AS TEXT). */
  function IntText(n: int): string {
    if n < 0 then "-" + Decimal(-n) else Decimal(n)
  }

  predicate Holds(c: Condition, args: seq<Arg>, row: Row) {
    match c
    case OwnedOrUnowned(user) =>
      row.owner.NoOwner? || Bound(args, user) == TextArg(row.owner.userId)
    case Unowned => row.owner.NoOwner?
    case Search(p1, p2, p3, p4) =>
      || LikeNoCase(row.systemLabel, Bound(args, p1))
      || LikeNoCase(row.talkgroupLabel, Bound(args, p2))
      || LikeNoCase(row.talkgroupGroup, Bound(args, p3))
      || (Bound(args, p4).TextArg? && Like(Bound(args, p4).text, IntText(row.talkgroup)))
      || LikeNoCase(row.transcript, Bound(args, p1))
    case TalkgroupIn(ps) => exists i :: 0 <= i < |ps| && Bound(args, ps[i]) == NumberArg(row.talkgroup)
    case GroupIn(ps) => exists i :: 0 <= i < |ps| && Bound(args, ps[i]) == TextArg(row.talkgroupGroup)
    case GroupLike(pattern) => LikeNoCase(row.talkgroupGroup, Bound(args, pattern))
  }

  predicate AllHold(cs: seq<Condition>, args: seq<Arg>, row: Row) {
    forall i :: 0 <= i < |cs| ==> Holds(cs[i], args, row)
  }

  ghost predicate InRange(c: Condition, n: nat) {
    forall i :: 0 <= i < |Placeholders(c)| ==> 1 <= Placeholders(c)[i] <= n
  }

  /** Arguments added later never change what an earlier condition means. */
  lemma LaterArgsDoNotMatter(c: Condition, args: seq<Arg>, more: seq<Arg>, row: Row)
    requires InRange(c, |args|)
    ensures Holds(c, args + more, row) == Holds(c, args, row)
    ensures InRange(c, |args + more|)
  {
    hide LikeNoCase, IntText, Like;
    var ps := Placeholders(c);
    assert forall i :: 0 <= i < |ps| ==> Bound(args + more, ps[i]) == Bound(args, ps[i]);
    if c.Search? {
      assert ps[0] == c.p1 && ps[1] == c.p2 && ps[2] == c.p3 && ps[3] == c.p4;
    } else if c.OwnedOrUnowned? {
      assert ps[0] == c.user;
    } else if c.GroupLike? {
      assert ps[0] == c.pattern;
    }
  }

  // ---------- what the parameters ask for

  predicate ContainsNoCase(text: string, value: string) {
    Like(ToLower("%" + value + "%"), ToLower(text))
  }

  predicate OwnerMatches(userId: string, onlyUnowned: bool, row: Row) {
    if userId != "" then row.owner.NoOwner? || row.owner.userId == userId
    else onlyUnowned ==> row.owner.NoOwner?
  }

  predicate SearchMatches(search: string, row: Row) {
    var value := TrimSpace(search);
    value != "" ==>
      || ContainsNoCase(row.systemLabel, value)
      || ContainsNoCase(row.talkgroupLabel, value)
      || ContainsNoCase(row.talkgroupGroup, value)
      || Like("%" + value + "%", IntText(row.talkgroup))
      || ContainsNoCase(row.transcript, value)
  }

  predicate GroupMatches(group: string, row: Row) {
    TrimSpace(group) != "" ==> ContainsNoCase(row.talkgroupGroup, TrimSpace(group))
  }

  /** The rows the parameters ask for. */
  predicate Wanted(p: Params, row: Row) {
    && OwnerMatches(p.userId, p.onlyUnowned, row)
    && SearchMatches(p.search, row)
    && (p.talkgroups != [] ==> row.talkgroup in p.talkgroups)
    && (p.groups != [] ==> row.talkgroupGroup in p.groups)
    && GroupMatches(p.group, row)
  }

  function Limit(p: Params): int {
    if p.limit <= 0 || p.limit > 1000 then 100 else p.limit
  }

  function Offset(p: Params): int {
    if p.offset < 0 then 0 else p.offset
  }

  function SortColumn(p: Params): Column {
    var key := ToLower(p.sortBy);
    if key == "duration" then Duration
    else if key == "frequency" then Frequency
    else if key == "talkgroup" then TalkgroupColumn
    else DateTime
  }

  /** strings.ToUpper(order) == "ASC", over the ASCII letters. */
  predicate IsAscending(p: Params) {
    ToLower(p.order) == "asc"
  }

  // ---------- the builder

  class Builder {
    var conditions: seq<Condition>
    var args: seq<Arg>
    var argPos: nat

    ghost predicate Valid()
      reads this
    {
      && argPos == |args| + 1
      && forall i :: 0 <= i < |conditions| ==> InRange(conditions[i], |args|)
    }

    ghost predicate Accepts(row: Row)
      reads this
    {
      AllHold(conditions, args, row)
    }

    constructor ()
      ensures Valid() && conditions == [] && args == []
    {
      conditions, args, argPos := [], [], 1;
    }

    /** Adds one condition over the next placeholders. */
    ghost predicate Extends(before: seq<Condition>, argsBefore: seq<Arg>)
      reads this
    {
      before <= conditions && argsBefore <= args
    }

    method AppendOwnerFilter(userId: string, onlyUnowned: bool)
      requires Valid()
      modifies this
      ensures Valid() && Extends(old(conditions), old(args))
      ensures forall row :: Accepts(row) <==> old(Accepts(row)) && OwnerMatches(userId, onlyUnowned, row)
    {
      hide AllHold, Holds, InRange, OwnerMatches;
      ghost var cs, before := conditions, args;
      if userId != "" {
        conditions := conditions + [OwnedOrUnowned(argPos)];
        args := args + [TextArg(userId)];
        argPos := argPos + 1;
        OwnerCondition(before, userId, onlyUnowned);
        Appended(cs, before, OwnedOrUnowned(|before| + 1), [TextArg(userId)]);
      } else if onlyUnowned {
        conditions := conditions + [Unowned];
        UnownedCondition(before, userId);
        assert before + [] == before;
        Appended(cs, before, Unowned, []);
      } else {
        NoOwnerCondition(userId);
      }
    }

    method AppendSearchFilter(search: string)
      requires Valid()
      modifies this
      ensures Valid() && Extends(old(conditions), old(args))
      ensures forall row :: Accepts(row) <==> old(Accepts(row)) && SearchMatches(search, row)
    {
      hide AllHold, Holds, InRange, SearchMatches;
      ghost var cs, before := conditions, args;
      var value := TrimSpace(search);
      if value == "" {
        BlankSearch(search);
        return;
      }
      conditions := conditions + [Search(argPos, argPos + 1, argPos + 2, argPos + 3)];
      var pattern := TextArg("%" + value + "%");
      args := args + [pattern, pattern, pattern, pattern];
      argPos := argPos + 4;
      SearchCondition(before, search);
      Appended(cs, before, Search(|before| + 1, |before| + 2, |before| + 3, |before| + 4),
               [pattern, pattern, pattern, pattern]);
    }

    method AppendTalkgroupsFilter(talkgroups: seq<int>)
      requires Valid()
      modifies this
      ensures Valid() && Extends(old(conditions), old(args))
      ensures forall row :: Accepts(row) <==> old(Accepts(row)) && (talkgroups != [] ==> row.talkgroup in talkgroups)
    {
      hide AllHold, Holds, InRange;
      ghost var cs, before := conditions, args;
      if |talkgroups| == 0 {
        return;
      }
      var placeholders: seq<nat> := [];
      var i := 0;
      while i < |talkgroups|
        invariant 0 <= i <= |talkgroups| && conditions == cs && argPos == |args| + 1
        invariant args == before + NumberArgs(talkgroups[..i]) && placeholders == From(|before| + 1, i)
      {
        placeholders := placeholders + [argPos];
        args := args + [NumberArg(talkgroups[i])];
        argPos := argPos + 1;
        i := i + 1;
        assert NumberArgs(talkgroups[..i]) == NumberArgs(talkgroups[..i - 1]) + [NumberArg(talkgroups[i - 1])];
      }
      assert talkgroups[..i] == talkgroups;
      conditions := conditions + [TalkgroupIn(placeholders)];
      TalkgroupCondition(before, talkgroups);
      Appended(cs, before, TalkgroupIn(From(|before| + 1, |talkgroups|)), NumberArgs(talkgroups));
    }

    method AppendGroupsFilter(groups: seq<string>)
      requires Valid()
      modifies this
      ensures Valid() && Extends(old(conditions), old(args))
      ensures forall row :: Accepts(row) <==> old(Accepts(row)) && (groups != [] ==> row.talkgroupGroup in groups)
    {
      hide AllHold, Holds, InRange;
      ghost var cs, before := conditions, args;
      if |groups| == 0 {
        return;
      }
      var placeholders: seq<nat> := [];
      var i := 0;
      while i < |groups|
        invariant 0 <= i <= |groups| && conditions == cs && argPos == |args| + 1
        invariant args == before + TextArgs(groups[..i]) && placeholders == From(|before| + 1, i)
      {
        placeholders := placeholders + [argPos];
        args := args + [TextArg(groups[i])];
        argPos := argPos + 1;
        i := i + 1;
        assert TextArgs(groups[..i]) == TextArgs(groups[..i - 1]) + [TextArg(groups[i - 1])];
      }
      assert groups[..i] == groups;
      conditions := conditions + [GroupIn(placeholders)];
      GroupsCondition(before, groups);
      Appended(cs, before, GroupIn(From(|before| + 1, |groups|)), TextArgs(groups));
    }

    method AppendGroupFilter(group: string)
      requires Valid()
      modifies this
      ensures Valid() && Extends(old(conditions), old(args))
      ensures forall row :: Accepts(row) <==> old(Accepts(row)) && GroupMatches(group, row)
    {
      hide AllHold, Holds, InRange, GroupMatches;
      ghost var cs, before := conditions, args;
      var value := TrimSpace(group);
      if value == "" {
        BlankGroup(group);
        return;
      }
      conditions := conditions + [GroupLike(argPos)];
      args := args + [TextArg("%" + value + "%")];
      argPos := argPos + 1;
      GroupCondition(before, group);
      Appended(cs, before, GroupLike(|before| + 1), [TextArg("%" + value + "%")]);
    }
  }

  /** The query of a call list: its conjunction accepts exactly the wanted rows, every placeholder has an argument, and
      LIMIT and OFFSET read the last two. */
  method ListCallsQuery(params: Params) returns (q: Query)
    ensures forall row :: AllHold(q.conditions, q.args, row) <==> Wanted(params, row)
    ensures |q.args| >= 2 && q.limitAt == |q.args| - 1 && q.offsetAt == |q.args|
    ensures forall i :: 0 <= i < |q.conditions| ==> InRange(q.conditions[i], |q.args| - 2)
    ensures q.args[q.limitAt - 1] == NumberArg(if 1 <= params.limit <= 1000 then params.limit else 100)
    ensures q.args[q.offsetAt - 1] == NumberArg(if params.offset >= 0 then params.offset else 0)
    ensures q.column.Duration? <==> ToLower(params.sortBy) == "duration"
    ensures q.column.Frequency? <==> ToLower(params.sortBy) == "frequency"
    ensures q.column.TalkgroupColumn? <==> ToLower(params.sortBy) == "talkgroup"
    ensures q.ascending <==> ToLower(params.order) == "asc"
  {
    var b := new Builder();
    assert forall row :: b.Accepts(row);
    b.AppendOwnerFilter(params.userId, params.onlyUnowned);
    b.AppendSearchFilter(params.search);
    b.AppendTalkgroupsFilter(params.talkgroups);
    b.AppendGroupsFilter(params.groups);
    b.AppendGroupFilter(params.group);
    hide Holds, InRange, OwnerMatches, SearchMatches, GroupMatches, ToLower, TrimSpace, AllHold;
    SortColumnIs(params);
    var paging := [NumberArg(Limit(params)), NumberArg(Offset(params))];
    q := Query(b.conditions, b.args + paging, SortColumn(params), IsAscending(params), b.argPos, b.argPos + 1);
    forall row ensures AllHold(q.conditions, q.args, row) <==> Wanted(params, row) {
      assert b.Accepts(row) <==> Wanted(params, row);
      SameConditions(b.conditions, b.args, paging, row);
    }
  }

  lemma SortColumnIs(p: Params)
    ensures SortColumn(p).Duration? <==> ToLower(p.sortBy) == "duration"
    ensures SortColumn(p).Frequency? <==> ToLower(p.sortBy) == "frequency"
    ensures SortColumn(p).TalkgroupColumn? <==> ToLower(p.sortBy) == "talkgroup"
  {
    hide ToLower;
  }

  lemma SameConditions(cs: seq<Condition>, args: seq<Arg>, more: seq<Arg>, row: Row)
    requires forall i :: 0 <= i < |cs| ==> InRange(cs[i], |args|)
    ensures AllHold(cs, args + more, row) <==> AllHold(cs, args, row)
  {
    hide Holds, InRange;
    forall i | 0 <= i < |cs| ensures Holds(cs[i], args + more, row) == Holds(cs[i], args, row) {
      LaterArgsDoNotMatter(cs[i], args, more, row);
    }
  }

  // ---------- lemmas the builder uses

  function From(start: nat, n: nat): seq<nat> {
    seq(n, (i: nat) => start + i)
  }

  function NumberArgs(xs: seq<int>): seq<Arg> {
    seq(|xs|, i requires 0 <= i < |xs| => NumberArg(xs[i]))
  }

  function TextArgs(xs: seq<string>): seq<Arg> {
    seq(|xs|, i requires 0 <= i < |xs| => TextArg(xs[i]))
  }

  lemma Appended(cs: seq<Condition>, args: seq<Arg>, c: Condition, more: seq<Arg>)
    requires forall i :: 0 <= i < |cs| ==> InRange(cs[i], |args|)
    requires InRange(c, |args + more|)
    ensures forall i :: 0 <= i < |cs + [c]| ==> InRange((cs + [c])[i], |args + more|)
    ensures forall row :: AllHold(cs + [c], args + more, row) <==> AllHold(cs, args, row) && Holds(c, args + more, row)
  {
    hide Holds, InRange;
    forall i | 0 <= i < |cs + [c]| ensures InRange((cs + [c])[i], |args + more|) {
      if i < |cs| {
        LaterArgsDoNotMatter(cs[i], args, more, Row(NoOwner, "", "", "", 0, ""));
      }
    }
    forall row ensures AllHold(cs + [c], args + more, row) <==> AllHold(cs, args, row) && Holds(c, args + more, row) {
      AppendedRow(cs, args, c, more, row);
    }
  }

  lemma AppendedRow(cs: seq<Condition>, args: seq<Arg>, c: Condition, more: seq<Arg>, row: Row)
    requires forall i :: 0 <= i < |cs| ==> InRange(cs[i], |args|)
    ensures AllHold(cs + [c], args + more, row) <==> AllHold(cs, args, row) && Holds(c, args + more, row)
  {
    hide Holds, InRange;
    forall i | 0 <= i < |cs| ensures Holds(cs[i], args + more, row) == Holds(cs[i], args, row) {
      LaterArgsDoNotMatter(cs[i], args, more, row);
    }
    var all := cs + [c];
    assert all[|cs|] == c && forall i :: 0 <= i < |cs| ==> all[i] == cs[i];
  }

  lemma OwnerCondition(args: seq<Arg>, userId: string, onlyUnowned: bool)
    requires userId != ""
    ensures InRange(OwnedOrUnowned(|args| + 1), |args| + 1)
    ensures forall row :: Holds(OwnedOrUnowned(|args| + 1), args + [TextArg(userId)], row)
                          <==> OwnerMatches(userId, onlyUnowned, row)
  {
  }

  lemma UnownedCondition(args: seq<Arg>, userId: string)
    requires userId == ""
    ensures InRange(Unowned, |args|)
    ensures forall row :: Holds(Unowned, args, row) <==> OwnerMatches(userId, true, row)
  {
  }

  lemma NoOwnerCondition(userId: string)
    requires userId == ""
    ensures forall row :: OwnerMatches(userId, false, row)
  {
  }

  lemma SearchCondition(args: seq<Arg>, search: string)
    requires TrimSpace(search) != ""
    ensures InRange(Search(|args| + 1, |args| + 2, |args| + 3, |args| + 4), |args| + 4)
    ensures var pattern := TextArg("%" + TrimSpace(search) + "%");
            var all := args + [pattern, pattern, pattern, pattern];
            var c := Search(|args| + 1, |args| + 2, |args| + 3, |args| + 4);
            forall row :: Holds(c, all, row) <==> SearchMatches(search, row)
  {
    hide TrimSpace, Like, ToLower, IntText;
  }

  lemma BlankSearch(search: string)
    requires TrimSpace(search) == ""
    ensures forall row :: SearchMatches(search, row)
  {
  }

  lemma BlankGroup(group: string)
    requires TrimSpace(group) == ""
    ensures forall row :: GroupMatches(group, row)
  {
  }

  lemma TalkgroupCondition(args: seq<Arg>, talkgroups: seq<int>)
    ensures InRange(TalkgroupIn(From(|args| + 1, |talkgroups|)), |args + NumberArgs(talkgroups)|)
    ensures forall row :: Holds(TalkgroupIn(From(|args| + 1, |talkgroups|)), args + NumberArgs(talkgroups), row)
                          <==> row.talkgroup in talkgroups
  {
    var all, ps := args + NumberArgs(talkgroups), From(|args| + 1, |talkgroups|);
    assert forall i :: 0 <= i < |ps| ==> Bound(all, ps[i]) == NumberArg(talkgroups[i]);
    forall row ensures Holds(TalkgroupIn(ps), all, row) <==> row.talkgroup in talkgroups {
      if row.talkgroup in talkgroups {
        var i :| 0 <= i < |talkgroups| && talkgroups[i] == row.talkgroup;
        assert Bound(all, ps[i]) == NumberArg(row.talkgroup);
      }
    }
  }

  lemma GroupsCondition(args: seq<Arg>, groups: seq<string>)
    ensures InRange(GroupIn(From(|args| + 1, |groups|)), |args + TextArgs(groups)|)
    ensures forall row :: Holds(GroupIn(From(|args| + 1, |groups|)), args + TextArgs(groups), row)
                          <==> row.talkgroupGroup in groups
  {
    hide Holds;
    forall row ensures Holds(GroupIn(From(|args| + 1, |groups|)), args + TextArgs(groups), row)
                       <==> row.talkgroupGroup in groups
    {
      GroupsConditionRow(args, groups, row);
    }
  }

  lemma GroupsConditionRow(args: seq<Arg>, groups: seq<string>, row: Row)
    ensures Holds(GroupIn(From(|args| + 1, |groups|)), args + TextArgs(groups), row) <==> row.talkgroupGroup in groups
  {
    var all, ps := args + TextArgs(groups), From(|args| + 1, |groups|);
    forall i | 0 <= i < |ps| ensures Bound(all, ps[i]) == TextArg(groups[i]) {
    }
    hide Bound, From, TextArgs;
    if i :| 0 <= i < |groups| && groups[i] == row.talkgroupGroup {
      assert Bound(all, ps[i]) == TextArg(row.talkgroupGroup);
    }
  }

  lemma GroupCondition(args: seq<Arg>, group: string)
    requires TrimSpace(group) != ""
    ensures InRange(GroupLike(|args| + 1), |args| + 1)
    ensures forall row :: Holds(GroupLike(|args| + 1), args + [TextArg("%" + TrimSpace(group) + "%")], row)
                          <==> GroupMatches(group, row)
  {
    hide TrimSpace, Like, ToLower;
  }

  // ---------- what the search text means

  ghost predicate Plain(value: string) {
    forall i :: 0 <= i < |value| ==> value[i] !in {'\\', '%', '_'}
  }

  lemma {:induction false} PlainThenPercent(value: string, s: string)
    requires Plain(value)
    ensures Like(value + "%", s) <==> value <= s
  {
    if value == "" {
      assert value + "%" == "%";
      PercentMatchesAll(s);
    } else {
      assert (value + "%")[1..] == value[1..] + "%";
      if s != "" {
        PlainThenPercent(value[1..], s[1..]);
        assert value == [value[0]] + value[1..] && s == [s[0]] + s[1..];
      }
    }
  }

  /** A search text without percent sign, underscore or backslash is found exactly in the texts that contain it. */
  lemma {:induction false} PlainSearchIsSubstring(value: string, s: string)
    requires Plain(value)
    ensures Like("%" + value + "%", s) <==> Contains(s, value)
  {
    var p := "%" + value + "%";
    assert p[1..] == value + "%";
    PlainThenPercent(value, s);
    if s != "" {
      PlainSearchIsSubstring(value, s[1..]);
    }
  }

  /** A number as text: a minus sign for a negative one, and digits that read back as its size. */
  lemma IntTextIs(n: int)
    ensures var s := IntText(n);
            && s != ""
            && if n >= 0 then Value(s) == n && '0' <= s[0] <= '9' else s[0] == '-' && Value(s[1..]) == -n
  {
    DecimalReadsBack(if n < 0 then -n else n);
    if n < 0 {
      assert IntText(n)[1..] == Decimal(-n);
    }
  }

  lemma LowerPattern(value: string)
    requires Plain(value)
    ensures ToLower("%" + value + "%") == "%" + ToLower(value) + "%" && Plain(ToLower(value))
  {
    ToLowerIs(value);
    ToLowerIs("%" + value + "%");
    hide ToLower, LowerChar;
    var a, b := ToLower("%" + value + "%"), "%" + ToLower(value) + "%";
    forall i | 0 <= i < |a| ensures a[i] == b[i] {
    }
    forall i | 0 <= i < |value| ensures ToLower(value)[i] !in {'\\', '%', '_'} {
      assert value[i] !in {'\\', '%', '_'};
    }
  }

  /** A search text without special characters finds exactly the rows one of whose labels or whose transcript contains
      it without regard to case, or whose talkgroup number contains it. */
  lemma PlainSearchFinds(search: string, row: Row)
    requires Plain(TrimSpace(search)) && TrimSpace(search) != ""
    ensures var low := ToLower(TrimSpace(search));
            SearchMatches(search, row) <==>
            || Contains(ToLower(row.systemLabel), low)
            || Contains(ToLower(row.talkgroupLabel), low)
            || Contains(ToLower(row.talkgroupGroup), low)
            || Contains(IntText(row.talkgroup), TrimSpace(search))
            || Contains(ToLower(row.transcript), low)
  {
    hide TrimSpace, ToLower, Like, Contains, IntText;
    var value := TrimSpace(search);
    LowerPattern(value);
    PlainSearchIsSubstring(ToLower(value), ToLower(row.systemLabel));
    PlainSearchIsSubstring(ToLower(value), ToLower(row.talkgroupLabel));
    PlainSearchIsSubstring(ToLower(value), ToLower(row.talkgroupGroup));
    PlainSearchIsSubstring(value, IntText(row.talkgroup));
    PlainSearchIsSubstring(ToLower(value), ToLower(row.transcript));
  }
}
