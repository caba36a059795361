/** The SQL LIKE predicate with backslash as the escape character (section 8.5 of ISO/IEC 9075-2). */
module SqlLike {

  predicate Like(pattern: string, s: string)
    decreases |pattern|, |s|
  {
    if pattern == "" then s == ""
    else if pattern[0] == '\\' then |pattern| >= 2 && s != "" && s[0] == pattern[1] && Like(pattern[2..], s[1..])
    else if pattern[0] == '%' then Like(pattern[1..], s) || (s != "" && Like(pattern, s[1..]))
    else if pattern[0] == '_' then s != "" && Like(pattern[1..], s[1..])
    else s != "" && s[0] == pattern[0] && Like(pattern[1..], s[1..])
  }

  /** escapeSQLLike: a backslash in front of each backslash, percent sign and underscore. */
  function EscapeSqlLike(value: string): string {
    if value == "" then ""
    else (if value[0] in {'\\', '%', '_'} then ['\\', value[0]] else [value[0]]) + EscapeSqlLike(value[1..])
  }

  lemma {:induction false} PercentMatchesAll(s: string)
    ensures Like("%", s)
  {
    if s != "" {
      PercentMatchesAll(s[1..]);
    }
  }

  /** An escaped text followed by more pattern matches that text and then whatever the rest matches. */
  lemma {:induction false} EscapedPrefix(value: string, rest: string, s: string)
    ensures Like(EscapeSqlLike(value) + rest, s) <==> value <= s && Like(rest, s[|value|..])
  {
    if value == "" {
      assert EscapeSqlLike(value) + rest == rest && s[0..] == s;
    } else {
      var c, tail := value[0], EscapeSqlLike(value[1..]) + rest;
      var whole := EscapeSqlLike(value) + rest;
      if c in {'\\', '%', '_'} {
        assert whole == ['\\', c] + tail;
        assert whole[2..] == tail;
      } else {
        assert whole == [c] + tail;
        assert whole[1..] == tail;
      }
      if s != "" && s[0] == c {
        EscapedPrefix(value[1..], rest, s[1..]);
        assert value <= s <==> value[1..] <= s[1..] by {
          assert value == [c] + value[1..] && s == [c] + s[1..];
        }
        if value <= s {
          assert s[1..][|value| - 1..] == s[|value|..];
        }
      }
    }
  }

  /** An escaped text matches only itself. */
  lemma EscapedMatchesOnlyItself(value: string, s: string)
    ensures Like(EscapeSqlLike(value), s) <==> s == value
  {
    EscapedPrefix(value, "", s);
    assert EscapeSqlLike(value) + "" == EscapeSqlLike(value);
  }

  /** One wildcard character and then a percent sign match every text that is not empty. */
  lemma UnderscorePercent(s: string)
    ensures Like("_%", s) <==> s != ""
  {
    if s != "" {
      PercentMatchesAll(s[1..]);
    }
  }
}
