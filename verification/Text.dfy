/** The string functions of Go that the models need. */
module Text {

  /** Go's unicode.IsSpace. */
  predicate IsSpace(c: char) {
    c in {'\t', '\n', '\U{000B}', '\U{000C}', '\r', ' ', '\U{0085}', '\U{00A0}', '\U{1680}',
          '\U{2028}', '\U{2029}', '\U{202F}', '\U{205F}', '\U{3000}'}
    || '\U{2000}' <= c <= '\U{200A}'
  }

  /** By code point: tab to carriage return, space, U+0085, U+00A0, U+1680, U+2000 to U+200A, U+2028, U+2029, U+202F,
      U+205F and U+3000. */
  lemma SpacesAre(c: char)
    ensures var n := c as int;
            IsSpace(c) <==>
            || 9 <= n <= 13 || n == 32 || n == 133 || n == 160 || n == 5760 || 8192 <= n <= 8202
            || n == 8232 || n == 8233 || n == 8239 || n == 8287 || n == 12288
  {
  }

  function TrimLeft(s: string): string {
    if s != "" && IsSpace(s[0]) then TrimLeft(s[1..]) else s
  }

  function TrimRight(s: string): string {
    if s != "" && IsSpace(s[|s| - 1]) then TrimRight(s[..|s| - 1]) else s
  }

  function TrimSpace(s: string): string {
    TrimRight(TrimLeft(s))
  }

  ghost predicate AllSpace(s: string) {
    forall i :: 0 <= i < |s| ==> IsSpace(s[i])
  }

  lemma {:induction false} TrimLeftIs(s: string) returns (lead: string)
    ensures s == lead + TrimLeft(s) && AllSpace(lead)
    ensures TrimLeft(s) != "" ==> !IsSpace(TrimLeft(s)[0])
  {
    hide IsSpace;
    if s != "" && IsSpace(s[0]) {
      var more := TrimLeftIs(s[1..]);
      lead := [s[0]] + more;
    } else {
      lead := "";
    }
  }

  lemma {:induction false} TrimRightIs(s: string) returns (trail: string)
    ensures s == TrimRight(s) + trail && AllSpace(trail)
    ensures TrimRight(s) != "" ==> !IsSpace(TrimRight(s)[|TrimRight(s)| - 1])
  {
    hide IsSpace;
    if s != "" && IsSpace(s[|s| - 1]) {
      var more := TrimRightIs(s[..|s| - 1]);
      trail := more + [s[|s| - 1]];
    } else {
      trail := "";
    }
  }

  /** Trimming takes exactly the white space off both ends. */
  lemma TrimSpaceIs(s: string) returns (lead: string, trail: string)
    ensures s == lead + TrimSpace(s) + trail && AllSpace(lead) && AllSpace(trail)
    ensures var t := TrimSpace(s); t != "" ==> !IsSpace(t[0]) && !IsSpace(t[|t| - 1])
  {
    hide IsSpace;
    lead := TrimLeftIs(s);
    trail := TrimRightIs(TrimLeft(s));
    hide TrimLeft, TrimRight;
    var t := TrimSpace(s);
    assert t != "" ==> t[0] == TrimLeft(s)[0];
  }

  /** Trimming again changes nothing. */
  lemma TrimSpaceTwice(s: string)
    ensures TrimSpace(TrimSpace(s)) == TrimSpace(s)
  {
    var lead, trail := TrimSpaceIs(s);
    hide IsSpace;
    var t := TrimSpace(s);
    assert TrimLeft(t) == t && TrimRight(t) == t;
  }

  function LowerChar(c: char): char {
    if 'A' <= c <= 'Z' then c - 'A' + 'a' else c
  }

  /** Lower case of the ASCII letters. */
  function ToLower(s: string): string {
    seq(|s|, i requires 0 <= i < |s| => LowerChar(s[i]))
  }

  /** Only the letters A to Z change, by the distance of the two cases, and none of them is left. */
  lemma ToLowerIs(s: string)
    ensures |ToLower(s)| == |s|
    ensures forall i :: 0 <= i < |s| ==>
              if 65 <= s[i] as int <= 90 then ToLower(s)[i] as int == s[i] as int + 32 else ToLower(s)[i] == s[i]
  {
  }

  predicate Contains(text: string, part: string) {
    part <= text || (text != "" && Contains(text[1..], part))
  }

  /** A text contains another if it stands somewhere in it. */
  lemma {:induction false} ContainsIs(text: string, part: string)
    ensures Contains(text, part) <==> exists i :: 0 <= i <= |text| && part <= text[i..]
  {
    if part <= text {
      assert text[0..] == text;
    } else if text != "" {
      ContainsIs(text[1..], part);
      assert text[0..] == text;
      if j :| 0 <= j <= |text[1..]| && part <= text[1..][j..] {
        assert text[1..][j..] == text[j + 1..];
      }
      if i :| 0 <= i <= |text| && part <= text[i..] {
        assert i > 0;
        assert text[1..][i - 1..] == text[i..];
      }
    }
  }

  function Digit(d: nat): char
    requires d < 10
  {
    '0' + d as char
  }

  /** A number in decimal digits, as %d prints it. */
  function Decimal(n: nat): (s: string)
    ensures s != "" && forall i :: 0 <= i < |s| ==> '0' <= s[i] <= '9'
  {
    if n < 10 then [Digit(n)] else Decimal(n / 10) + [Digit(n % 10)]
  }

  /** The number that decimal digits stand for. */
  function Value(s: string): int {
    if s == "" then 0 else 10 * Value(s[..|s| - 1]) + (s[|s| - 1] as int - 48)
  }

  /** A printed number reads back as itself, and has no leading zero. */
  lemma {:induction false} DecimalReadsBack(n: nat)
    ensures Value(Decimal(n)) == n && (n > 0 ==> Decimal(n)[0] as int > 48)
  {
    if n < 10 {
      assert Decimal(n)[..0] == "";
    } else {
      DecimalReadsBack(n / 10);
      assert Decimal(n)[..|Decimal(n)| - 1] == Decimal(n / 10);
    }
  }

  /** Different numbers print differently. */
  lemma DecimalIsInjective(a: nat, b: nat)
    requires Decimal(a) == Decimal(b)
    ensures a == b
  {
    DecimalReadsBack(a);
    DecimalReadsBack(b);
  }

  function Tenths(x: real): nat
    requires x > 0.0
  {
    var n := (x * 10.0).Floor;
    var rest := x * 10.0 - n as real;
    if rest > 0.5 || (rest == 0.5 && n % 2 == 1) then n + 1 else n
  }

  /** A positive number with one decimal, as %.1f prints it: a tie goes to the even digit. */
  function OneDecimal(x: real): string
    requires x > 0.0
  {
    Decimal(Tenths(x) / 10) + "." + Decimal(Tenths(x) % 10)
  }
  /** The number is rounded to the nearest tenth, halfway between two to the even one, and the last digit of the tenths
      stands after the point. */
  lemma OneDecimalIs(x: real) returns (whole: string, last: char)
    requires x > 0.0
    ensures OneDecimal(x) == whole + "." + [last] && whole != "" && '0' <= last <= '9'
    ensures var t := 10 * Value(whole) + (last as int - 48);
            && t as real - 0.5 <= x * 10.0 <= t as real + 0.5
            && (x * 10.0 == t as real - 0.5 || x * 10.0 == t as real + 0.5 ==> t % 2 == 0)
  {
    whole, last := Decimal(Tenths(x) / 10), Digit(Tenths(x) % 10);
    DecimalReadsBack(Tenths(x) / 10);
  }
}
