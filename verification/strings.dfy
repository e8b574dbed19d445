/** Small string helpers shared by the modules: ASCII case folding, decimal
    rendering, two-digit padding, substring search and replacement. */
module Strings {

  /** Lower-cases ASCII letters and leaves every other character alone. */
  function LowerChar(c: char): (r: char)
    ensures 'A' <= c <= 'Z' ==> r as int == c as int + 32
    ensures !('A' <= c <= 'Z') ==> r == c
  {
    if 'A' <= c <= 'Z' then (c as int + 32) as char else c
  }

  function Lower(s: string): (r: string)
    ensures |r| == |s|
    ensures forall i :: 0 <= i < |s| ==> r[i] == LowerChar(s[i])
  {
    seq(|s|, i requires 0 <= i < |s| => LowerChar(s[i]))
  }

  /** True when `s` has no upper-case ASCII letter. */
  predicate IsLower(s: string) {
    forall i :: 0 <= i < |s| ==> !('A' <= s[i] <= 'Z')
  }

  lemma LowerIsLower(s: string)
    ensures IsLower(Lower(s))
  {
  }

  /** Lowering is idempotent. */
  lemma LowerIdempotent(s: string)
    ensures Lower(Lower(s)) == Lower(s)
  {
    assert forall i :: 0 <= i < |s| ==> LowerChar(LowerChar(s[i])) == LowerChar(s[i]);
  }

  function DigitChar(d: int): (c: char)
    requires 0 <= d < 10
    ensures '0' <= c <= '9'
  {
    ('0' as int + d) as char
  }

  function DigitValue(c: char): int
    requires '0' <= c <= '9'
  {
    c as int - '0' as int
  }

  predicate IsDigits(s: string) {
    forall i :: 0 <= i < |s| ==> '0' <= s[i] <= '9'
  }

  /** Decimal rendering of a natural number, without leading zeros. */
  function NatToString(n: nat): (r: string)
    ensures |r| >= 1 && IsDigits(r)
    ensures |r| > 1 ==> r[0] != '0'
    decreases n
  {
    if n < 10 then [DigitChar(n)] else NatToString(n / 10) + [DigitChar(n % 10)]
  }

  /** Value of a string of decimal digits. */
  function ParseDigits(s: string): nat
    requires IsDigits(s)
    decreases |s|
  {
    if |s| == 0 then 0 else ParseDigits(s[..|s| - 1]) * 10 + DigitValue(s[|s| - 1])
  }

  /** Decimal rendering is faithful: reading the digits back gives the number. */
  lemma {:induction false} NatToStringRoundTrip(n: nat)
    ensures ParseDigits(NatToString(n)) == n
    decreases n
  {
    if n >= 10 {
      NatToStringRoundTrip(n / 10);
      var s := NatToString(n);
      assert s[..|s| - 1] == NatToString(n / 10);
    }
  }

  /** Decimal rendering of an integer, as Python's `str` and Swift's string interpolation write it. */
  function IntToString(n: int): (r: string)
    ensures n >= 0 ==> r == NatToString(n)
    ensures n < 0 ==> r == "-" + NatToString(-n)
  {
    if n >= 0 then NatToString(n) else "-" + NatToString(-n)
  }

  /** The `%02d` format: zero-padded to two characters, with no padding for
      numbers that already take two characters or carry a sign. */
  function Pad2(n: int): (r: string)
    ensures 0 <= n < 10 ==> r == ['0', DigitChar(n)]
    ensures !(0 <= n < 10) ==> r == IntToString(n)
    ensures 0 <= n < 100 ==> |r| == 2 && IsDigits(r) && ParseDigits(r) == n
  {
    if 0 <= n < 10 then
      var r := ['0', DigitChar(n)];
      assert r[..1] == ['0'] && r[..1][..0] == [];
      assert ParseDigits(r[..1]) == 0;
      r
    else if n >= 10 then
      NatToStringRoundTrip(n);
      assert n < 100 ==> |NatToString(n / 10)| == 1;
      NatToString(n)
    else IntToString(n)
  }

  predicate StartsWith(s: string, p: string) {
    |p| <= |s| && s[..|p|] == p
  }

  predicate EndsWith(s: string, p: string) {
    |p| <= |s| && s[|s| - |p|..] == p
  }

  lemma StartsWithConcat(a: string, b: string)
    ensures StartsWith(a + b, a)
  {
    assert (a + b)[..|a|] == a;
  }

  lemma EndsWithConcat(a: string, b: string)
    ensures EndsWith(a + b, b)
  {
    assert (a + b)[|a|..] == b;
  }

  /** Two parts joined by a separator: the text opens with the first and
      closes with the second. */
  lemma JoinedParts(a: string, sep: string, b: string)
    ensures StartsWith(a + sep + b, a) && EndsWith(a + sep + b, b)
  {
    assert (a + sep + b)[..|a|] == a;
    assert (a + sep + b)[|a + sep|..] == b;
  }

  /** A prefix of `a` is a prefix of `a + b`. */
  lemma StartsWithAppend(a: string, b: string, p: string)
    requires StartsWith(a, p)
    ensures StartsWith(a + b, p)
  {
    assert (a + b)[..|p|] == a[..|p|];
  }

  /** Prepending keeps a prefix relation. */
  lemma StartsWithPrepend(a: string, b: string, p: string)
    requires StartsWith(b, p)
    ensures StartsWith(a + b, a + p)
  {
    assert (a + b)[..|a| + |p|] == a + b[..|p|];
  }

  /** A suffix of `b` is a suffix of `a + b`. */
  lemma EndsWithPrepend(a: string, b: string, p: string)
    requires EndsWith(b, p)
    ensures EndsWith(a + b, p)
  {
    assert (a + b)[|a + b| - |p|..] == b[|b| - |p|..];
  }

  /** A suffix of a suffix is a suffix. */
  lemma EndsWithTrans(s: string, t: string, u: string)
    requires EndsWith(s, t) && EndsWith(t, u)
    ensures EndsWith(s, u)
  {
    assert s[|s| - |u|..] == s[|s| - |t|..][|t| - |u|..];
  }

  /** The characters a suffix fixes. */
  lemma EndsWithAt(s: string, t: string, k: int)
    requires EndsWith(s, t) && 0 <= k < |t|
    ensures s[|s| - |t| + k] == t[k]
  {
    assert s[|s| - |t|..][k] == t[k];
  }

  /** The characters a prefix fixes. */
  lemma StartsWithAt(s: string, t: string, k: int)
    requires StartsWith(s, t) && 0 <= k < |t|
    ensures s[k] == t[k]
  {
    assert s[..|t|][k] == t[k];
  }

  /** `sub` occurs in `s` starting at position `i`. */
  predicate OccursAt(s: string, sub: string, i: int) {
    0 <= i && i + |sub| <= |s| && s[i..i + |sub|] == sub
  }

  /** Substring test (`String.contains` in Swift, `in` in Python). */
  predicate Contains(s: string, sub: string) {
    exists i | 0 <= i <= |s| :: OccursAt(s, sub, i)
  }

  /** Executable substring search that agrees with `Contains`. */
  function ContainsFrom(s: string, sub: string, i: nat): (r: bool)
    requires i <= |s|
    ensures r <==> exists j :: i <= j && OccursAt(s, sub, j)
    decreases |s| - i
  {
    if i + |sub| > |s| then false
    else if s[i..i + |sub|] == sub then assert OccursAt(s, sub, i); true
    else ContainsFrom(s, sub, i + 1)
  }

  function HasSubstring(s: string, sub: string): (r: bool)
    ensures r <==> Contains(s, sub)
  {
    ContainsFrom(s, sub, 0)
  }

  /** Left-to-right replacement of every non-overlapping occurrence of `pat`,
      as Foundation's `replacingOccurrences(of:with:)` performs it. */
  function ReplaceAll(s: string, pat: string, rep: string): (r: string)
    requires |pat| > 0
    ensures !Contains(s, pat) ==> r == s
    ensures rep == pat ==> r == s
    ensures |rep| == |pat| ==> |r| == |s|
    ensures StartsWith(s, pat) ==> StartsWith(r, rep)
    decreases |s|
  {
    if |s| < |pat| then s
    else if s[..|pat|] == pat then
      assert OccursAt(s, pat, 0);
      assert s == pat + s[|pat|..];
      rep + ReplaceAll(s[|pat|..], pat, rep)
    else
      ContainsTail(s, pat);
      assert s == [s[0]] + s[1..];
      [s[0]] + ReplaceAll(s[1..], pat, rep)
  }

  /** An occurrence in the tail of a text is an occurrence in the text. */
  lemma ContainsTail(s: string, pat: string)
    requires |s| >= 1
    ensures Contains(s[1..], pat) ==> Contains(s, pat)
  {
    if Contains(s[1..], pat) {
      var j :| 0 <= j <= |s[1..]| && OccursAt(s[1..], pat, j);
      assert s[j + 1..j + 1 + |pat|] == s[1..][j..j + |pat|];
      assert OccursAt(s, pat, j + 1);
    }
  }

  /** The parts laid end to end with `sep` between each two. */
  function Join(parts: seq<string>, sep: string): string
    decreases |parts|
  {
    if |parts| == 0 then ""
    else if |parts| == 1 then parts[0]
    else parts[0] + sep + Join(parts[1..], sep)
  }

  /** A character other than the pattern's first is copied and the scan
      moves one place on. */
  lemma ReplaceAllStep(c: char, t: string, pat: string, rep: string)
    requires |pat| > 0 && c != pat[0]
    ensures ReplaceAll([c] + t, pat, rep) == [c] + ReplaceAll(t, pat, rep)
  {
    var s := [c] + t;
    assert s[1..] == t;
    if |s| >= |pat| {
      assert s[..|pat|][0] == c;
    }
  }

  lemma ConsAssoc(c: char, y: string, r: string)
    ensures [c] + (y + r) == ([c] + y) + r
  {
  }

  /** A prefix without the pattern's first character is copied unchanged and
      the scan carries on after it. */
  lemma {:induction false} ReplaceAllSkip(x: string, s: string, pat: string, rep: string)
    requires |pat| > 0 && pat[0] !in x
    ensures ReplaceAll(x + s, pat, rep) == x + ReplaceAll(s, pat, rep)
    decreases |x|
  {
    if |x| == 0 {
      assert x + s == s;
    } else {
      var c, y := x[0], x[1..];
      assert x + s == [c] + (y + s);
      ReplaceAllStep(c, y + s, pat, rep);
      ReplaceAllSkip(y, s, pat, rep);
      ConsAssoc(c, y, ReplaceAll(s, pat, rep));
      assert [c] + y == x;
    }
  }

  /** An occurrence at the head is replaced and the scan carries on after it. */
  lemma ReplaceAllHead(pat: string, s: string, rep: string)
    requires |pat| > 0
    ensures ReplaceAll(pat + s, pat, rep) == rep + ReplaceAll(s, pat, rep)
  {
    assert (pat + s)[..|pat|] == pat;
    assert (pat + s)[|pat|..] == s;
  }

  /** Every occurrence is replaced: parts free of the pattern's first
      character, joined by the pattern, come out joined by the replacement. */
  lemma {:induction false} ReplaceAllJoin(parts: seq<string>, pat: string, rep: string)
    requires |pat| > 0
    requires forall i :: 0 <= i < |parts| ==> pat[0] !in parts[i]
    ensures ReplaceAll(Join(parts, pat), pat, rep) == Join(parts, rep)
    decreases |parts|
  {
    if |parts| == 1 {
      ReplaceAllSkip(parts[0], "", pat, rep);
      assert parts[0] + "" == parts[0];
    } else if |parts| > 1 {
      var j := Join(parts[1..], pat);
      assert Join(parts, pat) == parts[0] + (pat + j);
      ReplaceAllSkip(parts[0], pat + j, pat, rep);
      ReplaceAllHead(pat, j, rep);
      ReplaceAllJoin(parts[1..], pat, rep);
      assert Join(parts, rep) == parts[0] + (rep + Join(parts[1..], rep));
    }
  }

  /** A pattern whose first character occurs in `s` at most once, at the head
      of `c + q`, and is not followed there by the pattern's second character,
      does not occur in `p + c + q`. */
  lemma AbsentAround(p: string, c: char, q: string, sub: string)
    requires |sub| >= 2 && c == sub[0]
    requires sub[0] !in p && sub[0] !in q
    requires |q| > 0 ==> q[0] != sub[1]
    ensures !Contains(p + [c] + q, sub)
  {
    var s := p + [c] + q;
    forall i | 0 <= i <= |s| ensures !OccursAt(s, sub, i) {
      if i + |sub| <= |s| {
        var w := s[i..i + |sub|];
        assert w[0] == s[i] && w[1] == s[i + 1];
        if i < |p| {
          assert s[i] == p[i];
        } else if i == |p| {
          assert s[i + 1] == q[0];
        } else {
          assert s[i] == q[i - |p| - 1];
        }
      }
    }
  }

  /** A pattern with a character that `s` lacks does not occur in `s`. */
  lemma AbsentChar(s: string, sub: string, k: int)
    requires 0 <= k < |sub| && sub[k] !in s
    ensures !Contains(s, sub)
  {
    forall i | 0 <= i <= |s| ensures !OccursAt(s, sub, i) {
      if i + |sub| <= |s| {
        assert s[i..i + |sub|][k] == s[i + k];
      }
    }
  }

  /** The first component of `s.components(separatedBy: sep)`: the text before
      the first separator, or all of `s` when there is none. */
  function FirstComponent(s: string, sep: char): (r: string)
    ensures |r| <= |s|
  {
    if |s| == 0 || s[0] == sep then [] else [s[0]] + FirstComponent(s[1..], sep)
  }

  /** The first component is a prefix free of the separator, and stops at one. */
  lemma {:induction false} FirstComponentShape(s: string, sep: char)
    ensures var r := FirstComponent(s, sep);
      && sep !in r
      && r == s[..|r|]
      && (|r| < |s| ==> s[|r|] == sep)
    decreases |s|
  {
    if |s| > 0 && s[0] != sep {
      FirstComponentShape(s[1..], sep);
    }
  }

  /** The first component stops at the first separator. */
  lemma {:induction false} FirstComponentUpTo(a: string, sep: char, b: string)
    requires sep !in a
    ensures FirstComponent(a + [sep] + b, sep) == a
    decreases |a|
  {
    var s := a + [sep] + b;
    if |a| > 0 {
      assert s[1..] == a[1..] + [sep] + b;
      FirstComponentUpTo(a[1..], sep, b);
    }
  }

  /** Without a separator the first component is the whole text. */
  lemma {:induction false} FirstComponentWhole(a: string, sep: char)
    requires sep !in a
    ensures FirstComponent(a, sep) == a
    decreases |a|
  {
    if |a| > 0 {
      FirstComponentWhole(a[1..], sep);
    }
  }
}
