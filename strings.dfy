/**
 * The JavaScript string operations the core relies on (`startsWith`, `includes`, `replace`
 * with a string pattern, `split` on one character, `join`, `toLowerCase`, number-to-string),
 * written over `seq<char>`.
 */
module Strings {
  import opened Common
  import opened Seqs

  predicate StartsWith(s: string, prefix: string) {
    |prefix| <= |s| && s[..|prefix|] == prefix
  }

  predicate EndsWith(s: string, suffix: string) {
    |suffix| <= |s| && s[|s| - |suffix|..] == suffix
  }

  /** `s.indexOf(p)`: the first position at which `p` occurs in `s`. */
  function IndexOf(s: string, p: string): (r: Option<nat>)
    ensures r.Some? ==> r.value + |p| <= |s| && s[r.value..r.value + |p|] == p
    ensures r.Some? ==> forall j :: 0 <= j < r.value ==> !StartsWith(s[j..], p)
    ensures r.None? ==> forall j :: 0 <= j <= |s| ==> !StartsWith(s[j..], p)
    decreases |s|
  {
    if StartsWith(s, p) then Some(0)
    else if |s| == 0 then None
    else
      var r := IndexOf(s[1..], p);
      DropShift(s);
      match r
      case None => None
      case Some(i) => Some(i + 1)
  }

  /** Every suffix of `s` past its head is a suffix of its tail. */
  lemma DropShift(s: string)
    requires |s| > 0
    ensures forall j :: 1 <= j <= |s| ==> s[j..] == s[1..][j - 1..]
  {
  }

  /** `s.includes(sub)`. */
  predicate Contains(s: string, sub: string) {
    IndexOf(s, sub).Some?
  }

  /** An occurrence of `p` at any position makes `s` contain `p`. */
  lemma OccursAt(s: string, p: string, k: nat)
    requires k + |p| <= |s| && s[k..k + |p|] == p
    ensures Contains(s, p)
  {
    assert s[k..][..|p|] == p;
    assert StartsWith(s[k..], p);
  }

  /** `s.replace(p, r)` with a string pattern: only the first occurrence is replaced. */
  function ReplaceFirst(s: string, p: string, r: string): (t: string)
    ensures !Contains(s, p) ==> t == s
    ensures StartsWith(s, p) ==> t == r + s[|p|..]
  {
    match IndexOf(s, p)
    case None => s
    case Some(i) => s[..i] + r + s[i + |p|..]
  }

  /** The position of the first `c` in `s`. */
  function CharIndex(s: string, c: char): (i: nat)
    requires c in s
    ensures i < |s| && s[i] == c && c !in s[..i]
    decreases |s|
  {
    if s[0] == c then 0
    else
      var i := CharIndex(s[1..], c);
      assert s[..i + 1] == [s[0]] + s[1..][..i];
      i + 1
  }

  /** `s.split(sep)` for a one-character separator: never empty, and no part contains `sep`. */
  function Split(s: string, sep: char): (parts: seq<string>)
    ensures |parts| >= 1
    ensures forall i :: 0 <= i < |parts| ==> sep !in parts[i]
    decreases |s|
  {
    if sep !in s then [s]
    else
      var i := CharIndex(s, sep);
      [s[..i]] + Split(s[i + 1..], sep)
  }

  /** `xs.join(sep)`. */
  function Join(xs: seq<string>, sep: string): string
    decreases |xs|
  {
    if |xs| == 0 then ""
    else if |xs| == 1 then xs[0]
    else xs[0] + sep + Join(xs[1..], sep)
  }

  lemma CharIndexOfConcat(a: string, c: char, b: string)
    requires c !in a
    ensures c in a + [c] + b && CharIndex(a + [c] + b, c) == |a|
  {
    var s := a + [c] + b;
    assert s[|a|] == c;
    var i := CharIndex(s, c);
    assert forall j :: 0 <= j < |a| ==> s[j] == a[j];
    assert forall k :: |a| < k <= |s| ==> s[..k][|a|] == c;
  }

  /** Split cuts at the first separator. */
  lemma SplitAt(s: string, sep: char, i: nat)
    requires sep in s && CharIndex(s, sep) == i
    ensures Split(s, sep) == [s[..i]] + Split(s[i + 1..], sep)
  {
  }

  /** Splitting a join on the same one-character separator gives the parts back, when no part contains it. */
  lemma {:induction false} SplitJoin(xs: seq<string>, sep: char)
    requires |xs| >= 1
    requires forall i :: 0 <= i < |xs| ==> sep !in xs[i]
    ensures Split(Join(xs, [sep]), sep) == xs
    decreases |xs|
  {
    if |xs| > 1 {
      var rest := Join(xs[1..], [sep]);
      var s := xs[0] + [sep] + rest;
      assert Join(xs, [sep]) == s;
      CharIndexOfConcat(xs[0], sep, rest);
      SplitAt(s, sep, |xs[0]|);
      assert s[..|xs[0]|] == xs[0];
      assert s[|xs[0]| + 1..] == rest;
      SplitJoin(xs[1..], sep);
      assert xs == [xs[0]] + xs[1..];
    }
  }

  /** `split("/").filter(Boolean)`: the non-empty parts between separators. */
  function Segments(s: string, sep: char): seq<string> {
    Filter(Split(s, sep), (part: string) => part != "")
  }

  /** The segments of `a + [sep] + b` when neither `a` nor `b` holds the separator. */
  lemma TwoSegments(a: string, sep: char, b: string)
    requires sep !in a && sep !in b && a != "" && b != ""
    ensures Segments(a + [sep] + b, sep) == [a, b]
  {
    SplitJoin([a, b], sep);
    assert Join([a, b], [sep]) == a + [sep] + Join([b], [sep]);
    var parts := Split(a + [sep] + b, sep);
    assert parts == [a, b];
    assert parts[1..] == [b];
    assert parts[1..][1..] == [];
  }

  /** An occurrence of `p` inside `s` carries every character of `p` into `s` with at least its multiplicity. */
  lemma OccurrenceCounts(s: string, p: string, c: char)
    requires Contains(s, p)
    ensures multiset(p)[c] <= multiset(s)[c]
  {
    var i := IndexOf(s, p).value;
    assert s == s[..i] + s[i..i + |p|] + s[i + |p|..];
    calc {
      multiset(s);
      multiset(s[..i]) + multiset(s[i..i + |p|]) + multiset(s[i + |p|..]);
    }
  }

  /** Where a string contains a pattern, its first occurrence carries the pattern's `k`-th character at offset `k`. */
  lemma ContainedCharAt(s: string, p: string, k: nat)
    requires k < |p|
    ensures Contains(s, p) ==> IndexOf(s, p).value + k < |s| && s[IndexOf(s, p).value + k] == p[k]
  {
    if Contains(s, p) {
      var v := IndexOf(s, p).value;
      assert s[v..v + |p|][k] == s[v + k];
    }
  }

  /** `c.toLowerCase()` on the ASCII letters; every other character is left as it is. */
  function LowerChar(c: char): char {
    if 'A' <= c <= 'Z' then (c as int + 32) as char else c
  }

  /** `s.toLowerCase()`, restricted to ASCII case mapping. */
  function ToLower(s: string): (t: string)
    ensures |t| == |s| && forall i :: 0 <= i < |s| ==> t[i] == LowerChar(s[i])
  {
    seq(|s|, (i: int) requires 0 <= i < |s| => LowerChar(s[i]))
  }

  /** Lower-casing turns no character into `/` or `.` and leaves those two as they are. */
  lemma LowerCharKeepsMarks(c: char)
    ensures LowerChar(c) == '/' <==> c == '/'
    ensures LowerChar(c) == '.' <==> c == '.'
  {
  }

  /** Lower-casing commutes with taking a prefix or a suffix. */
  lemma ToLowerSlices(s: string, k: nat)
    requires k <= |s|
    ensures ToLower(s)[..k] == ToLower(s[..k])
    ensures ToLower(s)[k..] == ToLower(s[k..])
  {
  }

  lemma LowerSingle(c: char)
    ensures ToLower([c]) == [LowerChar(c)]
  {
  }

  lemma ToLowerIdempotent(s: string)
    ensures ToLower(ToLower(s)) == ToLower(s)
  {
  }

  lemma ToLowerConcat(a: string, b: string)
    ensures ToLower(a + b) == ToLower(a) + ToLower(b)
  {
    assert forall i :: 0 <= i < |a| ==> (a + b)[i] == a[i];
    assert forall i :: |a| <= i < |a| + |b| ==> (a + b)[i] == b[i - |a|];
  }

  function DigitChar(d: nat): (c: char)
    requires d < 10
    ensures '0' <= c <= '9'
  {
    ('0' as int + d) as char
  }

  /** `String(n)` for a natural number: its decimal digits, most significant first. */
  function NatToString(n: nat): (s: string)
    ensures |s| >= 1
    ensures forall i :: 0 <= i < |s| ==> '0' <= s[i] <= '9'
    ensures n < 10 <==> |s| == 1
    decreases n
  {
    if n < 10 then [DigitChar(n)] else NatToString(n / 10) + [DigitChar(n % 10)]
  }

  /** `String(i)` for an integer. */
  function IntToString(i: int): string {
    if i < 0 then "-" + NatToString(-i) else NatToString(i)
  }

  /** Different numbers have different decimal representations. */
  lemma {:induction false} NatToStringInjective(a: nat, b: nat)
    ensures NatToString(a) == NatToString(b) ==> a == b
    decreases a
  {
    var sa, sb := NatToString(a), NatToString(b);
    if sa == sb && a >= 10 && b >= 10 {
      assert sa[|sa| - 1] == DigitChar(a % 10) && sb[|sb| - 1] == DigitChar(b % 10);
      assert sa[..|sa| - 1] == NatToString(a / 10);
      assert sb[..|sb| - 1] == NatToString(b / 10);
      NatToStringInjective(a / 10, b / 10);
    } else if sa == sb && a < 10 && b < 10 {
      assert sa[0] == DigitChar(a) && sb[0] == DigitChar(b);
    }
  }
}
