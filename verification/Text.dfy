/** ASCII string operations in the shape of Go's `strings` package. */
module Text {

  function LowerChar(c: char): char {
    if 'A' <= c <= 'Z' then (c as int + 32) as char else c
  }

  function UpperChar(c: char): char {
    if 'a' <= c <= 'z' then (c as int - 32) as char else c
  }

  function ToLower(s: string): (r: string)
    ensures |r| == |s|
  {
    seq(|s|, i requires 0 <= i < |s| => LowerChar(s[i]))
  }

  function ToUpper(s: string): (r: string)
    ensures |r| == |s|
  {
    seq(|s|, i requires 0 <= i < |s| => UpperChar(s[i]))
  }

  function DashToUnderscore(s: string): (r: string)
    ensures |r| == |s|
  {
    seq(|s|, i requires 0 <= i < |s| => if s[i] == '-' then '_' else s[i])
  }

  predicate IsSpace(c: char) {
    c == ' ' || 9 <= c as int <= 13
  }

  function TrimLeft(s: string): string {
    if s != "" && IsSpace(s[0]) then TrimLeft(s[1..]) else s
  }

  function TrimRight(s: string): string {
    if s != "" && IsSpace(s[|s| - 1]) then TrimRight(s[..|s| - 1]) else s
  }

  function TrimSpace(s: string): string {
    TrimRight(TrimLeft(s))
  }

  predicate OccursAt(haystack: string, needle: string, i: int) {
    0 <= i <= |haystack| - |needle| && haystack[i..i + |needle|] == needle
  }

  predicate Contains(haystack: string, needle: string) {
    exists i | 0 <= i <= |haystack| :: OccursAt(haystack, needle, i)
  }

  predicate EqualFold(a: string, b: string) {
    ToLower(a) == ToLower(b)
  }

  function Join(parts: seq<string>, sep: string): string {
    if |parts| == 0 then ""
    else if |parts| == 1 then parts[0]
    else parts[0] + sep + Join(parts[1..], sep)
  }

  lemma JoinStep(parts: seq<string>, sep: string)
    requires |parts| >= 2
    ensures Join(parts, sep) == parts[0] + sep + Join(parts[1..], sep)
    ensures |parts| == 2 ==> Join(parts, sep) == parts[0] + sep + parts[1]
  {
  }

  /** Splitting at the first bar is unambiguous when the head has no bar. */
  lemma BarSplitUnique(a: string, b: string, x: string, y: string)
    requires '|' !in a && '|' !in b
    requires a + "|" + x == b + "|" + y
    ensures a == b && x == y
  {
    var s := a + "|" + x;
    assert s[|a|] == '|' && s[|b|] == '|';
    assert |a| == |b| by {
      assert forall i | 0 <= i < |a| :: s[i] == a[i] && a[i] in a;
      assert forall i | 0 <= i < |b| :: s[i] == b[i] && b[i] in b;
    }
    assert a == s[..|a|] == (b + "|" + y)[..|b|] == b;
    assert x == s[|a| + 1..] == (b + "|" + y)[|b| + 1..] == y;
  }

  /** A joined key determines its first n fields when those have no bar, whatever the later fields hold. */
  lemma {:induction false} JoinPrefixInjective(xs: seq<string>, ys: seq<string>, n: nat)
    requires n < |xs| && n < |ys|
    requires forall i | 0 <= i < n :: '|' !in xs[i] && '|' !in ys[i]
    requires Join(xs, "|") == Join(ys, "|")
    ensures xs[..n] == ys[..n]
    ensures Join(xs[n..], "|") == Join(ys[n..], "|")
  {
    if n == 0 {
      assert xs[0..] == xs && ys[0..] == ys;
    } else {
      BarSplitUnique(xs[0], ys[0], Join(xs[1..], "|"), Join(ys[1..], "|"));
      JoinPrefixInjective(xs[1..], ys[1..], n - 1);
      assert xs[..n] == [xs[0]] + xs[1..][..n - 1];
      assert ys[..n] == [ys[0]] + ys[1..][..n - 1];
      assert xs[n..] == xs[1..][n - 1..] && ys[n..] == ys[1..][n - 1..];
    }
  }
}
