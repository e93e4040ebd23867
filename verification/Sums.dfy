/** Sequences in general: regrouping, filtering, sums, and the subsequence relation; and sums over counting maps. */
module Sums {

  lemma Regroup<T>(a: seq<T>, b: seq<T>, c: seq<T>)
    ensures a + (b + c) == a + b + c
  {
  }

  lemma TakeTake<T>(s: seq<T>, n: nat, m: nat)
    requires m <= n <= |s|
    ensures s[..n][..m] == s[..m]
  {
  }

  lemma TakeDrop<T>(s: seq<T>, n: nat)
    requires n <= |s|
    ensures s == s[..n] + s[n..]
  {
  }

  lemma TakeSnoc<T>(s: seq<T>, n: nat)
    requires n < |s|
    ensures s[..n + 1] == s[..n] + [s[n]]
  {
  }

  lemma FrontLast<T>(s: seq<T>)
    requires s != []
    ensures s == s[..|s| - 1] + [s[|s| - 1]]
  {
  }

  function Filtered<T>(s: seq<T>, p: T -> bool): seq<T> {
    if s == [] then []
    else Filtered(s[..|s| - 1], p) + if p(s[|s| - 1]) then [s[|s| - 1]] else []
  }

  lemma FilteredTaken<T>(s: seq<T>, i: nat, p: T -> bool)
    requires i < |s|
    ensures Filtered(s[..i + 1], p) == if p(s[i]) then Filtered(s[..i], p) + [s[i]] else Filtered(s[..i], p)
  {
    TakeTake(s, i + 1, i);
  }

  lemma {:induction false} FilteredConcat<T>(a: seq<T>, b: seq<T>, p: T -> bool)
    ensures Filtered(a + b, p) == Filtered(a, p) + Filtered(b, p)
  {
    if b == [] {
      assert a + b == a;
    } else {
      assert (a + b)[..|a + b| - 1] == a + b[..|b| - 1];
      FilteredConcat(a, b[..|b| - 1], p);
    }
  }

  lemma FilteredSnoc<T>(s: seq<T>, x: T, p: T -> bool)
    ensures Filtered(s + [x], p) == if p(x) then Filtered(s, p) + [x] else Filtered(s, p)
  {
    assert (s + [x])[..|s|] == s;
  }

  /** Moving the first of the remaining entries over to those seen. */
  lemma FilteredStep<T>(seen: seq<T>, x: T, later: seq<T>, p: T -> bool)
    ensures seen + Filtered([x] + later, p) == (if p(x) then seen + [x] else seen) + Filtered(later, p)
  {
    FilteredConcat([x], later, p);
    FilteredSnoc([], x, p);
    assert [] + [x] == [x];
  }

  lemma {:induction false} FilteredHas<T>(s: seq<T>, p: T -> bool, x: T)
    ensures x in Filtered(s, p) <==> x in s && p(x)
  {
    if s != [] {
      FrontLast(s);
      FilteredHas(s[..|s| - 1], p, x);
    }
  }

  /** Keeps the entries that meet p, in order, sliding them down over the front of the array. */
  method Compact<T>(data: array<T>, len: nat, p: T -> bool) returns (out: nat)
    requires len <= data.Length
    modifies data
    ensures out <= len && data[..out] == Filtered(old(data[..len]), p)
  {
    ghost var was := data[..len];
    out := 0;
    var i := 0;
    while i < len
      invariant 0 <= out <= i <= len == |was|
      invariant data[..out] == Filtered(was[..i], p)
      invariant forall k | i <= k < len :: data[k] == was[k]
    {
      var it := data[i];
      FilteredTaken(was, i, p);
      if p(it) {
        data[out] := it;
        out := out + 1;
      }
      i := i + 1;
    }
    assert was[..i] == was;
  }

  // ----- runs of equal entries at the end ---------------------------------------

  /** How many of the last entries, without a break, equal x. */
  function Trail<T(==)>(s: seq<T>, x: T): (n: nat)
    ensures n <= |s|
  {
    if s == [] || s[|s| - 1] != x then 0 else Trail(s[..|s| - 1], x) + 1
  }

  lemma TrailSnoc<T>(s: seq<T>, x: T, y: T)
    ensures Trail(s + [x], y) == if x == y then Trail(s, y) + 1 else 0
  {
    assert (s + [x])[..|s|] == s;
  }

  /** The length of the run of equal entries at the end. */
  function LastTrail<T(==)>(s: seq<T>): nat {
    if s == [] then 0 else Trail(s, s[|s| - 1])
  }

  /** What comes before it. */
  function BeforeTrail<T(==)>(s: seq<T>): seq<T> {
    s[..|s| - LastTrail(s)]
  }

  lemma BeforeTrailSnoc<T>(s: seq<T>, x: T)
    ensures BeforeTrail(s + [x]) == if s != [] && s[|s| - 1] == x then BeforeTrail(s) else s
  {
    TrailSnoc(s, x, x);
    if s == [] || s[|s| - 1] != x {
      assert Trail(s, x) == 0;
      assert (s + [x])[..|s|] == s;
    }
  }

  function Sum<T>(s: seq<T>, f: T -> int): int {
    if s == [] then 0 else f(s[0]) + Sum(s[1..], f)
  }

  lemma {:induction false} SumUpdate<T>(s: seq<T>, i: nat, x: T, f: T -> int)
    requires i < |s|
    ensures Sum(s[i := x], f) == Sum(s, f) - f(s[i]) + f(x)
  {
    if i == 0 {
      assert s[0 := x][1..] == s[1..];
    } else {
      SumUpdate(s[1..], i - 1, x, f);
      assert s[i := x][1..] == s[1..][i - 1 := x];
    }
  }

  lemma {:induction false} SumBounds<T>(s: seq<T>, f: T -> int)
    requires forall x :: 0 <= f(x) <= 1
    ensures 0 <= Sum(s, f) <= |s|
  {
    if s != [] { SumBounds(s[1..], f); }
  }

  lemma {:induction false} SumZero<T>(s: seq<T>, f: T -> int)
    requires forall i | 0 <= i < |s| :: f(s[i]) == 0
    ensures Sum(s, f) == 0
  {
    if s != [] { SumZero(s[1..], f); }
  }

  lemma {:induction false} SumNotNegative<T>(s: seq<T>, f: T -> int)
    requires forall x :: f(x) >= 0
    ensures Sum(s, f) >= 0
  {
    if s != [] { SumNotNegative(s[1..], f); }
  }

  lemma {:induction false} SumAtLeast<T>(s: seq<T>, i: nat, f: T -> int)
    requires i < |s| && forall x :: f(x) >= 0
    ensures Sum(s, f) >= f(s[i])
  {
    if i == 0 {
      SumNotNegative(s[1..], f);
    } else {
      SumAtLeast(s[1..], i - 1, f);
    }
  }

  lemma {:induction false} SumAppend<T>(s: seq<T>, x: T, f: T -> int)
    ensures Sum(s + [x], f) == Sum(s, f) + f(x)
  {
    if s != [] {
      SumAppend(s[1..], x, f);
      assert (s + [x])[1..] == s[1..] + [x];
    }
  }

  /** The entry of a counting map, where Go reads a missing key as zero. */
  function Get(m: map<string, int>, k: string): int {
    if k in m then m[k] else 0
  }

  predicate SameAt<V(==)>(m: map<string, V>, n: map<string, V>, k: string) {
    (k in m <==> k in n) && (k in m ==> m[k] == n[k])
  }

  function One(b: bool): nat {
    if b then 1 else 0
  }

  function Inc(m: map<string, int>, k: string): map<string, int> {
    m[k := Get(m, k) + 1]
  }

  ghost function MapSum(m: map<string, int>): int
    decreases |m|
  {
    if m == map[] then 0 else var k :| k in m; m[k] + MapSum(m - {k})
  }

  lemma {:induction false} MapSumPick(m: map<string, int>, k: string)
    requires k in m
    ensures MapSum(m) == m[k] + MapSum(m - {k})
    decreases |m|
  {
    var p :| p in m && MapSum(m) == m[p] + MapSum(m - {p});
    if p != k {
      MapSumPick(m - {p}, k);
      MapSumPick(m - {k}, p);
      assert m - {p} - {k} == m - {k} - {p};
    }
  }

  lemma MapSumInc(m: map<string, int>, k: string)
    ensures MapSum(Inc(m, k)) == MapSum(m) + 1
  {
    var n := Inc(m, k);
    MapSumPick(n, k);
    assert n - {k} == m - {k};
    if k in m {
      MapSumPick(m, k);
    } else {
      assert m - {k} == m;
    }
  }

  /** `s` is `t` with some entries left out. */
  predicate Subsequence<T(==)>(s: seq<T>, t: seq<T>)
    decreases |t|
  {
    if s == [] then true
    else if t == [] then false
    else if s[|s| - 1] == t[|t| - 1] && Subsequence(s[..|s| - 1], t[..|t| - 1]) then true
    else Subsequence(s, t[..|t| - 1])
  }

  lemma {:induction false} SubsequenceHas<T>(s: seq<T>, t: seq<T>, x: T)
    requires Subsequence(s, t) && x in s
    ensures x in t
    decreases |t|
  {
    if t != [] {
      FrontLast(s);
      FrontLast(t);
      var s', t' := s[..|s| - 1], t[..|t| - 1];
      if s[|s| - 1] == t[|t| - 1] && Subsequence(s', t') {
        if x in s' { SubsequenceHas(s', t', x); }
      } else {
        SubsequenceHas(s, t', x);
      }
    }
  }

  lemma SubsequenceKeep<T>(s: seq<T>, t: seq<T>, x: T)
    requires Subsequence(s, t)
    ensures Subsequence(s + [x], t + [x])
  {
    assert (s + [x])[..|s|] == s && (t + [x])[..|t|] == t;
  }

  lemma SubsequenceSkip<T>(s: seq<T>, t: seq<T>, x: T)
    requires Subsequence(s, t)
    ensures Subsequence(s, t + [x])
  {
    assert (t + [x])[..|t|] == t;
  }
}
