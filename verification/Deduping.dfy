/** The log forwarder's duplicate suppressor: a dictionary of last allowed times, pruned on every use. */
module Deduping {
  import opened Events
  import opened Sums

  /** A use of a key at a clock reading in seconds. */
  datatype Use = Use(key: string, now: real)

  function Live(seen: map<string, real>, window: real, now: real): map<string, real> {
    map k | k in seen && now - seen[k] < window :: seen[k]
  }

  /** The answer and the new dictionary when nothing is ever evicted. */
  function Ask(seen: map<string, real>, window: real, u: Use): (map<string, real>, bool) {
    if u.key in seen && u.now - seen[u.key] < window then (seen, false) else (seen[u.key := u.now], true)
  }

  /** The same with the expired entries dropped first, as the program does. */
  function PruneAndAsk(seen: map<string, real>, window: real, u: Use): (map<string, real>, bool) {
    Ask(Live(seen, window, u.now), window, u)
  }

  class Deduper {
    const window: real
    var seen: map<string, real>

    constructor (window: real)
      ensures this.window == window && seen == map[]
    {
      this.window, seen := window, map[];
    }

    method Prune(now: real)
      modifies this
      ensures seen == Live(old(seen), window, now)
    {
      var expired := set k | k in seen && now - seen[k] >= window;
      var left := expired;
      while left != {}
        invariant left <= expired
        invariant seen == old(seen) - (expired - left)
        decreases left
      {
        var key :| key in left;
        left := left - {key};
        seen := seen - {key};
      }
    }

    method Allow(key: string, now: real) returns (allowed: bool)
      modifies this
      ensures (seen, allowed) == PruneAndAsk(old(seen), window, Use(key, now))
    {
      Prune(now);
      if key in seen && now - seen[key] < window {
        return false;
      }
      seen := seen[key := now];
      return true;
    }
  }

  // ----- runs -------------------------------------------------------------------

  predicate InOrder(uses: seq<Use>) {
    forall i, j | 0 <= i <= j < |uses| :: uses[i].now <= uses[j].now
  }

  function PrunedAfter(uses: seq<Use>, window: real, n: nat): map<string, real>
    requires n <= |uses|
  {
    if n == 0 then map[] else PruneAndAsk(PrunedAfter(uses, window, n - 1), window, uses[n - 1]).0
  }

  function FullAfter(uses: seq<Use>, window: real, n: nat): map<string, real>
    requires n <= |uses|
  {
    if n == 0 then map[] else Ask(FullAfter(uses, window, n - 1), window, uses[n - 1]).0
  }

  predicate Allowed(uses: seq<Use>, window: real, i: nat)
    requires i < |uses|
  {
    PruneAndAsk(PrunedAfter(uses, window, i), window, uses[i]).1
  }

  /** What is left of both dictionaries at any later time is the same. */
  lemma {:induction false} PrunedIsLivePart(uses: seq<Use>, window: real, n: nat, now: real)
    requires n <= |uses| && InOrder(uses)
    requires forall i | 0 <= i < n :: uses[i].now <= now
    ensures Live(PrunedAfter(uses, window, n), window, now) == Live(FullAfter(uses, window, n), window, now)
  {
    if n > 0 {
      PrunedIsLivePart(uses, window, n - 1, uses[n - 1].now);
      PrunedIsLivePart(uses, window, n - 1, now);
    }
  }

  /** With the clock in order eviction changes nothing: every answer is the one a suppressor that never evicts
      would give. */
  lemma EvictionChangesNothing(uses: seq<Use>, window: real, i: nat)
    requires i < |uses| && InOrder(uses)
    ensures Allowed(uses, window, i) == Ask(FullAfter(uses, window, i), window, uses[i]).1
  {
    var u := uses[i];
    PrunedIsLivePart(uses, window, i, u.now);
    assert u.key in Live(FullAfter(uses, window, i), window, u.now) <==>
           u.key in FullAfter(uses, window, i) && u.now - FullAfter(uses, window, i)[u.key] < window;
  }

  /** An entry is the time of an allowed use of its key, and the latest one. */
  lemma {:induction false} FullHoldsLastAllowed(uses: seq<Use>, window: real, n: nat, key: string)
    requires n <= |uses| && InOrder(uses)
    ensures var full := FullAfter(uses, window, n);
            && (key in full ==> exists j | 0 <= j < n ::
                  uses[j].key == key && Allowed(uses, window, j) && uses[j].now == full[key])
            && (forall j | 0 <= j < n && uses[j].key == key && Allowed(uses, window, j) ::
                  key in full && uses[j].now <= full[key])
  {
    if n > 0 {
      FullHoldsLastAllowed(uses, window, n - 1, key);
      EvictionChangesNothing(uses, window, n - 1);
    }
  }

  /** A use is refused exactly when an earlier allowed use of its key is less than the window old. */
  lemma RefusedIffRecentlyAllowed(uses: seq<Use>, window: real, i: nat)
    requires i < |uses| && InOrder(uses)
    ensures !Allowed(uses, window, i) <==>
            exists j | 0 <= j < i ::
              uses[j].key == uses[i].key && Allowed(uses, window, j) && uses[i].now - uses[j].now < window
  {
    EvictionChangesNothing(uses, window, i);
    FullHoldsLastAllowed(uses, window, i, uses[i].key);
  }

  /** Two allowed uses of a key are at least the window apart. */
  lemma AllowedAreSpaced(uses: seq<Use>, window: real, j: nat, i: nat)
    requires j < i < |uses| && InOrder(uses)
    requires uses[j].key == uses[i].key && Allowed(uses, window, j) && Allowed(uses, window, i)
    ensures uses[i].now - uses[j].now >= window
  {
    RefusedIffRecentlyAllowed(uses, window, i);
  }

  lemma {:induction false} RetainedAreNotFuture(uses: seq<Use>, window: real, n: nat, now: real)
    requires n <= |uses| && forall i | 0 <= i < n :: uses[i].now <= now
    ensures forall k | k in PrunedAfter(uses, window, n) :: PrunedAfter(uses, window, n)[k] <= now
  {
    if n > 0 { RetainedAreNotFuture(uses, window, n - 1, now); }
  }

  predicate AllYoung(seen: map<string, real>, window: real, now: real) {
    forall k | k in seen :: now - seen[k] < window
  }

  /** After a use everything retained is younger than the window, exactly when the window is positive. */
  lemma RetainedAreYoung(uses: seq<Use>, window: real, i: nat)
    requires i < |uses| && InOrder(uses)
    ensures AllYoung(PrunedAfter(uses, window, i + 1), window, uses[i].now) <==> window > 0.0
  {
    var u := uses[i];
    RetainedAreNotFuture(uses, window, i, u.now);
    var before := Live(PrunedAfter(uses, window, i), window, u.now);
    var kept := PrunedAfter(uses, window, i + 1);
    assert kept == Ask(before, window, u).0;
    if window <= 0.0 {
      assert u.key !in before;
      assert u.key in kept && !(uses[i].now - kept[u.key] < window);
    }
  }

  /** The pruned dictionary and the one never pruned answer the last use differently. */
  predicate Parts(uses: seq<Use>, window: real)
    requires uses != []
  {
    var n := |uses| - 1;
    Allowed(uses, window, n) != Ask(FullAfter(uses, window, n), window, uses[n]).1
  }

  /** Out of order the two part, and exactly when: a use at c of a key last used at a, with another key's use at b
      in between, is answered differently if and only if b is a window past a, which evicts the entry, and c is not,
      so that the entry was still wanted. That takes a c before b. */
  lemma BackwardClockParts(key: string, other: string, window: real, a: real, b: real, c: real)
    requires key != other
    ensures Parts([Use(key, a), Use(other, b), Use(key, c)], window) <==> c - a < window <= b - a
  {
    var uses := [Use(key, a), Use(other, b), Use(key, c)];
    assert FullAfter(uses, window, 1) == map[key := a] == PrunedAfter(uses, window, 1);
    assert FullAfter(uses, window, 2) == map[key := a, other := b];
    assert Live(map[key := a], window, b) == if b - a < window then map[key := a] else map[];
    assert PrunedAfter(uses, window, 2) == Live(map[key := a], window, b)[other := b];
    var left := Live(PrunedAfter(uses, window, 2), window, c);
    assert key in left <==> b - a < window && c - a < window;
    assert key in left ==> left[key] == a;
  }

  /** After any run at all, in order or not: some next use of the key is answered differently if and only if the two
      dictionaries do not hold the same time for it. */
  lemma NextUseDiffersIff(uses: seq<Use>, window: real, key: string)
    ensures (exists c :: Parts(uses + [Use(key, c)], window)) <==>
            !SameAt(PrunedAfter(uses, window, |uses|), FullAfter(uses, window, |uses|), key)
  {
    var n := |uses|;
    var pruned, full := PrunedAfter(uses, window, n), FullAfter(uses, window, n);
    forall c
      ensures Parts(uses + [Use(key, c)], window) <==>
              (key in pruned && c - pruned[key] < window) != (key in full && c - full[key] < window)
    {
      var whole := uses + [Use(key, c)];
      PrefixAfter(uses, whole, window, n);
      assert key in Live(pruned, window, c) <==> key in pruned && c - pruned[key] < window;
    }
    if !SameAt(pruned, full, key) {
      var c := if key !in pruned then full[key] + window - 1.0
               else if key !in full || pruned[key] > full[key] then pruned[key] + window - Gap(pruned, full, key)
               else full[key] + window - Gap(pruned, full, key);
      assert Parts(uses + [Use(key, c)], window);
    }
  }

  /** Half the distance between the two times, or one where there are not two. */
  function Gap(m: map<string, real>, n: map<string, real>, k: string): (gap: real)
    ensures !SameAt(m, n, k) ==> gap > 0.0
  {
    if k !in m || k !in n then 1.0
    else if m[k] > n[k] then (m[k] - n[k]) / 2.0
    else (n[k] - m[k]) / 2.0
  }

  lemma {:induction false} PrefixAfter(uses: seq<Use>, whole: seq<Use>, window: real, n: nat)
    requires n <= |uses| && uses <= whole
    ensures PrunedAfter(whole, window, n) == PrunedAfter(uses, window, n)
    ensures FullAfter(whole, window, n) == FullAfter(uses, window, n)
  {
    if n > 0 { PrefixAfter(uses, whole, window, n - 1); }
  }

  // ----- exactly when eviction matters ------------------------------------------------

  /** The answer of a suppressor that never evicts. */
  predicate FullAllowed(uses: seq<Use>, window: real, i: nat)
    requires i < |uses|
  {
    Ask(FullAfter(uses, window, i), window, uses[i]).1
  }

  predicate AnswersAgree(uses: seq<Use>, window: real, k: nat)
    requires k < |uses|
  {
    Allowed(uses, window, k) == FullAllowed(uses, window, k)
  }

  /** Use i is the latest of its key, of the first n, that is allowed without eviction. */
  predicate LatestAllowed(uses: seq<Use>, window: real, i: nat, n: nat, key: string)
    requires n <= |uses|
  {
    && i < n && uses[i].key == key && FullAllowed(uses, window, i)
    && forall l | i < l < n && uses[l].key == key :: !FullAllowed(uses, window, l)
  }

  lemma {:induction false} FullIsLatest(uses: seq<Use>, window: real, n: nat, key: string)
    requires n <= |uses|
    ensures var full := FullAfter(uses, window, n);
            && (key in full <==> exists i: nat :: LatestAllowed(uses, window, i, n, key))
            && forall i: nat | LatestAllowed(uses, window, i, n, key) :: full[key] == uses[i].now
  {
    if n > 0 {
      FullIsLatest(uses, window, n - 1, key);
      LatestStep(uses, window, n, key);
      if uses[n - 1].key == key && FullAllowed(uses, window, n - 1) {
        assert LatestAllowed(uses, window, n - 1, n, key);
      } else if key in FullAfter(uses, window, n - 1) {
        var i: nat :| LatestAllowed(uses, window, i, n - 1, key);
        assert LatestAllowed(uses, window, i, n, key);
      }
    }
  }

  lemma LatestStep(uses: seq<Use>, window: real, n: nat, key: string)
    requires 0 < n <= |uses|
    ensures forall i: nat :: LatestAllowed(uses, window, i, n, key) <==>
              if uses[n - 1].key == key && FullAllowed(uses, window, n - 1) then i == n - 1
              else LatestAllowed(uses, window, i, n - 1, key)
  {
  }

  /** Some use after i comes a window later or more. */
  predicate Expires(uses: seq<Use>, window: real, i: nat, n: nat)
    requires i < n <= |uses|
  {
    exists j: nat | i < j < n :: uses[j].now - uses[i].now >= window
  }

  /** While the answers agree, the pruned dictionary holds what has not expired of the other. */
  predicate HoldsUnexpired(uses: seq<Use>, window: real, n: nat, key: string)
    requires n <= |uses|
  {
    var pruned, full := PrunedAfter(uses, window, n), FullAfter(uses, window, n);
    && (key in pruned ==> key in full && pruned[key] == full[key])
    && forall i: nat | i < n && LatestAllowed(uses, window, i, n, key) ::
         key in pruned <==> !Expires(uses, window, i, n)
  }

  lemma ExpiresStep(uses: seq<Use>, window: real, i: nat, n: nat)
    requires i < n - 1 && n <= |uses|
    ensures Expires(uses, window, i, n) <==>
            Expires(uses, window, i, n - 1) || uses[n - 1].now - uses[i].now >= window
  {
    if Expires(uses, window, i, n - 1) {
      var j: nat :| i < j < n - 1 && uses[j].now - uses[i].now >= window;
      assert Expires(uses, window, i, n);
    }
  }

  lemma UnexpiredStep(uses: seq<Use>, window: real, n: nat, key: string)
    requires 0 < n <= |uses| && HoldsUnexpired(uses, window, n - 1, key) && AnswersAgree(uses, window, n - 1)
    ensures HoldsUnexpired(uses, window, n, key)
  {
    var u, pruned := uses[n - 1], PrunedAfter(uses, window, n - 1);
    FullIsLatest(uses, window, n - 1, key);
    LatestStep(uses, window, n, key);
    forall i: nat | i < n && LatestAllowed(uses, window, i, n, key)
      ensures key in PrunedAfter(uses, window, n) <==> !Expires(uses, window, i, n)
    {
      if i < n - 1 {
        ExpiresStep(uses, window, i, n);
        assert LatestAllowed(uses, window, i, n - 1, key);
      }
    }
  }

  lemma {:induction false} PrunedHoldsUnexpired(uses: seq<Use>, window: real, n: nat, key: string)
    requires n <= |uses| && forall m | 0 <= m < n :: AnswersAgree(uses, window, m)
    ensures HoldsUnexpired(uses, window, n, key)
  {
    if n > 0 {
      PrunedHoldsUnexpired(uses, window, n - 1, key);
      UnexpiredStep(uses, window, n, key);
    }
  }

  /** Use k wants the entry of use i, the latest allowed of its key and still within the window; but use j in between,
      a window past i or more, evicts it. */
  predicate Evicts(uses: seq<Use>, window: real, i: nat, j: nat, k: nat)
    requires k < |uses|
  {
    && i < j < k && LatestAllowed(uses, window, i, k, uses[k].key)
    && uses[k].now - uses[i].now < window <= uses[j].now - uses[i].now
  }

  lemma AgreesIffNotEvicted(uses: seq<Use>, window: real, k: nat)
    requires k < |uses| && forall m | 0 <= m < k :: AnswersAgree(uses, window, m)
    ensures AnswersAgree(uses, window, k) <==> !exists i: nat, j: nat :: Evicts(uses, window, i, j, k)
  {
    var key, now := uses[k].key, uses[k].now;
    PrunedHoldsUnexpired(uses, window, k, key);
    FullIsLatest(uses, window, k, key);
    var pruned, full := PrunedAfter(uses, window, k), FullAfter(uses, window, k);
    assert Allowed(uses, window, k) <==> !(key in pruned && now - pruned[key] < window);
    if i: nat :| LatestAllowed(uses, window, i, k, key) {
      assert full[key] == uses[i].now;
      if Expires(uses, window, i, k) {
        var j: nat :| i < j < k && uses[j].now - uses[i].now >= window;
        assert now - uses[i].now < window ==> Evicts(uses, window, i, j, k);
      }
    }
  }

  lemma {:induction false} AgreeWithoutEvictions(uses: seq<Use>, window: real, n: nat)
    requires n <= |uses|
    requires forall i: nat, j: nat, k: nat | k < n :: !Evicts(uses, window, i, j, k)
    ensures forall m | 0 <= m < n :: AnswersAgree(uses, window, m)
  {
    if n > 0 {
      AgreeWithoutEvictions(uses, window, n - 1);
      AgreesIffNotEvicted(uses, window, n - 1);
    }
  }

  /** Over any run and whatever the clock does: every answer is the one of a suppressor that never evicts if and only
      if no use comes within the window of the latest allowed one of its key after another use that did not. */
  lemma EvictionMattersIff(uses: seq<Use>, window: real)
    ensures (forall m | 0 <= m < |uses| :: AnswersAgree(uses, window, m)) <==>
            !exists i: nat, j: nat, k: nat | k < |uses| :: Evicts(uses, window, i, j, k)
  {
    if forall m | 0 <= m < |uses| :: AnswersAgree(uses, window, m) {
      forall i: nat, j: nat, k: nat | k < |uses|
        ensures !Evicts(uses, window, i, j, k)
      {
        AgreesIffNotEvicted(uses, window, k);
      }
    } else if forall i: nat, j: nat, k: nat | k < |uses| :: !Evicts(uses, window, i, j, k) {
      AgreeWithoutEvictions(uses, window, |uses|);
    }
  }
}
