/** What each gate promises over a whole run, drawn from the history reading of the engine. */
module FilterGates {
  import opened Events
  import opened Sums
  import opened Text
  import opened Filter
  import opened FilterHistory

  /** The readings do not go back, in the order in which the visits took the state lock. */
  predicate ClockInOrder(run: seq<Visit>) {
    forall i, j | 0 <= i <= j < |run| :: run[i].now.nanos <= run[j].now.nanos
  }

  /** All that the rate gate needs of it. */
  predicate SecondsInOrder(run: seq<Visit>) {
    forall i, j | 0 <= i <= j < |run| :: run[i].now.Unix() <= run[j].now.Unix()
  }

  lemma ClockOrdersSeconds(run: seq<Visit>)
    requires ClockInOrder(run)
    ensures SecondsInOrder(run)
  {
    forall i, j | 0 <= i <= j < |run|
      ensures run[i].now.Unix() <= run[j].now.Unix()
    {
      assert run[i].now.nanos <= run[j].now.nanos;
    }
  }

  // ----- rate limit -------------------------------------------------------

  predicate ArrivesIn(v: Visit, key: string, sec: int) {
    RateLimited(v) && v.rateKey == key && v.now.Unix() == sec
  }

  function RateArrivals(run: seq<Visit>, n: nat, key: string, sec: int): nat
    requires n <= |run|
  {
    if n == 0 then 0
    else RateArrivals(run, n - 1, key, sec) + (if ArrivesIn(run[n - 1], key, sec) then 1 else 0)
  }

  lemma {:induction false} NoArrivalsYet(run: seq<Visit>, n: nat, key: string, sec: int)
    requires n <= |run|
    requires forall j | 0 <= j < n :: run[j].now.Unix() < sec
    ensures RateArrivals(run, n, key, sec) == 0
  {
    if n > 0 { NoArrivalsYet(run, n - 1, key, sec); }
  }

  lemma {:induction false} TrailIsCount(run: seq<Visit>, n: nat, key: string, sec: int)
    requires n <= |run| && SecondsInOrder(run)
    requires forall j | 0 <= j < n :: run[j].now.Unix() <= sec
    ensures RateTrail(run, n, key, sec) == RateArrivals(run, n, key, sec)
  {
    if n > 0 {
      RateTrailStep(run, n, key, sec);
      if RateLimited(run[n - 1]) && run[n - 1].rateKey == key && run[n - 1].now.Unix() < sec {
        assert forall j | 0 <= j < n - 1 :: run[j].now.Unix() <= run[n - 1].now.Unix();
        NoArrivalsYet(run, n - 1, key, sec);
      } else {
        TrailIsCount(run, n - 1, key, sec);
      }
    }
  }

  /** With seconds in order, an arrival is refused for rate exactly when it is past the limit-th of its
      key in its second. */
  lemma RateLimitCountsTheSecond(run: seq<Visit>, i: nat)
    requires i < |run| && SecondsInOrder(run) && RateLimited(run[i])
    ensures DecisionAt(run, i).reason == "rule_rate_limit" <==>
            RateArrivals(run, i + 1, run[i].rateKey, run[i].now.Unix()) > run[i].rule.value.rateLimitPerSecond
  {
    var key, sec := run[i].rateKey, run[i].now.Unix();
    assert DecisionAt(run, i).reason == "rule_rate_limit" <==> !WithinRate(run, i) by { ReasonsNameTheGate(run, i); }
    assert RateTrail(run, i + 1, key, sec) == RateArrivals(run, i + 1, key, sec) by {
      TrailIsCount(run, i + 1, key, sec);
    }
  }

  function RatePassed(run: seq<Visit>, n: nat, key: string, sec: int): nat
    requires n <= |run|
  {
    if n == 0 then 0
    else RatePassed(run, n - 1, key, sec) +
         (if ArrivesIn(run[n - 1], key, sec) && DecisionAt(run, n - 1).reason != "rule_rate_limit" then 1 else 0)
  }

  /** Of the arrivals at a key within one Unix second exactly min(arrivals, limit) pass the gate. */
  lemma {:induction false} RateGateIsExact(run: seq<Visit>, n: nat, key: string, sec: int, limit: int)
    requires n <= |run| && SecondsInOrder(run) && limit > 0
    requires forall i | 0 <= i < n && ArrivesIn(run[i], key, sec) :: run[i].rule.value.rateLimitPerSecond == limit
    ensures var m := RateArrivals(run, n, key, sec);
            RatePassed(run, n, key, sec) == if m <= limit then m else limit
  {
    if n > 0 {
      RateGateIsExact(run, n - 1, key, sec, limit);
      if ArrivesIn(run[n - 1], key, sec) {
        RateLimitCountsTheSecond(run, n - 1);
      }
    }
  }

  /** What the rate gate refuses leaves the duplicate and sampling state as it was, and what the window
      refuses leaves the sampling state as it was. */
  lemma RefusalsStopEarly(run: seq<Visit>, i: nat)
    requires i < |run|
    ensures var before, after, reason := StateAfter(run, i), StateAfter(run, i + 1), DecisionAt(run, i).reason;
            && (reason == "rule_rate_limit" ==> after.dedup == before.dedup && after.samples == before.samples)
            && (reason == "rule_duplicate_window" ==> after.samples == before.samples)
  {
    var v, st := run[i], StateAfter(run, i);
    ReasonsNameTheGate(run, i);
    StateIsHistory(run, i);
    if v.rule.Some? {
      RateGateHolds(run, i, st);
      if WithinRate(run, i) {
        DedupGateHolds(run, i, RateGate(v, st).0);
      }
    }
  }

  // ----- duplicate window ---------------------------------------------------

  /** Visit j came to the window before i, under i's key and at most i's window earlier. */
  predicate Shadows(run: seq<Visit>, j: nat, i: nat)
    requires j < i < |run| && run[i].rule.Some?
  {
    && ReachesWindow(run, j, run[i].windowKey)
    && run[i].now.nanos - run[j].now.nanos <= Window(run[i])
  }

  predicate Shadowed(run: seq<Visit>, i: nat)
    requires i < |run|
  {
    run[i].rule.Some? && exists j: nat | j < i :: Shadows(run, j, i)
  }

  lemma {:induction false} LastSeenIsLatest(run: seq<Visit>, n: nat, key: string)
    requires n <= |run| && ClockInOrder(run)
    ensures match LastSeen(run, n, key)
            case None => forall j | 0 <= j < n :: !ReachesWindow(run, j, key)
            case Some(t) =>
              && (exists j | 0 <= j < n :: ReachesWindow(run, j, key) && run[j].now.nanos == t)
              && (forall j | 0 <= j < n && ReachesWindow(run, j, key) :: run[j].now.nanos <= t)
  {
    if n > 0 && !ReachesWindow(run, n - 1, key) {
      LastSeenIsLatest(run, n - 1, key);
    }
  }

  /** With the clock in order, the one timestamp kept per key is as good as the whole history: an event is
      dropped as a duplicate exactly when it comes to the window and an earlier one shadows it. */
  lemma DuplicateWindowIsHistory(run: seq<Visit>, i: nat)
    requires i < |run| && ClockInOrder(run)
    ensures DecisionAt(run, i).reason == "rule_duplicate_window" <==>
            ReachesWindow(run, i, run[i].windowKey) && Shadowed(run, i)
  {
    ReasonsNameTheGate(run, i);
    if run[i].rule.Some? {
      var key := run[i].windowKey;
      LastSeenIsLatest(run, i, key);
      match LastSeen(run, i, key)
      case None =>
      case Some(t) =>
        var j: nat :| j < i && ReachesWindow(run, j, key) && run[j].now.nanos == t;
        assert run[i].now.nanos - t <= Window(run[i]) ==> Shadows(run, j, i);
    }
  }

  /** Two events of one key that the window admits are more than the later one's window apart. */
  lemma AdmittedAreSpaced(run: seq<Visit>, i: nat, j: nat, key: string)
    requires j < i < |run| && ClockInOrder(run)
    requires ReachesWindow(run, j, key) && ReachesWindow(run, i, key)
    requires DecisionAt(run, i).reason != "rule_duplicate_window"
    ensures run[i].now.nanos - run[j].now.nanos > Window(run[i])
  {
    DuplicateWindowIsHistory(run, i);
    assert !Shadows(run, j, i);
  }

  /** A chain of arrivals of one key, each within the window of the one before, admits its first, unless something
      before the chain shadows that, and none of the others. */
  lemma ChainAdmitsOnlyFirst(run: seq<Visit>, chain: seq<nat>, key: string, m: nat)
    requires m < |chain| && ClockInOrder(run)
    requires forall c | 0 <= c < |chain| :: chain[c] < |run| && ReachesWindow(run, chain[c], key)
    requires forall c | 0 < c < |chain| :: chain[c - 1] < chain[c]
    requires forall c | 0 < c < |chain| :: ReachesWindow(run, chain[c], key) &&
               run[chain[c]].now.nanos - run[chain[c - 1]].now.nanos <= Window(run[chain[c]])
    ensures DecisionAt(run, chain[m]).reason == "rule_duplicate_window" <==> m > 0 || Shadowed(run, chain[0])
  {
    DuplicateWindowIsHistory(run, chain[m]);
    assert ReachesWindow(run, chain[m], key);
    if m > 0 {
      assert ReachesWindow(run, chain[m - 1], key);
      assert Shadows(run, chain[m - 1], chain[m]);
    }
  }

  // ----- without the order of the clock -------------------------------------

  lemma {:induction false} RateSecondsOfPrefix(run: seq<Visit>, more: seq<Visit>, n: nat, key: string)
    requires n <= |run|
    ensures RateSeconds(run + more, n, key) == RateSeconds(run, n, key)
  {
    if n > 0 { RateSecondsOfPrefix(run, more, n - 1, key); }
  }

  lemma ReachesWindowOfPrefix(run: seq<Visit>, more: seq<Visit>, i: nat, key: string)
    requires i < |run|
    ensures ReachesWindow(run + more, i, key) == ReachesWindow(run, i, key)
  {
    RateSecondsOfPrefix(run, more, i + 1, run[i].rateKey);
  }

  lemma {:induction false} LastSeenOfPrefix(run: seq<Visit>, more: seq<Visit>, n: nat, key: string)
    requires n <= |run|
    ensures LastSeen(run + more, n, key) == LastSeen(run, n, key)
  {
    if n > 0 {
      assert ReachesWindow(run + more, n - 1, key) == ReachesWindow(run, n - 1, key) by {
        ReachesWindowOfPrefix(run, more, n - 1, key);
      }
      LastSeenOfPrefix(run, more, n - 1, key);
      assert (run + more)[n - 1] == run[n - 1];
    }
  }

  lemma {:induction false} NeverSeen(run: seq<Visit>, n: nat, key: string)
    requires n <= |run|
    ensures LastSeen(run, n, key) == None <==> forall j | 0 <= j < n :: !ReachesWindow(run, j, key)
  {
    if n > 0 { NeverSeen(run, n - 1, key); }
  }

  /** Let through by the window although an earlier arrival of its key is within it. */
  predicate WronglyAdmitted(run: seq<Visit>, i: nat)
    requires i < |run|
  {
    && ReachesWindow(run, i, run[i].windowKey) && DecisionAt(run, i).reason != "rule_duplicate_window"
    && Shadowed(run, i)
  }

  /** Some arrival of the key has a later reading than the one that took the lock last. */
  predicate Overtaken(run: seq<Visit>, key: string) {
    var last := LastSeen(run, |run|, key);
    last.Some? && exists j: nat | j < |run| :: ReachesWindow(run, j, key) && run[j].now.nanos > last.value
  }

  /** An arrival under a rule with a window. */
  function WindowVisit(rule: RuleConfig, rateKey: string, key: string, nanos: int): Visit {
    Visit(Some(rule), rateKey, key, "", Instant(nanos))
  }

  /** The rule's limit, if it has one, leaves room for one more in the second of this reading. */
  predicate HasRoom(run: seq<Visit>, rule: RuleConfig, rateKey: string, c: int) {
    rule.rateLimitPerSecond <= 0 ||
    RateTrail(run, |run|, rateKey, Instant(c).Unix()) < rule.rateLimitPerSecond
  }

  /** A reading past the window of the arrival that took the lock last, within that of another, and with room. */
  predicate Slips(run: seq<Visit>, rule: RuleConfig, rateKey: string, key: string, c: int) {
    var last, window := LastSeen(run, |run|, key), rule.dedupWindowSeconds * NANOS_PER_SECOND;
    && HasRoom(run, rule, rateKey, c) && last.Some? && c - last.value > window
    && exists j: nat | j < |run| :: ReachesWindow(run, j, key) && c - run[j].now.nanos <= window
  }

  lemma RoomForNext(run: seq<Visit>, rule: RuleConfig, rateKey: string, key: string, c: int)
    ensures WithinRate(run + [WindowVisit(rule, rateKey, key, c)], |run|) <==> HasRoom(run, rule, rateKey, c)
  {
    var v := WindowVisit(rule, rateKey, key, c);
    RateSecondsOfPrefix(run, [v], |run|, rateKey);
    RateTrailStep(run + [v], |run| + 1, rateKey, v.now.Unix());
  }

  lemma NextIsShadowedIff(run: seq<Visit>, rule: RuleConfig, rateKey: string, key: string, c: int)
    requires rule.dedupWindowSeconds > 0
    ensures WronglyAdmitted(run + [WindowVisit(rule, rateKey, key, c)], |run|) <==> Slips(run, rule, rateKey, key, c)
  {
    var v := WindowVisit(rule, rateKey, key, c);
    var whole, n, window := run + [v], |run|, rule.dedupWindowSeconds * NANOS_PER_SECOND;
    RoomForNext(run, rule, rateKey, key, c);
    LastSeenOfPrefix(run, [v], n, key);
    NeverSeen(run, n, key);
    assert DecisionAt(whole, n).reason == "rule_duplicate_window" <==> WithinRate(whole, n) && !Novel(whole, n) by {
      ReasonsNameTheGate(whole, n);
    }
    forall j: nat | j < n
      ensures Shadows(whole, j, n) <==> ReachesWindow(run, j, key) && c - run[j].now.nanos <= window
    {
      ReachesWindowOfPrefix(run, [v], j, key);
    }
  }

  /** Exactly when the order of the clock matters to the window: after any run, some next arrival of the key is let
      through although it is shadowed, if and only if some reading slips between the arrival that took the lock last
      and one it overtook, in a second with room. Without a rate limit that is, if there was any overtaking. */
  lemma ClockOrderMattersIff(run: seq<Visit>, rule: RuleConfig, rateKey: string, key: string)
    requires rule.dedupWindowSeconds > 0
    ensures (exists c :: WronglyAdmitted(run + [WindowVisit(rule, rateKey, key, c)], |run|)) <==>
            exists c :: Slips(run, rule, rateKey, key, c)
    ensures (exists c :: WronglyAdmitted(run + [WindowVisit(rule, rateKey, key, c)], |run|)) ==> Overtaken(run, key)
    ensures rule.rateLimitPerSecond <= 0 && Overtaken(run, key) ==>
              exists c :: WronglyAdmitted(run + [WindowVisit(rule, rateKey, key, c)], |run|)
  {
    var window := rule.dedupWindowSeconds * NANOS_PER_SECOND;
    forall c
      ensures WronglyAdmitted(run + [WindowVisit(rule, rateKey, key, c)], |run|) <==> Slips(run, rule, rateKey, key, c)
    {
      NextIsShadowedIff(run, rule, rateKey, key, c);
    }
    if c :| Slips(run, rule, rateKey, key, c) {
      assert WronglyAdmitted(run + [WindowVisit(rule, rateKey, key, c)], |run|);
    }
    if rule.rateLimitPerSecond <= 0 && Overtaken(run, key) {
      var c := LastSeen(run, |run|, key).value + window + 1;
      assert Slips(run, rule, rateKey, key, c);
    }
  }

  /** The clock is read before the state lock is taken, and it can be set back. Whatever the window, after two
      arrivals in the order of the lock a third can be let through wrongly if and only if the second has the
      earlier reading. */
  lemma LateClockReadingAdmitsDuplicate(rule: RuleConfig, key: string, a: int, b: int)
    requires rule.dedupWindowSeconds > 0 && rule.rateLimitPerSecond <= 0
    ensures var two := [WindowVisit(rule, "", key, a), WindowVisit(rule, "", key, b)];
            (exists c :: WronglyAdmitted(two + [WindowVisit(rule, "", key, c)], 2)) <==> b < a
  {
    var two := [WindowVisit(rule, "", key, a), WindowVisit(rule, "", key, b)];
    ClockOrderMattersIff(two, rule, "", key);
    assert ReachesWindow(two, 0, key) && ReachesWindow(two, 1, key);
    assert LastSeen(two, 2, key) == Some(b);
  }

  /** Let through by the rate limit although it is past the limit-th of its key in its second. */
  predicate WronglyPassed(run: seq<Visit>, i: nat)
    requires i < |run|
  {
    && RateLimited(run[i]) && DecisionAt(run, i).reason != "rule_rate_limit"
    && RateArrivals(run, i + 1, run[i].rateKey, run[i].now.Unix()) > run[i].rule.value.rateLimitPerSecond
  }

  /** After an arrival in this second came one of the same key in another. */
  predicate Interrupted(run: seq<Visit>, n: nat, key: string, sec: int)
    requires n <= |run|
  {
    exists p: nat, q: nat | p < q < n ::
      ArrivesIn(run[p], key, sec) && RateLimited(run[q]) && run[q].rateKey == key && run[q].now.Unix() != sec
  }

  lemma {:induction false} SomeArrived(run: seq<Visit>, n: nat, key: string, sec: int)
    requires n <= |run|
    ensures RateArrivals(run, n, key, sec) > 0 <==> exists p | 0 <= p < n :: ArrivesIn(run[p], key, sec)
  {
    if n > 0 { SomeArrived(run, n - 1, key, sec); }
  }

  lemma {:induction false} TrailShortIff(run: seq<Visit>, n: nat, key: string, sec: int)
    requires n <= |run|
    ensures RateTrail(run, n, key, sec) <= RateArrivals(run, n, key, sec)
    ensures RateTrail(run, n, key, sec) < RateArrivals(run, n, key, sec) <==> Interrupted(run, n, key, sec)
  {
    if n > 0 {
      var v := run[n - 1];
      TrailShortIff(run, n - 1, key, sec);
      RateTrailStep(run, n, key, sec);
      if RateLimited(v) && v.rateKey == key && v.now.Unix() != sec {
        SomeArrived(run, n - 1, key, sec);
        if RateArrivals(run, n - 1, key, sec) > 0 {
          var p: nat :| p < n - 1 && ArrivesIn(run[p], key, sec);
          assert Interrupted(run, n, key, sec);
        }
      } else if Interrupted(run, n - 1, key, sec) {
        assert Interrupted(run, n, key, sec);
      }
    }
  }

  /** Exactly when the order of the clock matters to the rate limit: an arrival passes wrongly if and only if past the
      limit-th of its second, with those since the last arrival of its key in another second still within the limit.
      That takes an interruption. */
  lemma SecondsOrderMattersIff(run: seq<Visit>, i: nat)
    requires i < |run| && RateLimited(run[i])
    ensures var key, sec, limit := run[i].rateKey, run[i].now.Unix(), run[i].rule.value.rateLimitPerSecond;
            && (WronglyPassed(run, i) <==>
                RateTrail(run, i + 1, key, sec) <= limit < RateArrivals(run, i + 1, key, sec))
            && (WronglyPassed(run, i) ==> Interrupted(run, i + 1, key, sec))
  {
    assert DecisionAt(run, i).reason == "rule_rate_limit" <==> !WithinRate(run, i) by { ReasonsNameTheGate(run, i); }
    TrailShortIff(run, i + 1, run[i].rateKey, run[i].now.Unix());
  }

  function Alternating(v: Visit, w: Visit, n: nat): seq<Visit> {
    seq(n, i => if i % 2 == 0 then v else w)
  }

  lemma {:induction false} AlternatingCount(v: Visit, w: Visit, n: nat, m: nat)
    requires RateLimited(v) && RateLimited(w) && v.rateKey == w.rateKey && v.now.Unix() != w.now.Unix() && m <= n
    ensures RateArrivals(Alternating(v, w, n), m, v.rateKey, v.now.Unix()) == (m + 1) / 2
  {
    if m > 0 { AlternatingCount(v, w, n, m - 1); }
  }

  /** An arrival just after one of its key in another second, or the first of all, is not refused for rate. */
  lemma StartsCountAnew(run: seq<Visit>, i: nat)
    requires i < |run| && RateLimited(run[i])
    requires i > 0 ==> RateLimited(run[i - 1]) && run[i - 1].rateKey == run[i].rateKey
                       && run[i - 1].now.Unix() != run[i].now.Unix()
    ensures DecisionAt(run, i).reason != "rule_rate_limit"
  {
    var key, sec := run[i].rateKey, run[i].now.Unix();
    RateTrailStep(run, i + 1, key, sec);
    if i == 0 {
      assert RateSeconds(run, 0, key) == [];
    } else {
      RateTrailStep(run, i, key, sec);
    }
    assert DecisionAt(run, i).reason == "rule_rate_limit" <==> !WithinRate(run, i) by { ReasonsNameTheGate(run, i); }
  }

  /** With readings that alternate between two seconds no number of arrivals is ever over any limit: each starts the
      count anew, although half of them fall in one second. */
  lemma AlternatingPassesAll(v: Visit, w: Visit, n: nat, i: nat)
    requires RateLimited(v) && RateLimited(w) && v.rateKey == w.rateKey && v.now.Unix() != w.now.Unix() && i < n
    ensures DecisionAt(Alternating(v, w, n), i).reason != "rule_rate_limit"
    ensures RateArrivals(Alternating(v, w, n), n, v.rateKey, v.now.Unix()) == (n + 1) / 2
  {
    AlternatingCount(v, w, n, n);
    StartsCountAnew(Alternating(v, w, n), i);
  }

  // ----- sampling -----------------------------------------------------------

  function SampleKept(run: seq<Visit>, n: nat, key: string): nat
    requires n <= |run|
  {
    if n == 0 then 0
    else SampleKept(run, n - 1, key) +
         (if ReachesSampler(run, n - 1, key) && DecisionAt(run, n - 1).reason == "rule_sample_keep" then 1 else 0)
  }

  /** ceil(n / k), and n itself when k is 1. */
  function Quota(k: int, n: nat): int
    requires k >= 1
  {
    (n + k - 1) / k
  }

  lemma QuotaStep(k: int, n: nat)
    requires k >= 1
    ensures Quota(k, 0) == 0
    ensures Quota(k, n + 1) == Quota(k, n) + if KeptAt(k, n + 1) then 1 else 0
  {
    var q, r := (n + k - 1) / k, (n + k - 1) % k;
    assert n + k - 1 == q * k + r;
    QuotientUnique(k - 1, k, 0, k - 1);
    if r == k - 1 {
      QuotientUnique(n + k, k, q + 1, 0);
      QuotientUnique(n, k, q, 0);
      if k > 1 { QuotientUnique(n + 1, k, q, 1); }
    } else {
      QuotientUnique(n + k, k, q, r + 1);
      assert n + 1 == (q - 1) * k + (r + 2);
      if r + 2 < k {
        QuotientUnique(n + 1, k, q - 1, r + 2);
      } else {
        assert (q - 1) * k + k == q * k;
        QuotientUnique(n + 1, k, q, 0);
      }
    }
  }

  lemma QuotientUnique(x: int, k: int, q: int, r: int)
    requires k >= 1 && x == q * k + r && 0 <= r < k
    ensures x / k == q && x % k == r
  {
    var q', r' := x / k, x % k;
    assert x == q' * k + r';
    OnlyZeroMultiple(q - q', k, r' - r);
  }

  lemma OnlyZeroMultiple(d: int, k: int, diff: int)
    requires d * k == diff && -k < diff < k
    ensures d == 0
  {
    MultipleSize(d, k);
  }

  lemma MultipleSize(d: int, k: int)
    requires k >= 0
    ensures d >= 1 ==> d * k >= k
    ensures d <= -1 ==> d * k <= -k
  {
    if d >= 1 { assert (d - 1) * k >= 0; }
    if d <= -1 { assert (-d - 1) * k >= 0; }
  }

  /** What one more visit adds to the arrivals at the sampler and to those kept. */
  lemma SamplerStep(run: seq<Visit>, n: nat, key: string, k: int)
    requires n < |run| && k >= 1 && (ReachesSampler(run, n, key) ==> KeepEvery(run[n].rule.value) == k)
    ensures var m := SampleArrivals(run, n, key);
            && SampleArrivals(run, n + 1, key) == m + One(ReachesSampler(run, n, key))
            && SampleKept(run, n + 1, key) ==
               SampleKept(run, n, key) + One(ReachesSampler(run, n, key) && KeptAt(k, m + 1))
  {
    ReasonsNameTheGate(run, n);
  }

  lemma QuotaFollows(k: int, kept: int, arrivals: nat, reached: bool)
    requires k >= 1 && kept == Quota(k, arrivals)
    ensures kept + One(reached && KeptAt(k, arrivals + 1)) == Quota(k, arrivals + One(reached))
  {
    QuotaStep(k, arrivals);
  }

  /** n arrivals of a sample key keep exactly ceil(n / k): the first and then every k-th. */
  lemma {:induction false} SamplerKeepsExactly(run: seq<Visit>, n: nat, key: string, k: int)
    requires n <= |run| && k >= 1
    requires forall i | 0 <= i < n && ReachesSampler(run, i, key) :: KeepEvery(run[i].rule.value) == k
    ensures SampleKept(run, n, key) == Quota(k, SampleArrivals(run, n, key))
  {
    if n == 0 {
      QuotaStep(k, 0);
    } else {
      SamplerKeepsExactly(run, n - 1, key, k);
      SamplerStep(run, n - 1, key, k);
      QuotaFollows(k, SampleKept(run, n - 1, key), SampleArrivals(run, n - 1, key), ReachesSampler(run, n - 1, key));
    }
  }

  /** Of n arrivals at least the share `rate` is kept, and at most one more than every k-th. */
  predicate FairShare(rate: real, n: nat, kept: int) {
    kept as real >= rate * n as real && kept * SampleToKeepEvery(rate) < n + SampleToKeepEvery(rate)
  }

  lemma SampledShare(rate: real, n: nat)
    requires 0.0 < rate <= 1.0
    ensures FairShare(rate, n, Quota(SampleToKeepEvery(rate), n))
  {
    var k := SampleToKeepEvery(rate);
    var q, r := (n + k - 1) / k, (n + k - 1) % k;
    assert q * k + r == n + k - 1;
    assert n <= q * k;
    KeepEveryUnderReciprocal(rate);
    assert q >= 0;
    ScaleLeft(n as real, (q * k) as real, rate);
    assert (q * k) as real * rate == q as real * (k as real * rate);
    ScaleLeft(k as real * rate, 1.0, q as real);
  }

  /** Over any run whose arrivals at a sample key share one rate in (0, 1], a fair share of them is kept. */
  lemma SampledRunShare(run: seq<Visit>, n: nat, key: string, rate: real)
    requires n <= |run| && 0.0 < rate <= 1.0
    requires forall i | 0 <= i < n && ReachesSampler(run, i, key) :: run[i].rule.value.sampleRate == rate
    ensures FairShare(rate, SampleArrivals(run, n, key), SampleKept(run, n, key))
  {
    assert forall i | 0 <= i < n && ReachesSampler(run, i, key) ::
        KeepEvery(run[i].rule.value) == SampleToKeepEvery(rate);
    SamplerKeepsExactly(run, n, key, SampleToKeepEvery(rate));
    SampledShare(rate, SampleArrivals(run, n, key));
  }

  lemma KeepEveryUnderReciprocal(rate: real)
    requires 0.0 < rate <= 1.0
    ensures var k := SampleToKeepEvery(rate) as real;
            k * rate <= 1.0 < k * rate + rate
  {
    if rate < 1.0 {
      Reciprocal(rate);
      var x := 1.0 / rate;
      FloorStraddles(x, x.Floor as real, rate);
    }
  }

  lemma Reciprocal(rate: real)
    requires rate > 0.0
    ensures (1.0 / rate) * rate == 1.0
  {
  }

  lemma FloorStraddles(x: real, k: real, rate: real)
    requires rate > 0.0 && x * rate == 1.0 && k <= x < k + 1.0
    ensures k * rate <= 1.0 < k * rate + rate
  {
    assert k * rate <= x * rate by { ScaleLeft(k, x, rate); }
    AboveReciprocal(x, k, rate);
  }

  lemma AboveReciprocal(x: real, k: real, rate: real)
    requires rate > 0.0 && x * rate == 1.0 && x < k + 1.0
    ensures 1.0 < k * rate + rate
  {
    var rest := k + 1.0 - x;
    ScaleStrictly(0.0, rest, rate);
    assert 0.0 < rest * rate;
    assert rest * rate == (k + 1.0) * rate - x * rate;
    assert (k + 1.0) * rate == k * rate + 1.0 * rate;
    assert 1.0 * rate == rate;
  }

  lemma ScaleStrictly(a: real, b: real, c: real)
    requires a < b && c > 0.0
    ensures a * c < b * c
  {
    assert (b - a) * c > 0.0;
  }

  /** Truncating the reciprocal means every positive rate above one half keeps everything,
      and no other rate does; a non-positive rate stands for one in ten. */
  lemma KeepsEverything(rule: RuleConfig)
    ensures (forall ordinal: int :: KeptAt(KeepEvery(rule), ordinal)) <==> rule.sampleRate > 0.5
    ensures rule.sampleRate <= 0.0 ==> KeepEvery(rule) == 10
  {
    var k := KeepEvery(rule);
    assert k > 1 ==> !KeptAt(k, 0);
    if rule.sampleRate <= 0.0 {
      assert 1.0 / 0.1 == 10.0;
    } else if rule.sampleRate <= 1.0 {
      KeepEveryUnderReciprocal(rule.sampleRate);
      if k == 1 {
        assert 2.0 * rule.sampleRate > 1.0;
      } else {
        ScaleLeft(2.0, k as real, rule.sampleRate);
      }
    }
  }

  // ----- what decisions look like -------------------------------------------

  lemma OnlySamplingMarks()
    ensures !Contains("rule_rate_limit", "sample") && !Contains("rule_duplicate_window", "sample")
    ensures Contains("rule_sample_drop", "sample")
  {
    forall h, i | h in {"rule_rate_limit", "rule_duplicate_window"} && 0 <= i <= |h|
      ensures !OccursAt(h, "sample", i)
    {
      if i + 6 <= |h| { assert h[i..i + 6][0] == h[i] != 's'; }
    }
    assert OccursAt("rule_sample_drop", "sample", 5);
  }

  /** An event is marked as sampled, be it kept or dropped, exactly when it came to the sampler. */
  lemma SampledMeansAtSampler(run: seq<Visit>, i: nat)
    requires i < |run|
    ensures DecisionAt(run, i).sampled <==> ReachesSampler(run, i, run[i].sampleKey)
  {
    DecisionsFollowHistory(run, i);
    OnlySamplingMarks();
  }

  /** What a drop may still do: it is never forwarded; it is stored exactly when a drop rule says so, and shown only
      if stored. */
  lemma DropsAreQuiet(v: Visit, st: GateState)
    ensures var d := Decide(v, st).1;
            && (d.drop ==> !d.forward)
            && (d.drop && d.store <==> d.reason == "rule_drop" && v.rule.Some? && v.rule.value.storeLocally)
            && (d.drop && d.show ==> d.store)
  {
    if v.rule.Some? { ReasonsDiffer(v.rule.value); }
    assert |"rule_drop"| == |"rule_keep"| == 9 && "rule_drop"[5] != "rule_keep"[5];
    assert |"rule_rate_limit"| == |"rule_store_only"| == 15 && |"rule_duplicate_window"| == 21
        && |"rule_sample_keep"| == |"rule_sample_drop"| == 16 && |"rule_forward_only"| == 17
        && |"rule_store_and_forward"| == 22 && |"default_store_only"| == 18;
  }

  // ----- keys and rules -----------------------------------------------------

  predicate DistinctIds(rules: seq<RuleConfig>) {
    && (forall i | 0 <= i < |rules| :: '|' !in rules[i].id)
    && (forall i, j | 0 <= i < j < |rules| :: rules[i].id != rules[j].id)
  }

  /** Under one list of distinct bar-free ids a gate's key belongs to one rule, so the common limit and
      the common sampling step asked for above are that rule's. */
  lemma KeyFixesTheRule(rules: seq<RuleConfig>, r1: RuleConfig, r2: RuleConfig, e1: Event, e2: Event)
    requires DistinctIds(rules) && r1 in rules && r2 in rules
    requires || RateKey(r1, e1) == RateKey(r2, e2)
             || DedupKey(r1, e1) == DedupKey(r2, e2)
             || SampleKey(r1, e1) == SampleKey(r2, e2)
    ensures r1 == r2
  {
    if RateKey(r1, e1) == RateKey(r2, e2) {
      JoinPrefixInjective([r1.id, SourceOf(e1)], [r2.id, SourceOf(e2)], 1);
      assert [r1.id, SourceOf(e1)][..1][0] == [r2.id, SourceOf(e2)][..1][0];
    } else if DedupKey(r1, e1) == DedupKey(r2, e2) {
      JoinPrefixInjective(DedupFields(r1, e1), DedupFields(r2, e2), 1);
      assert DedupFields(r1, e1)[..1][0] == DedupFields(r2, e2)[..1][0];
    } else {
      JoinPrefixInjective(SampleFields(r1, e1), SampleFields(r2, e2), 1);
      assert SampleFields(r1, e1)[..1][0] == SampleFields(r2, e2)[..1][0];
    }
  }

  predicate UnderOneList(run: seq<Arrival>, rules: seq<RuleConfig>) {
    DistinctIds(rules) && forall a | a in run :: a.rules == rules
  }

  lemma VisitsUseTheList(run: seq<Arrival>, rules: seq<RuleConfig>, i: nat)
    requires UnderOneList(run, rules) && i < |run| && Visits(run)[i].rule.Some?
    ensures var v := Visits(run)[i];
            v.rule.value in rules && v == VisitFor(v.rule.value, run[i].evt, run[i].now)
  {
    assert run[i] in run;
  }

  /** Over any run under one list of rules with distinct bar-free ids, of the arrivals at a rule's key within one
      second exactly min(arrivals, the rule's limit) pass. */
  lemma RuleRateIsExact(run: seq<Arrival>, rules: seq<RuleConfig>, rule: RuleConfig, evt: Event, n: nat, sec: int)
    requires UnderOneList(run, rules) && rule in rules && rule.rateLimitPerSecond > 0
    requires n <= |run| && SecondsInOrder(Visits(run))
    ensures var m := RateArrivals(Visits(run), n, RateKey(rule, evt), sec);
            RatePassed(Visits(run), n, RateKey(rule, evt), sec) ==
            if m <= rule.rateLimitPerSecond then m else rule.rateLimitPerSecond
  {
    var vs, key := Visits(run), RateKey(rule, evt);
    forall i | 0 <= i < n && ArrivesIn(vs[i], key, sec)
      ensures vs[i].rule.value.rateLimitPerSecond == rule.rateLimitPerSecond
    {
      VisitsUseTheList(run, rules, i);
      KeyFixesTheRule(rules, vs[i].rule.value, rule, run[i].evt, evt);
    }
    RateGateIsExact(vs, n, key, sec, rule.rateLimitPerSecond);
  }

  /** And of the arrivals at a rule's sample key exactly ceil(arrivals / k) are kept, k being the rule's own step,
      which for a rate in (0, 1] is a fair share. */
  lemma RuleSampleIsExact(run: seq<Arrival>, rules: seq<RuleConfig>, rule: RuleConfig, evt: Event, n: nat)
    requires UnderOneList(run, rules) && rule in rules && n <= |run|
    ensures var arrivals := SampleArrivals(Visits(run), n, SampleKey(rule, evt));
            var kept := SampleKept(Visits(run), n, SampleKey(rule, evt));
            && kept == Quota(KeepEvery(rule), arrivals)
            && (0.0 < rule.sampleRate <= 1.0 ==> FairShare(rule.sampleRate, arrivals, kept))
  {
    var vs, key := Visits(run), SampleKey(rule, evt);
    forall i | 0 <= i < n && ReachesSampler(vs, i, key)
      ensures vs[i].rule.value == rule
    {
      VisitsUseTheList(run, rules, i);
      KeyFixesTheRule(rules, vs[i].rule.value, rule, run[i].evt, evt);
    }
    SamplerKeepsExactly(vs, n, key, KeepEvery(rule));
    if 0.0 < rule.sampleRate <= 1.0 {
      SampledShare(rule.sampleRate, SampleArrivals(vs, n, key));
    }
  }
}
