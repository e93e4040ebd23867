/** Trying an event out against the rules is an evaluation like any other. What that does to the event itself when it
    comes next, on an engine in any state it can be in. */
module FilterTrials {
  import opened Events
  import opened Sums
  import opened Filter
  import opened FilterHistory
  import opened FilterGates

  /** A trial and the event after it: the same rule and the same keys. */
  predicate Twins(v: Visit, w: Visit) {
    && v.rule.Some? && v.rule == w.rule
    && v.rateKey == w.rateKey && v.windowKey == w.windowKey && v.sampleKey == w.sampleKey
  }

  /** Nothing the state remembers is later than this reading. */
  predicate NotLater(st: GateState, now: Instant) {
    && (forall k | k in st.rates :: st.rates[k].second <= now.Unix())
    && (forall k | k in st.dedup :: st.dedup[k] <= now.nanos)
  }

  predicate PassesRate(v: Visit, st: GateState) {
    RateLimited(v) ==> CountFor(st, v.rateKey, v.now.Unix()) < v.rule.value.rateLimitPerSecond
  }

  /** The state has a stamp within the window of this visit. */
  predicate InWindow(v: Visit, st: GateState) {
    Windowed(v) && v.windowKey in st.dedup && v.now.nanos - st.dedup[v.windowKey] <= Window(v)
  }

  predicate ReachesSample(v: Visit, st: GateState) {
    PassesRate(v, st) && !InWindow(v, st) && Sampled(v)
  }

  /** The trial takes the last slot of the second. */
  predicate TakesLastSlot(v: Visit, w: Visit, st: GateState) {
    && RateLimited(v) && v.now.Unix() == w.now.Unix()
    && CountFor(st, v.rateKey, v.now.Unix()) == v.rule.value.rateLimitPerSecond - 1
  }

  /** The trial gets past the rate limit and starts a window for the event that nothing earlier had started. */
  predicate StartsWindow(v: Visit, w: Visit, st: GateState) {
    PassesRate(v, st) && Windowed(v) && w.now.nanos - v.now.nanos <= Window(v) && !InWindow(w, st)
  }

  /** The trial gets to the sampler and moves the event off a place that is kept, or on to one. */
  predicate TurnsSample(v: Visit, st: GateState) {
    && ReachesSample(v, st) && KeepEvery(v.rule.value) >= 2
    && var n, k := Get(st.samples, v.sampleKey), KeepEvery(v.rule.value);
       n % k == 0 || (n + 1) % k == 0
  }

  lemma CountForStep(st: GateState, key: string, sec: int)
    ensures RateStep(st, key, sec).count == CountFor(st, key, sec) + 1
  {
  }

  /** What one visit decides, told by what it passes. */
  function Told(v: Visit, st: GateState): Decision
    requires v.rule.Some?
  {
    var rule := v.rule.value;
    if !PassesRate(v, st) then DropDecision("rule_rate_limit", rule.id)
    else if InWindow(v, st) then DropDecision("rule_duplicate_window", rule.id)
    else if !Sampled(v) then ActionDecision(rule)
    else if KeptAt(KeepEvery(rule), Get(st.samples, v.sampleKey) + 1) then SampleKeep(rule)
    else DropDecision("rule_sample_drop", rule.id)
  }

  lemma DecisionIsTold(v: Visit, st: GateState)
    requires v.rule.Some?
    ensures Decide(v, st).1 == Told(v, st)
  {
    CountForStep(st, v.rateKey, v.now.Unix());
    var (s1, within) := RateGate(v, st);
    assert within <==> PassesRate(v, st);
    if within {
      var (s2, novel) := DedupGate(v, s1);
      assert novel <==> !InWindow(v, st);
    }
  }

  /** What the trial leaves behind for the event. */
  lemma TrialLeaves(v: Visit, w: Visit, st: GateState)
    requires Twins(v, w)
    ensures var after := Decide(v, st).0;
            && (RateLimited(v) ==>
                  CountFor(after, w.rateKey, w.now.Unix()) ==
                  if v.now.Unix() == w.now.Unix() then CountFor(st, v.rateKey, v.now.Unix()) + 1 else 0)
            && (Windowed(v) ==>
                  if PassesRate(v, st) then w.windowKey in after.dedup && after.dedup[w.windowKey] == v.now.nanos
                  else SameAt(after.dedup, st.dedup, w.windowKey))
            && Get(after.samples, w.sampleKey) == Get(st.samples, v.sampleKey) + One(ReachesSample(v, st))
  {
    CountForStep(st, v.rateKey, v.now.Unix());
    var (s1, within) := RateGate(v, st);
    if within {
      var (s2, novel) := DedupGate(v, s1);
      assert novel <==> !InWindow(v, st);
    }
  }

  /** For n arrivals before, whether the next is kept and whether the one after it is. */
  lemma KeptNext(k: int, n: int)
    requires k >= 2
    ensures KeptAt(k, n + 1) <==> n % k == 0
  {
    var q, r := n / k, n % k;
    assert n == q * k + r;
    if r + 1 < k {
      QuotientUnique(n + 1, k, q, r + 1);
    } else {
      assert (q + 1) * k == q * k + k;
      QuotientUnique(n + 1, k, q + 1, 0);
    }
  }

  lemma NotBothMultiples(k: int, n: int)
    requires k >= 2 && n % k == 0
    ensures (n + 1) % k == 1
  {
    var q := n / k;
    assert n + 1 == q * k + 1;
    QuotientUnique(n + 1, k, q, 1);
  }

  /** When one more arrival before it changes whether an arrival is kept. */
  lemma KeptTurns(k: int, n: int)
    requires k >= 1
    ensures KeptAt(k, n + 1) != KeptAt(k, n + 2) <==> k >= 2 && (n % k == 0 || (n + 1) % k == 0)
    ensures k >= 2 && (n % k == 0 || (n + 1) % k == 0) ==> (KeptAt(k, n + 2) <==> n % k != 0)
  {
    if k >= 2 {
      KeptNext(k, n);
      KeptNext(k, n + 1);
      if n % k == 0 { NotBothMultiples(k, n); }
    }
  }

  predicate LeftBy(v: Visit, w: Visit, st: GateState, after: GateState) {
    && Twins(v, w) && v.now.nanos <= w.now.nanos && v.now.Unix() <= w.now.Unix() && NotLater(st, v.now)
    && (RateLimited(v) ==>
          CountFor(after, w.rateKey, w.now.Unix()) ==
          if v.now.Unix() == w.now.Unix() then CountFor(st, v.rateKey, v.now.Unix()) + 1 else 0)
    && (Windowed(v) ==>
          if PassesRate(v, st) then w.windowKey in after.dedup && after.dedup[w.windowKey] == v.now.nanos
          else SameAt(after.dedup, st.dedup, w.windowKey))
    && Get(after.samples, w.sampleKey) == Get(st.samples, v.sampleKey) + One(ReachesSample(v, st))
  }

  lemma RatePart(v: Visit, w: Visit, st: GateState, after: GateState)
    requires LeftBy(v, w, st, after)
    ensures PassesRate(w, st) != PassesRate(w, after) <==> TakesLastSlot(v, w, st)
    ensures PassesRate(w, after) ==> PassesRate(w, st)
    ensures !PassesRate(w, st) ==> !PassesRate(v, st)
  {
  }

  lemma WindowPart(v: Visit, w: Visit, st: GateState, after: GateState)
    requires LeftBy(v, w, st, after) && PassesRate(w, st) && PassesRate(w, after)
    ensures InWindow(w, st) != InWindow(w, after) <==> StartsWindow(v, w, st)
    ensures InWindow(w, st) ==> InWindow(w, after) && !ReachesSample(v, st)
  {
  }

  lemma SamplePart(v: Visit, w: Visit, st: GateState, after: GateState)
    requires LeftBy(v, w, st, after) && Sampled(v)
    ensures var k, n, m := KeepEvery(w.rule.value), Get(st.samples, w.sampleKey), Get(after.samples, w.sampleKey);
            && (KeptAt(k, n + 1) != KeptAt(k, m + 1) <==> TurnsSample(v, st) && ReachesSample(v, st))
            && (TurnsSample(v, st) ==> (KeptAt(k, m + 1) <==> n % k != 0))
  {
    KeptTurns(KeepEvery(w.rule.value), Get(st.samples, w.sampleKey));
  }

  lemma OutcomesDiffer(rule: RuleConfig)
    ensures ActionDecision(rule).reason !in {"rule_rate_limit", "rule_duplicate_window", "rule_sample_drop"}
    ensures "rule_rate_limit" != "rule_duplicate_window" && "rule_sample_drop" != "rule_rate_limit"
    ensures "rule_sample_drop" != "rule_duplicate_window" && "rule_sample_keep" != "rule_sample_drop"
    ensures "rule_sample_keep" != "rule_rate_limit" && "rule_sample_keep" != "rule_duplicate_window"
  {
    ReasonsDiffer(rule);
    assert |"rule_rate_limit"| == 15 && |"rule_duplicate_window"| == 21 && |"rule_sample_drop"| == 16
        && |"rule_sample_keep"| == 16;
  }

  predicate Matters(v: Visit, w: Visit, st: GateState) {
    TakesLastSlot(v, w, st) || StartsWindow(v, w, st) || TurnsSample(v, st)
  }

  /** The same told of what the two visits pass. */
  lemma ToldDiffer(v: Visit, w: Visit, st: GateState, after: GateState)
    requires LeftBy(v, w, st, after)
    ensures Told(w, after) != Told(w, st) <==> Matters(v, w, st)
    ensures var rule := v.rule.value;
            Matters(v, w, st) ==>
            Told(w, after) ==
            if TakesLastSlot(v, w, st) then DropDecision("rule_rate_limit", rule.id)
            else if StartsWindow(v, w, st) then DropDecision("rule_duplicate_window", rule.id)
            else if Get(st.samples, v.sampleKey) % KeepEvery(rule) == 0 then DropDecision("rule_sample_drop", rule.id)
            else SampleKeep(rule)
  {
    RatePart(v, w, st, after);
    OutcomesDiffer(v.rule.value);
    if PassesRate(w, st) && PassesRate(w, after) {
      WindowPart(v, w, st, after);
      if !InWindow(w, st) && !InWindow(w, after) {
        if Sampled(v) { SamplePart(v, w, st, after); }
      }
    }
  }

  /** From any state that remembers nothing later than the trial, and with the event not read before the trial: the
      event is decided for otherwise than without the trial if and only if the trial takes the last slot of its
      second, starts a window it falls into, or turns its place at the sampler; and how. */
  lemma TrialMattersIff(v: Visit, w: Visit, st: GateState)
    requires Twins(v, w) && v.now.nanos <= w.now.nanos && NotLater(st, v.now)
    ensures Decide(w, Decide(v, st).0).1 != Decide(w, st).1 <==>
            Matters(v, w, st)
    ensures var rule := v.rule.value;
            Matters(v, w, st) ==>
            Decide(w, Decide(v, st).0).1 ==
            if TakesLastSlot(v, w, st) then DropDecision("rule_rate_limit", rule.id)
            else if StartsWindow(v, w, st) then DropDecision("rule_duplicate_window", rule.id)
            else if Get(st.samples, v.sampleKey) % KeepEvery(rule) == 0 then DropDecision("rule_sample_drop", rule.id)
            else SampleKeep(rule)
  {
    var after := Decide(v, st).0;
    assert LeftBy(v, w, st, after) by { TrialLeaves(v, w, st); }
    assert Decide(w, after).1 == Told(w, after) by { DecisionIsTold(w, after); }
    assert Decide(w, st).1 == Told(w, st) by { DecisionIsTold(w, st); }
    ToldDiffer(v, w, st, after);
  }

  // ----- over runs ----------------------------------------------------------------------

  lemma {:induction false} StateOfPrefix(run: seq<Visit>, more: seq<Visit>, n: nat)
    requires n <= |run|
    ensures StateAfter(run + more, n) == StateAfter(run, n)
  {
    if n > 0 { StateOfPrefix(run, more, n - 1); }
  }

  lemma VisitStaysNotLater(v: Visit, st: GateState, now: Instant)
    requires NotLater(st, now) && v.now.nanos <= now.nanos
    ensures NotLater(Decide(v, st).0, now)
  {
    assert v.now.Unix() <= now.Unix();
    if v.rule.Some? {
      var (s1, within) := RateGate(v, st);
      if within { var (s2, novel) := DedupGate(v, s1); }
    }
  }

  lemma {:induction false} RunStaysNotLater(run: seq<Visit>, n: nat, now: Instant)
    requires n <= |run| && forall j | 0 <= j < n :: run[j].now.nanos <= now.nanos
    ensures NotLater(StateAfter(run, n), now)
  {
    if n > 0 {
      RunStaysNotLater(run, n - 1, now);
      VisitStaysNotLater(run[n - 1], StateAfter(run, n - 1), now);
    }
  }

  /** The same event at two times, under the same rules, gives such twins, if any rule matches it at all. */
  lemma TrialsAreTwins(rules: seq<RuleConfig>, evt: Event, trial: Instant, at: Instant)
    ensures var v, w := Resolve(rules, evt, trial), Resolve(rules, evt, at);
            v.rule == w.rule && (v.rule.Some? ==> Twins(v, w))
  {
  }

  lemma LastTwoInOrder(run: seq<Visit>, v: Visit, w: Visit)
    requires ClockInOrder(run + [v, w])
    ensures v.now.nanos <= w.now.nanos && forall j | 0 <= j < |run| :: run[j].now.nanos <= v.now.nanos
  {
    var n, both := |run|, run + [v, w];
    assert both[n] == v && both[n + 1] == w;
    forall j | 0 <= j < n
      ensures run[j].now.nanos <= v.now.nanos
    {
      assert both[j] == run[j] && both[j].now.nanos <= both[n].now.nanos;
    }
  }

  lemma NextOne(run: seq<Visit>, v: Visit)
    ensures DecisionAt(run + [v], |run|) == Decide(v, StateAfter(run, |run|)).1
  {
    StateOfPrefix(run, [v], |run|);
  }

  lemma NextTwo(run: seq<Visit>, v: Visit, w: Visit)
    ensures DecisionAt(run + [v, w], |run| + 1) == Decide(w, Decide(v, StateAfter(run, |run|)).0).1
  {
    StateOfPrefix(run, [v, w], |run|);
    var both := run + [v, w];
    assert both[|run|] == v && both[|run| + 1] == w;
    assert StateAfter(both, |run| + 1) == Decide(v, StateAfter(run, |run|)).0;
  }

  lemma InOrderNotLater(run: seq<Visit>, v: Visit, w: Visit)
    requires ClockInOrder(run + [v, w])
    ensures v.now.nanos <= w.now.nanos && NotLater(StateAfter(run, |run|), v.now)
  {
    LastTwoInOrder(run, v, w);
    RunStaysNotLater(run, |run|, v.now);
  }

  /** After any run with the clock in order, under whatever rules: an event that is tried out and then comes is decided
      for otherwise than if it had come without the trial if and only if one of the three happens. */
  lemma TrialShadowsTheEvent(run: seq<Visit>, v: Visit, w: Visit)
    requires Twins(v, w) && ClockInOrder(run + [v, w])
    ensures var n, st := |run|, StateAfter(run, |run|);
            DecisionAt(run + [v, w], n + 1) != DecisionAt(run + [w], n) <==> Matters(v, w, st)
  {
    InOrderNotLater(run, v, w);
    NextTwo(run, v, w);
    NextOne(run, w);
    TrialMattersIff(v, w, StateAfter(run, |run|));
  }
}
