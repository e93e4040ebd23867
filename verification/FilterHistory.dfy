/** The gates told as history. A run lists the visits in the order they took the state lock, each resolved
    against the rules then in force, so rules may change at any point of a run.
    What the three maps decide is restated here in terms of earlier visits only. */
module FilterHistory {
  import opened Events
  import opened Sums
  import opened Text
  import opened Filter

  predicate RateLimited(v: Visit) {
    v.rule.Some? && v.rule.value.rateLimitPerSecond > 0
  }

  predicate Windowed(v: Visit) {
    v.rule.Some? && v.rule.value.dedupWindowSeconds > 0
  }

  predicate Sampled(v: Visit) {
    v.rule.Some? && IsSample(v.rule.value)
  }

  function Window(v: Visit): int
    requires v.rule.Some?
  {
    v.rule.value.dedupWindowSeconds * NANOS_PER_SECOND
  }

  // ----- the machine ------------------------------------------------------

  /** The engine's state after the first n visits of a run from a new engine. */
  function StateAfter(run: seq<Visit>, n: nat): GateState
    requires n <= |run|
  {
    if n == 0 then NO_GATE_STATE else Decide(run[n - 1], StateAfter(run, n - 1)).0
  }

  function DecisionAt(run: seq<Visit>, i: nat): Decision
    requires i < |run|
  {
    Decide(run[i], StateAfter(run, i)).1
  }

  // ----- history, with no assumption on the clock ---------------------------

  /** The seconds of the arrivals at a rate key. */
  function RateSeconds(run: seq<Visit>, n: nat, key: string): seq<int>
    requires n <= |run|
  {
    if n == 0 then []
    else if RateLimited(run[n - 1]) && run[n - 1].rateKey == key
    then RateSeconds(run, n - 1, key) + [run[n - 1].now.Unix()]
    else RateSeconds(run, n - 1, key)
  }

  /** How many of the latest arrivals at a rate key, without a break, fell in second sec. */
  function RateTrail(run: seq<Visit>, n: nat, key: string, sec: int): nat
    requires n <= |run|
  {
    Trail(RateSeconds(run, n, key), sec)
  }

  lemma RateTrailStep(run: seq<Visit>, n: nat, key: string, sec: int)
    requires 0 < n <= |run|
    ensures RateTrail(run, n, key, sec) ==
            if !RateLimited(run[n - 1]) || run[n - 1].rateKey != key then RateTrail(run, n - 1, key, sec)
            else if run[n - 1].now.Unix() == sec then RateTrail(run, n - 1, key, sec) + 1
            else 0
  {
    TrailSnoc(RateSeconds(run, n - 1, key), run[n - 1].now.Unix(), sec);
  }

  predicate WithinRate(run: seq<Visit>, i: nat)
    requires i < |run|
  {
    var v := run[i];
    && v.rule.Some?
    && (RateLimited(v) ==> RateTrail(run, i + 1, v.rateKey, v.now.Unix()) <= v.rule.value.rateLimitPerSecond)
  }

  /** Visit i comes to the duplicate window under this key. */
  predicate ReachesWindow(run: seq<Visit>, i: nat, key: string)
    requires i < |run|
  {
    WithinRate(run, i) && Windowed(run[i]) && run[i].windowKey == key
  }

  /** When the latest of the first n visits came to the window under this key. */
  function LastSeen(run: seq<Visit>, n: nat, key: string): Option<int>
    requires n <= |run|
  {
    if n == 0 then None
    else if ReachesWindow(run, n - 1, key) then Some(run[n - 1].now.nanos)
    else LastSeen(run, n - 1, key)
  }

  predicate Novel(run: seq<Visit>, i: nat)
    requires i < |run|
  {
    && WithinRate(run, i)
    && (Windowed(run[i]) ==>
          var last := LastSeen(run, i, run[i].windowKey);
          last == None || run[i].now.nanos - last.value > Window(run[i]))
  }

  /** Visit i comes to the sampler under this key. */
  predicate ReachesSampler(run: seq<Visit>, i: nat, key: string)
    requires i < |run|
  {
    Novel(run, i) && Sampled(run[i]) && run[i].sampleKey == key
  }

  function SampleArrivals(run: seq<Visit>, n: nat, key: string): nat
    requires n <= |run|
  {
    if n == 0 then 0
    else SampleArrivals(run, n - 1, key) + (if ReachesSampler(run, n - 1, key) then 1 else 0)
  }

  /** The decision read off the history alone. */
  function HistoryDecision(run: seq<Visit>, i: nat): Decision
    requires i < |run|
  {
    var v := run[i];
    if v.rule == None then DEFAULT_DECISION
    else
      var rule := v.rule.value;
      if !WithinRate(run, i) then DropDecision("rule_rate_limit", rule.id)
      else if !Novel(run, i) then DropDecision("rule_duplicate_window", rule.id)
      else if !IsSample(rule) then ActionDecision(rule)
      else if KeptAt(KeepEvery(rule), SampleArrivals(run, i + 1, v.sampleKey)) then SampleKeep(rule)
      else DropDecision("rule_sample_drop", rule.id)
  }

  // ----- the maps hold exactly that history ---------------------------------

  function CountFor(st: GateState, key: string, sec: int): int {
    if key in st.rates && st.rates[key].second == sec then st.rates[key].count else 0
  }

  ghost predicate RatesHold(run: seq<Visit>, n: nat, st: GateState)
    requires n <= |run|
  {
    forall key, sec :: CountFor(st, key, sec) == RateTrail(run, n, key, sec)
  }

  ghost predicate WindowHolds(run: seq<Visit>, n: nat, st: GateState)
    requires n <= |run|
  {
    forall key :: LastSeen(run, n, key) == if key in st.dedup then Some(st.dedup[key]) else None
  }

  ghost predicate SamplesHold(run: seq<Visit>, n: nat, st: GateState)
    requires n <= |run|
  {
    forall key :: Get(st.samples, key) == SampleArrivals(run, n, key)
  }

  ghost predicate HistoryHolds(run: seq<Visit>, n: nat, st: GateState)
    requires n <= |run|
  {
    RatesHold(run, n, st) && WindowHolds(run, n, st) && SamplesHold(run, n, st)
  }

  lemma RateGateHolds(run: seq<Visit>, i: nat, st: GateState)
    requires i < |run| && run[i].rule.Some? && RatesHold(run, i, st)
    ensures var (st', within) := RateGate(run[i], st);
            && RatesHold(run, i + 1, st')
            && within == WithinRate(run, i)
            && st'.dedup == st.dedup && st'.samples == st.samples
  {
    forall key, sec
      ensures CountFor(RateGate(run[i], st).0, key, sec) == RateTrail(run, i + 1, key, sec)
    {
      assert CountFor(st, key, sec) == RateTrail(run, i, key, sec);
      RateTrailStep(run, i + 1, key, sec);
    }
  }

  lemma DedupGateHolds(run: seq<Visit>, i: nat, st: GateState)
    requires i < |run| && WithinRate(run, i) && WindowHolds(run, i, st)
    ensures var (st', novel) := DedupGate(run[i], st);
            && WindowHolds(run, i + 1, st')
            && novel == Novel(run, i)
            && st'.rates == st.rates && st'.samples == st.samples
  {
  }

  lemma ActionGateHolds(run: seq<Visit>, i: nat, st: GateState)
    requires i < |run| && Novel(run, i) && SamplesHold(run, i, st)
    ensures var (st', d) := ActionGate(run[i], st);
            && SamplesHold(run, i + 1, st')
            && d == HistoryDecision(run, i)
            && st'.rates == st.rates && st'.dedup == st.dedup
  {
    var v := run[i];
    if Sampled(v) {
      assert Get(st.samples, v.sampleKey) == SampleArrivals(run, i, v.sampleKey);
      assert Inc(st.samples, v.sampleKey)[v.sampleKey] == SampleArrivals(run, i + 1, v.sampleKey);
    }
    forall key
      ensures Get(ActionGate(v, st).0.samples, key) == SampleArrivals(run, i + 1, key)
    {
      assert Get(st.samples, key) == SampleArrivals(run, i, key);
    }
  }

  lemma StepHolds(run: seq<Visit>, i: nat, st: GateState)
    requires i < |run| && HistoryHolds(run, i, st)
    ensures HistoryHolds(run, i + 1, Decide(run[i], st).0)
    ensures Decide(run[i], st).1 == HistoryDecision(run, i)
  {
    var v := run[i];
    if v.rule.Some? {
      RateGateHolds(run, i, st);
      var (st1, within) := RateGate(v, st);
      if within {
        DedupGateHolds(run, i, st1);
        var (st2, novel) := DedupGate(v, st1);
        if novel {
          ActionGateHolds(run, i, st2);
        }
      }
    }
  }

  lemma NothingHeldAtFirst(run: seq<Visit>)
    ensures HistoryHolds(run, 0, NO_GATE_STATE)
  {
    forall key, sec
      ensures CountFor(NO_GATE_STATE, key, sec) == RateTrail(run, 0, key, sec)
    {
    }
  }

  lemma HistoryGrows(run: seq<Visit>, i: nat)
    requires i < |run| && HistoryHolds(run, i, StateAfter(run, i))
    ensures HistoryHolds(run, i + 1, StateAfter(run, i + 1))
    ensures DecisionAt(run, i) == HistoryDecision(run, i)
  {
    var st := StateAfter(run, i);
    assert StateAfter(run, i + 1) == Decide(run[i], st).0;
    StepHolds(run, i, st);
  }

  /** Every run, every clock: the three maps hold exactly the history of the run. */
  lemma {:induction false} StateIsHistory(run: seq<Visit>, n: nat)
    requires n <= |run|
    ensures HistoryHolds(run, n, StateAfter(run, n))
  {
    if n == 0 {
      NothingHeldAtFirst(run);
    } else {
      StateIsHistory(run, n - 1);
      HistoryGrows(run, n - 1);
    }
  }

  /** Every run, every clock: each decision is the one history dictates. */
  lemma DecisionsFollowHistory(run: seq<Visit>, i: nat)
    requires i < |run|
    ensures DecisionAt(run, i) == HistoryDecision(run, i)
  {
    StateIsHistory(run, i);
    HistoryGrows(run, i);
  }

  /** The reason given tells which gate decided, and on what. */
  lemma ReasonsNameTheGate(run: seq<Visit>, i: nat)
    requires i < |run|
    ensures DecisionAt(run, i).reason == "rule_rate_limit" <==> run[i].rule.Some? && !WithinRate(run, i)
    ensures DecisionAt(run, i).reason == "rule_duplicate_window" <==> WithinRate(run, i) && !Novel(run, i)
    ensures DecisionAt(run, i).reason == "rule_sample_keep" <==>
            && Novel(run, i) && Sampled(run[i])
            && KeptAt(KeepEvery(run[i].rule.value), SampleArrivals(run, i + 1, run[i].sampleKey))
  {
    DecisionsFollowHistory(run, i);
    ReasonsDiffer(if run[i].rule.Some? then run[i].rule.value else RuleConfig());
    assert |"rule_rate_limit"| == 15 && |"rule_duplicate_window"| == 21 && |"rule_sample_keep"| == 16;
  }
}
