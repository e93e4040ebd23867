/** The rule engine: first-match selection followed by the rate, duplicate and sampling gates. */
module Filter {
  import opened Events
  import opened Sums
  import opened Text

  datatype Decision = Decision(
    store: bool,
    forward: bool,
    show: bool,
    drop: bool,
    sampled: bool,
    matchedRuleId: string,
    reason: string)

  /** A reading of the wall clock, in nanoseconds since the epoch. Converting it to UTC strips the monotonic reading,
      so the rate gate, which takes the Unix second, and the duplicate window go by this one clock, and it can be
      set back. */
  datatype Instant = Instant(nanos: int) {
    function Unix(): int {
      nanos / NANOS_PER_SECOND
    }
  }

  datatype RateState = RateState(second: int, count: int)

  /** The three maps the gates keep, each under a joined string key. */
  datatype GateState = GateState(
    rates: map<string, RateState>,
    dedup: map<string, int>,
    samples: map<string, int>)

  const NO_GATE_STATE := GateState(map[], map[], map[])
  const NANOS_PER_SECOND := 1_000_000_000
  const DEFAULT_RULE_ID := "default-store-only"

  // ----- matching ---------------------------------------------------------

  function ComparableValue(v: string): string {
    var w := DashToUnderscore(TrimSpace(ToLower(v)));
    if w == "warn" then "warning" else w
  }

  predicate MatchField(ruleValue: string, eventValue: string) {
    var rv := ComparableValue(ruleValue);
    rv == "*" || rv == "" || rv == ComparableValue(eventValue)
  }

  function OperationFor(evt: Event): string {
    if evt.Tag("opcua_operation") != "" then ToUpper(evt.Tag("opcua_operation"))
    else ToUpper(evt.Tag("operation"))
  }

  predicate MessageContains(evt: Event, needle: string) {
    var n := ToLower(TrimSpace(needle));
    n == "" || n == "*" || Contains(ToLower(Join([evt.message, evt.raw], " ")), n)
  }

  predicate MatchTag(rule: RuleConfig, evt: Event) {
    var key := TrimSpace(rule.tagKey);
    key == "" || key == "*" || (key in evt.tags && MatchField(rule.tagValue, evt.tags[key]))
  }

  predicate Matches(rule: RuleConfig, evt: Event) {
    && rule.enabled
    && MatchField(rule.sourceType, evt.sourceType)
    && (MatchField(rule.asset, evt.assetName) || MatchField(rule.asset, evt.assetIp))
    && MatchField(rule.category, evt.category)
    && MatchField(rule.severity, evt.severity)
    && MatchField(rule.operation, OperationFor(evt))
    && MatchField(rule.eventType, evt.Tag("event_type"))
    && (rule.messageContains == "" || MessageContains(evt, rule.messageContains))
    && MatchTag(rule, evt)
  }

  /** A rule that asks for nothing matches everything. */
  lemma BlankFieldsMatch(rule: RuleConfig, evt: Event)
    requires rule.enabled && rule.sourceType == rule.asset == rule.category == rule.severity == ""
    requires rule.operation == rule.eventType == rule.messageContains == rule.tagKey == ""
    ensures Matches(rule, evt)
  {
    assert ComparableValue("") == "" by {
      assert ToLower("") == "" && TrimSpace("") == "" && DashToUnderscore("") == "";
    }
    assert TrimSpace("") == "";
  }

  /** The place of the first entry that meets p; the list's length when none does. */
  function FirstWhere<T>(s: seq<T>, p: T -> bool): (r: nat)
    ensures r <= |s|
  {
    if s == [] || p(s[0]) then 0 else 1 + FirstWhere(s[1..], p)
  }

  lemma {:induction false} FirstWhereIsFirst<T>(s: seq<T>, p: T -> bool)
    ensures var r := FirstWhere(s, p);
            && (r < |s| ==> p(s[r]))
            && (forall j | 0 <= j < r :: !p(s[j]))
  {
    if s != [] && !p(s[0]) {
      FirstWhereIsFirst(s[1..], p);
      var r := FirstWhere(s, p);
      forall j | 0 <= j < r
        ensures !p(s[j])
      {
        if j > 0 { assert s[j] == s[1..][j - 1]; }
      }
    }
  }

  function Selects(evt: Event): RuleConfig -> bool {
    (rule: RuleConfig) => Matches(rule, evt)
  }

  function FirstMatch(rules: seq<RuleConfig>, evt: Event): (r: nat)
    ensures r <= |rules|
  {
    FirstWhere(rules, Selects(evt))
  }

  /** The rule selected matches, and no earlier one does. */
  lemma FirstMatchIsFirst(rules: seq<RuleConfig>, evt: Event)
    ensures var r := FirstMatch(rules, evt);
            && (r < |rules| ==> Matches(rules[r], evt))
            && (forall j | 0 <= j < r :: !Matches(rules[j], evt))
  {
    var p := Selects(evt);
    FirstWhereIsFirst(rules, p);
    assert forall rule :: p(rule) == Matches(rule, evt);
  }

  // ----- keys -------------------------------------------------------------

  function SourceOf(evt: Event): string {
    if evt.assetIp != "" then evt.assetIp
    else if evt.assetName != "" then evt.assetName
    else evt.sourceType
  }

  function RateKey(rule: RuleConfig, evt: Event): string {
    Join([rule.id, SourceOf(evt)], "|")
  }

  lemma RateKeyParts(rule: RuleConfig, evt: Event)
    ensures RateKey(rule, evt) == rule.id + "|" + SourceOf(evt)
  {
    JoinStep([rule.id, SourceOf(evt)], "|");
  }

  function DedupFields(rule: RuleConfig, evt: Event): seq<string> {
    [rule.id, evt.assetIp, evt.assetName, evt.sourceType, evt.category, evt.severity,
     OperationFor(evt), evt.Tag("event_type"), evt.message]
  }

  function DedupKey(rule: RuleConfig, evt: Event): string {
    Join(DedupFields(rule, evt), "|")
  }

  function SampleFields(rule: RuleConfig, evt: Event): seq<string> {
    [rule.id, evt.assetIp, evt.assetName, evt.category, evt.message]
  }

  function SampleKey(rule: RuleConfig, evt: Event): string {
    Join(SampleFields(rule, evt), "|")
  }

  /** An evaluation resolved against the rules in force: the rule it matched, the keys its gates use, and
      when it was made. No gate reads anything else of the event. */
  datatype Visit = Visit(
    rule: Option<RuleConfig>,
    rateKey: string,
    windowKey: string,
    sampleKey: string,
    now: Instant)

  function VisitFor(rule: RuleConfig, evt: Event, now: Instant): Visit {
    Visit(Some(rule), RateKey(rule, evt), DedupKey(rule, evt), SampleKey(rule, evt), now)
  }

  function Resolve(rules: seq<RuleConfig>, evt: Event, now: Instant): Visit {
    var i := FirstMatch(rules, evt);
    if i == |rules| then Visit(None, "", "", "", now) else VisitFor(rules[i], evt, now)
  }

  /** An evaluation as it comes in: the rules then in force, the event and the clock reading. */
  datatype Arrival = Arrival(rules: seq<RuleConfig>, evt: Event, now: Instant)

  function VisitOf(a: Arrival): Visit {
    Resolve(a.rules, a.evt, a.now)
  }

  function Visits(run: seq<Arrival>): (vs: seq<Visit>)
    ensures |vs| == |run|
  {
    seq(|run|, i requires 0 <= i < |run| => VisitOf(run[i]))
  }

  // ----- gates ------------------------------------------------------------

  function DropDecision(reason: string, ruleId: string): Decision {
    Decision(false, false, false, true, Contains(reason, "sample"), ruleId, reason)
  }

  function SampleToKeepEvery(rate: real): (k: int)
    ensures k >= 1
  {
    if rate <= 0.0 then 10
    else if rate >= 1.0 then 1
    else FloorOfReciprocal(rate)
  }

  /** Go's `int(1 / rate)` for a rate strictly between 0 and 1. */
  function FloorOfReciprocal(rate: real): (k: int)
    requires 0.0 < rate < 1.0
    ensures k >= 1
  {
    ReciprocalBounds(rate);
    (1.0 / rate).Floor
  }

  lemma ReciprocalBounds(rate: real)
    requires 0.0 < rate < 1.0
    ensures 1.0 / rate > 1.0
  {
    var q := 1.0 / rate;
    assert q * rate == 1.0;
    if q <= 1.0 { ScaleLeft(q, 1.0, rate); }
  }

  lemma ScaleLeft(a: real, b: real, c: real)
    requires a <= b && c >= 0.0
    ensures a * c <= b * c
  {
    assert (b - a) * c >= 0.0;
  }

  function KeepEvery(rule: RuleConfig): (k: int)
    ensures k >= 1
  {
    SampleToKeepEvery(if rule.sampleRate <= 0.0 then 0.1 else rule.sampleRate)
  }

  predicate IsSample(rule: RuleConfig) {
    ToLower(rule.action) == "sample"
  }

  function RuleShowInUi(rule: RuleConfig): bool {
    rule.showInUi == None || rule.showInUi.value
  }

  /** The rate gate's new state; a missing key reads as second 0, count 0. */
  function RateStep(st: GateState, key: string, sec: int): RateState {
    var rs := if key in st.rates then st.rates[key] else RateState(0, 0);
    RateState(sec, (if rs.second == sec then rs.count else 0) + 1)
  }

  function RateGate(v: Visit, st: GateState): (GateState, bool)
    requires v.rule.Some?
  {
    var limit := v.rule.value.rateLimitPerSecond;
    if limit <= 0 then (st, true)
    else
      var rs := RateStep(st, v.rateKey, v.now.Unix());
      (st.(rates := st.rates[v.rateKey := rs]), rs.count <= limit)
  }

  /** The window slides: the key is stamped even when the event is a duplicate. */
  function DedupGate(v: Visit, st: GateState): (GateState, bool)
    requires v.rule.Some?
  {
    var window := v.rule.value.dedupWindowSeconds;
    if window <= 0 then (st, true)
    else
      var duplicate := v.windowKey in st.dedup && v.now.nanos - st.dedup[v.windowKey] <= window * NANOS_PER_SECOND;
      (st.(dedup := st.dedup[v.windowKey := v.now.nanos]), !duplicate)
  }

  /** What a rule with a fixed action decides once its gates let the event through. */
  function ActionDecision(rule: RuleConfig): Decision {
    var show := RuleShowInUi(rule);
    match ToLower(rule.action)
    case "drop" => Decision(rule.storeLocally, false, show && rule.storeLocally, true, false, rule.id, "rule_drop")
    case "forward_only" => Decision(false, true, show, false, false, rule.id, "rule_forward_only")
    case "store_only" => Decision(true, false, show, false, false, rule.id, "rule_store_only")
    case "store_and_forward" => Decision(true, true, show, false, false, rule.id, "rule_store_and_forward")
    case _ => Decision(rule.storeLocally, rule.forwardToDmz, show, false, false, rule.id, "rule_keep")
  }

  function SampleKeep(rule: RuleConfig): Decision {
    Decision(rule.storeLocally, rule.forwardToDmz, RuleShowInUi(rule), false, true, rule.id, "rule_sample_keep")
  }

  function KeptAt(k: int, ordinal: int): bool
    requires k >= 1
  {
    k <= 1 || ordinal % k == 1
  }

  function ActionGate(v: Visit, st: GateState): (GateState, Decision)
    requires v.rule.Some?
  {
    var rule := v.rule.value;
    if IsSample(rule) then
      var samples := Inc(st.samples, v.sampleKey);
      (st.(samples := samples),
       if KeptAt(KeepEvery(rule), samples[v.sampleKey]) then SampleKeep(rule)
       else DropDecision("rule_sample_drop", rule.id))
    else (st, ActionDecision(rule))
  }

  const DEFAULT_DECISION := Decision(true, false, true, false, false, DEFAULT_RULE_ID, "default_store_only")

  /** One evaluation: the rate gate, then the duplicate window, then the rule's action. */
  function Decide(v: Visit, st: GateState): (GateState, Decision) {
    if v.rule == None then (st, DEFAULT_DECISION)
    else
      var (st1, within) := RateGate(v, st);
      if !within then (st1, DropDecision("rule_rate_limit", v.rule.value.id))
      else
        var (st2, novel) := DedupGate(v, st1);
        if !novel then (st2, DropDecision("rule_duplicate_window", v.rule.value.id))
        else ActionGate(v, st2)
  }

  /** The reasons tell the outcomes apart. */
  lemma ReasonsDiffer(rule: RuleConfig)
    ensures ActionDecision(rule).reason !in
              {"rule_rate_limit", "rule_duplicate_window", "rule_sample_keep", "rule_sample_drop"}
    ensures DEFAULT_DECISION.reason !in
              {"rule_rate_limit", "rule_duplicate_window", "rule_sample_keep", "rule_sample_drop"}
    ensures "rule_sample_keep" != "rule_sample_drop"
  {
    assert |"rule_rate_limit"| == |"rule_store_only"| == 15 && |"rule_duplicate_window"| == 21;
    assert |"rule_sample_keep"| == |"rule_sample_drop"| == 16;
    assert |"rule_drop"| == |"rule_keep"| == 9 && |"rule_forward_only"| == 17
        && |"rule_store_and_forward"| == 22 && |"default_store_only"| == 18;
    assert "rule_store_only"[5] != "rule_rate_limit"[5] && "rule_sample_keep"[12] != "rule_sample_drop"[12];
  }

  // ----- the engine -------------------------------------------------------

  class Engine {
    var rules: seq<RuleConfig>
    var rateBySource: map<string, RateState>
    var dedupCache: map<string, int>
    var sampleCounts: map<string, int>

    function Gate(): GateState
      reads this
    {
      GateState(rateBySource, dedupCache, sampleCounts)
    }

    constructor ()
      ensures rules == [] && Gate() == NO_GATE_STATE
    {
      rules, rateBySource, dedupCache, sampleCounts := [], map[], map[], map[];
    }

    /** The gates keep their state across a change of rules. */
    method SetRules(rules: seq<RuleConfig>)
      modifies this`rules
      ensures this.rules == rules
    {
      this.rules := rules;
    }

    /** Counts the arrival; false when the rule's limit for this second is used up. */
    method CountArrival(rule: RuleConfig, evt: Event, now: Instant) returns (within: bool)
      modifies this`rateBySource
      ensures (Gate(), within) == RateGate(VisitFor(rule, evt, now), old(Gate()))
    {
      if rule.rateLimitPerSecond > 0 {
        var key := RateKey(rule, evt);
        var rs := if key in rateBySource then rateBySource[key] else RateState(0, 0);
        if rs.second != now.Unix() {
          rs := RateState(now.Unix(), 0);
        }
        rs := rs.(count := rs.count + 1);
        rateBySource := rateBySource[key := rs];
        if rs.count > rule.rateLimitPerSecond {
          return false;
        }
      }
      return true;
    }

    /** Stamps the key on every arrival, so the window slides; false for a duplicate. */
    method StampArrival(rule: RuleConfig, evt: Event, now: Instant) returns (novel: bool)
      modifies this`dedupCache
      ensures (Gate(), novel) == DedupGate(VisitFor(rule, evt, now), old(Gate()))
    {
      if rule.dedupWindowSeconds > 0 {
        var key := DedupKey(rule, evt);
        if key in dedupCache && now.nanos - dedupCache[key] <= rule.dedupWindowSeconds * NANOS_PER_SECOND {
          dedupCache := dedupCache[key := now.nanos];
          return false;
        }
        dedupCache := dedupCache[key := now.nanos];
      }
      return true;
    }

    method Act(rule: RuleConfig, evt: Event, ghost now: Instant) returns (d: Decision)
      modifies this`sampleCounts
      ensures (Gate(), d) == ActionGate(VisitFor(rule, evt, now), old(Gate()))
    {
      if !IsSample(rule) {
        return ActionDecision(rule);
      }
      var key := SampleKey(rule, evt);
      sampleCounts := sampleCounts[key := Get(sampleCounts, key) + 1];
      if KeptAt(KeepEvery(rule), sampleCounts[key]) {
        return SampleKeep(rule);
      }
      return DropDecision("rule_sample_drop", rule.id);
    }

    method FindRule(evt: Event) returns (i: nat)
      ensures i == FirstMatch(rules, evt)
    {
      FirstMatchIsFirst(rules, evt);
      i := 0;
      while i < |rules|
        invariant i <= FirstMatch(rules, evt)
      {
        if Matches(rules[i], evt) {
          return;
        }
        i := i + 1;
      }
    }

    method Evaluate(evt: Event, now: Instant) returns (d: Decision)
      modifies this`rateBySource, this`dedupCache, this`sampleCounts
      ensures (Gate(), d) == Decide(Resolve(rules, evt, now), old(Gate()))
    {
      var i := FindRule(evt);
      if i == |rules| {
        return DEFAULT_DECISION;
      }
      d := Pass(rules[i], evt, now);
    }

    method Pass(rule: RuleConfig, evt: Event, now: Instant) returns (d: Decision)
      modifies this`rateBySource, this`dedupCache, this`sampleCounts
      ensures (Gate(), d) == Decide(VisitFor(rule, evt, now), old(Gate()))
    {
      var within := CountArrival(rule, evt, now);
      if !within {
        return DropDecision("rule_rate_limit", rule.id);
      }
      var novel := StampArrival(rule, evt, now);
      if !novel {
        return DropDecision("rule_duplicate_window", rule.id);
      }
      d := Act(rule, evt, now);
    }
  }
}
