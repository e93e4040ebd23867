/** What the decision tag put on an event says of the event's fate. */
module DecisionTags {
  import opened Events
  import opened Sums
  import opened Text
  import opened Filter
  import opened FilterTrials
  import opened Jsonl
  import opened Statistics
  import opened Processing

  function TagOf(eff: Effect): string {
    eff.verdict.evt.Tag("collector_decision")
  }

  /** The write of this event went through. */
  predicate WroteAll(fx: Fixed, eff: Effect, io: AppendIo) {
    io.Wrote? && io.n >= |fx.codec.Record(eff.verdict.evt)|
  }

  lemma EnrichKeepsDecisionTag(e: Event, path: string, d: Decision, willForward: bool)
    ensures Enrich(e, path, d, willForward).Tag("collector_decision") == DecisionLabel(d, willForward)
  {
    assert |"collector_decision"| == 18 && |"collector_decision_hint"| == 23 && |"decision_reason"| == 15
        && |"siem_index_hint"| == 15 && |"splunk_sourcetype"| == 17 && |"matched_rule_id"| == 15
        && |"forwarding_status"| == 17;
  }

  lemma LabelsDiffer()
    ensures |"store_and_forward"| == 17 && |"forward_only"| == 12 && |"sample"| == 6 && |"store_only"| == 10
         && |"drop"| == 4
  {
  }

  /** The tag is the label, and the label is one of five. */
  lemma TagIsLabel(fx: Fixed, rules: seq<RuleConfig>, s: State, inp: Input)
    ensures var eff := EffectAt(fx, rules, s, inp);
            && TagOf(eff) == DecisionLabel(eff.verdict.decision, eff.verdict.willForward)
            && TagOf(eff) in {"drop", "store_and_forward", "forward_only", "sample", "store_only"}
  {
    var v := Judge(fx.zone, rules, s.gate, inp);
    EnrichKeepsDecisionTag(Prepare(fx.zone, inp), inp.path, v.decision, v.willForward);
  }

  /** What is written and what is enqueued, by decision and intent. */
  lemma FateOf(fx: Fixed, v: Verdict, s: State, io: AppendIo)
    requires fx.codec.Lawful()
    ensures var eff := EffectOf(fx, v, s, io);
            && (eff.appended <==> v.decision.store && WroteAll(fx, eff, io))
            && (eff.enqueued <==> v.willForward && |s.tasks| < fx.capacity)
  {
    assert fx.codec.Framed(fx.codec.encode(v.evt));
  }

  /** What each label says of decision and intent. */
  lemma LabelTells(d: Decision, willForward: bool)
    ensures var tag := DecisionLabel(d, willForward);
            && (tag == "drop" <==> d.drop)
            && (tag == "store_and_forward" ==> d.store && willForward)
            && (tag == "forward_only" ==> !d.store && willForward)
            && (tag == "sample" ==> d.store && !willForward && d.sampled)
            && (tag == "store_only" ==> !willForward && (d.store ==> !d.sampled))
  {
    LabelsDiffer();
  }

  /** Whatever becomes of the write and however full the queue is, what each tag says of an event's fate. Under
      `store_only` it depends on the decision whether the event is stored at all. */
  lemma TagTellsFate(fx: Fixed, rules: seq<RuleConfig>, s: State, inp: Input)
    requires fx.codec.Lawful()
    ensures var eff := EffectAt(fx, rules, s, inp);
            var d, tag, wrote, room :=
              eff.verdict.decision, TagOf(eff), WroteAll(fx, eff, inp.io), |s.tasks| < fx.capacity;
            && tag in {"drop", "store_and_forward", "forward_only", "sample", "store_only"}
            && (tag == "drop" <==> d.drop)
            && (tag == "drop" ==> (eff.appended <==> d.store && wrote) && !eff.enqueued)
            && (tag == "store_and_forward" ==> (eff.appended <==> wrote) && (eff.enqueued <==> room))
            && (tag == "forward_only" ==> !eff.appended && (eff.enqueued <==> room))
            && (tag == "sample" ==> (eff.appended <==> wrote) && !eff.enqueued && d.sampled)
            && (tag == "store_only" ==> (eff.appended <==> d.store && wrote) && !eff.enqueued)
            && (tag == "store_only" && d.store ==> !d.sampled)
  {
    var v := Judge(fx.zone, rules, s.gate, inp);
    TagIsLabel(fx, rules, s, inp);
    LabelTells(v.decision, v.willForward);
    FateOf(fx, v, s, inp.io);
    assert v.decision.drop ==> !v.willForward;
    LabelsDiffer();
  }

  /** With writes going through and room in the queue the fate can be read back to the tag. */
  lemma FateTellsTag(fx: Fixed, rules: seq<RuleConfig>, s: State, inp: Input)
    requires fx.codec.Lawful() && |s.tasks| < fx.capacity
    requires WroteAll(fx, EffectAt(fx, rules, s, inp), inp.io)
    ensures var eff := EffectAt(fx, rules, s, inp);
            var d, tag := eff.verdict.decision, TagOf(eff);
            && (tag == "store_and_forward" <==> !d.drop && eff.appended && eff.enqueued)
            && (tag == "forward_only" <==> !d.drop && !eff.appended && eff.enqueued)
            && (tag == "sample" <==> !d.drop && eff.appended && !eff.enqueued && d.sampled)
            && (tag == "store_only" && eff.appended <==> !d.drop && eff.appended && !eff.enqueued && !d.sampled)
            && (tag == "store_only" && !eff.appended <==> !d.drop && !eff.appended && !eff.enqueued)
  {
    TagTellsFate(fx, rules, s, inp);
    TagIsLabel(fx, rules, s, inp);
    LabelsDiffer();
  }

  // ----- the tag that misleads ------------------------------------------------------

  /** The event says `store_only`, but the decision is not to store it. */
  predicate StoreOnlyMisleads(eff: Effect) {
    TagOf(eff) == "store_only" && !eff.verdict.decision.store
  }

  /** The rule neither stores nor, forwarding being on or off as it is, forwards. */
  predicate LeavesNothing(rule: RuleConfig, forwardingOn: bool) {
    match ToLower(rule.action)
    case "drop" => false
    case "store_only" => false
    case "store_and_forward" => false
    case "forward_only" => !forwardingOn
    case _ => !rule.storeLocally && !(rule.forwardToDmz && forwardingOn)
  }

  /** The gates let the visit through: the second has room for it, no window shadows it, and the sampler, if its rule
      samples, is at a place that is kept. */
  predicate GatesPass(v: Visit, st: GateState) {
    && v.rule.Some? && PassesRate(v, st) && !InWindow(v, st)
    && (IsSample(v.rule.value) ==> KeptAt(KeepEvery(v.rule.value), Get(st.samples, v.sampleKey) + 1))
  }

  /** Exactly when: the gates let the event through, and the rule it selects forwards only, with forwarding off, or
      keeps or samples, does not store locally and does not get to forward. */
  lemma StoreOnlyMisleadsIff(fx: Fixed, rules: seq<RuleConfig>, s: State, inp: Input)
    ensures var eff, e := EffectAt(fx, rules, s, inp), Prepare(fx.zone, inp);
            var i := FirstMatch(rules, e);
            StoreOnlyMisleads(eff) <==>
            && i < |rules| && LeavesNothing(rules[i], inp.forwardingOn)
            && GatesPass(VisitFor(rules[i], e, inp.now), s.gate)
  {
    var v := Resolve(rules, Prepare(fx.zone, inp), inp.now);
    TagIsLabel(fx, rules, s, inp);
    LabelsDiffer();
    if v.rule.Some? { ThroughTheGates(v, s.gate); }
    ActionsDiffer();
  }

  lemma ActionsDiffer()
    ensures |"sample"| == 6 && |"drop"| == 4 && |"forward_only"| == 12 && |"store_only"| == 10
         && |"store_and_forward"| == 17
  {
  }

  /** What the gates let through, and nothing else, gets its rule's own action or is kept by the sampler. */
  lemma ThroughTheGates(v: Visit, st: GateState)
    requires v.rule.Some?
    ensures var d, rule := Decide(v, st).1, v.rule.value;
            if GatesPass(v, st) then d == if IsSample(rule) then SampleKeep(rule) else ActionDecision(rule)
            else d.drop
  {
    DecisionIsTold(v, st);
  }

  /** An event whose tag misleads leaves no trace but a decision count: it is not stored, shown or forwarded, and is
      not counted as dropped. */
  lemma MisledEventsVanish(fx: Fixed, rules: seq<RuleConfig>, s: State, inp: Input)
    requires StoreOnlyMisleads(EffectAt(fx, rules, s, inp))
    ensures var eff := EffectAt(fx, rules, s, inp);
            && eff.file == s.file && !eff.appended && !eff.published && !eff.enqueued
            && OpsOf(eff, inp) ==
               [Decided("store_only", eff.verdict.decision.matchedRuleId, eff.verdict.decision.sampled)]
  {
    TagIsLabel(fx, rules, s, inp);
    LabelsDiffer();
  }

  /** The plainest such rule: enabled, with the action `keep`, and nothing else said. Every event it selects is tagged
      `store_only` and vanishes. */
  lemma KeepRuleMisleads(fx: Fixed, s: State, inp: Input)
    ensures var rules := [RuleConfig(id := "r", enabled := true, action := "keep")];
            StoreOnlyMisleads(EffectAt(fx, rules, s, inp))
  {
    var rule := RuleConfig(id := "r", enabled := true, action := "keep");
    var e := Prepare(fx.zone, inp);
    BlankFieldsMatch(rule, e);
    assert FirstMatch([rule], e) == 0;
    assert ToLower("keep")[0] == 'k' && |ToLower("keep")| == 4;
    ActionsDiffer();
    assert LeavesNothing(rule, inp.forwardingOn) && GatesPass(VisitFor(rule, e, inp.now), s.gate);
    StoreOnlyMisleadsIff(fx, [rule], s, inp);
  }
}
