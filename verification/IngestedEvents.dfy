/** What an ingestion makes of the event that comes in, and where that goes. */
module IngestedEvents {
  import opened Events
  import opened Sums
  import opened Text
  import opened TextMeaning
  import opened Filter
  import FilterTrials
  import opened Jsonl
  import opened Statistics
  import opened Streaming
  import opened Forwarding
  import opened Processing
  import opened DecisionTags

  /** The tags the collector writes. */
  const OWN_TAGS := {"ingestion_path", "collector_decision", "collector_decision_hint", "decision_reason",
                     "siem_index_hint", "splunk_sourcetype", "matched_rule_id", "forwarding_status"}

  predicate SameTag(a: map<string, string>, b: map<string, string>, k: string) {
    (k in a <==> k in b) && (k in a ==> a[k] == b[k])
  }

  lemma OwnTagsDiffer()
    ensures |"ingestion_path"| == 14 && |"collector_decision"| == 18 && |"collector_decision_hint"| == 23
    ensures |"decision_reason"| == 15 == |"siem_index_hint"| == |"matched_rule_id"|
    ensures "decision_reason"[0] == 'd' && "siem_index_hint"[0] == 's' && "matched_rule_id"[0] == 'm'
    ensures |"splunk_sourcetype"| == 17 == |"forwarding_status"|
    ensures "splunk_sourcetype"[0] == 's' && "forwarding_status"[0] == 'f'
  {
  }

  /** Of the event that is appended, published and enqueued: the source type is the normal form of the one that came
      in; what came in blank of id, times, zone and protocol is filled in; everything else is as it came in, the tags
      too, but for the collector's own. */
  lemma IngestedEvent(fx: Fixed, rules: seq<RuleConfig>, s: State, inp: Input)
    ensures var e, evt := inp.evt, EffectAt(fx, rules, s, inp).verdict.evt;
            && evt.sourceType == NormalizeSourceType(e.sourceType)
            && evt.id == (if e.id != "" then e.id else inp.newId)
            && evt.receivedAt == (if e.receivedAt != "" then e.receivedAt else inp.nowText)
            && evt.timestamp == (if e.timestamp != "" then e.timestamp else evt.receivedAt)
            && evt.zone == (if e.zone != "" then e.zone else fx.zone)
            && evt.protocol == (if e.protocol != "" then e.protocol else "json")
            && evt.assetName == e.assetName && evt.assetIp == e.assetIp && evt.severity == e.severity
            && evt.category == e.category && evt.message == e.message && evt.raw == e.raw
            && forall k | k !in OWN_TAGS :: SameTag(evt.tags, e.tags, k)
  {
  }

  /** The index type goes by the source type: its own name under `labshock:ot`, with three exceptions. */
  predicate RoutedAs(sourceType: string, route: string) {
    if sourceType in {"opcua", "scada", "plc", "ids", "ews", "vault"} then route == "labshock:ot:" + sourceType
    else if sourceType == "firewall" then route == "labshock:net:firewall"
    else if sourceType == "gds_agent" then route == "labshock:ot:gds"
    else if sourceType == "scada_gds_client" then route == "labshock:ot:scada:gds"
    else route == "labshock:ot:unknown"
  }

  lemma SourcesRouted(sourceType: string)
    ensures RoutedAs(sourceType, SplunkSourcetype(sourceType))
  {
    assert |"opcua"| == 5 && |"scada"| == 5 && |"plc"| == 3 && |"ids"| == 3 && |"ews"| == 3 && |"vault"| == 5;
    assert |"firewall"| == 8 && |"gds_agent"| == 9 && |"scada_gds_client"| == 16;
  }

  /** The rule engine's raw decision. */
  predicate HintTells(hint: string, d: Decision) {
    && hint in {"drop", "store_forward", "forward_only", "store_only"}
    && (hint == "drop" <==> d.drop)
    && (hint == "store_forward" <==> !d.drop && d.store && d.forward)
    && (hint == "forward_only" <==> !d.drop && !d.store && d.forward)
  }

  lemma HintsTell(d: Decision)
    ensures HintTells(DecisionHint(d), d)
  {
    assert |"drop"| == 4 && |"store_forward"| == 13 && |"forward_only"| == 12 && |"store_only"| == 10;
  }

  lemma EnrichWrites(e: Event, path: string, d: Decision, willForward: bool)
    ensures var evt := Enrich(e, path, d, willForward);
            && evt.Tag("ingestion_path") == path && evt.Tag("collector_decision_hint") == DecisionHint(d)
            && evt.Tag("decision_reason") == d.reason && evt.Tag("siem_index_hint") == "ot_security"
            && evt.Tag("splunk_sourcetype") == SplunkSourcetype(e.sourceType) && evt.sourceType == e.sourceType
  {
    OwnTagsDiffer();
  }

  lemma EnrichMayWrite(e: Event, path: string, d: Decision, willForward: bool)
    ensures var evt := Enrich(e, path, d, willForward);
            && (if d.matchedRuleId != "" then evt.Tag("matched_rule_id") == d.matchedRuleId
                else SameTag(evt.tags, e.tags, "matched_rule_id"))
            && (if willForward then evt.Tag("forwarding_status") == "queued"
                else SameTag(evt.tags, e.tags, "forwarding_status"))
  {
    OwnTagsDiffer();
  }

  /** And what the collector's own tags say. */
  lemma OwnTags(fx: Fixed, rules: seq<RuleConfig>, s: State, inp: Input)
    ensures var v, e := EffectAt(fx, rules, s, inp).verdict, inp.evt;
            var d, evt := v.decision, v.evt;
            && evt.Tag("ingestion_path") == inp.path
            && HintTells(evt.Tag("collector_decision_hint"), d)
            && evt.Tag("decision_reason") == d.reason
            && evt.Tag("siem_index_hint") == "ot_security"
            && RoutedAs(evt.sourceType, evt.Tag("splunk_sourcetype"))
            && (if d.matchedRuleId != "" then evt.Tag("matched_rule_id") == d.matchedRuleId
                else SameTag(evt.tags, e.tags, "matched_rule_id"))
            && (if !d.drop && d.forward && inp.forwardingOn then evt.Tag("forwarding_status") == "queued"
                else SameTag(evt.tags, e.tags, "forwarding_status"))
  {
    var v, e := Judge(fx.zone, rules, s.gate, inp), Prepare(fx.zone, inp);
    EnrichWrites(e, inp.path, v.decision, v.willForward);
    EnrichMayWrite(e, inp.path, v.decision, v.willForward);
    HintsTell(v.decision);
    SourcesRouted(e.sourceType);
  }

  // ----- where it goes --------------------------------------------------------------

  /** The rule's action is this one, in whatever case. */
  predicate Orders(r: RuleConfig, action: string) {
    SameText(r.action, action)
  }

  /** The two actions that store do; the one that only forwards does not; any other leaves it to the rule's flag. */
  predicate Stores(r: RuleConfig) {
    || Orders(r, "store_only") || Orders(r, "store_and_forward")
    || (!Orders(r, "forward_only") && r.storeLocally)
  }

  predicate Forwards(r: RuleConfig) {
    || Orders(r, "forward_only") || Orders(r, "store_and_forward")
    || (!Orders(r, "drop") && !Orders(r, "store_only") && r.forwardToDmz)
  }

  /** A rule shows what it stores unless it says not to. */
  predicate Shows(r: RuleConfig) {
    r.showInUi != Some(false)
  }

  lemma ActionsByText(r: RuleConfig)
    ensures forall a | a in {"drop", "store_only", "forward_only", "store_and_forward", "sample"} ::
              ToLower(r.action) == a <==> Orders(r, a)
  {
    forall a | a in {"drop", "store_only", "forward_only", "store_and_forward", "sample"}
      ensures ToLower(r.action) == a <==> Orders(r, a)
    {
      EqualFoldIff(r.action, a);
      assert ToLower(a) == a;
    }
  }

  lemma ActionsAreFive()
    ensures |"drop"| == 4 && |"store_only"| == 10 && |"forward_only"| == 12 && |"store_and_forward"| == 17
         && |"sample"| == 6
  {
  }

  lemma LetThroughDecision(r: RuleConfig)
    ensures var d := if IsSample(r) then SampleKeep(r) else ActionDecision(r);
            && (d.drop <==> Orders(r, "drop"))
            && (d.store <==> Stores(r)) && (!d.drop && d.forward <==> Forwards(r))
            && (d.store ==> (d.show <==> Shows(r)))
  {
    ActionsByText(r);
    ActionsAreFive();
    SayOne(r);
  }

  lemma SayOne(r: RuleConfig)
    ensures Orders(r, "drop") ==> |r.action| == 4
    ensures Orders(r, "store_only") ==> |r.action| == 10
    ensures Orders(r, "forward_only") ==> |r.action| == 12
    ensures Orders(r, "store_and_forward") ==> |r.action| == 17
    ensures Orders(r, "sample") ==> |r.action| == 6
  {
  }

  /** The reason names the action, or says that the rule keeps. */
  lemma ReasonNamesAction(r: RuleConfig)
    ensures var d := if IsSample(r) then SampleKeep(r) else ActionDecision(r);
            && d.matchedRuleId == r.id
            && (forall a | a in {"drop", "store_only", "forward_only", "store_and_forward"} ::
                  Orders(r, a) ==> d.reason == "rule_" + a)
            && (Orders(r, "sample") ==> d.reason == "rule_sample_keep")
            && (Orders(r, "drop") || Orders(r, "store_only") || Orders(r, "forward_only")
                || Orders(r, "store_and_forward") || Orders(r, "sample") || d.reason == "rule_keep")
  {
    ActionsByText(r);
    ActionsAreFive();
    SayOne(r);
    assert "rule_" + "drop" == "rule_drop" && "rule_" + "store_only" == "rule_store_only";
    assert "rule_" + "forward_only" == "rule_forward_only";
    assert "rule_" + "store_and_forward" == "rule_store_and_forward";
  }

  /** The event selects a rule whose gates let it through. */
  predicate GetsThrough(fx: Fixed, rules: seq<RuleConfig>, s: State, inp: Input) {
    var e := Prepare(fx.zone, inp);
    var i := FirstMatch(rules, e);
    i < |rules| && GatesPass(VisitFor(rules[i], e, inp.now), s.gate)
  }

  function RuleFor(fx: Fixed, rules: seq<RuleConfig>, inp: Input): Option<RuleConfig> {
    var i := FirstMatch(rules, Prepare(fx.zone, inp));
    if i < |rules| then Some(rules[i]) else None
  }

  lemma GatesDecide(v: Visit, st: GateState)
    requires v.rule.Some?
    ensures var d, rule := Decide(v, st).1, v.rule.value;
            if GatesPass(v, st) then d == if IsSample(rule) then SampleKeep(rule) else ActionDecision(rule)
            else d.drop && !d.store && !d.forward && !d.show
  {
    ThroughTheGates(v, st);
    FilterTrials.DecisionIsTold(v, st);
  }

  /** What the decision on a visit lets be stored, shown and forwarded. */
  lemma DecisionAllows(v: Visit, st: GateState)
    ensures var d, rule := Decide(v, st).1, v.rule;
            && (rule == None ==> d.store && d.show && !d.forward && !d.drop)
            && (rule.Some? && !GatesPass(v, st) ==> !d.store && d.drop)
            && (rule.Some? && GatesPass(v, st) ==>
                  && (d.store <==> Stores(rule.value)) && (!d.drop && d.forward <==> Forwards(rule.value))
                  && (d.store ==> (d.show <==> Shows(rule.value))))
  {
    if v.rule.Some? {
      GatesDecide(v, st);
      LetThroughDecision(v.rule.value);
    }
  }

  /** What becomes of an event, by its rule: without one it is stored and shown; refused by a gate it goes nowhere;
      let through it is appended if the rule stores and the write goes through, shown if appended and the rule shows,
      and enqueued if the rule forwards, forwarding is on and there is room. */
  lemma WhatBecomesOfIt(fx: Fixed, rules: seq<RuleConfig>, s: State, inp: Input)
    requires fx.codec.Lawful()
    ensures var eff, rule := EffectAt(fx, rules, s, inp), RuleFor(fx, rules, inp);
            var wrote, room := WroteAll(fx, eff, inp.io), |s.tasks| < fx.capacity;
            && (rule == None ==> (eff.appended <==> wrote) && (eff.published <==> eff.appended) && !eff.enqueued)
            && (rule.Some? && !GetsThrough(fx, rules, s, inp) ==> !eff.appended && !eff.published && !eff.enqueued)
            && (GetsThrough(fx, rules, s, inp) ==>
                  && (eff.appended <==> Stores(rule.value) && wrote)
                  && (eff.published <==> eff.appended && Shows(rule.value))
                  && (eff.enqueued <==> Forwards(rule.value) && inp.forwardingOn && room))
  {
    var v := Resolve(rules, Prepare(fx.zone, inp), inp.now);
    FateOf(fx, Judge(fx.zone, rules, s.gate, inp), s, inp.io);
    DecisionAllows(v, s.gate);
  }

  lemma AppendedRecord(c: Codec, file: Option<Bytes>, e: Event, io: AppendIo)
    requires c.Lawful()
    ensures var (after, ok) := AfterAppend(c, file, e, io);
            ok ==> Contents(after) == Contents(file) + c.Record(e)
  {
    assert c.Framed(c.encode(e));
  }

  /** It is this one event that is appended, shown and enqueued, each at most once. */
  lemma OneEventGoesOut(fx: Fixed, rules: seq<RuleConfig>, s: State, inp: Input)
    requires fx.codec.Lawful()
    ensures var eff, after := EffectAt(fx, rules, s, inp), Ingested(fx, rules, s, inp);
            var evt := eff.verdict.evt;
            && (eff.appended ==> Contents(after.file) == Contents(s.file) + fx.codec.Record(evt))
            && after.hub == (if eff.published then Published(s.hub, evt) else s.hub)
            && after.tasks == if eff.enqueued then s.tasks + [ForwardTask(evt, inp.path, inp.enqueuedAt)] else s.tasks
  {
    var v := Judge(fx.zone, rules, s.gate, inp);
    AppendedRecord(fx.codec, s.file, v.evt, inp.io);
    assert Ingested(fx, rules, s, inp) == Carried(s, EffectOf(fx, v, s, inp.io), inp);
  }

  /** And it is this event that the statistics count when it is stored. */
  lemma StoredEventIsCounted(fx: Fixed, rules: seq<RuleConfig>, s: State, inp: Input)
    requires EffectAt(fx, rules, s, inp).appended && !EffectAt(fx, rules, s, inp).verdict.decision.drop
    ensures var evt, m := EffectAt(fx, rules, s, inp).verdict.evt, s.stats.maps;
            var after := Ingested(fx, rules, s, inp).stats;
            && after.maps.bySeverity == Inc(m.bySeverity, evt.severity)
            && after.maps.bySourceType == Inc(m.bySourceType, evt.sourceType)
            && after.maps.byCategory == Inc(m.byCategory, evt.category)
            && after.maps.byAsset == Inc(m.byAsset, evt.assetName)
            && after.maps.timeline == Inc(m.timeline, inp.bucket)
            && after.others.lastEventAt == evt.receivedAt
  {
    var eff := EffectAt(fx, rules, s, inp);
    var evt, d := eff.verdict.evt, eff.verdict.decision;
    var decided := Decided(DecisionLabel(d, eff.verdict.willForward), d.matchedRuleId, d.sampled);
    var stored := Stored(evt, inp.bucket, inp.sec);
    OpsApply(s.stats, decided, stored);
    UpdatesMaps(s.stats, decided, stored);
  }

  lemma UpdatesMaps(st: StatsView, decided: StatOp, stored: StatOp)
    requires decided.Decided? && stored.Stored?
    ensures var m, after := st.maps, Update(Update(st, decided), stored);
            && after.maps.bySeverity == Inc(m.bySeverity, stored.e.severity)
            && after.maps.bySourceType == Inc(m.bySourceType, stored.e.sourceType)
            && after.maps.byCategory == Inc(m.byCategory, stored.e.category)
            && after.maps.byAsset == Inc(m.byAsset, stored.e.assetName)
            && after.maps.timeline == Inc(m.timeline, stored.bucket)
            && after.others.lastEventAt == stored.e.receivedAt
  {
    var m := st.maps;
    IncAllShort(m.bySeverity, stored.e.severity, "");
    IncAllShort(m.bySourceType, stored.e.sourceType, "");
    IncAllShort(m.byCategory, stored.e.category, "");
    IncAllShort(m.byAsset, stored.e.assetName, "");
    IncAllShort(m.timeline, stored.bucket, "");
  }
}
