/** Sanitising the rules does not change what the engine decides, and exactly when. */
module RuleSemantics {
  import opened Events
  import opened Text
  import opened Filter
  import opened FilterIsolation
  import opened Rules

  lemma StarIsWild(v: string)
    ensures MatchField("", v) && MatchField("*", v)
  {
    assert ToLower("*") == "*" && ToLower("") == "";
    assert TrimLeft("*") == "*" && TrimRight("*") == "*" && TrimSpace("") == "";
    assert DashToUnderscore("*") == "*" && DashToUnderscore("") == "";
  }

  lemma OrStarMatchesSame(r: string, v: string)
    ensures MatchField(OrStar(r), v) == MatchField(r, v)
  {
    StarIsWild(v);
  }

  lemma TagMatchesSame(r: RuleConfig, evt: Event)
    ensures MatchTag(SanitizeRule(r), evt) == MatchTag(r, evt)
  {
    assert TrimSpace("") == "" && TrimLeft("*") == "*" && TrimRight("*") == "*";
  }

  lemma MatchesSame(r: RuleConfig, evt: Event)
    ensures Matches(SanitizeRule(r), evt) == Matches(r, evt)
  {
    OrStarMatchesSame(r.sourceType, evt.sourceType);
    OrStarMatchesSame(r.asset, evt.assetName);
    OrStarMatchesSame(r.asset, evt.assetIp);
    OrStarMatchesSame(r.category, evt.category);
    OrStarMatchesSame(r.severity, evt.severity);
    OrStarMatchesSame(r.operation, OperationFor(evt));
    OrStarMatchesSame(r.eventType, evt.Tag("event_type"));
    TagMatchesSame(r, evt);
  }

  lemma ActionSame(r: RuleConfig)
    ensures ActionDecision(SanitizeRule(r)) == ActionDecision(r)
    ensures IsSample(SanitizeRule(r)) == IsSample(r)
    ensures SampleKeep(SanitizeRule(r)) == SampleKeep(r)
  {
    if r.action == "" {
      assert |ToLower("")| == 0 && |ToLower("keep")| == 4 && ToLower("keep")[0] == 'k';
    }
  }

  /** The visit with its rule sanitised; the keys use nothing sanitising changes. */
  function SanitizedVisit(v: Visit): Visit {
    if v.rule == None then v else v.(rule := Some(SanitizeRule(v.rule.value)))
  }

  /** Sanitising turns a sampling rule's missing rate, one in ten to the engine, into keeping everything. */
  predicate RateKept(r: RuleConfig) {
    IsSample(r) ==> r.sampleRate > 0.0
  }

  lemma DecidesSame(v: Visit, st: GateState)
    requires v.rule.Some? ==> RateKept(v.rule.value)
    ensures Decide(SanitizedVisit(v), st) == Decide(v, st)
  {
    if v.rule.Some? {
      var r, w := v.rule.value, SanitizedVisit(v);
      ActionSame(r);
      assert RateGate(w, st) == RateGate(v, st);
      var (st1, within) := RateGate(v, st);
      if within {
        assert DedupGate(w, st1) == DedupGate(v, st1);
        assert KeepEvery(SanitizeRule(r)) == KeepEvery(r) || !IsSample(r);
        assert ActionGate(w, DedupGate(v, st1).0) == ActionGate(v, DedupGate(v, st1).0);
      }
    }
  }

  /** The rule the event selects, if any, has an id and, when it samples, a positive rate. */
  predicate HitSurvives(rules: seq<RuleConfig>, evt: Event) {
    var i := FirstMatch(rules, evt);
    i < |rules| ==> rules[i].id != "" && RateKept(rules[i])
  }

  lemma ResolveOfHit(rules: seq<RuleConfig>, evt: Event, now: Instant)
    requires HitSurvives(rules, evt)
    ensures var v := Resolve(rules, evt, now); v.rule.Some? ==> RateKept(v.rule.value)
  {
  }

  lemma SanitizeCons(r: RuleConfig, rest: seq<RuleConfig>)
    ensures Sanitize([r] + rest) == if r.id == "" then Sanitize(rest) else [SanitizeRule(r)] + Sanitize(rest)
  {
    SanitizeConcat([r], rest);
    SanitizeSingle(r);
    assert [] + Sanitize(rest) == Sanitize(rest);
  }

  lemma ResolveHits(r: RuleConfig, rest: seq<RuleConfig>, evt: Event, now: Instant)
    requires Matches(r, evt)
    ensures Resolve([r] + rest, evt, now) == VisitFor(r, evt, now)
  {
    assert ([r] + rest)[0] == r;
  }

  lemma ResolveSkips(r: RuleConfig, rest: seq<RuleConfig>, evt: Event, now: Instant)
    requires !Matches(r, evt)
    ensures Resolve([r] + rest, evt, now) == Resolve(rest, evt, now)
  {
    assert ([r] + rest)[0] == r && ([r] + rest)[1..] == rest;
  }

  lemma HitSame(r: RuleConfig, rest: seq<RuleConfig>, evt: Event, now: Instant)
    requires Matches(r, evt) && r.id != ""
    ensures Resolve(Sanitize([r] + rest), evt, now) == SanitizedVisit(Resolve([r] + rest, evt, now))
  {
    MatchesSame(r, evt);
    SanitizeCons(r, rest);
    ResolveHits(r, rest, evt, now);
    ResolveHits(SanitizeRule(r), Sanitize(rest), evt, now);
  }

  lemma SkipSame(r: RuleConfig, rest: seq<RuleConfig>, evt: Event, now: Instant)
    requires !Matches(r, evt)
    ensures Resolve([r] + rest, evt, now) == Resolve(rest, evt, now)
    ensures Resolve(Sanitize([r] + rest), evt, now) == Resolve(Sanitize(rest), evt, now)
  {
    MatchesSame(r, evt);
    SanitizeCons(r, rest);
    ResolveSkips(r, rest, evt, now);
    if r.id != "" { ResolveSkips(SanitizeRule(r), Sanitize(rest), evt, now); }
  }

  /** The rule the event selects, if any, has an id. */
  predicate HitNamed(rules: seq<RuleConfig>, evt: Event) {
    var i := FirstMatch(rules, evt);
    i < |rules| ==> rules[i].id != ""
  }

  lemma HitNamedCons(r: RuleConfig, rest: seq<RuleConfig>, evt: Event)
    ensures HitNamed([r] + rest, evt) <==> if Matches(r, evt) then r.id != "" else HitNamed(rest, evt)
  {
    assert ([r] + rest)[1..] == rest;
  }

  lemma SameCons(r: RuleConfig, rest: seq<RuleConfig>, evt: Event, now: Instant)
    requires HitNamed([r] + rest, evt)
    requires !Matches(r, evt) ==> Resolve(Sanitize(rest), evt, now) == SanitizedVisit(Resolve(rest, evt, now))
    ensures Resolve(Sanitize([r] + rest), evt, now) == SanitizedVisit(Resolve([r] + rest, evt, now))
  {
    HitNamedCons(r, rest, evt);
    if Matches(r, evt) {
      HitSame(r, rest, evt, now);
    } else {
      SkipSame(r, rest, evt, now);
    }
  }

  /** Whatever the other rules are like, the event selects the same rule under the same keys. */
  lemma {:induction false} ResolvesSame(rules: seq<RuleConfig>, evt: Event, now: Instant)
    requires HitNamed(rules, evt)
    ensures Resolve(Sanitize(rules), evt, now) == SanitizedVisit(Resolve(rules, evt, now))
  {
    if rules != [] {
      var r, rest := rules[0], rules[1..];
      assert rules == [r] + rest;
      HitNamedCons(r, rest, evt);
      if !Matches(r, evt) { ResolvesSame(rest, evt, now); }
      SameCons(r, rest, evt, now);
    }
  }

  function SanitizedRun(run: seq<Arrival>): seq<Arrival> {
    seq(|run|, i requires 0 <= i < |run| => run[i].(rules := Sanitize(run[i].rules)))
  }

  function Final(vs: seq<Visit>, st: GateState): GateState {
    if vs == [] then st else Final(vs[1..], Decide(vs[0], st).0)
  }

  lemma {:induction false} VisitsDecideSame(vs: seq<Visit>, ws: seq<Visit>, st: GateState)
    requires |vs| == |ws|
    requires forall i | 0 <= i < |vs| ::
               ws[i] == SanitizedVisit(vs[i]) && (vs[i].rule.Some? ==> RateKept(vs[i].rule.value))
    ensures Decisions(ws, st) == Decisions(vs, st)
    ensures Final(ws, st) == Final(vs, st)
  {
    if vs != [] {
      DecidesSame(vs[0], st);
      VisitsDecideSame(vs[1..], ws[1..], Decide(vs[0], st).0);
    }
  }

  /** From equal states, over any run and any clock, an engine on the rules and one on the sanitised rules
      make the same decisions and end in the same state, as long as the rules the events select survive. */
  lemma SanitizingPreservesRuns(run: seq<Arrival>, st: GateState)
    requires forall i | 0 <= i < |run| :: HitSurvives(run[i].rules, run[i].evt)
    ensures Decisions(Visits(SanitizedRun(run)), st) == Decisions(Visits(run), st)
    ensures Final(Visits(SanitizedRun(run)), st) == Final(Visits(run), st)
  {
    var vs, ws := Visits(run), Visits(SanitizedRun(run));
    forall i | 0 <= i < |run|
      ensures ws[i] == SanitizedVisit(vs[i]) && (vs[i].rule.Some? ==> RateKept(vs[i].rule.value))
    {
      ResolvesSame(run[i].rules, run[i].evt, run[i].now);
      ResolveOfHit(run[i].rules, run[i].evt, run[i].now);
    }
    VisitsDecideSame(vs, ws, st);
  }

  /** The list and what sanitising makes of it decide alike on this event, at any time and in any state. */
  ghost predicate SameFor(rules: seq<RuleConfig>, evt: Event) {
    forall now, st :: Decide(Resolve(Sanitize(rules), evt, now), st) == Decide(Resolve(rules, evt, now), st)
  }

  /** And so on every event. */
  ghost predicate KeepsMeaning(rules: seq<RuleConfig>) {
    forall evt :: SameFor(rules, evt)
  }

  lemma SanitizedAreNamed(rules: seq<RuleConfig>, evt: Event, now: Instant, st: GateState)
    ensures Decide(Resolve(Sanitize(rules), evt, now), st).1.matchedRuleId != ""
  {
    SanitizeCleans(rules);
    NamedIfRuleIs(Resolve(Sanitize(rules), evt, now), st);
  }

  lemma NamedIfRuleIs(v: Visit, st: GateState)
    ensures Decide(v, st).1.matchedRuleId == if v.rule == None then DEFAULT_RULE_ID else v.rule.value.id
    ensures DEFAULT_RULE_ID != ""
  {
    assert |DEFAULT_RULE_ID| == 18;
  }

  /** Event by event: sanitising changes nothing for it if and only if the rule it selects, if any, has an id and,
      when it samples, a positive rate. */
  lemma EventSurvivesIff(rules: seq<RuleConfig>, evt: Event)
    ensures SameFor(rules, evt) <==> HitSurvives(rules, evt)
  {
    var at := Instant(0);
    var v := Resolve(rules, evt, at);
    if HitSurvives(rules, evt) {
      forall now, st
        ensures Decide(Resolve(Sanitize(rules), evt, now), st) == Decide(Resolve(rules, evt, now), st)
      {
        ResolvesSame(rules, evt, now);
        ResolveOfHit(rules, evt, now);
        DecidesSame(Resolve(rules, evt, now), st);
      }
    } else if v.rule.value.id == "" {
      SanitizedAreNamed(rules, evt, at, NO_GATE_STATE);
      NamedIfRuleIs(v, NO_GATE_STATE);
      assert Decide(Resolve(Sanitize(rules), evt, at), NO_GATE_STATE) != Decide(v, NO_GATE_STATE);
    } else {
      ResolvesSame(rules, evt, at);
      SecondSampleDiffers(v);
      var st := GateState(map[], map[], map[v.sampleKey := 1]);
      assert Decide(Resolve(Sanitize(rules), evt, at), st) != Decide(v, st);
    }
  }

  /** Any list of rules keeps its meaning if and only if every rule that some event selects has an id and, when it
      samples, a positive rate. What no event reaches, shadowed or disabled or matching nothing, is of no account. */
  lemma RulesSurviveIff(rules: seq<RuleConfig>)
    ensures KeepsMeaning(rules) <==> forall evt :: HitSurvives(rules, evt)
  {
    forall evt
      ensures SameFor(rules, evt) <==> HitSurvives(rules, evt)
    {
      EventSurvivesIff(rules, evt);
    }
  }

  /** For a list of one rule that matches anything at all, that is the rule's own id and rate. */
  lemma RuleSurvivesIff(r: RuleConfig, e0: Event)
    ensures Matches(r, e0) ==> (KeepsMeaning([r]) <==> r.id != "" && RateKept(r))
  {
    RulesSurviveIff([r]);
    if Matches(r, e0) {
      assert FirstMatch([r], e0) == 0;
      assert HitSurvives([r], e0) <==> r.id != "" && RateKept(r);
    }
  }

  /** Two lists that lose their meaning: a sampling rule without a rate, one in ten to the engine and everything once
      sanitised, and a rule without an id, which sanitising leaves out. */
  lemma RatelessAndNamelessRulesDoNotSurvive()
    ensures !KeepsMeaning([RuleConfig(id := "r", enabled := true, action := "sample")])
    ensures !KeepsMeaning([RuleConfig(enabled := true)])
  {
    var rateless, nameless := RuleConfig(id := "r", enabled := true, action := "sample"), RuleConfig(enabled := true);
    assert ToLower("sample") == "sample";
    BlankFieldsMatch(rateless, Event());
    BlankFieldsMatch(nameless, Event());
    RuleSurvivesIff(rateless, Event());
    RuleSurvivesIff(nameless, Event());
  }

  /** With one earlier arrival counted, the default rate of one in ten drops what a rate of one keeps. */
  lemma SecondSampleDiffers(v: Visit)
    requires v.rule.Some? && !RateKept(v.rule.value)
    ensures var st := GateState(map[], map[], map[v.sampleKey := 1]);
            Decide(SanitizedVisit(v), st) != Decide(v, st)
  {
    var r, w := v.rule.value, SanitizedVisit(v);
    var st := GateState(map[], map[], map[v.sampleKey := 1]);
    var (st1, within) := RateGate(v, st);
    assert within && RateGate(w, st) == (st1, true) && st1.samples == st.samples && st1.dedup == map[];
    var (st2, novel) := DedupGate(v, st1);
    assert novel && DedupGate(w, st1) == (st2, true) && st2.samples == st.samples;
    ActionSame(r);
    assert KeepEvery(r) == 10 by { assert 1.0 / 0.1 == 10.0; }
    assert KeepEvery(SanitizeRule(r)) == 1;
    assert Decide(v, st) == ActionGate(v, st2) && Decide(w, st) == ActionGate(w, st2);
    assert ActionGate(v, st2).1.drop && !ActionGate(w, st2).1.drop;
  }
}
