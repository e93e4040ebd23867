/** What any number of ingestions conserve. */
module ProcessingRuns {
  import opened Events
  import opened Sums
  import opened Filter
  import opened Jsonl
  import opened JsonlRuns
  import opened Statistics
  import opened Streaming
  import opened Forwarding
  import opened Processing

  /** An ingestion under the rules in force at the time. */
  datatype Turn = Turn(rules: seq<RuleConfig>, inp: Input)

  function After(fx: Fixed, s: State, turns: seq<Turn>): State {
    if turns == [] then s
    else
      var last := turns[|turns| - 1];
      Ingested(fx, last.rules, After(fx, s, turns[..|turns| - 1]), last.inp)
  }

  function Effects(fx: Fixed, s: State, turns: seq<Turn>): (effs: seq<Effect>)
    ensures |effs| == |turns|
  {
    if turns == [] then []
    else
      var front, last := turns[..|turns| - 1], turns[|turns| - 1];
      Effects(fx, s, front) + [EffectAt(fx, last.rules, After(fx, s, front), last.inp)]
  }

  function OpsRun(fx: Fixed, s: State, turns: seq<Turn>): seq<StatOp> {
    if turns == [] then []
    else
      var front, last := turns[..|turns| - 1], turns[|turns| - 1];
      OpsRun(fx, s, front) + OpsOf(EffectAt(fx, last.rules, After(fx, s, front), last.inp), last.inp)
  }

  lemma {:induction false} UpdateAllInTwo(s: StatsView, a: seq<StatOp>, b: seq<StatOp>)
    ensures UpdateAll(s, a + b) == UpdateAll(UpdateAll(s, a), b)
  {
    if b == [] {
      assert a + b == a;
    } else {
      assert (a + b)[..|a + b| - 1] == a + b[..|b| - 1];
      UpdateAllInTwo(s, a, b[..|b| - 1]);
    }
  }

  lemma {:induction false} StatsFollowOps(fx: Fixed, s: State, turns: seq<Turn>)
    ensures After(fx, s, turns).stats == UpdateAll(s.stats, OpsRun(fx, s, turns))
  {
    if turns != [] {
      var front, last := turns[..|turns| - 1], turns[|turns| - 1];
      StatsFollowOps(fx, s, front);
      var eff := EffectAt(fx, last.rules, After(fx, s, front), last.inp);
      UpdateAllInTwo(s.stats, OpsRun(fx, s, front), OpsOf(eff, last.inp));
    }
  }

  // ----- counting ---------------------------------------------------------------------

  function CountEffects(effs: seq<Effect>, p: Effect -> bool): nat {
    if effs == [] then 0 else CountEffects(effs[..|effs| - 1], p) + if p(effs[|effs| - 1]) then 1 else 0
  }

  predicate WasDropped(eff: Effect) { eff.verdict.decision.drop }
  predicate WasAppended(eff: Effect) { eff.appended }
  predicate WasNamed(eff: Effect) { eff.verdict.decision.matchedRuleId != "" }
  predicate WasSampled(eff: Effect) { eff.verdict.decision.sampled }
  predicate WasEnqueued(eff: Effect) { eff.enqueued }
  predicate WasStoredDrop(eff: Effect) { eff.verdict.decision.drop && eff.appended }

  /** What the engine guarantees of an update: a drop has a reason other than the word itself, and no other decision
      is recorded under that word. */
  predicate WellFormed(op: StatOp) {
    && (op.Dropped? ==> op.reason != "" && op.reason != "drop")
    && (op.Decided? ==> op.decision != "drop")
  }

  predicate AllWellFormed(ops: seq<StatOp>) {
    forall i | 0 <= i < |ops| :: WellFormed(ops[i])
  }

  predicate IsNamed(op: StatOp) { (op.Decided? || op.Dropped?) && op.ruleId != "" }

  lemma DecisionShape(v: Visit, st: GateState)
    ensures var d := Decide(v, st).1;
            && d.matchedRuleId == (if v.rule == None then DEFAULT_RULE_ID else v.rule.value.id)
            && (d.drop ==> d.reason != "" && d.reason != "drop")
  {
    assert |"rule_rate_limit"| == 15 && |"rule_duplicate_window"| == 21 && |"rule_sample_drop"| == 16
        && |"rule_drop"| == 9 && |"drop"| == 4;
  }

  lemma LabelShape(d: Decision, willForward: bool)
    requires !d.drop
    ensures DecisionLabel(d, willForward) != "drop"
  {
    assert |"store_and_forward"| == 17 && |"forward_only"| == 12 && |"sample"| == 6 && |"store_only"| == 10
        && |"drop"| == 4;
  }

  lemma OpsWellFormed(fx: Fixed, rules: seq<RuleConfig>, s: State, inp: Input)
    ensures AllWellFormed(OpsOf(EffectAt(fx, rules, s, inp), inp))
  {
    var v := Resolve(rules, Prepare(fx.zone, inp), inp.now);
    DecisionShape(v, s.gate);
    var d := Judge(fx.zone, rules, s.gate, inp).decision;
    if !d.drop { LabelShape(d, Judge(fx.zone, rules, s.gate, inp).willForward); }
  }

  /** The tallies of one well-formed update. */
  lemma KeysOfOne(op: StatOp)
    requires WellFormed(op)
    ensures |DecisionKeys(op)| == if op.Dropped? then 2 else if op.Decided? then 1 else 0
    ensures |RuleKeys(op)| == if IsNamed(op) then 1 else 0
    ensures multiset(DecisionKeys(op))["drop"] == if op.Dropped? then 1 else 0
  {
    if op.Dropped? {
      assert DecisionKeys(op) == ["drop", op.reason];
    }
  }

  lemma {:induction false} OpsCount(ops: seq<StatOp>)
    requires AllWellFormed(ops)
    ensures KeyCount(ops, DecisionKeys) == CountOf(ops, IsDecided) + 2 * CountOf(ops, IsDropped)
    ensures KeyCount(ops, RuleKeys) == CountOf(ops, IsNamed)
    ensures Occurrences(ops, DecisionKeys, "drop") == CountOf(ops, IsDropped)
  {
    if ops != [] {
      OpsCount(ops[..|ops| - 1]);
      KeysOfOne(ops[|ops| - 1]);
    }
  }

  lemma {:induction false} CountOfInTwo(a: seq<StatOp>, b: seq<StatOp>, p: StatOp -> bool)
    ensures CountOf(a + b, p) == CountOf(a, p) + CountOf(b, p)
  {
    if b == [] {
      assert a + b == a;
    } else {
      assert (a + b)[..|a + b| - 1] == a + b[..|b| - 1];
      CountOfInTwo(a, b[..|b| - 1], p);
    }
  }

  /** How many updates of each kind one event makes. */
  lemma OpsOfOne(eff: Effect, inp: Input)
    ensures var ops, drop := OpsOf(eff, inp), eff.verdict.decision.drop;
            && CountOf(ops, IsDropped) == (if drop then 1 else 0)
            && CountOf(ops, IsDecided) == (if drop then 0 else 1)
            && CountOf(ops, IsStored) == (if !drop && eff.appended then 1 else 0)
            && CountOf(ops, IsNamed) == (if WasNamed(eff) then 1 else 0)
            && CountOf(ops, IsSampled) == if WasSampled(eff) then 1 else 0
  {
    var ops := OpsOf(eff, inp);
    CountShort(ops, IsSampled);
    CountShort(ops, IsNamed);
    CountShort(ops, IsDropped);
    CountShort(ops, IsDecided);
    CountShort(ops, IsStored);
  }

  lemma CountShort(ops: seq<StatOp>, p: StatOp -> bool)
    requires 1 <= |ops| <= 2
    ensures CountOf(ops, p) == (if p(ops[0]) then 1 else 0) + if |ops| == 2 && p(ops[1]) then 1 else 0
  {
    assert ops[..|ops| - 1] == if |ops| == 2 then [ops[0]] else [];
    assert [ops[0]][..0] == [];
    assert CountOf([ops[0]], p) == CountOf([], p) + if p(ops[0]) then 1 else 0;
  }

  /** The bookkeeping of the ops matches that of the effects. */
  predicate Tallied(ops: seq<StatOp>, effs: seq<Effect>) {
    && AllWellFormed(ops)
    && CountOf(ops, IsDropped) == CountEffects(effs, WasDropped)
    && CountOf(ops, IsDecided) + CountOf(ops, IsDropped) == |effs|
    && CountOf(ops, IsNamed) == CountEffects(effs, WasNamed)
    && CountOf(ops, IsSampled) == CountEffects(effs, WasSampled)
    && CountEffects(effs, WasAppended) == CountOf(ops, IsStored) + CountEffects(effs, WasStoredDrop)
  }

  lemma WellFormedInTwo(a: seq<StatOp>, b: seq<StatOp>)
    requires AllWellFormed(a) && AllWellFormed(b)
    ensures AllWellFormed(a + b)
  {
  }

  lemma TalliedStep(ops: seq<StatOp>, effs: seq<Effect>, eff: Effect, inp: Input)
    requires Tallied(ops, effs) && AllWellFormed(OpsOf(eff, inp))
    ensures Tallied(ops + OpsOf(eff, inp), effs + [eff])
  {
    var more := OpsOf(eff, inp);
    OpsOfOne(eff, inp);
    WellFormedInTwo(ops, more);
    CountOfInTwo(ops, more, IsDropped);
    CountOfInTwo(ops, more, IsDecided);
    CountOfInTwo(ops, more, IsStored);
    CountOfInTwo(ops, more, IsNamed);
    CountOfInTwo(ops, more, IsSampled);
    EffectsSnoc(effs, eff);
  }

  lemma {:induction false} RunCounts(fx: Fixed, s: State, turns: seq<Turn>)
    ensures Tallied(OpsRun(fx, s, turns), Effects(fx, s, turns))
  {
    if turns != [] {
      var front, last := turns[..|turns| - 1], turns[|turns| - 1];
      RunCounts(fx, s, front);
      var before := After(fx, s, front);
      OpsWellFormed(fx, last.rules, before, last.inp);
      TalliedStep(OpsRun(fx, s, front), Effects(fx, s, front), EffectAt(fx, last.rules, before, last.inp), last.inp);
    }
  }

  lemma EffectsSnoc(effs: seq<Effect>, eff: Effect)
    ensures forall p: Effect -> bool :: CountEffects(effs + [eff], p) == CountEffects(effs, p) + if p(eff) then 1 else 0
  {
    assert (effs + [eff])[..|effs + [eff]| - 1] == effs;
  }

  /** The counters and maps after well-formed updates. */
  lemma WellFormedTotals(ops: seq<StatOp>)
    requires AllWellFormed(ops)
    ensures var c, m := StatsAfter(ops).counters, StatsAfter(ops).maps;
            var drops, decided := CountOf(ops, IsDropped), CountOf(ops, IsDecided);
            && c.droppedCount == drops == Get(m.byDecision, "drop")
            && c.storedCount == CountOf(ops, IsStored) && c.total == c.storedCount + drops
            && c.sampledCount == CountOf(ops, IsSampled)
            && MapSum(m.byDecision) == decided + 2 * drops
            && MapSum(m.byRule) == CountOf(ops, IsNamed)
  {
    CountersCount(ops);
    MapsTally(ops);
    OpsCount(ops);
    TallyCounts(ops, DecisionKeys, "drop");
    TallyCounts(ops, RuleKeys, "");
  }

  /** After any number of ingestions, under any rules and any failures: every event is either dropped or decided,
      and the counters and maps say so exactly. */
  lemma IngestConserves(fx: Fixed, s: State, turns: seq<Turn>)
    requires s.stats == NO_STATS
    ensures var c, m, effs := After(fx, s, turns).stats.counters, After(fx, s, turns).stats.maps, Effects(fx, s, turns);
            var drops := CountEffects(effs, WasDropped);
            && c.droppedCount == drops == Get(m.byDecision, "drop")
            && MapSum(m.byDecision) == (|turns| - drops) + 2 * drops
            && MapSum(m.byRule) == CountEffects(effs, WasNamed)
            && c.total == c.storedCount + drops
            && c.sampledCount == CountEffects(effs, WasSampled)
            && CountEffects(effs, WasAppended) == c.storedCount + CountEffects(effs, WasStoredDrop)
  {
    StatsFollowOps(fx, s, turns);
    RunCounts(fx, s, turns);
    WellFormedTotals(OpsRun(fx, s, turns));
  }

  lemma {:induction false} CountAllIff(effs: seq<Effect>, p: Effect -> bool)
    ensures CountEffects(effs, p) <= |effs|
    ensures CountEffects(effs, p) == |effs| <==> forall i | 0 <= i < |effs| :: p(effs[i])
  {
    if effs != [] { CountAllIff(effs[..|effs| - 1], p); }
  }

  /** The rule the event selects, as prepared, has an id, if it selects one. */
  predicate HitIsNamed(zone: string, t: Turn) {
    var e := Prepare(zone, t.inp);
    var i := FirstMatch(t.rules, e);
    i < |t.rules| ==> t.rules[i].id != ""
  }

  lemma NamedIffHitIs(fx: Fixed, t: Turn, s: State)
    ensures WasNamed(EffectAt(fx, t.rules, s, t.inp)) <==> HitIsNamed(fx.zone, t)
  {
    DecisionShape(Resolve(t.rules, Prepare(fx.zone, t.inp), t.inp.now), s.gate);
    assert |DEFAULT_RULE_ID| == 18;
  }

  predicate AllHitsNamed(zone: string, turns: seq<Turn>) {
    forall i | 0 <= i < |turns| :: HitIsNamed(zone, turns[i])
  }

  predicate AllRulesNamed(turns: seq<Turn>) {
    forall i | 0 <= i < |turns| :: forall r | r in turns[i].rules :: r.id != ""
  }

  lemma NamedRulesHit(zone: string, turns: seq<Turn>)
    requires AllRulesNamed(turns)
    ensures AllHitsNamed(zone, turns)
  {
  }

  lemma NamedCountIff(fx: Fixed, effs: seq<Effect>, turns: seq<Turn>)
    requires |effs| == |turns| && NamesMatch(fx, effs, turns)
    ensures CountEffects(effs, WasNamed) == |turns| <==> AllHitsNamed(fx.zone, turns)
  {
    CountAllIff(effs, WasNamed);
  }

  /** The counts by rule add up to the number of events exactly when every event selects a rule with an id, or none,
      as it does when all rules have ids. */
  lemma RuleCountsAddUpIff(fx: Fixed, s: State, turns: seq<Turn>)
    requires s.stats == NO_STATS
    ensures MapSum(After(fx, s, turns).stats.maps.byRule) == |turns| <==> AllHitsNamed(fx.zone, turns)
    ensures AllRulesNamed(turns) ==> MapSum(After(fx, s, turns).stats.maps.byRule) == |turns|
  {
    var effs := Effects(fx, s, turns);
    assert MapSum(After(fx, s, turns).stats.maps.byRule) == CountEffects(effs, WasNamed) by {
      IngestConserves(fx, s, turns);
    }
    assert CountEffects(effs, WasNamed) == |turns| <==> AllHitsNamed(fx.zone, turns) by {
      NamedRuns(fx, s, turns);
      NamedCountIff(fx, effs, turns);
    }
    if AllRulesNamed(turns) { NamedRulesHit(fx.zone, turns); }
  }

  lemma {:induction false} NamedRuns(fx: Fixed, s: State, turns: seq<Turn>)
    ensures NamesMatch(fx, Effects(fx, s, turns), turns)
  {
    if turns != [] {
      var front, last := turns[..|turns| - 1], turns[|turns| - 1];
      var before := After(fx, s, front);
      NamedRuns(fx, s, front);
      NamedIffHitIs(fx, last, before);
      NamesMatchSnoc(fx, Effects(fx, s, front), front, EffectAt(fx, last.rules, before, last.inp), last);
      FrontLast(turns);
    }
  }

  predicate NamesMatch(fx: Fixed, effs: seq<Effect>, turns: seq<Turn>)
    requires |effs| == |turns|
  {
    forall i | 0 <= i < |turns| :: WasNamed(effs[i]) <==> HitIsNamed(fx.zone, turns[i])
  }

  lemma NamesMatchSnoc(fx: Fixed, effs: seq<Effect>, turns: seq<Turn>, eff: Effect, t: Turn)
    requires |effs| == |turns| && NamesMatch(fx, effs, turns) && (WasNamed(eff) <==> HitIsNamed(fx.zone, t))
    ensures NamesMatch(fx, effs + [eff], turns + [t])
  {
  }

  /** A rule without an id that matches, such as the blank one once enabled, leaves its event out of the counts. */
  lemma NamelessRuleIsNotCounted(fx: Fixed, s: State, inp: Input)
    requires s.stats == NO_STATS
    ensures var blank := RuleConfig(enabled := true);
            MapSum(After(fx, s, [Turn([blank], inp)]).stats.maps.byRule) == 0
  {
    var t := Turn([RuleConfig(enabled := true)], inp);
    BlankFieldsMatch(RuleConfig(enabled := true), Prepare(fx.zone, inp));
    assert !HitIsNamed(fx.zone, t);
    RuleCountsAddUpIff(fx, s, [t]);
    IngestConserves(fx, s, [t]);
    CountAllIff(Effects(fx, s, [t]), WasNamed);
  }

  // ----- ingestions that overlap --------------------------------------------------------

  /** The schedule takes every update of every ingestion, each ingestion's in their order. */
  predicate Fits(lists: seq<seq<StatOp>>, schedule: seq<nat>)
    decreases |schedule|
  {
    if schedule == [] then forall i | 0 <= i < |lists| :: lists[i] == []
    else
      var k := schedule[0];
      k < |lists| && lists[k] != [] && Fits(lists[k := lists[k][1..]], schedule[1..])
  }

  function Merged(lists: seq<seq<StatOp>>, schedule: seq<nat>): seq<StatOp>
    requires Fits(lists, schedule)
    decreases |schedule|
  {
    if schedule == [] then []
    else
      var k := schedule[0];
      [lists[k][0]] + Merged(lists[k := lists[k][1..]], schedule[1..])
  }

  function CountIn(p: StatOp -> bool): seq<StatOp> -> int {
    (ops: seq<StatOp>) => CountOf(ops, p)
  }

  lemma CountOfHead(op: StatOp, p: StatOp -> bool)
    ensures CountOf([op], p) == if p(op) then 1 else 0
  {
    assert [op][..0] == [] && CountOf([op][..0], p) == 0;
  }

  /** Whatever the schedule, as many updates of each kind are made as the ingestions have. */
  lemma {:induction false} MergedCounts(lists: seq<seq<StatOp>>, schedule: seq<nat>, p: StatOp -> bool)
    requires Fits(lists, schedule)
    ensures CountOf(Merged(lists, schedule), p) == Sum(lists, CountIn(p))
    decreases |schedule|
  {
    if schedule == [] {
      SumZero(lists, CountIn(p));
    } else {
      var k := schedule[0];
      var head, tail := lists[k][0], lists[k][1..];
      var rest := lists[k := tail];
      MergedCounts(rest, schedule[1..], p);
      CountOfInTwo([head], Merged(rest, schedule[1..]), p);
      CountOfHead(head, p);
      assert lists[k] == [head] + tail;
      CountOfInTwo([head], tail, p);
      SumUpdate(lists, k, tail, CountIn(p));
    }
  }

  lemma {:induction false} MergedWellFormed(lists: seq<seq<StatOp>>, schedule: seq<nat>)
    requires Fits(lists, schedule) && forall i | 0 <= i < |lists| :: AllWellFormed(lists[i])
    ensures AllWellFormed(Merged(lists, schedule))
    decreases |schedule|
  {
    if schedule != [] {
      var k := schedule[0];
      var rest := lists[k := lists[k][1..]];
      assert forall i | 0 <= i < |rest| :: AllWellFormed(rest[i]);
      MergedWellFormed(rest, schedule[1..]);
      assert WellFormed(lists[k][0]);
    }
  }

  /** One ingestion among others: the rules in force, and the gates, file, hub and queue as it found each of them
      when it came to it. */
  datatype Moment = Moment(rules: seq<RuleConfig>, found: State, inp: Input)

  function EffectThen(fx: Fixed, m: Moment): Effect {
    EffectAt(fx, m.rules, m.found, m.inp)
  }

  function Updates(fx: Fixed, ms: seq<Moment>): seq<seq<StatOp>> {
    seq(|ms|, i requires 0 <= i < |ms| => OpsOf(EffectThen(fx, ms[i]), ms[i].inp))
  }

  function DropsOf(fx: Fixed): Moment -> int {
    (m: Moment) => if EffectThen(fx, m).verdict.decision.drop then 1 else 0
  }

  function StoredOf(fx: Fixed): Moment -> int {
    (m: Moment) => if !EffectThen(fx, m).verdict.decision.drop && EffectThen(fx, m).appended then 1 else 0
  }

  function NamedOf(fx: Fixed): Moment -> int {
    (m: Moment) => if WasNamed(EffectThen(fx, m)) then 1 else 0
  }

  function SampledOf(fx: Fixed): Moment -> int {
    (m: Moment) => if WasSampled(EffectThen(fx, m)) then 1 else 0
  }

  function AppendedOf(fx: Fixed): Moment -> int {
    (m: Moment) => if WasAppended(EffectThen(fx, m)) then 1 else 0
  }

  function StoredDropOf(fx: Fixed): Moment -> int {
    (m: Moment) => if WasStoredDrop(EffectThen(fx, m)) then 1 else 0
  }

  /** What was appended was stored or is a drop that was. */
  lemma {:induction false} AppendedSplits(fx: Fixed, ms: seq<Moment>)
    ensures Sum(ms, AppendedOf(fx)) == Sum(ms, StoredOf(fx)) + Sum(ms, StoredDropOf(fx))
  {
    if ms != [] { AppendedSplits(fx, ms[1..]); }
  }

  lemma {:induction false} SumsAgree<A, B>(xs: seq<A>, f: A -> int, ys: seq<B>, g: B -> int)
    requires |xs| == |ys| && forall i | 0 <= i < |xs| :: f(xs[i]) == g(ys[i])
    ensures Sum(xs, f) == Sum(ys, g)
  {
    if xs != [] { SumsAgree(xs[1..], f, ys[1..], g); }
  }

  lemma {:induction false} SumsToLength<A>(xs: seq<A>, f: A -> int, g: A -> int)
    requires forall i | 0 <= i < |xs| :: f(xs[i]) + g(xs[i]) == 1
    ensures Sum(xs, f) + Sum(xs, g) == |xs|
  {
    if xs != [] { SumsToLength(xs[1..], f, g); }
  }

  lemma MomentCounts(fx: Fixed, ms: seq<Moment>, schedule: seq<nat>)
    requires Fits(Updates(fx, ms), schedule)
    ensures var ops := Merged(Updates(fx, ms), schedule);
            && CountOf(ops, IsDropped) == Sum(ms, DropsOf(fx))
            && CountOf(ops, IsDecided) == |ms| - Sum(ms, DropsOf(fx))
            && CountOf(ops, IsStored) == Sum(ms, StoredOf(fx))
            && CountOf(ops, IsNamed) == Sum(ms, NamedOf(fx))
            && CountOf(ops, IsSampled) == Sum(ms, SampledOf(fx))
  {
    var lists := Updates(fx, ms);
    MergedCounts(lists, schedule, IsDropped);
    MergedCounts(lists, schedule, IsDecided);
    MergedCounts(lists, schedule, IsStored);
    MergedCounts(lists, schedule, IsNamed);
    MergedCounts(lists, schedule, IsSampled);
    forall i | 0 <= i < |ms|
      ensures CountIn(IsDropped)(lists[i]) == DropsOf(fx)(ms[i])
      ensures CountIn(IsDropped)(lists[i]) + CountIn(IsDecided)(lists[i]) == 1
      ensures CountIn(IsStored)(lists[i]) == StoredOf(fx)(ms[i])
      ensures CountIn(IsNamed)(lists[i]) == NamedOf(fx)(ms[i])
      ensures CountIn(IsSampled)(lists[i]) == SampledOf(fx)(ms[i])
    {
      OpsOfOne(EffectThen(fx, ms[i]), ms[i].inp);
    }
    SumsAgree(lists, CountIn(IsDropped), ms, DropsOf(fx));
    SumsAgree(lists, CountIn(IsStored), ms, StoredOf(fx));
    SumsAgree(lists, CountIn(IsNamed), ms, NamedOf(fx));
    SumsAgree(lists, CountIn(IsSampled), ms, SampledOf(fx));
    SumsToLength(lists, CountIn(IsDropped), CountIn(IsDecided));
  }

  /** Ingestions on any number of goroutines, whatever each found and however their updates of the statistics
      interleave: the counters and maps come out as if they had been taken one by one. */
  lemma OverlappingIngestsConserve(fx: Fixed, ms: seq<Moment>, schedule: seq<nat>)
    requires Fits(Updates(fx, ms), schedule)
    ensures var s := StatsAfter(Merged(Updates(fx, ms), schedule));
            var c, m, drops := s.counters, s.maps, Sum(ms, DropsOf(fx));
            && c.droppedCount == drops == Get(m.byDecision, "drop")
            && MapSum(m.byDecision) == (|ms| - drops) + 2 * drops
            && MapSum(m.byRule) == Sum(ms, NamedOf(fx))
            && c.storedCount == Sum(ms, StoredOf(fx))
            && c.sampledCount == Sum(ms, SampledOf(fx))
            && c.total == c.storedCount + drops
            && Sum(ms, AppendedOf(fx)) == c.storedCount + Sum(ms, StoredDropOf(fx))
  {
    var lists := Updates(fx, ms);
    forall i | 0 <= i < |ms|
      ensures AllWellFormed(lists[i])
    {
      OpsWellFormed(fx, ms[i].rules, ms[i].found, ms[i].inp);
    }
    MergedWellFormed(lists, schedule);
    MomentCounts(fx, ms, schedule);
    AppendedSplits(fx, ms);
    WellFormedTotals(Merged(lists, schedule));
  }

  // ----- events -----------------------------------------------------------------------

  function AppendedEvents(effs: seq<Effect>): seq<Event> {
    if effs == [] then []
    else
      var last := effs[|effs| - 1];
      AppendedEvents(effs[..|effs| - 1]) + if last.appended then [last.verdict.evt] else []
  }

  function PublishedEvents(effs: seq<Effect>): seq<Event> {
    if effs == [] then []
    else
      var last := effs[|effs| - 1];
      PublishedEvents(effs[..|effs| - 1]) + if last.published then [last.verdict.evt] else []
  }

  /** The hub after these events are published one by one. */
  function PublishAll(h: Hub, es: seq<Event>): Hub {
    if es == [] then h else Published(PublishAll(h, es[..|es| - 1]), es[|es| - 1])
  }

  /** Between them the ingestions publish exactly these events. */
  lemma {:induction false} HubFollowsPublished(fx: Fixed, s: State, turns: seq<Turn>)
    ensures After(fx, s, turns).hub == PublishAll(s.hub, PublishedEvents(Effects(fx, s, turns)))
  {
    if turns != [] {
      var front, last := turns[..|turns| - 1], turns[|turns| - 1];
      HubFollowsPublished(fx, s, front);
      var before, effs := After(fx, s, front), Effects(fx, s, front);
      var eff := EffectAt(fx, last.rules, before, last.inp);
      PublishedSnoc(effs, eff);
      PublishAllSnoc(s.hub, PublishedEvents(effs), eff.verdict.evt);
      assert After(fx, s, turns).hub == if eff.published then Published(before.hub, eff.verdict.evt) else before.hub;
    }
  }

  lemma PublishAllSnoc(h: Hub, es: seq<Event>, e: Event)
    ensures PublishAll(h, es + [e]) == Published(PublishAll(h, es), e)
  {
    assert (es + [e])[..|es|] == es;
  }

  lemma PublishedSnoc(effs: seq<Effect>, eff: Effect)
    ensures PublishedEvents(effs + [eff]) ==
            if eff.published then PublishedEvents(effs) + [eff.verdict.evt] else PublishedEvents(effs)
  {
    assert (effs + [eff])[..|effs|] == effs;
    assert PublishedEvents(effs) + [] == PublishedEvents(effs);
  }

  /** The tasks a run enqueues. */
  function EnqueuedTasks(fx: Fixed, s: State, turns: seq<Turn>): seq<ForwardTask> {
    if turns == [] then []
    else
      var front, last := turns[..|turns| - 1], turns[|turns| - 1];
      var eff := EffectAt(fx, last.rules, After(fx, s, front), last.inp);
      EnqueuedTasks(fx, s, front) +
      if eff.enqueued then [ForwardTask(eff.verdict.evt, last.inp.path, last.inp.enqueuedAt)] else []
  }

  /** The queue holds what it held and then the tasks enqueued, one for each event that was to be forwarded and found
      room, and never more than its capacity. */
  lemma {:induction false} QueueFollowsEnqueued(fx: Fixed, s: State, turns: seq<Turn>)
    requires |s.tasks| <= fx.capacity
    ensures var t, n := After(fx, s, turns), CountEffects(Effects(fx, s, turns), WasEnqueued);
            && t.tasks == s.tasks + EnqueuedTasks(fx, s, turns) && |EnqueuedTasks(fx, s, turns)| == n
            && t.queued == s.queued + n && |t.tasks| <= fx.capacity
  {
    if turns == [] {
      assert s.tasks + [] == s.tasks;
    } else {
      var front, last := turns[..|turns| - 1], turns[|turns| - 1];
      QueueFollowsEnqueued(fx, s, front);
      var before, tasks := After(fx, s, front), EnqueuedTasks(fx, s, front);
      var eff := EffectAt(fx, last.rules, before, last.inp);
      var task := ForwardTask(eff.verdict.evt, last.inp.path, last.inp.enqueuedAt);
      EffectsSnoc(Effects(fx, s, front), eff);
      assert After(fx, s, turns).tasks == if eff.enqueued then before.tasks + [task] else before.tasks;
      assert After(fx, s, turns).queued == before.queued + if eff.enqueued then 1 else 0;
      Regroup(s.tasks, tasks, [task]);
      assert tasks + [] == tasks;
    }
  }

  /** Taking events one ingestion at a time, everything published was appended, in the same order. */
  lemma {:induction false} PublishedWereAppended(fx: Fixed, s: State, turns: seq<Turn>)
    ensures var effs := Effects(fx, s, turns);
            Subsequence(PublishedEvents(effs), AppendedEvents(effs))
  {
    if turns != [] {
      var front, last := turns[..|turns| - 1], turns[|turns| - 1];
      PublishedWereAppended(fx, s, front);
      var effs, eff := Effects(fx, s, front), EffectAt(fx, last.rules, After(fx, s, front), last.inp);
      var pub, app := PublishedEvents(effs), AppendedEvents(effs);
      assert (effs + [eff])[..|effs + [eff]| - 1] == effs;
      if eff.published {
        SubsequenceKeep(pub, app, eff.verdict.evt);
      } else if eff.appended {
        SubsequenceSkip(pub, app, eff.verdict.evt);
        assert pub + [] == pub;
      } else {
        assert pub + [] == pub && app + [] == app;
      }
    }
  }

  /** The appends a run tries, as operations on the file. */
  function AppendOps(fx: Fixed, s: State, turns: seq<Turn>): seq<StoreOp> {
    if turns == [] then []
    else
      var front, last := turns[..|turns| - 1], turns[|turns| - 1];
      var v := EffectAt(fx, last.rules, After(fx, s, front), last.inp).verdict;
      AppendOps(fx, s, front) + if v.decision.store then [DoAppend(v.evt, last.inp.io)] else []
  }

  lemma StoreRunSnoc(c: Codec, file: Bytes, ops: seq<StoreOp>, op: StoreOp)
    ensures StoreRun(c, file, ops + [op]) == StoreStep(c, StoreRun(c, file, ops), op)
  {
    assert (ops + [op])[..|ops + [op]| - 1] == ops;
  }

  /** One event's effect on the bytes is the append it tries, if it tries one. */
  lemma EffectIsStep(fx: Fixed, v: Verdict, s: State, io: AppendIo)
    ensures Contents(EffectOf(fx, v, s, io).file) ==
            if v.decision.store then StoreStep(fx.codec, Contents(s.file), DoAppend(v.evt, io)) else Contents(s.file)
  {
  }

  lemma {:induction false} FileFollowsAppends(fx: Fixed, s: State, turns: seq<Turn>)
    ensures Contents(After(fx, s, turns).file) == StoreRun(fx.codec, Contents(s.file), AppendOps(fx, s, turns))
  {
    if turns != [] {
      var front, last := turns[..|turns| - 1], turns[|turns| - 1];
      var before, ops := After(fx, s, front), AppendOps(fx, s, front);
      var v := EffectAt(fx, last.rules, before, last.inp).verdict;
      FileFollowsAppends(fx, s, front);
      assert After(fx, s, turns).file == EffectOf(fx, v, before, last.inp.io).file;
      EffectIsStep(fx, v, before, last.inp.io);
      StoreRunSnoc(fx.codec, Contents(s.file), ops, DoAppend(v.evt, last.inp.io));
      assert ops + [] == ops;
    }
  }

  function ReadBack(c: Codec, es: seq<Event>): seq<Event>
    requires forall e :: c.decode(c.encode(e)).Some?
  {
    seq(|es|, i requires 0 <= i < |es| => c.Canonical(es[i]))
  }

  lemma ReadBackSnoc(c: Codec, es: seq<Event>, e: Event)
    requires forall e :: c.decode(c.encode(e)).Some?
    ensures ReadBack(c, es + [e]) == ReadBack(c, es) + [c.Canonical(e)]
  {
  }

  lemma AppendedSnoc(effs: seq<Effect>, eff: Effect)
    ensures AppendedEvents(effs + [eff]) ==
            if eff.appended then AppendedEvents(effs) + [eff.verdict.evt] else AppendedEvents(effs)
  {
    assert (effs + [eff])[..|effs + [eff]| - 1] == effs;
    assert AppendedEvents(effs) + [] == AppendedEvents(effs);
  }

  /** What the file holds, in terms of what the effects so far appended. */
  predicate Holds(c: Codec, was: Bytes, file: Bytes, effs: seq<Effect>)
    requires forall e :: c.decode(c.encode(e)).Some?
  {
    Terminated(file) && Decoded(c, file) == Decoded(c, was) + ReadBack(c, AppendedEvents(effs))
  }

  lemma HoldsStep(fx: Fixed, was: Bytes, effs: seq<Effect>, s: State, v: Verdict, io: AppendIo)
    requires fx.codec.Lawful() && Holds(fx.codec, was, Contents(s.file), effs)
    requires Whole(fx.codec, v.evt, io)
    ensures Holds(fx.codec, was, Contents(EffectOf(fx, v, s, io).file), effs + [EffectOf(fx, v, s, io)])
  {
    var c, eff, app := fx.codec, EffectOf(fx, v, s, io), AppendedEvents(effs);
    OneAppend(fx, s, v, io);
    AppendedSnoc(effs, eff);
    ReadBackSnoc(c, app, v.evt);
    Regroup(Decoded(c, was), ReadBack(c, app), [c.Canonical(v.evt)]);
  }

  predicate AllWritesWhole(fx: Fixed, effs: seq<Effect>, turns: seq<Turn>)
    requires |effs| == |turns|
  {
    forall i | 0 <= i < |turns| :: Whole(fx.codec, effs[i].verdict.evt, turns[i].inp.io)
  }

  /** As long as no write stops half-way, the file reads back as what it held and then every event appended, as
      enriched and in order. */
  lemma {:induction false} FileHoldsAppended(fx: Fixed, s: State, turns: seq<Turn>)
    requires fx.codec.Lawful() && Terminated(Contents(s.file))
    ensures AllWritesWhole(fx, Effects(fx, s, turns), turns) ==>
              Holds(fx.codec, Contents(s.file), Contents(After(fx, s, turns).file), Effects(fx, s, turns))
  {
    var was := Contents(s.file);
    if turns == [] {
      assert Decoded(fx.codec, was) + ReadBack(fx.codec, []) == Decoded(fx.codec, was);
    } else {
      var front, last := turns[..|turns| - 1], turns[|turns| - 1];
      var before, effs := After(fx, s, front), Effects(fx, s, front);
      var v := Judge(fx.zone, last.rules, before.gate, last.inp);
      var eff := EffectOf(fx, v, before, last.inp.io);
      assert Effects(fx, s, turns) == effs + [eff] && After(fx, s, turns).file == eff.file;
      FileHoldsAppended(fx, s, front);
      if AllWritesWhole(fx, effs + [eff], turns) {
        FrontWritesWhole(fx, effs, eff, turns);
        HoldsStep(fx, was, effs, before, v, last.inp.io);
      }
    }
  }

  lemma FrontWritesWhole(fx: Fixed, effs: seq<Effect>, eff: Effect, turns: seq<Turn>)
    requires |turns| == |effs| + 1 && AllWritesWhole(fx, effs + [eff], turns)
    ensures AllWritesWhole(fx, effs, turns[..|turns| - 1])
    ensures Whole(fx.codec, eff.verdict.evt, turns[|turns| - 1].inp.io)
  {
    assert forall i | 0 <= i < |effs| :: (effs + [eff])[i] == effs[i];
    assert (effs + [eff])[|turns| - 1] == eff;
  }

  lemma OneAppend(fx: Fixed, s: State, v: Verdict, io: AppendIo)
    requires fx.codec.Lawful() && Terminated(Contents(s.file))
    requires Whole(fx.codec, v.evt, io)
    ensures var eff := EffectOf(fx, v, s, io);
            if eff.appended then
              && Terminated(Contents(eff.file))
              && Decoded(fx.codec, Contents(eff.file)) ==
                 Decoded(fx.codec, Contents(s.file)) + [fx.codec.Canonical(v.evt)]
            else Contents(eff.file) == Contents(s.file)
  {
    assert fx.codec.Framed(fx.codec.encode(v.evt));
    AppendReadsBack(fx.codec, Contents(s.file), v.evt);
    if io.Wrote? && io.n == 0 {
      assert Contents(s.file) + fx.codec.Record(v.evt)[..0] == Contents(s.file);
    }
  }

  // ----- forwarding results -------------------------------------------------------------

  /** What a run of results, each with its time, does to the statistics. */
  function AllForwardOps(rs: seq<(ForwardResult, string)>): seq<StatOp> {
    if rs == [] then []
    else AllForwardOps(rs[..|rs| - 1]) + ForwardOps(rs[|rs| - 1].0, rs[|rs| - 1].1)
  }

  /** The results a queue has finished with, each at its time. */
  function Timed(finished: seq<(ForwardTask, ForwardResult)>, whens: seq<string>): seq<(ForwardResult, string)>
    requires |whens| == |finished|
  {
    seq(|finished|, i requires 0 <= i < |finished| => (finished[i].1, whens[i]))
  }

  lemma TimedFront(finished: seq<(ForwardTask, ForwardResult)>, whens: seq<string>)
    requires |whens| == |finished| > 0
    ensures var n := |finished| - 1;
            Timed(finished, whens) == Timed(finished[..n], whens[..n]) + [(finished[n].1, whens[n])]
  {
  }

  lemma ForwardOpsSnoc(rs: seq<(ForwardResult, string)>, r: ForwardResult, when: string)
    ensures AllForwardOps(rs + [(r, when)]) == AllForwardOps(rs) + ForwardOps(r, when)
  {
    assert (rs + [(r, when)])[..|rs|] == rs;
  }

  lemma {:induction false} ResultsCount(finished: seq<(ForwardTask, ForwardResult)>, whens: seq<string>)
    requires |whens| == |finished|
    ensures var ops := AllForwardOps(Timed(finished, whens));
            CountOf(ops, IsForwarded) + CountOf(ops, IsFailedForward) == Sum(finished, Unskipped)
  {
    if finished != [] {
      var n := |finished| - 1;
      var front, last := Timed(finished[..n], whens[..n]), ForwardOps(finished[n].1, whens[n]);
      ResultsCount(finished[..n], whens[..n]);
      TimedFront(finished, whens);
      ForwardOpsSnoc(front, finished[n].1, whens[n]);
      CountOfInTwo(AllForwardOps(front), last, IsForwarded);
      CountOfInTwo(AllForwardOps(front), last, IsFailedForward);
      FrontLast(finished);
      SumAppend(finished[..n], finished[n], Unskipped);
      if last != [] {
        CountShort(last, IsForwarded);
        CountShort(last, IsFailedForward);
      }
    }
  }

  /** In every reachable state of the queue, the successes and failures counted so far and the sends under way add
      up to the sends begun; tasks skipped for age count in neither. */
  lemma ForwardCountersMatchSends(q: Queue, whens: seq<string>)
    requires Inv(q) && |whens| == |q.finished|
    ensures var c := StatsAfter(AllForwardOps(Timed(q.finished, whens))).counters;
            c.forwardedCount + c.failedForwardCount + Sum(q.workers, InSend) == |q.sends|
  {
    CountersCount(AllForwardOps(Timed(q.finished, whens)));
    ResultsCount(q.finished, whens);
  }

  /** And what it does to the record. */
  function AllNoted(rec: ForwardRecord, rs: seq<(ForwardResult, string)>): ForwardRecord {
    if rs == [] then rec else Noted(AllNoted(rec, rs[..|rs| - 1]), rs[|rs| - 1].0, rs[|rs| - 1].1)
  }

  predicate WentThrough(r: ForwardResult) {
    r.outcome.Some? && r.outcome.value.Sent?
  }

  predicate WentWrong(r: ForwardResult) {
    r.outcome.Some? && r.outcome.value.SendFailed?
  }

  predicate Attempted(r: ForwardResult) {
    r.outcome.Some?
  }

  predicate Told(r: ForwardResult) {
    WentThrough(r) || (WentWrong(r) && r.outcome.value.error != "")
  }

  /** A task is skipped exactly when it has no outcome, as every result of the queue says. */
  predicate Fitting(rs: seq<(ForwardResult, string)>) {
    forall i | 0 <= i < |rs| :: rs[i].0.skipped <==> rs[i].0.outcome == None
  }

  function HowMany(rs: seq<(ForwardResult, string)>, p: ForwardResult -> bool): nat {
    if rs == [] then 0 else HowMany(rs[..|rs| - 1], p) + One(p(rs[|rs| - 1].0))
  }

  function LatestWith(rs: seq<(ForwardResult, string)>, p: ForwardResult -> bool): Option<(ForwardResult, string)> {
    if rs == [] then None
    else if p(rs[|rs| - 1].0) then Some(rs[|rs| - 1])
    else LatestWith(rs[..|rs| - 1], p)
  }

  function TimeOf(r: Option<(ForwardResult, string)>): string {
    if r.Some? then r.value.1 else ""
  }

  function EventOf(r: Option<(ForwardResult, string)>): string {
    if r.Some? then r.value.0.eventId else ""
  }

  function ErrorOf(r: Option<(ForwardResult, string)>): string {
    if r.Some? && WentWrong(r.value.0) then r.value.0.outcome.value.error else ""
  }

  /** By the outcomes of the sends: the statistics count what went through and what went wrong, and the record keeps the
      latest of each, and the latest error until something goes through. */
  ghost predicate Outcomes(rs: seq<(ForwardResult, string)>, c: Counters, rec: ForwardRecord) {
    && c.forwardedCount == HowMany(rs, WentThrough) == rec.successes
    && c.failedForwardCount == HowMany(rs, WentWrong) == rec.failures
    && rec.lastAttemptAt == TimeOf(LatestWith(rs, Attempted))
    && rec.lastSuccessAt == TimeOf(LatestWith(rs, WentThrough))
    && rec.lastForwardedId == EventOf(LatestWith(rs, WentThrough))
    && rec.lastFailedAt == TimeOf(LatestWith(rs, WentWrong)) && rec.lastFailedId == EventOf(LatestWith(rs, WentWrong))
    && rec.lastError == ErrorOf(LatestWith(rs, Told))
  }

  predicate Agree(rec: ForwardRecord, st: StatsView) {
    && rec.successes == st.counters.forwardedCount && rec.failures == st.counters.failedForwardCount
    && rec.lastSuccessAt == st.others.lastForwardOk
  }

  lemma AgreeStep(rec: ForwardRecord, st: StatsView, r: ForwardResult, when: string)
    requires Agree(rec, st)
    ensures Agree(Noted(rec, r, when), UpdateAll(st, ForwardOps(r, when)))
  {
    var op := Forwarded(Succeeded(r), if Succeeded(r) then when else "");
    OpsApply(st, op, op);
  }

  /** The record and the statistics, kept apart, tell the same: as many successes, as many failures, and the same time
      of the last success. */
  lemma {:induction false} RecordAgreesWithStats(rs: seq<(ForwardResult, string)>)
    ensures Agree(AllNoted(ForwardRecord(), rs), StatsAfter(AllForwardOps(rs)))
  {
    if rs != [] {
      var front, last := rs[..|rs| - 1], rs[|rs| - 1];
      RecordAgreesWithStats(front);
      AgreeStep(AllNoted(ForwardRecord(), front), StatsAfter(AllForwardOps(front)), last.0, last.1);
      UpdateAllInTwo(NO_STATS, AllForwardOps(front), ForwardOps(last.0, last.1));
    }
  }

  lemma MoreResults(rs: seq<(ForwardResult, string)>, r: (ForwardResult, string), p: ForwardResult -> bool)
    ensures HowMany(rs + [r], p) == HowMany(rs, p) + One(p(r.0))
    ensures LatestWith(rs + [r], p) == if p(r.0) then Some(r) else LatestWith(rs, p)
  {
    assert (rs + [r])[..|rs|] == rs;
  }

  lemma OutcomesMore(rs: seq<(ForwardResult, string)>, st: StatsView, rec: ForwardRecord, r: ForwardResult,
                     when: string)
    requires Outcomes(rs, st.counters, rec) && (r.skipped <==> r.outcome == None)
    ensures Outcomes(rs + [(r, when)], UpdateAll(st, ForwardOps(r, when)).counters, Noted(rec, r, when))
  {
    MoreResults(rs, (r, when), WentThrough);
    MoreResults(rs, (r, when), WentWrong);
    MoreResults(rs, (r, when), Attempted);
    MoreResults(rs, (r, when), Told);
    var op := Forwarded(WentThrough(r), if WentThrough(r) then when else "");
    OpsApply(st, op, op);
  }

  lemma {:induction false} OutcomesAreTold(rs: seq<(ForwardResult, string)>)
    requires Fitting(rs)
    ensures Outcomes(rs, StatsAfter(AllForwardOps(rs)).counters, AllNoted(ForwardRecord(), rs))
  {
    if rs != [] {
      var front, last := rs[..|rs| - 1], rs[|rs| - 1];
      OutcomesAreTold(front);
      UpdateAllInTwo(NO_STATS, AllForwardOps(front), ForwardOps(last.0, last.1));
      OutcomesMore(front, StatsAfter(AllForwardOps(front)), AllNoted(ForwardRecord(), front), last.0, last.1);
      FrontLast(rs);
    }
  }

  /** And what the queue has finished with is such a run of results. */
  lemma QueueResultsFit(q: Queue, whens: seq<string>)
    requires Inv(q) && |whens| == |q.finished|
    ensures Fitting(Timed(q.finished, whens))
  {
    forall i | 0 <= i < |q.finished|
      ensures q.finished[i].1.skipped <==> q.finished[i].1.outcome == None
    {
      assert q.finished[i] in q.finished;
    }
  }
}
