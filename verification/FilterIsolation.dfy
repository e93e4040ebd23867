/** When traffic of one asset changes what is decided for another, for any way of telling the assets apart. */
module FilterIsolation {
  import opened Events
  import opened Sums
  import opened Text
  import opened Filter
  import opened FilterHistory

  function Decisions(vs: seq<Visit>, st: GateState): seq<Decision> {
    if vs == [] then []
    else var (st', d) := Decide(vs[0], st); [d] + Decisions(vs[1..], st')
  }

  // ----- runs split by asset --------------------------------------------------

  /** A visit and the asset it is put down to. */
  datatype Tagged<T> = Tagged(visit: Visit, asset: T)

  /** The decisions the whole run makes for the visits of one asset. */
  function AssetDecisions<T(==)>(vs: seq<Tagged<T>>, st: GateState, asset: T): seq<Decision> {
    if vs == [] then []
    else
      var (st', d) := Decide(vs[0].visit, st);
      (if vs[0].asset == asset then [d] else []) + AssetDecisions(vs[1..], st', asset)
  }

  /** The run with the visits of all other assets left out. */
  function Restrict<T(==)>(vs: seq<Tagged<T>>, asset: T): seq<Visit> {
    if vs == [] then []
    else (if vs[0].asset == asset then [vs[0].visit] else []) + Restrict(vs[1..], asset)
  }

  /** The visit's sampler drops some of what comes to it. */
  predicate Thins(v: Visit) {
    Sampled(v) && KeepEvery(v.rule.value) >= 2
  }

  predicate MeetAtRate(u: Visit, v: Visit) {
    RateLimited(u) && RateLimited(v) && u.rateKey == v.rateKey
  }

  predicate MeetAtWindow(u: Visit, v: Visit) {
    Windowed(u) && Windowed(v) && u.windowKey == v.windowKey
  }

  /** A sampler that keeps everything counts, but does not mind what others count. */
  predicate MeetAtSampler(u: Visit, v: Visit) {
    Sampled(u) && Sampled(v) && (Thins(u) || Thins(v)) && u.sampleKey == v.sampleKey
  }

  predicate Meet(u: Visit, v: Visit) {
    MeetAtRate(u, v) || MeetAtWindow(u, v) || MeetAtSampler(u, v)
  }

  /** Visits of different assets with the same key at a gate that both use. */
  predicate Collide<T(==)>(x: Tagged<T>, y: Tagged<T>) {
    x.asset != y.asset && Meet(x.visit, y.visit)
  }

  predicate NoCollisions<T(==)>(vs: seq<Tagged<T>>) {
    forall x, y | x in vs && y in vs :: !Collide(x, y)
  }

  /** The two states agree on all that decides anything for this visit. */
  predicate AgreeFor(v: Visit, s: GateState, t: GateState) {
    && (RateLimited(v) ==> SameAt(s.rates, t.rates, v.rateKey))
    && (Windowed(v) ==> SameAt(s.dedup, t.dedup, v.windowKey))
    && (Thins(v) ==> SameAt(s.samples, t.samples, v.sampleKey))
  }

  predicate Agree<T(==)>(vs: seq<Tagged<T>>, asset: T, s: GateState, t: GateState) {
    forall x | x in vs && x.asset == asset :: AgreeFor(x.visit, s, t)
  }

  lemma RateGateAgrees(v: Visit, w: Visit, s: GateState, t: GateState)
    requires v.rule.Some? && AgreeFor(v, s, t) && AgreeFor(w, s, t)
    ensures RateGate(v, s).1 == RateGate(v, t).1
    ensures AgreeFor(w, RateGate(v, s).0, RateGate(v, t).0)
  {
  }

  lemma DedupGateAgrees(v: Visit, w: Visit, s: GateState, t: GateState)
    requires v.rule.Some? && AgreeFor(v, s, t) && AgreeFor(w, s, t)
    ensures DedupGate(v, s).1 == DedupGate(v, t).1
    ensures AgreeFor(w, DedupGate(v, s).0, DedupGate(v, t).0)
  {
  }

  lemma ActionGateAgrees(v: Visit, w: Visit, s: GateState, t: GateState)
    requires v.rule.Some? && AgreeFor(v, s, t) && AgreeFor(w, s, t)
    ensures ActionGate(v, s).1 == ActionGate(v, t).1
    ensures AgreeFor(w, ActionGate(v, s).0, ActionGate(v, t).0)
  {
  }

  lemma VisitAgrees(v: Visit, w: Visit, s: GateState, t: GateState)
    requires AgreeFor(v, s, t) && AgreeFor(w, s, t)
    ensures Decide(v, s).1 == Decide(v, t).1
    ensures AgreeFor(w, Decide(v, s).0, Decide(v, t).0)
  {
    if v.rule.Some? {
      RateGateAgrees(v, v, s, t);
      RateGateAgrees(v, w, s, t);
      var (s1, within) := RateGate(v, s);
      var (t1, _) := RateGate(v, t);
      if within {
        DedupGateAgrees(v, v, s1, t1);
        DedupGateAgrees(v, w, s1, t1);
        var (s2, novel) := DedupGate(v, s1);
        var (t2, _) := DedupGate(v, t1);
        if novel { ActionGateAgrees(v, w, s2, t2); }
      }
    }
  }

  /** A visit of the asset decides alike in both states and keeps them in agreement. */
  lemma OwnStepAgrees<T>(vs: seq<Tagged<T>>, x: Tagged<T>, s: GateState, t: GateState)
    requires x in vs && Agree(vs, x.asset, s, t)
    ensures Decide(x.visit, s).1 == Decide(x.visit, t).1
    ensures Agree(vs, x.asset, Decide(x.visit, s).0, Decide(x.visit, t).0)
  {
    forall y | y in vs && y.asset == x.asset
      ensures AgreeFor(y.visit, Decide(x.visit, s).0, Decide(x.visit, t).0)
    {
      VisitAgrees(x.visit, y.visit, s, t);
    }
    VisitAgrees(x.visit, x.visit, s, t);
  }

  lemma OthersKeysStay(u: Visit, v: Visit, s: GateState)
    requires !Meet(u, v)
    ensures AgreeFor(v, Decide(u, s).0, s)
  {
    if u.rule.Some? {
      var (s1, within) := RateGate(u, s);
      assert AgreeFor(v, s1, s);
      if within {
        var (s2, novel) := DedupGate(u, s1);
        assert AgreeFor(v, s2, s);
      }
    }
  }

  /** A visit of another asset that does not collide changes nothing that decides anything for this one. */
  lemma OtherStepAgrees<T>(vs: seq<Tagged<T>>, asset: T, x: Tagged<T>, s: GateState, t: GateState)
    requires x in vs && x.asset != asset && NoCollisions(vs) && Agree(vs, asset, s, t)
    ensures Agree(vs, asset, Decide(x.visit, s).0, t)
  {
    forall y | y in vs && y.asset == asset
      ensures AgreeFor(y.visit, Decide(x.visit, s).0, t)
    {
      assert !Collide(x, y) && AgreeFor(y.visit, s, t);
      OthersKeysStay(x.visit, y.visit, s);
    }
  }

  lemma {:induction false} AssetsRunAlone<T>(all: seq<Tagged<T>>, vs: seq<Tagged<T>>, asset: T, s: GateState,
                                             t: GateState)
    requires forall x | x in vs :: x in all
    requires NoCollisions(all) && Agree(all, asset, s, t)
    ensures AssetDecisions(vs, s, asset) == Decisions(Restrict(vs, asset), t)
  {
    if vs != [] {
      var x := vs[0];
      if x.asset == asset {
        OwnStepAgrees(all, x, s, t);
        AssetsRunAlone(all, vs[1..], asset, Decide(x.visit, s).0, Decide(x.visit, t).0);
        assert ([x.visit] + Restrict(vs[1..], asset))[1..] == Restrict(vs[1..], asset);
      } else {
        OtherStepAgrees(all, asset, x, s, t);
        AssetsRunAlone(all, vs[1..], asset, Decide(x.visit, s).0, t);
        assert Restrict(vs, asset) == Restrict(vs[1..], asset);
        assert AssetDecisions(vs, s, asset) == AssetDecisions(vs[1..], Decide(x.visit, s).0, asset);
      }
    }
  }

  /** For every run, from every state, whatever the clock and the rules in force do and however the assets are told
      apart: without collisions the decisions for one asset are those of the run restricted to it. */
  lemma AssetsDoNotInterfere<T>(vs: seq<Tagged<T>>, st: GateState, asset: T)
    requires NoCollisions(vs)
    ensures AssetDecisions(vs, st, asset) == Decisions(Restrict(vs, asset), st)
  {
    AssetsRunAlone(vs, vs, asset, st, st);
  }

  // ----- and exactly when -----------------------------------------------------

  /** What can arrive, under which rules and from which asset; when is left to the clock. */
  datatype Traffic<T> = Traffic(rules: seq<RuleConfig>, evt: Event, asset: T)

  datatype Timed<T> = Timed(traffic: Traffic<T>, now: Instant)

  function VisitAt<T>(t: Traffic<T>, now: Instant): Tagged<T> {
    Tagged(Resolve(t.rules, t.evt, now), t.asset)
  }

  function TaggedRun<T>(run: seq<Timed<T>>): (vs: seq<Tagged<T>>)
    ensures |vs| == |run|
  {
    seq(|run|, i requires 0 <= i < |run| => VisitAt(run[i].traffic, run[i].now))
  }

  /** Over every run of such arrivals, at whatever times, each asset is decided for as if it were alone. */
  ghost predicate FreeOfInterference<T(!new)>(traffic: iset<Traffic<T>>, st: GateState) {
    forall run: seq<Timed<T>>, asset: T | forall a | a in run :: a.traffic in traffic ::
      AssetDecisions(TaggedRun(run), st, asset) == Decisions(Restrict(TaggedRun(run), asset), st)
  }

  /** Two of the arrivals collide; the time is no part of it. */
  ghost predicate Collisions<T(!new)>(traffic: iset<Traffic<T>>) {
    exists t, u | t in traffic && u in traffic :: Collide(VisitAt(t, Instant(0)), VisitAt(u, Instant(0)))
  }

  lemma TimeDoesNotCollide<T>(t: Traffic<T>, u: Traffic<T>, a: Instant, b: Instant)
    ensures Collide(VisitAt(t, a), VisitAt(u, b)) <==> Collide(VisitAt(t, Instant(0)), VisitAt(u, Instant(0)))
  {
  }

  /** What the first visit to a new engine leaves behind. */
  lemma FirstVisit(v: Visit)
    requires v.rule.Some?
    ensures var (st, d) := Decide(v, NO_GATE_STATE);
            && (forall k | k in st.rates :: RateLimited(v) && k == v.rateKey)
            && st.dedup == (if Windowed(v) then map[v.windowKey := v.now.nanos] else map[])
            && st.samples == (if Sampled(v) then map[v.sampleKey := 1] else map[])
            && d.reason !in {"rule_rate_limit", "rule_duplicate_window", "rule_sample_drop"}
  {
    ReasonsDiffer(v.rule.value);
    assert "rule_sample_keep" != "rule_rate_limit" && |"rule_duplicate_window"| == 21;
    var (s1, within) := RateGate(v, NO_GATE_STATE);
    assert within && s1.dedup == map[] && s1.samples == map[];
    var (s2, novel) := DedupGate(v, s1);
    assert novel && s2.samples == map[];
  }

  /** What drops the second of two visits that meet, when it does. */
  function MeetingReason(u: Visit, v: Visit): string {
    if MeetAtRate(u, v) then "rule_rate_limit"
    else if MeetAtWindow(u, v) then "rule_duplicate_window"
    else "rule_sample_drop"
  }

  lemma SecondVisitDrops(u: Visit, v: Visit, st: GateState)
    requires !MeetAtRate(u, v) && (MeetAtWindow(u, v) || (MeetAtSampler(u, v) && Thins(v))) && u.now == v.now
    requires forall k | k in st.rates :: RateLimited(u) && k == u.rateKey
    requires st.dedup == if Windowed(u) then map[u.windowKey := u.now.nanos] else map[]
    requires st.samples == if Sampled(u) then map[u.sampleKey := 1] else map[]
    ensures Decide(v, st).1 == DropDecision(MeetingReason(u, v), v.rule.value.id)
  {
    var (s1, within) := RateGate(v, st);
    assert within && s1.dedup == st.dedup && s1.samples == st.samples;
    var (s2, novel) := DedupGate(v, s1);
    assert novel <==> !MeetAtWindow(u, v);
    if novel {
      var k := KeepEvery(v.rule.value);
      assert Inc(s2.samples, v.sampleKey)[v.sampleKey] == 2;
      assert 2 % k != 1 by { if k > 2 { assert 2 / k == 0; } }
    }
  }

  function Repeated(u: Visit, n: nat, st: GateState): GateState {
    if n == 0 then st else Repeated(u, n - 1, Decide(u, st).0)
  }

  lemma CountedOnce(u: Visit, st: GateState)
    requires RateLimited(u)
    ensures var sec := u.now.Unix();
            RateStep(Decide(u, st).0, u.rateKey, sec).count == RateStep(st, u.rateKey, sec).count + 1
  {
    assert Decide(u, st).0.rates == RateGate(u, st).0.rates;
  }

  lemma {:induction false} RepeatsCount(u: Visit, n: nat, st: GateState)
    requires RateLimited(u)
    ensures RateStep(Repeated(u, n, st), u.rateKey, u.now.Unix()).count ==
            RateStep(st, u.rateKey, u.now.Unix()).count + n
  {
    if n > 0 {
      CountedOnce(u, st);
      RepeatsCount(u, n - 1, Decide(u, st).0);
    }
  }

  /** As many visits as the other's limit allows in a second, and that one is over its limit. */
  lemma RepeatsExhaust(u: Visit, v: Visit)
    requires MeetAtRate(u, v) && u.now == v.now
    ensures Decide(v, Repeated(u, v.rule.value.rateLimitPerSecond, NO_GATE_STATE)).1 ==
            DropDecision("rule_rate_limit", v.rule.value.id)
  {
    RepeatsCount(u, v.rule.value.rateLimitPerSecond, NO_GATE_STATE);
  }

  function Copies<T>(x: T, n: nat): seq<T> {
    seq(n, _ => x)
  }

  lemma {:induction false} CopiesThen<T>(x: Tagged<T>, n: nat, y: Tagged<T>, st: GateState)
    requires x.asset != y.asset
    ensures AssetDecisions(Copies(x, n) + [y], st, y.asset) == [Decide(y.visit, Repeated(x.visit, n, st)).1]
    ensures Restrict(Copies(x, n) + [y], y.asset) == [y.visit]
  {
    var run := Copies(x, n) + [y];
    if n == 0 {
      assert run == [y] && run[1..] == [];
    } else {
      assert run[0] == x && run[1..] == Copies(x, n - 1) + [y];
      CopiesThen(x, n - 1, y, Decide(x.visit, st).0);
    }
  }

  /** How often the first has to come. */
  function Times(u: Visit, v: Visit): nat {
    if MeetAtRate(u, v) then v.rule.value.rateLimitPerSecond else 1
  }

  /** Of two assets that collide, one is dropped at once after the other, where alone it would not have been. */
  lemma SecondSuffers<T>(x: Tagged<T>, y: Tagged<T>)
    requires Collide(x, y) && x.visit.now == y.visit.now
    requires MeetAtSampler(x.visit, y.visit) && !MeetAtRate(x.visit, y.visit) && !MeetAtWindow(x.visit, y.visit)
             ==> Thins(y.visit)
    ensures var run, reason := Copies(x, Times(x.visit, y.visit)) + [y], MeetingReason(x.visit, y.visit);
            && AssetDecisions(run, NO_GATE_STATE, y.asset) == [DropDecision(reason, y.visit.rule.value.id)]
            && Decisions(Restrict(run, y.asset), NO_GATE_STATE) == [Decide(y.visit, NO_GATE_STATE).1]
            && AssetDecisions(run, NO_GATE_STATE, y.asset) != Decisions(Restrict(run, y.asset), NO_GATE_STATE)
    ensures Decide(y.visit, NO_GATE_STATE).1.reason !in
              {"rule_rate_limit", "rule_duplicate_window", "rule_sample_drop"}
  {
    var u, v, n := x.visit, y.visit, Times(x.visit, y.visit);
    FirstVisit(u);
    FirstVisit(v);
    CopiesThen(x, n, y, NO_GATE_STATE);
    if MeetAtRate(u, v) {
      RepeatsExhaust(u, v);
    } else {
      assert Repeated(u, 1, NO_GATE_STATE) == Repeated(u, 0, Decide(u, NO_GATE_STATE).0);
      SecondVisitDrops(u, v, Decide(u, NO_GATE_STATE).0);
    }
    assert [v][1..] == [] && Decisions([v], NO_GATE_STATE) == [Decide(v, NO_GATE_STATE).1] + [];
    assert DropDecision(MeetingReason(u, v), v.rule.value.id).reason != Decide(v, NO_GATE_STATE).1.reason;
  }

  lemma NotFree<T(!new)>(traffic: iset<Traffic<T>>, run: seq<Timed<T>>, asset: T, st: GateState)
    requires forall a | a in run :: a.traffic in traffic
    requires AssetDecisions(TaggedRun(run), st, asset) != Decisions(Restrict(TaggedRun(run), asset), st)
    ensures !FreeOfInterference(traffic, st)
  {
  }

  lemma RunOfCopies<T>(t: Traffic<T>, u: Traffic<T>, n: nat)
    ensures TaggedRun(Copies(Timed(t, Instant(0)), n) + [Timed(u, Instant(0))]) ==
            Copies(VisitAt(t, Instant(0)), n) + [VisitAt(u, Instant(0))]
  {
  }

  lemma CollisionInterferes<T(!new)>(traffic: iset<Traffic<T>>, t: Traffic<T>, u: Traffic<T>)
    requires t in traffic && u in traffic
    requires var x, y := VisitAt(t, Instant(0)), VisitAt(u, Instant(0));
             && Collide(x, y)
             && (MeetAtSampler(x.visit, y.visit) && !MeetAtRate(x.visit, y.visit) && !MeetAtWindow(x.visit, y.visit)
                 ==> Thins(y.visit))
    ensures !FreeOfInterference(traffic, NO_GATE_STATE)
  {
    var x, y := VisitAt(t, Instant(0)), VisitAt(u, Instant(0));
    var n := Times(x.visit, y.visit);
    var run := Copies(Timed(t, Instant(0)), n) + [Timed(u, Instant(0))];
    SecondSuffers(x, y);
    assert TaggedRun(run) == Copies(x, n) + [y] by { RunOfCopies(t, u, n); }
    NotFree(traffic, run, y.asset, NO_GATE_STATE);
  }

  /** However the assets are told apart: arrivals are free of interference, over every run and every clock, if and only
      if no two of different assets collide, at the rate limit, the window or the sampler: on a new engine exactly
      then, and then from every state. */
  lemma InterferenceIffCollision<T(!new)>(traffic: iset<Traffic<T>>)
    ensures FreeOfInterference(traffic, NO_GATE_STATE) <==> !Collisions(traffic)
    ensures !Collisions(traffic) ==> forall st :: FreeOfInterference(traffic, st)
  {
    if Collisions(traffic) {
      var t, u :| t in traffic && u in traffic && Collide(VisitAt(t, Instant(0)), VisitAt(u, Instant(0)));
      var x, y := VisitAt(t, Instant(0)), VisitAt(u, Instant(0));
      if MeetAtRate(x.visit, y.visit) || MeetAtWindow(x.visit, y.visit) || Thins(y.visit) {
        CollisionInterferes(traffic, t, u);
      } else {
        CollisionInterferes(traffic, u, t);
      }
    } else {
      forall run: seq<Timed<T>>, st, asset: T | forall a | a in run :: a.traffic in traffic
        ensures AssetDecisions(TaggedRun(run), st, asset) == Decisions(Restrict(TaggedRun(run), asset), st)
      {
        DrawnDoNotCollide(run, traffic);
        AssetsDoNotInterfere(TaggedRun(run), st, asset);
      }
    }
  }

  lemma DrawnDoNotCollide<T(!new)>(run: seq<Timed<T>>, traffic: iset<Traffic<T>>)
    requires (forall a | a in run :: a.traffic in traffic) && !Collisions(traffic)
    ensures NoCollisions(TaggedRun(run))
  {
    var vs := TaggedRun(run);
    forall x, y | x in vs && y in vs
      ensures !Collide(x, y)
    {
      var i: nat :| i < |run| && vs[i] == x;
      var j: nat :| j < |run| && vs[j] == y;
      TimeDoesNotCollide(run[i].traffic, run[j].traffic, run[i].now, run[j].now);
    }
  }

  // ----- which events cannot collide ------------------------------------------

  /** The usual way to tell assets apart: by the matched rule's id, and by address, else name, else source type. */
  datatype Source = Source(ruleId: string, source: string)

  function SourceIn(a: Arrival): Source {
    var i := FirstMatch(a.rules, a.evt);
    if i == |a.rules| then Source("", SourceOf(a.evt)) else Source(a.rules[i].id, SourceOf(a.evt))
  }

  function BySource(run: seq<Arrival>): (vs: seq<Tagged<Source>>)
    ensures |vs| == |run|
  {
    seq(|run|, i requires 0 <= i < |run| => Tagged(VisitOf(run[i]), SourceIn(run[i])))
  }

  predicate HasAsset(evt: Event) {
    evt.assetIp != "" || evt.assetName != ""
  }

  predicate BarFree(rule: RuleConfig, evt: Event) {
    '|' !in rule.id && '|' !in evt.assetIp && '|' !in evt.assetName
  }

  /** No bar in the id, the address or the name, nor in the source type where that stands in for them. */
  predicate SourceBarFree(rule: RuleConfig, evt: Event) {
    BarFree(rule, evt) && (HasAsset(evt) || '|' !in evt.sourceType)
  }

  /** What the gates of the matched rule ask of the event. Later fields, such as category, operation or message, may
      hold anything. */
  predicate Separable(a: Arrival) {
    var v := VisitOf(a);
    && (RateLimited(v) ==> '|' !in v.rule.value.id)
    && (Windowed(v) ==> SourceBarFree(v.rule.value, a.evt))
    && (Sampled(v) ==> BarFree(v.rule.value, a.evt) && HasAsset(a.evt))
  }

  lemma RateKeyFixesSource(r1: RuleConfig, e1: Event, r2: RuleConfig, e2: Event)
    requires '|' !in r1.id && '|' !in r2.id && RateKey(r1, e1) == RateKey(r2, e2)
    ensures r1.id == r2.id && SourceOf(e1) == SourceOf(e2)
  {
    RateKeyParts(r1, e1);
    RateKeyParts(r2, e2);
    BarSplitUnique(r1.id, r2.id, SourceOf(e1), SourceOf(e2));
  }

  lemma WindowKeyFixesSource(r1: RuleConfig, e1: Event, r2: RuleConfig, e2: Event)
    requires SourceBarFree(r1, e1) && SourceBarFree(r2, e2)
    requires DedupKey(r1, e1) == DedupKey(r2, e2)
    ensures r1.id == r2.id && SourceOf(e1) == SourceOf(e2) && RateKey(r1, e1) == RateKey(r2, e2)
  {
    var f1, f2 := DedupFields(r1, e1), DedupFields(r2, e2);
    JoinPrefixInjective(f1, f2, 3);
    assert forall i | 0 <= i < 3 :: f1[..3][i] == f2[..3][i];
    assert f1[0] == f2[0] && f1[1] == f2[1] && f1[2] == f2[2];
    if !HasAsset(e1) {
      JoinPrefixInjective(f1, f2, 4);
      assert f1[..4][3] == f2[..4][3];
    }
  }

  lemma SampleKeyFixesAsset(r1: RuleConfig, e1: Event, r2: RuleConfig, e2: Event)
    requires BarFree(r1, e1) && BarFree(r2, e2)
    requires SampleKey(r1, e1) == SampleKey(r2, e2)
    ensures r1.id == r2.id && e1.assetIp == e2.assetIp && e1.assetName == e2.assetName
  {
    var f1, f2 := SampleFields(r1, e1), SampleFields(r2, e2);
    JoinPrefixInjective(f1, f2, 3);
    assert forall i | 0 <= i < 3 :: f1[..3][i] == f2[..3][i];
    assert f1[0] == f2[0] && f1[1] == f2[1] && f1[2] == f2[2];
  }

  /** The sample key leaves the source type out, so it tells sources apart exactly for events that carry an
      address or a name. */
  lemma SampleKeyFixesSourceIffAsset(rule: RuleConfig, evt: Event)
    requires BarFree(rule, evt)
    ensures (forall r: RuleConfig, e: Event ::
               BarFree(r, e) && SampleKey(r, e) == SampleKey(rule, evt) ==> RateKey(r, e) == RateKey(rule, evt))
            <==> HasAsset(evt)
  {
    forall r: RuleConfig, e: Event | BarFree(r, e) && SampleKey(r, e) == SampleKey(rule, evt) && HasAsset(evt)
      ensures RateKey(r, e) == RateKey(rule, evt)
    {
      SampleKeyFixesAsset(r, e, rule, evt);
    }
    if !HasAsset(evt) {
      var other := evt.(sourceType := evt.sourceType + "x");
      assert SampleFields(rule, other) == SampleFields(rule, evt);
      assert SampleKey(rule, other) == SampleKey(rule, evt) && BarFree(rule, other);
      RateKeyParts(rule, other);
      RateKeyParts(rule, evt);
      assert |RateKey(rule, other)| == |RateKey(rule, evt)| + 1;
    }
  }

  lemma SeparableDoNotMeet(a: Arrival, b: Arrival)
    requires Separable(a) && Separable(b) && Meet(VisitOf(a), VisitOf(b))
    ensures SourceIn(a) == SourceIn(b)
  {
    var u, v := VisitOf(a), VisitOf(b);
    var r1, r2 := u.rule.value, v.rule.value;
    if MeetAtRate(u, v) {
      RateKeyFixesSource(r1, a.evt, r2, b.evt);
    } else if MeetAtWindow(u, v) {
      WindowKeyFixesSource(r1, a.evt, r2, b.evt);
    } else {
      SampleKeyFixesAsset(r1, a.evt, r2, b.evt);
    }
  }

  /** Sources told apart by rule id and address, name or type do not interfere, as long as no bar stands in the fields
      that the keys in use need and events under sampling rules carry an address or a name. */
  lemma SeparableAssetsDoNotInterfere(run: seq<Arrival>, st: GateState, source: Source)
    requires forall a | a in run :: Separable(a)
    ensures AssetDecisions(BySource(run), st, source) == Decisions(Restrict(BySource(run), source), st)
  {
    var vs := BySource(run);
    forall x, y | x in vs && y in vs
      ensures !Collide(x, y)
    {
      var i: nat :| i < |run| && vs[i] == x;
      var j: nat :| j < |run| && vs[j] == y;
      if Meet(x.visit, y.visit) { SeparableDoNotMeet(run[i], run[j]); }
    }
    AssetsDoNotInterfere(vs, st, source);
  }

  // ----- and three ways in which they do ------------------------------------------

  /** One event of the second asset at once after `times` of the first, and the second on its own. */
  function Interleaved(rule: RuleConfig, e1: Event, times: nat, e2: Event, now: Instant): seq<Tagged<int>> {
    Copies(Tagged(VisitFor(rule, e1, now), 1), times) + [Tagged(VisitFor(rule, e2, now), 2)]
  }

  lemma TwoAssets(rule: RuleConfig, e1: Event, e2: Event, now: Instant)
    requires var u, v := VisitFor(rule, e1, now), VisitFor(rule, e2, now); Meet(u, v)
    ensures var u, v := VisitFor(rule, e1, now), VisitFor(rule, e2, now);
            var run := Interleaved(rule, e1, Times(u, v), e2, now);
            && AssetDecisions(run, NO_GATE_STATE, 2) == [DropDecision(MeetingReason(u, v), rule.id)]
            && Decisions(Restrict(run, 2), NO_GATE_STATE) == [Decide(v, NO_GATE_STATE).1]
            && Decide(v, NO_GATE_STATE).1.reason !in {"rule_rate_limit", "rule_duplicate_window", "rule_sample_drop"}
  {
    SecondSuffers(Tagged(VisitFor(rule, e1, now), 1), Tagged(VisitFor(rule, e2, now), 2));
  }

  /** The rate limit goes by address, else by name: an asset that sends no address and is named like another's address
      shares that one's limit, under every rule that has one, and gets dropped when the other has used it up. */
  lemma NameActsAsAddress(rule: RuleConfig, host: string, name: string, now: Instant)
    requires rule.rateLimitPerSecond > 0 && host != ""
    ensures var e1, e2 := Event(assetIp := host, assetName := name), Event(assetName := host);
            var run := Interleaved(rule, e1, rule.rateLimitPerSecond, e2, now);
            && AssetDecisions(run, NO_GATE_STATE, 2) == [DropDecision("rule_rate_limit", rule.id)]
            && Decisions(Restrict(run, 2), NO_GATE_STATE) != [DropDecision("rule_rate_limit", rule.id)]
  {
    var e1, e2 := Event(assetIp := host, assetName := name), Event(assetName := host);
    assert SourceOf(e1) == SourceOf(e2);
    TwoAssets(rule, e1, e2, now);
  }

  /** Events without address and name share a sample counter across source types: under any sampling rule
      that keeps less than everything, one of another type costs this one its place. */
  lemma NamelessSourcesInterfere(rule: RuleConfig, e1: Event, e2: Event, now: Instant)
    requires rule.rateLimitPerSecond <= 0 && rule.dedupWindowSeconds <= 0
    requires IsSample(rule) && KeepEvery(rule) >= 2
    requires !HasAsset(e1) && !HasAsset(e2) && e1.category == e2.category && e1.message == e2.message
    ensures var run := Interleaved(rule, e1, 1, e2, now);
            && AssetDecisions(run, NO_GATE_STATE, 2) == [DropDecision("rule_sample_drop", rule.id)]
            && Decisions(Restrict(run, 2), NO_GATE_STATE) == [SampleKeep(rule)]
  {
    assert SampleFields(rule, e1) == SampleFields(rule, e2);
    TwoAssets(rule, e1, e2, now);
    assert Decide(VisitFor(rule, e2, now), NO_GATE_STATE).1 == SampleKeep(rule);
  }

  lemma SecondAndThird(f: seq<string>)
    requires |f| >= 4
    ensures Join(f[1..], "|") == (f[1] + "|" + f[2]) + ("|" + Join(f[3..], "|"))
  {
    JoinStep(f[1..], "|");
    JoinStep(f[1..][1..], "|");
    assert f[1..][1..][1..] == f[3..];
  }

  /** Joined fields that differ only in where a bar stands between the second and the third. */
  lemma SameMiddle(f: seq<string>, g: seq<string>)
    requires |f| >= 4 && |g| >= 4 && f[0] == g[0] && f[3..] == g[3..]
    requires f[1] + "|" + f[2] == g[1] + "|" + g[2]
    ensures Join(f, "|") == Join(g, "|")
  {
    SecondAndThird(f);
    SecondAndThird(g);
    JoinStep(f, "|");
    JoinStep(g, "|");
  }

  /** An address with a bar anywhere in it makes one duplicate key with the address before the bar and the rest in the
      name. So under any rule with a duplicate window the one asset's event gets the other's dropped, which alone
      would not be. */
  lemma BarsConfuseAssets(rule: RuleConfig, x: string, y: string, z: string, now: Instant)
    requires rule.dedupWindowSeconds > 0
    ensures var e1, e2 := Event(assetIp := x + "|" + y, assetName := z), Event(assetIp := x, assetName := y + "|" + z);
            var u, v := VisitFor(rule, e1, now), VisitFor(rule, e2, now);
            var run := Interleaved(rule, e1, Times(u, v), e2, now);
            && DedupKey(rule, e1) == DedupKey(rule, e2)
            && AssetDecisions(run, NO_GATE_STATE, 2) == [DropDecision(MeetingReason(u, v), rule.id)]
            && MeetingReason(u, v) in {"rule_rate_limit", "rule_duplicate_window"}
            && Decisions(Restrict(run, 2), NO_GATE_STATE) == [Decide(v, NO_GATE_STATE).1]
            && Decide(v, NO_GATE_STATE).1.reason !in {"rule_rate_limit", "rule_duplicate_window"}
  {
    var e1, e2 := Event(assetIp := x + "|" + y, assetName := z), Event(assetIp := x, assetName := y + "|" + z);
    assert (x + "|" + y) + "|" + z == x + "|" + (y + "|" + z);
    SameMiddle(DedupFields(rule, e1), DedupFields(rule, e2));
    TwoAssets(rule, e1, e2, now);
  }
}
