/** Rule edits that overlap. A request changes the store under the store's lock and then, in a separate step, hands
    a list to the engine under the engine's lock; nothing holds the two together. */
module RuleRaces {
  import opened Events
  import opened Sums
  import opened Rules
  import opened RuleAdmin

  /** Where a request stands: a saved POST holds its payload at once, a saved PUT or DELETE still has to read the
      store. A list held was the store's, up to sanitising, at some version. */
  datatype RequestPc = Fresh | Changed | Holding(rules: seq<RuleConfig>, version: nat) | Done

  /** All versions the store has had, the latest last, and what the engine runs on. */
  datatype Race = Race(
    versions: seq<seq<RuleConfig>>,
    engine: seq<RuleConfig>,
    engineVersion: nat,
    requests: seq<RequestPc>)

  datatype RaceStep = Change(k: nat, op: AdminOp) | Read(k: nat) | Set(k: nat)

  function Latest(r: Race): seq<RuleConfig>
    requires r.versions != []
  {
    r.versions[|r.versions| - 1]
  }

  predicate Enabled(r: Race, s: RaceStep) {
    && r.versions != [] && s.k < |r.requests|
    && match s
       case Change(k, op) => r.requests[k].Fresh? && Accepted(op)
       case Read(k) => r.requests[k].Changed?
       case Set(k) => r.requests[k].Holding?
  }

  function Move(r: Race, k: nat, pc: RequestPc): Race
    requires k < |r.requests|
  {
    r.(requests := r.requests[k := pc])
  }

  /** A change whose write fails stays in the store, and its request goes no further. */
  function Apply(r: Race, s: RaceStep): Race
    requires Enabled(r, s)
  {
    match s
    case Change(k, op) =>
      var pc := if !op.write.Saved? then Done
                else if op.Post? then Holding(op.all.value, |r.versions|)
                else Changed;
      Move(r, k, pc).(versions := r.versions + [StoreAfter(Latest(r), op)])
    case Read(k) => Move(r, k, Holding(Latest(r), |r.versions| - 1))
    case Set(k) =>
      Move(r, k, Done).(engine := r.requests[k].rules, engineVersion := r.requests[k].version)
  }

  predicate Runs(r: Race, steps: seq<RaceStep>)
    decreases |steps|, 0
  {
    steps == [] ||
    (Runs(r, steps[..|steps| - 1]) && Enabled(After(r, steps[..|steps| - 1]), steps[|steps| - 1]))
  }

  function After(r: Race, steps: seq<RaceStep>): (t: Race)
    requires Runs(r, steps)
    ensures r.versions != [] ==> t.versions != []
    ensures |t.requests| == |r.requests|
    decreases |steps|, 1
  {
    if steps == [] then r else Apply(After(r, steps[..|steps| - 1]), steps[|steps| - 1])
  }

  lemma RunsSnoc(r: Race, steps: seq<RaceStep>, s: RaceStep)
    requires Runs(r, steps) && Enabled(After(r, steps), s)
    ensures Runs(r, steps + [s]) && After(r, steps + [s]) == Apply(After(r, steps), s)
  {
    assert (steps + [s])[..|steps|] == steps;
  }

  lemma {:induction false} RunsConcat(r: Race, a: seq<RaceStep>, b: seq<RaceStep>)
    requires Runs(r, a) && Runs(After(r, a), b)
    ensures Runs(r, a + b) && After(r, a + b) == After(After(r, a), b)
  {
    if b == [] {
      assert a + b == a;
    } else {
      var front, last := b[..|b| - 1], b[|b| - 1];
      RunsConcat(r, a, front);
      RunsSnoc(r, a + front, last);
      FrontLast(b);
      Regroup(a, front, [last]);
    }
  }

  function Started(rules: seq<RuleConfig>, requests: nat): Race {
    Race([rules], rules, 0, seq(requests, _ => Fresh))
  }

  // ----- every interleaving ---------------------------------------------------------

  /** This list says what the store said at that version. */
  predicate Speaks(r: Race, rules: seq<RuleConfig>, version: nat) {
    version < |r.versions| && Sanitize(rules) == r.versions[version]
  }

  predicate Inv(r: Race) {
    && r.versions != []
    && (forall v | 0 <= v < |r.versions| :: Clean(r.versions[v]))
    && Speaks(r, r.engine, r.engineVersion)
    && forall k | 0 <= k < |r.requests| && r.requests[k].Holding? ::
         Speaks(r, r.requests[k].rules, r.requests[k].version)
  }

  /** A saved POST's payload and the store it leaves behind say the same. */
  lemma ChangedStore(store: seq<RuleConfig>, op: AdminOp)
    requires Clean(store) && Accepted(op)
    ensures Clean(StoreAfter(store, op))
    ensures op.Post? ==> Sanitize(op.all.value) == StoreAfter(store, op)
  {
    StepKeepsClean(AdminState(store, store), op);
  }

  lemma StepKeepsInv(r: Race, s: RaceStep)
    requires Inv(r) && Enabled(r, s)
    ensures Inv(Apply(r, s))
  {
    var t, latest := Apply(r, s), Latest(r);
    assert Sanitize(latest) == latest by { CleanIsFixed(latest); }
    if s.Change? {
      ChangedStore(latest, s.op);
      assert t.versions == r.versions + [StoreAfter(latest, s.op)];
    }
    forall k | 0 <= k < |t.requests| && t.requests[k].Holding?
      ensures Speaks(t, t.requests[k].rules, t.requests[k].version)
    {
      if k != s.k { assert t.requests[k] == r.requests[k]; }
    }
  }

  lemma {:induction false} RunKeepsInv(r: Race, steps: seq<RaceStep>)
    requires Inv(r) && Runs(r, steps)
    ensures Inv(After(r, steps))
  {
    if steps != [] {
      RunKeepsInv(r, steps[..|steps| - 1]);
      StepKeepsInv(After(r, steps[..|steps| - 1]), steps[|steps| - 1]);
    }
  }

  /** Under every interleaving of any number of edits, failed writes included: the store stays clean, and the engine
      runs on a list that sanitises to a version the store really had. The two agree exactly when that version
      and the latest one are equal. */
  lemma EngineRunsARealVersion(rules: seq<RuleConfig>, requests: nat, steps: seq<RaceStep>)
    requires Clean(rules) && Runs(Started(rules, requests), steps)
    ensures var r := After(Started(rules, requests), steps);
            && Inv(r)
            && (InSync(AdminState(Latest(r), r.engine)) <==> r.versions[r.engineVersion] == Latest(r))
  {
    CleanIsFixed(rules);
    RunKeepsInv(Started(rules, requests), steps);
  }

  // ----- which version, told from the schedule ------------------------------------------

  /** How many of the first n steps changed the store. */
  function Changes(steps: seq<RaceStep>, n: nat): nat
    requires n <= |steps|
  {
    if n == 0 then 0 else Changes(steps, n - 1) + if steps[n - 1].Change? then 1 else 0
  }

  lemma {:induction false} ChangesOfPrefix(steps: seq<RaceStep>, more: seq<RaceStep>, n: nat)
    requires n <= |steps|
    ensures Changes(steps + more, n) == Changes(steps, n)
  {
    if n > 0 { ChangesOfPrefix(steps, more, n - 1); }
  }

  /** With this step the list request k will hand to the engine is fixed. */
  predicate Fixes(s: RaceStep, k: nat) {
    s.k == k && (s.Read? || (s.Change? && s.op.Post? && s.op.write.Saved?))
  }

  lemma {:induction false} ChangesMakeVersions(rules: seq<RuleConfig>, requests: nat, steps: seq<RaceStep>)
    requires Runs(Started(rules, requests), steps)
    ensures |After(Started(rules, requests), steps).versions| == 1 + Changes(steps, |steps|)
  {
    if steps != [] {
      var front, last := steps[..|steps| - 1], steps[|steps| - 1];
      ChangesMakeVersions(rules, requests, front);
      FrontLast(steps);
      ChangesOfPrefix(front, [last], |front|);
    }
  }

  /** A request that has its list holds the version there was when the list was fixed, until it hands it over. */
  lemma {:induction false} FixedVersion(rules: seq<RuleConfig>, requests: nat, steps: seq<RaceStep>, p: nat, k: nat)
    requires Runs(Started(rules, requests), steps) && p < |steps| && Fixes(steps[p], k)
    ensures var t := After(Started(rules, requests), steps);
            k < |t.requests| &&
            (t.requests[k].Done? || (t.requests[k].Holding? && t.requests[k].version == Changes(steps, p + 1)))
  {
    var front, last := steps[..|steps| - 1], steps[|steps| - 1];
    FrontLast(steps);
    ChangesMakeVersions(rules, requests, front);
    if p < |front| {
      FixedVersion(rules, requests, front, p, k);
      ChangesOfPrefix(front, [last], p + 1);
    } else {
      ChangesOfPrefix(front, [last], |front|);
    }
  }

  lemma {:induction false} EngineVersion(rules: seq<RuleConfig>, requests: nat, steps: seq<RaceStep>, p: nat, q: nat,
                                         k: nat)
    requires Runs(Started(rules, requests), steps) && p < q < |steps|
    requires Fixes(steps[p], k) && steps[q] == Set(k) && forall i | q < i < |steps| :: !steps[i].Set?
    ensures After(Started(rules, requests), steps).engineVersion == Changes(steps, p + 1)
  {
    var front, last := steps[..|steps| - 1], steps[|steps| - 1];
    FrontLast(steps);
    ChangesOfPrefix(front, [last], p + 1);
    if q == |front| {
      FixedVersion(rules, requests, front, p, k);
    } else {
      EngineVersion(rules, requests, front, p, q, k);
    }
  }

  /** Under every interleaving: when request k is the last to hand its list over, and that list was fixed at step p,
      the engine runs the version there was at that point. So the two agree exactly when the changes after step p
      left the store as it was, and in particular when there were none. */
  lemma LastHandoverDecides(rules: seq<RuleConfig>, requests: nat, steps: seq<RaceStep>, p: nat, q: nat, k: nat)
    requires Clean(rules) && Runs(Started(rules, requests), steps) && p < q < |steps|
    requires Fixes(steps[p], k) && steps[q] == Set(k) && forall i | q < i < |steps| :: !steps[i].Set?
    ensures var r, version := After(Started(rules, requests), steps), Changes(steps, p + 1);
            && r.engineVersion == version < |r.versions| == 1 + Changes(steps, |steps|)
            && (InSync(AdminState(Latest(r), r.engine)) <==> r.versions[version] == Latest(r))
            && (Changes(steps, |steps|) == version ==> InSync(AdminState(Latest(r), r.engine)))
  {
    EngineRunsARealVersion(rules, requests, steps);
    EngineVersion(rules, requests, steps, p, q, k);
    ChangesMakeVersions(rules, requests, steps);
  }

  lemma SavedPost(r: Race, k: nat, list: seq<RuleConfig>)
    requires r.versions != [] && k < |r.requests| && r.requests[k].Fresh?
    ensures Enabled(r, Change(k, Post(Some(list), Saved)))
    ensures Apply(r, Change(k, Post(Some(list), Saved))) ==
            Race(r.versions + [Sanitize(list)], r.engine, r.engineVersion, r.requests[k := Holding(list, |r.versions|)])
  {
  }

  lemma RunsFour(r: Race, s0: RaceStep, s1: RaceStep, s2: RaceStep, s3: RaceStep)
    requires Enabled(r, s0) && Enabled(Apply(r, s0), s1) && Enabled(Apply(Apply(r, s0), s1), s2)
    requires Enabled(Apply(Apply(Apply(r, s0), s1), s2), s3)
    ensures Runs(r, [s0, s1, s2, s3])
    ensures After(r, [s0, s1, s2, s3]) == Apply(Apply(Apply(Apply(r, s0), s1), s2), s3)
  {
    RunsSnoc(r, [], s0);
    assert [] + [s0] == [s0];
    RunsSnoc(r, [s0], s1);
    assert [s0] + [s1] == [s0, s1];
    RunsSnoc(r, [s0, s1], s2);
    assert [s0, s1] + [s2] == [s0, s1, s2];
    RunsSnoc(r, [s0, s1, s2], s3);
    assert [s0, s1, s2] + [s3] == [s0, s1, s2, s3];
  }

  /** The version need not be the latest. Two saved POSTs that reach the store in one order and the engine in the
      other leave the engine on the overwritten list for good, unless both lists say the same. */
  lemma OvertakenPostsPart(rules: seq<RuleConfig>, a: seq<RuleConfig>, b: seq<RuleConfig>)
    requires Clean(rules)
    ensures var steps := [Change(0, Post(Some(a), Saved)), Change(1, Post(Some(b), Saved)), Set(1), Set(0)];
            && Runs(Started(rules, 2), steps)
            && var r := After(Started(rules, 2), steps);
               && r.requests == [Done, Done] && Latest(r) == Sanitize(b) && r.engine == a
               && (InSync(AdminState(Latest(r), r.engine)) <==> Sanitize(a) == Sanitize(b))
  {
    var r0 := Started(rules, 2);
    SavedPost(r0, 0, a);
    var r1 := Apply(r0, Change(0, Post(Some(a), Saved)));
    SavedPost(r1, 1, b);
    var r2 := Apply(r1, Change(1, Post(Some(b), Saved)));
    RunsFour(r0, Change(0, Post(Some(a), Saved)), Change(1, Post(Some(b), Saved)), Set(1), Set(0));
  }

  // ----- edits that do not overlap ------------------------------------------------------

  function StepsOf(k: nat, op: AdminOp): seq<RaceStep> {
    if !op.write.Saved? then [Change(k, op)]
    else if op.Post? then [Change(k, op)] + [Set(k)]
    else [Change(k, op)] + [Read(k)] + [Set(k)]
  }

  /** An edit nobody overtakes has the effect of the handler run on its own. */
  lemma EditAloneIsItsSteps(r: Race, k: nat, op: AdminOp)
    requires Enabled(r, Change(k, op))
    ensures Runs(r, StepsOf(k, op))
    ensures var t := After(r, StepsOf(k, op));
            && t.versions != [] && t.requests == r.requests[k := Done]
            && AdminState(Latest(t), t.engine) == AdminStep(AdminState(Latest(r), r.engine), op)
  {
    var store := StoreAfter(Latest(r), op);
    RunsSnoc(r, [], Change(k, op));
    assert [] + [Change(k, op)] == [Change(k, op)];
    assert Latest(After(r, [Change(k, op)])) == store;
    if op.write.Saved? {
      if op.Post? {
        RunsSnoc(r, [Change(k, op)], Set(k));
      } else {
        RunsSnoc(r, [Change(k, op)], Read(k));
        RunsSnoc(r, [Change(k, op)] + [Read(k)], Set(k));
      }
    }
  }

  /** Requests with their edits, one after the other. */
  function Serial(edits: seq<(nat, AdminOp)>): seq<RaceStep> {
    if edits == [] then []
    else
      var last := edits[|edits| - 1];
      Serial(edits[..|edits| - 1]) + StepsOf(last.0, last.1)
  }

  function Ops(edits: seq<(nat, AdminOp)>): seq<AdminOp> {
    seq(|edits|, i requires 0 <= i < |edits| => edits[i].1)
  }

  predicate Distinct(edits: seq<(nat, AdminOp)>, requests: nat) {
    && (forall i | 0 <= i < |edits| :: edits[i].0 < requests && Accepted(edits[i].1))
    && forall i, j | 0 <= i < j < |edits| :: edits[i].0 != edits[j].0
  }

  /** Requests no edit has used have not begun. */
  predicate OthersFresh(t: Race, edits: seq<(nat, AdminOp)>) {
    forall k | 0 <= k < |t.requests| && (forall i | 0 <= i < |edits| :: edits[i].0 != k) :: t.requests[k].Fresh?
  }

  lemma OneEditMore(r: Race, steps: seq<RaceStep>, k: nat, op: AdminOp)
    requires Runs(r, steps) && Enabled(After(r, steps), Change(k, op))
    ensures Runs(r, steps + StepsOf(k, op))
    ensures var t, u := After(r, steps), After(r, steps + StepsOf(k, op));
            && t.versions != [] && u.versions != [] && u.requests == t.requests[k := Done]
            && AdminState(Latest(u), u.engine) == AdminStep(AdminState(Latest(t), t.engine), op)
  {
    EditAloneIsItsSteps(After(r, steps), k, op);
    RunsConcat(r, steps, StepsOf(k, op));
  }

  lemma OpsSnoc(front: seq<(nat, AdminOp)>, last: (nat, AdminOp), s: AdminState)
    ensures AdminRun(s, Ops(front + [last])) == AdminStep(AdminRun(s, Ops(front)), last.1)
  {
    assert Ops(front + [last]) == Ops(front) + [last.1];
    assert (Ops(front) + [last.1])[..|front|] == Ops(front);
  }

  lemma FreshSnoc(t: Race, u: Race, front: seq<(nat, AdminOp)>, last: (nat, AdminOp))
    requires OthersFresh(t, front) && last.0 < |t.requests| && u.requests == t.requests[last.0 := Done]
    ensures OthersFresh(u, front + [last])
  {
    var edits := front + [last];
    forall k | 0 <= k < |u.requests| && forall i | 0 <= i < |edits| :: edits[i].0 != k
      ensures u.requests[k].Fresh?
    {
      assert edits[|front|] == last;
      assert forall i | 0 <= i < |front| :: front[i] == edits[i];
    }
  }

  lemma {:induction false} SerialEditsRun(rules: seq<RuleConfig>, requests: nat, edits: seq<(nat, AdminOp)>)
    requires Distinct(edits, requests)
    ensures Runs(Started(rules, requests), Serial(edits))
    ensures var t := After(Started(rules, requests), Serial(edits));
            && AdminState(Latest(t), t.engine) == AdminRun(AdminState(rules, rules), Ops(edits))
            && OthersFresh(t, edits)
  {
    if edits != [] {
      var front, last := edits[..|edits| - 1], edits[|edits| - 1];
      var r := Started(rules, requests);
      FrontLast(edits);
      assert forall i | 0 <= i < |front| :: front[i] == edits[i];
      SerialEditsRun(rules, requests, front);
      var t := After(r, Serial(front));
      assert t.requests[last.0].Fresh?;
      OneEditMore(r, Serial(front), last.0, last.1);
      OpsSnoc(front, last, AdminState(rules, rules));
      FreshSnoc(t, After(r, Serial(edits)), front, last);
    }
  }

  /** Edits that do not overlap are the sequential run of their handlers, so the store tracks the engine. */
  lemma SerialEditsStayInSync(rules: seq<RuleConfig>, requests: nat, edits: seq<(nat, AdminOp)>)
    requires Clean(rules) && Distinct(edits, requests)
    ensures Runs(Started(rules, requests), Serial(edits))
    ensures var t := After(Started(rules, requests), Serial(edits));
            && AdminState(Latest(t), t.engine) == AdminRun(AdminState(rules, rules), Ops(edits))
            && (LastWriteSaved(Ops(edits)) ==> InSync(AdminState(Latest(t), t.engine)))
  {
    SerialEditsRun(rules, requests, edits);
    StoreTracksEngine(rules, Ops(edits));
  }
}
