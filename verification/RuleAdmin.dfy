/** The administrative steps on the rules: each changes the store, then the engine. */
module RuleAdmin {
  import opened Events
  import opened Text
  import opened Filter
  import opened Rules
  import opened RuleSemantics

  /** The rule lists the store and the engine hold. */
  datatype AdminState = AdminState(store: seq<RuleConfig>, engine: seq<RuleConfig>)

  /** A payload of None stands for a body that does not decode. */
  datatype AdminOp =
    | Post(all: Option<seq<RuleConfig>>, write: DiskWrite)
    | Put(id: string, one: Option<RuleConfig>, write: DiskWrite)
    | Delete(id: string, write: DiskWrite)

  datatype Status = Ok | BadRequest | ServerError

  predicate Accepted(op: AdminOp) {
    match op
    case Post(all, _) => all.Some?
    case Put(id, one, _) => id != "" && one.Some?
    case Delete(id, _) => id != ""
  }

  function StoreAfter(store: seq<RuleConfig>, op: AdminOp): seq<RuleConfig>
    requires Accepted(op)
  {
    match op
    case Post(all, _) => Sanitize(all.value)
    case Put(id, one, _) => Sanitize(Upserted(store, one.value.(id := id)))
    case Delete(id, _) => Without(store, id)
  }

  /** A POST hands the engine the list as received, not as sanitised; the other two hand it the store's. */
  function AdminStep(s: AdminState, op: AdminOp): AdminState {
    if !Accepted(op) then s
    else
      var store := StoreAfter(s.store, op);
      if !op.write.Saved? then AdminState(store, s.engine)
      else AdminState(store, if op.Post? then op.all.value else store)
  }

  function AdminRun(s: AdminState, ops: seq<AdminOp>): AdminState {
    if ops == [] then s else AdminStep(AdminRun(s, ops[..|ops| - 1]), ops[|ops| - 1])
  }

  predicate InSync(s: AdminState) {
    s.store == Sanitize(s.engine)
  }

  /** The latest step that was accepted also reached the disk; true when there is none. */
  predicate LastWriteSaved(ops: seq<AdminOp>) {
    if ops == [] then true
    else
      var op := ops[|ops| - 1];
      if Accepted(op) then op.write.Saved? else LastWriteSaved(ops[..|ops| - 1])
  }

  lemma StepKeepsClean(s: AdminState, op: AdminOp)
    requires Clean(s.store)
    ensures Clean(AdminStep(s, op).store)
    ensures Accepted(op) && op.write.Saved? ==> InSync(AdminStep(s, op))
  {
    if Accepted(op) {
      match op
      case Post(all, _) =>
        SanitizeCleans(all.value);
      case Put(id, one, _) =>
        SanitizeCleans(Upserted(s.store, one.value.(id := id)));
        SanitizeIdempotent(Upserted(s.store, one.value.(id := id)));
      case Delete(id, _) =>
        WithoutIsFilter(s.store, id);
        CleanIsFixed(Without(s.store, id));
    }
  }

  /** From the state after a start, over every run of edits, failed writes included: the store stays clean, and
      whenever the latest accepted edit was saved the store is what sanitising the engine's rules gives. */
  lemma {:induction false} StoreTracksEngine(rules: seq<RuleConfig>, ops: seq<AdminOp>)
    requires Clean(rules)
    ensures var s := AdminRun(AdminState(rules, rules), ops);
            Clean(s.store) && (LastWriteSaved(ops) ==> InSync(s))
  {
    if ops == [] {
      CleanIsFixed(rules);
    } else {
      StoreTracksEngine(rules, ops[..|ops| - 1]);
      StepKeepsClean(AdminRun(AdminState(rules, rules), ops[..|ops| - 1]), ops[|ops| - 1]);
    }
  }

  /** After any such run the engine decides on the list it was handed what the store's list says, for exactly the
      events whose rule has an id and, when it samples, a positive rate. */
  lemma SyncedStoreSpeaksForEngine(rules: seq<RuleConfig>, ops: seq<AdminOp>, evt: Event)
    requires Clean(rules) && LastWriteSaved(ops)
    ensures var s := AdminRun(AdminState(rules, rules), ops);
            (forall now, st :: Decide(Resolve(s.store, evt, now), st) == Decide(Resolve(s.engine, evt, now), st))
            <==> HitSurvives(s.engine, evt)
  {
    StoreTracksEngine(rules, ops);
    EventSurvivesIff(AdminRun(AdminState(rules, rules), ops).engine, evt);
  }

  /** A failed write leaves the engine on its old rules while the store already has the new ones: the two part
      exactly when the edit changed something. */
  lemma FailedWriteParts(s: AdminState, op: AdminOp)
    requires InSync(s) && Accepted(op) && !op.write.Saved?
    ensures AdminStep(s, op).engine == s.engine
    ensures InSync(AdminStep(s, op)) <==> StoreAfter(s.store, op) == s.store
  {
  }

  lemma NamelessDecides(evt: Event, now: Instant, st: GateState)
    ensures var blank := RuleConfig(enabled := true); Decide(Resolve([blank], evt, now), st).1.matchedRuleId == ""
    ensures Decide(Resolve([], evt, now), st).1.matchedRuleId == "default-store-only"
  {
    var blank := RuleConfig(enabled := true);
    BlankFieldsMatch(blank, evt);
    assert FirstMatch([blank], evt) == 0;
    assert ToLower("") == "";
  }

  /** A POST hands over its list unsanitised: a rule without an id that matches everything is in force, and decides
      every event, while the store has no rule at all. */
  lemma PostedRuleRunsUnstored(s: AdminState, evt: Event, now: Instant, st: GateState)
    ensures var blank := RuleConfig(enabled := true);
            var after := AdminStep(s, Post(Some([blank]), Saved));
            && after.store == [] && after.engine == [blank]
            && Decide(Resolve(after.engine, evt, now), st).1.matchedRuleId == ""
            && Decide(Resolve(after.store, evt, now), st).1.matchedRuleId == "default-store-only"
  {
    SanitizeSingle(RuleConfig(enabled := true));
    NamelessDecides(evt, now, st);
  }

  /** A put rule takes the place of the first with its id, or the end, and touches no other rule. */
  lemma PutTouchesOneRule(rules: seq<RuleConfig>, one: RuleConfig, i: nat)
    requires Clean(rules) && one.id != ""
    requires i <= |rules| && forall k | 0 <= k < i :: rules[k].id != one.id
    requires i < |rules| ==> rules[i].id == one.id
    ensures Sanitize(Upserted(rules, one)) ==
            if i < |rules| then rules[i := SanitizeRule(one)] else rules + [SanitizeRule(one)]
  {
    UpsertedAt(rules, i, one);
    if i < |rules| {
      SanitizeAroundOne(rules[..i], one, rules[i + 1..]);
      UpdateSplits(rules, i, one);
      UpdateSplits(rules, i, SanitizeRule(one));
    } else {
      SanitizeConcat(rules, [one]);
      SanitizeSingle(one);
      CleanIsFixed(rules);
    }
  }

  predicate FirstAt(store: seq<RuleConfig>, rule: RuleConfig, i: nat) {
    i < |store| && store[i] == rule && forall k | 0 <= k < i :: store[k].id != rule.id
  }

  /** The rule is in the store, the first with its id. */
  predicate Leads(store: seq<RuleConfig>, rule: RuleConfig) {
    exists i: nat | i < |store| :: FirstAt(store, rule, i)
  }

  lemma LeadsBehind(head: seq<RuleConfig>, rest: seq<RuleConfig>, rule: RuleConfig)
    requires Leads(rest, rule) && forall r | r in head :: r.id != rule.id
    ensures Leads(head + rest, rule)
  {
    var i: nat :| i < |rest| && FirstAt(rest, rule, i);
    var all := head + rest;
    forall k | 0 <= k < |head| + i
      ensures all[k].id != rule.id
    {
      assert all[k] == if k < |head| then head[k] else rest[k - |head|];
    }
    assert FirstAt(all, rule, |head| + i);
  }

  lemma {:induction false} UpsertedLeads(rules: seq<RuleConfig>, one: RuleConfig)
    requires one.id != ""
    ensures Leads(Sanitize(Upserted(rules, one)), SanitizeRule(one))
  {
    SanitizeSingle(one);
    if rules == [] || rules[0].id == one.id {
      var rest := if rules == [] then [] else rules[1..];
      assert Upserted(rules, one) == [one] + rest;
      SanitizeConcat([one], rest);
      assert FirstAt([SanitizeRule(one)] + Sanitize(rest), SanitizeRule(one), 0);
    } else {
      UpsertedLeads(rules[1..], one);
      SanitizeConcat([rules[0]], Upserted(rules[1..], one));
      SanitizeSingle(rules[0]);
      LeadsBehind(Sanitize([rules[0]]), Sanitize(Upserted(rules[1..], one)), SanitizeRule(one));
    }
  }

  /** A rule goes in under the id of the path, whatever id its body has, and is then the first with that id. */
  lemma PutGoesUnderPathId(s: AdminState, id: string, one: RuleConfig, write: DiskWrite, other: string)
    requires id != ""
    ensures AdminStep(s, Put(id, Some(one), write)) == AdminStep(s, Put(id, Some(one.(id := other)), write))
    ensures Leads(AdminStep(s, Put(id, Some(one), write)).store, SanitizeRule(one).(id := id))
  {
    UpsertedLeads(s.store, one.(id := id));
    assert one.(id := other).(id := id) == one.(id := id);
  }

  lemma UpdateSplits<T>(s: seq<T>, i: nat, x: T)
    requires i < |s|
    ensures s[i := x] == s[..i] + [x] + s[i + 1..]
  {
  }

  lemma SanitizeAroundOne(before: seq<RuleConfig>, one: RuleConfig, after: seq<RuleConfig>)
    requires Clean(before) && Clean(after) && one.id != ""
    ensures Sanitize(before + [one] + after) == before + [SanitizeRule(one)] + after
  {
    SanitizeConcat(before + [one], after);
    SanitizeConcat(before, [one]);
    SanitizeSingle(one);
    CleanIsFixed(before);
    CleanIsFixed(after);
  }

  // ----- the handlers -------------------------------------------------------

  class Admin {
    const store: RuleStore
    const engine: Engine

    constructor (store: RuleStore, engine: Engine)
      ensures this.store == store && this.engine == engine
    {
      this.store, this.engine := store, engine;
    }

    function View(): AdminState
      requires store.Valid()
      reads store, store.data, engine
    {
      AdminState(store.View(), engine.rules)
    }

    method HandleConfigRules(all: Option<seq<RuleConfig>>, w: DiskWrite) returns (status: Status)
      requires store.Valid()
      modifies store, engine`rules
      ensures store.Valid() && engine.Gate() == old(engine.Gate())
      ensures View() == AdminStep(old(View()), Post(all, w))
      ensures status == if all == None then BadRequest else if w.Saved? then Ok else ServerError
    {
      if all == None {
        return BadRequest;
      }
      var saved := store.Replace(all.value, w);
      if !saved {
        return ServerError;
      }
      engine.SetRules(all.value);
      return Ok;
    }

    method HandlePutRule(id: string, one: Option<RuleConfig>, w: DiskWrite) returns (status: Status)
      requires store.Valid()
      modifies store, store.data, engine`rules
      ensures store.Valid() && engine.Gate() == old(engine.Gate())
      ensures View() == AdminStep(old(View()), Put(id, one, w))
      ensures status == if id == "" || one == None then BadRequest else if w.Saved? then Ok else ServerError
    {
      if id == "" || one == None {
        return BadRequest;
      }
      var saved := store.Upsert(one.value.(id := id), w);
      if !saved {
        return ServerError;
      }
      var all := store.All();
      engine.SetRules(all[..]);
      return Ok;
    }

    method HandleDeleteRule(id: string, w: DiskWrite) returns (status: Status)
      requires store.Valid()
      modifies store, store.data, engine`rules
      ensures store.Valid() && engine.Gate() == old(engine.Gate())
      ensures View() == AdminStep(old(View()), Delete(id, w))
      ensures status == if id == "" then BadRequest else if w.Saved? then Ok else ServerError
    {
      if id == "" {
        return BadRequest;
      }
      var saved := store.Delete(id, w);
      if !saved {
        return ServerError;
      }
      var all := store.All();
      engine.SetRules(all[..]);
      return Ok;
    }
  }
}
