/** The rule store: sanitising, the default matrix and the store kept over a slice of rules. */
module Rules {
  import opened Events
  import opened Sums

  // ----- sanitising -------------------------------------------------------

  function OrStar(v: string): string {
    if v == "" then "*" else v
  }

  function SanitizeRule(r: RuleConfig): RuleConfig {
    r.(
      sourceType := OrStar(r.sourceType),
      asset := OrStar(r.asset),
      category := OrStar(r.category),
      severity := OrStar(r.severity),
      operation := OrStar(r.operation),
      eventType := OrStar(r.eventType),
      tagKey := if r.tagKey == "" && r.tagValue != "" then "*" else r.tagKey,
      action := if r.action == "" then "keep" else r.action,
      sampleRate := if r.sampleRate <= 0.0 then 1.0 else r.sampleRate,
      showInUi := if r.showInUi == None then Some(true) else r.showInUi)
  }

  /** What sanitising fills in: a star for every blank column, `keep` for no action, a rate of one where there is none,
      and showing unless told otherwise; what says something is kept. */
  lemma SanitizingFills(id: string, r: RuleConfig)
    ensures SanitizeRule(RuleConfig(id := id)) ==
            RuleConfig(id := id, sourceType := "*", asset := "*", category := "*", severity := "*", operation := "*",
                       eventType := "*", action := "keep", sampleRate := 1.0, showInUi := Some(true))
    ensures var s := SanitizeRule(r);
            && s == r.(sourceType := s.sourceType, asset := s.asset, category := s.category, severity := s.severity,
                       operation := s.operation, eventType := s.eventType, tagKey := s.tagKey, action := s.action,
                       sampleRate := s.sampleRate, showInUi := s.showInUi)
            && (r.sourceType != "" ==> s.sourceType == r.sourceType) && (r.asset != "" ==> s.asset == r.asset)
            && (r.category != "" ==> s.category == r.category) && (r.severity != "" ==> s.severity == r.severity)
            && (r.operation != "" ==> s.operation == r.operation) && (r.eventType != "" ==> s.eventType == r.eventType)
            && (r.tagKey != "" || r.tagValue == "" ==> s.tagKey == r.tagKey)
            && (r.tagKey == "" && r.tagValue != "" ==> s.tagKey == "*")
            && (r.action != "" ==> s.action == r.action) && (r.sampleRate > 0.0 ==> s.sampleRate == r.sampleRate)
            && (r.showInUi.Some? ==> s.showInUi == r.showInUi)
  {
  }

  /** Rules without an id are left out, the others have their blanks filled in. */
  function Sanitize(rules: seq<RuleConfig>): seq<RuleConfig> {
    if rules == [] then []
    else
      var last := rules[|rules| - 1];
      Sanitize(rules[..|rules| - 1]) + if last.id == "" then [] else [SanitizeRule(last)]
  }

  lemma {:induction false} SanitizeConcat(a: seq<RuleConfig>, b: seq<RuleConfig>)
    ensures Sanitize(a + b) == Sanitize(a) + Sanitize(b)
  {
    if b == [] {
      assert a + b == a;
    } else {
      assert (a + b)[..|a + b| - 1] == a + b[..|b| - 1];
      SanitizeConcat(a, b[..|b| - 1]);
    }
  }

  lemma SanitizeSingle(r: RuleConfig)
    ensures Sanitize([r]) == if r.id == "" then [] else [SanitizeRule(r)]
  {
    assert [r][..0] == [];
  }

  predicate Clean(rules: seq<RuleConfig>) {
    forall r | r in rules :: r.id != "" && SanitizeRule(r) == r
  }

  lemma {:induction false} SanitizeCleans(rules: seq<RuleConfig>)
    ensures Clean(Sanitize(rules))
  {
    if rules != [] {
      var front, last := rules[..|rules| - 1], rules[|rules| - 1];
      SanitizeCleans(front);
      if last.id != "" { CleanSnoc(Sanitize(front), SanitizeRule(last)); }
    }
  }

  lemma SanitizeSnoc(front: seq<RuleConfig>, last: RuleConfig)
    ensures Sanitize(front + [last]) ==
            if last.id == "" then Sanitize(front) else Sanitize(front) + [SanitizeRule(last)]
  {
    assert (front + [last])[..|front|] == front;
  }

  lemma SanitizeTaken(rules: seq<RuleConfig>, i: nat)
    requires i < |rules|
    ensures Sanitize(rules[..i + 1]) ==
            if rules[i].id == "" then Sanitize(rules[..i]) else Sanitize(rules[..i]) + [SanitizeRule(rules[i])]
  {
    TakeSnoc(rules, i);
    SanitizeSnoc(rules[..i], rules[i]);
  }

  lemma CleanSnoc(front: seq<RuleConfig>, last: RuleConfig)
    ensures Clean(front + [last]) <==> Clean(front) && last.id != "" && SanitizeRule(last) == last
  {
    assert last in front + [last];
    assert forall r :: r in front + [last] <==> r in front || r == last;
  }

  lemma {:induction false} CleanIsFixed(rules: seq<RuleConfig>)
    requires Clean(rules)
    ensures Sanitize(rules) == rules
  {
    if rules != [] {
      var front, last := rules[..|rules| - 1], rules[|rules| - 1];
      FrontLast(rules);
      CleanSnoc(front, last);
      CleanIsFixed(front);
      SanitizeSnoc(front, last);
    }
  }

  /** Sanitising twice is sanitising once. */
  lemma SanitizeIdempotent(rules: seq<RuleConfig>)
    ensures Sanitize(Sanitize(rules)) == Sanitize(rules)
  {
    SanitizeCleans(rules);
    CleanIsFixed(Sanitize(rules));
  }

  /** A list is a fixed point of sanitising exactly when it is clean. */
  lemma FixedIffClean(rules: seq<RuleConfig>)
    ensures Sanitize(rules) == rules <==> Clean(rules)
  {
    SanitizeCleans(rules);
    if Clean(rules) { CleanIsFixed(rules); }
  }

  // ----- the default matrix -------------------------------------------------

  /** No field that sanitising would fill is blank. */
  predicate Filled(r: RuleConfig) {
    && 0 < |r.id| && 0 < |r.sourceType| && 0 < |r.asset| && 0 < |r.category| && 0 < |r.severity|
    && 0 < |r.operation| && 0 < |r.eventType| && 0 < |r.action| && r.sampleRate > 0.0 && r.showInUi.Some?
    && (0 < |r.tagKey| || r.tagValue == "")
  }

  lemma FilledIsFixed(r: RuleConfig)
    requires Filled(r)
    ensures r.id != "" && SanitizeRule(r) == r
  {
  }

  function MatrixRow(id: string, sourceType: string, action: string, rate: real, forward: bool): RuleConfig
  {
    RuleConfig(id := id, enabled := true, sourceType := sourceType, asset := "*", category := "*", severity := "*",
               operation := "*", eventType := "*", action := action, sampleRate := rate, forwardToDmz := forward,
               storeLocally := true, showInUi := Some(true))
  }

  function ForwardRow(id: string, sourceType: string): RuleConfig {
    MatrixRow(id, sourceType, "store_and_forward", 1.0, true)
  }

  function SampleRow(id: string, sourceType: string, rate: real): RuleConfig {
    MatrixRow(id, sourceType, "sample", rate, false)
  }

  const DEFAULT_ROWS := 16

  // The rows in order, four at a time; their explanatory notes are left out.

  function Rows0To3(i: nat): (r: RuleConfig)
    ensures Filled(r)
  {
    match i
    case 0 => ForwardRow("rule-firewall-block-forward", "firewall").(messageContains := "firewall_block")
    case 1 => ForwardRow("rule-firewall-reject-forward", "firewall").(messageContains := "firewall_reject")
    case 2 => ForwardRow("rule-security-forward", "*").(category := "security")
    case _ => ForwardRow("rule-critical-forward", "*").(severity := "critical")
  }

  function Rows4To7(i: nat): (r: RuleConfig)
    ensures Filled(r)
  {
    match i
    case 4 => SampleRow("rule-firewall-pass-sample", "firewall", 0.02)
      .(messageContains := "firewall_pass", dedupWindowSeconds := 10, rateLimitPerSecond := 25)
    case 5 => SampleRow("rule-firewall-filterlog-noise-sample", "firewall", 0.02)
      .(messageContains := "filterlog", dedupWindowSeconds := 10, rateLimitPerSecond := 25)
    case 6 => ForwardRow("rule-error-forward", "*").(severity := "error")
    case _ => ForwardRow("rule-opcua-sensitive-forward", "opcua").(tagKey := "sensitive_action", tagValue := "true")
  }

  function Rows8To11(i: nat): (r: RuleConfig)
    ensures Filled(r)
  {
    match i
    case 8 => ForwardRow("rule-opcua-write-forward", "opcua").(category := "operator_action", operation := "WRITE")
    case 9 => SampleRow("rule-opcua-read-sample", "opcua", 0.05)
      .(category := "operator_action", operation := "READ", dedupWindowSeconds := 10)
    case 10 => SampleRow("rule-ews-heartbeat-sample", "ews", 0.2)
      .(category := "system_health", severity := "info", messageContains := "ews_heartbeat")
    case _ => SampleRow("rule-scada-heartbeat-sample", "scada", 0.1)
      .(category := "system_health", severity := "info", messageContains := "heartbeat")
  }

  function Rows12To15(i: nat): (r: RuleConfig)
    ensures Filled(r)
  {
    match i
    case 12 => SampleRow("rule-gds-sync-success-sample", "gds_agent", 0.25)
      .(severity := "info", messageContains := "sync_cycle_success")
    case 13 => SampleRow("rule-firewall-catchall-sample", "firewall", 0.05)
      .(dedupWindowSeconds := 10, rateLimitPerSecond := 50)
    case 14 => SampleRow("rule-plc-network-sample", "plc", 0.3).(category := "network")
    case _ => MatrixRow("default-store-only", "*", "store_only", 1.0, false)
  }

  function DefaultRow(i: nat): RuleConfig
    requires i < DEFAULT_ROWS
  {
    if i < 4 then Rows0To3(i) else if i < 8 then Rows4To7(i) else if i < 12 then Rows8To11(i) else Rows12To15(i)
  }

  function DefaultRules(): seq<RuleConfig> {
    seq(DEFAULT_ROWS, i requires 0 <= i < DEFAULT_ROWS => DefaultRow(i))
  }

  /** The default matrix is a fixed point of sanitising. */
  lemma DefaultsAreClean()
    ensures Clean(DefaultRules()) && Sanitize(DefaultRules()) == DefaultRules()
  {
    forall i | 0 <= i < DEFAULT_ROWS
      ensures DefaultRow(i).id != "" && SanitizeRule(DefaultRow(i)) == DefaultRow(i)
    {
      FilledIsFixed(DefaultRow(i));
    }
    CleanIsFixed(DefaultRules());
  }

  // ----- edits ------------------------------------------------------------

  /** Replaces the first rule with this id, or appends. */
  function Upserted(rules: seq<RuleConfig>, one: RuleConfig): seq<RuleConfig> {
    if rules == [] then [one]
    else if rules[0].id == one.id then [one] + rules[1..]
    else [rules[0]] + Upserted(rules[1..], one)
  }

  lemma {:induction false} UpsertedAt(rules: seq<RuleConfig>, i: nat, one: RuleConfig)
    requires i <= |rules| && forall k | 0 <= k < i :: rules[k].id != one.id
    ensures i < |rules| && rules[i].id == one.id ==> Upserted(rules, one) == rules[i := one]
    ensures i == |rules| ==> Upserted(rules, one) == rules + [one]
  {
    if i > 0 {
      UpsertedAt(rules[1..], i - 1, one);
      assert rules == [rules[0]] + rules[1..];
    }
  }

  function Differs(id: string): RuleConfig -> bool {
    (r: RuleConfig) => r.id != id
  }

  function Without(rules: seq<RuleConfig>, id: string): seq<RuleConfig> {
    Filtered(rules, Differs(id))
  }

  lemma WithoutConcat(a: seq<RuleConfig>, b: seq<RuleConfig>, id: string)
    ensures Without(a + b, id) == Without(a, id) + Without(b, id)
  {
    FilteredConcat(a, b, Differs(id));
  }

  lemma WithoutIsFilter(rules: seq<RuleConfig>, id: string)
    ensures forall r :: r in Without(rules, id) <==> r in rules && r.id != id
    ensures Clean(rules) ==> Clean(Without(rules, id))
  {
    forall r
      ensures r in Without(rules, id) <==> r in rules && r.id != id
    {
      FilteredHas(rules, Differs(id), r);
    }
  }

  /** Deleting a rule just put undoes the put, up to what the delete would have removed anyway. */
  lemma DeleteUndoesPut(rules: seq<RuleConfig>, one: RuleConfig)
    requires Clean(rules) && one.id != ""
    ensures Without(Sanitize(Upserted(rules, one)), one.id) == Without(rules, one.id)
  {
    UpsertSplits(rules, one);
    SanitizeWithoutCommute(Upserted(rules, one), one.id);
    WithoutIsFilter(rules, one.id);
    CleanIsFixed(Without(rules, one.id));
  }

  lemma {:induction false} UpsertSplits(rules: seq<RuleConfig>, one: RuleConfig)
    ensures Without(Upserted(rules, one), one.id) == Without(rules, one.id)
  {
    if rules == [] {
    } else if rules[0].id == one.id {
      WithoutConcat([one], rules[1..], one.id);
      WithoutConcat([rules[0]], rules[1..], one.id);
      assert rules == [rules[0]] + rules[1..];
    } else {
      UpsertSplits(rules[1..], one);
      WithoutConcat([rules[0]], Upserted(rules[1..], one), one.id);
      WithoutConcat([rules[0]], rules[1..], one.id);
      assert rules == [rules[0]] + rules[1..];
    }
  }

  lemma OneSanitizesAlike(r: RuleConfig, id: string)
    ensures Without(Sanitize([r]), id) == Sanitize(Without([r], id))
  {
    SanitizeSingle(r);
    WithoutSingle(r, id);
    WithoutSingle(SanitizeRule(r), id);
  }

  lemma WithoutSingle(r: RuleConfig, id: string)
    ensures Without([r], id) == if r.id == id then [] else [r]
  {
    assert [r][..|[r]| - 1] == [];
    assert Filtered([r][..|[r]| - 1], Differs(id)) == [];
  }

  lemma {:induction false} SanitizeWithoutCommute(rules: seq<RuleConfig>, id: string)
    ensures Without(Sanitize(rules), id) == Sanitize(Without(rules, id))
  {
    if rules != [] {
      var front, last := rules[..|rules| - 1], rules[|rules| - 1];
      assert rules == front + [last];
      SanitizeWithoutCommute(front, id);
      assert Without(Sanitize(rules), id) == Without(Sanitize(front), id) + Without(Sanitize([last]), id) by {
        SanitizeConcat(front, [last]);
        WithoutConcat(Sanitize(front), Sanitize([last]), id);
      }
      assert Sanitize(Without(rules, id)) == Sanitize(Without(front, id)) + Sanitize(Without([last], id)) by {
        WithoutConcat(front, [last], id);
        SanitizeConcat(Without(front, id), Without([last], id));
      }
      OneSanitizesAlike(last, id);
    }
  }

  // ----- the store --------------------------------------------------------

  /** The rules file: absent, unreadable or not decodable, or what it decodes to. */
  datatype RulesFile = Missing | Corrupt | Holds(rules: seq<RuleConfig>)

  /** The outcome of a write: saved, or failed with whatever it left behind. */
  datatype DiskWrite = Saved | Failed(left: RulesFile)

  /** What a start reads; None when the file cannot be read or decoded, which ends the program. */
  function Loaded(file: RulesFile): Option<seq<RuleConfig>> {
    match file
    case Missing => Some(DefaultRules())
    case Corrupt => None
    case Holds(rules) => Some(Sanitize(if rules == [] then DefaultRules() else rules))
  }

  /** A restart after a successful save restores the rules saved, except that an emptied matrix comes back
      as the defaults. */
  lemma RestartRestoresUnlessEmpty(rules: seq<RuleConfig>)
    requires Clean(rules)
    ensures Loaded(Holds(rules)) == Some(rules) <==> rules != []
  {
    CleanIsFixed(rules);
    DefaultsAreClean();
  }

  class RuleStore {
    var data: array<RuleConfig>
    var len: nat
    var file: RulesFile

    ghost predicate Valid()
      reads this
    {
      len <= data.Length
    }

    function View(): seq<RuleConfig>
      requires Valid()
      reads this, data
    {
      data[..len]
    }

    constructor (file: RulesFile)
      ensures Valid() && View() == [] && this.file == file && fresh(data)
    {
      data := new RuleConfig[0];
      len := 0;
      this.file := file;
    }

    method Persist(w: DiskWrite) returns (ok: bool)
      requires Valid()
      modifies this`file
      ensures ok == w.Saved?
      ensures file == match w case Saved => Holds(View()) case Failed(left) => left
    {
      file := match w case Saved => Holds(View()) case Failed(left) => left;
      ok := w.Saved?;
    }

    method FillBlanks(rule: RuleConfig) returns (r: RuleConfig)
      ensures r == SanitizeRule(rule)
    {
      r := rule;
      r := r.(sourceType := OrStar(r.sourceType));
      r := r.(asset := OrStar(r.asset));
      r := r.(category := OrStar(r.category));
      r := r.(severity := OrStar(r.severity));
      r := r.(operation := OrStar(r.operation));
      r := r.(eventType := OrStar(r.eventType));
      r := r.(tagKey := if r.tagKey == "" && r.tagValue != "" then "*" else r.tagKey);
      r := r.(action := if r.action == "" then "keep" else r.action);
      r := r.(sampleRate := if r.sampleRate <= 0.0 then 1.0 else r.sampleRate);
      r := r.(showInUi := if r.showInUi == None then Some(true) else r.showInUi);
    }

    /** A fresh slice of its own. */
    method SanitizeRules(rules: seq<RuleConfig>) returns (out: array<RuleConfig>, n: nat)
      ensures fresh(out) && n <= out.Length && out[..n] == Sanitize(rules)
    {
      out, n := new RuleConfig[|rules|], 0;
      var i := 0;
      while i < |rules|
        invariant n <= i <= |rules|
        invariant out[..n] == Sanitize(rules[..i])
      {
        var r := rules[i];
        SanitizeTaken(rules, i);
        i := i + 1;
        if r.id == "" {
          continue;
        }
        r := FillBlanks(r);
        ghost var was := out[..n];
        out[n] := r;
        assert out[..n] == was;
        assert out[..n + 1] == was + [r];
        n := n + 1;
      }
      assert rules[..|rules|] == rules;
    }

    method LoadOrInit(w: DiskWrite) returns (ok: bool)
      requires Valid()
      modifies this
      ensures Valid() && (data == old(data) || fresh(data))
      ensures Loaded(old(file)) == None ==> !ok && file == old(file)
      ensures Loaded(old(file)).Some? ==> View() == Loaded(old(file)).value && ok == w.Saved?
      ensures ok ==> Clean(View()) && file == Holds(View())
    {
      DefaultsAreClean();
      match file {
        case Corrupt => return false;
        case Missing => data, len := SanitizeRules(DefaultRules());
        case Holds(rules) =>
          SanitizeCleans(if rules == [] then DefaultRules() else rules);
          data, len := SanitizeRules(if rules == [] then DefaultRules() else rules);
      }
      ok := Persist(w);
    }

    /** The caller's own copy. */
    method All() returns (out: array<RuleConfig>)
      requires Valid()
      ensures fresh(out) && out[..] == View()
    {
      out := new RuleConfig[len];
      forall i | 0 <= i < len {
        out[i] := data[i];
      }
      assert out[..] == data[..len];
    }

    method Replace(all: seq<RuleConfig>, w: DiskWrite) returns (ok: bool)
      requires Valid()
      modifies this
      ensures Valid() && fresh(data) && View() == Sanitize(all)
      ensures ok == w.Saved? && (ok ==> file == Holds(View()))
    {
      data, len := SanitizeRules(all);
      ok := Persist(w);
    }

    /** The first rule with the id is overwritten in the slice; otherwise the slice grows, in place while it
        has room. */
    method Put(one: RuleConfig)
      requires Valid()
      modifies this`data, this`len, data
      ensures Valid() && (data == old(data) || fresh(data))
      ensures View() == Upserted(old(View()), one)
    {
      ghost var was := View();
      var i := 0;
      while i < len && data[i].id != one.id
        invariant 0 <= i <= len
        invariant forall k | 0 <= k < i :: was[k].id != one.id
      {
        i := i + 1;
      }
      UpsertedAt(was, i, one);
      if i < len {
        data[i] := one;
        assert View() == was[i := one];
      } else {
        Grow();
        data[len] := one;
        len := len + 1;
        assert View() == was + [one];
      }
    }

    method Grow()
      requires Valid()
      modifies this`data
      ensures Valid() && len < data.Length && View() == old(View())
      ensures data == old(data) || fresh(data)
    {
      if len == data.Length {
        var grown := new RuleConfig[2 * len + 1];
        forall k | 0 <= k < len {
          grown[k] := data[k];
        }
        assert grown[..len] == View();
        data := grown;
      }
    }

    method Upsert(one: RuleConfig, w: DiskWrite) returns (ok: bool)
      requires Valid()
      modifies this, data
      ensures Valid() && fresh(data) && View() == Sanitize(Upserted(old(View()), one))
      ensures ok == w.Saved? && (ok ==> file == Holds(View()))
    {
      Put(one);
      data, len := SanitizeRules(View());
      ok := Persist(w);
    }

    /** Compacts the slice in place. */
    method Delete(id: string, w: DiskWrite) returns (ok: bool)
      requires Valid()
      modifies this`len, this`file, data
      ensures Valid() && data == old(data) && View() == Without(old(View()), id)
      ensures ok == w.Saved? && (ok ==> file == Holds(View()))
    {
      len := Compact(data, len, Differs(id));
      ok := Persist(w);
    }
  }

  /** A list handed out earlier keeps its contents while the store compacts its own slice in place. */
  method SnapshotOutlivesDelete(store: RuleStore, id: string, w: DiskWrite) returns (snapshot: array<RuleConfig>)
    requires store.Valid()
    modifies store, store.data
    ensures store.Valid() && store.View() == Without(old(store.View()), id)
    ensures snapshot[..] == old(store.View())
  {
    snapshot := store.All();
    var _ := store.Delete(id, w);
  }
}
