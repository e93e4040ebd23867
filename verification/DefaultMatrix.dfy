/** What the default matrix does with an event, told in terms of the event. */
module DefaultMatrix {
  import opened Events
  import opened Sums
  import opened Text
  import opened TextMeaning
  import opened Filter
  import opened FilterGates
  import opened Matching
  import opened Rules

  /** The value is this name, apart from white space, case and dashes. */
  predicate Is(v: string, name: string) {
    SameName(name, TrimSpace(v))
  }

  /** The word stands in the message or in the raw line. */
  predicate Mentions(evt: Event, word: string) {
    Says(evt.message + " " + evt.raw, word)
  }

  predicate FromFirewall(evt: Event) {
    Is(evt.sourceType, "firewall")
  }

  predicate OperatorAction(evt: Event, operation: string) {
    Is(evt.sourceType, "opcua") && Is(evt.category, "operator_action") && Is(OperationOf(evt), operation)
  }

  predicate Healthy(evt: Event, source: string) {
    Is(evt.sourceType, source) && Is(evt.category, "system_health") && Is(evt.severity, "info")
  }

  /** What each row is there for. */
  predicate Concerns(i: nat, evt: Event) {
    match i
    case 0 => FromFirewall(evt) && Mentions(evt, "firewall_block")
    case 1 => FromFirewall(evt) && Mentions(evt, "firewall_reject")
    case 2 => Is(evt.category, "security")
    case 3 => Is(evt.severity, "critical")
    case 4 => FromFirewall(evt) && Mentions(evt, "firewall_pass")
    case 5 => FromFirewall(evt) && Mentions(evt, "filterlog")
    case 6 => Is(evt.severity, "error")
    case 7 => Is(evt.sourceType, "opcua") && "sensitive_action" in evt.tags && Is(evt.tags["sensitive_action"], "true")
    case 8 => OperatorAction(evt, "WRITE")
    case 9 => OperatorAction(evt, "READ")
    case 10 => Healthy(evt, "ews") && Mentions(evt, "ews_heartbeat")
    case 11 => Healthy(evt, "scada") && Mentions(evt, "heartbeat")
    case 12 => Is(evt.sourceType, "gds_agent") && Is(evt.severity, "info") && Mentions(evt, "sync_cycle_success")
    case 13 => FromFirewall(evt)
    case 14 => Is(evt.sourceType, "plc") && Is(evt.category, "network")
    case _ => true
  }

  /** A name that, as a column, asks for itself. */
  predicate Proper(name: string) {
    && name != "" && name != "*"
    && !White(name[0]) && !White(name[|name| - 1]) && (name[0] in {'w', 'W'} ==> |name| != 4 && |name| != 7)
  }

  lemma ProperIsTrimmed(name: string)
    requires Proper(name)
    ensures TrimSpace(name) == name
  {
    assert name[0..0 + |name|] == name;
    assert CoreAt(name, name, 0);
    TrimIff(name, name);
  }

  lemma FirstLetter(a: string, b: string)
    requires a != "" && b != "" && b[0] == 'w'
    ensures SameName(a, b) ==> a[0] == 'w' || a[0] == 'W'
  {
    assert 'w' in {a[0], b[0]} && 'w' !in {'-', '_'};
  }

  lemma ProperFits(name: string, v: string)
    requires Proper(name)
    ensures Fits(name, v) <==> Is(v, name)
  {
    ProperIsTrimmed(name);
    FirstLetter(name, "warn");
    FirstLetter(name, "warning");
    LowerStays();
  }

  lemma ProperMessageFits(word: string, evt: Event)
    requires Proper(word)
    ensures MessageFits(word, evt) <==> Mentions(evt, word)
  {
    ProperIsTrimmed(word);
  }

  lemma OpenIsWild()
    ensures Wild("*") && Wild("")
  {
    StarIsWild();
    assert TrimSpace("") == "";
  }

  predicate OpenOr(column: string, blank: string) {
    column == blank || Proper(column)
  }

  /** A row whose asset and event type are open, and whose other columns are open or plain names. */
  predicate PlainRow(r: RuleConfig) {
    && r.enabled && r.asset == "*" && r.eventType == "*"
    && OpenOr(r.sourceType, "*") && OpenOr(r.category, "*") && OpenOr(r.severity, "*") && OpenOr(r.operation, "*")
    && OpenOr(r.messageContains, "") && OpenOr(r.tagKey, "") && (r.tagKey != "" ==> Proper(r.tagValue))
  }

  lemma ColumnIff(column: string, v: string)
    requires OpenOr(column, "*")
    ensures Fits(column, v) <==> column == "*" || Is(v, column)
  {
    OpenIsWild();
    if column != "*" { ProperFits(column, v); }
  }

  predicate Asks(r: RuleConfig, evt: Event) {
    && (r.sourceType == "*" || Is(evt.sourceType, r.sourceType))
    && (r.category == "*" || Is(evt.category, r.category))
    && (r.severity == "*" || Is(evt.severity, r.severity))
    && (r.operation == "*" || Is(OperationOf(evt), r.operation))
    && (r.messageContains == "" || Mentions(evt, r.messageContains))
    && (r.tagKey == "" || (r.tagKey in evt.tags && Is(evt.tags[r.tagKey], r.tagValue)))
  }

  lemma PlainRowMatches(r: RuleConfig, evt: Event)
    requires PlainRow(r)
    ensures Matches(r, evt) <==> Asks(r, evt)
  {
    OpenIsWild();
    MatchesIff(r, evt);
    ColumnIff(r.sourceType, evt.sourceType);
    ColumnIff(r.category, evt.category);
    ColumnIff(r.severity, evt.severity);
    ColumnIff(r.operation, OperationOf(evt));
    if r.messageContains != "" { ProperMessageFits(r.messageContains, evt); }
    if r.tagKey != "" {
      ProperIsTrimmed(r.tagKey);
      if r.tagKey in evt.tags { ProperFits(r.tagValue, evt.tags[r.tagKey]); }
    }
  }

  lemma Sources()
    ensures Proper("firewall") && Proper("opcua") && Proper("ews") && Proper("scada")
    ensures Proper("gds_agent") && Proper("plc")
  {
    assert |"firewall"| == 8 && |"opcua"| == 5 && |"ews"| == 3 && |"scada"| == 5 && |"gds_agent"| == 9 && |"plc"| == 3;
  }

  lemma Columns()
    ensures Proper("security") && Proper("critical") && Proper("error") && Proper("info") && Proper("operator_action")
    ensures Proper("system_health") && Proper("network") && Proper("WRITE") && Proper("READ")
    ensures Proper("sensitive_action") && Proper("true")
  {
    assert |"security"| == 8 && |"critical"| == 8 && |"error"| == 5 && |"info"| == 4 && |"operator_action"| == 15;
    assert |"system_health"| == 13 && |"network"| == 7 && |"WRITE"| == 5 && |"READ"| == 4;
    assert |"sensitive_action"| == 16 && |"true"| == 4;
  }

  lemma Words()
    ensures Proper("firewall_block") && Proper("firewall_reject") && Proper("firewall_pass") && Proper("filterlog")
    ensures Proper("ews_heartbeat") && Proper("heartbeat") && Proper("sync_cycle_success")
  {
    assert |"firewall_block"| == 14 && |"firewall_reject"| == 15 && |"firewall_pass"| == 13 && |"filterlog"| == 9;
    assert |"ews_heartbeat"| == 13 && |"heartbeat"| == 9 && |"sync_cycle_success"| == 18;
  }

  lemma RowsAsk0To1(i: nat, evt: Event)
    requires 0 <= i <= 1
    ensures PlainRow(DefaultRow(i)) && (Asks(DefaultRow(i), evt) <==> Concerns(i, evt))
  {
    Sources();
    Columns();
    Words();
  }

  lemma RowsAsk2To3(i: nat, evt: Event)
    requires 2 <= i <= 3
    ensures PlainRow(DefaultRow(i)) && (Asks(DefaultRow(i), evt) <==> Concerns(i, evt))
  {
    Sources();
    Columns();
    Words();
  }

  lemma RowsAsk4To5(i: nat, evt: Event)
    requires 4 <= i <= 5
    ensures PlainRow(DefaultRow(i)) && (Asks(DefaultRow(i), evt) <==> Concerns(i, evt))
  {
    Sources();
    Columns();
    Words();
  }

  lemma RowsAsk6To7(i: nat, evt: Event)
    requires 6 <= i <= 7
    ensures PlainRow(DefaultRow(i)) && (Asks(DefaultRow(i), evt) <==> Concerns(i, evt))
  {
    Sources();
    Columns();
    Words();
  }

  lemma RowsAsk8To9(i: nat, evt: Event)
    requires 8 <= i <= 9
    ensures PlainRow(DefaultRow(i)) && (Asks(DefaultRow(i), evt) <==> Concerns(i, evt))
  {
    Sources();
    Columns();
    Words();
  }

  lemma RowsAsk10To11(i: nat, evt: Event)
    requires 10 <= i <= 11
    ensures PlainRow(DefaultRow(i)) && (Asks(DefaultRow(i), evt) <==> Concerns(i, evt))
  {
    Sources();
    Columns();
    Words();
  }

  lemma RowsAsk12To13(i: nat, evt: Event)
    requires 12 <= i <= 13
    ensures PlainRow(DefaultRow(i)) && (Asks(DefaultRow(i), evt) <==> Concerns(i, evt))
  {
    Sources();
    Columns();
    Words();
  }

  lemma RowsAsk14To15(i: nat, evt: Event)
    requires 14 <= i <= 15
    ensures PlainRow(DefaultRow(i)) && (Asks(DefaultRow(i), evt) <==> Concerns(i, evt))
  {
    Sources();
    Columns();
    Words();
  }

  /** Every row of the matrix asks for what it is there for. */
  lemma RowsConcern(i: nat, evt: Event)
    requires i < DEFAULT_ROWS
    ensures Matches(DefaultRow(i), evt) <==> Concerns(i, evt)
  {
    match i / 2 {
    case 0 => RowsAsk0To1(i, evt);
    case 1 => RowsAsk2To3(i, evt);
    case 2 => RowsAsk4To5(i, evt);
    case 3 => RowsAsk6To7(i, evt);
    case 4 => RowsAsk8To9(i, evt);
    case 5 => RowsAsk10To11(i, evt);
    case 6 => RowsAsk12To13(i, evt);
    case _ => RowsAsk14To15(i, evt);
    }
    PlainRowMatches(DefaultRow(i), evt);
  }

  /** Every event gets the first row that concerns it; the last concerns all. */
  lemma DefaultMatrixSelects(evt: Event)
    ensures var i := FirstMatch(DefaultRules(), evt);
            i < DEFAULT_ROWS == 16 && Concerns(i, evt) && forall j | 0 <= j < i :: !Concerns(j, evt)
  {
    var rules, i := DefaultRules(), FirstMatch(DefaultRules(), evt);
    FirstMatchIsFirst(rules, evt);
    forall j: nat | j < DEFAULT_ROWS
      ensures Matches(rules[j], evt) <==> Concerns(j, evt)
    {
      RowsConcern(j, evt);
    }
    assert Concerns(15, evt);
  }

  /** The length of a row's id and its sixth letter tell it from the others. */
  function IdMark(i: nat): int {
    match i
    case 0 => 2705
    case 1 => 2805
    case 2 => 2118
    case 3 => 2102
    case 4 => 2505
    case 5 => 3605
    case 6 => 1804
    case 7 => 2814
    case 8 => 2414
    case 9 => 2214
    case 10 => 2504
    case 11 => 2718
    case 12 => 2806
    case 13 => 2905
    case 14 => 2315
    case _ => 1811
  }

  function RowMarked(mark: int): nat {
    match mark
    case 2705 => 0
    case 2805 => 1
    case 2118 => 2
    case 2102 => 3
    case 2505 => 4
    case 3605 => 5
    case 1804 => 6
    case 2814 => 7
    case 2414 => 8
    case 2214 => 9
    case 2504 => 10
    case 2718 => 11
    case 2806 => 12
    case 2905 => 13
    case 2315 => 14
    case _ => 15
  }

  function RowId(i: nat): string {
    match i
    case 0 => "rule-firewall-block-forward"
    case 1 => "rule-firewall-reject-forward"
    case 2 => "rule-security-forward"
    case 3 => "rule-critical-forward"
    case 4 => "rule-firewall-pass-sample"
    case 5 => "rule-firewall-filterlog-noise-sample"
    case 6 => "rule-error-forward"
    case 7 => "rule-opcua-sensitive-forward"
    case 8 => "rule-opcua-write-forward"
    case 9 => "rule-opcua-read-sample"
    case 10 => "rule-ews-heartbeat-sample"
    case 11 => "rule-scada-heartbeat-sample"
    case 12 => "rule-gds-sync-success-sample"
    case 13 => "rule-firewall-catchall-sample"
    case 14 => "rule-plc-network-sample"
    case _ => "default-store-only"
  }

  predicate Marked(id: string, mark: int) {
    |id| > 5 && mark == 100 * |id| + (id[5] as int - 'a' as int) && '|' !in id
  }

  lemma IdsMarked0To1(i: nat)
    requires 0 <= i <= 1
    ensures Marked(RowId(i), IdMark(i))
  {
  }

  lemma IdsMarked2To3(i: nat)
    requires 2 <= i <= 3
    ensures Marked(RowId(i), IdMark(i))
  {
  }

  lemma IdsMarked4To5(i: nat)
    requires 4 <= i <= 5
    ensures Marked(RowId(i), IdMark(i))
  {
  }

  lemma IdsMarked6To7(i: nat)
    requires 6 <= i <= 7
    ensures Marked(RowId(i), IdMark(i))
  {
  }

  lemma IdsMarked8To9(i: nat)
    requires 8 <= i <= 9
    ensures Marked(RowId(i), IdMark(i))
  {
  }

  lemma IdsMarked10To11(i: nat)
    requires 10 <= i <= 11
    ensures Marked(RowId(i), IdMark(i))
  {
  }

  lemma IdsMarked12To13(i: nat)
    requires 12 <= i <= 13
    ensures Marked(RowId(i), IdMark(i))
  {
  }

  lemma IdsMarked14To15(i: nat)
    requires 14 <= i <= 15
    ensures Marked(RowId(i), IdMark(i))
  {
  }

  lemma RowIds0To3(i: nat)
    requires 0 <= i <= 3
    ensures DefaultRow(i).id == RowId(i)
  {
  }

  lemma RowIds4To7(i: nat)
    requires 4 <= i <= 7
    ensures DefaultRow(i).id == RowId(i)
  {
  }

  lemma RowIds8To11(i: nat)
    requires 8 <= i <= 11
    ensures DefaultRow(i).id == RowId(i)
  {
  }

  lemma RowIds12To15(i: nat)
    requires 12 <= i <= 15
    ensures DefaultRow(i).id == RowId(i)
  {
  }

  lemma RowIds(i: nat)
    requires i < DEFAULT_ROWS
    ensures DefaultRow(i).id == RowId(i)
  {
    match i / 4
    case 0 => RowIds0To3(i);
    case 1 => RowIds4To7(i);
    case 2 => RowIds8To11(i);
    case _ => RowIds12To15(i);
  }

  lemma IdsMarked(i: nat)
    requires i < DEFAULT_ROWS
    ensures Marked(RowId(i), IdMark(i))
  {
    match i / 2
    case 0 => IdsMarked0To1(i);
    case 1 => IdsMarked2To3(i);
    case 2 => IdsMarked4To5(i);
    case 3 => IdsMarked6To7(i);
    case 4 => IdsMarked8To9(i);
    case 5 => IdsMarked10To11(i);
    case 6 => IdsMarked12To13(i);
    case _ => IdsMarked14To15(i);
  }

  lemma MarkIsOwn(i: nat)
    requires i < DEFAULT_ROWS
    ensures RowMarked(IdMark(i)) == i
  {
  }

  lemma SameIdSameRow(i: nat, j: nat)
    requires i < DEFAULT_ROWS && j < DEFAULT_ROWS && RowId(i) == RowId(j)
    ensures i == j
  {
    IdsMarked(i);
    IdsMarked(j);
    MarkIsOwn(i);
    MarkIsOwn(j);
  }

  /** The ids of the default matrix are distinct and free of bars, so what holds under such lists holds under it. */
  lemma DefaultIdsAreDistinct()
    ensures DistinctIds(DefaultRules())
  {
    var rules := DefaultRules();
    forall i: nat | i < DEFAULT_ROWS
      ensures rules[i].id == RowId(i) && '|' !in rules[i].id
    {
      RowIds(i);
      IdsMarked(i);
    }
    forall i: nat, j: nat | i < DEFAULT_ROWS && j < DEFAULT_ROWS && rules[i].id == rules[j].id
      ensures i == j
    {
      SameIdSameRow(i, j);
    }
  }

  /** The rows that store and forward. */
  predicate Alarm(i: nat) {
    i in {0, 1, 2, 3, 6, 7, 8}
  }

  /** How many of the events at one sample key there is one kept of. */
  function KeptOneIn(i: nat): nat {
    match i
    case 4 => 50
    case 5 => 50
    case 9 => 20
    case 10 => 5
    case 11 => 10
    case 12 => 4
    case 13 => 20
    case _ => 3
  }

  lemma ActionsAreLower()
    ensures ToLower("store_and_forward") == "store_and_forward" && ToLower("sample") == "sample"
    ensures ToLower("store_only") == "store_only"
    ensures |"store_and_forward"| == 17 && |"sample"| == 6 && |"store_only"| == 10 && |"drop"| == 4
         && |"forward_only"| == 12
  {
  }

  /** The rule stores and shows what it keeps. */
  predicate Keeps(r: RuleConfig) {
    r.storeLocally && r.showInUi == Some(true)
  }

  predicate Unlimited(r: RuleConfig) {
    r.rateLimitPerSecond == 0 && r.dedupWindowSeconds == 0
  }

  predicate Does(i: nat, r: RuleConfig) {
    && Keeps(r)
    && (Alarm(i) ==> r.action == "store_and_forward" && Unlimited(r))
    && (i == 15 ==> r.action == "store_only" && Unlimited(r))
    && (!Alarm(i) && i != 15 ==> r.action == "sample" && !r.forwardToDmz)
  }

  lemma RowsDo0To3(i: nat)
    requires 0 <= i <= 3
    ensures Does(i, DefaultRow(i))
  {
  }

  lemma RowsDo4To7(i: nat)
    requires 4 <= i <= 7
    ensures Does(i, DefaultRow(i))
  {
  }

  lemma RowsDo8To11(i: nat)
    requires 8 <= i <= 11
    ensures Does(i, DefaultRow(i))
  {
  }

  lemma RowsDo12To15(i: nat)
    requires 12 <= i <= 15
    ensures Does(i, DefaultRow(i))
  {
  }

  lemma RowsDo(i: nat)
    requires i < DEFAULT_ROWS
    ensures Does(i, DefaultRow(i))
  {
    match i / 4
    case 0 => RowsDo0To3(i);
    case 1 => RowsDo4To7(i);
    case 2 => RowsDo8To11(i);
    case _ => RowsDo12To15(i);
  }

  lemma UnlimitedDecides(v: Visit, st: GateState)
    requires v.rule.Some? && Keeps(v.rule.value) && Unlimited(v.rule.value)
    requires v.rule.value.action in {"store_and_forward", "store_only"}
    ensures var d := Decide(v, st).1;
            && d.store && d.show && !d.drop && !d.sampled && d.matchedRuleId == v.rule.value.id
            && (d.forward <==> v.rule.value.action == "store_and_forward")
  {
    ActionsAreLower();
  }

  lemma SamplingDecides(v: Visit, st: GateState)
    requires v.rule.Some? && Keeps(v.rule.value) && v.rule.value.action == "sample" && !v.rule.value.forwardToDmz
    ensures var d := Decide(v, st).1;
            !d.forward && d.matchedRuleId == v.rule.value.id && (!d.drop ==> d.store && d.show && d.sampled)
  {
    ActionsAreLower();
  }

  /** Under the default matrix, whatever came before: an event is forwarded exactly when its row is one of the alarms;
      those and what only the last row concerns are stored, shown and never dropped; and the others are sampled. */
  lemma DefaultMatrixDecides(evt: Event, now: Instant, st: GateState)
    ensures var i, d := FirstMatch(DefaultRules(), evt), Decide(Resolve(DefaultRules(), evt, now), st).1;
            && i < DEFAULT_ROWS
            && (d.forward <==> Alarm(i))
            && (Alarm(i) || i == 15 ==> d.store && d.show && !d.drop && !d.sampled)
            && (!Alarm(i) && i != 15 && !d.drop ==> d.store && d.show && d.sampled)
            && d.matchedRuleId == RowId(i)
  {
    DefaultMatrixSelects(evt);
    var i, v := FirstMatch(DefaultRules(), evt), Resolve(DefaultRules(), evt, now);
    assert v.rule == Some(DefaultRow(i)) by { assert DefaultRules()[i] == DefaultRow(i); }
    RowsDo(i);
    RowIds(i);
    assert "store_only" != "store_and_forward" by { ActionsAreLower(); }
    if Alarm(i) || i == 15 {
      UnlimitedDecides(v, st);
    } else {
      SamplingDecides(v, st);
    }
  }

  lemma Reciprocals()
    ensures (1.0 / 0.02).Floor == 50 && (1.0 / 0.05).Floor == 20 && (1.0 / 0.2).Floor == 5 && (1.0 / 0.1).Floor == 10
    ensures (1.0 / 0.25).Floor == 4 && (1.0 / 0.3).Floor == 3
  {
  }

  lemma RowsKeepOneIn(i: nat)
    requires i < 15 && !Alarm(i)
    ensures IsSample(DefaultRow(i)) && KeepEvery(DefaultRow(i)) == KeptOneIn(i)
  {
    RowsDo(i);
    ActionsAreLower();
    Reciprocals();
  }

  lemma RowsLimit(i: nat)
    requires i < 15 && !Alarm(i)
    ensures DefaultRow(i).dedupWindowSeconds == if i in {4, 5, 9, 13} then 10 else 0
    ensures DefaultRow(i).rateLimitPerSecond == if i in {4, 5} then 25 else if i == 13 then 50 else 0
  {
  }

  /** The sampled rows keep one event in so many; the firewall's and the OPC UA reads' have a window of ten seconds,
      the firewall's a limit per second as well. */
  lemma DefaultSampling(i: nat)
    requires i < 15 && !Alarm(i)
    ensures IsSample(DefaultRow(i)) && KeepEvery(DefaultRow(i)) == KeptOneIn(i)
    ensures DefaultRow(i).dedupWindowSeconds == if i in {4, 5, 9, 13} then 10 else 0
    ensures DefaultRow(i).rateLimitPerSecond == if i in {4, 5} then 25 else if i == 13 then 50 else 0
  {
    RowsKeepOneIn(i);
    RowsLimit(i);
  }

  lemma VaultRows(evt: Event, i: nat)
    requires evt.sourceType == "vault" && evt.category == "system_health" && evt.message == "" && evt.raw == ""
    requires i < DEFAULT_ROWS && Concerns(i, evt) && forall j | 0 <= j < i :: !Concerns(j, evt)
    ensures evt.severity == "info" ==> i == 15
    ensures evt.severity == "critical" ==> i == 3
  {
    VaultIsItself();
    Columns();
    ProperIsTrimmed("info");
    ProperIsTrimmed("critical");
    assert Concerns(3, evt) <==> Is(evt.severity, "critical");
    assert Concerns(6, evt) <==> Is(evt.severity, "error");
    assert Is("critical", "critical");
    assert !Is("info", "critical") && !Is("info", "error");
  }

  lemma VaultIsItself()
    ensures forall name | name in {"firewall", "opcua", "ews", "scada", "gds_agent", "plc"} :: !Is("vault", name)
    ensures !Is("system_health", "security")
  {
    assert Proper("vault") by { assert |"vault"| == 5; }
    ProperIsTrimmed("vault");
    Columns();
    ProperIsTrimmed("system_health");
    assert |"firewall"| == 8 && |"opcua"| == 5 && |"ews"| == 3 && |"scada"| == 5 && |"gds_agent"| == 9 && |"plc"| == 3;
    assert |"system_health"| == 13 && |"security"| == 8;
    assert !SameName("opcua", "vault") by { assert 'o' in {"opcua"[0], "vault"[0]}; }
    assert !SameName("scada", "vault") by { assert 's' in {"scada"[0], "vault"[0]}; }
  }

  /** So a routine report of the vault is stored and goes no further, while a critical one is forwarded. */
  lemma VaultReports(evt: Event, now: Instant, st: GateState)
    requires evt.sourceType == "vault" && evt.category == "system_health" && evt.message == "" && evt.raw == ""
    ensures var d := Decide(Resolve(DefaultRules(), evt, now), st).1;
            && (evt.severity == "info" ==> d.store && !d.forward && d.matchedRuleId == "default-store-only")
            && (evt.severity == "critical" ==> d.store && d.forward && d.matchedRuleId == "rule-critical-forward")
  {
    DefaultMatrixDecides(evt, now, st);
    DefaultMatrixSelects(evt);
    VaultRows(evt, FirstMatch(DefaultRules(), evt));
  }
}
