/** The one ingestion path: defaults, rule evaluation, enrichment, then storing, publishing and enqueuing. */
module Processing {
  import opened Events
  import opened Sums
  import opened Text
  import opened Filter
  import opened Jsonl
  import opened Statistics
  import opened Streaming
  import opened Forwarding

  function NormalizeSourceType(s: string): string {
    match DashToUnderscore(ToLower(TrimSpace(s)))
    case "opnsense" => "firewall"
    case "fuxa" => "scada"
    case "fuxa_gds_client" => "scada_gds_client"
    case "scada_gds" => "scada_gds_client"
    case "scada_gds_helper" => "scada_gds_client"
    case "openplc" => "plc"
    case "nozomi" => "ids"
    case other => other
  }

  function SplunkSourcetype(sourceType: string): string {
    match sourceType
    case "firewall" => "labshock:net:firewall"
    case "opcua" => "labshock:ot:opcua"
    case "gds_agent" => "labshock:ot:gds"
    case "scada_gds_client" => "labshock:ot:scada:gds"
    case "scada" => "labshock:ot:scada"
    case "plc" => "labshock:ot:plc"
    case "ids" => "labshock:ot:ids"
    case "ews" => "labshock:ot:ews"
    case "vault" => "labshock:ot:vault"
    case _ => "labshock:ot:unknown"
  }

  function DecisionLabel(d: Decision, willForward: bool): string {
    if d.drop then "drop"
    else if d.store && willForward then "store_and_forward"
    else if !d.store && willForward then "forward_only"
    else if d.store && d.sampled then "sample"
    else "store_only"
  }

  function DecisionHint(d: Decision): string {
    if d.drop then "drop"
    else if d.store && d.forward then "store_forward"
    else if d.store then "store_only"
    else if d.forward then "forward_only"
    else "store_only"
  }

  // ----- one event ------------------------------------------------------------------

  /** An event to ingest and everything its ingestion reads from outside: clocks, the new id, whether forwarding is
      enabled, and how the write goes. */
  datatype Input = Input(
    evt: Event,
    path: string,
    now: Instant,
    nowText: string,
    newId: string,
    forwardingOn: bool,
    io: AppendIo,
    bucket: string,
    sec: int,
    enqueuedAt: int)

  function Or(v: string, fallback: string): string {
    if v == "" then fallback else v
  }

  function Prepare(zone: string, inp: Input): Event {
    var e := inp.evt;
    var receivedAt := Or(e.receivedAt, inp.nowText);
    e.(id := Or(e.id, inp.newId),
       receivedAt := receivedAt,
       timestamp := Or(e.timestamp, receivedAt),
       zone := Or(e.zone, zone),
       protocol := Or(e.protocol, "json"),
       sourceType := NormalizeSourceType(e.sourceType))
  }

  function Enrich(e: Event, path: string, d: Decision, willForward: bool): Event {
    var tags := e.tags["ingestion_path" := path]
                      ["collector_decision" := DecisionLabel(d, willForward)]
                      ["collector_decision_hint" := DecisionHint(d)]
                      ["decision_reason" := d.reason]
                      ["siem_index_hint" := "ot_security"]
                      ["splunk_sourcetype" := SplunkSourcetype(e.sourceType)];
    var ruled := if d.matchedRuleId != "" then tags["matched_rule_id" := d.matchedRuleId] else tags;
    e.(tags := if willForward then ruled["forwarding_status" := "queued"] else ruled)
  }

  /** What is decided for an event, before anything is done about it. */
  datatype Verdict = Verdict(gate: GateState, decision: Decision, willForward: bool, evt: Event)

  function Judge(zone: string, rules: seq<RuleConfig>, gate: GateState, inp: Input): Verdict {
    var e := Prepare(zone, inp);
    var (gate', d) := Decide(Resolve(rules, e, inp.now), gate);
    var willForward := !d.drop && d.forward && inp.forwardingOn;
    Verdict(gate', d, willForward, Enrich(e, inp.path, d, willForward))
  }

  /** The state an ingestion changes. */
  datatype State = State(
    gate: GateState,
    file: Option<Bytes>,
    stats: StatsView,
    hub: Hub,
    tasks: seq<ForwardTask>,
    queued: int)

  /** What an ingestion did. */
  datatype Effect = Effect(
    verdict: Verdict,
    file: Option<Bytes>,
    appended: bool,
    published: bool,
    enqueued: bool)

  datatype Fixed = Fixed(zone: string, codec: Codec, capacity: nat)

  /** The append is tried whenever the decision says store, for a dropped event too. */
  function EffectOf(fx: Fixed, v: Verdict, s: State, io: AppendIo): Effect {
    var (file, appended) := if v.decision.store then AfterAppend(fx.codec, s.file, v.evt, io) else (s.file, false);
    Effect(v, file, appended, appended && v.decision.show, v.willForward && |s.tasks| < fx.capacity)
  }

  function OpsOf(eff: Effect, inp: Input): seq<StatOp> {
    var d := eff.verdict.decision;
    if d.drop then [Dropped(d.matchedRuleId, d.reason, d.sampled, inp.sec)]
    else [Decided(DecisionLabel(d, eff.verdict.willForward), d.matchedRuleId, d.sampled)]
         + if eff.appended then [Stored(eff.verdict.evt, inp.bucket, inp.sec)] else []
  }

  function Carried(s: State, eff: Effect, inp: Input): State {
    State(
      eff.verdict.gate,
      eff.file,
      UpdateAll(s.stats, OpsOf(eff, inp)),
      if eff.published then Published(s.hub, eff.verdict.evt) else s.hub,
      if eff.enqueued then s.tasks + [ForwardTask(eff.verdict.evt, inp.path, inp.enqueuedAt)] else s.tasks,
      if eff.enqueued then s.queued + 1 else s.queued)
  }

  function EffectAt(fx: Fixed, rules: seq<RuleConfig>, s: State, inp: Input): Effect {
    EffectOf(fx, Judge(fx.zone, rules, s.gate, inp), s, inp.io)
  }

  function Ingested(fx: Fixed, rules: seq<RuleConfig>, s: State, inp: Input): State {
    Carried(s, EffectAt(fx, rules, s, inp), inp)
  }

  /** Once judged, an event is carried out without looking at the gates. */
  lemma GateDoesNotMatter(fx: Fixed, v: Verdict, s: State, inp: Input)
    ensures var s' := s.(gate := v.gate);
            Carried(s', EffectOf(fx, v, s', inp.io), inp) == Carried(s, EffectOf(fx, v, s, inp.io), inp)
  {
  }

  lemma OpsApply(s: StatsView, a: StatOp, b: StatOp)
    ensures UpdateAll(s, [a]) == Update(s, a)
    ensures UpdateAll(s, [a] + []) == Update(s, a)
    ensures UpdateAll(s, [a] + [b]) == Update(Update(s, a), b)
  {
    assert [a][..0] == [] && [a] + [] == [a] && ([a] + [b])[..1] == [a];
    assert UpdateAll(s, []) == s;
  }

  // ----- forwarding results ---------------------------------------------------------

  predicate Succeeded(r: ForwardResult) {
    !r.skipped && r.outcome.Some? && r.outcome.value.Sent?
  }

  function ErrorText(r: ForwardResult): string {
    if r.outcome.Some? && r.outcome.value.SendFailed? then r.outcome.value.error else ""
  }

  function ForwardOps(r: ForwardResult, when: string): seq<StatOp> {
    if r.skipped then [] else [Forwarded(Succeeded(r), if Succeeded(r) then when else "")]
  }

  /** What the forwarding configuration remembers of the sends. */
  datatype ForwardRecord = ForwardRecord(
    lastAttemptAt: string := "",
    lastSuccessAt: string := "",
    lastFailedAt: string := "",
    lastForwardedId: string := "",
    lastFailedId: string := "",
    lastError: string := "",
    successes: int := 0,
    failures: int := 0)

  function Noted(rec: ForwardRecord, r: ForwardResult, when: string): ForwardRecord {
    if r.skipped then rec
    else if Succeeded(r) then
      rec.(lastAttemptAt := when, lastSuccessAt := when, successes := rec.successes + 1,
           lastForwardedId := r.eventId, lastError := "")
    else
      rec.(lastAttemptAt := when, lastFailedAt := when, failures := rec.failures + 1, lastFailedId := r.eventId,
           lastError := if ErrorText(r) != "" then ErrorText(r) else rec.lastError)
  }

  /** The part of the forwarding configuration that results change; whether it gets saved is ignored by the caller. */
  class ForwardingStore {
    var data: ForwardRecord

    constructor (data: ForwardRecord)
      ensures this.data == data
    {
      this.data := data;
    }

    method UpdateForwardResult(r: ForwardResult, when: string)
      requires !r.skipped
      modifies this
      ensures data == Noted(old(data), r, when)
    {
      data := data.(lastAttemptAt := when);
      if Succeeded(r) {
        data := data.(lastSuccessAt := when, successes := data.successes + 1, lastForwardedId := r.eventId,
                      lastError := "");
      } else {
        data := data.(failures := data.failures + 1, lastFailedAt := when, lastFailedId := r.eventId);
        if ErrorText(r) != "" {
          data := data.(lastError := ErrorText(r));
        }
      }
    }
  }

  // ----- the processor ----------------------------------------------------------------

  class Processor {
    const zone: string
    const engine: Engine
    const store: JsonlStore
    const stats: Stats
    const hub: StreamHub
    const queue: ForwardQueue
    const forwarding: ForwardingStore

    constructor (zone: string, engine: Engine, store: JsonlStore, stats: Stats, hub: StreamHub, queue: ForwardQueue,
                 forwarding: ForwardingStore)
      ensures this.zone == zone && this.engine == engine && this.store == store
      ensures this.stats == stats && this.hub == hub && this.queue == queue && this.forwarding == forwarding
    {
      this.zone, this.engine, this.store, this.stats := zone, engine, store, stats;
      this.hub, this.queue, this.forwarding := hub, queue, forwarding;
    }

    function Parts(): Fixed {
      Fixed(zone, store.codec, queue.capacity)
    }

    function View(): State
      reads engine, store, stats, hub, queue
    {
      State(engine.Gate(), store.file, stats.View(), hub.View(), queue.tasks, queue.queued)
    }

    /** Decides and enriches; only the gates change. */
    method Evaluate(inp: Input) returns (v: Verdict)
      modifies engine`rateBySource, engine`dedupCache, engine`sampleCounts
      ensures v == Judge(zone, engine.rules, old(engine.Gate()), inp) && engine.Gate() == v.gate
    {
      var evt := Prepare(zone, inp);
      var d := engine.Evaluate(evt, inp.now);
      var willForward := false;
      if !d.drop {
        willForward := d.forward && inp.forwardingOn;
      }
      v := Verdict(engine.Gate(), d, willForward, Enrich(evt, inp.path, d, willForward));
    }

    /** The drop branch. */
    method Discard(v: Verdict, inp: Input) returns (ghost eff: Effect)
      requires Streaming.Valid(hub.View()) && v.gate == engine.Gate() && v.decision.drop && !v.willForward
      modifies store, stats, hub`channels
      ensures Streaming.Valid(hub.View()) && engine.Gate() == old(engine.Gate())
      ensures eff == EffectOf(Parts(), v, old(View()), inp.io)
      ensures View() == Carried(old(View()), eff, inp)
    {
      var d := v.decision;
      eff := EffectOf(Parts(), v, View(), inp.io);
      if d.store {
        var appended := store.Append(v.evt, inp.io);
        if appended && d.show {
          hub.Publish(v.evt);
        }
      }
      OpsApply(stats.View(), Dropped(d.matchedRuleId, d.reason, d.sampled, inp.sec), Forwarded(false, ""));
      stats.AddDropped(d.matchedRuleId, d.reason, d.sampled, inp.sec);
    }

    /** Counts the decision and, when it says store, keeps the event and counts it if the append went through. */
    method Record(v: Verdict, inp: Input) returns (appended: bool)
      requires Streaming.Valid(hub.View()) && !v.decision.drop
      modifies store, stats, hub`channels
      ensures Streaming.Valid(hub.View())
      ensures (store.file, appended) ==
              if v.decision.store then AfterAppend(store.codec, old(store.file), v.evt, inp.io)
              else (old(store.file), false)
      ensures hub.View() == if appended && v.decision.show then Published(old(hub.View()), v.evt) else old(hub.View())
      ensures stats.View() ==
              var d := v.decision;
              var s := Update(old(stats.View()), Decided(DecisionLabel(d, v.willForward), d.matchedRuleId, d.sampled));
              if appended then Update(s, Stored(v.evt, inp.bucket, inp.sec)) else s
    {
      stats.AddDecision(DecisionLabel(v.decision, v.willForward), v.decision.matchedRuleId, v.decision.sampled);
      appended := false;
      if v.decision.store {
        appended := store.Append(v.evt, inp.io);
        if appended {
          stats.AddStored(v.evt, inp.bucket, inp.sec);
          if v.decision.show {
            hub.Publish(v.evt);
          }
        }
      }
    }

    /** The branch of everything else. */
    method Pass(v: Verdict, inp: Input) returns (ghost eff: Effect)
      requires Streaming.Valid(hub.View()) && v.gate == engine.Gate() && !v.decision.drop
      modifies store, stats, hub`channels, queue
      ensures Streaming.Valid(hub.View()) && engine.Gate() == old(engine.Gate())
      ensures eff == EffectOf(Parts(), v, old(View()), inp.io)
      ensures View() == Carried(old(View()), eff, inp)
    {
      eff := EffectOf(Parts(), v, View(), inp.io);
      OpsApply(stats.View(),
               Decided(DecisionLabel(v.decision, v.willForward), v.decision.matchedRuleId, v.decision.sampled),
               Stored(v.evt, inp.bucket, inp.sec));
      var appended := Record(v, inp);
      assert appended == eff.appended;
      if v.willForward {
        var _ := queue.Enqueue(ForwardTask(v.evt, inp.path, inp.enqueuedAt));
      }
    }

    method Ingest(inp: Input)
      requires Streaming.Valid(hub.View())
      modifies engine`rateBySource, engine`dedupCache, engine`sampleCounts, store, stats, hub`channels, queue
      ensures Streaming.Valid(hub.View())
      ensures View() == Ingested(Parts(), engine.rules, old(View()), inp)
    {
      ghost var before := View();
      var v := Evaluate(inp);
      assert View() == before.(gate := v.gate);
      GateDoesNotMatter(Parts(), v, before, inp);
      if v.decision.drop {
        ghost var _ := Discard(v, inp);
      } else {
        ghost var _ := Pass(v, inp);
      }
    }

    /** Called by the queue's workers; a skipped task leaves the statistics and the record alone. */
    method HandleForwardResult(r: ForwardResult, when: string)
      modifies stats, forwarding
      ensures stats.View() == UpdateAll(old(stats.View()), ForwardOps(r, when))
      ensures forwarding.data == Noted(old(forwarding.data), r, when)
    {
      if r.skipped {
        return;
      }
      var ok := if Succeeded(r) then when else "";
      OpsApply(stats.View(), Forwarded(Succeeded(r), ok), Forwarded(false, ""));
      stats.AddForwardResult(Succeeded(r), ok);
      forwarding.UpdateForwardResult(r, when);
    }
  }
}
