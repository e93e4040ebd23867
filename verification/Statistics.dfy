/** The collector's counters and count maps. */
module Statistics {
  import opened Events
  import opened Sums

  datatype SourceStats = SourceStats(
    assetName: string,
    assetIp: string,
    sourceType: string,
    eventCount: int,
    lastSeen: string)

  /** One update of the statistics. The minute bucket and the second are read off the clock by the source. */
  datatype StatOp =
    | Stored(e: Event, bucket: string, sec: int)
    | Decided(decision: string, ruleId: string, sampled: bool)
    | Dropped(ruleId: string, reason: string, sampled: bool, sec: int)
    | Forwarded(success: bool, when: string)

  datatype Counters = Counters(
    total: int,
    storedCount: int,
    droppedCount: int,
    sampledCount: int,
    forwardedCount: int,
    failedForwardCount: int)

  datatype CountMaps = CountMaps(
    bySeverity: map<string, int>,
    bySourceType: map<string, int>,
    byCategory: map<string, int>,
    byAsset: map<string, int>,
    byCommand: map<string, int>,
    byRule: map<string, int>,
    byDecision: map<string, int>,
    bySourceIp: map<string, int>,
    timeline: map<string, int>)

  datatype Rate = Rate(second: int, count: int, eps: int)

  /** The sources, the times of the last event and the last good forward, and the rate. */
  datatype Others = Others(
    sources: map<string, SourceStats>,
    lastEventAt: string,
    lastForwardOk: string,
    rate: Rate)

  datatype StatsView = StatsView(counters: Counters, maps: CountMaps, others: Others)

  const NO_MAPS := CountMaps(map[], map[], map[], map[], map[], map[], map[], map[], map[])
  const NO_STATS := StatsView(Counters(0, 0, 0, 0, 0, 0), NO_MAPS, Others(map[], "", "", Rate(0, 0, 0)))

  // ----- what an update does, part by part --------------------------------------

  function UpdateCounters(c: Counters, op: StatOp): Counters {
    match op
    case Stored(_, _, _) => c.(total := c.total + 1, storedCount := c.storedCount + 1)
    case Decided(_, _, sampled) => c.(sampledCount := c.sampledCount + One(sampled))
    case Dropped(_, _, sampled, _) =>
      c.(total := c.total + 1, droppedCount := c.droppedCount + 1, sampledCount := c.sampledCount + One(sampled))
    case Forwarded(success, _) =>
      if success then c.(forwardedCount := c.forwardedCount + 1)
      else c.(failedForwardCount := c.failedForwardCount + 1)
  }

  function NonBlank(k: string): seq<string> {
    if k == "" then [] else [k]
  }

  // The keys an update counts under in each of the maps.
  function SeverityKeys(op: StatOp): seq<string> { if op.Stored? then [op.e.severity] else [] }
  function SourceTypeKeys(op: StatOp): seq<string> { if op.Stored? then [op.e.sourceType] else [] }
  function CategoryKeys(op: StatOp): seq<string> { if op.Stored? then [op.e.category] else [] }
  function AssetKeys(op: StatOp): seq<string> { if op.Stored? then [op.e.assetName] else [] }
  function TimelineKeys(op: StatOp): seq<string> { if op.Stored? then [op.bucket] else [] }
  function SourceIpKeys(op: StatOp): seq<string> { if op.Stored? then NonBlank(op.e.assetIp) else [] }
  function CommandKeys(op: StatOp): seq<string> { if op.Stored? then NonBlank(op.e.Tag("browse_name")) else [] }

  function RuleKeys(op: StatOp): seq<string> {
    if op.Decided? || op.Dropped? then NonBlank(op.ruleId) else []
  }

  /** A drop counts twice: as a drop, and under its reason. */
  function DecisionKeys(op: StatOp): seq<string> {
    match op
    case Decided(decision, _, _) => [decision]
    case Dropped(_, reason, _, _) => ["drop"] + NonBlank(reason)
    case _ => []
  }

  function IncAll(m: map<string, int>, ks: seq<string>): map<string, int>
    decreases |ks|
  {
    if ks == [] then m else IncAll(Inc(m, ks[0]), ks[1..])
  }

  function UpdateMaps(m: CountMaps, op: StatOp): CountMaps {
    CountMaps(
      IncAll(m.bySeverity, SeverityKeys(op)),
      IncAll(m.bySourceType, SourceTypeKeys(op)),
      IncAll(m.byCategory, CategoryKeys(op)),
      IncAll(m.byAsset, AssetKeys(op)),
      IncAll(m.byCommand, CommandKeys(op)),
      IncAll(m.byRule, RuleKeys(op)),
      IncAll(m.byDecision, DecisionKeys(op)),
      IncAll(m.bySourceIp, SourceIpKeys(op)),
      IncAll(m.timeline, TimelineKeys(op)))
  }

  function SourceKey(e: Event): string {
    if e.assetIp != "" then e.assetIp else e.assetName
  }

  function EventCount(sources: map<string, SourceStats>, k: string): int {
    if k in sources then sources[k].eventCount else 0
  }

  function UpdateSources(sources: map<string, SourceStats>, op: StatOp): map<string, SourceStats> {
    if !op.Stored? then sources
    else
      var e, k := op.e, SourceKey(op.e);
      sources[k := SourceStats(e.assetName, e.assetIp, e.sourceType, EventCount(sources, k) + 1, e.receivedAt)]
  }

  function UpdateRate(r: Rate, op: StatOp): Rate {
    if !op.Stored? && !op.Dropped? then r
    else Bumped(r, op.sec)
  }

  function Bumped(r: Rate, sec: int): Rate {
    if r.second != sec then Rate(sec, 1, r.count) else r.(count := r.count + 1)
  }

  function UpdateOthers(o: Others, op: StatOp): Others {
    Others(
      UpdateSources(o.sources, op),
      if op.Stored? then op.e.receivedAt else o.lastEventAt,
      if op.Forwarded? && op.success then op.when else o.lastForwardOk,
      UpdateRate(o.rate, op))
  }

  function Update(s: StatsView, op: StatOp): StatsView {
    StatsView(UpdateCounters(s.counters, op), UpdateMaps(s.maps, op), UpdateOthers(s.others, op))
  }

  function UpdateAll(s: StatsView, ops: seq<StatOp>): StatsView {
    if ops == [] then s else Update(UpdateAll(s, ops[..|ops| - 1]), ops[|ops| - 1])
  }

  function StatsAfter(ops: seq<StatOp>): StatsView {
    UpdateAll(NO_STATS, ops)
  }

  /** Counts under a key unless it is blank. */
  function IncNamed(m: map<string, int>, k: string): map<string, int> {
    if k != "" then Inc(m, k) else m
  }

  lemma IncAllShort(m: map<string, int>, a: string, b: string)
    ensures IncAll(m, []) == m && IncAll(m, [a]) == Inc(m, a)
    ensures IncAll(m, NonBlank(a)) == IncNamed(m, a)
    ensures IncAll(m, [a] + NonBlank(b)) == IncNamed(Inc(m, a), b)
  {
    assert [a][1..] == [] && ([a] + NonBlank(b))[1..] == NonBlank(b);
    assert [b][1..] == [] && IncAll(Inc(m, a), [b]) == IncAll(Inc(Inc(m, a), b), []);
  }

  /** The fields are grouped as above: the counters, the count maps and the rest. */
  class Stats {
    var counters: Counters
    var maps: CountMaps
    var others: Others

    function View(): StatsView
      reads this
    {
      StatsView(counters, maps, others)
    }

    constructor ()
      ensures View() == NO_STATS
    {
      counters, maps, others := Counters(0, 0, 0, 0, 0, 0), NO_MAPS, Others(map[], "", "", Rate(0, 0, 0));
    }

    method BumpRate(sec: int)
      modifies this`others
      ensures others == old(others).(rate := Bumped(old(others).rate, sec))
    {
      var r := others.rate;
      if r.second != sec {
        r := Rate(sec, 0, r.count);
      }
      others := others.(rate := r.(count := r.count + 1));
    }

    method CountStored(e: Event, bucket: string, ghost sec: int)
      modifies this`maps
      ensures maps == UpdateMaps(old(maps), Stored(e, bucket, sec))
    {
      var m := maps;
      IncAllShort(m.bySeverity, e.severity, "");
      IncAllShort(m.bySourceType, e.sourceType, "");
      IncAllShort(m.byCategory, e.category, "");
      IncAllShort(m.byAsset, e.assetName, "");
      IncAllShort(m.bySourceIp, e.assetIp, "");
      IncAllShort(m.byCommand, e.Tag("browse_name"), "");
      IncAllShort(m.timeline, bucket, "");
      m := m.(bySeverity := Inc(m.bySeverity, e.severity));
      m := m.(bySourceType := Inc(m.bySourceType, e.sourceType));
      m := m.(byCategory := Inc(m.byCategory, e.category));
      m := m.(byAsset := Inc(m.byAsset, e.assetName));
      m := m.(bySourceIp := IncNamed(m.bySourceIp, e.assetIp));
      m := m.(byCommand := IncNamed(m.byCommand, e.Tag("browse_name")));
      m := m.(timeline := Inc(m.timeline, bucket));
      maps := m;
    }

    method TouchSource(e: Event, ghost bucket: string, ghost sec: int)
      modifies this`others
      ensures others == old(others).(sources := UpdateSources(old(others).sources, Stored(e, bucket, sec)))
    {
      var k := e.assetIp;
      if k == "" {
        k := e.assetName;
      }
      var sources := others.sources;
      var source := if k in sources then sources[k] else SourceStats("", "", "", 0, "");
      source := SourceStats(e.assetName, e.assetIp, e.sourceType, source.eventCount + 1, e.receivedAt);
      others := others.(sources := sources[k := source]);
    }

    method AddStored(e: Event, bucket: string, sec: int)
      modifies this
      ensures View() == Update(old(View()), Stored(e, bucket, sec))
    {
      counters := counters.(total := counters.total + 1, storedCount := counters.storedCount + 1);
      CountStored(e, bucket, sec);
      TouchSource(e, bucket, sec);
      others := others.(lastEventAt := e.receivedAt);
      BumpRate(sec);
    }

    method AddDecision(decision: string, ruleId: string, sampled: bool)
      modifies this
      ensures View() == Update(old(View()), Decided(decision, ruleId, sampled))
    {
      IncAllShort(maps.byDecision, decision, "");
      IncAllShort(maps.byRule, ruleId, "");
      maps := maps.(byDecision := Inc(maps.byDecision, decision), byRule := IncNamed(maps.byRule, ruleId));
      counters := counters.(sampledCount := counters.sampledCount + One(sampled));
    }

    method AddDropped(ruleId: string, reason: string, sampled: bool, sec: int)
      modifies this
      ensures View() == Update(old(View()), Dropped(ruleId, reason, sampled, sec))
    {
      IncAllShort(maps.byDecision, "drop", reason);
      IncAllShort(maps.byRule, ruleId, "");
      counters := counters.(total := counters.total + 1, droppedCount := counters.droppedCount + 1,
                            sampledCount := counters.sampledCount + One(sampled));
      maps := maps.(byDecision := IncNamed(Inc(maps.byDecision, "drop"), reason),
                    byRule := IncNamed(maps.byRule, ruleId));
      BumpRate(sec);
    }

    method AddForwardResult(success: bool, when: string)
      modifies this
      ensures View() == Update(old(View()), Forwarded(success, when))
    {
      if success {
        counters := counters.(forwardedCount := counters.forwardedCount + 1);
        others := others.(lastForwardOk := when);
      } else {
        counters := counters.(failedForwardCount := counters.failedForwardCount + 1);
      }
    }
  }

  // ----- every map is a tally of the updates ------------------------------------

  type KeysOf = StatOp -> seq<string>

  /** How often k occurs among the keys of the updates. */
  function Occurrences(ops: seq<StatOp>, keys: KeysOf, k: string): nat {
    if ops == [] then 0
    else Occurrences(ops[..|ops| - 1], keys, k) + multiset(keys(ops[|ops| - 1]))[k]
  }

  /** How many keys the updates have together. */
  function KeyCount(ops: seq<StatOp>, keys: KeysOf): nat {
    if ops == [] then 0 else KeyCount(ops[..|ops| - 1], keys) + |keys(ops[|ops| - 1])|
  }

  function Tally(ops: seq<StatOp>, keys: KeysOf): map<string, int> {
    if ops == [] then map[] else IncAll(Tally(ops[..|ops| - 1], keys), keys(ops[|ops| - 1]))
  }

  lemma {:induction false} IncAllCounts(m: map<string, int>, ks: seq<string>, k: string)
    ensures Get(IncAll(m, ks), k) == Get(m, k) + multiset(ks)[k]
    ensures MapSum(IncAll(m, ks)) == MapSum(m) + |ks|
    decreases |ks|
  {
    if ks != [] {
      IncAllCounts(Inc(m, ks[0]), ks[1..], k);
      MapSumInc(m, ks[0]);
      assert ks == [ks[0]] + ks[1..];
    }
  }

  /** A tally holds each key's number of occurrences and sums to the number of keys. */
  lemma {:induction false} TallyCounts(ops: seq<StatOp>, keys: KeysOf, k: string)
    ensures Get(Tally(ops, keys), k) == Occurrences(ops, keys, k)
    ensures MapSum(Tally(ops, keys)) == KeyCount(ops, keys)
  {
    if ops != [] {
      TallyCounts(ops[..|ops| - 1], keys, k);
      IncAllCounts(Tally(ops[..|ops| - 1], keys), keys(ops[|ops| - 1]), k);
    }
  }

  ghost predicate MapsAreTallies(m: CountMaps, ops: seq<StatOp>) {
    && m.bySeverity == Tally(ops, SeverityKeys)
    && m.bySourceType == Tally(ops, SourceTypeKeys)
    && m.byCategory == Tally(ops, CategoryKeys)
    && m.byAsset == Tally(ops, AssetKeys)
    && m.timeline == Tally(ops, TimelineKeys)
    && m.bySourceIp == Tally(ops, SourceIpKeys)
    && m.byCommand == Tally(ops, CommandKeys)
    && m.byRule == Tally(ops, RuleKeys)
    && m.byDecision == Tally(ops, DecisionKeys)
  }

  /** Whatever the updates, each map counts exactly the updates that fall under each key. */
  lemma {:induction false} MapsTally(ops: seq<StatOp>)
    ensures MapsAreTallies(StatsAfter(ops).maps, ops)
  {
    if ops != [] {
      MapsTally(ops[..|ops| - 1]);
      assert StatsAfter(ops).maps == UpdateMaps(StatsAfter(ops[..|ops| - 1]).maps, ops[|ops| - 1]);
    }
  }

  // ----- the counters --------------------------------------------------------------

  function CountOf(ops: seq<StatOp>, p: StatOp -> bool): nat {
    if ops == [] then 0 else CountOf(ops[..|ops| - 1], p) + if p(ops[|ops| - 1]) then 1 else 0
  }

  predicate IsStored(op: StatOp) { op.Stored? }
  predicate IsDecided(op: StatOp) { op.Decided? }
  predicate IsDropped(op: StatOp) { op.Dropped? }
  predicate IsSampled(op: StatOp) { (op.Decided? || op.Dropped?) && op.sampled }
  predicate IsForwarded(op: StatOp) { op.Forwarded? && op.success }
  predicate IsFailedForward(op: StatOp) { op.Forwarded? && !op.success }

  lemma {:induction false} CountersCount(ops: seq<StatOp>)
    ensures var c := StatsAfter(ops).counters;
            && c.storedCount == CountOf(ops, IsStored)
            && c.droppedCount == CountOf(ops, IsDropped)
            && c.total == c.storedCount + c.droppedCount
            && c.sampledCount == CountOf(ops, IsSampled)
            && c.forwardedCount == CountOf(ops, IsForwarded)
            && c.failedForwardCount == CountOf(ops, IsFailedForward)
  {
    if ops != [] {
      CountersCount(ops[..|ops| - 1]);
      assert StatsAfter(ops).counters == UpdateCounters(StatsAfter(ops[..|ops| - 1]).counters, ops[|ops| - 1]);
    }
  }

  /** How many of the updates store an event of which this holds. */
  function StoredWith(ops: seq<StatOp>, p: Event -> bool): nat {
    CountOf(ops, (op: StatOp) => op.Stored? && p(op.e))
  }

  lemma {:induction false} OccurrencesAre(ops: seq<StatOp>, keys: KeysOf, k: string, p: StatOp -> bool)
    requires forall op :: multiset(keys(op))[k] == if p(op) then 1 else 0
    ensures Occurrences(ops, keys, k) == CountOf(ops, p)
  {
    if ops != [] { OccurrencesAre(ops[..|ops| - 1], keys, k, p); }
  }

  lemma TallyOf(ops: seq<StatOp>, keys: KeysOf, k: string, p: StatOp -> bool)
    requires forall op :: multiset(keys(op))[k] == if p(op) then 1 else 0
    ensures Get(Tally(ops, keys), k) == CountOf(ops, p)
  {
    TallyCounts(ops, keys, k);
    OccurrencesAre(ops, keys, k, p);
  }

  lemma CountsOf(ops: seq<StatOp>, keys: KeysOf, k: string, p: Event -> bool)
    requires forall op :: multiset(keys(op))[k] == if op.Stored? && p(op.e) then 1 else 0
    ensures Get(Tally(ops, keys), k) == StoredWith(ops, p)
  {
    TallyOf(ops, keys, k, (op: StatOp) => op.Stored? && p(op.e));
  }

  // The stored events that have k as their severity, and so on.
  function OfSeverity(k: string): Event -> bool { (e: Event) => e.severity == k }
  function OfType(k: string): Event -> bool { (e: Event) => e.sourceType == k }
  function OfCategory(k: string): Event -> bool { (e: Event) => e.category == k }
  function OfAsset(k: string): Event -> bool { (e: Event) => e.assetName == k }
  function FromAddress(k: string): Event -> bool { (e: Event) => e.assetIp == k }
  function OfCommand(k: string): Event -> bool { (e: Event) => e.Tag("browse_name") == k }

  function InMinute(k: string): StatOp -> bool { (op: StatOp) => op.Stored? && op.bucket == k }

  lemma NonBlankCounts(ops: seq<StatOp>, keys: KeysOf, k: string, p: Event -> bool)
    requires forall op :: multiset(keys(op))[k] == if op.Stored? && p(op.e) && k != "" then 1 else 0
    ensures Get(Tally(ops, keys), k) == if k == "" then 0 else StoredWith(ops, p)
  {
    if k == "" {
      TallyOf(ops, keys, k, (op: StatOp) => false);
      CountNone(ops, (op: StatOp) => false);
    } else {
      CountsOf(ops, keys, k, p);
    }
  }

  lemma {:induction false} CountNone(ops: seq<StatOp>, p: StatOp -> bool)
    requires forall op :: !p(op)
    ensures CountOf(ops, p) == 0
  {
    if ops != [] { CountNone(ops[..|ops| - 1], p); }
  }

  lemma SeverityCounts(ops: seq<StatOp>, k: string)
    ensures Get(Tally(ops, SeverityKeys), k) == StoredWith(ops, OfSeverity(k))
  {
    CountsOf(ops, SeverityKeys, k, OfSeverity(k));
  }

  lemma SourceTypeCounts(ops: seq<StatOp>, k: string)
    ensures Get(Tally(ops, SourceTypeKeys), k) == StoredWith(ops, OfType(k))
  {
    CountsOf(ops, SourceTypeKeys, k, OfType(k));
  }

  lemma CategoryCounts(ops: seq<StatOp>, k: string)
    ensures Get(Tally(ops, CategoryKeys), k) == StoredWith(ops, OfCategory(k))
  {
    CountsOf(ops, CategoryKeys, k, OfCategory(k));
  }

  lemma AssetCounts(ops: seq<StatOp>, k: string)
    ensures Get(Tally(ops, AssetKeys), k) == StoredWith(ops, OfAsset(k))
  {
    CountsOf(ops, AssetKeys, k, OfAsset(k));
  }

  lemma SourceIpCounts(ops: seq<StatOp>, k: string)
    ensures Get(Tally(ops, SourceIpKeys), k) == if k == "" then 0 else StoredWith(ops, FromAddress(k))
  {
    NonBlankCounts(ops, SourceIpKeys, k, FromAddress(k));
  }

  lemma CommandCounts(ops: seq<StatOp>, k: string)
    ensures Get(Tally(ops, CommandKeys), k) == if k == "" then 0 else StoredWith(ops, OfCommand(k))
  {
    NonBlankCounts(ops, CommandKeys, k, OfCommand(k));
  }

  /** What the maps over stored events count: under each key the stored events that have it as their severity, type,
      category, asset or minute; and, under any key but the blank one, which is left out, as their address or their
      command. */
  lemma MapsCountEvents(ops: seq<StatOp>, k: string)
    ensures var m := StatsAfter(ops).maps;
            && Get(m.bySeverity, k) == StoredWith(ops, OfSeverity(k))
            && Get(m.bySourceType, k) == StoredWith(ops, OfType(k))
            && Get(m.byCategory, k) == StoredWith(ops, OfCategory(k))
            && Get(m.byAsset, k) == StoredWith(ops, OfAsset(k))
            && Get(m.bySourceIp, k) == (if k == "" then 0 else StoredWith(ops, FromAddress(k)))
            && Get(m.byCommand, k) == (if k == "" then 0 else StoredWith(ops, OfCommand(k)))
            && Get(m.timeline, k) == CountOf(ops, InMinute(k))
  {
    MapsTally(ops);
    SeverityCounts(ops, k);
    SourceTypeCounts(ops, k);
    CategoryCounts(ops, k);
    AssetCounts(ops, k);
    SourceIpCounts(ops, k);
    CommandCounts(ops, k);
    TallyOf(ops, TimelineKeys, k, InMinute(k));
  }

  lemma {:induction false} DecisionOccurrences(ops: seq<StatOp>, k: string)
    ensures Occurrences(ops, DecisionKeys, k) ==
            CountOf(ops, (op: StatOp) => op.Decided? && op.decision == k)
            + (if k == "drop" then CountOf(ops, IsDropped) else 0)
            + CountOf(ops, (op: StatOp) => op.Dropped? && op.reason == k && k != "")
  {
    if ops != [] { DecisionOccurrences(ops[..|ops| - 1], k); }
  }

  /** And what the other two count: under a rule the events decided or dropped by it, blank ids left out; under a
      decision the events so decided, under `drop` all that were dropped, and each of them under its reason too. */
  lemma MapsCountDecisions(ops: seq<StatOp>, k: string)
    ensures var m := StatsAfter(ops).maps;
            && Get(m.byRule, k) ==
               CountOf(ops, (op: StatOp) => (op.Decided? || op.Dropped?) && op.ruleId == k && k != "")
            && Get(m.byDecision, k) ==
               CountOf(ops, (op: StatOp) => op.Decided? && op.decision == k)
               + (if k == "drop" then CountOf(ops, (op: StatOp) => op.Dropped?) else 0)
               + CountOf(ops, (op: StatOp) => op.Dropped? && op.reason == k && k != "")
  {
    MapsTally(ops);
    TallyOf(ops, RuleKeys, k, (op: StatOp) => (op.Decided? || op.Dropped?) && op.ruleId == k && k != "");
    TallyCounts(ops, DecisionKeys, k);
    DecisionOccurrences(ops, k);
    CountAlike(ops, IsDropped, (op: StatOp) => op.Dropped?);
  }

  lemma {:induction false} CountAlike(ops: seq<StatOp>, p: StatOp -> bool, q: StatOp -> bool)
    requires forall op :: p(op) <==> q(op)
    ensures CountOf(ops, p) == CountOf(ops, q)
  {
    if ops != [] { CountAlike(ops[..|ops| - 1], p, q); }
  }

  lemma {:induction false} StoredKeysCount(ops: seq<StatOp>, keys: KeysOf)
    requires forall op :: |keys(op)| == if op.Stored? then 1 else 0
    ensures KeyCount(ops, keys) == CountOf(ops, IsStored)
  {
    if ops != [] { StoredKeysCount(ops[..|ops| - 1], keys); }
  }

  /** Each source's own count. */
  function EventCounts(sources: map<string, SourceStats>): map<string, int> {
    map k | k in sources :: sources[k].eventCount
  }

  lemma CountsSumStep(sources: map<string, SourceStats>, k: string, x: SourceStats)
    requires x.eventCount == EventCount(sources, k) + 1
    ensures MapSum(EventCounts(sources[k := x])) == MapSum(EventCounts(sources)) + 1
  {
    assert EventCounts(sources[k := x]) == Inc(EventCounts(sources), k);
    MapSumInc(EventCounts(sources), k);
  }

  lemma {:induction false} SourcesSumToStored(ops: seq<StatOp>)
    ensures MapSum(EventCounts(StatsAfter(ops).others.sources)) == CountOf(ops, IsStored)
  {
    if ops != [] {
      var front, op := ops[..|ops| - 1], ops[|ops| - 1];
      SourcesSumToStored(front);
      var before := StatsAfter(front).others.sources;
      assert StatsAfter(ops).others.sources == UpdateSources(before, op);
      if op.Stored? {
        var k := SourceKey(op.e);
        CountsSumStep(before, k, UpdateSources(before, op)[k]);
      }
    }
  }

  /** In every reachable state the counters and the maps agree: what is counted in total is what was stored or
      dropped, and the maps over stored events, the sources among them, each sum to the stored count. */
  lemma MapsAgreeWithCounters(ops: seq<StatOp>)
    ensures var c, m := StatsAfter(ops).counters, StatsAfter(ops).maps;
            && c.total == c.storedCount + c.droppedCount
            && MapSum(m.bySeverity) == c.storedCount
            && MapSum(m.bySourceType) == c.storedCount
            && MapSum(m.byCategory) == c.storedCount
            && MapSum(m.byAsset) == c.storedCount
            && MapSum(m.timeline) == c.storedCount
            && MapSum(EventCounts(StatsAfter(ops).others.sources)) == c.storedCount
  {
    SourcesSumToStored(ops);
    MapsTally(ops);
    CountersCount(ops);
    SumsToStored(ops, SeverityKeys);
    SumsToStored(ops, SourceTypeKeys);
    SumsToStored(ops, CategoryKeys);
    SumsToStored(ops, AssetKeys);
    SumsToStored(ops, TimelineKeys);
  }

  lemma SumsToStored(ops: seq<StatOp>, keys: KeysOf)
    requires forall op :: |keys(op)| == if op.Stored? then 1 else 0
    ensures MapSum(Tally(ops, keys)) == CountOf(ops, IsStored)
  {
    TallyCounts(ops, keys, "");
    StoredKeysCount(ops, keys);
  }

  // ----- the sources -----------------------------------------------------------------

  predicate StoredFrom(op: StatOp, k: string) {
    op.Stored? && SourceKey(op.e) == k
  }

  /** The number of stored events without an address and with this name. */
  function NamelessCount(ops: seq<StatOp>, k: string): nat {
    CountOf(ops, (op: StatOp) => op.Stored? && op.e.assetIp == "" && op.e.assetName == k)
  }

  function From(k: string): StatOp -> bool {
    (op: StatOp) => StoredFrom(op, k)
  }

  /** The latest update of a kind. */
  function LatestOf(ops: seq<StatOp>, p: StatOp -> bool): Option<StatOp> {
    if ops == [] then None
    else if p(ops[|ops| - 1]) then Some(ops[|ops| - 1])
    else LatestOf(ops[..|ops| - 1], p)
  }

  /** A source's count is its count by address plus the stored events that have no address and its name; its
      other fields are those of the latest event stored from it. */
  lemma {:induction false} SourcesAgree(ops: seq<StatOp>, k: string)
    ensures var sources := StatsAfter(ops).others.sources;
            && EventCount(sources, k) == Occurrences(ops, SourceIpKeys, k) + NamelessCount(ops, k)
            && (k in sources <==> LatestOf(ops, From(k)).Some?)
            && (k in sources ==>
                  var latest, source := LatestOf(ops, From(k)).value, sources[k];
                  && latest.Stored?
                  && var e := latest.e;
                  && source.assetName == e.assetName && source.assetIp == e.assetIp
                  && source.sourceType == e.sourceType && source.lastSeen == e.receivedAt)
  {
    if ops != [] {
      SourcesAgree(ops[..|ops| - 1], k);
      assert StatsAfter(ops).others.sources ==
          UpdateSources(StatsAfter(ops[..|ops| - 1]).others.sources, ops[|ops| - 1]);
    }
  }

  lemma SourceCountsAgree(ops: seq<StatOp>, k: string)
    ensures var s := StatsAfter(ops);
            EventCount(s.others.sources, k) == Get(s.maps.bySourceIp, k) + NamelessCount(ops, k)
  {
    SourcesAgree(ops, k);
    MapsTally(ops);
    TallyCounts(ops, SourceIpKeys, k);
  }

  /** The two times shown are those of the latest stored event and the latest good forward. */
  lemma {:induction false} TimesAreLatest(ops: seq<StatOp>)
    ensures var stored := LatestOf(ops, IsStored);
            && (stored.Some? ==> stored.value.Stored?)
            && StatsAfter(ops).others.lastEventAt == if stored.Some? then stored.value.e.receivedAt else ""
    ensures var good := LatestOf(ops, IsForwarded);
            && (good.Some? ==> good.value.Forwarded?)
            && StatsAfter(ops).others.lastForwardOk == if good.Some? then good.value.when else ""
  {
    if ops != [] {
      TimesAreLatest(ops[..|ops| - 1]);
      assert StatsAfter(ops).others == UpdateOthers(StatsAfter(ops[..|ops| - 1]).others, ops[|ops| - 1]);
    }
  }

  // ----- the rate ----------------------------------------------------------------------

  /** The seconds in which events were counted, a store or a drop each. */
  function CountedSeconds(ops: seq<StatOp>): seq<int> {
    if ops == [] then []
    else
      var front, op := ops[..|ops| - 1], ops[|ops| - 1];
      CountedSeconds(front) + if op.Stored? || op.Dropped? then [op.sec] else []
  }

  /** The counter counts the seconds at the end that are its own, and the rate shown is the count of the run of
      equal seconds before them, 0 if there was none. */
  predicate RateHolds(r: Rate, secs: seq<int>) {
    && (if secs == [] then r == Rate(0, 0, 0) else r.second == secs[|secs| - 1])
    && r.count == LastTrail(secs)
    && r.eps == LastTrail(BeforeTrail(secs))
  }

  lemma BumpHolds(r: Rate, secs: seq<int>, sec: int)
    requires RateHolds(r, secs)
    ensures RateHolds(Bumped(r, sec), secs + [sec])
  {
    TrailSnoc(secs, sec, sec);
    BeforeTrailSnoc(secs, sec);
    if secs == [] { assert BeforeTrail(secs + [sec]) == []; }
  }

  /** In every reachable state the rate counter and the rate shown are the counts of the latest second in which
      events were counted and of the one before it. */
  lemma {:induction false} RateFollowsSeconds(ops: seq<StatOp>)
    ensures RateHolds(StatsAfter(ops).others.rate, CountedSeconds(ops))
  {
    if ops != [] {
      var front, op := ops[..|ops| - 1], ops[|ops| - 1];
      RateFollowsSeconds(front);
      assert StatsAfter(ops).others.rate == UpdateRate(StatsAfter(front).others.rate, op);
      if op.Stored? || op.Dropped? {
        BumpHolds(StatsAfter(front).others.rate, CountedSeconds(front), op.sec);
      } else {
        assert CountedSeconds(front) + [] == CountedSeconds(front);
      }
    }
  }

  /** So for any second: the events counted last in it, without a break, are what the counter says. */
  lemma RateCountsTheSecond(ops: seq<StatOp>, sec: int)
    ensures var r := StatsAfter(ops).others.rate;
            Trail(CountedSeconds(ops), sec) == if sec == r.second then r.count else 0
  {
    RateFollowsSeconds(ops);
  }
}
