/** Ingestions that overlap, from the point where each is decided. Appending is one step under the lock of the store;
    publishing begins in another, under the lock of the hub, and walks the clients step by step; clients come, go and
    read in between. Each ingestion has an owner, the goroutine that carries it out, and an owner has one ingestion
    under way at a time: the loop that reads the logs is one, and each request is one. */
module OverlappingIngests {
  import opened Events
  import opened Sums
  import opened Filter
  import opened Jsonl
  import opened Streaming
  import L = StreamLocks
  import opened Processing
  import opened ProcessingRuns

  /** A decided event, how its write will go, and whose it is. */
  datatype Judged = Judged(v: Verdict, io: AppendIo, owner: nat)

  /** An ingestion still has to append, has appended and still has to begin publishing, or has got past that. */
  datatype KeepPc = Ready | Appended | Passed

  /** The file, the hub with ingestion k as its publisher k, and the ingestions; with the history: the events appended,
      and by number, in order, the ingestions whose appended event was to be shown and those that began to publish. */
  datatype Floor = Floor(
    file: Option<Bytes>,
    fan: L.Fan,
    pcs: seq<KeepPc>,
    kept: seq<Event>,
    shown: seq<nat>,
    published: seq<nat>)

  datatype FloorStep = Write(k: nat) | Show(k: nat) | Hub(s: L.FanStep)

  /** What is fixed during a run: the codec and the decided events. */
  datatype Batch = Batch(codec: Codec, events: seq<Judged>)

  function Start(b: Batch, file: Option<Bytes>, watched: nat): Floor {
    Floor(file, L.NewFan(|b.events|, watched), seq(|b.events|, _ => Ready), [], [], [])
  }

  predicate Fits(b: Batch, f: Floor) {
    |f.pcs| == |f.fan.publishers| == |b.events|
  }

  /** The ingestion has appended and is not done publishing. */
  predicate UnderWay(f: Floor, k: nat)
    requires k < |f.pcs| == |f.fan.publishers|
  {
    f.pcs[k].Appended? || f.fan.publishers[k].Publishing?
  }

  predicate Enabled(b: Batch, f: Floor, s: FloorStep) {
    && Fits(b, f)
    && match s
       case Write(k) =>
         && k < |b.events| && f.pcs[k].Ready?
         && forall j | 0 <= j < |b.events| && b.events[j].owner == b.events[k].owner :: !UnderWay(f, j)
       case Show(k) => k < |b.events| && f.pcs[k].Appended? && f.fan.publishers[k].Idle?
       case Hub(t) => !t.Begin? && L.Enabled(f.fan, t)
  }

  function Tried(b: Batch, file: Option<Bytes>, k: nat): (Option<Bytes>, bool)
    requires k < |b.events|
  {
    var d := b.events[k];
    if d.v.decision.store then AfterAppend(b.codec, file, d.v.evt, d.io) else (file, false)
  }

  /** The event gets appended and is to be shown, whatever the file holds by then. */
  predicate ToShow(b: Batch, k: nat)
    requires k < |b.events|
  {
    var d := b.events[k];
    && d.v.decision.store && d.v.decision.show
    && d.io.Wrote? && NUL !in b.codec.encode(d.v.evt) && d.io.n >= |b.codec.Record(d.v.evt)|
  }

  /** The two steps do what an ingestion on its own does: the first appends as it does, and the second is due exactly
      when it publishes. */
  lemma StepsAreTheEffect(b: Batch, k: nat, fx: Fixed, s: State)
    requires k < |b.events| && fx.codec == b.codec
    ensures var eff := EffectOf(fx, b.events[k].v, s, b.events[k].io);
            Tried(b, s.file, k) == (eff.file, eff.appended) && (ToShow(b, k) <==> eff.published)
  {
  }

  function Apply(b: Batch, f: Floor, s: FloorStep): Floor
    requires Enabled(b, f, s)
  {
    match s
    case Write(k) =>
      var (file, ok) := Tried(b, f.file, k);
      f.(file := file,
         kept := if ok then f.kept + [b.events[k].v.evt] else f.kept,
         pcs := f.pcs[k := if ToShow(b, k) then Appended else Passed],
         shown := if ToShow(b, k) then f.shown + [k] else f.shown)
    case Show(k) =>
      f.(fan := L.Apply(f.fan, L.Begin(k, b.events[k].v.evt)),
         pcs := f.pcs[k := Passed],
         published := f.published + [k])
    case Hub(t) => f.(fan := L.Apply(f.fan, t))
  }

  predicate Runs(b: Batch, f: Floor, steps: seq<FloorStep>)
    decreases |steps|, 0
  {
    steps == [] ||
    (Runs(b, f, steps[..|steps| - 1]) && Enabled(b, After(b, f, steps[..|steps| - 1]), steps[|steps| - 1]))
  }

  function After(b: Batch, f: Floor, steps: seq<FloorStep>): Floor
    requires Runs(b, f, steps)
    decreases |steps|, 1
  {
    if steps == [] then f else Apply(b, After(b, f, steps[..|steps| - 1]), steps[|steps| - 1])
  }

  // ----- what every interleaving keeps ------------------------------------------------

  /** Every event whose publishing began was appended before. */
  ghost predicate HubHolds(f: Floor) {
    L.Inv(f.fan) && forall e | e in f.fan.begun :: e in f.kept
  }

  /** The ingestions that appended an event to show are those that have begun to publish and those that are about to,
      each once; and their events were appended. */
  predicate ShownOnce(b: Batch, f: Floor) {
    && Fits(b, f)
    && (forall k | k in f.published :: k in f.shown)
    && (forall k | k in f.shown :: k < |f.pcs| && !f.pcs[k].Ready? && b.events[k].v.evt in f.kept)
    && (forall k | 0 <= k < |f.pcs| :: f.pcs[k].Appended? <==> k in f.shown && k !in f.published)
    && (forall i, j | 0 <= i < j < |f.shown| :: f.shown[i] != f.shown[j])
    && (forall i, j | 0 <= i < j < |f.published| :: f.published[i] != f.published[j])
  }

  function Waiting(pc: KeepPc): int { if pc.Appended? then 1 else 0 }

  predicate Counted(f: Floor) {
    |f.shown| == |f.published| + Sum(f.pcs, Waiting)
  }

  lemma HubStep(b: Batch, f: Floor, s: FloorStep)
    requires Enabled(b, f, s) && HubHolds(f) && ShownOnce(b, f)
    ensures HubHolds(Apply(b, f, s))
  {
    match s
    case Write(_) =>
    case Show(k) =>
      L.StepKeepsInv(f.fan, L.Begin(k, b.events[k].v.evt));
      assert b.events[k].v.evt in f.kept;
    case Hub(t) => L.StepKeepsInv(f.fan, t);
  }

  lemma ShownOnceStep(b: Batch, f: Floor, s: FloorStep)
    requires Enabled(b, f, s) && ShownOnce(b, f)
    ensures ShownOnce(b, Apply(b, f, s))
  {
  }

  lemma CountedStep(b: Batch, f: Floor, s: FloorStep)
    requires Enabled(b, f, s) && Counted(f)
    ensures Counted(Apply(b, f, s))
  {
    if !s.Hub? { SumUpdate(f.pcs, s.k, Apply(b, f, s).pcs[s.k], Waiting); }
  }

  lemma {:induction false} EveryRunKeeps(b: Batch, file: Option<Bytes>, watched: nat, steps: seq<FloorStep>)
    requires Runs(b, Start(b, file, watched), steps)
    ensures var f := After(b, Start(b, file, watched), steps);
            HubHolds(f) && ShownOnce(b, f) && Counted(f)
  {
    if steps == [] {
      SumZero(Start(b, file, watched).pcs, Waiting);
      L.NewFanHolds(|b.events|, watched);
    } else {
      var front, last := steps[..|steps| - 1], steps[|steps| - 1];
      EveryRunKeeps(b, file, watched, front);
      var f := After(b, Start(b, file, watched), front);
      HubStep(b, f, last);
      ShownOnceStep(b, f, last);
      CountedStep(b, f, last);
    }
  }

  /** Under every interleaving: whatever is published was appended by the same ingestion before, and only once. */
  lemma PublishFollowsOwnAppend(b: Batch, file: Option<Bytes>, watched: nat, steps: seq<FloorStep>, k: nat)
    requires Runs(b, Start(b, file, watched), steps) && Enabled(b, After(b, Start(b, file, watched), steps), Show(k))
    ensures var f := After(b, Start(b, file, watched), steps);
            k in f.shown && b.events[k].v.evt in f.kept && k !in f.published
  {
    EveryRunKeeps(b, file, watched, steps);
  }

  /** Under every interleaving, with publishes overlapping client by client: what a client has received or has waiting
      for it was appended first. */
  lemma ClientsGetOnlyAppended(b: Batch, file: Option<Bytes>, client: nat, steps: seq<FloorStep>, e: Event)
    requires Runs(b, Start(b, file, client), steps)
    requires var fan := After(b, Start(b, file, client), steps).fan;
             e in fan.received + BufferOf(fan.hub, fan.watched)
    ensures e in After(b, Start(b, file, client), steps).kept
  {
    EveryRunKeeps(b, file, client, steps);
    L.ReceivedWereBegun(After(b, Start(b, file, client), steps).fan, e);
  }

  /** No write stops half-way. */
  predicate WritesWhole(b: Batch) {
    forall k | 0 <= k < |b.events| :: Whole(b.codec, b.events[k].v.evt, b.events[k].io)
  }

  /** Then the file reads back as what it held and every event appended, in the order of the appends; so whatever a
      client receives can be read back from the file. */
  lemma {:induction false} FileHoldsKept(b: Batch, file: Option<Bytes>, watched: nat, steps: seq<FloorStep>)
    requires b.codec.Lawful() && Terminated(Contents(file)) && WritesWhole(b)
    requires Runs(b, Start(b, file, watched), steps)
    ensures var f := After(b, Start(b, file, watched), steps);
            && Terminated(Contents(f.file))
            && Decoded(b.codec, Contents(f.file)) == Decoded(b.codec, Contents(file)) + ReadBack(b.codec, f.kept)
  {
    var c, was := b.codec, Decoded(b.codec, Contents(file));
    if steps == [] {
      assert was + ReadBack(c, []) == was;
    } else {
      var front, last := steps[..|steps| - 1], steps[|steps| - 1];
      FileHoldsKept(b, file, watched, front);
      var f := After(b, Start(b, file, watched), front);
      if last.Write? {
        var e := b.events[last.k].v.evt;
        TriedHolds(b, f.file, last.k);
        ReadBackSnoc(c, f.kept, e);
        Regroup(was, ReadBack(c, f.kept), [c.Canonical(e)]);
      }
    }
  }

  lemma TriedHolds(b: Batch, file: Option<Bytes>, k: nat)
    requires b.codec.Lawful() && Terminated(Contents(file)) && WritesWhole(b) && k < |b.events|
    ensures var (after, ok) := Tried(b, file, k);
            if ok then
              && Terminated(Contents(after))
              && Decoded(b.codec, Contents(after)) ==
                 Decoded(b.codec, Contents(file)) + [b.codec.Canonical(b.events[k].v.evt)]
            else Contents(after) == Contents(file)
  {
    var d, c := b.events[k], b.codec;
    assert c.Framed(c.encode(d.v.evt));
    AppendReadsBack(c, Contents(file), d.v.evt);
    assert Whole(c, d.v.evt, d.io);
    assert Contents(file) + c.Record(d.v.evt)[..0] == Contents(file);
  }

  // ----- the order of one owner ---------------------------------------------------------

  function OwnedBy(b: Batch, owner: nat): nat -> bool {
    (k: nat) => k < |b.events| && b.events[k].owner == owner
  }

  /** Of the events to show that count as one's own, all have been published, or all but the one about to be. */
  predicate InStep(pcs: seq<KeepPc>, own: nat -> bool, shown: seq<nat>, published: seq<nat>) {
    && (forall k: nat | k < |pcs| && own(k) && pcs[k].Appended? ::
          Filtered(shown, own) == Filtered(published, own) + [k])
    && ((forall k: nat | k < |pcs| && own(k) :: !pcs[k].Appended?) ==> Filtered(shown, own) == Filtered(published, own))
  }

  predicate OwnerInStep(b: Batch, f: Floor, owner: nat) {
    Fits(b, f) && InStep(f.pcs, OwnedBy(b, owner), f.shown, f.published)
  }

  lemma LastsDiffer(s: seq<nat>, j: nat, k: nat)
    ensures s + [j] == s + [k] <==> j == k
  {
    assert (s + [j])[|s|] == j && (s + [k])[|s|] == k;
  }

  lemma WriteInStep(pcs: seq<KeepPc>, own: nat -> bool, shown: seq<nat>, published: seq<nat>, k: nat, toShow: bool)
    requires k < |pcs| && pcs[k].Ready? && InStep(pcs, own, shown, published)
    requires own(k) ==> forall j: nat | j < |pcs| && own(j) :: !pcs[j].Appended?
    ensures InStep(pcs[k := if toShow then Appended else Passed], own, if toShow then shown + [k] else shown, published)
  {
    FilteredSnoc(shown, k, own);
    var after := pcs[k := if toShow then Appended else Passed];
    assert forall j: nat | j < |pcs| && j != k :: after[j] == pcs[j];
    if own(k) {
      assert Filtered(shown, own) == Filtered(published, own);
    } else {
      assert (forall j: nat | j < |after| && own(j) :: !after[j].Appended?) ==>
             forall j: nat | j < |pcs| && own(j) :: !pcs[j].Appended?;
    }
  }

  lemma ShowInStep(pcs: seq<KeepPc>, own: nat -> bool, shown: seq<nat>, published: seq<nat>, k: nat)
    requires k < |pcs| && pcs[k].Appended? && InStep(pcs, own, shown, published)
    ensures InStep(pcs[k := Passed], own, shown, published + [k])
  {
    FilteredSnoc(published, k, own);
    var after := pcs[k := Passed];
    if own(k) {
      forall j: nat | j < |after| && own(j)
        ensures !after[j].Appended?
      {
        LastsDiffer(Filtered(published, own), j, k);
      }
    } else if j: nat :| j < |pcs| && own(j) && pcs[j].Appended? {
      assert after[j].Appended?;
    }
  }

  lemma OwnerStep(b: Batch, f: Floor, s: FloorStep, owner: nat)
    requires Enabled(b, f, s) && OwnerInStep(b, f, owner)
    ensures OwnerInStep(b, Apply(b, f, s), owner)
  {
    var own := OwnedBy(b, owner);
    match s
    case Write(k) =>
      assert own(k) ==> forall j: nat | j < |f.pcs| && own(j) :: !UnderWay(f, j);
      WriteInStep(f.pcs, own, f.shown, f.published, k, ToShow(b, k));
    case Show(k) =>
      ShowInStep(f.pcs, own, f.shown, f.published, k);
    case Hub(_) =>
  }

  /** Under every interleaving, and for every goroutine: its events are published in the order in which it appended
      them. */
  lemma {:induction false} OwnersKeepOrder(b: Batch, file: Option<Bytes>, watched: nat, steps: seq<FloorStep>,
                                           owner: nat)
    requires Runs(b, Start(b, file, watched), steps)
    ensures var f, own := After(b, Start(b, file, watched), steps), OwnedBy(b, owner);
            OwnerInStep(b, f, owner) && Filtered(f.published, own) <= Filtered(f.shown, own)
  {
    if steps != [] {
      var front := steps[..|steps| - 1];
      OwnersKeepOrder(b, file, watched, front, owner);
      OwnerStep(b, After(b, Start(b, file, watched), front), steps[|steps| - 1], owner);
    }
    var f, own := After(b, Start(b, file, watched), steps), OwnedBy(b, owner);
    if k: nat :| k < |f.pcs| && own(k) && f.pcs[k].Appended? {
      assert Filtered(f.shown, own) == Filtered(f.published, own) + [k];
    }
  }

  // ----- the order across owners ----------------------------------------------------------

  /** Where the schedule first has this step; its length if nowhere. */
  function Pos(steps: seq<FloorStep>, s: FloorStep): (p: nat)
    ensures p <= |steps|
    ensures p < |steps| ==> steps[p] == s
  {
    if steps == [] then 0
    else
      var front := steps[..|steps| - 1];
      if Pos(front, s) < |front| then Pos(front, s)
      else if steps[|steps| - 1] == s then |front|
      else |steps|
  }

  /** If j's event, to be shown, is written before k's and k begins to publish, j has begun before. */
  predicate NotOvertaken(b: Batch, steps: seq<FloorStep>, j: nat, k: nat)
    requires j < |b.events|
  {
    ToShow(b, j) && Pos(steps, Write(j)) < Pos(steps, Write(k)) && Pos(steps, Show(k)) < |steps| ==>
    Pos(steps, Show(j)) < Pos(steps, Show(k))
  }

  /** Told from the positions in the schedule alone: no event to show is overtaken between its write and its show. */
  predicate InOrder(b: Batch, steps: seq<FloorStep>) {
    forall j, k | 0 <= j < |b.events| && 0 <= k < |b.events| :: NotOvertaken(b, steps, j, k)
  }

  /** How the history and the schedule correspond. */
  predicate Marks(b: Batch, f: Floor, steps: seq<FloorStep>) {
    && Fits(b, f)
    && forall k | 0 <= k < |b.events| ::
         && (f.pcs[k].Ready? <==> Pos(steps, Write(k)) == |steps|)
         && (k in f.shown <==> ToShow(b, k) && Pos(steps, Write(k)) < |steps|)
         && (k in f.published <==> Pos(steps, Show(k)) < |steps|)
  }

  predicate Rising(s: seq<nat>, at: nat -> nat) {
    forall i, j | 0 <= i < j < |s| :: at(s[i]) < at(s[j])
  }

  function WriteAt(steps: seq<FloorStep>): nat -> nat {
    (k: nat) => Pos(steps, Write(k))
  }

  function ShowAt(steps: seq<FloorStep>): nat -> nat {
    (k: nat) => Pos(steps, Show(k))
  }

  predicate Tracks(b: Batch, f: Floor, steps: seq<FloorStep>) {
    Marks(b, f, steps) && Rising(f.shown, WriteAt(steps)) && Rising(f.published, ShowAt(steps))
  }

  lemma PosSnoc(steps: seq<FloorStep>, last: FloorStep, s: FloorStep)
    ensures Pos(steps + [last], s) ==
            if Pos(steps, s) < |steps| then Pos(steps, s) else if last == s then |steps| else |steps| + 1
  {
    assert (steps + [last])[..|steps|] == steps;
  }

  lemma MarksStep(b: Batch, f: Floor, steps: seq<FloorStep>, s: FloorStep)
    requires Enabled(b, f, s) && ShownOnce(b, f) && Marks(b, f, steps)
    ensures Marks(b, Apply(b, f, s), steps + [s])
  {
    var g, more := Apply(b, f, s), steps + [s];
    forall k | 0 <= k < |b.events|
      ensures g.pcs[k].Ready? <==> Pos(more, Write(k)) == |more|
      ensures k in g.shown <==> ToShow(b, k) && Pos(more, Write(k)) < |more|
      ensures k in g.published <==> Pos(more, Show(k)) < |more|
    {
      PosSnoc(steps, s, Write(k));
      PosSnoc(steps, s, Show(k));
    }
  }

  /** Numbers already placed keep their places, and a new one comes after them. */
  lemma RisingSnoc(s: seq<nat>, x: nat, at: nat -> nat, later: nat -> nat)
    requires Rising(s, at) && forall k | k in s :: later(k) == at(k) < later(x)
    ensures Rising(s + [x], later)
  {
  }

  lemma RisingStays(s: seq<nat>, at: nat -> nat, later: nat -> nat)
    requires Rising(s, at) && forall k | k in s :: later(k) == at(k)
    ensures Rising(s, later)
  {
  }

  lemma WritesRise(b: Batch, f: Floor, steps: seq<FloorStep>, s: FloorStep)
    requires Enabled(b, f, s) && ShownOnce(b, f) && Marks(b, f, steps) && Rising(f.shown, WriteAt(steps))
    ensures Rising(Apply(b, f, s).shown, WriteAt(steps + [s]))
  {
    var at, later := WriteAt(steps), WriteAt(steps + [s]);
    forall k | k in f.shown
      ensures later(k) == at(k) < |steps|
    {
      PosSnoc(steps, s, Write(k));
    }
    if s.Write? && ToShow(b, s.k) {
      PosSnoc(steps, s, s);
      RisingSnoc(f.shown, s.k, at, later);
    } else {
      RisingStays(f.shown, at, later);
    }
  }

  lemma ShowsRise(b: Batch, f: Floor, steps: seq<FloorStep>, s: FloorStep)
    requires Enabled(b, f, s) && ShownOnce(b, f) && Marks(b, f, steps) && Rising(f.published, ShowAt(steps))
    ensures Rising(Apply(b, f, s).published, ShowAt(steps + [s]))
  {
    var at, later := ShowAt(steps), ShowAt(steps + [s]);
    forall k | k in f.published
      ensures later(k) == at(k) < |steps|
    {
      assert k in f.shown;
      PosSnoc(steps, s, Show(k));
    }
    if s.Show? {
      PosSnoc(steps, s, s);
      RisingSnoc(f.published, s.k, at, later);
    } else {
      RisingStays(f.published, at, later);
    }
  }

  lemma {:induction false} EveryRunTracks(b: Batch, file: Option<Bytes>, watched: nat, steps: seq<FloorStep>)
    requires Runs(b, Start(b, file, watched), steps)
    ensures Tracks(b, After(b, Start(b, file, watched), steps), steps)
  {
    if steps != [] {
      var front, last := steps[..|steps| - 1], steps[|steps| - 1];
      EveryRunTracks(b, file, watched, front);
      EveryRunKeeps(b, file, watched, front);
      var f := After(b, Start(b, file, watched), front);
      FrontLast(steps);
      MarksStep(b, f, front, last);
      WritesRise(b, f, front, last);
      ShowsRise(b, f, front, last);
    }
  }

  /** Of two lists of numbers, the second a part of the first and each in the order of its own positions: the second
      begins the first if and only if no number of the first is overtaken by one of the second. */
  predicate NoneOvertaken(shown: seq<nat>, published: seq<nat>, w: nat -> nat, q: nat -> nat) {
    forall j, k | j in shown && k in published && w(j) < w(k) :: j in published && q(j) < q(k)
  }

  lemma NoneOvertakenIfPrefix(shown: seq<nat>, published: seq<nat>, w: nat -> nat, q: nat -> nat)
    requires Rising(shown, w) && Rising(published, q) && published <= shown
    ensures NoneOvertaken(shown, published, w, q)
  {
    forall j, k | j in shown && k in published && w(j) < w(k)
      ensures j in published && q(j) < q(k)
    {
      var i :| 0 <= i < |published| && published[i] == k;
      assert shown[i] == k;
      BeforeIfLower(shown, w, i, j);
      var m :| 0 <= m < i && shown[..i][m] == j;
      assert published[m] == j;
    }
  }

  lemma BeforeIfLower(s: seq<nat>, at: nat -> nat, n: nat, x: nat)
    requires Rising(s, at) && n < |s|
    ensures x in s && at(x) < at(s[n]) ==> x in s[..n]
    ensures x in s && x !in s[..n] ==> x == s[n] || at(s[n]) < at(x)
    ensures s[n] !in s[..n]
  {
    forall i | 0 <= i < |s|
      ensures i < n ==> at(s[i]) < at(s[n]) && s[i] in s[..n]
      ensures i > n ==> at(s[n]) < at(s[i])
    {
      if i < n { assert s[..n][i] == s[i]; }
    }
  }

  lemma {:induction false} PrefixIfNoneOvertaken(shown: seq<nat>, published: seq<nat>, w: nat -> nat, q: nat -> nat,
                                                 n: nat)
    requires Rising(shown, w) && Rising(published, q)
    requires (forall k | k in published :: k in shown) && NoneOvertaken(shown, published, w, q)
    requires n <= |published| <= |shown|
    ensures published[..n] == shown[..n]
  {
    if n > 0 {
      PrefixIfNoneOvertaken(shown, published, w, q, n - 1);
      var j, k := shown[n - 1], published[n - 1];
      BeforeIfLower(published, q, n - 1, j);
      BeforeIfLower(published, q, n - 1, k);
      BeforeIfLower(shown, w, n - 1, k);
      assert j in shown && k in published;
      assert j == k;
      TakeSnoc(published, n - 1);
      TakeSnoc(shown, n - 1);
    }
  }

  lemma PairIff(b: Batch, f: Floor, steps: seq<FloorStep>, j: nat, k: nat)
    requires ShownOnce(b, f) && Marks(b, f, steps) && j < |b.events| && k < |b.events|
    ensures NotOvertaken(b, steps, j, k) <==>
            (j in f.shown && k in f.published && WriteAt(steps)(j) < WriteAt(steps)(k) ==>
             j in f.published && ShowAt(steps)(j) < ShowAt(steps)(k))
  {
    assert k in f.published ==> k in f.shown;
  }

  lemma InOrderIff(b: Batch, f: Floor, steps: seq<FloorStep>)
    requires ShownOnce(b, f) && Marks(b, f, steps)
    ensures InOrder(b, steps) <==> NoneOvertaken(f.shown, f.published, WriteAt(steps), ShowAt(steps))
  {
    var w, q := WriteAt(steps), ShowAt(steps);
    forall j: nat, k: nat | j < |b.events| && k < |b.events|
      ensures NotOvertaken(b, steps, j, k) <==>
              (j in f.shown && k in f.published && w(j) < w(k) ==> j in f.published && q(j) < q(k))
    {
      PairIff(b, f, steps, j, k);
    }
    assert forall k | k in f.shown || k in f.published :: k < |b.events|;
  }

  /** Under every interleaving: events are published in the order in which they were appended if and only if, by the
      positions in the schedule, no event to show is overtaken between its write and its show. */
  lemma OrderKeptIff(b: Batch, file: Option<Bytes>, watched: nat, steps: seq<FloorStep>)
    requires Runs(b, Start(b, file, watched), steps)
    ensures var f := After(b, Start(b, file, watched), steps);
            f.published <= f.shown <==> InOrder(b, steps)
  {
    var f := After(b, Start(b, file, watched), steps);
    EveryRunKeeps(b, file, watched, steps);
    EveryRunTracks(b, file, watched, steps);
    SumNotNegative(f.pcs, Waiting);
    InOrderIff(b, f, steps);
    if f.published <= f.shown {
      NoneOvertakenIfPrefix(f.shown, f.published, WriteAt(steps), ShowAt(steps));
    }
    if InOrder(b, steps) {
      PrefixIfNoneOvertaken(f.shown, f.published, WriteAt(steps), ShowAt(steps), |f.published|);
      assert f.published[..|f.published|] == f.published;
    }
  }

  /** Once nothing is waiting to be published, that order is the whole order. */
  lemma QuietOrderIsWhole(b: Batch, file: Option<Bytes>, watched: nat, steps: seq<FloorStep>)
    requires Runs(b, Start(b, file, watched), steps)
    requires forall pc | pc in After(b, Start(b, file, watched), steps).pcs :: !pc.Appended?
    ensures var f := After(b, Start(b, file, watched), steps);
            && |f.published| == |f.shown|
            && (f.published == f.shown <==> InOrder(b, steps))
  {
    EveryRunKeeps(b, file, watched, steps);
    SumZero(After(b, Start(b, file, watched), steps).pcs, Waiting);
    OrderKeptIff(b, file, watched, steps);
  }

  lemma RunsSnoc(b: Batch, f: Floor, steps: seq<FloorStep>, s: FloorStep)
    requires Runs(b, f, steps) && Enabled(b, After(b, f, steps), s)
    ensures Runs(b, f, steps + [s]) && After(b, f, steps + [s]) == Apply(b, After(b, f, steps), s)
  {
    assert (steps + [s])[..|steps|] == steps;
  }

  /** A write that goes through and is to be shown. */
  lemma WholeWrite(b: Batch, f: Floor, k: nat)
    requires Enabled(b, f, Write(k)) && ToShow(b, k)
    ensures Apply(b, f, Write(k)) ==
            Floor(Tried(b, f.file, k).0, f.fan, f.pcs[k := Appended], f.kept + [b.events[k].v.evt], f.shown + [k],
                  f.published)
  {
  }

  lemma RunsFour(b: Batch, f: Floor, s0: FloorStep, s1: FloorStep, s2: FloorStep, s3: FloorStep)
    requires Enabled(b, f, s0) && Enabled(b, Apply(b, f, s0), s1) && Enabled(b, Apply(b, Apply(b, f, s0), s1), s2)
    requires Enabled(b, Apply(b, Apply(b, Apply(b, f, s0), s1), s2), s3)
    ensures Runs(b, f, [s0, s1, s2, s3])
    ensures After(b, f, [s0, s1, s2, s3]) == Apply(b, Apply(b, Apply(b, Apply(b, f, s0), s1), s2), s3)
  {
    RunsSnoc(b, f, [], s0);
    assert [] + [s0] == [s0];
    RunsSnoc(b, f, [s0], s1);
    assert [s0] + [s1] == [s0, s1];
    RunsSnoc(b, f, [s0, s1], s2);
    assert [s0, s1] + [s2] == [s0, s1, s2];
    RunsSnoc(b, f, [s0, s1, s2], s3);
    assert [s0, s1, s2] + [s3] == [s0, s1, s2, s3];
  }

  /** And across owners it can be lost: of two goroutines' events to be appended and shown, the one appended second can
      be published first. */
  lemma PublishingOvertakes(b: Batch, file: Option<Bytes>, watched: nat)
    requires |b.events| == 2 && b.events[0].owner != b.events[1].owner && ToShow(b, 0) && ToShow(b, 1)
    ensures var steps := [Write(0), Write(1), Show(1), Show(0)];
            && Runs(b, Start(b, file, watched), steps)
            && var f := After(b, Start(b, file, watched), steps);
               f.kept == [b.events[0].v.evt, b.events[1].v.evt] && f.shown == [0, 1] && f.published == [1, 0]
  {
    var f0 := Start(b, file, watched);
    var d, e := b.events[0], b.events[1];
    var f1 := Apply(b, f0, Write(0));
    WholeWrite(b, f0, 0);
    assert f1.pcs == [Appended, Ready] && f1.kept == [d.v.evt] && f1.shown == [0];
    var f2 := Apply(b, f1, Write(1));
    WholeWrite(b, f1, 1);
    assert f2.pcs == [Appended, Appended] && f2.kept == [d.v.evt, e.v.evt] && f2.shown == [0, 1];
    RunsFour(b, f0, Write(0), Write(1), Show(1), Show(0));
  }
}
