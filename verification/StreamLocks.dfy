/** Publishers that overlap. Publishing holds the hub's lock for reading, so several may be walking the clients at
    once; subscribing and unsubscribing hold it for writing, so they wait until none is. */
module StreamLocks {
  import opened Events
  import opened Sums
  import opened Streaming

  /** A publisher under the lock still has these clients to visit. */
  datatype PublishPc = Idle | Publishing(e: Event, left: set<nat>)

  /** The hub and its publishers, and the history of one client that is watched: the events whose publishing began
      while it was registered, those offered to it, those it took, and how many of the offers found it full. */
  datatype Fan = Fan(
    hub: Hub,
    publishers: seq<PublishPc>,
    watched: nat,
    begun: seq<Event>,
    offered: seq<Event>,
    received: seq<Event>,
    missed: nat)

  datatype FanStep =
    | Begin(i: nat, e: Event)
    | Deliver(i: nat, id: nat)
    | End(i: nat)
    | Join
    | Leave(id: nat)
    | Take(id: nat)

  predicate Unlocked(f: Fan) {
    forall i | 0 <= i < |f.publishers| :: f.publishers[i].Idle?
  }

  predicate Enabled(f: Fan, s: FanStep) {
    match s
    case Begin(i, _) => i < |f.publishers| && f.publishers[i].Idle?
    case Deliver(i, id) => i < |f.publishers| && f.publishers[i].Publishing? && id in f.publishers[i].left
    case End(i) => i < |f.publishers| && f.publishers[i].Publishing? && f.publishers[i].left == {}
    case Join => Unlocked(f)
    case Leave(_) => Unlocked(f)
    case Take(_) => true
  }

  function Offer(h: Hub, id: nat, e: Event): Hub {
    if id in h.channels then h.(channels := h.channels[id := Offered(h.channels[id], e)]) else h
  }

  function Apply(f: Fan, s: FanStep): Fan
    requires Enabled(f, s)
  {
    match s
    case Begin(i, e) =>
      f.(publishers := f.publishers[i := Publishing(e, f.hub.clients)],
         begun := f.begun + if f.watched in f.hub.clients then [e] else [])
    case Deliver(i, id) =>
      var e := f.publishers[i].e;
      var g := f.(hub := Offer(f.hub, id, e),
                  publishers := f.publishers[i := Publishing(e, f.publishers[i].left - {id})]);
      if id != f.watched then g
      else g.(offered := f.offered + [e],
              missed := f.missed + if |BufferOf(f.hub, id)| >= 256 then 1 else 0)
    case End(i) => f.(publishers := f.publishers[i := Idle])
    case Join => f.(hub := Subscribed(f.hub))
    case Leave(id) => f.(hub := Unsubscribed(f.hub, id))
    case Take(id) =>
      f.(hub := Taken(f.hub, id).0,
         received := f.received +
                     if id == f.watched && BufferOf(f.hub, id) != [] then [BufferOf(f.hub, id)[0]] else [])
  }

  predicate Runs(f: Fan, steps: seq<FanStep>)
    decreases |steps|
  {
    steps == [] || (Enabled(f, steps[0]) && Runs(Apply(f, steps[0]), steps[1..]))
  }

  function After(f: Fan, steps: seq<FanStep>): Fan
    requires Runs(f, steps)
    decreases |steps|
  {
    if steps == [] then f else After(Apply(f, steps[0]), steps[1..])
  }

  function NewFan(publishers: nat, watched: nat): Fan {
    Fan(NEW_HUB, seq(publishers, _ => Idle), watched, [], [], [], 0)
  }

  // ----- what every reachable state keeps -------------------------------------------

  /** The clients still to be visited are registered, hence their channels open. */
  predicate LeftAreOpen(f: Fan) {
    && Valid(f.hub)
    && forall i | 0 <= i < |f.publishers| && f.publishers[i].Publishing? :: f.publishers[i].left <= f.hub.clients
  }

  function IsEvent(e: Event): Event -> int {
    (x: Event) => if x == e then 1 else 0
  }

  function Owes(watched: nat, e: Event): PublishPc -> int {
    (pc: PublishPc) => if pc.Publishing? && watched in pc.left && pc.e == e then 1 else 0
  }

  /** Every event begun has been offered to the client once, or some publisher still owes it. */
  predicate OwedOnce(f: Fan, e: Event) {
    Sum(f.begun, IsEvent(e)) == Sum(f.offered, IsEvent(e)) + Sum(f.publishers, Owes(f.watched, e))
  }

  ghost predicate Inv(f: Fan) {
    && LeftAreOpen(f)
    && Accounts(f.received + BufferOf(f.hub, f.watched), f.offered, f.missed)
    && forall e :: OwedOnce(f, e)
  }

  lemma OpenStep(f: Fan, s: FanStep)
    requires Enabled(f, s) && LeftAreOpen(f)
    ensures LeftAreOpen(Apply(f, s))
  {
    match s
    case Join => HubStepValid(f.hub, Subscribe);
    case Leave(id) => HubStepValid(f.hub, Unsubscribe(id));
    case Take(id) => HubStepValid(f.hub, Receive(id));
    case _ =>
  }

  lemma AccountsStep(f: Fan, s: FanStep)
    requires Enabled(f, s) && LeftAreOpen(f)
    requires Accounts(f.received + BufferOf(f.hub, f.watched), f.offered, f.missed)
    ensures var g := Apply(f, s);
            Accounts(g.received + BufferOf(g.hub, g.watched), g.offered, g.missed)
  {
    var buffer := BufferOf(f.hub, f.watched);
    match s
    case Join => BufferStep(f.hub, Subscribe, f.watched);
    case Leave(id) => BufferStep(f.hub, Unsubscribe(id), f.watched);
    case Take(id) =>
      BufferStep(f.hub, Receive(id), f.watched);
      if id == f.watched && buffer != [] {
        assert f.received + [buffer[0]] + buffer[1..] == f.received + buffer;
      } else {
        assert f.received + [] == f.received;
      }
    case Deliver(i, id) =>
      PublishAccounts(f.received, buffer, f.offered, f.missed, f.publishers[i].e);
    case _ =>
  }

  lemma OwedStep(f: Fan, s: FanStep, e: Event)
    requires Enabled(f, s) && OwedOnce(f, e)
    ensures OwedOnce(Apply(f, s), e)
  {
    var g := Apply(f, s);
    match s
    case Begin(i, x) =>
      SumUpdate(f.publishers, i, g.publishers[i], Owes(f.watched, e));
      SumAppend(f.begun, x, IsEvent(e));
      assert f.begun + [] == f.begun;
    case Deliver(i, id) =>
      SumUpdate(f.publishers, i, g.publishers[i], Owes(f.watched, e));
      SumAppend(f.offered, f.publishers[i].e, IsEvent(e));
    case End(i) =>
      SumUpdate(f.publishers, i, Idle, Owes(f.watched, e));
    case _ =>
  }

  lemma StepKeepsInv(f: Fan, s: FanStep)
    requires Inv(f) && Enabled(f, s)
    ensures Inv(Apply(f, s))
  {
    OpenStep(f, s);
    AccountsStep(f, s);
    forall e
      ensures OwedOnce(Apply(f, s), e)
    {
      assert OwedOnce(f, e);
      OwedStep(f, s, e);
    }
  }

  lemma NewFanHolds(publishers: nat, watched: nat)
    ensures Inv(NewFan(publishers, watched))
  {
    var f := NewFan(publishers, watched);
    forall e
      ensures OwedOnce(f, e)
    {
      SumZero(f.publishers, Owes(watched, e));
    }
  }

  lemma {:induction false} RunKeepsInv(f: Fan, steps: seq<FanStep>)
    requires Inv(f) && Runs(f, steps)
    ensures Inv(After(f, steps))
    decreases |steps|
  {
    if steps != [] {
      StepKeepsInv(f, steps[0]);
      RunKeepsInv(Apply(f, steps[0]), steps[1..]);
    }
  }

  /** Under every interleaving of any number of publishers with clients coming, going and reading. */
  lemma EveryRunKeepsInv(publishers: nat, watched: nat, steps: seq<FanStep>)
    requires Runs(NewFan(publishers, watched), steps)
    ensures Inv(After(NewFan(publishers, watched), steps))
  {
    NewFanHolds(publishers, watched);
    RunKeepsInv(NewFan(publishers, watched), steps);
  }

  lemma {:induction false} OccursIff(s: seq<Event>, e: Event)
    ensures Sum(s, IsEvent(e)) >= 0
    ensures Sum(s, IsEvent(e)) > 0 <==> e in s
  {
    if s != [] { OccursIff(s[1..], e); }
  }

  /** What the watched client has received or has waiting, some publisher began to publish. */
  lemma ReceivedWereBegun(f: Fan, e: Event)
    requires Inv(f) && e in f.received + BufferOf(f.hub, f.watched)
    ensures e in f.begun
  {
    SubsequenceHas(f.received + BufferOf(f.hub, f.watched), f.offered, e);
    assert OwedOnce(f, e);
    OccursIff(f.offered, e);
    OccursIff(f.begun, e);
    OwesNonNegative(f.publishers, f.watched, e);
  }

  lemma {:induction false} OwesNonNegative(pcs: seq<PublishPc>, watched: nat, e: Event)
    ensures Sum(pcs, Owes(watched, e)) >= 0
  {
    if pcs != [] { OwesNonNegative(pcs[1..], watched, e); }
  }

  /** No event is ever sent on a closed channel. */
  lemma NothingSentOnClosed(publishers: nat, watched: nat, steps: seq<FanStep>, i: nat, id: nat)
    requires Runs(NewFan(publishers, watched), steps)
    requires Enabled(After(NewFan(publishers, watched), steps), Deliver(i, id))
    ensures var h := After(NewFan(publishers, watched), steps).hub;
            id in h.channels && !h.channels[id].closed
  {
    EveryRunKeepsInv(publishers, watched, steps);
  }

  /** Once no publisher is under way, the client was offered exactly the events whose publishing began while it was
      registered, each as often as it was published, and has or had all of them but those that found it full. */
  lemma QuietFanAccountsForAll(publishers: nat, watched: nat, steps: seq<FanStep>)
    requires Runs(NewFan(publishers, watched), steps) && Unlocked(After(NewFan(publishers, watched), steps))
    ensures var f := After(NewFan(publishers, watched), steps);
            && (forall e :: Sum(f.begun, IsEvent(e)) == Sum(f.offered, IsEvent(e)))
            && Subsequence(f.received + BufferOf(f.hub, watched), f.offered)
            && |f.offered| == |f.received + BufferOf(f.hub, watched)| + f.missed
  {
    EveryRunKeepsInv(publishers, watched, steps);
    WatchedStays(NewFan(publishers, watched), steps);
    var f := After(NewFan(publishers, watched), steps);
    forall e
      ensures Sum(f.begun, IsEvent(e)) == Sum(f.offered, IsEvent(e))
    {
      assert OwedOnce(f, e);
      SumZero(f.publishers, Owes(f.watched, e));
    }
  }

  lemma {:induction false} WatchedStays(f: Fan, steps: seq<FanStep>)
    requires Runs(f, steps)
    ensures After(f, steps).watched == f.watched
    decreases |steps|
  {
    if steps != [] { WatchedStays(Apply(f, steps[0]), steps[1..]); }
  }
}
