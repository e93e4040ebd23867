/** The forward queue: a bounded channel between enqueuers, drainers and a pool of workers, with two counters
    that are updated apart from the channel. Every channel operation and every counter update is a step of its
    own, so a run is any interleaving of the goroutines. */
module Forwarding {
  import opened Events
  import opened Sums

  datatype ForwardTask = ForwardTask(evt: Event, ingestionPath: string, enqueuedAt: int)

  datatype SendOutcome = Sent(status: int) | SendFailed(status: int, error: string)

  datatype ForwardResult = ForwardResult(
    eventId: string,
    ingestionPath: string,
    skipped: bool,
    skipReason: string,
    outcome: Option<SendOutcome>)

  // ----- the goroutines -------------------------------------------------------

  /** An enqueuer that has sent still has to count its task. */
  datatype EnqueuePc = EnqueueIdle | EnqueueSent

  /** A drainer knows how many it has discarded; one that has just received still has to uncount. */
  datatype DrainPc = DrainIdle | Draining(n: nat) | DrainReceived(n: nat)

  /** A worker with a task: received, uncounted, counted in flight, sending, and done but still in flight. */
  datatype WorkerPc =
    | Waiting
    | Received(task: ForwardTask)
    | Uncounted(task: ForwardTask)
    | Processing(task: ForwardTask)
    | Sending(task: ForwardTask)
    | Finishing
    | Stopped

  /** The shared state, the program counters and, from `accepted` on, the history. */
  datatype Queue = Queue(
    capacity: nat,
    maxAge: int,
    tasks: seq<ForwardTask>,
    queued: int,
    inFlight: int,
    enqueuers: seq<EnqueuePc>,
    drainers: seq<DrainPc>,
    workers: seq<WorkerPc>,
    accepted: seq<ForwardTask>,
    taken: seq<ForwardTask>,
    drained: seq<ForwardTask>,
    sends: seq<(ForwardTask, int)>,
    skips: seq<(ForwardTask, int)>,
    finished: seq<(ForwardTask, ForwardResult)>,
    drainTotal: nat)

  const DEFAULT_WORKERS := 4
  const DEFAULT_BUFFER := 2048

  /** Non-positive sizes mean the defaults. */
  function NewQueue(workers: int, bufSize: int, maxAge: int, enqueuers: nat, drainers: nat): Queue {
    Queue(if bufSize <= 0 then DEFAULT_BUFFER else bufSize, maxAge, [], 0, 0,
          seq(enqueuers, _ => EnqueueIdle), seq(drainers, _ => DrainIdle),
          seq(if workers <= 0 then DEFAULT_WORKERS else workers, _ => Waiting),
          [], [], [], [], [], [], 0)
  }

  // ----- the steps --------------------------------------------------------------

  datatype Step =
    | Send(i: nat, task: ForwardTask)
    | CountSend(i: nat)
    | StartDrain(i: nat)
    | DrainReceive(i: nat)
    | UncountDrained(i: nat)
    | EndDrain(i: nat)
    | Receive(i: nat)
    | UncountReceived(i: nat)
    | EnterFlight(i: nat)
    | CheckAge(i: nat, now: int)
    | FinishSend(i: nat, outcome: SendOutcome)
    | LeaveFlight(i: nat)
    | Stop(i: nat)

  predicate Stale(maxAge: int, task: ForwardTask, now: int) {
    maxAge > 0 && now - task.enqueuedAt > maxAge
  }

  /** A send needs room and gives up at once without it; a drain ends when it finds the channel empty. */
  predicate Enabled(q: Queue, s: Step) {
    match s
    case Send(i, _) => i < |q.enqueuers| && q.enqueuers[i].EnqueueIdle? && |q.tasks| < q.capacity
    case CountSend(i) => i < |q.enqueuers| && q.enqueuers[i].EnqueueSent?
    case StartDrain(i) => i < |q.drainers| && q.drainers[i].DrainIdle?
    case DrainReceive(i) => i < |q.drainers| && q.drainers[i].Draining? && q.tasks != []
    case UncountDrained(i) => i < |q.drainers| && q.drainers[i].DrainReceived?
    case EndDrain(i) => i < |q.drainers| && q.drainers[i].Draining? && q.tasks == []
    case Receive(i) => i < |q.workers| && q.workers[i].Waiting? && q.tasks != []
    case UncountReceived(i) => i < |q.workers| && q.workers[i].Received?
    case EnterFlight(i) => i < |q.workers| && q.workers[i].Uncounted?
    case CheckAge(i, _) => i < |q.workers| && q.workers[i].Processing?
    case FinishSend(i, _) => i < |q.workers| && q.workers[i].Sending?
    case LeaveFlight(i) => i < |q.workers| && q.workers[i].Finishing?
    case Stop(i) => i < |q.workers| && q.workers[i].Waiting?
  }

  function SkippedResult(task: ForwardTask): ForwardResult {
    ForwardResult(task.evt.id, task.ingestionPath, true, "max_age_exceeded", None)
  }

  function SentResult(task: ForwardTask, outcome: SendOutcome): ForwardResult {
    ForwardResult(task.evt.id, task.ingestionPath, false, "", Some(outcome))
  }

  function Worker(q: Queue, i: nat, pc: WorkerPc): Queue
    requires i < |q.workers|
  {
    q.(workers := q.workers[i := pc])
  }

  function Apply(q: Queue, s: Step): Queue
    requires Enabled(q, s)
  {
    match s
    case Send(i, task) =>
      q.(tasks := q.tasks + [task], accepted := q.accepted + [task], enqueuers := q.enqueuers[i := EnqueueSent])
    case CountSend(i) =>
      q.(queued := q.queued + 1, enqueuers := q.enqueuers[i := EnqueueIdle])
    case StartDrain(i) =>
      q.(drainers := q.drainers[i := Draining(0)])
    case DrainReceive(i) =>
      q.(tasks := q.tasks[1..], taken := q.taken + [q.tasks[0]], drained := q.drained + [q.tasks[0]],
         drainers := q.drainers[i := DrainReceived(q.drainers[i].n)])
    case UncountDrained(i) =>
      q.(queued := q.queued - 1, drainers := q.drainers[i := Draining(q.drainers[i].n + 1)])
    case EndDrain(i) =>
      q.(drainTotal := q.drainTotal + q.drainers[i].n, drainers := q.drainers[i := DrainIdle])
    case Receive(i) =>
      Worker(q, i, Received(q.tasks[0])).(tasks := q.tasks[1..], taken := q.taken + [q.tasks[0]])
    case UncountReceived(i) =>
      Worker(q, i, Uncounted(q.workers[i].task)).(queued := q.queued - 1)
    case EnterFlight(i) =>
      Worker(q, i, Processing(q.workers[i].task)).(inFlight := q.inFlight + 1)
    case CheckAge(i, now) =>
      var task := q.workers[i].task;
      if Stale(q.maxAge, task, now)
      then Worker(q, i, Finishing).(skips := q.skips + [(task, now)],
                                    finished := q.finished + [(task, SkippedResult(task))])
      else Worker(q, i, Sending(task)).(sends := q.sends + [(task, now)])
    case FinishSend(i, outcome) =>
      var task := q.workers[i].task;
      Worker(q, i, Finishing).(finished := q.finished + [(task, SentResult(task, outcome))])
    case LeaveFlight(i) =>
      Worker(q, i, Waiting).(inFlight := q.inFlight - 1)
    case Stop(i) =>
      Worker(q, i, Stopped)
  }

  /** The states a run passes through; each step must be enabled where it is taken. */
  predicate Runs(q: Queue, steps: seq<Step>)
    decreases |steps|
  {
    steps == [] || (Enabled(q, steps[0]) && Runs(Apply(q, steps[0]), steps[1..]))
  }

  function After(q: Queue, steps: seq<Step>): Queue
    requires Runs(q, steps)
    decreases |steps|
  {
    if steps == [] then q else After(Apply(q, steps[0]), steps[1..])
  }

  lemma RunsCons(q: Queue, s: Step, rest: seq<Step>)
    requires Enabled(q, s) && Runs(Apply(q, s), rest)
    ensures Runs(q, [s] + rest) && After(q, [s] + rest) == After(Apply(q, s), rest)
  {
    assert ([s] + rest)[1..] == rest;
  }

  // ----- what every reachable state keeps -----------------------------------------

  function SentUncounted(pc: EnqueuePc): int { if pc.EnqueueSent? then 1 else 0 }
  function DrainedUncounted(pc: DrainPc): int { if pc.DrainReceived? then 1 else 0 }
  function DrainCount(pc: DrainPc): int { if pc.DrainIdle? then 0 else pc.n }
  function ReceivedUncounted(pc: WorkerPc): int { if pc.Received? then 1 else 0 }
  function Flying(pc: WorkerPc): int { if pc.Processing? || pc.Sending? || pc.Finishing? then 1 else 0 }

  predicate Holds(pc: WorkerPc) {
    pc.Received? || pc.Uncounted? || pc.Processing? || pc.Sending?
  }

  // How often a given task occurs in each place.

  function Is(t: ForwardTask): ForwardTask -> int {
    (x: ForwardTask) => if x == t then 1 else 0
  }

  function HeldIs(t: ForwardTask): WorkerPc -> int {
    (pc: WorkerPc) => if Holds(pc) && pc.task == t then 1 else 0
  }

  function SendingIs(t: ForwardTask): WorkerPc -> int {
    (pc: WorkerPc) => if pc.Sending? && pc.task == t then 1 else 0
  }

  function FinishedIs(t: ForwardTask): ((ForwardTask, ForwardResult)) -> int {
    (f: (ForwardTask, ForwardResult)) => if f.0 == t then 1 else 0
  }

  function UnskippedIs(t: ForwardTask): ((ForwardTask, ForwardResult)) -> int {
    (f: (ForwardTask, ForwardResult)) => if f.0 == t && !f.1.skipped then 1 else 0
  }

  function SkippedIs(t: ForwardTask): ((ForwardTask, ForwardResult)) -> int {
    (f: (ForwardTask, ForwardResult)) => if f.0 == t && f.1.skipped then 1 else 0
  }

  function SendIs(t: ForwardTask): ((ForwardTask, int)) -> int {
    (s: (ForwardTask, int)) => if s.0 == t then 1 else 0
  }

  /** The channel's length, less the sends not yet counted, plus the receives not yet uncounted. */
  predicate QueuedExact(q: Queue) {
    && |q.tasks| <= q.capacity
    && q.queued == |q.tasks| - Sum(q.enqueuers, SentUncounted)
                   + Sum(q.drainers, DrainedUncounted) + Sum(q.workers, ReceivedUncounted)
  }

  predicate FlightExact(q: Queue) {
    q.inFlight == Sum(q.workers, Flying)
  }

  predicate DrainsExact(q: Queue) {
    |q.drained| == q.drainTotal + Sum(q.drainers, DrainCount) + Sum(q.drainers, DrainedUncounted)
  }

  predicate CountersHold(q: Queue) {
    QueuedExact(q) && FlightExact(q) && DrainsExact(q)
  }

  ghost predicate Conserved(q: Queue, t: ForwardTask) {
    Sum(q.taken, Is(t)) == Sum(q.drained, Is(t)) + Sum(q.workers, HeldIs(t)) + Sum(q.finished, FinishedIs(t))
  }

  /** Nothing is lost, duplicated or reordered: the accepted tasks are those taken, in order, and those still in
      the channel; and each taken task was drained, is held by a worker or has its result. */
  ghost predicate TasksConserved(q: Queue) {
    && q.accepted == q.taken + q.tasks
    && forall t :: Conserved(q, t)
  }

  predicate ResultFits(task: ForwardTask, r: ForwardResult) {
    && r.eventId == task.evt.id && r.ingestionPath == task.ingestionPath
    && (r.skipped <==> r.outcome == None)
    && (r.skipped <==> r.skipReason == "max_age_exceeded")
  }

  ghost predicate SendsAnswered(q: Queue, t: ForwardTask) {
    Sum(q.sends, SendIs(t)) == Sum(q.workers, SendingIs(t)) + Sum(q.finished, UnskippedIs(t))
  }

  function InSend(pc: WorkerPc): int { if pc.Sending? then 1 else 0 }
  function Unskipped(f: (ForwardTask, ForwardResult)): int { if f.1.skipped then 0 else 1 }

  predicate SendsCounted(q: Queue) {
    |q.sends| == Sum(q.workers, InSend) + Sum(q.finished, Unskipped)
  }

  /** Each send was of a task fresh when checked, and is under way or has exactly one result. */
  ghost predicate SendsHold(q: Queue) {
    && (forall s | s in q.sends :: !Stale(q.maxAge, s.0, s.1))
    && (forall f | f in q.finished :: ResultFits(f.0, f.1))
    && SendsCounted(q)
    && forall t :: SendsAnswered(q, t)
  }

  ghost predicate SkipsAnswered(q: Queue, t: ForwardTask) {
    Sum(q.skips, SendIs(t)) == Sum(q.finished, SkippedIs(t))
  }

  /** Each skip was of a task stale when checked, and has exactly one result that says so. */
  ghost predicate SkipsHold(q: Queue) {
    (forall s | s in q.skips :: Stale(q.maxAge, s.0, s.1)) && forall t :: SkipsAnswered(q, t)
  }

  ghost predicate Inv(q: Queue) {
    CountersHold(q) && TasksConserved(q) && SendsHold(q) && SkipsHold(q)
  }

  /** The steps a worker takes. */
  predicate WorkerStep(s: Step) {
    s.Receive? || s.UncountReceived? || s.EnterFlight? || s.CheckAge? || s.FinishSend? || s.LeaveFlight? || s.Stop?
  }

  lemma QueuedStep(q: Queue, s: Step)
    requires Enabled(q, s) && QueuedExact(q)
    ensures QueuedExact(Apply(q, s))
  {
    var r := Apply(q, s);
    if WorkerStep(s) {
      SumUpdate(q.workers, s.i, r.workers[s.i], ReceivedUncounted);
    } else if s.Send? || s.CountSend? {
      SumUpdate(q.enqueuers, s.i, r.enqueuers[s.i], SentUncounted);
    } else {
      SumUpdate(q.drainers, s.i, r.drainers[s.i], DrainedUncounted);
    }
  }

  lemma FlightStep(q: Queue, s: Step)
    requires Enabled(q, s) && FlightExact(q)
    ensures FlightExact(Apply(q, s))
  {
    if WorkerStep(s) { SumUpdate(q.workers, s.i, Apply(q, s).workers[s.i], Flying); }
  }

  lemma DrainsStep(q: Queue, s: Step)
    requires Enabled(q, s) && DrainsExact(q)
    ensures DrainsExact(Apply(q, s))
  {
    if !WorkerStep(s) && !s.Send? && !s.CountSend? {
      var pc := Apply(q, s).drainers[s.i];
      SumUpdate(q.drainers, s.i, pc, DrainedUncounted);
      SumUpdate(q.drainers, s.i, pc, DrainCount);
    }
  }

  lemma CountersStep(q: Queue, s: Step)
    requires Enabled(q, s) && CountersHold(q)
    ensures CountersHold(Apply(q, s))
  {
    QueuedStep(q, s);
    FlightStep(q, s);
    DrainsStep(q, s);
  }

  lemma FinishConserves(q: Queue, i: nat, result: ForwardResult, t: ForwardTask)
    requires i < |q.workers| && (q.workers[i].Processing? || q.workers[i].Sending?) && Conserved(q, t)
    ensures Conserved(Worker(q, i, Finishing).(finished := q.finished + [(q.workers[i].task, result)]), t)
  {
    SumUpdate(q.workers, i, Finishing, HeldIs(t));
    SumAppend(q.finished, (q.workers[i].task, result), FinishedIs(t));
  }

  lemma TakeConserves(q: Queue, s: Step, t: ForwardTask)
    requires (s.DrainReceive? || s.Receive?) && Enabled(q, s) && Conserved(q, t)
    ensures Conserved(Apply(q, s), t)
  {
    SumAppend(q.taken, q.tasks[0], Is(t));
    if s.DrainReceive? {
      SumAppend(q.drained, q.tasks[0], Is(t));
    } else {
      SumUpdate(q.workers, s.i, Received(q.tasks[0]), HeldIs(t));
    }
  }

  lemma TaskConserved(q: Queue, s: Step, t: ForwardTask)
    requires Enabled(q, s) && Conserved(q, t)
    ensures Conserved(Apply(q, s), t)
  {
    if s.DrainReceive? || s.Receive? {
      TakeConserves(q, s, t);
    } else if s.CheckAge? && Stale(q.maxAge, q.workers[s.i].task, s.now) {
      FinishConserves(q, s.i, SkippedResult(q.workers[s.i].task), t);
    } else if s.FinishSend? {
      FinishConserves(q, s.i, SentResult(q.workers[s.i].task, s.outcome), t);
    } else if WorkerStep(s) {
      SumUpdate(q.workers, s.i, Apply(q, s).workers[s.i], HeldIs(t));
    }
  }

  lemma TasksStep(q: Queue, s: Step)
    requires Enabled(q, s) && TasksConserved(q)
    ensures TasksConserved(Apply(q, s))
  {
    var r := Apply(q, s);
    assert r.accepted == r.taken + r.tasks by {
      if s.DrainReceive? || s.Receive? { assert q.tasks == [q.tasks[0]] + q.tasks[1..]; }
    }
    forall t
      ensures Conserved(r, t)
    {
      assert Conserved(q, t);
      TaskConserved(q, s, t);
    }
  }

  lemma SendAnswered(q: Queue, s: Step, t: ForwardTask)
    requires Enabled(q, s) && SendsAnswered(q, t)
    ensures SendsAnswered(Apply(q, s), t)
  {
    var r := Apply(q, s);
    if WorkerStep(s) { SumUpdate(q.workers, s.i, r.workers[s.i], SendingIs(t)); }
    match s
    case CheckAge(i, now) =>
      if Stale(q.maxAge, q.workers[i].task, now) {
        SumAppend(q.finished, (q.workers[i].task, SkippedResult(q.workers[i].task)), UnskippedIs(t));
      } else {
        SumAppend(q.sends, (q.workers[i].task, now), SendIs(t));
      }
    case FinishSend(i, outcome) =>
      SumAppend(q.finished, (q.workers[i].task, SentResult(q.workers[i].task, outcome)), UnskippedIs(t));
    case _ =>
  }

  lemma SendsCountedStep(q: Queue, s: Step)
    requires Enabled(q, s) && SendsCounted(q)
    ensures SendsCounted(Apply(q, s))
  {
    if WorkerStep(s) { SumUpdate(q.workers, s.i, Apply(q, s).workers[s.i], InSend); }
    match s
    case CheckAge(i, _) =>
      SumAppend(q.finished, (q.workers[i].task, SkippedResult(q.workers[i].task)), Unskipped);
    case FinishSend(i, outcome) =>
      SumAppend(q.finished, (q.workers[i].task, SentResult(q.workers[i].task, outcome)), Unskipped);
    case _ =>
  }

  lemma SendsStep(q: Queue, s: Step)
    requires Enabled(q, s) && SendsHold(q)
    ensures SendsHold(Apply(q, s))
  {
    SendsCountedStep(q, s);
    forall t
      ensures SendsAnswered(Apply(q, s), t)
    {
      assert SendsAnswered(q, t);
      SendAnswered(q, s, t);
    }
  }

  lemma SkipAnswered(q: Queue, s: Step, t: ForwardTask)
    requires Enabled(q, s) && SkipsAnswered(q, t)
    ensures SkipsAnswered(Apply(q, s), t)
  {
    match s
    case CheckAge(i, now) =>
      SumAppend(q.finished, (q.workers[i].task, SkippedResult(q.workers[i].task)), SkippedIs(t));
      SumAppend(q.skips, (q.workers[i].task, now), SendIs(t));
    case FinishSend(i, outcome) =>
      SumAppend(q.finished, (q.workers[i].task, SentResult(q.workers[i].task, outcome)), SkippedIs(t));
    case _ =>
  }

  lemma SkipsStep(q: Queue, s: Step)
    requires Enabled(q, s) && SkipsHold(q)
    ensures SkipsHold(Apply(q, s))
  {
    forall t
      ensures SkipsAnswered(Apply(q, s), t)
    {
      assert SkipsAnswered(q, t);
      SkipAnswered(q, s, t);
    }
  }

  lemma FreshQueueHolds(workers: int, bufSize: int, maxAge: int, enqueuers: nat, drainers: nat)
    ensures Inv(NewQueue(workers, bufSize, maxAge, enqueuers, drainers))
  {
    var q := NewQueue(workers, bufSize, maxAge, enqueuers, drainers);
    SumZero(q.enqueuers, SentUncounted);
    SumZero(q.drainers, DrainedUncounted);
    SumZero(q.drainers, DrainCount);
    SumZero(q.workers, ReceivedUncounted);
    SumZero(q.workers, Flying);
    SumZero(q.workers, InSend);
    forall t: ForwardTask
      ensures Conserved(q, t) && SendsAnswered(q, t) && SkipsAnswered(q, t)
    {
      SumZero(q.workers, HeldIs(t));
      SumZero(q.workers, SendingIs(t));
    }
  }

  lemma {:induction false} RunKeepsInv(q: Queue, steps: seq<Step>)
    requires Inv(q) && Runs(q, steps)
    ensures Inv(After(q, steps))
    decreases |steps|
  {
    if steps != [] {
      CountersStep(q, steps[0]);
      TasksStep(q, steps[0]);
      SendsStep(q, steps[0]);
      SkipsStep(q, steps[0]);
      RunKeepsInv(Apply(q, steps[0]), steps[1..]);
    }
  }

  /** Under every interleaving of every number of enqueuers, drainers and workers. */
  lemma EveryRunKeepsInv(workers: int, bufSize: int, maxAge: int, enqueuers: nat, drainers: nat, steps: seq<Step>)
    requires Runs(NewQueue(workers, bufSize, maxAge, enqueuers, drainers), steps)
    ensures Inv(After(NewQueue(workers, bufSize, maxAge, enqueuers, drainers), steps))
  {
    FreshQueueHolds(workers, bufSize, maxAge, enqueuers, drainers);
    RunKeepsInv(NewQueue(workers, bufSize, maxAge, enqueuers, drainers), steps);
  }

  lemma {:induction false} MaxAgeStays(q: Queue, steps: seq<Step>)
    requires Runs(q, steps)
    ensures After(q, steps).maxAge == q.maxAge
    decreases |steps|
  {
    if steps != [] { MaxAgeStays(Apply(q, steps[0]), steps[1..]); }
  }

  /** A result says that its task was skipped only if a check skipped it. */
  lemma SkippedWasChecked(q: Queue, i: nat)
    requires SkipsHold(q) && i < |q.finished| && q.finished[i].1.skipped
    ensures q.skips != []
  {
    var t := q.finished[i].0;
    assert SkipsAnswered(q, t);
    SumAtLeast(q.finished, i, SkippedIs(t));
  }

  lemma SkipsNeedAge(q: Queue)
    requires SkipsHold(q)
    ensures q.skips == [] || q.maxAge > 0
  {
    if q.skips != [] { assert q.skips[0] in q.skips; }
  }

  /** In every reachable state, by the clock readings of the checks: what is sent was at most the maximal age old, what
      is skipped was older, and without a maximal age nothing is ever skipped. */
  lemma AgesDecide(workers: int, bufSize: int, maxAge: int, enqueuers: nat, drainers: nat, steps: seq<Step>)
    requires Runs(NewQueue(workers, bufSize, maxAge, enqueuers, drainers), steps)
    ensures var q := After(NewQueue(workers, bufSize, maxAge, enqueuers, drainers), steps);
            && (forall s | s in q.sends :: maxAge <= 0 || s.1 - s.0.enqueuedAt <= maxAge)
            && (forall s | s in q.skips :: maxAge > 0 && s.1 - s.0.enqueuedAt > maxAge)
            && (maxAge <= 0 ==> q.skips == [] && forall f | f in q.finished :: !f.1.skipped)
  {
    var first := NewQueue(workers, bufSize, maxAge, enqueuers, drainers);
    var q := After(first, steps);
    EveryRunKeepsInv(workers, bufSize, maxAge, enqueuers, drainers, steps);
    MaxAgeStays(first, steps);
    if maxAge <= 0 {
      SkipsNeedAge(q);
      forall i: nat | i < |q.finished|
        ensures !q.finished[i].1.skipped
      {
        if q.finished[i].1.skipped { SkippedWasChecked(q, i); }
      }
    }
  }

  // ----- what follows ---------------------------------------------------------------

  /** No goroutine is between a channel operation and the counter update that belongs to it. */
  predicate Quiescent(q: Queue) {
    && (forall i | 0 <= i < |q.enqueuers| :: !q.enqueuers[i].EnqueueSent?)
    && (forall i | 0 <= i < |q.drainers| :: !q.drainers[i].DrainReceived?)
    && (forall i | 0 <= i < |q.workers| :: !q.workers[i].Received?)
  }

  lemma QuiescentCountIsExact(q: Queue)
    requires CountersHold(q) && Quiescent(q)
    ensures q.queued == |q.tasks|
  {
    SumZero(q.enqueuers, SentUncounted);
    SumZero(q.drainers, DrainedUncounted);
    SumZero(q.workers, ReceivedUncounted);
  }

  /** How far the counters can stray. */
  lemma CountersStayNear(q: Queue)
    requires CountersHold(q)
    ensures 0 <= q.inFlight <= |q.workers|
    ensures -|q.enqueuers| <= q.queued - |q.tasks| <= |q.drainers| + |q.workers|
  {
    SumBounds(q.workers, Flying);
    SumBounds(q.workers, ReceivedUncounted);
    SumBounds(q.enqueuers, SentUncounted);
    SumBounds(q.drainers, DrainedUncounted);
  }

  /** The count can be negative for a moment: a worker takes and uncounts a task before its enqueuer counts it. */
  lemma QueuedCanBeNegative(task: ForwardTask)
    ensures var q := NewQueue(1, 1, 0, 1, 0);
            var steps := [Send(0, task), Receive(0), UncountReceived(0)];
            Runs(q, steps) && After(q, steps).queued == -1
  {
    var q := NewQueue(1, 1, 0, 1, 0);
    var steps := [Send(0, task), Receive(0), UncountReceived(0)];
    var q1 := Apply(q, Send(0, task));
    var q2 := Apply(q1, Receive(0));
    RunsCons(q2, UncountReceived(0), []);
    RunsCons(q1, Receive(0), [UncountReceived(0)]);
    RunsCons(q, Send(0, task), [Receive(0), UncountReceived(0)]);
    assert [Send(0, task)] + [Receive(0), UncountReceived(0)] == steps;
    assert [Receive(0)] + [UncountReceived(0)] == [Receive(0), UncountReceived(0)];
    assert [UncountReceived(0)] + [] == [UncountReceived(0)];
  }

  /** Once all is quiet and nothing is queued or held, every accepted task was drained or has its result, and
      the drains returned exactly the number discarded. */
  lemma SettledQueueAccountsForAll(q: Queue)
    requires Inv(q) && q.tasks == []
    requires forall i | 0 <= i < |q.workers| :: q.workers[i].Waiting? || q.workers[i].Stopped?
    requires forall i | 0 <= i < |q.drainers| :: q.drainers[i].DrainIdle?
    ensures forall t :: Sum(q.accepted, Is(t)) == Sum(q.drained, Is(t)) + Sum(q.finished, FinishedIs(t))
    ensures forall t :: Sum(q.sends, SendIs(t)) == Sum(q.finished, UnskippedIs(t))
    ensures q.drainTotal == |q.drained|
    ensures q.inFlight == 0
  {
    forall t
      ensures Sum(q.accepted, Is(t)) == Sum(q.drained, Is(t)) + Sum(q.finished, FinishedIs(t))
      ensures Sum(q.sends, SendIs(t)) == Sum(q.finished, UnskippedIs(t))
    {
      assert Conserved(q, t) && SendsAnswered(q, t) && q.accepted == q.taken;
      SumZero(q.workers, HeldIs(t));
      SumZero(q.workers, SendingIs(t));
    }
    SumZero(q.drainers, DrainCount);
    SumZero(q.drainers, DrainedUncounted);
    SumZero(q.workers, Flying);
  }

  // ----- the queue as its callers see it ------------------------------------------------

  class ForwardQueue {
    const capacity: nat
    const workers: nat
    var tasks: seq<ForwardTask>
    var queued: int

    /** As many workers and as much room as a new queue of the machine has. */
    constructor (workers: int, bufSize: int)
      ensures var q := NewQueue(workers, bufSize, 0, 0, 0);
              capacity == q.capacity && this.workers == |q.workers| && tasks == q.tasks && queued == q.queued
      ensures workers <= 0 ==> this.workers == 4
      ensures bufSize <= 0 ==> capacity == 2048
    {
      this.workers := if workers <= 0 then DEFAULT_WORKERS else workers;
      capacity := if bufSize <= 0 then DEFAULT_BUFFER else bufSize;
      tasks, queued := [], 0;
    }

    /** Never blocks: without room the task is refused. */
    method Enqueue(task: ForwardTask) returns (accepted: bool)
      modifies this
      ensures accepted == (|old(tasks)| < capacity)
      ensures tasks == (if accepted then old(tasks) + [task] else old(tasks))
      ensures queued == old(queued) + if accepted then 1 else 0
    {
      if |tasks| >= capacity {
        return false;
      }
      tasks := tasks + [task];
      queued := queued + 1;
      return true;
    }

    method Drain() returns (n: nat)
      modifies this
      ensures n == |old(tasks)| && tasks == [] && queued == old(queued) - n
    {
      n := 0;
      while tasks != []
        invariant n + |tasks| == |old(tasks)|
        invariant queued == old(queued) - n
        decreases |tasks|
      {
        tasks := tasks[1..];
        n := n + 1;
        queued := queued - 1;
      }
    }
  }

  /** An enqueue that nobody interrupts is the two steps of one enqueuer, with the effect of the call. */
  lemma EnqueueIsTwoSteps(q: Queue, i: nat, task: ForwardTask)
    requires i < |q.enqueuers| && q.enqueuers[i].EnqueueIdle? && |q.tasks| < q.capacity
    ensures Runs(q, [Send(i, task), CountSend(i)])
    ensures var r := After(q, [Send(i, task), CountSend(i)]);
            && r.tasks == q.tasks + [task] && r.queued == q.queued + 1
            && r.enqueuers == q.enqueuers
  {
    var q1 := Apply(q, Send(i, task));
    RunsCons(q1, CountSend(i), []);
    RunsCons(q, Send(i, task), [CountSend(i)]);
    assert [Send(i, task)] + [CountSend(i)] == [Send(i, task), CountSend(i)];
    assert [CountSend(i)] + [] == [CountSend(i)];
  }

  function DrainSteps(i: nat, n: nat): seq<Step> {
    if n == 0 then [EndDrain(i)] else [DrainReceive(i)] + ([UncountDrained(i)] + DrainSteps(i, n - 1))
  }

  /** And so is a drain: it empties the channel, uncounts as many and reports that number. */
  lemma {:induction false} DrainIsItsSteps(q: Queue, i: nat)
    requires i < |q.drainers| && q.drainers[i].Draining?
    ensures Runs(q, DrainSteps(i, |q.tasks|))
    ensures var r := After(q, DrainSteps(i, |q.tasks|));
            && r.tasks == [] && r.queued == q.queued - |q.tasks|
            && r.drainTotal == q.drainTotal + q.drainers[i].n + |q.tasks|
            && r.drained == q.drained + q.tasks
    decreases |q.tasks|
  {
    if q.tasks == [] {
      RunsCons(q, EndDrain(i), []);
      assert [EndDrain(i)] + [] == [EndDrain(i)];
    } else {
      var q1 := Apply(q, DrainReceive(i));
      var q2 := Apply(q1, UncountDrained(i));
      DrainIsItsSteps(q2, i);
      RunsCons(q1, UncountDrained(i), DrainSteps(i, |q2.tasks|));
      RunsCons(q, DrainReceive(i), [UncountDrained(i)] + DrainSteps(i, |q2.tasks|));
      assert q.tasks == [q.tasks[0]] + q.tasks[1..];
      Regroup(q.drained, [q.tasks[0]], q.tasks[1..]);
    }
  }
}
