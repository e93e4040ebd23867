/** The event file over whole runs of appends and repairs, short writes included. */
module JsonlRuns {
  import opened Events
  import opened Sums
  import opened Jsonl

  datatype StoreOp =
    | DoAppend(e: Event, io: AppendIo)
    | DoRepair(writes: Option<nat>, renamed: bool)

  function StoreStep(c: Codec, file: Bytes, op: StoreOp): Bytes {
    match op
    case DoAppend(e, io) => Contents(AfterAppend(c, Some(file), e, io).0)
    case DoRepair(writes, renamed) =>
      if renamed && Enough(c, Lines(file), writes) then Repaired(c, file) else file
  }

  function StoreRun(c: Codec, file: Bytes, ops: seq<StoreOp>): Bytes {
    if ops == [] then file
    else StoreStep(c, StoreRun(c, file, ops[..|ops| - 1]), ops[|ops| - 1])
  }

  // ----- the file as a log of events and a torn tail --------------------------

  /** The complete lines decoded, and the bytes after the last newline. */
  datatype Log = Log(events: seq<Event>, torn: Bytes)

  ghost predicate Represents(c: Codec, file: Bytes, log: Log) {
    && NEWLINE !in log.torn
    && exists body | body <= file ::
         file == body + log.torn && Terminated(body) && Decoded(c, body) == log.events
  }

  function Parsed(c: Codec, line: Bytes): seq<Event> {
    match ParseLine(c, line) case Some(e) => [e] case None => []
  }

  /** What a reader sees. */
  function Visible(c: Codec, log: Log): seq<Event> {
    log.events + Parsed(c, log.torn)
  }

  lemma ReaderSeesLog(c: Codec, file: Bytes, log: Log)
    requires Represents(c, file, log)
    ensures Decoded(c, file) == Visible(c, log)
  {
    var body :| body <= file && file == body + log.torn && Terminated(body) && Decoded(c, body) == log.events;
    DecodedConcat(c, body, log.torn);
    if log.torn == [] {
      assert Decoded(c, []) == [] == Parsed(c, []);
    } else {
      SingleLine(log.torn);
      ParseAllSingle(c, log.torn);
    }
  }

  /** No write fails, nor anything else in the repair. */
  predicate Succeeds(c: Codec, log: Log, writes: Option<nat>, renamed: bool) {
    renamed && (writes == None || writes.value >= |Visible(c, log)|)
  }

  function LogStep(c: Codec, log: Log, op: StoreOp): Log {
    match op
    case DoAppend(e, io) =>
      if io.CannotOpen? then log
      else if io.n <= |c.encode(e)| then log.(torn := log.torn + c.encode(e)[..io.n])
      else Log(log.events + Parsed(c, log.torn + c.Record(e)), [])
    case DoRepair(writes, renamed) =>
      if Succeeds(c, log, writes, renamed) then Log(Visible(c, log), []) else log
  }

  function LogRun(c: Codec, log: Log, ops: seq<StoreOp>): Log {
    if ops == [] then log else LogStep(c, LogRun(c, log, ops[..|ops| - 1]), ops[|ops| - 1])
  }

  ghost predicate Splits(c: Codec, file: Bytes, body: Bytes, log: Log) {
    file == body + log.torn && Terminated(body) && Decoded(c, body) == log.events && NEWLINE !in log.torn
  }

  lemma SplitRepresents(c: Codec, file: Bytes, body: Bytes, log: Log)
    requires Splits(c, file, body, log)
    ensures Represents(c, file, log)
  {
    assert body <= file;
  }

  lemma ShortAppendRefines(c: Codec, file: Bytes, body: Bytes, log: Log, piece: Bytes)
    requires Splits(c, file, body, log) && NEWLINE !in piece
    ensures Represents(c, file + piece, log.(torn := log.torn + piece))
  {
    assert file + piece == body + (log.torn + piece);
    SplitRepresents(c, file + piece, body, log.(torn := log.torn + piece));
  }

  lemma FullAppendRefines(c: Codec, file: Bytes, body: Bytes, log: Log, rec: Bytes)
    requires Splits(c, file, body, log) && NEWLINE !in rec
    ensures Represents(c, file + (rec + [NEWLINE]), Log(log.events + Parsed(c, log.torn + (rec + [NEWLINE])), []))
  {
    var line, after := log.torn + rec, file + (rec + [NEWLINE]);
    assert log.torn + (rec + [NEWLINE]) == line + [NEWLINE];
    assert after == body + (line + [NEWLINE]);
    DecodedConcat(c, body, line + [NEWLINE]);
    SingleLine(line);
    ParseAllSingle(c, line + [NEWLINE]);
    assert after == after + [];
    SplitRepresents(c, after, after, Log(log.events + Parsed(c, line + [NEWLINE]), []));
  }

  lemma AppendStepRefines(c: Codec, file: Bytes, log: Log, e: Event, io: AppendIo)
    requires c.Lawful() && Represents(c, file, log)
    ensures Represents(c, StoreStep(c, file, DoAppend(e, io)), LogStep(c, log, DoAppend(e, io)))
  {
    if io.Wrote? {
      var body :| body <= file && file == body + log.torn && Terminated(body) && Decoded(c, body) == log.events;
      var rec := c.encode(e);
      assert c.Framed(rec);
      if io.n <= |rec| {
        assert c.Record(e)[..io.n] == rec[..io.n];
        ShortAppendRefines(c, file, body, log, rec[..io.n]);
      } else {
        FullAppendRefines(c, file, body, log, rec);
      }
    }
  }

  /** One step on the bytes is one step on the log. */
  lemma StepRefines(c: Codec, file: Bytes, log: Log, op: StoreOp)
    requires c.Lawful() && Represents(c, file, log)
    ensures Represents(c, StoreStep(c, file, op), LogStep(c, log, op))
  {
    match op
    case DoAppend(e, io) =>
      AppendStepRefines(c, file, log, e, io);
    case DoRepair(writes, renamed) =>
      ReaderSeesLog(c, file, log);
      RepairPreserves(c, file);
      var after := Repaired(c, file);
      assert after == after + [] && after <= after;
  }

  lemma TerminatedIsLog(c: Codec, file: Bytes)
    requires Terminated(file)
    ensures Represents(c, file, Log(Decoded(c, file), []))
  {
    assert file == file + [] && file <= file;
  }

  /** Every run, failures of every kind included: the bytes are what the log says. */
  lemma {:induction false} RunRefines(c: Codec, file: Bytes, ops: seq<StoreOp>)
    requires c.Lawful() && Terminated(file)
    ensures Represents(c, StoreRun(c, file, ops), LogRun(c, Log(Decoded(c, file), []), ops))
    ensures Decoded(c, StoreRun(c, file, ops)) == Visible(c, LogRun(c, Log(Decoded(c, file), []), ops))
  {
    if ops == [] {
      TerminatedIsLog(c, file);
    } else {
      var front := ops[..|ops| - 1];
      RunRefines(c, file, front);
      StepRefines(c, StoreRun(c, file, front), LogRun(c, Log(Decoded(c, file), []), front), ops[|ops| - 1]);
    }
    ReaderSeesLog(c, StoreRun(c, file, ops), LogRun(c, Log(Decoded(c, file), []), ops));
  }

  function WrittenBy(c: Codec, op: StoreOp): seq<Event>
    requires forall e :: c.decode(c.encode(e)).Some?
  {
    match op
    case DoAppend(e, io) => if io.Wrote? && io.n >= |c.encode(e)| then [c.Canonical(e)] else []
    case DoRepair(_, _) => []
  }

  /** The events of which at least the whole object was written, in order, as they read back. */
  function Written(c: Codec, ops: seq<StoreOp>): seq<Event>
    requires forall e :: c.decode(c.encode(e)).Some?
  {
    if ops == [] then [] else Written(c, ops[..|ops| - 1]) + WrittenBy(c, ops[|ops| - 1])
  }

  lemma PieceParses(c: Codec, e: Event, n: nat)
    requires c.Lawful() && n <= |c.encode(e)|
    ensures Parsed(c, c.encode(e)[..n]) == if n == |c.encode(e)| then [c.Canonical(e)] else []
  {
    var rec, piece := c.encode(e), c.encode(e)[..n];
    assert c.Framed(rec);
    if n == |rec| {
      assert piece == rec;
      CleanRecord(rec);
    } else if n > 0 {
      TrimmedPiece(piece);
      var k :| 0 <= k <= n && Clean(piece) == piece[..k];
      assert piece[..k] == rec[..k];
    }
  }

  lemma {:induction false} TrimBackIsPrefix(line: Bytes)
    ensures exists k :: 0 <= k <= |line| && TrimBack(line) == line[..k]
  {
    if line != [] && Padding(line[|line| - 1]) {
      TrimBackIsPrefix(line[..|line| - 1]);
      var k :| 0 <= k <= |line| - 1 && TrimBack(line[..|line| - 1]) == line[..|line| - 1][..k];
      assert line[..|line| - 1][..k] == line[..k];
    } else {
      assert line[..|line|] == line;
    }
  }

  lemma TrimmedPiece(piece: Bytes)
    requires piece != [] && !Padding(piece[0])
    ensures exists k :: 0 <= k <= |piece| && Clean(piece) == piece[..k]
  {
    TrimBackIsPrefix(piece);
  }

  // ----- what runs lose ---------------------------------------------------------

  /** An append that wrote no newline but did write something. */
  datatype Short = Short(e: Event, n: nat)

  /** What one more step makes of the short appends since the last newline. */
  function TailAfter(c: Codec, log: Log, tail: seq<Short>, op: StoreOp): seq<Short> {
    match op
    case DoAppend(e, io) =>
      if io.CannotOpen? || io.n == 0 then tail
      else if io.n <= |c.encode(e)| then tail + [Short(e, io.n)]
      else []
    case DoRepair(writes, renamed) => if Succeeds(c, log, writes, renamed) then [] else tail
  }

  /** The short appends since the last newline. */
  function Tail(c: Codec, log: Log, ops: seq<StoreOp>): seq<Short> {
    if ops == [] then []
    else
      var front := ops[..|ops| - 1];
      TailAfter(c, LogRun(c, log, front), Tail(c, log, front), ops[|ops| - 1])
  }

  /** One append that lacks its newline only. */
  predicate IsWhole(c: Codec, tail: seq<Short>) {
    |tail| == 1 && tail[0].n == |c.encode(tail[0].e)|
  }

  /** How many events one step loses: its own when it completes an object behind a torn tail, and the one that the
      tail is when it writes anything behind that. */
  function Lost(c: Codec, tail: seq<Short>, op: StoreOp): nat {
    match op
    case DoRepair(_, _) => 0
    case DoAppend(e, io) =>
      if io.CannotOpen? || io.n == 0 then 0
      else One(tail != [] && io.n >= |c.encode(e)|) + One(IsWhole(c, tail))
  }

  function Losses(c: Codec, log: Log, ops: seq<StoreOp>): nat {
    if ops == [] then 0
    else
      var front := ops[..|ops| - 1];
      Losses(c, log, front) + Lost(c, Tail(c, log, front), ops[|ops| - 1])
  }

  function BytesOf(c: Codec, tail: seq<Short>): seq<Bytes>
    requires forall s | s in tail :: s.n <= |c.encode(s.e)|
  {
    seq(|tail|, i requires 0 <= i < |tail| => c.encode(tail[i].e)[..tail[i].n])
  }

  /** The torn bytes of the log are what these short appends wrote. */
  ghost predicate TornBy(c: Codec, torn: Bytes, tail: seq<Short>) {
    && (forall s | s in tail :: 0 < s.n <= |c.encode(s.e)|)
    && torn == Joined(BytesOf(c, tail))
  }

  lemma {:induction false} JoinedSnoc(bs: seq<Bytes>, b: Bytes)
    ensures Joined(bs + [b]) == Joined(bs) + b
  {
    if bs == [] {
      assert [] + [b] == [b] && b + [] == b;
    } else {
      JoinedSnoc(bs[1..], b);
      assert (bs + [b])[1..] == bs[1..] + [b];
    }
  }

  lemma TornByMore(c: Codec, torn: Bytes, tail: seq<Short>, s: Short)
    requires TornBy(c, torn, tail) && 0 < s.n <= |c.encode(s.e)|
    ensures TornBy(c, torn + c.encode(s.e)[..s.n], tail + [s])
  {
    JoinedSnoc(BytesOf(c, tail), c.encode(s.e)[..s.n]);
    assert BytesOf(c, tail + [s]) == BytesOf(c, tail) + [c.encode(s.e)[..s.n]];
  }

  /** Trimming stops at what is not padding. */
  lemma {:induction false} TrimBackStops(x: Bytes, y: Bytes) returns (n: nat)
    requires y != [] && !Padding(y[0])
    ensures 0 < n <= |y| && TrimBack(x + y) == x + y[..n]
  {
    n := |y|;
    assert (x + y)[|x + y| - 1] == y[|y| - 1];
    if Padding(y[|y| - 1]) {
      assert (x + y)[..|x + y| - 1] == x + y[..|y| - 1];
      n := TrimBackStops(x, y[..|y| - 1]);
      assert y[..|y| - 1][..n] == y[..n];
    } else {
      assert y[..n] == y;
    }
  }

  lemma PiecesArePieces(c: Codec, tail: seq<Short>)
    requires forall s | s in tail :: 0 < s.n <= |c.encode(s.e)|
    ensures c.ArePieces(BytesOf(c, tail))
  {
    forall i | 0 <= i < |tail|
      ensures c.IsPiece(BytesOf(c, tail)[i])
    {
      assert tail[i] in tail;
    }
  }

  lemma CleanStops(x: Bytes, y: Bytes) returns (n: nat)
    requires x != [] && !Padding(x[0]) && y != [] && !Padding(y[0])
    ensures 0 < n <= |y| && Clean(x + y) == x + y[..n]
  {
    n := TrimBackStops(x, y);
    assert (x + y)[0] == x[0];
  }

  lemma BytesOfMore(c: Codec, front: seq<Short>, e: Event, n: nat)
    requires (forall s | s in front :: 0 < s.n <= |c.encode(s.e)|) && 0 < n <= |c.encode(e)|
    ensures Joined(BytesOf(c, front + [Short(e, n)])) == Joined(BytesOf(c, front)) + c.encode(e)[..n]
    ensures c.ArePieces(BytesOf(c, front + [Short(e, n)]))
  {
    assert BytesOf(c, front + [Short(e, n)]) == BytesOf(c, front) + [c.encode(e)[..n]];
    JoinedSnoc(BytesOf(c, front), c.encode(e)[..n]);
    PiecesArePieces(c, front + [Short(e, n)]);
  }

  /** Bytes of two short appends or more never decode. */
  lemma TornTwiceIsLost(c: Codec, torn: Bytes, tail: seq<Short>)
    requires c.Lawful() && TornBy(c, torn, tail) && |tail| >= 2
    ensures Parsed(c, torn) == []
  {
    var front, last := tail[..|tail| - 1], tail[|tail| - 1];
    FrontLast(tail);
    assert last in tail;
    var x, y := Joined(BytesOf(c, front)), c.encode(last.e)[..last.n];
    BytesOfMore(c, front, last.e, last.n);
    assert c.Framed(c.encode(last.e));
    StartsWithBrace(c, front);
    var n := CleanStops(x, y);
    assert y[..n] == c.encode(last.e)[..n];
    BytesOfMore(c, front, last.e, n);
  }

  lemma StartsWithBrace(c: Codec, tail: seq<Short>)
    requires c.Lawful() && tail != [] && forall s | s in tail :: 0 < s.n <= |c.encode(s.e)|
    ensures var x := Joined(BytesOf(c, tail)); x != [] && x[0] == OPEN_BRACE
  {
    assert tail[0] in tail;
    assert c.Framed(c.encode(tail[0].e));
    assert BytesOf(c, tail)[0] == c.encode(tail[0].e)[..tail[0].n];
  }

  /** What a torn tail reads as. */
  lemma TailReads(c: Codec, torn: Bytes, tail: seq<Short>)
    requires c.Lawful() && TornBy(c, torn, tail)
    ensures Parsed(c, torn) == if IsWhole(c, tail) then [c.Canonical(tail[0].e)] else []
  {
    if tail == [] {
      assert torn == [];
    } else if |tail| == 1 {
      var s := tail[0];
      assert s in tail;
      assert BytesOf(c, tail) == [c.encode(s.e)[..s.n]];
      assert Joined([c.encode(s.e)[..s.n]]) == c.encode(s.e)[..s.n];
      PieceParses(c, s.e, s.n);
    } else {
      TornTwiceIsLost(c, torn, tail);
    }
  }

  /** A full append behind a torn tail reads as nothing. */
  lemma FullReads(c: Codec, torn: Bytes, tail: seq<Short>, e: Event)
    requires c.Lawful() && TornBy(c, torn, tail)
    ensures Parsed(c, torn + c.Record(e)) == if tail == [] then [c.Canonical(e)] else []
  {
    if tail == [] {
      assert torn + c.Record(e) == c.Record(e);
      RecordReadsBack(c, e);
    } else {
      var rec := c.encode(e);
      var line := torn + rec;
      assert c.Framed(rec);
      assert torn + c.Record(e) == line + [NEWLINE];
      assert rec[..|rec|] == rec;
      StartsWithBrace(c, tail);
      CleanRecord(line);
      TornByMore(c, torn, tail, Short(e, |rec|));
      TornTwiceIsLost(c, line, tail + [Short(e, |rec|)]);
    }
  }

  /** One step's part in what is read, written and lost. */
  predicate Counts(c: Codec, log: Log, tail: seq<Short>, op: StoreOp)
    requires forall e :: c.decode(c.encode(e)).Some?
  {
    var after, lost := LogStep(c, log, op), Lost(c, tail, op);
    && |Visible(c, after)| + lost == |Visible(c, log)| + |WrittenBy(c, op)|
    && (lost == 0 ==> Visible(c, after) == Visible(c, log) + WrittenBy(c, op))
  }

  lemma WholeMore(c: Codec, tail: seq<Short>, s: Short)
    ensures IsWhole(c, tail + [s]) <==> tail == [] && s.n == |c.encode(s.e)|
    ensures tail == [] ==> (tail + [s])[0] == s
  {
  }

  /** What a short append does to what is read, whether it is the first behind a newline or not. */
  lemma ShortReads(c: Codec, log: Log, tail: seq<Short>, e: Event, n: nat)
    requires c.Lawful() && TornBy(c, log.torn, tail) && 0 < n <= |c.encode(e)|
    ensures Visible(c, log) == log.events + if IsWhole(c, tail) then [c.Canonical(tail[0].e)] else []
    ensures var torn := log.torn + c.encode(e)[..n];
            && TornBy(c, torn, tail + [Short(e, n)])
            && Parsed(c, torn) == if tail == [] && n == |c.encode(e)| then [c.Canonical(e)] else []
  {
    TailReads(c, log.torn, tail);
    TornByMore(c, log.torn, tail, Short(e, n));
    TailReads(c, log.torn + c.encode(e)[..n], tail + [Short(e, n)]);
    WholeMore(c, tail, Short(e, n));
  }

  lemma ShortStep(c: Codec, log: Log, tail: seq<Short>, e: Event, n: nat)
    requires c.Lawful() && TornBy(c, log.torn, tail) && 0 < n <= |c.encode(e)|
    ensures Visible(c, log) == log.events + if IsWhole(c, tail) then [c.Canonical(tail[0].e)] else []
    ensures var after := LogStep(c, log, DoAppend(e, Wrote(n)));
            && TornBy(c, after.torn, tail + [Short(e, n)])
            && Visible(c, after) == log.events + if tail == [] && n == |c.encode(e)| then [c.Canonical(e)] else []
  {
    ShortReads(c, log, tail, e, n);
  }

  lemma ShortCounts(c: Codec, log: Log, tail: seq<Short>, e: Event, n: nat)
    requires c.Lawful() && TornBy(c, log.torn, tail) && 0 < n <= |c.encode(e)|
    ensures Counts(c, log, tail, DoAppend(e, Wrote(n)))
    ensures TornBy(c, LogStep(c, log, DoAppend(e, Wrote(n))).torn, tail + [Short(e, n)])
  {
    var op := DoAppend(e, Wrote(n));
    ShortStep(c, log, tail, e, n);
    CountsUp(c, log.events, Visible(c, log), Visible(c, LogStep(c, log, op)), tail, WrittenBy(c, op),
             n == |c.encode(e)|, [c.Canonical(e)]);
  }

  /** The sums, whatever the events: an object behind nothing is read, any other is lost, and so is one that was read
      when something comes behind it. */
  lemma CountsUp(c: Codec, events: seq<Event>, before: seq<Event>, after: seq<Event>, tail: seq<Short>,
                 written: seq<Event>, whole: bool, one: seq<Event>)
    requires |one| == 1 && written == if whole then one else []
    requires IsWhole(c, tail) ==> |before| == |events| + 1
    requires !IsWhole(c, tail) ==> before == events
    requires after == events + if tail == [] && whole then one else []
    ensures |after| + One(tail != [] && whole) + One(IsWhole(c, tail)) == |before| + |written|
    ensures One(tail != [] && whole) + One(IsWhole(c, tail)) == 0 ==> after == before + written
  {
  }

  lemma FullStep(c: Codec, log: Log, tail: seq<Short>, e: Event, n: nat)
    requires c.Lawful() && TornBy(c, log.torn, tail) && n > |c.encode(e)|
    ensures Visible(c, log) == log.events + if IsWhole(c, tail) then [c.Canonical(tail[0].e)] else []
    ensures var after := LogStep(c, log, DoAppend(e, Wrote(n)));
            after.torn == [] && Visible(c, after) == log.events + if tail == [] then [c.Canonical(e)] else []
  {
    TailReads(c, log.torn, tail);
    FullReads(c, log.torn, tail, e);
    assert Parsed(c, []) == [];
  }

  lemma FullCounts(c: Codec, log: Log, tail: seq<Short>, e: Event, n: nat)
    requires c.Lawful() && TornBy(c, log.torn, tail) && n > |c.encode(e)|
    ensures Counts(c, log, tail, DoAppend(e, Wrote(n)))
    ensures TornBy(c, LogStep(c, log, DoAppend(e, Wrote(n))).torn, [])
  {
    FullStep(c, log, tail, e, n);
    assert BytesOf(c, []) == [];
  }

  /** An append that writes nothing and a repair, done or failed, change nothing that is read. */
  lemma IdleStep(c: Codec, log: Log, tail: seq<Short>, op: StoreOp)
    requires c.Lawful() && TornBy(c, log.torn, tail)
    requires op.DoAppend? && op.io.Wrote? ==> op.io.n == 0
    ensures Counts(c, log, tail, op) && TornBy(c, LogStep(c, log, op).torn, TailAfter(c, log, tail, op))
  {
    assert Parsed(c, []) == [] && BytesOf(c, []) == [];
    assert Visible(c, log) + [] == Visible(c, log);
    if op.DoAppend? {
      assert c.Framed(c.encode(op.e));
      assert log.torn + c.encode(op.e)[..0] == log.torn;
    }
  }

  lemma StepLoses(c: Codec, log: Log, tail: seq<Short>, op: StoreOp)
    requires c.Lawful() && TornBy(c, log.torn, tail)
    ensures Counts(c, log, tail, op) && TornBy(c, LogStep(c, log, op).torn, TailAfter(c, log, tail, op))
  {
    if op.DoAppend? && op.io.Wrote? && op.io.n > 0 {
      if op.io.n <= |c.encode(op.e)| {
        ShortCounts(c, log, tail, op.e, op.io.n);
      } else {
        FullCounts(c, log, tail, op.e, op.io.n);
      }
    } else {
      IdleStep(c, log, tail, op);
    }
  }

  lemma {:induction false} RunLoses(c: Codec, log: Log, ops: seq<StoreOp>)
    requires c.Lawful() && log.torn == []
    ensures var after := LogRun(c, log, ops);
            && TornBy(c, after.torn, Tail(c, log, ops))
            && |Visible(c, after)| + Losses(c, log, ops) == |log.events| + |Written(c, ops)|
            && (Losses(c, log, ops) == 0 ==> Visible(c, after) == log.events + Written(c, ops))
  {
    if ops == [] {
      assert Parsed(c, []) == [] && BytesOf(c, []) == [];
    } else {
      var front, op := ops[..|ops| - 1], ops[|ops| - 1];
      RunLoses(c, log, front);
      StepLoses(c, LogRun(c, log, front), Tail(c, log, front), op);
      Regroup(log.events, Written(c, front), WrittenBy(c, op));
    }
  }

  /** No step of the run loses anything. */
  predicate NothingLost(c: Codec, log: Log, ops: seq<StoreOp>) {
    forall k | 0 <= k < |ops| :: Lost(c, Tail(c, log, ops[..k]), ops[k]) == 0
  }

  lemma NothingLostMore(c: Codec, log: Log, front: seq<StoreOp>, op: StoreOp)
    ensures NothingLost(c, log, front + [op]) <==> NothingLost(c, log, front) && Lost(c, Tail(c, log, front), op) == 0
  {
    var ops := front + [op];
    assert ops[..|front|] == front && ops[|front|] == op;
    assert forall k | 0 <= k < |front| :: ops[..k] == front[..k] && ops[k] == front[k];
  }

  lemma {:induction false} NothingLostIff(c: Codec, log: Log, ops: seq<StoreOp>)
    ensures Losses(c, log, ops) == 0 <==> NothingLost(c, log, ops)
  {
    if ops != [] {
      NothingLostIff(c, log, ops[..|ops| - 1]);
      NothingLostMore(c, log, ops[..|ops| - 1], ops[|ops| - 1]);
      FrontLast(ops);
    }
  }

  /** From a file ending in a newline, over every run: what reads back is short of what was there and the events whose
      object got written by as many events as the steps lose, and it is exactly those events, in order, if and only if
      no append completes its object behind a torn tail or writes behind a tail that is an object. */
  lemma ReadsBackIff(c: Codec, file: Bytes, ops: seq<StoreOp>)
    requires c.Lawful() && Terminated(file)
    ensures var log, now := Log(Decoded(c, file), []), Decoded(c, StoreRun(c, file, ops));
            && |now| == |Decoded(c, file)| + |Written(c, ops)| - Losses(c, log, ops)
            && (now == Decoded(c, file) + Written(c, ops) <==> NothingLost(c, log, ops))
  {
    var log := Log(Decoded(c, file), []);
    RunRefines(c, file, ops);
    RunLoses(c, log, ops);
    NothingLostIff(c, log, ops);
  }

  // ----- runs that repair after a short write ---------------------------------

  /** A write stopped short and no repair has succeeded since. */
  predicate Pending(c: Codec, log: Log, ops: seq<StoreOp>) {
    if ops == [] then log.torn != []
    else
      var front := ops[..|ops| - 1];
      match ops[|ops| - 1]
      case DoAppend(e, io) => Pending(c, log, front) || (io.Wrote? && 0 < io.n <= |c.encode(e)|)
      case DoRepair(writes, renamed) => Pending(c, log, front) && !Succeeds(c, LogRun(c, log, front), writes, renamed)
  }

  /** No append writes anything while such a repair is due. */
  predicate Disciplined(c: Codec, log: Log, ops: seq<StoreOp>) {
    if ops == [] then true
    else
      var front := ops[..|ops| - 1];
      && Disciplined(c, log, front)
      && match ops[|ops| - 1]
         case DoAppend(e, io) => Pending(c, log, front) ==> io.CannotOpen? || io.n == 0
         case DoRepair(_, _) => true
  }

  lemma {:induction false} DisciplineLosesNothing(c: Codec, log: Log, ops: seq<StoreOp>)
    requires log.torn == [] && Disciplined(c, log, ops)
    ensures Losses(c, log, ops) == 0 && (!Pending(c, log, ops) ==> Tail(c, log, ops) == [])
  {
    if ops != [] { DisciplineLosesNothing(c, log, ops[..|ops| - 1]); }
  }

  /** So it does over every run that repairs after a short write before it appends again. */
  lemma DisciplinedRunsReadBack(c: Codec, file: Bytes, ops: seq<StoreOp>)
    requires c.Lawful() && Terminated(file)
    requires Disciplined(c, Log(Decoded(c, file), []), ops)
    ensures Decoded(c, StoreRun(c, file, ops)) == Decoded(c, file) + Written(c, ops)
  {
    DisciplineLosesNothing(c, Log(Decoded(c, file), []), ops);
    NothingLostIff(c, Log(Decoded(c, file), []), ops);
    ReadsBackIff(c, file, ops);
  }

  /** A torn tail followed by a repair gives the old events, or those and the torn record when only its newline
      was missing. */
  lemma TornThenRepaired(c: Codec, file: Bytes, e: Event, n: nat)
    requires c.Lawful() && Terminated(file) && n <= |c.encode(e)|
    ensures Decoded(c, StoreRun(c, file, [DoAppend(e, Wrote(n)), DoRepair(None, true)])) ==
            Decoded(c, file) + if n == |c.encode(e)| then [c.Canonical(e)] else []
  {
    var ops := [DoAppend(e, Wrote(n)), DoRepair(None, true)];
    assert ops[..1] == [DoAppend(e, Wrote(n))] && ops[..1][..0] == [];
    var log := Log(Decoded(c, file), []);
    assert !Pending(c, log, []);
    assert Disciplined(c, log, ops[..1]);
    DisciplinedRunsReadBack(c, file, ops);
    assert Written(c, ops) == Written(c, ops[..1]) + [];
    assert Written(c, ops[..1]) == [] + if n >= |c.encode(e)| then [c.Canonical(e)] else [];
  }

  lemma TwoSteps(c: Codec, file: Bytes, log: Log, a: StoreOp, b: StoreOp)
    ensures StoreRun(c, file, [a]) == StoreStep(c, file, a)
    ensures StoreRun(c, file, [a, b]) == StoreStep(c, StoreStep(c, file, a), b)
    ensures LogRun(c, log, [a, b]) == LogStep(c, LogStep(c, log, a), b)
  {
    assert [a, b][..1] == [a] && [a][..0] == [];
    assert LogRun(c, log, [a]) == LogStep(c, LogRun(c, log, []), a);
  }

  lemma TornThenFull(c: Codec, log: Log, e: Event, n: nat, f: Event)
    requires c.Lawful() && log.torn == [] && n <= |c.encode(e)|
    ensures var after := LogStep(c, LogStep(c, log, DoAppend(e, Wrote(n))), DoAppend(f, Wrote(|c.Record(f)|)));
            Visible(c, after) == log.events + if n == 0 then [c.Canonical(f)] else []
  {
    var tail := if n == 0 then [] else [Short(e, n)];
    assert [] + c.encode(e)[..n] == c.encode(e)[..n];
    assert BytesOf(c, tail) == if n == 0 then [] else [c.encode(e)[..n]];
    assert Joined([c.encode(e)[..n]]) == c.encode(e)[..n];
    FullReads(c, c.encode(e)[..n], tail, f);
    assert Parsed(c, []) == [];
  }

  /** Appending does not look at the tail: after a short write, a later append that reports success reads back
      if and only if the short write left nothing behind. Otherwise that event is lost, and the torn one too. */
  lemma AppendAfterTornTail(c: Codec, file: Bytes, e: Event, n: nat, f: Event)
    requires c.Lawful() && Terminated(file) && n <= |c.encode(e)|
    ensures var full := Wrote(|c.Record(f)|);
            var after := Decoded(c, StoreRun(c, file, [DoAppend(e, Wrote(n)), DoAppend(f, full)]));
            && AfterAppend(c, Some(StoreRun(c, file, [DoAppend(e, Wrote(n))])), f, full).1
            && (after == Decoded(c, file) + [c.Canonical(f)] <==> n == 0)
            && (n > 0 ==> after == Decoded(c, file))
  {
    var first, second := DoAppend(e, Wrote(n)), DoAppend(f, Wrote(|c.Record(f)|));
    var log := Log(Decoded(c, file), []);
    assert c.Framed(c.encode(f));
    TwoSteps(c, file, log, first, second);
    RunRefines(c, file, [first, second]);
    TornThenFull(c, log, e, n, f);
    assert Decoded(c, file) + [] == Decoded(c, file);
  }
}
