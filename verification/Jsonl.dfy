/** The event file: framing, reading and repair over bytes, with the JSON codec left abstract. */
module Jsonl {
  import opened Events
  import opened Sums
  import opened Text

  type Bytes = seq<int>

  const NUL := 0
  const TAB := 9
  const NEWLINE := 10
  const RETURN := 13
  const SPACE := 32
  const OPEN_BRACE := 123
  const CLOSE_BRACE := 125

  /** Marshalling and unmarshalling of one event. */
  datatype Codec = Codec(encode: Event -> Bytes, decode: Bytes -> Option<Event>) {
    /** An encoding is one object on one line with no NUL in it. */
    predicate Framed(rec: Bytes) {
      && |rec| >= 2 && rec[0] == OPEN_BRACE && rec[|rec| - 1] == CLOSE_BRACE
      && NEWLINE !in rec && NUL !in rec
    }

    /** The start of an encoding. */
    ghost predicate IsPiece(b: Bytes) {
      exists e, n | 0 < n <= |encode(e)| :: b == encode(e)[..n]
    }

    /** What the model asks of the JSON library: every event encodes to a framed object that decodes; what has
        been decoded survives another round trip; no proper prefix of an encoding decodes; and neither do starts of
        encodings stuck one behind the other. */
    ghost predicate Lawful() {
      && (forall e :: Framed(encode(e)))
      && (forall e :: decode(encode(e)).Some?)
      && (forall b :: decode(b).Some? ==> decode(encode(decode(b).value)) == decode(b))
      && (forall e, n | 0 <= n < |encode(e)| :: decode(encode(e)[..n]) == None)
      && (forall bs: seq<Bytes> | |bs| >= 2 && ArePieces(bs) :: decode(Joined(bs)) == None)
    }

    ghost predicate ArePieces(bs: seq<Bytes>) {
      forall i | 0 <= i < |bs| :: IsPiece(bs[i])
    }

    /** The event as it reads back: itself, except that invalid UTF-8 has been replaced. */
    function Canonical(e: Event): Event
      requires decode(encode(e)).Some?
    {
      decode(encode(e)).value
    }

    function Record(e: Event): Bytes {
      encode(e) + [NEWLINE]
    }
  }

  /** The laws can be met: here by a codec that knows a single event. */
  lemma LawfulCodecExists()
    ensures exists c: Codec :: c.Lawful()
  {
    var empty: Bytes := [OPEN_BRACE, CLOSE_BRACE];
    var c := Codec((e: Event) => empty, (b: Bytes) => if b == empty then Some(Event()) else None);
    forall bs: seq<Bytes> | |bs| >= 2 && c.ArePieces(bs)
      ensures c.decode(Joined(bs)) == None
    {
      assert c.IsPiece(bs[0]) && c.IsPiece(bs[1]);
      assert Joined(bs) == bs[0] + (bs[1] + Joined(bs[1..][1..]));
    }
    assert c.Lawful();
  }

  // ----- lines ------------------------------------------------------------

  /** The length of the first line, its newline included. */
  function LineLength(file: Bytes): (n: nat)
    ensures n <= |file| && (file != [] ==> n > 0)
  {
    if file == [] then 0
    else if file[0] == NEWLINE then 1
    else 1 + LineLength(file[1..])
  }

  function Lines(file: Bytes): seq<Bytes> {
    if file == [] then [] else [file[..LineLength(file)]] + Lines(file[LineLength(file)..])
  }

  /** Empty or ending in a newline. */
  predicate Terminated(file: Bytes) {
    file == [] || file[|file| - 1] == NEWLINE
  }

  lemma {:induction false} FirstLine(line: Bytes, rest: Bytes)
    requires NEWLINE !in line
    ensures LineLength(line + [NEWLINE] + rest) == |line| + 1
    ensures LineLength(line) == |line|
  {
    if line == [] {
      assert (line + [NEWLINE] + rest)[0] == NEWLINE;
    } else {
      FirstLine(line[1..], rest);
      assert (line + [NEWLINE] + rest)[1..] == line[1..] + [NEWLINE] + rest;
    }
  }

  lemma {:induction false} LineLengthStable(a: Bytes, b: Bytes)
    requires a != [] && Terminated(a)
    ensures LineLength(a + b) == LineLength(a)
    ensures Terminated(a[LineLength(a)..])
  {
    if a[0] != NEWLINE {
      LineLengthStable(a[1..], b);
      assert (a + b)[1..] == a[1..] + b;
    }
  }

  lemma LinesHead(file: Bytes, n: nat)
    requires file != [] && LineLength(file) == n
    ensures Lines(file) == [file[..n]] + Lines(file[n..])
  {
  }

  /** Bytes after a newline start a line of their own. */
  lemma {:induction false} LinesConcat(a: Bytes, b: Bytes)
    requires Terminated(a)
    ensures Lines(a + b) == Lines(a) + Lines(b)
    decreases |a|
  {
    if a == [] {
      assert a + b == b;
    } else {
      var n := LineLength(a);
      var first, rest := a[..n], a[n..];
      LineLengthStable(a, b);
      assert Lines(a + b) == [first] + Lines(rest + b) by {
        assert (a + b)[..n] == first && (a + b)[n..] == rest + b;
        LinesHead(a + b, n);
      }
      assert Lines(a) == [first] + Lines(rest) by { LinesHead(a, n); }
      LinesConcat(rest, b);
      Regroup([first], Lines(rest), Lines(b));
    }
  }

  lemma SingleLine(line: Bytes)
    requires NEWLINE !in line
    ensures Lines(line + [NEWLINE]) == [line + [NEWLINE]]
    ensures line != [] ==> Lines(line) == [line]
  {
    FirstLine(line, []);
    assert line + [NEWLINE] + [] == line + [NEWLINE];
    assert (line + [NEWLINE])[..|line| + 1] == line + [NEWLINE];
    assert line[..|line|] == line;
  }

  function Joined(lines: seq<Bytes>): Bytes {
    if lines == [] then [] else lines[0] + Joined(lines[1..])
  }

  /** A line has a newline at its end at most, and always there unless it is the last. */
  predicate WellCut(lines: seq<Bytes>) {
    forall i | 0 <= i < |lines| ::
      && lines[i] != []
      && NEWLINE !in lines[i][..|lines[i]| - 1]
      && (i < |lines| - 1 ==> lines[i][|lines[i]| - 1] == NEWLINE)
  }

  lemma {:induction false} FirstNewline(file: Bytes)
    requires file != []
    ensures var n := LineLength(file);
            NEWLINE !in file[..n - 1] && (n < |file| ==> file[n - 1] == NEWLINE)
  {
    if file[0] != NEWLINE && |file| > 1 {
      FirstNewline(file[1..]);
      var n := LineLength(file);
      assert file[..n - 1] == [file[0]] + file[1..][..n - 2];
    }
  }

  /** A line as it is cut off, with what comes after it. */
  predicate CutBefore(line: Bytes, later: bool) {
    line != [] && NEWLINE !in line[..|line| - 1] && (later ==> line[|line| - 1] == NEWLINE)
  }

  lemma FirstLineIsCut(file: Bytes, n: nat)
    requires file != [] && n == LineLength(file)
    ensures CutBefore(file[..n], n < |file|) && file == file[..n] + file[n..]
  {
    FirstNewline(file);
    TakeTake(file, n, n - 1);
    TakeDrop(file, n);
  }

  lemma CutCons(first: Bytes, rest: seq<Bytes>)
    requires CutBefore(first, rest != []) && WellCut(rest)
    ensures WellCut([first] + rest) && Joined([first] + rest) == first + Joined(rest)
  {
    var lines := [first] + rest;
    assert lines[1..] == rest;
    assert forall i | 0 < i < |lines| :: lines[i] == rest[i - 1];
  }

  /** The lines are the file cut after each newline. */
  lemma {:induction false} LinesCutTheFile(file: Bytes)
    ensures Joined(Lines(file)) == file && WellCut(Lines(file))
    decreases |file|
  {
    if file != [] {
      var n := LineLength(file);
      LinesCutTheFile(file[n..]);
      FirstLineIsCut(file, n);
      LinesHead(file, n);
      CutCons(file[..n], Lines(file[n..]));
    }
  }

  // ----- decoding ---------------------------------------------------------

  predicate Padding(b: int) {
    b == NUL || b == RETURN || b == NEWLINE || b == TAB || b == SPACE
  }

  function TrimFront(line: Bytes): Bytes {
    if line != [] && Padding(line[0]) then TrimFront(line[1..]) else line
  }

  function TrimBack(line: Bytes): Bytes {
    if line != [] && Padding(line[|line| - 1]) then TrimBack(line[..|line| - 1]) else line
  }

  function Clean(line: Bytes): Bytes {
    TrimBack(TrimFront(line))
  }

  predicate Blank(b: Bytes) {
    forall i | 0 <= i < |b| :: Padding(b[i])
  }

  lemma {:induction false} FrontSplits(line: Bytes) returns (pad: Bytes)
    ensures line == pad + TrimFront(line) && Blank(pad)
    ensures TrimFront(line) != [] ==> !Padding(TrimFront(line)[0])
  {
    pad := [];
    if line != [] && Padding(line[0]) {
      var rest := FrontSplits(line[1..]);
      pad := [line[0]] + rest;
    }
  }

  lemma {:induction false} BackSplits(line: Bytes) returns (pad: Bytes)
    ensures line == TrimBack(line) + pad && Blank(pad)
    ensures TrimBack(line) != [] ==> !Padding(TrimBack(line)[|TrimBack(line)| - 1])
  {
    pad := [];
    if line != [] && Padding(line[|line| - 1]) {
      var rest := BackSplits(line[..|line| - 1]);
      pad := rest + [line[|line| - 1]];
      assert line == line[..|line| - 1] + [line[|line| - 1]];
    }
  }

  /** NUL, tab, newline, return and blank. */
  const PADDING := {0, 9, 10, 13, 32}

  predicate AllPadding(b: Bytes) {
    forall i | 0 <= i < |b| :: b[i] in PADDING
  }

  lemma BlankIsPadding(b: Bytes)
    ensures Blank(b) <==> AllPadding(b)
    ensures b != [] ==> (Padding(b[0]) <==> b[0] in PADDING)
    ensures b != [] ==> (Padding(b[|b| - 1]) <==> b[|b| - 1] in PADDING)
  {
    forall i | 0 <= i < |b|
      ensures Padding(b[i]) <==> b[i] in PADDING
    {
    }
  }

  predicate Surrounded(line: Bytes, front: Bytes, core: Bytes, back: Bytes) {
    AllPadding(front) && AllPadding(back) && line == front + core + back
  }

  /** Cleaning takes off padding at both ends, all of it, and nothing else. */
  lemma CleanTrimsPadding(line: Bytes)
    ensures exists front, back :: Surrounded(line, front, Clean(line), back)
    ensures Clean(line) != [] ==> Clean(line)[0] !in PADDING && Clean(line)[|Clean(line)| - 1] !in PADDING
  {
    var front := FrontSplits(line);
    var back := BackSplits(TrimFront(line));
    BlankIsPadding(front);
    BlankIsPadding(back);
    BlankIsPadding(Clean(line));
    Regroup(front, Clean(line), back);
    assert Surrounded(line, front, Clean(line), back);
    if Clean(line) != [] { assert Clean(line)[0] == TrimFront(line)[0]; }
  }

  lemma {:induction false} FrontGoes(front: Bytes, rest: Bytes)
    requires forall b | b in front :: b in PADDING
    requires rest != [] ==> rest[0] !in PADDING
    ensures TrimFront(front + rest) == rest
  {
    if front == [] {
      assert front + rest == rest;
    } else {
      assert (front + rest)[1..] == front[1..] + rest && front[0] in front;
      FrontGoes(front[1..], rest);
    }
  }

  lemma WithoutLast(rest: Bytes, back: Bytes)
    requires back != []
    ensures var line := rest + back;
            line != [] && line[..|line| - 1] == rest + back[..|back| - 1] && line[|line| - 1] == back[|back| - 1]
  {
  }

  lemma {:induction false} BackGoes(rest: Bytes, back: Bytes)
    requires forall b | b in back :: b in PADDING
    requires rest != [] ==> rest[|rest| - 1] !in PADDING
    ensures TrimBack(rest + back) == rest
  {
    if back == [] {
      assert rest + back == rest;
    } else {
      WithoutLast(rest, back);
      assert back[|back| - 1] in back;
      BackGoes(rest, back[..|back| - 1]);
    }
  }

  function ParseLine(c: Codec, line: Bytes): Option<Event> {
    if Clean(line) == [] then None else c.decode(Clean(line))
  }

  function ParseAll(c: Codec, lines: seq<Bytes>): seq<Event> {
    if lines == [] then []
    else (match ParseLine(c, lines[0]) case Some(e) => [e] case None => []) + ParseAll(c, lines[1..])
  }

  /** The events a file holds, in order: every line that decodes. */
  function Decoded(c: Codec, file: Bytes): seq<Event> {
    ParseAll(c, Lines(file))
  }

  lemma {:induction false} ParseAllConcat(c: Codec, a: seq<Bytes>, b: seq<Bytes>)
    ensures ParseAll(c, a + b) == ParseAll(c, a) + ParseAll(c, b)
  {
    if a == [] {
      assert a + b == b;
    } else {
      assert (a + b)[1..] == a[1..] + b;
      ParseAllConcat(c, a[1..], b);
    }
  }

  /** Reading the first line off a file. */
  lemma DecodedStep(c: Codec, file: Bytes)
    requires file != []
    ensures var n := LineLength(file);
            && Lines(file) == [file[..n]] + Lines(file[n..])
            && Decoded(c, file) ==
               match ParseLine(c, file[..n])
               case Some(e) => [e] + Decoded(c, file[n..])
               case None => Decoded(c, file[n..])
  {
    var line, rest := file[..LineLength(file)], file[LineLength(file)..];
    ParseAllConcat(c, [line], Lines(rest));
    ParseAllSingle(c, line);
    if ParseLine(c, line) == None {
      assert [] + Decoded(c, rest) == Decoded(c, rest);
    }
  }

  lemma ParseAllSingle(c: Codec, line: Bytes)
    ensures ParseAll(c, [line]) == match ParseLine(c, line) case Some(e) => [e] case None => []
  {
    assert ParseAll(c, [line][1..]) == [];
  }

  lemma DecodedConcat(c: Codec, a: Bytes, b: Bytes)
    requires Terminated(a)
    ensures Decoded(c, a + b) == Decoded(c, a) + Decoded(c, b)
  {
    LinesConcat(a, b);
    ParseAllConcat(c, Lines(a), Lines(b));
  }

  lemma CleanRecord(rec: Bytes)
    requires |rec| >= 1 && !Padding(rec[0]) && !Padding(rec[|rec| - 1])
    ensures Clean(rec) == rec && Clean(rec + [NEWLINE]) == rec
  {
    var line := rec + [NEWLINE];
    assert line[..|line| - 1] == rec;
    assert TrimFront(rec) == rec && TrimFront(line) == line;
    assert TrimBack(rec) == rec;
  }

  lemma RecordReadsBack(c: Codec, e: Event)
    requires c.Lawful()
    ensures Decoded(c, c.Record(e)) == [c.Canonical(e)]
    ensures Lines(c.Record(e)) == [c.Record(e)] && ParseLine(c, c.Record(e)) == Some(c.Canonical(e))
    ensures Terminated(c.Record(e))
  {
    assert c.Framed(c.encode(e));
    CleanRecord(c.encode(e));
    SingleLine(c.encode(e));
    ParseAllSingle(c, c.Record(e));
  }

  /** A record reads back as well with padding around it, as the NUL bytes that a crash can leave in front. */
  lemma PaddedRecordReads(c: Codec, front: Bytes, e: Event, back: Bytes)
    requires c.Lawful() && (forall b | b in front :: b in PADDING) && forall b | b in back :: b in PADDING
    ensures ParseLine(c, front + (c.encode(e) + back)) == Some(c.Canonical(e))
  {
    var rec := c.encode(e);
    assert c.Framed(rec);
    FrontGoes(front, rec + back);
    BackGoes(rec, back);
  }

  /** On a file ending in a newline an append reads back as one more event. */
  lemma AppendReadsBack(c: Codec, file: Bytes, e: Event)
    requires c.Lawful() && Terminated(file)
    ensures Decoded(c, file + c.Record(e)) == Decoded(c, file) + [c.Canonical(e)]
    ensures Terminated(file + c.Record(e))
  {
    DecodedConcat(c, file, c.Record(e));
    RecordReadsBack(c, e);
  }

  // ----- queries ----------------------------------------------------------

  datatype EventQuery = EventQuery(
    limit: int := 0,
    sourceType: string := "",
    severity: string := "",
    category: string := "",
    assetIp: string := "",
    search: string := "")

  function CanonicalSourceType(s: string): string {
    match DashToUnderscore(ToLower(TrimSpace(s)))
    case "opnsense" => "firewall"
    case "fuxa" => "scada"
    case "openplc" => "plc"
    case other => other
  }

  function SearchBlob(e: Event): string {
    ToLower(Join([e.message, e.raw, e.assetName, e.assetIp, e.sourceType, e.severity, e.category], " "))
  }

  predicate MatchesQuery(e: Event, q: EventQuery) {
    && (q.sourceType == "" || CanonicalSourceType(e.sourceType) == CanonicalSourceType(q.sourceType))
    && (q.severity == "" || EqualFold(e.severity, q.severity))
    && (q.category == "" || EqualFold(e.category, q.category))
    && (q.assetIp == "" || EqualFold(e.assetIp, q.assetIp))
    && (q.search == "" ||
        var s := ToLower(q.search);
        Contains(SearchBlob(e), s) ||
        exists k | k in e.tags :: Contains(ToLower(k), s) || Contains(ToLower(e.tags[k]), s))
  }

  function Limit(q: EventQuery): (n: nat)
    ensures n > 0
  {
    if q.limit <= 0 then 100 else q.limit
  }

  function Keep(q: EventQuery): Event -> bool {
    (e: Event) => MatchesQuery(e, q)
  }

  function LastOf<T>(s: seq<T>, n: nat): seq<T> {
    if |s| <= n then s else s[|s| - n..]
  }

  /** The answer to a query: of the matching events, the last ones up to the limit. */
  function Answer(c: Codec, file: Bytes, q: EventQuery): seq<Event> {
    LastOf(Filtered(Decoded(c, file), Keep(q)), Limit(q))
  }

  lemma WindowForgets<T>(s: seq<T>, x: T, n: nat)
    ensures LastOf(s + [x], n) == LastOf(LastOf(s, n) + [x], n)
  {
  }

  lemma FilteredPush(es: seq<Event>, e: Event, keep: Event -> bool, n: nat)
    ensures LastOf(Filtered(es + [e], keep), n) ==
            if keep(e) then LastOf(LastOf(Filtered(es, keep), n) + [e], n) else LastOf(Filtered(es, keep), n)
  {
    FilteredSnoc(es, e, keep);
    if keep(e) {
      WindowForgets(Filtered(es, keep), e, n);
    } else {
      assert Filtered(es, keep) + [] == Filtered(es, keep);
    }
  }

  predicate WindowOf<T(==)>(w: seq<T>, seen: seq<T>, n: nat) {
    w == LastOf(seen, n)
  }

  lemma WindowSlides<T>(seen: seq<T>, x: T, n: nat)
    requires n > 0
    ensures var w := LastOf(seen, n) + [x]; WindowOf(if |w| > n then w[1..] else w, seen + [x], n)
  {
  }

  /** Appending to a file that ends in a newline changes an answer only by pushing the new event on the end of
      the window, when it matches. */
  lemma AppendPushesAnswer(c: Codec, file: Bytes, e: Event, q: EventQuery)
    requires c.Lawful() && Terminated(file)
    ensures var new' := c.Canonical(e);
            Answer(c, file + c.Record(e), q) ==
            if MatchesQuery(new', q) then LastOf(Answer(c, file, q) + [new'], Limit(q)) else Answer(c, file, q)
  {
    AppendReadsBack(c, file, e);
    var keep, new' := Keep(q), c.Canonical(e);
    FilteredPush(Decoded(c, file), new', keep, Limit(q));
    assert keep(new') == MatchesQuery(new', q);
  }

  // ----- reading ----------------------------------------------------------

  /** The errors a reader meets: the first after so many bytes, the next so many further on. One that lies behind the
      end of the file is not met. */
  datatype Errors = NoErrors | ErrorAfter(n: nat, more: Errors)

  /** How the system calls of one reading went. */
  datatype ReadIo = CannotBeOpened | Opened(errors: Errors)

  datatype ReadEnd = Fine | AtEnd | Failing

  /** What one read up to a newline gives, and what is left to read. */
  datatype Took = Took(line: Bytes, end: ReadEnd, rest: Bytes, errors: Errors)

  predicate EndsLine(b: Bytes) {
    b != [] && b[|b| - 1] == NEWLINE
  }

  /** A line, or what there is of it before the next error or the end of the file. */
  function ReadBytes(rest: Bytes, errors: Errors): (t: Took)
    ensures |rest| == |t.line| + |t.rest| && (t.end.Fine? ==> t.line != [])
    ensures t.end.Failing? ==> errors.ErrorAfter? && t.errors == errors.more
    ensures t.end.AtEnd? ==> t.rest == [] && t.errors == NoErrors
    ensures !t.end.Failing? ==> |t.line| == LineLength(rest)
  {
    var n := LineLength(rest);
    var full := EndsLine(rest[..n]);
    if errors.ErrorAfter? && (errors.n < n || (errors.n == n && !full)) then
      Took(rest[..errors.n], Failing, rest[errors.n..], errors.more)
    else if full then
      Took(rest[..n], Fine, rest[n..], if errors.NoErrors? then NoErrors else ErrorAfter(errors.n - n, errors.more))
    else
      assert n == |rest| by { if rest != [] { FirstNewline(rest); } }
      Took(rest, AtEnd, [], NoErrors)
  }

  lemma ReadCuts(rest: Bytes, errors: Errors)
    ensures var t := ReadBytes(rest, errors);
            && rest == t.line + t.rest
            && t.line == rest[..|t.line|] && t.rest == rest[|t.line|..]
  {
  }

  /** A piece of the file as the reader hands it out, and whether an error came with it. */
  datatype Piece = Piece(line: Bytes, failed: bool)

  function Pieces(rest: Bytes, errors: Errors): seq<Piece>
    decreases |rest|, errors
  {
    var t := ReadBytes(rest, errors);
    if t.end.AtEnd? then (if t.line == [] then [] else [Piece(t.line, false)])
    else [Piece(t.line, t.end.Failing?)] + Pieces(t.rest, t.errors)
  }

  lemma PiecesStep(rest: Bytes, errors: Errors)
    ensures var t := ReadBytes(rest, errors);
            && (t.end.AtEnd? && t.line == [] ==> Pieces(rest, errors) == [])
            && (!(t.end.AtEnd? && t.line == []) ==>
                  Pieces(rest, errors) == [Piece(t.line, t.end.Failing?)] + Pieces(t.rest, t.errors))
  {
    var t := ReadBytes(rest, errors);
    if t.end.AtEnd? && t.line != [] {
      assert Pieces([], NoErrors) == [];
      assert [Piece(t.line, false)] + [] == [Piece(t.line, false)];
    }
  }

  /** The events of a piece that are kept: one or none. */
  function KeptOf(c: Codec, line: Bytes, keep: Event -> bool): seq<Event> {
    match ParseLine(c, line)
    case None => []
    case Some(e) => if keep(e) then [e] else []
  }

  /** The read error that came with a piece is reported: one that came with a piece not kept is passed over. */
  predicate Reported(c: Codec, p: Piece, keep: Event -> bool) {
    p.failed && (p.line == [] || KeptOf(c, p.line, keep) != [])
  }

  /** The events kept of the pieces; None when some error is reported. */
  function Heard(c: Codec, pieces: seq<Piece>, keep: Event -> bool): Option<seq<Event>> {
    if pieces == [] then Some([])
    else if Reported(c, pieces[0], keep) then None
    else Followed(KeptOf(c, pieces[0].line, keep), Heard(c, pieces[1..], keep))
  }

  function Followed(seen: seq<Event>, later: Option<seq<Event>>): Option<seq<Event>> {
    if later == None then None else Some(seen + later.value)
  }

  lemma HeardCons(c: Codec, p: Piece, later: seq<Piece>, keep: Event -> bool)
    ensures Heard(c, [p] + later, keep) ==
            if Reported(c, p, keep) then None else Followed(KeptOf(c, p.line, keep), Heard(c, later, keep))
  {
    assert ([p] + later)[1..] == later;
  }

  /** The answer to a query, errors of reading included. */
  function Reply(c: Codec, file: Bytes, errors: Errors, q: EventQuery): Option<seq<Event>> {
    var heard := Heard(c, Pieces(file, errors), Keep(q));
    if heard == None then None else Some(LastOf(heard.value, Limit(q)))
  }

  // ----- repair -----------------------------------------------------------

  datatype RepairReport = RepairReport(validLines: int, invalidLines: int, nullLines: int, bytesWritten: int)

  function Records(c: Codec, es: seq<Event>): Bytes {
    if es == [] then [] else c.Record(es[0]) + Records(c, es[1..])
  }

  function Repaired(c: Codec, file: Bytes): Bytes {
    Records(c, Decoded(c, file))
  }

  /** The report counts line by line. */
  function ReportOf(c: Codec, lines: seq<Bytes>): (r: RepairReport)
    ensures r.validLines + r.invalidLines == |lines|
    ensures 0 <= r.nullLines <= r.invalidLines
  {
    if lines == [] then RepairReport(0, 0, 0, 0)
    else
      var r := ReportOf(c, lines[1..]);
      match ParseLine(c, lines[0])
      case Some(e) => r.(validLines := r.validLines + 1, bytesWritten := r.bytesWritten + |c.Record(e)|)
      case None =>
        r.(invalidLines := r.invalidLines + 1,
           nullLines := r.nullLines + if Clean(lines[0]) == [] && NUL in lines[0] then 1 else 0)
  }

  /** A line of padding only, with a NUL in it. */
  predicate NullPadded(line: Bytes) {
    0 in line && forall b | b in line :: b in PADDING
  }

  lemma NullPaddedIff(line: Bytes)
    ensures Clean(line) == [] && NUL in line <==> NullPadded(line)
  {
    CleanTrimsPadding(line);
    if NullPadded(line) {
      FrontGoes(line, []);
      assert line + [] == line;
    }
  }

  lemma FilteredCons(line: Bytes, rest: seq<Bytes>)
    ensures |Filtered([line] + rest, NullPadded)| == One(NullPadded(line)) + |Filtered(rest, NullPadded)|
  {
    FilteredConcat([line], rest, NullPadded);
    FilteredSnoc([], line, NullPadded);
    assert [] + [line] == [line];
  }

  lemma ReportStep(c: Codec, line: Bytes, rest: seq<Bytes>)
    ensures var r, sofar := ReportOf(c, [line] + rest), ReportOf(c, rest);
            && r.validLines == sofar.validLines + One(ParseLine(c, line).Some?)
            && r.invalidLines == sofar.invalidLines + One(ParseLine(c, line) == None)
            && r.nullLines == sofar.nullLines + One(NullPadded(line))
    ensures |ParseAll(c, [line] + rest)| == One(ParseLine(c, line).Some?) + |ParseAll(c, rest)|
  {
    assert ([line] + rest)[1..] == rest;
    NullPaddedIff(line);
  }

  /** The report counts the events, the lines that are none, and those of them that are padding with a NUL. */
  lemma {:induction false} ReportCounts(c: Codec, lines: seq<Bytes>)
    ensures var r := ReportOf(c, lines);
            && r.validLines == |ParseAll(c, lines)| && r.invalidLines == |lines| - |ParseAll(c, lines)|
            && r.nullLines == |Filtered(lines, NullPadded)|
  {
    if lines != [] {
      ReportCounts(c, lines[1..]);
      ReportStep(c, lines[0], lines[1..]);
      FilteredCons(lines[0], lines[1..]);
      assert lines == [lines[0]] + lines[1..];
    }
  }

  /** The report on one line. */
  function LineReport(c: Codec, line: Bytes): RepairReport {
    match ParseLine(c, line)
    case Some(e) => RepairReport(1, 0, 0, |c.Record(e)|)
    case None => RepairReport(0, 1, if Clean(line) == [] && NUL in line then 1 else 0, 0)
  }

  function Plus(a: RepairReport, b: RepairReport): RepairReport {
    RepairReport(a.validLines + b.validLines, a.invalidLines + b.invalidLines,
                 a.nullLines + b.nullLines, a.bytesWritten + b.bytesWritten)
  }

  lemma ReportCons(c: Codec, line: Bytes, rest: seq<Bytes>)
    ensures ReportOf(c, [line] + rest) == Plus(LineReport(c, line), ReportOf(c, rest))
  {
    assert ([line] + rest)[1..] == rest;
  }

  lemma {:induction false} RecordsReadBack(c: Codec, es: seq<Event>)
    requires c.Lawful() && forall e | e in es :: c.Canonical(e) == e
    ensures Terminated(Records(c, es))
    ensures Decoded(c, Records(c, es)) == es
    ensures ReportOf(c, Lines(Records(c, es))).invalidLines == 0
  {
    if es != [] {
      var rec, rest := c.Record(es[0]), Records(c, es[1..]);
      RecordsReadBack(c, es[1..]);
      RecordReadsBack(c, es[0]);
      assert Records(c, es) == rec + rest;
      DecodedConcat(c, rec, rest);
      assert Decoded(c, rec + rest) == [es[0]] + es[1..] == es;
      LinesConcat(rec, rest);
      ReportCons(c, rec, Lines(rest));
      assert (rec + rest)[|rec + rest| - 1] == NEWLINE;
    }
  }

  lemma {:induction false} ParsedAreCanonical(c: Codec, lines: seq<Bytes>)
    requires c.Lawful()
    ensures forall e | e in ParseAll(c, lines) :: c.Canonical(e) == e
    ensures ReportOf(c, lines).bytesWritten == |Records(c, ParseAll(c, lines))|
  {
    if lines != [] {
      ParsedAreCanonical(c, lines[1..]);
      match ParseLine(c, lines[0])
      case Some(e) =>
        assert ([e] + ParseAll(c, lines[1..]))[1..] == ParseAll(c, lines[1..]);
      case None =>
        assert [] + ParseAll(c, lines[1..]) == ParseAll(c, lines[1..]);
    }
  }

  /** Repair keeps every event the file holds and thereby the answer to every query, leaves the file ending in a
      newline, changes nothing when run again, and then finds no invalid line. */
  lemma RepairPreserves(c: Codec, file: Bytes)
    requires c.Lawful()
    ensures Decoded(c, Repaired(c, file)) == Decoded(c, file)
    ensures forall q :: Answer(c, Repaired(c, file), q) == Answer(c, file, q)
    ensures Terminated(Repaired(c, file))
    ensures Repaired(c, Repaired(c, file)) == Repaired(c, file)
    ensures ReportOf(c, Lines(Repaired(c, file))).invalidLines == 0
    ensures ReportOf(c, Lines(file)).bytesWritten == |Repaired(c, file)|
  {
    ParsedAreCanonical(c, Lines(file));
    RecordsReadBack(c, Decoded(c, file));
  }

  lemma RecordsCons(c: Codec, e: Event, es: seq<Event>)
    ensures Records(c, [e] + es) == c.Record(e) + Records(c, es)
  {
    assert ([e] + es)[1..] == es;
  }

  /** The lines a repair gets to: all, or those up to the first read error with what was read when it struck. */
  function Upto(pieces: seq<Piece>): seq<Bytes> {
    if pieces == [] then []
    else if pieces[0].failed then (if pieces[0].line == [] then [] else [pieces[0].line])
    else [pieces[0].line] + Upto(pieces[1..])
  }

  predicate AllRead(pieces: seq<Piece>) {
    forall i | 0 <= i < |pieces| :: !pieces[i].failed
  }

  lemma UptoCons(p: Piece, later: seq<Piece>)
    ensures Upto([p] + later) == if !p.failed then [p.line] + Upto(later) else if p.line == [] then [] else [p.line]
    ensures AllRead([p] + later) <==> !p.failed && AllRead(later)
  {
    assert ([p] + later)[1..] == later;
    if AllRead([p] + later) {
      assert !([p] + later)[0].failed;
      assert forall i | 0 <= i < |later| :: later[i] == ([p] + later)[i + 1];
    }
  }

  /** The lines before the one with the event number k, counting from 0; all of them when there are no more than k. */
  function LinesBefore(c: Codec, lines: seq<Bytes>, k: nat): seq<Bytes> {
    if lines == [] then []
    else if ParseLine(c, lines[0]) == None then [lines[0]] + LinesBefore(c, lines[1..], k)
    else if k == 0 then []
    else [lines[0]] + LinesBefore(c, lines[1..], k - 1)
  }

  /** No write fails. */
  predicate Enough(c: Codec, lines: seq<Bytes>, writes: Option<nat>) {
    writes == None || writes.value >= |ParseAll(c, lines)|
  }

  /** The lines that get rewritten or counted. */
  function Rewritten(c: Codec, lines: seq<Bytes>, writes: Option<nat>): seq<Bytes> {
    if Enough(c, lines, writes) then lines else LinesBefore(c, lines, writes.value)
  }

  // ----- the store --------------------------------------------------------

  /** How the system calls of one append went: the file could not be opened, or so many bytes got written. */
  datatype AppendIo = CannotOpen | Wrote(n: nat)

  /** The write of this event either failed without a trace or went through. */
  predicate Whole(c: Codec, e: Event, io: AppendIo) {
    io.CannotOpen? || io.n == 0 || io.n >= |c.Record(e)|
  }

  /** The file and the success of an append. A write that stops early leaves a torn tail behind. */
  function AfterAppend(c: Codec, file: Option<Bytes>, e: Event, io: AppendIo): (Option<Bytes>, bool) {
    match io
    case CannotOpen => (file, false)
    case Wrote(n) =>
      var old' := if file.Some? then file.value else [];
      if NUL in c.encode(e) then (Some(old'), false)
      else if n < |c.Record(e)| then (Some(old' + c.Record(e)[..n]), false)
      else (Some(old' + c.Record(e)), true)
  }

  function Contents(file: Option<Bytes>): Bytes {
    if file.Some? then file.value else []
  }

  /** A record with a NUL in it never gets into the file. */
  lemma NulIsRefused(c: Codec, file: Option<Bytes>, e: Event, io: AppendIo)
    requires 0 in c.encode(e)
    ensures var (after, ok) := AfterAppend(c, file, e, io); !ok && Contents(after) == Contents(file)
  {
  }

  class JsonlStore {
    const codec: Codec
    var file: Option<Bytes>

    constructor (codec: Codec, file: Option<Bytes>)
      ensures this.codec == codec && this.file == file
    {
      this.codec, this.file := codec, file;
    }

    method Append(e: Event, io: AppendIo) returns (ok: bool)
      modifies this
      ensures (file, ok) == AfterAppend(codec, old(file), e, io)
    {
      if io.CannotOpen? {
        return false;
      }
      if file == None {
        file := Some([]);
      }
      var record := codec.encode(e);
      if NUL in record {
        return false;
      }
      record := record + [NEWLINE];
      if io.n < |record| {
        file := Some(file.value + record[..io.n]);
        return false;
      }
      file := Some(file.value + record);
      return true;
    }

    /** None stands for an error. A file that does not exist is no error; one that cannot be opened, or that fails
        at a piece that ends here, gives none of the lines read so far. */
    method ReadFiltered(q: EventQuery, io: ReadIo) returns (lines: Option<seq<Event>>)
      ensures lines == if io.CannotBeOpened? then None
                       else if file == None then Some([])
                       else Reply(codec, file.value, io.errors, q)
    {
      if io.CannotBeOpened? {
        return None;
      }
      if file == None {
        return Some([]);
      }
      lines := ScanWindow(codec, file.value, io.errors, q);
    }

    /** Rewrites into a temporary file and renames it over the old one, so a failure on the way leaves the file as
        it was. `writes` bounds how many records can be written before one fails; `renamed` says whether closing
        and renaming go well. Unlike a query it ends at the first read error. */
    method Repair(io: ReadIo, writes: Option<nat>, renamed: bool) returns (report: RepairReport, ok: bool)
      modifies this
      ensures io.CannotBeOpened? ==> !ok && report == RepairReport(0, 0, 0, 0)
      ensures io.Opened? && old(file) == None ==> file == None && ok && report == RepairReport(0, 0, 0, 0)
      ensures io.Opened? && old(file).Some? ==>
                var whole := old(file).value;
                var lines := Upto(Pieces(whole, io.errors));
                && (ok <==> AllRead(Pieces(whole, io.errors)) && Enough(codec, lines, writes) && renamed)
                && (ok ==> file == Some(Repaired(codec, whole)))
                && report == ReportOf(codec, Rewritten(codec, lines, writes))
                && (!Enough(codec, lines, writes) ==> report.validLines == writes.value)
      ensures !ok ==> file == old(file)
    {
      if io.CannotBeOpened? {
        return RepairReport(0, 0, 0, 0), false;
      }
      if file == None {
        return RepairReport(0, 0, 0, 0), true;
      }
      var out;
      out, report, ok := Rewrite(codec, file.value, io.errors, writes);
      ok := ok && renamed;
      if ok {
        file := Some(out);
      }
    }
  }

  lemma KeptSlides(c: Codec, line: Bytes, keep: Event -> bool, seen: seq<Event>, n: nat)
    requires n > 0
    ensures var kept, w := KeptOf(c, line, keep), LastOf(seen, n);
            && |kept| <= 1 && (kept == [] ==> seen + kept == seen)
            && (kept != [] ==> kept == [kept[0]] && WindowOf(if |w + kept| > n then (w + kept)[1..] else w + kept,
                                                            seen + kept, n))
  {
    var kept := KeptOf(c, line, keep);
    if kept == [] {
      assert seen + [] == seen;
    } else {
      WindowSlides(seen, kept[0], n);
    }
  }

  /** What has been heard so far, with what the remaining pieces will give, is what is heard of the whole. */
  ghost predicate ScanHolds(c: Codec, whole: Option<seq<Event>>, todo: seq<Piece>, keep: Event -> bool,
                            seen: seq<Event>)
  {
    Followed(seen, Heard(c, todo, keep)) == whole
  }

  lemma ScanStep(c: Codec, whole: Option<seq<Event>>, p: Piece, later: seq<Piece>, keep: Event -> bool,
                 seen: seq<Event>)
    requires ScanHolds(c, whole, [p] + later, keep, seen)
    ensures if Reported(c, p, keep) then whole == None
            else ScanHolds(c, whole, later, keep, seen + KeptOf(c, p.line, keep))
  {
    HeardCons(c, p, later, keep);
    var rest := Heard(c, later, keep);
    if !Reported(c, p, keep) && rest.Some? { Regroup(seen, KeptOf(c, p.line, keep), rest.value); }
  }

  lemma ScanBounds(c: Codec, pieces: seq<Piece>, keep: Event -> bool, seen: seq<Event>)
    ensures ScanHolds(c, Heard(c, pieces, keep), pieces, keep, [])
    ensures Followed(seen, Heard(c, [], keep)) == Some(seen)
  {
    var heard := Heard(c, pieces, keep);
    if heard.Some? { assert [] + heard.value == heard.value; }
    assert seen + [] == seen;
  }

  /** One pass over the pieces with a window that slides along the matches. A piece that is not kept goes straight on to
      the next, past the error that came with it. */
  method ScanWindow(c: Codec, file: Bytes, errors: Errors, q: EventQuery) returns (lines: Option<seq<Event>>)
    ensures lines == Reply(c, file, errors, q)
  {
    var keep, limit := Keep(q), Limit(q);
    var window: seq<Event> := [];
    var rest, left := file, errors;
    ghost var seen, whole := [], Heard(c, Pieces(file, errors), keep);
    ScanBounds(c, Pieces(file, errors), keep, seen);
    while true
      invariant ScanHolds(c, whole, Pieces(rest, left), keep, seen)
      invariant WindowOf(window, seen, limit)
      decreases |rest|, left
    {
      var t := ReadBytes(rest, left);
      PiecesStep(rest, left);
      rest, left := t.rest, t.errors;
      if t.line != [] {
        ScanStep(c, whole, Piece(t.line, t.end.Failing?), Pieces(rest, left), keep, seen);
        KeptSlides(c, t.line, keep, seen, limit);
        seen := seen + KeptOf(c, t.line, keep);
        var parsed := ParseLine(c, t.line);
        if parsed == None {
          continue;
        }
        if !keep(parsed.value) {
          continue;
        }
        window := window + [parsed.value];
        if |window| > limit {
          window := window[1..];
        }
      }
      match t.end
      case Fine =>
      case AtEnd =>
        ScanBounds(c, [], keep, seen);
        return Some(window);
      case Failing =>
        return None;
    }
  }

  /** What rewriting yields: the bytes, the report and the number of records. */
  datatype Yield = Yield(bytes: Bytes, report: RepairReport, records: nat)

  function Then(a: Yield, b: Yield): Yield {
    Yield(a.bytes + b.bytes, Plus(a.report, b.report), a.records + b.records)
  }

  function YieldOf(c: Codec, lines: seq<Bytes>): Yield {
    Yield(Records(c, ParseAll(c, lines)), ReportOf(c, lines), |ParseAll(c, lines)|)
  }

  function LineYield(c: Codec, line: Bytes): Yield {
    match ParseLine(c, line)
    case Some(e) => Yield(c.Record(e), LineReport(c, line), 1)
    case None => Yield([], LineReport(c, line), 0)
  }

  lemma ThenRegroups(a: Yield, b: Yield, c: Yield)
    ensures Then(a, Then(b, c)) == Then(Then(a, b), c)
  {
    Regroup(a.bytes, b.bytes, c.bytes);
  }

  lemma YieldCons(c: Codec, line: Bytes, later: seq<Bytes>)
    ensures YieldOf(c, [line] + later) == Then(LineYield(c, line), YieldOf(c, later))
  {
    ReportCons(c, line, later);
    ParseAllConcat(c, [line], later);
    ParseAllSingle(c, line);
    match ParseLine(c, line)
    case Some(e) => RecordsCons(c, e, ParseAll(c, later));
    case None =>
      assert [] + ParseAll(c, later) == ParseAll(c, later);
      assert [] + Records(c, ParseAll(c, later)) == Records(c, ParseAll(c, later));
  }

  lemma YieldOfNothing(c: Codec, y: Yield)
    ensures Then(y, YieldOf(c, [])) == y && Then(YieldOf(c, []), y) == y
  {
    assert y.bytes + [] == y.bytes && [] + y.bytes == y.bytes;
  }

  lemma LinesBeforeCons(c: Codec, line: Bytes, later: seq<Bytes>, k: nat)
    ensures LinesBefore(c, [line] + later, k) ==
            if ParseLine(c, line) == None then [line] + LinesBefore(c, later, k)
            else if k == 0 then []
            else [line] + LinesBefore(c, later, k - 1)
  {
    assert ([line] + later)[1..] == later;
  }

  lemma PlusRegroups(a: RepairReport, b: RepairReport, c: RepairReport)
    ensures Plus(Plus(a, b), c) == Plus(a, Plus(b, c))
  {
  }

  /** What has been written and reported so far, with what the remaining lines will give, is the whole; and with what
      the lines up to the one whose write fails will add to the report, it is the report then given. */
  ghost predicate RewriteHolds(c: Codec, whole: Yield, final: RepairReport, writes: Option<nat>, todo: seq<Bytes>,
                               sofar: Yield)
  {
    && Then(sofar, YieldOf(c, todo)) == whole
    && (writes.Some? ==>
          && sofar.records <= writes.value
          && Plus(sofar.report, ReportOf(c, LinesBefore(c, todo, writes.value - sofar.records))) == final)
  }

  lemma WholeStays(c: Codec, whole: Yield, line: Bytes, later: seq<Bytes>, sofar: Yield)
    requires Then(sofar, YieldOf(c, [line] + later)) == whole
    ensures Then(Then(sofar, LineYield(c, line)), YieldOf(c, later)) == whole
    ensures sofar.records + LineYield(c, line).records <= whole.records
  {
    YieldCons(c, line, later);
    ThenRegroups(sofar, LineYield(c, line), YieldOf(c, later));
  }

  /** The report up to a write that fails, `left` records on, and how it shrinks by a line. */
  lemma FinalStays(c: Codec, final: RepairReport, line: Bytes, later: seq<Bytes>, sofar: RepairReport, left: nat)
    requires Plus(sofar, ReportOf(c, LinesBefore(c, [line] + later, left))) == final
    ensures ParseLine(c, line) == None ==>
              Plus(Plus(sofar, LineReport(c, line)), ReportOf(c, LinesBefore(c, later, left))) == final
    ensures ParseLine(c, line).Some? && left > 0 ==>
              Plus(Plus(sofar, LineReport(c, line)), ReportOf(c, LinesBefore(c, later, left - 1))) == final
    ensures ParseLine(c, line).Some? && left == 0 ==> sofar == final
  {
    LinesBeforeCons(c, line, later, left);
    if ParseLine(c, line) == None || left > 0 {
      var rest := LinesBefore(c, later, if ParseLine(c, line) == None then left else left - 1);
      ReportCons(c, line, rest);
      PlusRegroups(sofar, LineReport(c, line), ReportOf(c, rest));
    }
  }

  lemma RewriteStep(c: Codec, whole: Yield, final: RepairReport, writes: Option<nat>, line: Bytes, later: seq<Bytes>,
                    sofar: Yield)
    requires RewriteHolds(c, whole, final, writes, [line] + later, sofar)
    ensures if ParseLine(c, line).Some? && writes == Some(sofar.records)
            then sofar.report == final && sofar.records < whole.records
            else RewriteHolds(c, whole, final, writes, later, Then(sofar, LineYield(c, line)))
  {
    WholeStays(c, whole, line, later, sofar);
    if writes.Some? {
      var left, next := writes.value - sofar.records, Then(sofar, LineYield(c, line));
      FinalStays(c, final, line, later, sofar.report, left);
      if ParseLine(c, line) == None {
        assert writes.value - next.records == left && next.report == Plus(sofar.report, LineReport(c, line));
      } else if left > 0 {
        assert writes.value - next.records == left - 1 && next.report == Plus(sofar.report, LineReport(c, line));
      }
    }
  }

  function StopReport(c: Codec, lines: seq<Bytes>, writes: Option<nat>): RepairReport {
    if writes.Some? then ReportOf(c, LinesBefore(c, lines, writes.value)) else RepairReport(0, 0, 0, 0)
  }

  lemma RewriteBounds(c: Codec, lines: seq<Bytes>, writes: Option<nat>, whole: Yield)
    requires whole == YieldOf(c, lines)
    ensures RewriteHolds(c, whole, StopReport(c, lines, writes), writes, lines, Yield([], RepairReport(0, 0, 0, 0), 0))
  {
    assert [] + whole.bytes == whole.bytes;
  }

  lemma RewriteEnds(c: Codec, whole: Yield, final: RepairReport, writes: Option<nat>, sofar: Yield)
    requires RewriteHolds(c, whole, final, writes, [], sofar)
    ensures sofar == whole && (writes.Some? ==> whole.records <= writes.value)
  {
    YieldOfNothing(c, sofar);
  }

  lemma {:induction false} AllReadIsLines(rest: Bytes, errors: Errors)
    ensures AllRead(Pieces(rest, errors)) ==> Upto(Pieces(rest, errors)) == Lines(rest)
    decreases |rest|, errors
  {
    var t := ReadBytes(rest, errors);
    PiecesStep(rest, errors);
    if t.end.AtEnd? && t.line == [] {
      assert rest == [];
    } else {
      AllReadIsLines(t.rest, t.errors);
      UptoCons(Piece(t.line, t.end.Failing?), Pieces(t.rest, t.errors));
      if !t.end.Failing? {
        ReadCuts(rest, errors);
        LinesHead(rest, |t.line|);
      }
    }
  }

  /** The same told of the pieces still to come. */
  ghost predicate RewriteAt(c: Codec, whole: Yield, final: RepairReport, writes: Option<nat>, todo: seq<Piece>,
                            sofar: Yield)
  {
    RewriteHolds(c, whole, final, writes, Upto(todo), sofar)
  }

  lemma PieceStep(c: Codec, whole: Yield, final: RepairReport, writes: Option<nat>, p: Piece, later: seq<Piece>,
                  sofar: Yield)
    requires RewriteAt(c, whole, final, writes, [p] + later, sofar)
    ensures p.line != [] ==>
              if ParseLine(c, p.line).Some? && writes == Some(sofar.records)
              then sofar.report == final && sofar.records < whole.records
              else RewriteAt(c, whole, final, writes, if p.failed then [] else later,
                             Then(sofar, LineYield(c, p.line)))
    ensures p.failed && p.line == [] ==> RewriteAt(c, whole, final, writes, [], sofar)
  {
    UptoCons(p, later);
    if p.line != [] {
      assert [p.line] + [] == [p.line];
      RewriteStep(c, whole, final, writes, p.line, if p.failed then [] else Upto(later), sofar);
    }
  }

  lemma RewriteDone(c: Codec, lines: seq<Bytes>, writes: Option<nat>, sofar: Yield)
    requires RewriteAt(c, YieldOf(c, lines), StopReport(c, lines, writes), writes, [], sofar)
    ensures Enough(c, lines, writes) && sofar.report == ReportOf(c, lines)
    ensures sofar.bytes == Records(c, ParseAll(c, lines))
  {
    RewriteEnds(c, YieldOf(c, lines), StopReport(c, lines, writes), writes, sofar);
  }

  lemma RewriteFails(c: Codec, lines: seq<Bytes>, writes: Option<nat>, sofar: Yield)
    requires writes == Some(sofar.records) && sofar.records < YieldOf(c, lines).records
    requires sofar.report == StopReport(c, lines, writes)
    ensures !Enough(c, lines, writes) && sofar.report == ReportOf(c, Rewritten(c, lines, writes))
  {
  }

  /** What a rewrite of the file comes to. */
  ghost predicate Outcome(c: Codec, file: Bytes, errors: Errors, writes: Option<nat>, out: Bytes,
                          report: RepairReport, ok: bool)
  {
    var lines := Upto(Pieces(file, errors));
    && (ok <==> AllRead(Pieces(file, errors)) && Enough(c, lines, writes))
    && (ok ==> out == Repaired(c, file))
    && report == ReportOf(c, Rewritten(c, lines, writes))
    && (!Enough(c, lines, writes) ==> report.validLines == writes.value)
  }

  /** A rewrite that has come to `rest`. */
  ghost predicate Underway(c: Codec, file: Bytes, errors: Errors, writes: Option<nat>, rest: Bytes, left: Errors,
                           sofar: Yield)
  {
    var lines := Upto(Pieces(file, errors));
    && RewriteAt(c, YieldOf(c, lines), StopReport(c, lines, writes), writes, Pieces(rest, left), sofar)
    && (AllRead(Pieces(file, errors)) <==> AllRead(Pieces(rest, left)))
    && sofar.report.validLines == sofar.records
  }

  const NOTHING := Yield([], RepairReport(0, 0, 0, 0), 0)

  lemma RewriteStarts(c: Codec, file: Bytes, errors: Errors, writes: Option<nat>)
    ensures Underway(c, file, errors, writes, file, errors, NOTHING)
  {
    RewriteBounds(c, Upto(Pieces(file, errors)), writes, YieldOf(c, Upto(Pieces(file, errors))));
  }

  /** With nothing more to read, or an error. */
  lemma LastRead(c: Codec, file: Bytes, errors: Errors, writes: Option<nat>, sofar: Yield, allRead: bool)
    requires var lines := Upto(Pieces(file, errors));
             RewriteAt(c, YieldOf(c, lines), StopReport(c, lines, writes), writes, [], sofar)
    requires allRead <==> AllRead(Pieces(file, errors))
    ensures Outcome(c, file, errors, writes, sofar.bytes, sofar.report, allRead)
  {
    RewriteDone(c, Upto(Pieces(file, errors)), writes, sofar);
    AllReadIsLines(file, errors);
  }

  /** With a write that fails. */
  lemma LastWrite(c: Codec, file: Bytes, errors: Errors, writes: Option<nat>, sofar: Yield)
    requires var lines := Upto(Pieces(file, errors));
             && writes == Some(sofar.records) && sofar.records < YieldOf(c, lines).records
             && sofar.report == StopReport(c, lines, writes) && sofar.report.validLines == sofar.records
    ensures Outcome(c, file, errors, writes, sofar.bytes, sofar.report, false)
  {
    RewriteFails(c, Upto(Pieces(file, errors)), writes, sofar);
  }

  /** With one more line, if anything was read of it. */
  function With(c: Codec, sofar: Yield, line: Bytes): Yield {
    if line == [] then sofar else Then(sofar, LineYield(c, line))
  }

  /** What the next read does: the pass goes on, or it ends at a failed write, a read error or the end of the file. */
  lemma ReadStep(c: Codec, file: Bytes, errors: Errors, writes: Option<nat>, rest: Bytes, left: Errors, sofar: Yield)
    requires Underway(c, file, errors, writes, rest, left, sofar)
    ensures var t := ReadBytes(rest, left);
            var now := With(c, sofar, t.line);
            if t.line != [] && ParseLine(c, t.line).Some? && writes == Some(sofar.records)
            then Outcome(c, file, errors, writes, sofar.bytes, sofar.report, false)
            else if t.end.Fine? then Underway(c, file, errors, writes, t.rest, t.errors, now)
            else Outcome(c, file, errors, writes, now.bytes, now.report, t.end.AtEnd?)
  {
    var t := ReadBytes(rest, left);
    var p, later := Piece(t.line, t.end.Failing?), Pieces(t.rest, t.errors);
    var lines := Upto(Pieces(file, errors));
    var whole, final := YieldOf(c, lines), StopReport(c, lines, writes);
    PiecesStep(rest, left);
    UptoCons(p, later);
    if t.line == [] {
      if p.failed { PieceStep(c, whole, final, writes, p, later, sofar); }
      LastRead(c, file, errors, writes, sofar, t.end.AtEnd?);
    } else {
      PieceStep(c, whole, final, writes, p, later, sofar);
      if ParseLine(c, t.line).Some? && writes == Some(sofar.records) {
        LastWrite(c, file, errors, writes, sofar);
      } else if !t.end.Fine? {
        LastRead(c, file, errors, writes, Then(sofar, LineYield(c, t.line)), t.end.AtEnd?);
      }
    }
  }

  lemma LineAdds(c: Codec, line: Bytes, before: Yield, record: Bytes, after: Yield)
    requires line != [] && record == LineYield(c, line).bytes
    requires record != [] <==> ParseLine(c, line).Some?
    requires after.bytes == if record != [] then before.bytes + record else before.bytes
    requires after.report == Plus(before.report, LineReport(c, line))
    requires after.records == before.records + One(record != [])
    ensures after == With(c, before, line)
  {
    assert before.bytes + [] == before.bytes;
  }

  /** One pass that re-encodes every line that decodes and counts the rest; stops at the first failed write and at the
      first read error. */
  method Rewrite(c: Codec, file: Bytes, errors: Errors, writes: Option<nat>)
    returns (out: Bytes, report: RepairReport, ok: bool)
    ensures Outcome(c, file, errors, writes, out, report, ok)
  {
    out, report := [], RepairReport(0, 0, 0, 0);
    var rest, left, written := file, errors, 0;
    RewriteStarts(c, file, errors, writes);
    while true
      invariant Underway(c, file, errors, writes, rest, left, Yield(out, report, written))
      decreases |rest|, left
    {
      var t := ReadBytes(rest, left);
      ghost var before, now := Yield(out, report, written), With(c, Yield(out, report, written), t.line);
      ReadStep(c, file, errors, writes, rest, left, before);
      rest, left := t.rest, t.errors;
      if t.line != [] {
        var more;
        more, report, ok := RewriteLine(c, t.line, report, writes.Some? && written == writes.value);
        if !ok {
          return out, report, false;
        }
        if more != [] {
          out, written := out + more, written + 1;
        }
        LineAdds(c, t.line, before, more, Yield(out, report, written));
      }
      assert Yield(out, report, written) == now;
      if !t.end.Fine? {
        return out, report, t.end.AtEnd?;
      }
    }
  }

  /** The record a line is rewritten to, if it decodes, and the report with it; unless that write fails. */
  method RewriteLine(c: Codec, line: Bytes, before: RepairReport, failing: bool)
    returns (record: Bytes, report: RepairReport, ok: bool)
    ensures ok <==> !(failing && ParseLine(c, line).Some?)
    ensures !ok ==> report == before
    ensures ok ==> record == LineYield(c, line).bytes && report == Plus(before, LineReport(c, line))
    ensures ok ==> (record != [] <==> ParseLine(c, line).Some?)
  {
    record := [];
    var parsed;
    parsed, report := JudgeLine(c, line, before);
    if parsed == None {
      return record, report, true;
    }
    if failing {
      return record, report, false;
    }
    record := c.Record(parsed.value);
    report := report.(validLines := report.validLines + 1, bytesWritten := report.bytesWritten + |record|);
    ok := true;
  }

  /** Decodes a line, counting it when it is invalid. */
  method JudgeLine(c: Codec, line: Bytes, before: RepairReport) returns (parsed: Option<Event>, report: RepairReport)
    ensures parsed == ParseLine(c, line)
    ensures report == if parsed == None then Plus(before, LineReport(c, line)) else before
  {
    report := before;
    var clean := Clean(line);
    if clean == [] {
      if NUL in line {
        report := report.(nullLines := report.nullLines + 1);
      }
      report := report.(invalidLines := report.invalidLines + 1);
      return None, report;
    }
    parsed := c.decode(clean);
    if parsed == None {
      report := report.(invalidLines := report.invalidLines + 1);
    }
  }
}
