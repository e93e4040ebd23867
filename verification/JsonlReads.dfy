/** What a query answers when reading the file fails on the way. */
module JsonlReads {
  import opened Events
  import opened Sums
  import opened Jsonl
  import opened JsonlRuns

  /** A single error. */
  function ErrorAt(n: nat): Errors {
    ErrorAfter(n, NoErrors)
  }

  function LinesOf(pieces: seq<Piece>): seq<Bytes> {
    if pieces == [] then [] else [pieces[0].line] + LinesOf(pieces[1..])
  }

  /** Whatever errors strike on the way, what is handed out is the whole file in order. */
  lemma {:induction false} PiecesCutTheFile(file: Bytes, errors: Errors)
    ensures Joined(LinesOf(Pieces(file, errors))) == file
    decreases |file|, errors
  {
    var t := ReadBytes(file, errors);
    PiecesStep(file, errors);
    ReadCuts(file, errors);
    if !(t.end.AtEnd? && t.line == []) {
      PiecesCutTheFile(t.rest, t.errors);
      var p, later := Piece(t.line, t.end.Failing?), Pieces(t.rest, t.errors);
      assert ([p] + later)[1..] == later;
      assert ([t.line] + LinesOf(later))[1..] == LinesOf(later);
    }
  }

  lemma KeptOfFirst(c: Codec, line: Bytes, later: seq<Bytes>, keep: Event -> bool)
    ensures Filtered(ParseAll(c, [line] + later), keep) == KeptOf(c, line, keep) + Filtered(ParseAll(c, later), keep)
  {
    var rest := ParseAll(c, later);
    ParseAllConcat(c, [line], later);
    ParseAllSingle(c, line);
    match ParseLine(c, line)
    case None =>
      assert [] + rest == rest;
      assert [] + Filtered(rest, keep) == Filtered(rest, keep);
    case Some(e) =>
      FilteredConcat([e], rest, keep);
      FilteredSnoc([], e, keep);
      assert [] + [e] == [e];
  }

  /** Reading fails exactly when some error is reported; if none is, every piece has been heard. */
  lemma {:induction false} HeardIff(c: Codec, pieces: seq<Piece>, keep: Event -> bool)
    ensures Heard(c, pieces, keep) == None <==> exists i :: 0 <= i < |pieces| && Reported(c, pieces[i], keep)
    ensures Heard(c, pieces, keep).Some? ==>
              Heard(c, pieces, keep).value == Filtered(ParseAll(c, LinesOf(pieces)), keep)
  {
    if pieces != [] {
      var later := pieces[1..];
      HeardIff(c, later, keep);
      KeptOfFirst(c, pieces[0].line, LinesOf(later), keep);
      if i :| 0 <= i < |later| && Reported(c, later[i], keep) { assert pieces[i + 1] == later[i]; }
      if i :| 0 < i < |pieces| && Reported(c, pieces[i], keep) { assert pieces[i] == later[i - 1]; }
    }
  }

  /** Lines read without an error. */
  function AsRead(lines: seq<Bytes>): seq<Piece> {
    if lines == [] then [] else [Piece(lines[0], false)] + AsRead(lines[1..])
  }

  lemma AsReadCons(line: Bytes, later: seq<Bytes>)
    ensures AsRead([line] + later) == [Piece(line, false)] + AsRead(later)
  {
    assert ([line] + later)[1..] == later;
  }

  /** Reading without errors reads lines. */
  lemma {:induction false} ReadsLines(file: Bytes)
    ensures Pieces(file, NoErrors) == AsRead(Lines(file))
    decreases |file|
  {
    var t := ReadBytes(file, NoErrors);
    PiecesStep(file, NoErrors);
    if file != [] {
      ReadsLines(t.rest);
      ReadCuts(file, NoErrors);
      LinesHead(file, |t.line|);
      AsReadCons(t.line, Lines(t.rest));
    }
  }

  lemma ReadFine(file: Bytes, line: Bytes, rest: Bytes, at: nat)
    requires file == line + rest && LineLength(file) == |line| <= at && EndsLine(line)
    ensures ReadBytes(file, ErrorAt(at)) == Took(line, Fine, rest, ErrorAt(at - |line|))
  {
    assert file[..|line|] == line && file[|line|..] == rest;
  }

  lemma SplitOff(file: Bytes, a: Bytes, line: Bytes, rest: Bytes, more: Bytes)
    requires file == a + more && a == line + rest
    ensures |line| <= |file| && file == line + file[|line|..] && file[|line|..] == rest + more
  {
  }

  /** The first line of some whole lines, whatever comes after them. */
  lemma FirstOfWhole(file: Bytes, a: Bytes, n: nat, more: Bytes)
    requires file == a + more && a != [] && Terminated(a) && n == LineLength(a)
    ensures EndsLine(a[..n]) && Terminated(a[n..]) && LineLength(file) == n
  {
    LineLengthStable(a, more);
    FirstNewline(a);
  }

  lemma PiecesCons(file: Bytes, line: Bytes, rest: Bytes, at: nat, left: nat)
    requires file == line + rest && LineLength(file) == |line| && EndsLine(line) && at == |line| + left
    ensures Pieces(file, ErrorAt(at)) == [Piece(line, false)] + Pieces(rest, ErrorAt(left))
  {
    ReadFine(file, line, rest, at);
    PiecesStep(file, ErrorAt(at));
  }

  lemma AsReadAfter(pieces: seq<Piece>, line: Bytes, later: seq<Piece>, lines: seq<Bytes>, tail: seq<Piece>)
    requires pieces == [Piece(line, false)] + later && later == AsRead(lines) + tail
    ensures pieces == AsRead([line] + lines) + tail
  {
    AsReadCons(line, lines);
  }

  /** An error past some whole lines leaves them as they are. */
  lemma {:induction false} LinesBeforeError(file: Bytes, at: nat, a: Bytes, more: Bytes, left: nat)
    requires file == a + more && Terminated(a) && at == |a| + left
    ensures Pieces(file, ErrorAt(at)) == AsRead(Lines(a)) + Pieces(more, ErrorAt(left))
    decreases |a|
  {
    if a == [] {
      assert file == more;
    } else {
      var n := LineLength(a);
      var line, rest := a[..n], a[n..];
      FirstOfWhole(file, a, n, more);
      TakeDrop(a, n);
      SplitOff(file, a, line, rest, more);
      var back, then' := file[|line|..], |rest| + left;
      PiecesCons(file, line, back, at, then');
      LinesBeforeError(back, then', rest, more, left);
      LinesHead(a, n);
      AsReadAfter(Pieces(file, ErrorAt(at)), line, Pieces(back, ErrorAt(then')), Lines(rest),
                  Pieces(more, ErrorAt(left)));
    }
  }

  /** An error inside a line cuts it in two. */
  lemma ErrorCuts(piece: Bytes, rest: Bytes)
    requires NEWLINE !in piece
    ensures Pieces(piece + rest, ErrorAt(|piece|)) == [Piece(piece, true)] + Pieces(rest, NoErrors)
  {
    var k := |piece|;
    LengthPast(piece, rest);
    assert (piece + rest)[..k] == piece && (piece + rest)[k..] == rest;
    assert ReadBytes(piece + rest, ErrorAt(k)) == Took(piece, Failing, rest, NoErrors);
    PiecesStep(piece + rest, ErrorAt(k));
  }

  /** A line is at least as long as any start of it, and exactly as long only when that is all there is. */
  lemma {:induction false} LengthPast(piece: Bytes, rest: Bytes)
    requires NEWLINE !in piece
    ensures LineLength(piece + rest) >= |piece|
    ensures LineLength(piece + rest) == |piece| ==> !EndsLine((piece + rest)[..|piece|])
  {
    assert (piece + rest)[..|piece|] == piece;
    if piece != [] {
      assert (piece + rest)[1..] == piece[1..] + rest;
      LengthPast(piece[1..], rest);
    }
  }

  lemma {:induction false} HeardPastLines(c: Codec, lines: seq<Bytes>, later: seq<Piece>, keep: Event -> bool)
    ensures Heard(c, AsRead(lines) + later, keep) ==
            Followed(Filtered(ParseAll(c, lines), keep), Heard(c, later, keep))
  {
    var heard := Heard(c, later, keep);
    if lines == [] {
      assert [] + later == later;
      if heard.Some? { assert [] + heard.value == heard.value; }
    } else {
      var p, front := Piece(lines[0], false), AsRead(lines[1..]);
      HeardPastLines(c, lines[1..], later, keep);
      Regroup([p], front, later);
      HeardCons(c, p, front + later, keep);
      assert lines == [lines[0]] + lines[1..];
      KeptOfFirst(c, lines[0], lines[1..], keep);
      if heard.Some? {
        Regroup(KeptOf(c, lines[0], keep), Filtered(ParseAll(c, lines[1..]), keep), heard.value);
      }
    }
  }

  lemma HeardOfLines(c: Codec, file: Bytes, keep: Event -> bool)
    ensures Heard(c, Pieces(file, NoErrors), keep) == Some(Filtered(Decoded(c, file), keep))
  {
    ReadsLines(file);
    HeardPastLines(c, Lines(file), [], keep);
    assert AsRead(Lines(file)) + [] == AsRead(Lines(file));
    assert Filtered(Decoded(c, file), keep) + [] == Filtered(Decoded(c, file), keep);
  }

  /** Where no read fails, the reply is the answer. */
  lemma UndisturbedReply(c: Codec, file: Bytes, q: EventQuery)
    ensures Reply(c, file, NoErrors, q) == Some(Answer(c, file, q))
  {
    HeardOfLines(c, file, Keep(q));
  }

  lemma HeardFrom(c: Codec, back: Bytes, piece: Bytes, rest: Bytes, keep: Event -> bool)
    requires back == piece + rest && NEWLINE !in piece
    ensures Heard(c, Pieces(back, ErrorAt(|piece|)), keep) ==
            if piece == [] || KeptOf(c, piece, keep) != [] then None else Some(Filtered(Decoded(c, rest), keep))
  {
    var p, found := Piece(piece, true), Filtered(Decoded(c, rest), keep);
    ErrorCuts(piece, rest);
    HeardCons(c, p, Pieces(rest, NoErrors), keep);
    HeardOfLines(c, rest, keep);
    assert [] + found == found;
  }

  lemma HeardBehind(c: Codec, file: Bytes, a: Bytes, back: Bytes, at: nat, left: nat, keep: Event -> bool)
    requires file == a + back && Terminated(a) && at == |a| + left
    ensures Heard(c, Pieces(file, ErrorAt(at)), keep) ==
            Followed(Filtered(Decoded(c, a), keep), Heard(c, Pieces(back, ErrorAt(left)), keep))
  {
    LinesBeforeError(file, at, a, back, left);
    HeardPastLines(c, Lines(a), Pieces(back, ErrorAt(left)), keep);
  }

  lemma HeardTogether(c: Codec, a: Bytes, rest: Bytes, keep: Event -> bool, lost: bool, behind: Option<seq<Event>>)
    requires behind == if lost then None else Some(Filtered(Decoded(c, rest), keep))
    ensures Followed(Filtered(Decoded(c, a), keep), behind) ==
            if lost then None else Some(Filtered(Decoded(c, a) + Decoded(c, rest), keep))
  {
    FilteredConcat(Decoded(c, a), Decoded(c, rest), keep);
  }

  /** What is heard when an error comes with a piece. */
  lemma HeardTorn(c: Codec, file: Bytes, at: nat, a: Bytes, back: Bytes, piece: Bytes, rest: Bytes,
                  keep: Event -> bool)
    requires file == a + back && back == piece + rest && at == |a| + |piece|
    requires Terminated(a) && NEWLINE !in piece
    ensures Heard(c, Pieces(file, ErrorAt(at)), keep) ==
            if piece == [] || KeptOf(c, piece, keep) != [] then None
            else Some(Filtered(Decoded(c, a) + Decoded(c, rest), keep))
  {
    HeardBehind(c, file, a, back, at, |piece|, keep);
    HeardFrom(c, back, piece, rest, keep);
    HeardTogether(c, a, rest, keep, piece == [] || KeptOf(c, piece, keep) != [],
                  Heard(c, Pieces(back, ErrorAt(|piece|)), keep));
  }

  lemma KeptIff(c: Codec, piece: Bytes, q: EventQuery)
    ensures KeptOf(c, piece, Keep(q)) != [] <==>
            ParseLine(c, piece).Some? && MatchesQuery(ParseLine(c, piece).value, q)
  {
  }

  /** One read error, wherever it strikes: after whole lines `a` and a piece of the line that follows. It is reported if
      and only if nothing of that line had been read or the piece by itself decodes to a matching event. Otherwise
      reading goes on behind the piece, and the reply is of the lines before and of what is left. */
  lemma ReadErrorReportedIff(c: Codec, file: Bytes, at: nat, a: Bytes, piece: Bytes, rest: Bytes, q: EventQuery)
    requires file == a + (piece + rest) && at == |a| + |piece| && Terminated(a) && NEWLINE !in piece
    ensures Reply(c, file, ErrorAt(at), q) ==
            if piece == [] || (ParseLine(c, piece).Some? && MatchesQuery(ParseLine(c, piece).value, q)) then None
            else Some(LastOf(Filtered(Decoded(c, a) + Decoded(c, rest), Keep(q)), Limit(q)))
  {
    HeardTorn(c, file, at, a, piece + rest, piece, rest, Keep(q));
    KeptIff(c, piece, q);
  }

  /** The answer past a piece that does not decode. */
  lemma ReplyPast(c: Codec, file: Bytes, at: nat, a: Bytes, piece: Bytes, rest: Bytes, q: EventQuery)
    requires file == a + (piece + rest) && at == |a| + |piece|
    requires Terminated(a) && NEWLINE !in piece && piece != [] && ParseLine(c, piece) == None
    ensures Reply(c, file, ErrorAt(at), q) == Some(Answer(c, a + rest, q))
  {
    ReadErrorReportedIff(c, file, at, a, piece, rest, q);
    DecodedConcat(c, a, rest);
  }

  /** A line that does not decode might as well not be there. */
  lemma DroppedLine(c: Codec, a: Bytes, line: Bytes, b: Bytes, q: EventQuery)
    requires Terminated(a) && NEWLINE !in line && ParseLine(c, line + [NEWLINE]) == None
    ensures Answer(c, a + (line + [NEWLINE] + b), q) == Answer(c, a + b, q)
  {
    DecodedConcat(c, a, line + [NEWLINE] + b);
    DecodedConcat(c, a, b);
    DecodedConcat(c, line + [NEWLINE], b);
    SingleLine(line);
    ParseAllSingle(c, line + [NEWLINE]);
    assert [] + Decoded(c, b) == Decoded(c, b);
  }

  lemma RecordInTwo(c: Codec, e: Event, n: nat, piece: Bytes, left: Bytes)
    requires c.Lawful() && 0 < n < |c.encode(e)| && piece == c.encode(e)[..n] && left == c.encode(e)[n..]
    ensures c.Record(e) == piece + (left + [NEWLINE])
    ensures |piece| == n && piece != [] && NEWLINE !in piece && NEWLINE !in left && ParseLine(c, piece) == None
  {
    assert c.Framed(c.encode(e));
    PieceParses(c, e, n);
  }

  lemma Regrouped(file: Bytes, a: Bytes, record: Bytes, piece: Bytes, left: Bytes, b: Bytes)
    requires file == a + (record + b) && record == piece + left
    ensures file == a + (piece + (left + b))
  {
    Regroup(piece, left, b);
  }

  /** So an error inside a record, `n` bytes into it, is never reported: the query answers without a word as if the
      line held only what was left of it, and where that does not decode, as if the record were not in the file. */
  lemma TornReadLosesRecord(c: Codec, file: Bytes, at: nat, a: Bytes, e: Event, n: nat, b: Bytes, q: EventQuery)
    requires c.Lawful() && file == a + (c.Record(e) + b) && Terminated(a)
    requires 0 < n < |c.encode(e)| && at == |a| + n
    ensures var line, reply := c.encode(e)[n..] + [NEWLINE], Reply(c, file, ErrorAt(at), q);
            && reply == Some(Answer(c, a + (line + b), q))
            && (ParseLine(c, line) == None ==> reply == Some(Answer(c, a + b, q)))
  {
    var piece, left := c.encode(e)[..n], c.encode(e)[n..];
    RecordInTwo(c, e, n, piece, left);
    Regrouped(file, a, c.Record(e), piece, left + [NEWLINE], b);
    ReplyPast(c, file, at, a, piece, left + [NEWLINE] + b, q);
    if ParseLine(c, left + [NEWLINE]) == None { DroppedLine(c, a, left, b, q); }
  }
}
