/**
 The command-output logger (internal/executor/executor.go): arbitrary writes become bounded records.
 The chunked loops are proved to do what a machine fed one byte at a time does, and that machine is
 proved to cut its input into lines and the lines into pieces.
 */
module LineLogger {
  import opened MachineInts

  const RETURN: byte := 13
  const MAX_LOG_LINE: nat := 32 * 1024

  type Record = seq<byte>

  datatype Machine = Machine(buffer: seq<byte>, records: seq<Record>)

  const START := Machine([], [])

  function TrimReturn(line: seq<byte>): Record {
    if line != [] && line[|line| - 1] == RETURN then line[..|line| - 1] else line
  }

  /** `r` is `line` without one carriage return at its end, if it has one there. */
  ghost predicate Trims(r: Record, line: seq<byte>) {
    line == r + [13] || (line == r && (r == [] || r[|r| - 1] != 13))
  }

  function Flushed(m: Machine): Machine {
    if m.buffer == [] then m else Machine([], m.records + [TrimReturn(m.buffer)])
  }

  /** One byte: a newline ends the record, and so does a full buffer. */
  function Feed(m: Machine, b: byte): Machine {
    if b == NEWLINE then Flushed(m)
    else if |m.buffer| + 1 == MAX_LOG_LINE then Flushed(Machine(m.buffer + [b], m.records))
    else Machine(m.buffer + [b], m.records)
  }

  /** The machine after the bytes of `s` from `i` up to `j`. */
  function After(m: Machine, s: seq<byte>, i: nat, j: nat): Machine
    requires i <= j <= |s|
    decreases j
  {
    if i == j then m else Feed(After(m, s, i, j - 1), s[j - 1])
  }

  ghost predicate NoNewline(s: seq<byte>, i: nat, j: nat)
    requires i <= j <= |s|
  {
    forall k :: i <= k < j ==> s[k] != NEWLINE
  }

  lemma {:induction false} AfterSplit(m: Machine, s: seq<byte>, i: nat, j: nat, k: nat)
    requires i <= j <= k <= |s|
    ensures After(m, s, i, k) == After(After(m, s, i, j), s, j, k)
  {
    if j < k {
      AfterSplit(m, s, i, j, k - 1);
    }
  }

  /** Only the bytes matter, not the sequence they sit in. */
  lemma {:induction false} AfterInside(m: Machine, a: seq<byte>, b: seq<byte>, n: nat)
    requires n <= |b|
    ensures After(m, a + b, |a|, |a| + n) == After(m, b, 0, n)
  {
    if n > 0 {
      AfterInside(m, a, b, n - 1);
    }
  }

  lemma {:induction false} AfterPrefix(m: Machine, a: seq<byte>, b: seq<byte>, n: nat)
    requires n <= |a|
    ensures After(m, a + b, 0, n) == After(m, a, 0, n)
  {
    if n > 0 {
      AfterPrefix(m, a, b, n - 1);
    }
  }

  /** The machine `m` fed the first `k` bytes of `s` is `now`. */
  ghost predicate Fed(m: Machine, s: seq<byte>, k: nat, now: Machine) {
    k <= |s| && now == After(m, s, 0, k)
  }

  lemma FedMore(m: Machine, s: seq<byte>, j: nat, k: nat, now: Machine)
    requires Fed(m, s, j, now) && j <= k <= |s|
    ensures Fed(m, s, k, After(now, s, j, k))
  {
    AfterSplit(m, s, 0, j, k);
  }

  lemma FedLine(m: Machine, s: seq<byte>, k: nat, now: Machine)
    requires Fed(m, s, k, now) && k < |s| && s[k] == NEWLINE
    ensures Fed(m, s, k + 1, Flushed(now))
  {
  }

  /** A newline-free stretch that does not fill the buffer is simply appended. */
  lemma {:induction false} FeedFits(m: Machine, s: seq<byte>, i: nat, j: nat)
    requires i <= j <= |s| && NoNewline(s, i, j) && |m.buffer| + (j - i) < MAX_LOG_LINE
    ensures After(m, s, i, j) == m.(buffer := m.buffer + s[i..j])
  {
    if i < j {
      FeedFits(m, s, i, j - 1);
      OneByteMore(m.buffer, s, i, j);
    } else {
      assert m.buffer + s[i..j] == m.buffer;
    }
  }

  /** A piece that fits is appended, and the buffer flushed if that filled it. */
  lemma FeedPiece(m: Machine, s: seq<byte>, i: nat, j: nat)
    requires i < j <= |s| && NoNewline(s, i, j) && |m.buffer| + (j - i) <= MAX_LOG_LINE
    ensures var grown := m.(buffer := m.buffer + s[i..j]);
            After(m, s, i, j) == if |grown.buffer| == MAX_LOG_LINE then Flushed(grown) else grown
  {
    FeedFits(m, s, i, j - 1);
    OneByteMore(m.buffer, s, i, j);
    LastByte(m, s, i, j, After(m, s, i, j - 1));
  }

  lemma OneByteMore(buffer: seq<byte>, s: seq<byte>, i: nat, j: nat)
    requires i < j <= |s|
    ensures buffer + s[i..j - 1] + [s[j - 1]] == buffer + s[i..j]
  {
  }

  lemma LastByte(m: Machine, s: seq<byte>, i: nat, j: nat, before: Machine)
    requires i < j <= |s| && s[j - 1] != NEWLINE && before == m.(buffer := m.buffer + s[i..j - 1])
    requires m.buffer + s[i..j - 1] + [s[j - 1]] == m.buffer + s[i..j]
    ensures var grown := m.(buffer := m.buffer + s[i..j]);
            Feed(before, s[j - 1]) == if |grown.buffer| == MAX_LOG_LINE then Flushed(grown) else grown
  {
  }

  ghost predicate Bounded(records: seq<Record>) {
    forall r :: r in records ==> |r| <= MAX_LOG_LINE
  }

  class LineLogger {
    var buffer: seq<byte>
    var records: seq<Record>

    ghost predicate Valid() reads this {
      |buffer| < MAX_LOG_LINE && Bounded(records)
    }

    ghost function State(): Machine reads this {
      Machine(buffer, records)
    }

    constructor ()
      ensures Valid() && State() == START
    {
      buffer, records := [], [];
    }

    method Flush()
      requires |buffer| <= MAX_LOG_LINE && Bounded(records)
      modifies this
      ensures Valid() && State() == Flushed(old(State())) && buffer == []
      // What is buffered becomes one record, without a carriage return at its end; nothing buffered, no record.
      ensures old(buffer) == [] ==> records == old(records)
      ensures old(buffer) != [] ==>
                && |records| == |old(records)| + 1 && records[..|old(records)|] == old(records)
                && Trims(records[|old(records)|], old(buffer))
    {
      if |buffer| == 0 {
        return;
      }
      records := records + [TrimReturn(buffer)];
      buffer := [];
    }

    /** Appends the newline-free stretch of `s` from `start` to `end`; the slice advances with `pos`. */
    method Append(s: seq<byte>, start: nat, end: nat)
      requires Valid() && start <= end <= |s| && NoNewline(s, start, end)
      modifies this
      ensures Valid() && State() == After(old(State()), s, start, end)
    {
      var pos := start;
      while pos < end
        invariant start <= pos <= end && Valid()
        invariant State() == After(old(State()), s, start, pos)
      {
        var available := MAX_LOG_LINE - |buffer|;
        if available == 0 {
          // Between calls the buffer is never full: the source's extra flush here is dead.
          assert false;
        }
        if available > end - pos {
          available := end - pos;
        }
        AfterSplit(old(State()), s, start, pos, pos + available);
        Take(s, pos, pos + available);
        pos := pos + available;
      }
    }

    /** One round of the loop: append a piece that fits and flush a buffer it filled. */
    method Take(s: seq<byte>, start: nat, end: nat)
      requires Valid() && start < end <= |s| && NoNewline(s, start, end) && |buffer| + (end - start) <= MAX_LOG_LINE
      modifies this
      ensures Valid() && State() == After(old(State()), s, start, end)
    {
      FeedPiece(State(), s, start, end);
      buffer := buffer + s[start..end];
      if |buffer| == MAX_LOG_LINE {
        Flush();
      }
    }

    /** Always reports the whole input as written. */
    method Write(p: seq<byte>) returns (n: nat)
      requires Valid()
      modifies this
      ensures Valid() && n == |p| && State() == After(old(State()), p, 0, |p|)
    {
      n := |p|;
      var pos := 0;
      while pos < |p|
        invariant 0 <= pos <= |p| && Valid() && Fed(old(State()), p, pos, State())
      {
        var newline := IndexNewline(p, pos);
        if newline < 0 {
          FedMore(old(State()), p, pos, |p|, State());
          Append(p, pos, |p|);
          pos := |p|;
        } else {
          FedMore(old(State()), p, pos, newline, State());
          Append(p, pos, newline);
          FedLine(old(State()), p, newline, State());
          Flush();
          pos := newline + 1;
        }
      }
    }

    method Close()
      requires Valid()
      modifies this
      ensures Valid() && State() == Flushed(old(State()))
    {
      if |buffer| > 0 {
        Flush();
      }
    }
  }

  /** `bytes.IndexByte` for the newline, from `from` on; negative when there is none. */
  method IndexNewline(p: seq<byte>, from: nat) returns (k: int)
    requires from <= |p|
    ensures k < 0 ==> NoNewline(p, from, |p|)
    ensures k >= 0 ==> from <= k < |p| && p[k] == NEWLINE && NoNewline(p, from, k)
  {
    k := from;
    while k < |p|
      invariant from <= k <= |p| && NoNewline(p, from, k)
    {
      if p[k] == NEWLINE {
        return;
      }
      k := k + 1;
    }
    k := -1;
  }

  // What the records are, without reference to buffers or bytes in flight.

  function Concat(chunks: seq<seq<byte>>): seq<byte> {
    if chunks == [] then [] else Concat(chunks[..|chunks| - 1]) + chunks[|chunks| - 1]
  }

  /** `log` followed by the line from `i` to `j` in pieces of at most the maximum. */
  function Pieces(log: seq<Record>, s: seq<byte>, i: nat, j: nat): seq<Record>
    requires i <= j <= |s|
    decreases j - i
  {
    if i == j then log
    else
      var next := if j - i <= MAX_LOG_LINE then j else i + MAX_LOG_LINE;
      Pieces(log + [TrimReturn(s[i..next])], s, next, j)
  }

  /** Position of the first newline from `i` on, or the length. */
  function LineEnd(s: seq<byte>, i: nat): (k: nat)
    requires i <= |s|
    ensures i <= k <= |s| && NoNewline(s, i, k)
    ensures k < |s| ==> s[k] == NEWLINE
    decreases |s| - i
  {
    if i == |s| || s[i] == NEWLINE then i else LineEnd(s, i + 1)
  }

  /** `log` followed by every line from `i` on, in pieces. */
  function Log(log: seq<Record>, s: seq<byte>, i: nat): seq<Record>
    requires i <= |s|
    decreases |s| - i
  {
    var k := LineEnd(s, i);
    if k == |s| then Pieces(log, s, i, k) else Log(Pieces(log, s, i, k), s, k + 1)
  }

  /** A single piece, started on an empty buffer, becomes one record. */
  lemma OnePiece(records: seq<Record>, s: seq<byte>, i: nat, j: nat)
    requires i < j <= |s| && j - i <= MAX_LOG_LINE && NoNewline(s, i, j)
    ensures Flushed(After(Machine([], records), s, i, j)) == Machine([], records + [TrimReturn(s[i..j])])
    ensures j - i == MAX_LOG_LINE ==> After(Machine([], records), s, i, j).buffer == []
  {
    FeedPiece(Machine([], records), s, i, j);
    assert [] + s[i..j] == s[i..j];
  }

  lemma {:induction false} LineBecomesPieces(records: seq<Record>, s: seq<byte>, i: nat, j: nat)
    requires i <= j <= |s| && NoNewline(s, i, j)
    ensures Flushed(After(Machine([], records), s, i, j)) == Machine([], Pieces(records, s, i, j))
    decreases j - i
  {
    if i < j {
      var next := if j - i <= MAX_LOG_LINE then j else i + MAX_LOG_LINE;
      OnePiece(records, s, i, next);
      if next < j {
        AfterSplit(Machine([], records), s, i, next, j);
        LineBecomesPieces(records + [TrimReturn(s[i..next])], s, next, j);
      }
    }
  }

  /** The machine stands at the start of a line. */
  ghost predicate AtLine(s: seq<byte>, records: seq<Record>, i: nat) {
    i <= |s| && After(START, s, 0, i) == Machine([], records)
  }

  /** From one line start to the next. */
  lemma NextLine(s: seq<byte>, records: seq<Record>, i: nat, k: nat)
    requires AtLine(s, records, i) && i <= k < |s| && NoNewline(s, i, k) && s[k] == NEWLINE
    ensures AtLine(s, Pieces(records, s, i, k), k + 1)
  {
    LineBecomesPieces(records, s, i, k);
    AfterSplit(START, s, 0, i, k);
  }

  lemma LogNext(s: seq<byte>, log: seq<Record>, i: nat)
    requires i <= |s| && LineEnd(s, i) < |s|
    ensures Log(log, s, i) == Log(Pieces(log, s, i, LineEnd(s, i)), s, LineEnd(s, i) + 1)
  {
  }

  /** The machine, fed all of `s` and flushed, has emitted `log`. */
  ghost predicate Emits(s: seq<byte>, log: seq<Record>) {
    Flushed(After(START, s, 0, |s|)) == Machine([], log)
  }

  lemma LastLine(s: seq<byte>, records: seq<Record>, i: nat)
    requires AtLine(s, records, i) && NoNewline(s, i, |s|)
    ensures Emits(s, Pieces(records, s, i, |s|))
  {
    LineBecomesPieces(records, s, i, |s|);
    AfterSplit(START, s, 0, i, |s|);
  }

  /** From the start of a line on, line by line. */
  lemma {:induction false} LogsFrom(s: seq<byte>, records: seq<Record>, i: nat)
    requires AtLine(s, records, i)
    ensures Emits(s, Log(records, s, i))
    decreases |s| - i
  {
    var k := LineEnd(s, i);
    if k == |s| {
      LastLine(s, records, i);
    } else {
      NextLine(s, records, i, k);
      LogsFrom(s, Pieces(records, s, i, k), k + 1);
      LogNext(s, records, i);
    }
  }

  // Where in the output the records are from.

  ghost predicate Newlines(s: seq<byte>, a: nat, b: nat) {
    a <= b <= |s| && forall k :: a <= k < b ==> s[k] == 10
  }

  /** Record `r` is the stretch from `a` to `b`: within a line, and no longer than the bound. */
  ghost predicate IsPiece(s: seq<byte>, r: Record, a: nat, b: nat) {
    a < b <= |s| && b - a <= 32768 && (forall k :: a <= k < b ==> s[k] != 10) && Trims(r, s[a..b])
  }

  datatype Span = Span(start: nat, end: nat)

  /** If the last span ends at `i` itself, without a newline between, then because it is full. */
  ghost predicate FullAt(spans: seq<Span>, i: nat) {
    spans != [] ==>
      var last := spans[|spans| - 1];
      last.end == i ==> last.end - last.start == 32768
  }

  /**
   The records are exactly what the output holds up to `n`, in order: each is the piece under its span, between
   two pieces there are newlines and nothing else, and none at all only after a full piece.
   */
  ghost predicate Cut(s: seq<byte>, records: seq<Record>, spans: seq<Span>, n: nat) {
    if spans == [] then records == [] && Newlines(s, 0, n)
    else
      var m := |spans| - 1;
      && |records| == m + 1 && IsPiece(s, records[m], spans[m].start, spans[m].end)
      && Newlines(s, spans[m].end, n)
      && Cut(s, records[..m], spans[..m], spans[m].start) && FullAt(spans[..m], spans[m].start)
  }

  /** There is such a cut. */
  ghost predicate IsCut(s: seq<byte>, records: seq<Record>, n: nat) {
    exists spans :: Cut(s, records, spans, n)
  }

  /** There is one after which the next piece may begin at `n`. */
  ghost predicate CutBefore(s: seq<byte>, records: seq<Record>, n: nat) {
    exists spans :: Cut(s, records, spans, n) && FullAt(spans, n)
  }

  lemma CutAppend(s: seq<byte>, records: seq<Record>, spans: seq<Span>, r: Record, i: nat, j: nat)
    requires Cut(s, records, spans, i) && FullAt(spans, i) && IsPiece(s, r, i, j)
    ensures Cut(s, records + [r], spans + [Span(i, j)], j)
  {
    assert (records + [r])[..|spans|] == records && (spans + [Span(i, j)])[..|spans|] == spans;
  }

  lemma CutPiece(s: seq<byte>, records: seq<Record>, r: Record, i: nat, j: nat)
    requires CutBefore(s, records, i) && IsPiece(s, r, i, j)
    ensures IsCut(s, records + [r], j)
    ensures j - i == 32768 ==> CutBefore(s, records + [r], j)
  {
    var spans :| Cut(s, records, spans, i) && FullAt(spans, i);
    CutAppend(s, records, spans, r, i, j);
    assert FullAt(spans + [Span(i, j)], j) <==> j - i == 32768;
  }

  lemma CutNewline(s: seq<byte>, records: seq<Record>, i: nat)
    requires IsCut(s, records, i) && i < |s| && s[i] == 10
    ensures CutBefore(s, records, i + 1)
  {
    var spans :| Cut(s, records, spans, i);
    assert Cut(s, records, spans, i + 1) && FullAt(spans, i + 1);
  }

  lemma TrimReturnTrims(line: seq<byte>)
    ensures Trims(TrimReturn(line), line)
  {
  }

  lemma {:induction false} PiecesCut(log: seq<Record>, s: seq<byte>, i: nat, j: nat)
    requires i <= j <= |s| && NoNewline(s, i, j) && CutBefore(s, log, i)
    ensures IsCut(s, Pieces(log, s, i, j), j)
    decreases j - i
  {
    if i < j {
      var next := if j - i <= MAX_LOG_LINE then j else i + MAX_LOG_LINE;
      TrimReturnTrims(s[i..next]);
      CutPiece(s, log, TrimReturn(s[i..next]), i, next);
      PiecesNext(log, s, i, j);
      if next < j {
        PiecesCut(log + [TrimReturn(s[i..next])], s, next, j);
      }
    }
  }

  lemma PiecesNext(log: seq<Record>, s: seq<byte>, i: nat, j: nat)
    requires i < j <= |s|
    ensures var next := if j - i <= MAX_LOG_LINE then j else i + MAX_LOG_LINE;
            var more := log + [TrimReturn(s[i..next])];
            Pieces(log, s, i, j) == if next == j then more else Pieces(more, s, next, j)
  {
  }

  lemma LogLast(s: seq<byte>, log: seq<Record>, i: nat)
    requires i <= |s| && LineEnd(s, i) == |s|
    ensures Log(log, s, i) == Pieces(log, s, i, |s|)
  {
  }

  lemma LineCut(log: seq<Record>, s: seq<byte>, i: nat, k: nat)
    requires i <= k <= |s| && NoNewline(s, i, k) && (k < |s| ==> s[k] == NEWLINE) && CutBefore(s, log, i)
    ensures if k == |s| then IsCut(s, Pieces(log, s, i, k), k) else CutBefore(s, Pieces(log, s, i, k), k + 1)
  {
    PiecesCut(log, s, i, k);
    if k < |s| {
      CutNewline(s, Pieces(log, s, i, k), k);
    }
  }

  lemma {:induction false} LogCut(log: seq<Record>, s: seq<byte>, i: nat)
    requires i <= |s| && CutBefore(s, log, i)
    ensures IsCut(s, Log(log, s, i), |s|)
    decreases |s| - i
  {
    var k := LineEnd(s, i);
    LineCut(log, s, i, k);
    if k < |s| {
      LogNext(s, log, i);
      LogCut(Pieces(log, s, i, k), s, k + 1);
    } else {
      LogLast(s, log, i);
    }
  }

  /** The log is a cut of the whole output. */
  lemma LogIsCut(s: seq<byte>)
    ensures IsCut(s, Log([], s, 0), |s|)
  {
    assert Cut(s, [], [], 0) && FullAt([], 0);
    LogCut([], s, 0);
  }

  /** The machine started empty and flushed at the end has emitted exactly the log. */
  lemma MachineLogs(s: seq<byte>)
    ensures Emits(s, Log([], s, 0))
  {
    LogsFrom(s, [], 0);
  }

  /**
   Any split of the output into writes, followed by close, logs the same records: those of the
   concatenation, each within the bound.
   */
  method LogChunks(chunks: seq<seq<byte>>) returns (records: seq<Record>)
    ensures records == Log([], Concat(chunks), 0)
    ensures Bounded(records)
    ensures IsCut(Concat(chunks), records, |Concat(chunks)|)
  {
    var w := new LineLogger();
    for i := 0 to |chunks|
      invariant w.Valid()
      invariant var whole := Concat(chunks[..i]); w.State() == After(START, whole, 0, |whole|)
    {
      ghost var whole, chunk := Concat(chunks[..i]), chunks[i];
      assert chunks[..i + 1][..i] == chunks[..i];
      AfterPrefix(START, whole, chunk, |whole|);
      AfterInside(w.State(), whole, chunk, |chunk|);
      AfterSplit(START, whole + chunk, 0, |whole|, |whole + chunk|);
      var _ := w.Write(chunks[i]);
    }
    w.Close();
    assert chunks[..|chunks|] == chunks;
    MachineLogs(Concat(chunks));
    LogIsCut(Concat(chunks));
    records := w.records;
  }
}
