/**
 Resynchronisation of the guest-agent stream (backend/qemu/internal/qga/qga.go), which implements the
 0xff sentinel of section 2.6 of the QEMU Machine Protocol Specification. A fresh connection may find
 replies to an earlier connection still in the stream; `Synchronize` discards them.
 */
module QgaSync {
  import opened Wrappers
  import opened MachineInts

  const SENTINEL: byte := 0xff
  datatype ScanError = Io | LimitExceeded

  /**
   Where the unbounded scan settles: after the first line whose part behind its first sentinel is
   accepted as the reply to the constant sync id. `line` is where that part began, once seen.
   */
  function Settles(data: seq<byte>, pos: nat, line: Option<nat>, accept: seq<byte> -> bool): (r: Option<nat>)
    requires pos <= |data| && (line.Some? ==> line.value <= pos)
    ensures r.Some? ==> pos < r.value <= |data| && data[r.value - 1] == NEWLINE
    decreases |data| - pos
  {
    if pos == |data| then None
    else match line
      case None => Settles(data, pos + 1, if data[pos] == SENTINEL then Some(pos + 1) else None, accept)
      case Some(begin) =>
        if data[pos] != NEWLINE then Settles(data, pos + 1, line, accept)
        else if accept(data[begin..pos]) then Some(pos + 1)
        else Settles(data, pos + 1, None, accept)
  }

  ghost predicate Free(data: seq<byte>, from: nat, stop: nat, b: byte) {
    from <= stop <= |data| && forall i :: from <= i < stop ==> data[i] != b
  }

  lemma {:induction false} SkipToSentinel(data: seq<byte>, pos: nat, stop: nat, accept: seq<byte> -> bool)
    requires pos <= stop && Free(data, pos, stop, SENTINEL)
    ensures Settles(data, pos, None, accept) == Settles(data, stop, None, accept)
    decreases stop - pos
  {
    if pos < stop {
      SkipToSentinel(data, pos + 1, stop, accept);
    }
  }

  lemma {:induction false} SkipToNewline(data: seq<byte>, begin: nat, pos: nat, stop: nat, accept: seq<byte> -> bool)
    requires begin <= pos <= stop && Free(data, pos, stop, NEWLINE)
    ensures Settles(data, pos, Some(begin), accept) == Settles(data, stop, Some(begin), accept)
    decreases stop - pos
  {
    if pos < stop {
      SkipToNewline(data, begin, pos + 1, stop, accept);
    }
  }

  /** Where `b` is found from `pos` on behind at most `limit` others, or why not: too far away, or no more data. */
  function Within(data: seq<byte>, pos: nat, limit: nat, b: byte): (r: Result<nat, ScanError>)
    requires pos <= |data|
    ensures r.Ok? ==> pos <= r.value < |data| && data[r.value] == b && Free(data, pos, r.value, b)
    ensures r == Err(LimitExceeded) ==> Free(data, pos, pos + limit + 1, b)
    ensures r == Err(Io) ==> Free(data, pos, |data|, b)
    decreases limit
  {
    if pos == |data| then Err(Io)
    else if data[pos] == b then Ok(pos)
    else if limit == 0 then Err(LimitExceeded)
    else Within(data, pos + 1, limit - 1, b)
  }

  /** Where the bounded scan settles, or why it does not. */
  function Scanned(data: seq<byte>, pos: nat, limit: nat, accept: seq<byte> -> bool): (r: Result<nat, ScanError>)
    requires pos <= |data|
    ensures r.Ok? ==> r.value <= |data|
    decreases |data| - pos
  {
    match Within(data, pos, limit, SENTINEL)
    case Err(e) => Err(e)
    case Ok(at) =>
      match Within(data, at + 1, limit, NEWLINE)
      case Err(e) => Err(e)
      case Ok(end) =>
        if accept(data[at + 1..end]) then Ok(end + 1) else Scanned(data, end + 1, limit, accept)
  }

  /** A stretch of more than `limit` bytes without a sentinel, or without a newline. */
  ghost predicate Overlong(data: seq<byte>, limit: nat, i: nat) {
    Free(data, i, i + limit + 1, SENTINEL) || Free(data, i, i + limit + 1, NEWLINE)
  }

  /** One sentinel and one newline further. */
  lemma SettlesRound(data: seq<byte>, pos: nat, at: nat, end: nat, accept: seq<byte> -> bool)
    requires pos <= at < end < |data| && data[at] == SENTINEL && data[end] == NEWLINE
    requires Free(data, pos, at, SENTINEL) && Free(data, at + 1, end, NEWLINE)
    ensures Settles(data, pos, None, accept) ==
            if accept(data[at + 1..end]) then Some(end + 1) else Settles(data, end + 1, None, accept)
  {
    SkipToSentinel(data, pos, at, accept);
    SkipToNewline(data, at + 1, at + 1, end, accept);
  }

  /** Without another sentinel, or a newline behind it, there is nothing to settle on. */
  lemma NothingToSettle(data: seq<byte>, pos: nat, at: nat, accept: seq<byte> -> bool)
    requires pos <= at <= |data| && Free(data, pos, at, SENTINEL)
    requires at < |data| ==> data[at] == SENTINEL && Free(data, at + 1, |data|, NEWLINE)
    ensures Settles(data, pos, None, accept) == None
  {
    SkipToSentinel(data, pos, at, accept);
    if at < |data| {
      SkipToNewline(data, at + 1, at + 1, |data|, accept);
    }
  }

  /** A result of the bounded scan that the unbounded one confirms; the bound itself says nothing about it. */
  ghost predicate Confirmed(data: seq<byte>, pos: nat, r: Result<nat, ScanError>, accept: seq<byte> -> bool)
    requires pos <= |data|
  {
    && (r.Ok? ==> Settles(data, pos, None, accept) == Some(r.value))
    && (r == Err(Io) ==> Settles(data, pos, None, accept) == None)
  }

  lemma ConfirmedRound(
    data: seq<byte>, pos: nat, at: nat, end: nat, r: Result<nat, ScanError>, accept: seq<byte> -> bool)
    requires pos <= at < end < |data| && data[at] == SENTINEL && data[end] == NEWLINE
    requires Free(data, pos, at, SENTINEL) && Free(data, at + 1, end, NEWLINE)
    requires if accept(data[at + 1..end]) then r == Ok(end + 1) else Confirmed(data, end + 1, r, accept)
    ensures Confirmed(data, pos, r, accept)
  {
    SettlesRound(data, pos, at, end, accept);
  }

  /** Short of its bound the scan agrees with the unbounded one. */
  lemma {:induction false} ScannedSettles(data: seq<byte>, pos: nat, limit: nat, accept: seq<byte> -> bool)
    requires pos <= |data|
    ensures Confirmed(data, pos, Scanned(data, pos, limit, accept), accept)
    decreases |data| - pos
  {
    var sentinel := Within(data, pos, limit, SENTINEL);
    if sentinel.Ok? {
      var newline := Within(data, sentinel.value + 1, limit, NEWLINE);
      if newline.Ok? {
        ScannedSettles(data, newline.value + 1, limit, accept);
        ConfirmedRound(data, pos, sentinel.value, newline.value, Scanned(data, pos, limit, accept), accept);
      } else if newline.error == Io {
        NothingToSettle(data, pos, sentinel.value, accept);
      }
    } else if sentinel.error == Io {
      NothingToSettle(data, pos, |data|, accept);
    }
  }

  /** The bound makes a difference only where there is an overlong stretch. */
  lemma {:induction false} LimitMeansOverlong(data: seq<byte>, pos: nat, limit: nat, accept: seq<byte> -> bool)
    returns (i: nat)
    requires pos <= |data| && Scanned(data, pos, limit, accept) == Err(LimitExceeded)
    ensures Overlong(data, limit, i)
    decreases |data| - pos
  {
    var sentinel := Within(data, pos, limit, SENTINEL);
    if sentinel.Err? {
      return pos;
    }
    i := sentinel.value + 1;
    var newline := Within(data, i, limit, NEWLINE);
    if newline.Ok? {
      i := LimitMeansOverlong(data, newline.value + 1, limit, accept);
    }
  }

  /**
   A buffered connection whose reads can fail at any time, by the peer, a timeout or an interrupt: `faults`
   counts those. Reading past the data that arrives fails too.
   */
  class Reader {
    const data: seq<byte>
    var pos: nat
    ghost var faults: nat

    ghost predicate Valid() reads this {
      pos <= |data|
    }

    constructor (data: seq<byte>)
      ensures Valid() && this.data == data && pos == 0
    {
      this.data, pos, faults := data, 0, 0;
    }

    method ReadByte() returns (r: Result<byte, ScanError>)
      requires Valid()
      modifies this
      ensures Valid() && faults >= old(faults)
      ensures r.Err? ==> r.error == Io && pos == old(pos) && (pos == |data| || faults > old(faults))
      ensures r.Ok? ==> old(pos) < |data| && r.value == data[old(pos)] && pos == old(pos) + 1
    {
      if pos == |data| {
        return Err(Io);
      }
      var fails: bool := *;
      if fails {
        faults := faults + 1;
        return Err(Io);
      }
      r := Ok(data[pos]);
      pos := pos + 1;
    }

    /** Consumes up to and including `delimiter`; gives up on the byte after `limit` others. */
    method ReadDelimited(delimiter: byte, limit: nat, retain: bool) returns (r: Result<seq<byte>, ScanError>)
      requires Valid()
      modifies this
      ensures Valid() && old(pos) <= pos && faults >= old(faults)
      ensures r.Ok? ==> && old(pos) < pos <= old(pos) + limit + 1 && data[pos - 1] == delimiter
                        && Free(data, old(pos), pos - 1, delimiter)
                        && r.value == if retain then data[old(pos)..pos - 1] else []
      ensures r == Err(LimitExceeded) ==> pos == old(pos) + limit + 1 && Free(data, old(pos), pos, delimiter)
      // Without a failed read the result is decided by where the delimiter is.
      ensures r.Ok? ==> Within(data, old(pos), limit, delimiter) == Ok(pos - 1)
      ensures r.Err? && faults == old(faults) ==> Within(data, old(pos), limit, delimiter) == Err(r.error)
    {
      var result: seq<byte> := [];
      var size := 0;
      while true
        invariant 0 <= size <= limit && Valid() && pos == old(pos) + size && Free(data, old(pos), pos, delimiter)
        invariant result == if retain then data[old(pos)..pos] else []
        invariant faults >= old(faults)
        invariant Within(data, old(pos), limit, delimiter) == Within(data, pos, limit - size, delimiter)
        decreases |data| - pos
      {
        var b :- ReadByte();
        if b == delimiter {
          return Ok(result);
        }
        if size >= limit {
          return Err(LimitExceeded);
        }
        if retain {
          result := result + [b];
        }
        size := size + 1;
      }
    }

    /** One turn of the loop: to the next sentinel, then to the end of its line. */
    method ScanLine(limit: nat, accept: seq<byte> -> bool) returns (r: Result<bool, ScanError>)
      requires Valid()
      modifies this
      ensures Valid() && faults >= old(faults)
      ensures r.Ok? ==> old(pos) < pos && Scanned(data, old(pos), limit, accept) ==
                                          if r.value then Ok(pos) else Scanned(data, pos, limit, accept)
      ensures r.Err? && faults == old(faults) ==> Scanned(data, old(pos), limit, accept) == Err(r.error)
    {
      var _ :- ReadDelimited(SENTINEL, limit, false);
      var line :- ReadDelimited(NEWLINE, limit, true);
      r := Ok(accept(line));
    }

    /**
     The scan loop of `synchronize`. Where it succeeds it settles where the unbounded scan does; without a
     failed read it is exactly the bounded one.
     */
    method Synchronize(limit: nat, accept: seq<byte> -> bool) returns (r: Result<(), ScanError>)
      requires Valid()
      modifies this
      ensures Valid() && faults >= old(faults)
      ensures r.Ok? ==> Settles(data, old(pos), None, accept) == Some(pos)
      ensures faults == old(faults) ==>
                Scanned(data, old(pos), limit, accept) == if r.Ok? then Ok(pos) else Err(r.error)
    {
      ghost var goal := Scanned(data, pos, limit, accept);
      ScannedSettles(data, pos, limit, accept);
      while true
        invariant Valid() && faults >= old(faults) && Scanned(data, pos, limit, accept) == goal
        decreases |data| - pos
      {
        var found :- ScanLine(limit, accept);
        if found {
          return Ok(());
        }
      }
    }
  }

  // When does it settle on the reply to this very connection?

  /** What the peer has sent when nothing but the sync command was issued: leftovers, then the answer. */
  function Arrived(backlog: seq<byte>, reply: seq<byte>): seq<byte> {
    backlog + Answer(reply)
  }

  function Answer(reply: seq<byte>): seq<byte> {
    [0xff] + reply + [10]
  }

  /**
   The backlog line from `start` to its newline at `end` carries, behind its first sentinel at `at`,
   an answer with the constant id: the answer to another connection's sync.
   */
  ghost predicate StaleAnswer(data: seq<byte>, accept: seq<byte> -> bool, start: nat, at: nat, end: nat) {
    && start <= at < end < |data|
    && (start == 0 || data[start - 1] == NEWLINE)
    && Free(data, start, end, NEWLINE) && data[end] == NEWLINE
    && Free(data, start, at, SENTINEL) && data[at] == SENTINEL
    && accept(data[at + 1..end])
  }

  /** The scan is at `pos` in the line that started at `start`. */
  ghost predicate Scanning(data: seq<byte>, start: nat, pos: nat, line: Option<nat>) {
    && start <= pos <= |data|
    && (start == 0 || data[start - 1] == NEWLINE)
    && Free(data, start, pos, NEWLINE)
    && match line
       case None => Free(data, start, pos, SENTINEL)
       case Some(begin) => start < begin <= pos && data[begin - 1] == SENTINEL && Free(data, start, begin - 1, SENTINEL)
  }

  lemma {:induction false} SettlesFindsStale(
    data: seq<byte>, start: nat, pos: nat, line: Option<nat>, accept: seq<byte> -> bool)
    requires Scanning(data, start, pos, line) && Settles(data, pos, line, accept).Some?
    ensures exists s, at, end :: StaleAnswer(data, accept, s, at, end)
    decreases |data| - pos
  {
    var start' := if data[pos] == NEWLINE then pos + 1 else start;
    match line
    case None =>
      SettlesFindsStale(data, start', pos + 1, if data[pos] == SENTINEL then Some(pos + 1) else None, accept);
    case Some(begin) =>
      if data[pos] != NEWLINE {
        SettlesFindsStale(data, start', pos + 1, line, accept);
      } else if accept(data[begin..pos]) {
        assert StaleAnswer(data, accept, start, begin - 1, pos);
      } else {
        SettlesFindsStale(data, start', pos + 1, None, accept);
      }
  }

  lemma {:induction false} StaleSettles(
    data: seq<byte>, start: nat, pos: nat, line: Option<nat>, accept: seq<byte> -> bool, s: nat, at: nat, end: nat)
    requires Scanning(data, start, pos, line) && start <= s && StaleAnswer(data, accept, s, at, end)
    ensures Settles(data, pos, line, accept).Some?
    decreases |data| - pos
  {
    assert pos <= end;
    var start' := if data[pos] == NEWLINE then pos + 1 else start;
    match line
    case None =>
      StaleSettles(data, start', pos + 1, if data[pos] == SENTINEL then Some(pos + 1) else None, accept, s, at, end);
    case Some(begin) =>
      if data[pos] != NEWLINE {
        StaleSettles(data, start', pos + 1, line, accept, s, at, end);
      } else if !accept(data[begin..pos]) {
        assert begin - 1 == at || s > pos;
        StaleSettles(data, start', pos + 1, None, accept, s, at, end);
      }
  }

  /** What the scan finds in a prefix, it finds with more data behind it. */
  lemma {:induction false} SettlesInPrefix(
    a: seq<byte>, b: seq<byte>, pos: nat, line: Option<nat>, accept: seq<byte> -> bool)
    requires pos <= |a| && (line.Some? ==> line.value <= pos)
    ensures Settles(a, pos, line, accept).Some? ==> Settles(a + b, pos, line, accept) == Settles(a, pos, line, accept)
    ensures Settles(a, pos, line, accept).None? && Settles(a + b, pos, line, accept).Some?
            ==> Settles(a + b, pos, line, accept).value > |a|
    decreases |a| - pos
  {
    if pos < |a| {
      assert (a + b)[pos] == a[pos];
      match line
      case None =>
        SettlesInPrefix(a, b, pos + 1, if a[pos] == SENTINEL then Some(pos + 1) else None, accept);
      case Some(begin) =>
        if a[pos] == NEWLINE {
          assert (a + b)[begin..pos] == a[begin..pos];
        }
        SettlesInPrefix(a, b, pos + 1, if a[pos] != NEWLINE then line else None, accept);
    }
  }

  /** Start of the line that position `k` is in. */
  function LineStart(data: seq<byte>, k: nat): (start: nat)
    requires k <= |data|
    ensures start <= k && (start == 0 || data[start - 1] == NEWLINE) && Free(data, start, k, NEWLINE)
  {
    if k == 0 || data[k - 1] == NEWLINE then k else LineStart(data, k - 1)
  }

  /** The first `b` from `i` on, or the end. */
  function Find(data: seq<byte>, i: nat, b: byte): (k: nat)
    requires i <= |data|
    ensures i <= k <= |data| && Free(data, i, k, b)
    ensures k < |data| ==> data[k] == b
    decreases |data| - i
  {
    if i == |data| || data[i] == b then i else Find(data, i + 1, b)
  }

  /** The first sentinel of an unfinished last line, or the end. */
  function OpenSentinel(backlog: seq<byte>): (at: nat)
    ensures at <= |backlog| && (at < |backlog| ==> backlog[at] == SENTINEL)
  {
    Find(backlog, LineStart(backlog, |backlog|), SENTINEL)
  }

  /**
   What the scan takes for the line of this connection's answer: the answer, unless the leftovers end in a
   line cut off behind a sentinel, which swallows the answer's own sentinel.
   */
  function OwnLine(backlog: seq<byte>, reply: seq<byte>): seq<byte> {
    var at := OpenSentinel(backlog);
    if at == |backlog| then reply else backlog[at + 1..] + ([SENTINEL] + reply)
  }

  /** Where the scan is in an unfinished last line. */
  function Open(a: seq<byte>): (open: Option<nat>)
    ensures open.Some? ==> open.value <= |a|
  {
    if OpenSentinel(a) == |a| then None else Some(OpenSentinel(a) + 1)
  }

  lemma OpenLine(a: seq<byte>, start: nat, line: Option<nat>)
    requires Scanning(a, start, |a|, line)
    ensures line == Open(a)
  {
    assert start == LineStart(a, |a|);
  }

  lemma ScanToEnd(a: seq<byte>, b: seq<byte>, accept: seq<byte> -> bool)
    requires Settles(a, 0, None, accept) == None
    ensures Settles(a + b, 0, None, accept) == Settles(a + b, |a|, Open(a), accept)
  {
    var last, open := ScanThrough(a, b, 0, 0, None, accept);
    OpenLine(a, last, open);
  }

  /** A scan that finds nothing in `a` arrives at its end in the middle of a line. */
  lemma {:induction false} ScanThrough(
    a: seq<byte>, b: seq<byte>, start: nat, pos: nat, line: Option<nat>, accept: seq<byte> -> bool)
    returns (last: nat, open: Option<nat>)
    requires Scanning(a, start, pos, line) && Settles(a, pos, line, accept) == None
    ensures Scanning(a, last, |a|, open)
    ensures Settles(a + b, pos, line, accept) == Settles(a + b, |a|, open, accept)
    decreases |a| - pos
  {
    if pos == |a| {
      last, open := start, line;
    } else {
      assert (a + b)[pos] == a[pos];
      var start' := if a[pos] == NEWLINE then pos + 1 else start;
      match line
      case None =>
        last, open := ScanThrough(a, b, start', pos + 1, if a[pos] == SENTINEL then Some(pos + 1) else None, accept);
      case Some(begin) =>
        if a[pos] == NEWLINE {
          assert (a + b)[begin..pos] == a[begin..pos];
        }
        last, open := ScanThrough(a, b, start', pos + 1, if a[pos] != NEWLINE then line else None, accept);
    }
  }

  ghost predicate HasStale(backlog: seq<byte>, accept: seq<byte> -> bool) {
    exists start, at, end :: StaleAnswer(backlog, accept, start, at, end)
  }

  /** Behind the sentinel at `at`, and beyond position `k`, there is only `line` and its newline. */
  ghost predicate LastLine(data: seq<byte>, k: nat, at: nat, line: seq<byte>) {
    && at <= k < |data| - 1 && data[at] == SENTINEL && data[|data| - 1] == NEWLINE
    && Free(data, k, |data| - 1, NEWLINE) && data[at + 1..|data| - 1] == line
  }

  /** The bytes of that line, in what arrived. */
  lemma OwnLineIsThere(backlog: seq<byte>, reply: seq<byte>, at: nat)
    requires NEWLINE !in reply && at <= |backlog| && (at < |backlog| ==> backlog[at] == SENTINEL)
    ensures LastLine(Arrived(backlog, reply), |backlog|, at,
                     if at == |backlog| then reply else backlog[at + 1..] + ([SENTINEL] + reply))
  {
    AnswerBytes(reply);
    AcrossTheSeam(backlog, Answer(reply), at);
  }

  lemma AnswerBytes(reply: seq<byte>)
    requires NEWLINE !in reply
    ensures var answer := Answer(reply);
            && |answer| == |reply| + 2 && answer[0] == SENTINEL && answer[|answer| - 1] == NEWLINE
            && answer[..|answer| - 1] == [SENTINEL] + reply && answer[1..|answer| - 1] == reply
            && Free(answer, 0, |answer| - 1, NEWLINE)
  {
    var answer := Answer(reply);
    assert forall i :: 0 < i < |answer| - 1 ==> answer[i] == reply[i - 1];
  }

  /** The bytes behind position `at` and before the last one. */
  lemma AcrossTheSeam(a: seq<byte>, b: seq<byte>, at: nat)
    requires at <= |a| && |b| >= 2
    ensures (a + b)[at + 1..|a + b| - 1] == if at < |a| then a[at + 1..] + b[..|b| - 1] else b[1..|b| - 1]
  {
  }

  /** From position `k` on the scan settles at the very end, or not at all, as `line` is accepted or not. */
  ghost predicate Decides(data: seq<byte>, k: nat, open: Option<nat>, line: seq<byte>, accept: seq<byte> -> bool)
    requires k <= |data| && (open.Some? ==> open.value <= k)
  {
    Settles(data, k, open, accept) == if accept(line) then Some(|data|) else None
  }

  /** The scan from the end of leftovers that hold nothing acceptable. */
  lemma SettlesOnOwnLine(data: seq<byte>, k: nat, at: nat, line: seq<byte>, accept: seq<byte> -> bool)
    requires LastLine(data, k, at, line)
    ensures Decides(data, k, if at == k then None else Some(at + 1), line, accept)
  {
    SkipToNewline(data, at + 1, if at == k then k + 1 else k, |data| - 1, accept);
    assert Settles(data, |data|, None, accept) == None;
  }

  /**
   Exactly when synchronisation lands on its own answer: no leftover line is another connection's sync
   answer, and the answer's line, with whatever a cut-off leftover puts in front of it, is accepted. With a
   stale answer the scan settles too early, with an unacceptable line never.
   */
  lemma SettlesOnOwnAnswerIff(backlog: seq<byte>, reply: seq<byte>, accept: seq<byte> -> bool)
    requires NEWLINE !in reply
    ensures var data := Arrived(backlog, reply);
            var settled := Settles(data, 0, None, accept);
            && (settled == Some(|data|) <==> !HasStale(backlog, accept) && accept(OwnLine(backlog, reply)))
            && (HasStale(backlog, accept) ==> settled.Some? && settled.value <= |backlog|)
            && (!HasStale(backlog, accept) && !accept(OwnLine(backlog, reply)) ==> settled == None)
  {
    if HasStale(backlog, accept) {
      StaleSettlesEarly(backlog, reply, accept);
    } else {
      CleanSettlesOnOwnLine(backlog, reply, accept);
    }
  }

  lemma StaleSettlesEarly(backlog: seq<byte>, reply: seq<byte>, accept: seq<byte> -> bool)
    requires HasStale(backlog, accept)
    ensures var settled := Settles(Arrived(backlog, reply), 0, None, accept);
            settled.Some? && settled.value <= |backlog|
  {
    var start, at, end :| StaleAnswer(backlog, accept, start, at, end);
    StaleSettles(backlog, 0, 0, None, accept, start, at, end);
    SettlesInPrefix(backlog, Answer(reply), 0, None, accept);
  }

  lemma CleanSettlesOnOwnLine(backlog: seq<byte>, reply: seq<byte>, accept: seq<byte> -> bool)
    requires NEWLINE !in reply && !HasStale(backlog, accept)
    ensures var data := Arrived(backlog, reply);
            Settles(data, 0, None, accept) == if accept(OwnLine(backlog, reply)) then Some(|data|) else None
  {
    NoStaleNoSettling(backlog, accept);
    ScanToEnd(backlog, Answer(reply), accept);
    ScanFromEnd(backlog, reply, accept);
  }

  lemma ScanFromEnd(backlog: seq<byte>, reply: seq<byte>, accept: seq<byte> -> bool)
    requires NEWLINE !in reply
    ensures Decides(Arrived(backlog, reply), |backlog|, Open(backlog), OwnLine(backlog, reply), accept)
  {
    OwnLineThere(backlog, reply);
    SettlesOnOwnLine(Arrived(backlog, reply), |backlog|, OpenSentinel(backlog), OwnLine(backlog, reply), accept);
  }

  lemma OwnLineThere(backlog: seq<byte>, reply: seq<byte>)
    requires NEWLINE !in reply
    ensures LastLine(Arrived(backlog, reply), |backlog|, OpenSentinel(backlog), OwnLine(backlog, reply))
  {
    OwnLineIsThere(backlog, reply, OpenSentinel(backlog));
  }

  lemma NoStaleNoSettling(backlog: seq<byte>, accept: seq<byte> -> bool)
    requires !HasStale(backlog, accept)
    ensures Settles(backlog, 0, None, accept) == None
  {
    if Settles(backlog, 0, None, accept).Some? {
      SettlesFindsStale(backlog, 0, 0, None, accept);
    }
  }

  /** A leftover cut off behind its sentinel swallows the answer: nothing is stale, and the scan never settles. */
  lemma CutLeftoverSwallowsAnswer(cut: seq<byte>, reply: seq<byte>, accept: seq<byte> -> bool)
    requires NEWLINE !in cut && NEWLINE !in reply && !accept(cut + ([SENTINEL] + reply))
    ensures Settles(Arrived([SENTINEL] + cut, reply), 0, None, accept) == None
    ensures !HasStale([SENTINEL] + cut, accept)
  {
    var backlog := [SENTINEL] + cut;
    assert forall i :: 0 <= i < |backlog| ==> backlog[i] != NEWLINE;
    assert LineStart(backlog, |backlog|) == 0 && backlog[1..] == cut;
    SettlesOnOwnAnswerIff(backlog, reply, accept);
  }

  /**
   With more behind it: the stream is left exactly at what comes after the answer under the same condition,
   which is what a fresh session on it starts from.
   */
  lemma StreamInStepIff(backlog: seq<byte>, reply: seq<byte>, later: seq<byte>, accept: seq<byte> -> bool)
    requires NEWLINE !in reply
    ensures var data := Arrived(backlog, reply) + later;
            var settled := Settles(data, 0, None, accept);
            (settled.Some? && data[settled.value..] == later) <==>
            (!HasStale(backlog, accept) && accept(OwnLine(backlog, reply)))
  {
    var arrived := Arrived(backlog, reply);
    SettlesOnOwnAnswerIff(backlog, reply, accept);
    SettlesInPrefix(arrived, later, 0, None, accept);
    assert (arrived + later)[|arrived|..] == later;
  }

  /** A bound as wide as the data makes no difference. */
  lemma WideBoundIsNone(data: seq<byte>, limit: nat, accept: seq<byte> -> bool)
    requires limit >= |data|
    ensures Settles(data, 0, None, accept).Some? ==> Scanned(data, 0, limit, accept).Ok?
  {
    ScannedSettles(data, 0, limit, accept);
    match Scanned(data, 0, limit, accept)
    case Ok(_) =>
    case Err(Io) =>
    case Err(LimitExceeded) =>
      var i := LimitMeansOverlong(data, 0, limit, accept);
      assert false;
  }

  /** `synchronize` on a connection whose peer sends leftovers, the answer, and later what the session asks for. */
  method Resynchronise(reader: Reader, limit: nat, accept: seq<byte> -> bool,
                       ghost backlog: seq<byte>, ghost reply: seq<byte>, ghost later: seq<byte>) returns (ok: bool)
    requires reader.Valid() && reader.pos == 0 && NEWLINE !in reply
    requires reader.data == Arrived(backlog, reply) + later
    modifies reader
    ensures reader.Valid()
    ensures ok ==> (reader.data[reader.pos..] == later <==>
                      !HasStale(backlog, accept) && accept(OwnLine(backlog, reply)))
    // Within its bound and without a failed read it does settle, on the one or the other.
    ensures && reader.faults == old(reader.faults) && limit >= |reader.data|
            && (HasStale(backlog, accept) || accept(OwnLine(backlog, reply)))
            ==> ok
  {
    var r := reader.Synchronize(limit, accept);
    ok := r.Ok?;
    StreamInStepIff(backlog, reply, later, accept);
    SettlesOnOwnAnswerIff(backlog, reply, accept);
    SettlesInPrefix(Arrived(backlog, reply), later, 0, None, accept);
    if limit >= |reader.data| {
      WideBoundIsNone(reader.data, limit, accept);
    }
  }

  /** With nothing left over, the scan does settle, and on its own answer. */
  lemma EmptyBacklogSettles(reply: seq<byte>, accept: seq<byte> -> bool)
    requires NEWLINE !in reply && accept(reply)
    ensures Settles(Arrived([], reply), 0, None, accept) == Some(|Arrived([], reply)|)
  {
    var data := Arrived([], reply);
    assert data[0] == SENTINEL;
    assert forall i :: 1 <= i < |data| - 1 ==> data[i] == reply[i - 1];
    SkipToNewline(data, 1, 1, |data| - 1, accept);
    assert data[1..|data| - 1] == reply;
  }

  /**
   The sync id being a constant, one leftover sync answer is enough: the scan stops behind it, and the
   connection's own answer is still unread.
   */
  lemma LeftoverSyncAnswerMisleads(reply: seq<byte>, accept: seq<byte> -> bool)
    requires NEWLINE !in reply && accept(reply)
    ensures var backlog := Arrived([], reply);
            Settles(Arrived(backlog, reply), 0, None, accept) == Some(|backlog|)
            && |backlog| < |Arrived(backlog, reply)|
  {
    var backlog := Arrived([], reply);
    EmptyBacklogSettles(reply, accept);
    SettlesInPrefix(backlog, Answer(reply), 0, None, accept);
  }
}
