/**
 The bounded reader under every QMP and QGA decoder (backend/qemu/internal/qmpwire/session.go):
 it passes bytes through and fails at the first byte of a line that is longer than `max`.
 */
module FrameReader {
  import opened MachineInts

  const DEFAULT_MAX_FRAME_SIZE: int64 := 16 * 1024 * 1024
  const MAX_LIMIT: int64 := 0x7FFF_FFFF_FFFF_FFFF

  /** `OutOfRange` is the panic of a slice whose bound wrapped around. */
  datatype ReadError = NoError | Upstream(code: nat) | LimitExceeded(limit: int64) | OutOfRange

  /** Length of the newline-free run that ends at position `k`. */
  ghost function Unbroken(data: seq<byte>, k: nat): nat
    requires k <= |data|
  {
    if k == 0 || data[k - 1] == NEWLINE then 0 else 1 + Unbroken(data, k - 1)
  }

  /** The `max + 1` bytes before position `k` hold no newline: byte `k` is the first too many. */
  ghost predicate OverrunAt(data: seq<byte>, max: int64, k: nat) {
    && 0 <= max as int < k <= |data|
    && forall i :: k - max as int - 1 <= i < k ==> data[i] != NEWLINE
  }

  /** No line is too long before position `k`. */
  ghost predicate Clear(data: seq<byte>, max: int64, k: nat) {
    forall j: nat :: j < k ==> !OverrunAt(data, max, j)
  }

  lemma {:induction false} UnbrokenIsTail(data: seq<byte>, k: nat, run: nat)
    requires k <= |data|
    ensures Unbroken(data, k) >= run <==> run <= k && forall i :: k - run <= i < k ==> data[i] != NEWLINE
  {
    if k > 0 && run > 0 {
      UnbrokenIsTail(data, k - 1, run - 1);
    }
  }

  lemma OverrunIsLongTail(data: seq<byte>, max: int64, k: nat)
    requires k <= |data| && max >= 0
    ensures OverrunAt(data, max, k) <==> Unbroken(data, k) > max as int
  {
    UnbrokenIsTail(data, k, max as nat + 1);
  }

  lemma ClearMore(data: seq<byte>, max: int64, k: nat)
    requires Clear(data, max, k) && !OverrunAt(data, max, k)
    ensures Clear(data, max, k + 1)
  {
  }

  /**
   An arbitrary byte source behind the `io.Reader` contract: every call hands out some prefix of
   what is left, of a length and with an error nobody controls.
   */
  class Source {
    const data: seq<byte>
    var pos: nat
    var calls: nat
    var asked: nat  // by the last call
    var last: ReadError

    ghost predicate Valid() reads this {
      pos <= |data| && !last.LimitExceeded? && !last.OutOfRange?
    }

    constructor (data: seq<byte>)
      ensures Valid() && this.data == data && pos == 0 && calls == 0
    {
      this.data, pos, calls, asked, last := data, 0, 0, 0, NoError;
    }

    method Read(p: array<byte>, len: nat) returns (n: nat, err: ReadError)
      requires Valid() && len <= p.Length
      modifies this, p
      ensures Valid() && n <= len && pos == old(pos) + n && calls == old(calls) + 1
      ensures p[..n] == data[old(pos)..pos] && err == last && asked == len
    {
      n :| n <= len && pos + n <= |data|;
      var code: nat := *;
      err := if code == 0 then NoError else Upstream(code);
      for i := 0 to n
        modifies p
        invariant p[..i] == data[pos..pos + i]
      {
        p[i] := data[pos + i];
      }
      pos, calls, asked, last := pos + n, calls + 1, len, err;
    }
  }

  function Least(a: int, b: int): int {
    if a <= b then a else b
  }

  class FrameReader {
    const source: Source
    const max: int64
    var size: int64
    ghost var delivered: seq<byte>

    ghost predicate Valid() reads this, source {
      && source.Valid()
      && 0 < max && (max == MAX_LIMIT ==> source.pos == 0)
      && delivered == source.data[..source.pos]
      && size as int == Unbroken(source.data, source.pos)
      && Clear(source.data, max, source.pos)
    }

    /** `NewDecoder`: a limit that is not positive stands for the default. */
    constructor (source: Source, maxFrameSize: int64)
      requires source.Valid() && source.pos == 0
      ensures Valid() && this.source == source && delivered == []
      ensures max == if maxFrameSize <= 0 then 16_777_216 else maxFrameSize
    {
      this.source, this.max := source, if maxFrameSize <= 0 then DEFAULT_MAX_FRAME_SIZE else maxFrameSize;
      this.size, this.delivered := 0, [];
    }

    method Read(p: array<byte>) returns (n: int, err: ReadError)
      requires Valid()
      modifies this`size, this`delivered, source, p
      ensures Valid()
      ensures 0 <= n <= p.Length && (p.Length == 0 ==> err == NoError)
      // Every byte taken from the source is handed out, in order.
      ensures delivered == old(delivered) + p[..n]
      // The limit error marks exactly the first overlong line.
      ensures p.Length > 0 ==> (err.LimitExceeded? <==> OverrunAt(source.data, max, source.pos))
      ensures err.LimitExceeded? ==> err.limit == max
      // After it the source is left alone; before it every call reads once, and no more than makes one byte too many.
      ensures p.Length == 0 || OverrunAt(source.data, max, old(source.pos)) || max == MAX_LIMIT
              ==> n == 0 && source.pos == old(source.pos) && source.calls == old(source.calls)
      ensures p.Length > 0 && !OverrunAt(source.data, max, old(source.pos)) && max != MAX_LIMIT
              ==> && source.calls == old(source.calls) + 1
                  && source.asked == Least(p.Length, max as int - Unbroken(source.data, old(source.pos)) + 1)
      ensures p.Length > 0 && !err.LimitExceeded? && !err.OutOfRange? ==> err == source.last
      // With the largest limit of all it panics: the room for one byte more wraps around.
      ensures err.OutOfRange? <==> p.Length > 0 && max == MAX_LIMIT
    {
      if p.Length == 0 {
        return 0, NoError;
      }
      OverrunIsLongTail(source.data, max, source.pos);
      var remaining := max - size;
      if remaining < 0 {
        return 0, LimitExceeded(max);
      }
      if remaining == MAX_LIMIT {
        return 0, OutOfRange;
      }
      var len := p.Length;
      if len > remaining as int + 1 {
        len := (remaining + 1) as int;
      }
      var got, upstream := source.Read(p, len);
      assert forall j :: 0 <= j < got ==> p[j] == p[..got][j] == source.data[old(source.pos) + j];
      n, err := Account(p, got, upstream, old(source.pos));
      delivered := delivered + p[..n];
    }

    /** The loop over the bytes just read: counts the current line and stops at the first byte too many. */
    method Account(p: array<byte>, got: nat, upstream: ReadError, ghost start: nat) returns (n: int, err: ReadError)
      requires source.Valid() && 0 < max < MAX_LIMIT && upstream == source.last
      requires got <= p.Length && start + got == source.pos
      requires forall j :: 0 <= j < got ==> p[j] == source.data[start + j]
      requires 0 <= size <= max && size as int == Unbroken(source.data, start)
      requires got <= max as int - size as int + 1
      requires Clear(source.data, max, start)
      modifies this`size
      ensures n == got && size as int == Unbroken(source.data, source.pos) && Clear(source.data, max, source.pos)
      ensures err.LimitExceeded? <==> OverrunAt(source.data, max, source.pos)
      ensures if err.LimitExceeded? then err.limit == max else err == upstream
    {
      ghost var held := size as int;
      n, err := got, upstream;
      var i := 0;
      while i < got
        invariant 0 <= i <= got && 0 <= size <= max && size as int == Unbroken(source.data, start + i)
        // Without a newline the whole run counts; after one the counter trails the chunk.
        invariant size as int == held + i || (size as int) < i
        invariant Clear(source.data, max, start + i) && n == got && err == upstream
      {
        OverrunIsLongTail(source.data, max, start + i);
        ClearMore(source.data, max, start + i);
        if p[i] == NEWLINE {
          size := 0;
        } else {
          size := size + 1;
          if size > max {
            n, err := i + 1, LimitExceeded(max);
            break;
          }
        }
        i := i + 1;
      }
      OverrunIsLongTail(source.data, max, source.pos);
    }
  }

  /** Any sequence of reads with buffers of any sizes, stopping at the first limit error. */
  method Drain(r: FrameReader, buffers: seq<array<byte>>) returns (out: seq<byte>, limited: bool)
    requires r.Valid() && r.source.pos == 0
    modifies r`size, r`delivered, r.source, set p | p in buffers
    ensures r.Valid()
    ensures r.max == MAX_LIMIT ==> out == [] && !limited
    // Whatever the chunking, the output is a prefix of the source ...
    ensures out == r.source.data[..r.source.pos]
    // ... that contains no overlong line, except that a limited run ends with the very byte that makes one.
    ensures Clear(r.source.data, r.max, |out|)
    ensures limited ==> OverrunAt(r.source.data, r.max, |out|)
    ensures !limited && |out| > 0 ==> !OverrunAt(r.source.data, r.max, |out|)
  {
    out, limited := [], false;
    var i := 0;
    OverrunIsLongTail(r.source.data, r.max, 0);
    while i < |buffers|
      invariant 0 <= i <= |buffers|
      invariant r.Valid() && out == r.delivered
      invariant !OverrunAt(r.source.data, r.max, r.source.pos)
    {
      var n, err := r.Read(buffers[i]);
      out := out + buffers[i][..n];
      if err.LimitExceeded? || err.OutOfRange? {
        assert buffers[i].Length > 0;
        return out, err.LimitExceeded?;
      }
      i := i + 1;
    }
  }
}
