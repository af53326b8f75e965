/** The printer and parser of byte sizes (units/units.go). */
module ByteSize {
  import opened Wrappers
  import opened MachineInts
  import opened Numerals

  datatype Unit = Unit(size: int, suffix: string)

  const MEBIBYTE: int := 0x10_0000

  /** Larger units first, as both loops of the source try them. */
  const UNITS: seq<Unit> :=
    [Unit(0x100_0000_0000, "TiB"), Unit(0x4000_0000, "GiB"), Unit(0x10_0000, "MiB"), Unit(0x400, "KiB"), Unit(1, "B")]

  function HasSuffix(s: string, suffix: string): bool {
    |suffix| <= |s| && s[|s| - |suffix|..] == suffix
  }

  /** `Bytes.String`: the first unit, from `i` on, that divides `b`. */
  function ShowFrom(b: int, i: nat): string
    requires i < |UNITS|
    decreases |UNITS| - i
  {
    if i == 4 then Itoa(b) + "B"
    else if b != 0 && b % UNITS[i].size == 0 then Itoa(TruncDiv(b, UNITS[i].size)) + UNITS[i].suffix
    else ShowFrom(b, i + 1)
  }

  function Show(b: int): string {
    ShowFrom(b, 0)
  }

  /** `ParseBytes`: the first matching suffix, from `i` on, decides. */
  function ParseFrom(s: string, i: nat): Option<int>
    requires i <= |UNITS|
    decreases |UNITS| - i
  {
    if i == |UNITS| then None
    else if !HasSuffix(s, UNITS[i].suffix) then ParseFrom(s, i + 1)
    else
      var count := ParseInt(s[..|s| - |UNITS[i].suffix|]);
      if count.None? then None
      else if || count.value > TruncDiv(MAX_INT64, UNITS[i].size)
              || count.value < TruncDiv(MIN_INT64, UNITS[i].size) then None
      else Some(Wrap64(count.value * UNITS[i].size))
  }

  function ParseBytes(s: string): Option<int> {
    ParseFrom(s, 0)
  }

  /** `s` spells `v` in unit `i`: an integer within 64 bits, the suffix, and a product within 64 bits. */
  ghost predicate Spells(s: string, i: nat, v: int) {
    && i < |UNITS|
    && HasSuffix(s, UNITS[i].suffix)
    && var count := ParseInt(s[..|s| - |UNITS[i].suffix|]);
       count.Some? && v == count.value * UNITS[i].size && InInt64(v)
  }

  /** The two overflow comparisons are exactly "the product fits". */
  lemma OverflowTest(count: int, i: nat)
    requires i < |UNITS|
    ensures TruncDiv(MIN_INT64, UNITS[i].size) <= count <= TruncDiv(MAX_INT64, UNITS[i].size)
            <==> InInt64(count * UNITS[i].size)
  {
    assert i == 0 || i == 1 || i == 2 || i == 3 || i == 4;
  }

  lemma BinarySuffix(s: string, i: nat)
    requires i < 4 && HasSuffix(s, UNITS[i].suffix)
    ensures |s| >= 3 && s[|s| - 3] == "TGMK"[i] && s[|s| - 2] == 'i'
  {
    var tail := s[|s| - |UNITS[i].suffix|..];
    assert i == 0 || i == 1 || i == 2 || i == 3;
    assert |tail| == 3 && tail[0] == "TGMK"[i] && tail[1] == 'i';
  }

  /** At most one suffix can be followed up: a text ending in a binary suffix is no plain byte count. */
  lemma OneSuffix(s: string, i: nat, j: nat)
    requires i < j < |UNITS| && HasSuffix(s, UNITS[i].suffix) && HasSuffix(s, UNITS[j].suffix)
    ensures j == 4 && ParseInt(s[..|s| - 1]) == None
  {
    BinarySuffix(s, i);
    if j < 4 {
      BinarySuffix(s, j);
    }
    ParseIntNeedsDigits(s[..|s| - 1]);
  }

  /** The first suffix that matches decides. */
  lemma ParseHereExact(s: string, v: int, i: nat)
    requires i < |UNITS| && HasSuffix(s, UNITS[i].suffix)
    ensures ParseFrom(s, i) == Some(v) <==> Spells(s, i, v)
  {
    var count := ParseInt(s[..|s| - |UNITS[i].suffix|]);
    if count.Some? {
      OverflowTest(count.value, i);
    }
  }

  lemma NoOtherSuffix(s: string, v: int, i: nat, j: nat)
    requires i < j && i < |UNITS| && HasSuffix(s, UNITS[i].suffix)
    ensures !Spells(s, j, v)
  {
    if Spells(s, j, v) {
      OneSuffix(s, i, j);
    }
  }

  lemma {:induction false} ParseFromExact(s: string, v: int, i: nat)
    requires i <= |UNITS|
    ensures ParseFrom(s, i) == Some(v) <==> exists j :: i <= j && Spells(s, j, v)
    decreases |UNITS| - i
  {
    if i < |UNITS| {
      if HasSuffix(s, UNITS[i].suffix) {
        ParseHereExact(s, v, i);
        forall j | i < j
          ensures !Spells(s, j, v)
        {
          NoOtherSuffix(s, v, i, j);
        }
      } else {
        ParseFromExact(s, v, i + 1);
      }
    }
  }

  /**
   `ParseBytes` accepts exactly the spellings of 64-bit sizes and returns the mathematical product,
   never a wrapped one.
   */
  lemma ParseExact(s: string, v: int)
    ensures ParseBytes(s) == Some(v) <==> exists i :: Spells(s, i, v)
  {
    ParseFromExact(s, v, 0);
    assert forall i :: Spells(s, i, v) ==> 0 <= i;
  }

  /** A text that is a count and a suffix spells nothing in any other unit. */
  lemma SpellsHere(s: string, i: nat, j: nat, v: int)
    requires i < |UNITS| && HasSuffix(s, UNITS[i].suffix) && ParseInt(s[..|s| - |UNITS[i].suffix|]).Some?
    requires Spells(s, j, v)
    ensures j == i
  {
    if j < i {
      OneSuffix(s, j, i);
    } else if i < j {
      OneSuffix(s, i, j);
    }
  }

  lemma ParseCount(s: string, i: nat, n: int)
    requires i < |UNITS| && HasSuffix(s, UNITS[i].suffix) && ParseInt(s[..|s| - |UNITS[i].suffix|]) == Some(n)
    ensures var v := n * UNITS[i].size; ParseBytes(s) == if InInt64(v) then Some(v) else None
  {
    var v := n * UNITS[i].size;
    if InInt64(v) {
      assert Spells(s, i, v);
      ParseExact(s, v);
    } else if ParseBytes(s).Some? {
      ParseExact(s, ParseBytes(s).value);
      var j :| Spells(s, j, ParseBytes(s).value);
      SpellsHere(s, i, j, ParseBytes(s).value);
      assert false;
    }
  }

  lemma ParseSuffixed(n: int, i: nat)
    requires InInt64(n) && i < |UNITS|
    ensures var v := n * UNITS[i].size; ParseBytes(Itoa(n) + UNITS[i].suffix) == if InInt64(v) then Some(v) else None
  {
    var s := Itoa(n) + UNITS[i].suffix;
    assert s[..|s| - |UNITS[i].suffix|] == Itoa(n) && s[|s| - |UNITS[i].suffix|..] == UNITS[i].suffix;
    ParseItoa(n);
    ParseCount(s, i, n);
  }

  /** What the suffixes stand for: a count is refused exactly when its product leaves 64 bits. */
  lemma SuffixesMean(n: int)
    requires InInt64(n)
    ensures ParseBytes(Itoa(n) + "B") == Some(n)
    ensures ParseBytes(Itoa(n) + "KiB") == if InInt64(n * 1024) then Some(n * 1024) else None
    ensures ParseBytes(Itoa(n) + "MiB") == if InInt64(n * 1048576) then Some(n * 1048576) else None
    ensures ParseBytes(Itoa(n) + "GiB") == if InInt64(n * 1073741824) then Some(n * 1073741824) else None
    ensures ParseBytes(Itoa(n) + "TiB") == if InInt64(n * 1099511627776) then Some(n * 1099511627776) else None
  {
    ParseSuffixed(n, 0);
    ParseSuffixed(n, 1);
    ParseSuffixed(n, 2);
    ParseSuffixed(n, 3);
    ParseSuffixed(n, 4);
  }

  /** The index of the unit `Show` settles on. */
  ghost function ShownUnit(b: int, i: nat): (k: nat)
    requires i < |UNITS|
    ensures i <= k < |UNITS| && b % UNITS[k].size == 0
    ensures forall j :: i <= j < k ==> b == 0 || b % UNITS[j].size != 0
    ensures b == 0 ==> k == 4
    ensures ShowFrom(b, i) == Itoa(TruncDiv(b, UNITS[k].size)) + UNITS[k].suffix
    decreases |UNITS| - i
  {
    if i == 4 then 4
    else if b != 0 && b % UNITS[i].size == 0 then i
    else ShownUnit(b, i + 1)
  }

  lemma ExactQuotient(b: int, i: nat)
    requires i < |UNITS| && b % UNITS[i].size == 0
    ensures TruncDiv(b, UNITS[i].size) * UNITS[i].size == b
  {
    assert i == 0 || i == 1 || i == 2 || i == 3 || i == 4;
  }

  /** The printed unit divides the size, and no larger unit does; zero prints as "0B". */
  lemma ShowPicksLargestUnit(b: int) returns (i: nat)
    ensures i < |UNITS| && b % UNITS[i].size == 0
    ensures Show(b) == Itoa(TruncDiv(b, UNITS[i].size)) + UNITS[i].suffix
    ensures TruncDiv(b, UNITS[i].size) * UNITS[i].size == b
    ensures b != 0 ==> forall j :: 0 <= j < i ==> b % UNITS[j].size != 0
    ensures b == 0 ==> Show(b) == "0B"
  {
    i := ShownUnit(b, 0);
    ExactQuotient(b, i);
    if b == 0 {
      assert Itoa(0) == "0";
    }
  }

  /** Printing loses nothing, for every 64-bit size including the smallest. */
  lemma RoundTrip(b: int)
    requires InInt64(b)
    ensures ParseBytes(Show(b)) == Some(b)
  {
    var i := ShowPicksLargestUnit(b);
    var count := TruncDiv(b, UNITS[i].size);
    var s := Show(b);
    assert s[..|s| - |UNITS[i].suffix|] == Itoa(count);
    assert i == 0 || i == 1 || i == 2 || i == 3 || i == 4;
    ParseItoa(count);
    assert Spells(s, i, b);
    ParseExact(s, b);
  }

  /** Distinct sizes print differently. */
  lemma ShowInjective(a: int, b: int)
    requires InInt64(a) && InInt64(b) && Show(a) == Show(b)
    ensures a == b
  {
    RoundTrip(a);
    RoundTrip(b);
  }
}
