/** A bitmap of 64-bit words that stands for a set of offsets. */
module Bitmap {
  import opened Bytes
  import opened Net

  type word = w: nat | w < Pow2(64)

  // ------------------------------------------------------------------ bits of a word

  /** `(w >> k) & 1 == 1`. */
  predicate Bit(w: nat, k: nat)
  {
    if k == 0 then w % 2 == 1 else Bit(w / 2, k - 1)
  }

  function BitValue(b: bool): nat { if b then 1 else 0 }

  /** `a | b`. */
  function BitOr(a: nat, b: nat): nat
  {
    if a == 0 && b == 0 then 0 else BitValue(a % 2 == 1 || b % 2 == 1) + 2 * BitOr(a / 2, b / 2)
  }

  /** `a & !b`. */
  function BitAndNot(a: nat, b: nat): nat
  {
    if a == 0 then 0 else BitValue(a % 2 == 1 && b % 2 == 0) + 2 * BitAndNot(a / 2, b / 2)
  }

  lemma {:induction false} OrBits(a: nat, b: nat, k: nat)
    ensures Bit(BitOr(a, b), k) <==> Bit(a, k) || Bit(b, k)
    decreases k
  {
    if a == 0 && b == 0 {
      ZeroBits(k);
    } else {
      var r := BitOr(a, b);
      assert r / 2 == BitOr(a / 2, b / 2) && (r % 2 == 1 <==> a % 2 == 1 || b % 2 == 1);
      if k > 0 { OrBits(a / 2, b / 2, k - 1); }
    }
  }

  lemma {:induction false} AndNotBits(a: nat, b: nat, k: nat)
    ensures Bit(BitAndNot(a, b), k) <==> Bit(a, k) && !Bit(b, k)
    decreases k
  {
    if a == 0 {
      ZeroBits(k);
    } else {
      var r := BitAndNot(a, b);
      assert r / 2 == BitAndNot(a / 2, b / 2) && (r % 2 == 1 <==> a % 2 == 1 && b % 2 == 0);
      if k > 0 { AndNotBits(a / 2, b / 2, k - 1); }
    }
  }

  lemma {:induction false} ZeroBits(k: nat)
    ensures !Bit(0, k)
  {
    if k > 0 { ZeroBits(k - 1); }
  }

  /** `1 << j` has exactly bit `j`. */
  lemma {:induction false} PowerBits(j: nat, k: nat)
    ensures Bit(Pow2(j), k) <==> j == k
  {
    if j == 0 {
      if k > 0 { ZeroBits(k - 1); }
    } else if k > 0 {
      assert Pow2(j) / 2 == Pow2(j - 1);
      PowerBits(j - 1, k - 1);
    }
  }

  lemma {:induction false} OrBound(a: nat, b: nat, n: nat)
    requires a < Pow2(n) && b < Pow2(n)
    ensures BitOr(a, b) < Pow2(n)
  {
    if n > 0 { OrBound(a / 2, b / 2, n - 1); }
  }

  lemma {:induction false} AndNotBound(a: nat, b: nat)
    ensures BitAndNot(a, b) <= a
  {
    if a > 0 { AndNotBound(a / 2, b / 2); }
  }

  lemma {:induction false} PowerBound(j: nat, n: nat)
    requires j < n
    ensures Pow2(j) < Pow2(n)
  {
    if j + 1 < n { PowerBound(j, n - 1); }
  }

  function Mask(k: nat): (m: word)
    requires k < 64
  {
    PowerBound(k, 64);
    Pow2(k)
  }

  // ------------------------------------------------------------------ words as a set

  predicate Covers(words: seq<word>, max: nat) { |words| == (max + 63) / 64 }

  predicate GetBit(words: seq<word>, offset: nat)
    requires offset / 64 < |words|
  {
    Bit(words[offset / 64], offset % 64)
  }

  function SetBit(words: seq<word>, offset: nat): seq<word>
    requires offset / 64 < |words|
  {
    OrBound(words[offset / 64], Mask(offset % 64), 64);
    words[offset / 64 := BitOr(words[offset / 64], Mask(offset % 64))]
  }

  function ClearBit(words: seq<word>, offset: nat): seq<word>
    requires offset / 64 < |words|
  {
    AndNotBound(words[offset / 64], Mask(offset % 64));
    words[offset / 64 := BitAndNot(words[offset / 64], Mask(offset % 64))]
  }

  lemma SetBitBits(words: seq<word>, offset: nat, at: nat)
    requires offset / 64 < |words| && at / 64 < |words|
    ensures GetBit(SetBit(words, offset), at) <==> GetBit(words, at) || at == offset
  {
    OrBits(words[offset / 64], Mask(offset % 64), at % 64);
    PowerBits(offset % 64, at % 64);
  }

  lemma ClearBitBits(words: seq<word>, offset: nat, at: nat)
    requires offset / 64 < |words| && at / 64 < |words|
    ensures GetBit(ClearBit(words, offset), at) <==> GetBit(words, at) && at != offset
  {
    AndNotBits(words[offset / 64], Mask(offset % 64), at % 64);
    PowerBits(offset % 64, at % 64);
  }

  /** The offsets whose bit is set. */
  function Offsets(words: seq<word>): set<nat>
  {
    set o: nat | o < 64 * |words| && o / 64 < |words| && GetBit(words, o)
  }

  /** The offsets below `n`. */
  function Range(n: nat): (r: set<nat>)
    ensures forall o: nat :: o in r <==> o < n
    ensures |r| == n
  {
    if n == 0 then {} else Range(n - 1) + {n - 1}
  }

  lemma SetBitOffsets(words: seq<word>, offset: nat)
    requires offset / 64 < |words|
    ensures Offsets(SetBit(words, offset)) == Offsets(words) + {offset}
  {
    forall at: nat | at / 64 < |words|
      ensures GetBit(SetBit(words, offset), at) <==> GetBit(words, at) || at == offset
    {
      SetBitBits(words, offset, at);
    }
    assert offset < 64 * |words|;
  }

  lemma ClearBitOffsets(words: seq<word>, offset: nat)
    requires offset / 64 < |words|
    ensures Offsets(ClearBit(words, offset)) == Offsets(words) - {offset}
  {
    forall at: nat | at / 64 < |words|
      ensures GetBit(ClearBit(words, offset), at) <==> GetBit(words, at) && at != offset
    {
      ClearBitBits(words, offset, at);
    }
  }

  // ------------------------------------------------------------------ the probe

  /** The `i`-th offset probed from `start`. */
  function Probe(start: nat, i: nat, max: nat): nat
    requires max > 0
  {
    (start + i) % max
  }

  lemma ProbeIs(start: nat, i: nat, max: nat)
    requires start < max && i < max
    ensures Probe(start, i, max) == if start + i < max then start + i else start + i - max
  {
    var q := if start + i < max then 0 else 1;
    DivModUnique(start + i, max, q, start + i - q * max);
  }

  /** The wrap-around probe visits every offset, each once. */
  lemma ProbeVisitsAll(start: nat, o: nat, max: nat) returns (i: nat)
    requires start < max && o < max
    ensures i < max && Probe(start, i, max) == o
    ensures forall j: nat :: j < max && Probe(start, j, max) == o ==> j == i
  {
    i := if o >= start then o - start else o + max - start;
    ProbeIs(start, i, max);
    forall j: nat | j < max && Probe(start, j, max) == o ensures j == i { ProbeIs(start, j, max); }
  }

  // ------------------------------------------------------------------ the bitmap

  predicate Ascending(os: seq<nat>) { forall i, j :: 0 <= i < j < |os| ==> os[i] < os[j] }

  class AllocationBitmap {
    const max: nat
    var words: seq<word>
    var count: nat

    ghost predicate Valid()
      reads this
    {
      Covers(words, max) && count == |Allocated()| && forall o :: o in Allocated() ==> o < max
    }

    ghost function Allocated(): set<nat>
      reads this
    {
      Offsets(words)
    }

    constructor (max: nat)
      ensures Valid() && this.max == max && Allocated() == {}
    {
      this.max := max;
      words := seq((max + 63) / 64, _ => 0);
      count := 0;
      new;
      forall o: nat | o / 64 < |words| ensures !GetBit(words, o) { ZeroBits(o % 64); }
      assert Allocated() == {};
    }

    /** `allocate`. */
    method Allocate(offset: nat) returns (ok: bool)
      requires Valid()
      modifies this
      ensures Valid() && ok == (offset < max && offset !in old(Allocated()))
      ensures Allocated() == old(Allocated()) + if ok then {offset} else {}
    {
      if offset >= max { return false; }
      if GetBit(words, offset) { return false; }
      SetBitOffsets(words, offset);
      words := SetBit(words, offset);
      count := count + 1;
      ok := true;
    }

    /** `allocate_next`: the first free offset in the probe order from a random start. */
    method AllocateNext() returns (next: Option<nat>)
      requires Valid()
      modifies this
      ensures Valid()
      ensures next.None? <==> old(Allocated()) == Range(max)
      ensures next.Some? ==> next.value < max && next.value !in old(Allocated())
      ensures Allocated() == old(Allocated()) + if next.Some? then {next.value} else {}
    {
      next := AllocateBit();
      if next.Some? {
        SetBitOffsets(words, next.value);
        words := SetBit(words, next.value);
        count := count + 1;
      }
    }

    /** `allocate_bit`, whatever the random start is. */
    method AllocateBit() returns (next: Option<nat>)
      requires Valid()
      ensures next.None? <==> Allocated() == Range(max)
      ensures next.Some? ==> next.value < max && next.value !in Allocated()
    {
      if count >= max {
        SubsetSize(Allocated(), Range(max));
        return None;
      }
      var start: nat :| start < max;
      var i := 0;
      while i < max
        invariant i <= max
        invariant forall j: nat :: j < i ==> Probe(start, j, max) in Allocated()
      {
        ProbeIs(start, i, max);
        if !GetBit(words, Probe(start, i, max)) { return Some(Probe(start, i, max)); }
        i := i + 1;
      }
      forall o: nat | o < max ensures o in Allocated() { var j := ProbeVisitsAll(start, o, max); }
      next := None;
    }

    /** `release`. */
    method Release(offset: nat)
      requires Valid()
      modifies this
      ensures Valid() && Allocated() == old(Allocated()) - if offset < max then {offset} else {}
    {
      if offset >= max { return; }
      if !GetBit(words, offset) { return; }
      assert offset in Allocated();
      ClearBitOffsets(words, offset);
      words := ClearBit(words, offset);
      count := count - 1;
    }

    /** `for_each`: the offsets handed to the callback, in order. */
    method ForEach() returns (visited: seq<nat>)
      requires Valid()
      ensures Ascending(visited) && forall o: nat :: o in visited <==> o in Allocated()
    {
      visited := [];
      for i := 0 to |words|
        invariant visited == SetOffsets(words, 64 * i)
      {
        visited := VisitWord(words, i, visited);
      }
      hide Ascending, GetBit, SetOffsets;
      SetOffsetsAscending(words, 64 * |words|);
      forall o: nat ensures o in visited <==> o in Allocated() { SetOffsetsAre(words, 64 * |words|, o); }
    }
  }

  /** The offsets below `n` whose bit is set, one after the other. */
  function SetOffsets(words: seq<word>, n: nat): seq<nat>
    requires n <= 64 * |words|
  {
    if n == 0 then []
    else if GetBit(words, n - 1) then SetOffsets(words, n - 1) + [n - 1]
    else SetOffsets(words, n - 1)
  }

  lemma {:induction false} SetOffsetsAre(words: seq<word>, n: nat, o: nat)
    requires n <= 64 * |words|
    ensures o in SetOffsets(words, n) <==> o < n && GetBit(words, o)
  {
    if n > 0 { SetOffsetsAre(words, n - 1, o); }
  }

  lemma {:induction false} SetOffsetsAscending(words: seq<word>, n: nat)
    requires n <= 64 * |words|
    ensures Ascending(SetOffsets(words, n))
  {
    if n > 0 {
      SetOffsetsAscending(words, n - 1);
      var os := SetOffsets(words, n - 1);
      forall j | 0 <= j < |os| ensures os[j] < n - 1 { SetOffsetsAre(words, n - 1, os[j]); }
    }
  }

  /** The inner loop of `for_each`: shifts a word out, calling back for each set bit. */
  method VisitWord(words: seq<word>, i: nat, before: seq<nat>) returns (visited: seq<nat>)
    requires i < |words| && before == SetOffsets(words, 64 * i)
    ensures visited == SetOffsets(words, 64 * i + 64)
  {
    visited := before;
    var rest: nat, bit := words[i], 0;
    assert Shifted(rest, words[i], 0);
    hide Shifted, Bit, GetBit, SetOffsets, Pow2;
    while rest > 0
      invariant bit <= 64 && Shifted(rest, words[i], bit) && visited == SetOffsets(words, 64 * i + bit)
      decreases rest
    {
      ShiftStep(rest, words, i, bit);
      if rest % 2 != 0 {
        visited := visited + [64 * i + bit];
      }
      bit, rest := bit + 1, rest / 2;
    }
    ShiftedOut(words, i, bit);
  }

  /** `rest` is the word shifted right by `n`. */
  ghost predicate Shifted(rest: nat, w: word, n: nat)
  {
    rest < Pow2(if n < 64 then 64 - n else 0) && forall k: nat :: Bit(rest, k) <==> Bit(w, n + k)
  }

  lemma ShiftStep(rest: nat, words: seq<word>, i: nat, n: nat)
    requires i < |words| && Shifted(rest, words[i], n) && rest > 0
    ensures n < 64 && Shifted(rest / 2, words[i], n + 1)
    ensures SetOffsets(words, 64 * i + (n + 1))
            == if rest % 2 != 0 then SetOffsets(words, 64 * i + n) + [64 * i + n] else SetOffsets(words, 64 * i + n)
  {
    var w := words[i];
    assert Bit(rest, 0) <==> Bit(w, n + 0);
    forall k: nat ensures Bit(rest / 2, k) <==> Bit(w, n + 1 + k) {
      assert Bit(rest, k + 1) <==> Bit(w, n + (k + 1));
    }
    DivModUnique(64 * i + n, 64, i, n);
    hide Bit, Pow2;
  }

  /** Once nothing is left of a word, its remaining bits were clear. */
  lemma {:induction false} ShiftedOut(words: seq<word>, i: nat, bit: nat)
    requires i < |words| && bit <= 64 && Shifted(0, words[i], bit)
    ensures SetOffsets(words, 64 * i + 64) == SetOffsets(words, 64 * i + bit)
    decreases 64 - bit
  {
    if bit < 64 {
      forall k: nat ensures Bit(0, k) <==> Bit(words[i], bit + 1 + k) {
        ZeroBits(k);
        ZeroBits(k + 1);
        assert Bit(0, k + 1) <==> Bit(words[i], bit + (k + 1));
      }
      ZeroBits(0);
      assert Bit(0, 0) <==> Bit(words[i], bit + 0);
      DivModUnique(64 * i + bit, 64, i, bit);
      ShiftedOut(words, i, bit + 1);
    }
  }

  lemma SubsetSize(a: set<nat>, b: set<nat>)
    requires a <= b && |a| >= |b|
    ensures a == b
  {
    if a != b {
      var x :| x in b && x !in a;
      Smaller(a, b - {x});
    }
  }

  lemma {:induction false} Smaller(a: set<nat>, b: set<nat>)
    requires a <= b
    ensures |a| <= |b|
  {
    if x :| x in a { Smaller(a - {x}, b - {x}); }
  }
}
