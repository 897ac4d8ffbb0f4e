/** Octets, fixed-width unsigned integers and slices written in place, shared by
    the frame rewriter and the TLV codec. */
module Bytes {

  type byte = x: int | 0 <= x < 0x100
  type u16 = x: int | 0 <= x < 0x1_0000
  type u32 = x: int | 0 <= x < 0x1_0000_0000
  type u64 = x: int | 0 <= x < 0x1_0000_0000_0000_0000

  datatype Option<+T> = None | Some(value: T)

  /** Network byte order, two octets. */
  function BE16(hi: byte, lo: byte): u16 { 256 * hi as int + lo as int }

  /** The two octets that spell `v`. */
  function ToBE16(v: u16): (b: seq<byte>)
    ensures |b| == 2 && BE16(b[0], b[1]) == v
  {
    assert BE16(v / 256, v % 256) == v;
    var hi: byte, lo: byte :| BE16(hi, lo) == v;
    [hi, lo]
  }

  /** Network byte order, four octets: an IPv4 address as a number. */
  function BE32(a: byte, b: byte, c: byte, d: byte): u32
  {
    0x1_0000 * BE16(a, b) as int + BE16(c, d) as int
  }

  /** The high and the low sixteen bits. */
  predicate Halves(v: u32, hi: u16, lo: u16) { v == 0x1_0000 * hi as int + lo as int }

  lemma HasHalves(v: u32)
    ensures exists hi: u16, lo: u16 :: Halves(v, hi, lo)
    ensures forall hi: u16, lo: u16, hi': u16, lo': u16 ::
              Halves(v, hi, lo) && Halves(v, hi', lo') ==> hi == hi' && lo == lo'
  {
    assert 0 <= v / 0x1_0000 < 0x1_0000;
    assert Halves(v, v / 0x1_0000, v % 0x1_0000);
  }

  lemma FromHalves(h: seq<byte>, l: seq<byte>, v: u32)
    requires |h| == 2 && |l| == 2 && Halves(v, BE16(h[0], h[1]), BE16(l[0], l[1]))
    ensures BE32(h[0], h[1], l[0], l[1]) == v
  {
    hide BE16;
  }

  function ToBE32(v: u32): (b: seq<byte>)
    ensures |b| == 4 && BE32(b[0], b[1], b[2], b[3]) == v
  {
    HasHalves(v);
    var hi: u16, lo: u16 :| Halves(v, hi, lo);
    var h, l := ToBE16(hi), ToBE16(lo);
    FromHalves(h, l, v);
    [h[0], h[1], l[0], l[1]]
  }

  /** The high and the low four bits of an octet. */
  function Nibbles(b: byte): (n: (nat, nat))
    ensures n.0 < 16 && n.1 < 16 && b == 16 * n.0 + n.1
  {
    assert b == 16 * (b as int / 16) + b as int % 16;
    var hi: nat, lo: nat :| lo < 16 && b == 16 * hi + lo;
    (hi, lo)
  }

  /** Little-endian octets of `v`, least significant first. */
  function ToLE(v: nat, width: nat): (b: seq<byte>)
    ensures |b| == width
  {
    if width == 0 then [] else [v % 256] + ToLE(v / 256, width - 1)
  }

  function FromLE(b: seq<byte>): nat
  {
    if b == [] then 0 else b[0] + 256 * FromLE(b[1..])
  }

  function Pow256(n: nat): (p: nat)
    ensures p > 0
  {
    if n == 0 then 1 else 256 * Pow256(n - 1)
  }

  lemma {:induction false} LERoundTrip(v: nat, width: nat)
    requires v < Pow256(width)
    ensures FromLE(ToLE(v, width)) == v
  {
    if width > 0 {
      LERoundTrip(v / 256, width - 1);
      assert ToLE(v, width)[1..] == ToLE(v / 256, width - 1);
    }
  }

  /** `f` with the octets from `off` on overwritten by `b`. */
  function Splice(f: seq<byte>, off: nat, b: seq<byte>): (g: seq<byte>)
    requires off + |b| <= |f|
    ensures |g| == |f|
    ensures forall i :: 0 <= i < |f| ==> g[i] == if off <= i < off + |b| then b[i - off] else f[i]
  {
    seq(|f|, i requires 0 <= i < |f| => if off <= i < off + |b| then b[i - off] else f[i])
  }

  /** A slice around the splice. */
  lemma SpliceInside(f: seq<byte>, off: nat, b: seq<byte>, lo: nat, hi: nat)
    requires lo <= off && off + |b| <= hi <= |f|
    ensures Splice(f, off, b)[lo..hi] == f[lo..off] + b + f[off + |b|..hi]
  {
  }

  /** A second splice at the same place replaces the first. */
  lemma SpliceTwice(f: seq<byte>, off: nat, b: seq<byte>, b': seq<byte>)
    requires off + |b| <= |f| && |b| == |b'|
    ensures Splice(Splice(f, off, b), off, b') == Splice(f, off, b')
  {
    assert Splice(Splice(f, off, b), off, b') == Splice(f, off, b');
  }

  /** The slice assignment `buf[off..off + b.len()].copy_from_slice(b)`. */
  method CopyFromSlice(buf: array<byte>, off: nat, b: seq<byte>)
    requires off + |b| <= buf.Length
    modifies buf
    ensures buf[..] == Splice(old(buf[..]), off, b)
  {
    forall i | 0 <= i < |b| {
      buf[off + i] := b[i];
    }
    assert forall i :: 0 <= i < buf.Length && !(off <= i < off + |b|) ==> buf[i] == old(buf[i]);
    assert buf[..] == Splice(old(buf[..]), off, b);
  }
}
