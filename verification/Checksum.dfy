/** The Internet checksum of RFC 1071 as `internet_checksum` computes it, and the
    fact a receiver relies on: a region whose checksum field was filled in this way
    passes the check of RFC 1071 section 1. */
module Checksum {
  import opened Bytes

  const ALL_ONES: u16 := 0xFFFF

  /** Sum of the 16-bit words of `b`; an odd last octet is padded with a zero. */
  function WordSum(b: seq<byte>): nat
  {
    if |b| == 0 then 0
    else if |b| == 1 then 256 * b[0] as int
    else BE16(b[0], b[1]) + WordSum(b[2..])
  }

  /** The one's-complement value of `sum` stated without any carries: the
      representative of `sum` modulo 0xFFFF that is zero only for zero. */
  ghost function OnesValue(sum: nat): (v: nat)
    ensures v <= 0xFFFF && exists k: nat :: IsOnesValue(sum, k, v)
  {
    OnesValueExists(sum);
    var k: nat, v: nat :| IsOnesValue(sum, k, v);
    v
  }

  ghost predicate IsOnesValue(sum: nat, k: nat, v: nat)
  {
    sum == 0xFFFF * k + v && v <= 0xFFFF && (v == 0 <==> sum == 0)
  }

  lemma OnesValueExists(sum: nat)
    ensures exists k: nat, v: nat :: IsOnesValue(sum, k, v)
  {
    assert sum == 0 ==> IsOnesValue(sum, 0, 0);
    assert sum > 0 ==> IsOnesValue(sum, (sum - 1) / 0xFFFF, (sum - 1) % 0xFFFF + 1);
  }

  lemma OnesValueUnique(sum: nat, k: nat, v: nat)
    requires IsOnesValue(sum, k, v)
    ensures OnesValue(sum) == v
  {
  }

  /** RFC 1071 section 1: the receiver's sum, checksum field included, is all ones. */
  ghost predicate Verifies(b: seq<byte>) { OnesValue(WordSum(b)) == ALL_ONES }

  /** The value the sender writes into the zeroed checksum field. */
  ghost function ChecksumOf(b: seq<byte>): u16 { ALL_ONES - OnesValue(WordSum(b)) }

  lemma {:induction false} WordSumBound(b: seq<byte>)
    ensures WordSum(b) <= (|b| + 1) / 2 * 0xFFFF
  {
    if |b| >= 2 { WordSumBound(b[2..]); }
  }

  lemma {:induction false} WordSumConcat(a: seq<byte>, b: seq<byte>)
    requires |a| % 2 == 0
    ensures WordSum(a + b) == WordSum(a) + WordSum(b)
  {
    if a == [] {
      assert a + b == b;
    } else {
      WordSumConcat(a[2..], b);
      assert (a + b)[2..] == a[2..] + b;
    }
  }

  /** The words octet by octet: an octet at an even position counts 256 times, one at an
      odd position once. */
  lemma {:induction false} WordSumOctet(b: seq<byte>, last: byte)
    ensures WordSum([]) == 0
    ensures WordSum(b + [last]) == WordSum(b) + if |b| % 2 == 0 then 256 * last as int else last
  {
    if |b| >= 2 {
      WordSumOctet(b[2..], last);
      assert (b + [last])[2..] == b[2..] + [last];
      assert (b + [last])[0] == b[0] && (b + [last])[1] == b[1];
    } else if |b| == 1 {
      assert (b + [last])[2..] == [];
    }
  }

  /** The receiver's check in plain arithmetic. */
  lemma VerifiesIff(b: seq<byte>)
    ensures Verifies(b) <==> WordSum(b) % 0xFFFF == 0 && WordSum(b) != 0
  {
    var k: nat :| IsOnesValue(WordSum(b), k, OnesValue(WordSum(b)));
    assert WordSum(b) == 0xFFFF * k + OnesValue(WordSum(b));
  }

  /** And the sender's value: it completes the sum to a multiple of 0xFFFF, and is all
      ones only for a region of zeros. */
  lemma ChecksumCompletes(b: seq<byte>)
    ensures (WordSum(b) + ChecksumOf(b)) % 0xFFFF == 0 && (ChecksumOf(b) == 0xFFFF <==> WordSum(b) == 0)
  {
    var k: nat :| IsOnesValue(WordSum(b), k, OnesValue(WordSum(b)));
    assert WordSum(b) + ChecksumOf(b) == 0xFFFF * k + 0xFFFF;
  }

  /** A two-octet field at an even position contributes exactly its value. */
  lemma WordSumField(pre: seq<byte>, v: u16, post: seq<byte>)
    requires |pre| % 2 == 0
    ensures WordSum(pre + ToBE16(v) + post) == WordSum(pre) + v + WordSum(post)
  {
    WordSumConcat(pre + ToBE16(v), post);
    WordSumConcat(pre, ToBE16(v));
    assert ToBE16(v)[2..] == [];
  }

  /** Exactly which field values a receiver accepts: those congruent to the computed
      checksum, except that an all-zero region never verifies. */
  lemma FieldVerifiesIff(pre: seq<byte>, v: u16, post: seq<byte>)
    requires |pre| % 2 == 0
    ensures var c := ChecksumOf(pre + ToBE16(0) + post);
            Verifies(pre + ToBE16(v) + post) <==>
            v == c || (v == 0 && c == ALL_ONES && WordSum(pre + ToBE16(0) + post) != 0) || (v == ALL_ONES && c == 0)
  {
    WordSumField(pre, v, post);
    WordSumField(pre, 0, post);
    var s := WordSum(pre) + WordSum(post);
    var k: nat :| IsOnesValue(s, k, OnesValue(s));
    // s + v = 0xFFFF * k + (OnesValue(s) + v), a sum of two 16-bit values
    var w := OnesValue(s) + v as int;
    if w > 0xFFFF {
      OnesValueUnique(s + v, k + 1, w - 0xFFFF);
    } else {
      OnesValueUnique(s + v, k, w);
    }
  }

  /** The sender's value verifies, and so does all ones in place of a computed zero
      (the UDP rule of RFC 768). */
  lemma FilledFieldVerifies(pre: seq<byte>, post: seq<byte>)
    requires |pre| % 2 == 0
    ensures var c := ChecksumOf(pre + ToBE16(0) + post);
            Verifies(pre + ToBE16(c) + post)
            && (c == 0 ==> Verifies(pre + ToBE16(ALL_ONES) + post))
  {
    FieldVerifiesIff(pre, ChecksumOf(pre + ToBE16(0) + post), post);
    FieldVerifiesIff(pre, ALL_ONES, post);
  }

  /** `f` with the two-octet field at `at` zeroed and then set to the checksum over
      `prefix` and `f[lo..hi]`; with `zeroAsOnes` a computed zero becomes all ones. */
  ghost function Filled(f: seq<byte>, prefix: seq<byte>, lo: nat, at: nat, hi: nat, zeroAsOnes: bool): (g: seq<byte>)
    requires at + 2 <= |f| && lo <= hi <= |f|
    ensures |g| == |f|
    ensures forall i :: 0 <= i < |f| && !(at <= i < at + 2) ==> g[i] == f[i]
  {
    var zeroed := Splice(f, at, ToBE16(0));
    var c := ChecksumOf(prefix + zeroed[lo..hi]);
    Splice(zeroed, at, ToBE16(if zeroAsOnes && c == 0 then ALL_ONES else c))
  }

  lemma FilledVerifies(f: seq<byte>, prefix: seq<byte>, lo: nat, at: nat, hi: nat, zeroAsOnes: bool)
    requires |prefix| % 2 == 0 && (at - lo) % 2 == 0
    requires lo <= at && at + 2 <= hi <= |f|
    ensures Verifies(prefix + Filled(f, prefix, lo, at, hi, zeroAsOnes)[lo..hi])
  {
    var pre, post := prefix + f[lo..at], f[at + 2..hi];
    forall v: u16 ensures prefix + Splice(f, at, ToBE16(v))[lo..hi] == pre + ToBE16(v) + post {
      SpliceInside(f, at, ToBE16(v), lo, hi);
    }
    FilledFieldVerifies(pre, post);
    var c := ChecksumOf(pre + ToBE16(0) + post);
    SpliceTwice(f, at, ToBE16(0), ToBE16(if zeroAsOnes && c == 0 then ALL_ONES else c));
  }

  lemma FilledNonzero(f: seq<byte>, prefix: seq<byte>, lo: nat, at: nat, hi: nat)
    requires at + 2 <= |f| && lo <= hi <= |f|
    ensures var g := Filled(f, prefix, lo, at, hi, true); BE16(g[at], g[at + 1]) != 0
  {
    var g := Filled(f, prefix, lo, at, hi, true);
  }

  /** Without that rule the field is all ones only where everything else is zero. */
  lemma FilledNotOnes(f: seq<byte>, prefix: seq<byte>, lo: nat, at: nat, hi: nat, k: nat)
    requires at + 2 <= |f| && lo <= hi <= |f|
    requires || (k < |prefix| && prefix[k] != 0)
             || (|prefix| <= k < |prefix| + hi - lo && !(at <= lo + k - |prefix| < at + 2) && f[lo + k - |prefix|] != 0)
    ensures var g := Filled(f, prefix, lo, at, hi, false); BE16(g[at], g[at + 1]) != ALL_ONES
  {
    var zeroed := Splice(f, at, ToBE16(0));
    var region := prefix + zeroed[lo..hi];
    assert region[k] != 0;
    WordSumPositive(region, k);
    ChecksumCompletes(region);
  }

  lemma {:induction false} WordSumPositive(b: seq<byte>, k: nat)
    requires k < |b| && b[k] != 0
    ensures WordSum(b) > 0
  {
    if k >= 2 { WordSumPositive(b[2..], k - 2); }
  }

  /** `internet_checksum`. 131074 octets is the largest region whose sum cannot
      overflow the 32-bit accumulator for any contents. */
  method InternetChecksum(bytes: seq<byte>) returns (csum: u16)
    requires |bytes| <= 131074
    ensures csum == ChecksumOf(bytes)
  {
    var sum: u32 := 0;
    var i := 0;
    WordSumBound(bytes);
    assert bytes[0..] == bytes;
    while i + 1 < |bytes|
      invariant 0 <= i <= |bytes|
      invariant sum + WordSum(bytes[i..]) == WordSum(bytes) <= 0xFFFF_FFFF
    {
      assert bytes[i..][2..] == bytes[i + 2..];
      sum := sum + BE16(bytes[i], bytes[i + 1]);
      i := i + 2;
    }
    if i < |bytes| {
      assert bytes[i..] == [bytes[i]];
      sum := sum + 256 * bytes[i] as int;
    }
    while sum / 0x1_0000 != 0
      invariant OnesValue(sum) == OnesValue(WordSum(bytes))
      decreases sum
    {
      FoldKeepsValue(sum);
      sum := sum % 0x1_0000 + sum / 0x1_0000;
    }
    OnesValueUnique(sum, 0, sum);
    csum := 0xFFFF - sum;
  }

  /** Folding the carries back in once keeps the one's-complement value. */
  lemma FoldKeepsValue(sum: nat)
    requires sum >= 0x1_0000
    ensures OnesValue(sum % 0x1_0000 + sum / 0x1_0000) == OnesValue(sum)
  {
    var hi, lo := sum / 0x1_0000, sum % 0x1_0000;
    var k: nat :| IsOnesValue(lo + hi, k, OnesValue(lo + hi));
    OnesValueUnique(sum, k + hi, OnesValue(lo + hi));
  }

  /** Zero the field, sum `prefix` and the region, write the result back: the sequence
      both the header and the L4 checksum go through. */
  method FillChecksum(frame: array<byte>, prefix: seq<byte>, lo: nat, at: nat, hi: nat, zeroAsOnes: bool)
    requires at + 2 <= frame.Length && lo <= hi <= frame.Length && |prefix| + hi - lo <= 131074
    modifies frame
    ensures frame[..] == Filled(old(frame[..]), prefix, lo, at, hi, zeroAsOnes)
  {
    CopyFromSlice(frame, at, ToBE16(0));
    var csum := InternetChecksum(prefix + frame[lo..hi]);
    if zeroAsOnes && csum == 0 {
      csum := ALL_ONES;
    }
    CopyFromSlice(frame, at, ToBE16(csum));
  }
}
