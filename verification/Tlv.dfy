/** The record format of a test result and the writer that fills its buffer. */
module Tlv {
  import opened Bytes

  const SIZE: nat := 8192
  const WIRE_VERSION: byte := 1

  datatype Tag = Version | TestName | TestFile | TestStatus | LogFmt | LogArg | LogLine

  function TagByte(t: Tag): byte
  {
    match t
    case Version => 0x01
    case TestName => 0x10
    case TestFile => 0x11
    case TestStatus => 0x13
    case LogFmt => 0x20
    case LogArg => 0x21
    case LogLine => 0x22
  }

  function TagFromByte(b: byte): Option<Tag>
  {
    if b == 0x01 then Some(Version)
    else if b == 0x10 then Some(TestName)
    else if b == 0x11 then Some(TestFile)
    else if b == 0x13 then Some(TestStatus)
    else if b == 0x20 then Some(LogFmt)
    else if b == 0x21 then Some(LogArg)
    else if b == 0x22 then Some(LogLine)
    else None
  }

  lemma TagRoundTrip(t: Tag, b: byte)
    ensures TagFromByte(b) == Some(t) <==> TagByte(t) == b
  {
  }

  datatype Status = Pass | Fail | Skip | FrameworkError

  function StatusByte(s: Status): byte
  {
    match s case Pass => 101 case Fail => 102 case Skip => 103 case FrameworkError => 105
  }

  function StatusFromByte(b: byte): Status
  {
    if b == 101 then Pass else if b == 102 then Fail else if b == 103 then Skip else FrameworkError
  }

  lemma StatusRoundTrip(s: Status)
    ensures StatusFromByte(StatusByte(s)) == s && StatusByte(s) != 0
  {
  }

  /** One record: a tag, a length of at most 255, and that many octets. */
  datatype Record = Record(tag: Tag, value: seq<byte>)
  {
    predicate Valid() { |value| <= 255 }
  }

  function RecordBytes(r: Record): (b: seq<byte>)
    requires r.Valid()
    ensures |b| == 2 + |r.value|
  {
    [TagByte(r.tag), |r.value|] + r.value
  }

  predicate AllValid(rs: seq<Record>) { forall i :: 0 <= i < |rs| ==> rs[i].Valid() }

  function Encode(rs: seq<Record>): seq<byte>
    requires AllValid(rs)
  {
    if rs == [] then [] else RecordBytes(rs[0]) + Encode(rs[1..])
  }

  lemma {:induction false} EncodeAppend(rs: seq<Record>, r: Record)
    requires AllValid(rs) && r.Valid()
    ensures AllValid(rs + [r]) && Encode(rs + [r]) == Encode(rs) + RecordBytes(r)
  {
    if rs == [] {
      assert [r][1..] == [];
      assert Encode([r]) == RecordBytes(r) + [];
    } else {
      EncodeAppend(rs[1..], r);
      assert (rs + [r])[1..] == rs[1..] + [r];
      hide RecordBytes;
      assert RecordBytes(rs[0]) + (Encode(rs[1..]) + RecordBytes(r)) == Encode(rs) + RecordBytes(r);
    }
  }

  /** On the wire: the tag's octet, the length, and the value. */
  lemma WireSpelledOut(value: seq<byte>)
    requires |value| <= 255
    ensures RecordBytes(Record(Version, value)) == [0x01, |value|] + value
    ensures RecordBytes(Record(TestName, value)) == [0x10, |value|] + value
    ensures RecordBytes(Record(TestFile, value)) == [0x11, |value|] + value
    ensures RecordBytes(Record(TestStatus, value)) == [0x13, |value|] + value
    ensures RecordBytes(Record(LogFmt, value)) == [0x20, |value|] + value
    ensures RecordBytes(Record(LogArg, value)) == [0x21, |value|] + value
    ensures RecordBytes(Record(LogLine, value)) == [0x22, |value|] + value
    ensures StatusByte(Pass) == 101 && StatusByte(Fail) == 102 && StatusByte(Skip) == 103
    ensures StatusByte(FrameworkError) == 105 && WIRE_VERSION == 1 && SIZE == 8192
  {
  }

  /** Numbers have their least significant octet first. */
  lemma LittleEndian(b: seq<byte>, v: nat)
    ensures |b| == 2 ==> FromLE(b) == b[0] as int + 0x100 * b[1] as int
    ensures |b| >= 2 ==> FromLE(b) == b[0] as int + 0x100 * b[1] as int + 0x1_0000 * FromLE(b[2..])
    ensures v < 0x1_0000 ==> FromLE(ToLE(v, 2)) == v
    ensures v < 0x1_0000_0000 ==> FromLE(ToLE(v, 4)) == v
    ensures v < 0x1_0000_0000_0000_0000 ==> FromLE(ToLE(v, 8)) == v
  {
    assert Pow256(2) == 0x1_0000;
    assert Pow256(4) == 0x1_0000 * Pow256(2);
    assert Pow256(6) == 0x1_0000 * Pow256(4);
    assert Pow256(8) == 0x1_0000 * Pow256(6);
    if |b| >= 2 { assert b[1..][1..] == b[2..]; }
    hide Pow256;
    if v < 0x1_0000 { LERoundTrip(v, 2); }
    if v < 0x1_0000_0000 { LERoundTrip(v, 4); }
    if v < 0x1_0000_0000_0000_0000 { LERoundTrip(v, 8); }
  }

  // ------------------------------------------------------------------ writer

  predicate Fits(pos: nat, len: nat) { len <= 255 && pos + 2 + len <= SIZE }

  /** `TlvWriter`: records are only ever appended, and a refused one changes nothing. */
  class TlvWriter {
    const buf: array<byte>
    var pos: nat

    ghost predicate Valid()
      reads this
    {
      buf.Length == SIZE && pos <= SIZE
    }

    ghost function Written(): seq<byte>
      requires Valid()
      reads this, buf
    {
      buf[..pos]
    }

    /** `new`, short of its version record. */
    constructor (buf: array<byte>)
      requires buf.Length == SIZE
      ensures Valid() && this.buf == buf && pos == 0
    {
      this.buf, pos := buf, 0;
    }

    /** What every `write_*` does once there is room: the tag, the length and the octets. */
    method Put(tag: Tag, data: seq<byte>)
      requires Valid() && Fits(pos, |data|)
      modifies this, buf
      ensures Valid() && pos == old(pos) + 2 + |data|
      ensures Written() == old(Written()) + RecordBytes(Record(tag, data))
      ensures buf[pos..] == old(buf[..])[pos..]
    {
      ghost var before := buf[..];
      buf[pos] := TagByte(tag);
      buf[pos + 1] := |data|;
      CopyFromSlice(buf, pos + 2, data);
      pos := pos + 2 + |data|;
      assert buf[..pos] == before[..old(pos)] + RecordBytes(Record(tag, data));
      assert buf[pos..] == before[pos..];
    }

    predicate Need(n: nat)
      reads this
    {
      pos + n <= SIZE
    }

    method WriteU8(tag: Tag, val: byte) returns (ok: bool)
      requires Valid()
      modifies this, buf
      ensures Valid() && ok == Fits(old(pos), 1)
      ensures ok ==> pos == old(pos) + 3 && Written() == old(Written()) + RecordBytes(Record(tag, [val]))
      ensures !ok ==> pos == old(pos) && buf[..] == old(buf[..])
      ensures buf[pos..] == old(buf[..])[pos..]
    {
      ok := Need(3);
      if ok { Put(tag, [val]); }
    }

    method WriteU16(tag: Tag, val: u16) returns (ok: bool)
      requires Valid()
      modifies this, buf
      ensures Valid() && ok == Fits(old(pos), 2)
      ensures ok ==> pos == old(pos) + 4 && Written() == old(Written()) + RecordBytes(Record(tag, ToLE(val, 2)))
      ensures !ok ==> pos == old(pos) && buf[..] == old(buf[..])
      ensures buf[pos..] == old(buf[..])[pos..]
    {
      ok := Need(4);
      if ok { Put(tag, ToLE(val, 2)); }
    }

    method WriteU32(tag: Tag, val: u32) returns (ok: bool)
      requires Valid()
      modifies this, buf
      ensures Valid() && ok == Fits(old(pos), 4)
      ensures ok ==> pos == old(pos) + 6 && Written() == old(Written()) + RecordBytes(Record(tag, ToLE(val, 4)))
      ensures !ok ==> pos == old(pos) && buf[..] == old(buf[..])
      ensures buf[pos..] == old(buf[..])[pos..]
    {
      ok := Need(6);
      if ok { Put(tag, ToLE(val, 4)); }
    }

    method WriteU64(tag: Tag, val: u64) returns (ok: bool)
      requires Valid()
      modifies this, buf
      ensures Valid() && ok == Fits(old(pos), 8)
      ensures ok ==> pos == old(pos) + 10 && Written() == old(Written()) + RecordBytes(Record(tag, ToLE(val, 8)))
      ensures !ok ==> pos == old(pos) && buf[..] == old(buf[..])
      ensures buf[pos..] == old(buf[..])[pos..]
    {
      ok := Need(10);
      if ok { Put(tag, ToLE(val, 8)); }
    }

    method WriteBytes(tag: Tag, data: seq<byte>) returns (ok: bool)
      requires Valid()
      modifies this, buf
      ensures Valid() && ok == Fits(old(pos), |data|)
      ensures ok ==> pos == old(pos) + 2 + |data| && Written() == old(Written()) + RecordBytes(Record(tag, data))
      ensures !ok ==> pos == old(pos) && buf[..] == old(buf[..])
      ensures buf[pos..] == old(buf[..])[pos..]
    {
      if |data| > 255 { return false; }
      ok := Need(2 + |data|);
      if ok { Put(tag, data); }
    }
  }
}
