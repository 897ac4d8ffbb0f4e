/** The parser of a test result, and the records it understands. */
module TlvReader {
  import opened Bytes
  import opened Tlv

  datatype LogEntry = LogEntry(fmt: seq<byte>, line: u32, args: seq<u64>)

  datatype TestResult = TestResult(name: seq<byte>, file: seq<byte>, status: Status, logs: seq<LogEntry>)

  datatype ParseError =
    | MissingVersionTag
    | IncompatibleVersion(version: byte)
    | TruncatedHeader(offset: nat)
    | TruncatedValue(offset: nat, expected: nat)
    | BadTagLength(tag: Tag, expected: nat, found: nat)
    | OrphanLogField(offset: nat)

  /** `Panics` is the index out of range that an empty version record leads to. */
  datatype Parsed<+T> = Ok(value: T) | Err(error: ParseError) | Panics

  /** `next_tlv` at `cur`: the tag octet, the value, and where the next record begins. */
  function NextTlv(data: seq<byte>, cur: nat): Parsed<(byte, seq<byte>, nat)>
  {
    if cur + 2 > |data| then Err(TruncatedHeader(cur))
    else
      var len := data[cur + 1];
      if cur + 2 + len > |data| then Err(TruncatedValue(cur + 2, len))
      else Ok((data[cur], data[cur + 2..cur + 2 + len], cur + 2 + len))
  }

  /** What one record, read at `offset`, adds to the result. */
  function Apply(r: TestResult, tag: byte, value: seq<byte>, offset: nat): Parsed<TestResult>
  {
    match TagFromByte(tag)
    case Some(TestName) => Ok(r.(name := value))
    case Some(TestFile) => Ok(r.(file := value))
    case Some(TestStatus) =>
      if |value| != 1 then Err(BadTagLength(TestStatus, 1, |value|)) else Ok(r.(status := StatusFromByte(value[0])))
    case Some(LogFmt) => Ok(r.(logs := r.logs + [LogEntry(value, 0, [])]))
    case Some(LogLine) =>
      if |value| != 4 then Err(BadTagLength(LogLine, 4, |value|))
      else if r.logs == [] then Err(OrphanLogField(offset))
      else Ok(r.(logs := WithLast(r.logs, r.logs[|r.logs| - 1].(line := FromLE32(value)))))
    case Some(LogArg) =>
      if |value| != 8 then Err(BadTagLength(LogArg, 8, |value|))
      else if r.logs == [] then Err(OrphanLogField(offset))
      else
        var last := r.logs[|r.logs| - 1];
        Ok(r.(logs := WithLast(r.logs, last.(args := last.args + [FromLE64(value)]))))
    case _ => Ok(r)
  }

  function WithLast(logs: seq<LogEntry>, e: LogEntry): seq<LogEntry>
    requires logs != []
  {
    logs[|logs| - 1 := e]
  }

  lemma {:induction false} FromLEBound(b: seq<byte>)
    ensures FromLE(b) < Pow256(|b|)
  {
    if b != [] { FromLEBound(b[1..]); }
  }

  function FromLE32(b: seq<byte>): u32
    requires |b| == 4
  {
    FromLEBound(b);
    assert Pow256(4) == 0x1_0000_0000 by { assert Pow256(2) == 0x1_0000; }
    FromLE(b)
  }

  function FromLE64(b: seq<byte>): u64
    requires |b| == 8
  {
    FromLEBound(b);
    PowValue64();
    FromLE(b)
  }

  lemma PowValue64()
    ensures Pow256(8) == 0x1_0000_0000_0000_0000
  {
    assert Pow256(4) == 0x1_0000_0000 by { assert Pow256(2) == 0x1_0000; }
    assert Pow256(6) == 0x1_0000 * Pow256(4);
    assert Pow256(8) == 0x1_0000 * Pow256(6);
  }

  /** Reads records from `cur` to the end. */
  function ParseRest(data: seq<byte>, cur: nat, r: TestResult): Parsed<TestResult>
    decreases |data| - cur
  {
    if cur >= |data| then Ok(r)
    else
      match NextTlv(data, cur)
      case Err(e) => Err(e)
      case Panics => Panics
      case Ok((tag, value, next)) =>
        match Apply(r, tag, value, cur)
        case Err(e) => Err(e)
        case Panics => Panics
        case Ok(r') => ParseRest(data, next, r')
  }

  const EMPTY: TestResult := TestResult([], [], FrameworkError, [])

  function Parse(data: seq<byte>): Parsed<TestResult>
  {
    match NextTlv(data, 0)
    case Err(e) => Err(e)
    case Panics => Panics
    case Ok((tag, value, next)) =>
      if TagFromByte(tag) != Some(Version) then Err(MissingVersionTag)
      else if value == [WIRE_VERSION] then ParseRest(data, next, EMPTY)
      else if value == [] then Panics
      else Err(IncompatibleVersion(value[0]))
  }

  /** What the first record leads to, octet by octet. */
  lemma HeaderSpelledOut(data: seq<byte>)
    ensures Parse(data) ==
            if |data| < 2 then Err(TruncatedHeader(0))
            else if |data| < 2 + data[1] as int then Err(TruncatedValue(2, data[1]))
            else if data[0] != 1 then Err(MissingVersionTag)
            else if data[1] == 0 then Panics
            else if data[1] == 1 && data[2] == 1 then ParseRest(data, 3, TestResult([], [], FrameworkError, []))
            else Err(IncompatibleVersion(data[2]))
  {
    hide ParseRest;
    if 2 <= |data| && |data| >= 2 + data[1] as int && data[1] > 0 {
      var value := data[2..2 + data[1]];
      assert value[0] == data[2] && (data[1] == 1 ==> value == [data[2]]);
    }
  }

  /** And every further one: the tags and what they require of the value; other tags are
      passed over. */
  lemma RecordSpelledOut(data: seq<byte>, cur: nat, r: TestResult)
    requires cur < |data|
    ensures |data| < cur + 2 ==> ParseRest(data, cur, r) == Err(TruncatedHeader(cur))
    ensures |data| >= cur + 2 && |data| < cur + 2 + data[cur + 1] as int ==>
              ParseRest(data, cur, r) == Err(TruncatedValue(cur + 2, data[cur + 1]))
    ensures |data| >= cur + 2 && |data| >= cur + 2 + data[cur + 1] as int ==>
              var tag, len := data[cur], data[cur + 1];
              var next, value := cur + 2 + len, data[cur + 2..cur + 2 + len];
              ParseRest(data, cur, r) ==
              if tag == 0x10 then ParseRest(data, next, r.(name := value))
              else if tag == 0x11 then ParseRest(data, next, r.(file := value))
              else if tag == 0x13 then
                if len != 1 then Err(BadTagLength(TestStatus, 1, len))
                else
                  var status := if value[0] == 101 then Pass else if value[0] == 102 then Fail
                                else if value[0] == 103 then Skip else FrameworkError;
                  ParseRest(data, next, r.(status := status))
              else if tag == 0x20 then ParseRest(data, next, r.(logs := r.logs + [LogEntry(value, 0, [])]))
              else if tag != 0x21 && tag != 0x22 then ParseRest(data, next, r)
              else if len != (if tag == 0x21 then 8 else 4) then
                Err(BadTagLength(if tag == 0x21 then LogArg else LogLine, if tag == 0x21 then 8 else 4, len))
              else if r.logs == [] then Err(OrphanLogField(cur))
              else
                var before, last := r.logs[..|r.logs| - 1], r.logs[|r.logs| - 1];
                var told := if tag == 0x21 then last.(args := last.args + [FromLE64(value)])
                            else last.(line := FromLE32(value));
                ParseRest(data, next, r.(logs := before + [told]))
  {
    if |data| >= cur + 2 && |data| >= cur + 2 + data[cur + 1] as int && r.logs != [] {
      var next := cur + 2 + data[cur + 1];
      ReplaceLast(r.logs);
    }
  }

  lemma ReplaceLast(logs: seq<LogEntry>)
    requires logs != []
    ensures forall e :: WithLast(logs, e) == logs[..|logs| - 1] + [e]
  {
  }

  /** `parse_test`. */
  method ParseTest(data: seq<byte>) returns (result: Parsed<TestResult>)
    ensures result == Parse(data)
  {
    var first := NextTlv(data, 0);
    if first.Err? { return Err(first.error); }
    var (tag, value, cur) := first.value;
    if tag != TagByte(Version) { return Err(MissingVersionTag); }
    if value != [WIRE_VERSION] {
      if value == [] { return Panics; }
      return Err(IncompatibleVersion(value[0]));
    }
    var name, file, status, logs: seq<LogEntry> := [], [], FrameworkError, [];
    while cur < |data|
      invariant ParseRest(data, cur, TestResult(name, file, status, logs)) == Parse(data)
      decreases |data| - cur
    {
      var offset := cur;
      var next := NextTlv(data, cur);
      if next.Err? { return Err(next.error); }
      tag, value, cur := next.value.0, next.value.1, next.value.2;
      match TagFromByte(tag) {
        case Some(TestName) => name := value;
        case Some(TestFile) => file := value;
        case Some(TestStatus) =>
          if |value| != 1 { return Err(BadTagLength(TestStatus, 1, |value|)); }
          status := StatusFromByte(value[0]);
        case Some(LogFmt) => logs := logs + [LogEntry(value, 0, [])];
        case Some(LogLine) =>
          if |value| != 4 { return Err(BadTagLength(LogLine, 4, |value|)); }
          if logs == [] { return Err(OrphanLogField(offset)); }
          logs := WithLast(logs, logs[|logs| - 1].(line := FromLE32(value)));
        case Some(LogArg) =>
          if |value| != 8 { return Err(BadTagLength(LogArg, 8, |value|)); }
          if logs == [] { return Err(OrphanLogField(offset)); }
          var last := logs[|logs| - 1];
          logs := WithLast(logs, last.(args := last.args + [FromLE64(value)]));
        case _ =>
      }
    }
    result := Ok(TestResult(name, file, status, logs));
  }

  /** The only way to make the parser panic is a version record without a value. */
  lemma PanicsIff(data: seq<byte>)
    ensures Parse(data).Panics? <==> |data| >= 2 && data[0] == TagByte(Version) && data[1] == 0
  {
    var first := NextTlv(data, 0);
    if first.Ok? && TagFromByte(first.value.0) == Some(Version) && first.value.1 == [WIRE_VERSION] {
      NoPanicInside(data, first.value.2, EMPTY);
    }
  }

  lemma {:induction false} NoPanicInside(data: seq<byte>, cur: nat, r: TestResult)
    ensures !ParseRest(data, cur, r).Panics?
    decreases |data| - cur
  {
    if cur < |data| && NextTlv(data, cur).Ok? {
      var (tag, value, next) := NextTlv(data, cur).value;
      if Apply(r, tag, value, cur).Ok? { NoPanicInside(data, next, Apply(r, tag, value, cur).value); }
    }
  }

  // ------------------------------------------------------------------ reading what was written

  /** What a sequence of records adds to a result, the first of them read at `offset`. */
  function Interpret(rs: seq<Record>, r: TestResult, offset: nat): Parsed<TestResult>
    requires AllValid(rs)
  {
    if rs == [] then Ok(r)
    else
      match Apply(r, TagByte(rs[0].tag), rs[0].value, offset)
      case Err(e) => Err(e)
      case Panics => Panics
      case Ok(r') => Interpret(rs[1..], r', offset + |RecordBytes(rs[0])|)
  }

  lemma EncodeFirst(rs: seq<Record>, rest: seq<byte>)
    requires AllValid(rs) && rs != []
    ensures Encode(rs) + rest == RecordBytes(rs[0]) + (Encode(rs[1..]) + rest)
    ensures |Encode(rs)| == |RecordBytes(rs[0])| + |Encode(rs[1..])|
  {
  }

  /** Reading on from `cur`, unless it has stopped before. */
  function ReadOn(data: seq<byte>, cur: nat, p: Parsed<TestResult>): Parsed<TestResult>
  {
    if p.Ok? then ParseRest(data, cur, p.value) else p
  }

  /** The parser reads whole records as they were encoded, whatever follows them. */
  lemma {:induction false} ParsePrefix(data: seq<byte>, cur: nat, rs: seq<Record>, rest: seq<byte>, r: TestResult)
    requires AllValid(rs) && cur <= |data| && data[cur..] == Encode(rs) + rest
    ensures ParseRest(data, cur, r) == ReadOn(data, cur + |Encode(rs)|, Interpret(rs, r, cur))
    decreases |rs|
  {
    hide Apply, NextTlv, RecordBytes, ParseRest, TagByte;
    if rs != [] {
      EncodeFirst(rs, rest);
      hide Encode, Interpret;
      NextEncoded(data, cur, rs[0], Encode(rs[1..]) + rest);
      RestStep(data, cur, rs, r);
      var next := cur + |RecordBytes(rs[0])|;
      var r' := Apply(r, TagByte(rs[0].tag), rs[0].value, cur);
      if r'.Ok? {
        hide ReadOn;
        ParsePrefix(data, next, rs[1..], rest, r'.value);
        assert cur + |Encode(rs)| == next + |Encode(rs[1..])|;
      }
    }
  }

  /** The parser reads back exactly the records that were encoded. */
  lemma ParseEncoded(data: seq<byte>, cur: nat, rs: seq<Record>, r: TestResult)
    requires AllValid(rs) && cur <= |data| && data[cur..] == Encode(rs)
    ensures ParseRest(data, cur, r) == Interpret(rs, r, cur)
  {
    assert Encode(rs) + [] == Encode(rs) && cur + |Encode(rs)| == |data|;
    ParsePrefix(data, cur, rs, [], r);
    hide Encode, Interpret;
  }

  /** A record that lacks its last octets stops the parser, with an error that says where. */
  lemma ParseCut(data: seq<byte>, cur: nat, last: Record, k: nat, r: TestResult)
    requires last.Valid() && 0 < k < |RecordBytes(last)| && cur <= |data| && data[cur..] == RecordBytes(last)[..k]
    ensures ParseRest(data, cur, r) == Err(CutError(cur, last, k))
  {
    assert |data| == cur + k;
    if k > 1 { assert data[cur + 1] == data[cur..][1] == |last.value|; }
  }

  function CutError(cur: nat, last: Record, k: nat): ParseError
  {
    if k == 1 then TruncatedHeader(cur) else TruncatedValue(cur + 2, |last.value|)
  }

  /** Reading and interpreting take the same first step. */
  lemma RestStep(data: seq<byte>, cur: nat, rs: seq<Record>, r: TestResult)
    requires AllValid(rs) && rs != [] && cur < |data|
    requires NextTlv(data, cur) == Ok((TagByte(rs[0].tag), rs[0].value, cur + |RecordBytes(rs[0])|))
    ensures var next, r' := cur + |RecordBytes(rs[0])|, Apply(r, TagByte(rs[0].tag), rs[0].value, cur);
            && (r'.Ok? ==> ParseRest(data, cur, r) == ParseRest(data, next, r'.value))
            && (r'.Ok? ==> Interpret(rs, r, cur) == Interpret(rs[1..], r'.value, next))
            && (!r'.Ok? ==> ParseRest(data, cur, r) == Interpret(rs, r, cur) && !Interpret(rs, r, cur).Ok?)
  {
    hide Apply, NextTlv, RecordBytes;
  }

  lemma NextEncoded(data: seq<byte>, cur: nat, r: Record, rest: seq<byte>)
    requires r.Valid() && cur <= |data| && data[cur..] == RecordBytes(r) + rest
    ensures var next := cur + |RecordBytes(r)|;
            next <= |data| && data[next..] == rest && NextTlv(data, cur) == Ok((TagByte(r.tag), r.value, next))
  {
    var tail := data[cur..];
    assert |data| == cur + |tail| && data[cur] == tail[0] && data[cur + 1] == tail[1];
    assert data[cur + 2..cur + 2 + |r.value|] == tail[2..2 + |r.value|] == r.value;
    assert data[cur + |RecordBytes(r)|..] == tail[|RecordBytes(r)|..] == rest;
  }

  /** A buffer that starts with a version record parses to what its records say, as far as
      they are whole. */
  lemma ParseWhole(rs: seq<Record>, rest: seq<byte>)
    requires AllValid(rs) && rs != [] && rs[0] == Record(Version, [WIRE_VERSION])
    ensures Parse(Encode(rs) + rest) == ReadOn(Encode(rs) + rest, |Encode(rs)|, Interpret(rs, EMPTY, 0))
  {
    VersionFirst(rs);
    hide Encode, Interpret, RecordBytes, NextTlv, ParseRest;
    var data := Encode(rs) + rest;
    assert data[0..] == data == RecordBytes(rs[0]) + (Encode(rs[1..]) + rest);
    NextEncoded(data, 0, rs[0], Encode(rs[1..]) + rest);
    ParsePrefix(data, 3, rs[1..], rest, EMPTY);
  }

  lemma VersionFirst(rs: seq<Record>)
    requires AllValid(rs) && rs != [] && rs[0] == Record(Version, [WIRE_VERSION])
    ensures Encode(rs) == RecordBytes(rs[0]) + Encode(rs[1..]) && |RecordBytes(rs[0])| == 3
    ensures Interpret(rs, EMPTY, 0) == Interpret(rs[1..], EMPTY, 3)
  {
  }

  lemma {:induction false} InterpretAppend(rs: seq<Record>, last: Record, r: TestResult, offset: nat)
    requires AllValid(rs) && last.Valid()
    ensures AllValid(rs + [last])
    ensures Interpret(rs, r, offset).Ok? ==>
              Interpret(rs + [last], r, offset)
              == Apply(Interpret(rs, r, offset).value, TagByte(last.tag), last.value, offset + |Encode(rs)|)
    ensures !Interpret(rs, r, offset).Ok? ==> Interpret(rs + [last], r, offset) == Interpret(rs, r, offset)
  {
    if rs == [] {
      assert [last][1..] == [];
      InterpretOne(last, r, offset);
      assert rs + [last] == [last];
    } else {
      assert (rs + [last])[1..] == rs[1..] + [last] && (rs + [last])[0] == rs[0];
      hide Apply, RecordBytes;
      if Apply(r, TagByte(rs[0].tag), rs[0].value, offset).Ok? {
        var r' := Apply(r, TagByte(rs[0].tag), rs[0].value, offset).value;
        InterpretAppend(rs[1..], last, r', offset + |RecordBytes(rs[0])|);
      }
    }
  }

  lemma InterpretOne(last: Record, r: TestResult, offset: nat)
    requires last.Valid()
    ensures Interpret([last], r, offset) == Apply(r, TagByte(last.tag), last.value, offset)
  {
    hide Apply;
    assert [last][1..] == [];
  }

  // ------------------------------------------------------------------ trimming

  function TrimZeros(raw: seq<byte>): seq<byte>
  {
    if raw != [] && raw[|raw| - 1] == 0 then TrimZeros(raw[..|raw| - 1]) else raw
  }

  function Zeros(n: nat): seq<byte> { seq(n, _ => 0) }

  /** Trimming recovers what was written exactly when that does not itself end in a zero. */
  lemma {:induction false} TrimRecoversIff(written: seq<byte>, n: nat)
    ensures TrimZeros(written + Zeros(n)) == written <==> written == [] || written[|written| - 1] != 0
  {
    if n == 0 {
      assert written + Zeros(0) == written;
      TrimEnds(written);
    } else {
      TrimRecoversIff(written, n - 1);
      assert (written + Zeros(n))[..|written| + n - 1] == written + Zeros(n - 1);
    }
  }

  lemma {:induction false} TrimEnds(raw: seq<byte>)
    ensures var t := TrimZeros(raw); t == [] || t[|t| - 1] != 0
  {
    if raw != [] && raw[|raw| - 1] == 0 { TrimEnds(raw[..|raw| - 1]); }
  }

  lemma {:induction false} TrimPadding(written: seq<byte>, n: nat)
    ensures TrimZeros(written + Zeros(n)) == TrimZeros(written)
  {
    if n == 0 {
      assert written + Zeros(0) == written;
    } else {
      TrimPadding(written, n - 1);
      assert (written + Zeros(n))[..|written| + n - 1] == written + Zeros(n - 1);
    }
  }

  /** Trimming stops at the latest at an octet that is not zero. */
  lemma {:induction false} TrimStops(front: seq<byte>, b: seq<byte>)
    requires b != [] && b[0] != 0
    ensures TrimZeros(b) != [] && TrimZeros(b) <= b && TrimZeros(front + b) == front + TrimZeros(b)
    decreases |b|
  {
    var n := |b| - 1;
    if b[n] == 0 {
      assert (front + b)[..|front + b| - 1] == front + b[..n];
      TrimStops(front, b[..n]);
    }
  }

  /** What the runner makes of the buffer: nothing, or a parse of the trimmed octets. */
  function Report(raw: seq<byte>): Option<Parsed<TestResult>>
  {
    if TrimZeros(raw) == [] then None else Some(Parse(TrimZeros(raw)))
  }

  method ReadBack(raw: seq<byte>) returns (report: Option<Parsed<TestResult>>)
    ensures report == Report(raw)
  {
    var written: nat := |raw|;
    assert raw[..written] == raw;
    while written > 0 && raw[written - 1] == 0
      invariant written <= |raw| && TrimZeros(raw[..written]) == TrimZeros(raw)
    {
      assert raw[..written][..written - 1] == raw[..written - 1];
      written := written - 1;
    }
    assert TrimZeros(raw) == raw[..written];
    if written == 0 { return None; }
    var result := ParseTest(raw[..written]);
    report := Some(result);
  }
}
