/** The test suite a BPF test program fills in: name, file, log entries and a status. */
module TestSuite {
  import opened Bytes
  import opened Tlv
  import opened TlvReader

  /** The records spell this result to the parser. */
  ghost predicate Spells(rs: seq<Record>, r: TestResult)
  {
    && AllValid(rs) && rs != [] && rs[0] == Record(Version, [WIRE_VERSION])
    && Interpret(rs, EMPTY, 0) == Ok(r)
  }

  lemma SpellsMore(rs: seq<Record>, r: TestResult, last: Record, r': TestResult)
    requires Spells(rs, r) && last.Valid() && Apply(r, TagByte(last.tag), last.value, |Encode(rs)|) == Ok(r')
    ensures Spells(rs + [last], r') && Encode(rs + [last]) == Encode(rs) + RecordBytes(last)
  {
    hide Apply, Interpret, RecordBytes, Encode;
    InterpretAppend(rs, last, EMPTY, 0);
    EncodeAppend(rs, last);
  }

  lemma SpellsValid(rs: seq<Record>, r: TestResult)
    requires Spells(rs, r)
    ensures AllValid(rs)
  {
  }

  lemma SpellsParse(rs: seq<Record>, r: TestResult)
    requires Spells(rs, r)
    ensures Parse(Encode(rs)) == Ok(r)
  {
    ParseWhole(rs, []);
    assert Encode(rs) + [] == Encode(rs);
  }

  lemma ReadFmt(r: TestResult, fmt: seq<byte>, offset: nat)
    ensures Apply(r, TagByte(LogFmt), fmt, offset) == Ok(r.(logs := r.logs + [LogEntry(fmt, 0, [])]))
  {
  }

  lemma ReadLine(r: TestResult, before: seq<LogEntry>, fmt: seq<byte>, line: u32, offset: nat)
    requires r.logs == before + [LogEntry(fmt, 0, [])]
    ensures Apply(r, TagByte(LogLine), ToLE(line, 4), offset) == Ok(r.(logs := before + [LogEntry(fmt, line, [])]))
  {
    assert Pow256(4) == 0x1_0000_0000 by { assert Pow256(2) == 0x1_0000; }
    LERoundTrip(line, 4);
    hide ToLE, FromLE;
    assert r.logs[|r.logs| - 1] == LogEntry(fmt, 0, []);
    assert WithLast(r.logs, LogEntry(fmt, line, [])) == before + [LogEntry(fmt, line, [])];
  }

  lemma ReadArg(r: TestResult, before: seq<LogEntry>, e: LogEntry, a: u64, offset: nat)
    requires r.logs == before + [e]
    ensures Apply(r, TagByte(LogArg), ToLE(a, 8), offset) == Ok(r.(logs := before + [e.(args := e.args + [a])]))
  {
    PowValue64();
    LERoundTrip(a, 8);
    hide ToLE, FromLE, Pow256;
    assert r.logs[|r.logs| - 1] == e;
    assert WithLast(r.logs, e.(args := e.args + [a])) == before + [e.(args := e.args + [a])];
  }

  // ------------------------------------------------------------------ what fits

  /** How many of `n` arguments fit from `pos` on. */
  function ArgsThatFit(pos: nat, n: nat): (k: nat)
    ensures k <= n
    decreases n
  {
    if n == 0 || !Fits(pos, 8) then 0 else 1 + ArgsThatFit(pos + 10, n - 1)
  }

  /** As many as there is room for, ten octets each. */
  lemma {:induction false} ArgsThatFitIs(pos: nat, n: nat)
    requires pos <= 8192
    ensures var k := ArgsThatFit(pos, n); pos + 10 * k <= 8192 && (k < n ==> 8192 < pos + 10 * (k + 1))
    decreases n
  {
    if n > 0 && Fits(pos, 8) { ArgsThatFitIs(pos + 10, n - 1); }
  }

  /** The entry a log call at `pos` leaves: none when its format does not fit, one without
      line or with only the first arguments when the buffer runs out inside it. */
  function Logged(pos: nat, line: u32, fmt: seq<byte>, args: seq<u64>): Option<LogEntry>
  {
    var afterFmt := pos + 2 + |fmt|;
    if !Fits(pos, |fmt|) then None
    else if !Fits(afterFmt, 4) then Some(LogEntry(fmt, 0, []))
    else Some(LogEntry(fmt, line, args[..ArgsThatFit(afterFmt + 6, |args|)]))
  }

  /** All of a log call fits. */
  predicate LogFits(pos: nat, fmt: seq<byte>, args: seq<u64>)
  {
    |fmt| <= 255 && pos + 2 + |fmt| + 6 + 10 * |args| <= SIZE
  }

  lemma {:induction false} ArgsFit(pos: nat, n: nat)
    requires pos <= SIZE
    ensures ArgsThatFit(pos, n) == n <==> pos + 10 * n <= SIZE
    decreases n
  {
    if n > 0 && Fits(pos, 8) { ArgsFit(pos + 10, n - 1); }
  }

  /** What fits whole is logged whole. */
  lemma LoggedWhole(pos: nat, line: u32, fmt: seq<byte>, args: seq<u64>)
    requires LogFits(pos, fmt, args)
    ensures Logged(pos, line, fmt, args) == Some(LogEntry(fmt, line, args))
  {
    ArgsFit(pos + 2 + |fmt| + 6, |args|);
    assert args[..|args|] == args;
  }

  function Entries(e: Option<LogEntry>): seq<LogEntry> { if e.Some? then [e.value] else [] }

  lemma ZerosTail(n: nat, k: nat)
    requires k <= n
    ensures Zeros(n)[k..] == Zeros(n - k)
  {
  }

  // ------------------------------------------------------------------ suite

  class Suite {
    const writer: TlvWriter
    const name: seq<byte>
    const file: seq<byte>
    var status: Status
    /** The records written so far, and the log entries they spell. */
    ghost var records: seq<Record>
    ghost var logs: seq<LogEntry>

    ghost function SoFar(): TestResult
      reads `logs
    {
      TestResult(name, file, FrameworkError, logs)
    }

    /** The buffer holds the records and then only zeros. */
    ghost predicate Valid()
      reads `records, `logs, writer, writer.buf
    {
      && Spells(records, SoFar())
      && writer.Valid() && writer.Written() == Encode(records)
      && writer.buf[writer.pos..] == Zeros(SIZE - writer.pos)
    }

    constructor (writer: TlvWriter, name: seq<byte>, file: seq<byte>, ghost records: seq<Record>)
      requires Spells(records, TestResult(name, file, FrameworkError, []))
      requires writer.Valid() && writer.Written() == Encode(records)
      requires writer.buf[writer.pos..] == Zeros(SIZE - writer.pos)
      ensures Valid() && this.writer == writer && this.name == name && this.file == file
      ensures status == Pass && logs == [] && this.records == records
    {
      this.writer, this.name, this.file, status := writer, name, file, Pass;
      this.records, logs := records, [];
    }

    /** A record has just been written. */
    ghost method Note(r: Record, logs': seq<LogEntry>)
      requires r.Valid() && Spells(records, SoFar())
      requires writer.Valid() && writer.Written() == Encode(records) + RecordBytes(r)
      requires writer.buf[writer.pos..] == Zeros(SIZE - writer.pos)
      requires Apply(SoFar(), TagByte(r.tag), r.value, |Encode(records)|) == Ok(SoFar().(logs := logs'))
      modifies `records, `logs
      ensures Valid() && logs == logs' && records == old(records) + [r]
    {
      hide Spells, Apply, Encode, RecordBytes, Zeros;
      SpellsMore(records, SoFar(), r, SoFar().(logs := logs'));
      records, logs := records + [r], logs';
    }

    /** One of the record writes a log call is made of. */
    method WriteFmt(fmt: seq<byte>) returns (ok: bool)
      requires Valid()
      modifies `records, `logs, writer, writer.buf
      ensures Valid() && ok == Fits(old(writer.pos), |fmt|)
      ensures writer.pos == old(writer.pos) + if ok then 2 + |fmt| else 0
      ensures logs == old(logs) + if ok then [LogEntry(fmt, 0, [])] else []
    {
      SpellsValid(records, SoFar());
      hide Spells, Apply, Encode, RecordBytes, Zeros;
      ghost var pos := writer.pos;
      ok := writer.WriteBytes(LogFmt, fmt);
      if ok {
        ZerosTail(SIZE - pos, writer.pos - pos);
        ReadFmt(SoFar(), fmt, |Encode(records)|);
        Note(Record(LogFmt, fmt), logs + [LogEntry(fmt, 0, [])]);
      }
    }

    method WriteLine(line: u32, ghost before: seq<LogEntry>, ghost fmt: seq<byte>) returns (ok: bool)
      requires Valid() && logs == before + [LogEntry(fmt, 0, [])]
      modifies `records, `logs, writer, writer.buf
      ensures Valid() && ok == Fits(old(writer.pos), 4)
      ensures writer.pos == old(writer.pos) + if ok then 6 else 0
      ensures logs == if ok then before + [LogEntry(fmt, line, [])] else old(logs)
    {
      SpellsValid(records, SoFar());
      hide Spells, Apply, Encode, RecordBytes, Zeros, ToLE;
      ghost var pos := writer.pos;
      ok := writer.WriteU32(LogLine, line);
      if ok {
        ZerosTail(SIZE - pos, writer.pos - pos);
        ReadLine(SoFar(), before, fmt, line, |Encode(records)|);
        Note(Record(LogLine, ToLE(line, 4)), before + [LogEntry(fmt, line, [])]);
      }
    }

    method WriteArg(a: u64, ghost before: seq<LogEntry>, ghost e: LogEntry) returns (ok: bool)
      requires Valid() && logs == before + [e]
      modifies `records, `logs, writer, writer.buf
      ensures Valid() && ok == Fits(old(writer.pos), 8)
      ensures writer.pos == old(writer.pos) + if ok then 10 else 0
      ensures logs == if ok then before + [e.(args := e.args + [a])] else old(logs)
    {
      SpellsValid(records, SoFar());
      hide Spells, Apply, Encode, RecordBytes, Zeros, ToLE;
      ghost var pos := writer.pos;
      ok := writer.WriteU64(LogArg, a);
      if ok {
        ZerosTail(SIZE - pos, writer.pos - pos);
        ReadArg(SoFar(), before, e, a, |Encode(records)|);
        Note(Record(LogArg, ToLE(a, 8)), before + [e.(args := e.args + [a])]);
      }
    }

    /** `write_log_inner`. */
    method WriteLogInner(line: u32, fmt: seq<byte>, args: seq<u64>) returns (ok: bool)
      requires Valid()
      modifies `records, `logs, writer, writer.buf
      ensures Valid() && ok == LogFits(old(writer.pos), fmt, args)
      ensures ok ==> writer.pos == old(writer.pos) + 8 + |fmt| + 10 * |args|
      ensures logs == old(logs) + Entries(Logged(old(writer.pos), line, fmt, args))
    {
      hide Valid;
      ghost var before, start := logs, writer.pos;
      ok := WriteFmt(fmt);
      if !ok { return; }
      ok := WriteLine(line, before, fmt);
      if !ok { return; }
      ghost var argStart := writer.pos;
      ArgsFit(argStart, |args|);
      for i := 0 to |args|
        invariant Valid() && writer.pos == argStart + 10 * i
        invariant logs == before + [LogEntry(fmt, line, args[..i])]
        invariant ArgsThatFit(argStart, |args|) == i + ArgsThatFit(writer.pos, |args| - i)
      {
        ok := WriteArg(args[i], before, LogEntry(fmt, line, args[..i]));
        if !ok { return; }
        assert args[..i + 1] == args[..i] + [args[i]];
      }
      ok := true;
    }

    /** `log` and its fixed-arity forms: a log call that does not fit whole marks the test. */
    method Log(line: u32, fmt: seq<byte>, args: seq<u64>)
      requires Valid()
      modifies this, writer, writer.buf
      ensures Valid() && logs == old(logs) + Entries(Logged(old(writer.pos), line, fmt, args))
      ensures status == if LogFits(old(writer.pos), fmt, args) then old(status) else FrameworkError
      ensures LogFits(old(writer.pos), fmt, args) ==> writer.pos == old(writer.pos) + 8 + |fmt| + 10 * |args|
    {
      hide Valid, Logged, Spells;
      var ok := WriteLogInner(line, fmt, args);
      if !ok { status := FrameworkError; }
    }

    /** `set_status`, `fail` and `skip`. */
    method SetStatus(status: Status)
      requires Valid()
      modifies `status
      ensures Valid() && this.status == status
    {
      this.status := status;
    }

    /** The last write of a test program: its status, which is also its exit code. When it
        fits, the runner reads back the name, the file, the status and every entry. */
    method Finish() returns (code: Status)
      requires Valid()
      modifies `records, writer, writer.buf
      ensures code == if Fits(old(writer.pos), 1) then status else FrameworkError
      ensures Fits(old(writer.pos), 1) ==>
                Report(writer.buf[..]) == Some(Ok(TestResult(name, file, status, logs)))
      ensures !Fits(old(writer.pos), 1) ==>
                && Valid() && writer.buf[..] == old(writer.buf[..]) && writer.pos > 0
                && (Report(writer.buf[..]) == Some(Ok(SoFar())) <==> writer.buf[writer.pos - 1] != 0)
    {
      SpellsValid(records, SoFar());
      hide Spells, Apply, Encode, RecordBytes, Zeros, TrimZeros, Parse;
      ghost var pos := writer.pos;
      var ok := writer.WriteU8(Tag.TestStatus, StatusByte(status));
      if !ok {
        assert writer.buf[..] == writer.Written() + Zeros(SIZE - pos);
        var _ := ReportOfRecords(records, SoFar(), SIZE - pos);
        return FrameworkError;
      }
      ZerosTail(SIZE - pos, writer.pos - pos);
      StatusReads(records, SoFar(), status);
      records := records + [Record(Tag.TestStatus, [StatusByte(status)])];
      assert writer.buf[..] == Encode(records) + Zeros(SIZE - writer.pos);
      ReportOfStatus(records, SoFar().(status := status), status, SIZE - writer.pos);
      code := status;
    }
  }

  lemma StatusReads(rs: seq<Record>, r: TestResult, status: Status)
    requires Spells(rs, r)
    ensures var last := Record(Tag.TestStatus, [StatusByte(status)]);
            && AllValid(rs + [last]) && Encode(rs + [last]) == Encode(rs) + RecordBytes(last)
            && Spells(rs + [last], r.(status := status))
  {
    var last := Record(Tag.TestStatus, [StatusByte(status)]);
    StatusRoundTrip(status);
    assert Apply(r, TagByte(last.tag), last.value, |Encode(rs)|) == Ok(r.(status := status));
    SpellsMore(rs, r, last, r.(status := status));
  }

  /** A status record is never a zero, so trimming stops right after it. */
  lemma ReportOfStatus(rs: seq<Record>, r: TestResult, status: Status, n: nat)
    requires Spells(rs, r) && rs[|rs| - 1] == Record(Tag.TestStatus, [StatusByte(status)])
    ensures Report(Encode(rs) + Zeros(n)) == Some(Ok(r))
  {
    EndsInStatus(rs, status);
    SpellsParse(rs, r);
    SpellsValid(rs, r);
    hide Encode, Spells, TrimZeros, Parse, Zeros;
    TrimRecoversIff(Encode(rs), n);
  }

  /** What the runner makes of records that do not end in a status, as after a refused one:
      the whole result where the last octet is not a zero, and otherwise an error about the
      last record, of which trimming has left only `k` octets. */
  lemma ReportOfRecords(rs: seq<Record>, r: TestResult, n: nat) returns (k: nat)
    requires Spells(rs, r)
    ensures Encode(rs) != []
    ensures var written, front, last := Encode(rs), rs[..|rs| - 1], rs[|rs| - 1];
            && (written[|written| - 1] != 0 ==> Report(written + Zeros(n)) == Some(Ok(r)))
            && (written[|written| - 1] == 0 ==>
                  && 0 < k < 2 + |last.value| && AllValid(front)
                  && Report(written + Zeros(n)) == Some(Err(CutError(|Encode(front)|, last, k))))
  {
    var front, last := rs[..|rs| - 1], rs[|rs| - 1];
    assert rs == front + [last];
    EncodeAppend(front, last);
    var written, left := Encode(rs), TrimZeros(RecordBytes(last));
    assert written[|written| - 1] == RecordBytes(last)[|RecordBytes(last)| - 1];
    k := |left|;
    if written[|written| - 1] != 0 {
      TrimRecoversIff(written, n);
      SpellsParse(rs, r);
    } else {
      CutReads(rs, r, front, last);
      TrimPadding(written, n);
    }
  }

  lemma CutReads(rs: seq<Record>, r: TestResult, front: seq<Record>, last: Record)
    requires Spells(rs, r) && rs == front + [last]
    requires AllValid(front) && last.Valid() && Encode(rs) == Encode(front) + RecordBytes(last)
    requires RecordBytes(last)[|RecordBytes(last)| - 1] == 0
    ensures var left := TrimZeros(RecordBytes(last));
            && 0 < |left| < 2 + |last.value|
            && TrimZeros(Encode(rs)) == Encode(front) + left
            && Parse(Encode(front) + left) == Err(CutError(|Encode(front)|, last, |left|))
  {
    var left := TrimZeros(RecordBytes(last));
    TrimStops(Encode(front), RecordBytes(last));
    TrimEnds(RecordBytes(last));
    assert RecordBytes(rs[0])[|RecordBytes(rs[0])| - 1] == WIRE_VERSION;
    assert rs[0] != last;
    assert front != [] && front[0] == rs[0];
    InterpretAppend(front, last, EMPTY, 0);
    hide Interpret, Apply, Encode, ParseRest, Parse, TrimZeros, RecordBytes;
    ParseWhole(front, left);
    var data := Encode(front) + left;
    assert data[|Encode(front)|..] == left == RecordBytes(last)[..|left|];
    ParseCut(data, |Encode(front)|, last, |left|, Interpret(front, EMPTY, 0).value);
  }

  lemma EndsInStatus(rs: seq<Record>, status: Status)
    requires AllValid(rs) && rs != [] && rs[|rs| - 1] == Record(Tag.TestStatus, [StatusByte(status)])
    ensures Encode(rs) != [] && Encode(rs)[|Encode(rs)| - 1] == StatusByte(status) != 0
  {
    var last, front := rs[|rs| - 1], rs[..|rs| - 1];
    assert rs == front + [last];
    EncodeAppend(front, last);
    hide Encode;
    assert Encode(rs)[|Encode(rs)| - 1] == RecordBytes(last)[2];
  }

  /** `TestSuite::new` on a buffer the runner has cleared. */
  method NewSuite(buf: array<byte>, name: seq<byte>, file: seq<byte>) returns (suite: Option<Suite>)
    requires buf.Length == SIZE && buf[..] == Zeros(SIZE)
    modifies buf
    ensures suite.Some? <==> |name| <= 255 && |file| <= 255
    ensures suite.Some? ==>
              && fresh(suite.value) && fresh(suite.value.writer) && suite.value.writer.buf == buf && suite.value.Valid()
              && suite.value.name == name && suite.value.file == file
              && suite.value.status == Pass && suite.value.logs == []
              && suite.value.writer.pos == 7 + |name| + |file|
  {
    hide Spells, Encode, RecordBytes, Zeros;
    var writer := new TlvWriter(buf);
    ghost var r0, r1, r2 := Record(Version, [WIRE_VERSION]), Record(TestName, name), Record(TestFile, file);
    var ok := writer.WriteU8(Version, WIRE_VERSION);
    assert ok && writer.Written() == RecordBytes(r0);
    ZerosTail(SIZE, writer.pos);
    ghost var pos := writer.pos;
    ok := writer.WriteBytes(TestName, name);
    if !ok { return None; }
    ZerosTail(SIZE - pos, writer.pos - pos);
    pos := writer.pos;
    ok := writer.WriteBytes(TestFile, file);
    if !ok { return None; }
    ZerosTail(SIZE - pos, writer.pos - pos);
    HeaderSpells(name, file);
    var s := new Suite(writer, name, file, [r0, r1, r2]);
    suite := Some(s);
  }

  lemma HeaderSpells(name: seq<byte>, file: seq<byte>)
    requires |name| <= 255 && |file| <= 255
    ensures var r0, r1, r2 := Record(Version, [WIRE_VERSION]), Record(TestName, name), Record(TestFile, file);
            && Spells([r0, r1, r2], TestResult(name, file, FrameworkError, []))
            && AllValid([r0, r1, r2])
            && Encode([r0, r1, r2]) == RecordBytes(r0) + RecordBytes(r1) + RecordBytes(r2)
  {
    var r0, r1, r2 := Record(Version, [WIRE_VERSION]), Record(TestName, name), Record(TestFile, file);
    VersionSpells();
    assert Apply(EMPTY, TagByte(TestName), name, |Encode([r0])|) == Ok(EMPTY.(name := name));
    SpellsMore([r0], EMPTY, r1, EMPTY.(name := name));
    assert [r0] + [r1] == [r0, r1];
    assert Apply(EMPTY.(name := name), TagByte(TestFile), file, |Encode([r0, r1])|)
        == Ok(EMPTY.(name := name, file := file));
    hide Apply, Spells, Encode;
    SpellsMore([r0, r1], EMPTY.(name := name), r2, EMPTY.(name := name, file := file));
    assert [r0, r1] + [r2] == [r0, r1, r2];
  }

  lemma VersionSpells()
    ensures Spells([Record(Version, [WIRE_VERSION])], EMPTY)
    ensures Encode([Record(Version, [WIRE_VERSION])]) == RecordBytes(Record(Version, [WIRE_VERSION]))
  {
    var r := Record(Version, [WIRE_VERSION]);
    InterpretOne(r, EMPTY, 0);
    assert [r][1..] == [];
    assert RecordBytes(r) + [] == RecordBytes(r);
  }

  /** Octets the first `n` log calls need. */
  function LogSize(calls: seq<LogEntry>, n: nat): nat
    requires n <= |calls|
  {
    if n == 0 then 0 else LogSize(calls, n - 1) + 8 + |calls[n - 1].fmt| + 10 * |calls[n - 1].args|
  }

  lemma {:induction false} LogSizeGrows(calls: seq<LogEntry>, m: nat, n: nat)
    requires m <= n <= |calls|
    ensures LogSize(calls, m) <= LogSize(calls, n)
  {
    if m < n { LogSizeGrows(calls, m, n - 1); }
  }

  /** Everything a test writes fits: the header, the calls and the status. */
  predicate AllFits(name: seq<byte>, file: seq<byte>, calls: seq<LogEntry>)
  {
    && |name| <= 255 && |file| <= 255 && (forall i :: 0 <= i < |calls| ==> |calls[i].fmt| <= 255)
    && 7 + |name| + |file| + LogSize(calls, |calls|) + 3 <= SIZE
  }

  lemma NextFits(name: seq<byte>, file: seq<byte>, calls: seq<LogEntry>, i: nat)
    requires AllFits(name, file, calls) && i < |calls|
    ensures var pos, c := 7 + |name| + |file| + LogSize(calls, i), calls[i];
            && LogFits(pos, c.fmt, c.args) && Entries(Logged(pos, c.line, c.fmt, c.args)) == [c]
            && LogSize(calls, i + 1) == LogSize(calls, i) + 8 + |c.fmt| + 10 * |c.args|
            && calls[..i] + Entries(Logged(pos, c.line, c.fmt, c.args)) == calls[..i + 1]
  {
    hide Logged, Fits, ArgsThatFit;
    var pos, c := 7 + |name| + |file| + LogSize(calls, i), calls[i];
    LogSizeGrows(calls, i + 1, |calls|);
    assert LogFits(pos, c.fmt, c.args);
    hide LogFits, AllFits, LogSize;
    LoggedWhole(pos, c.line, c.fmt, c.args);
  }

  lemma StatusFits(name: seq<byte>, file: seq<byte>, calls: seq<LogEntry>)
    requires AllFits(name, file, calls)
    ensures Fits(7 + |name| + |file| + LogSize(calls, |calls|), 1)
  {
  }

  /** A whole test: the program of the `assert` macro and then the runner. When everything
      fits, the runner reads exactly what the program said. */
  method RunTest(buf: array<byte>, name: seq<byte>, file: seq<byte>, calls: seq<LogEntry>, outcome: Status)
    returns (report: Option<Parsed<TestResult>>)
    requires buf.Length == SIZE && buf[..] == Zeros(SIZE)
    modifies buf
    ensures AllFits(name, file, calls) ==> report == Some(Ok(TestResult(name, file, outcome, calls)))
  {
    hide Report, Zeros;
    var made := NewSuite(buf, name, file);
    if made.None? {
      report := ReadBack(buf[..]);
      return;
    }
    var suite := made.value;
    hide Spells, Zeros;
    LogAll(suite, calls);
    suite.SetStatus(outcome);
    if AllFits(name, file, calls) { StatusFits(name, file, calls); }
    var _ := suite.Finish();
    report := ReadBack(buf[..]);
  }

  /** The body of a test program: one log call after another. */
  method LogAll(suite: Suite, calls: seq<LogEntry>)
    requires suite.Valid() && suite.logs == [] && suite.writer.pos == 7 + |suite.name| + |suite.file|
    modifies suite, suite.writer, suite.writer.buf
    ensures suite.Valid()
    ensures AllFits(suite.name, suite.file, calls) ==>
              && suite.logs == calls
              && suite.writer.pos == 7 + |suite.name| + |suite.file| + LogSize(calls, |calls|)
  {
    ghost var whole, base := AllFits(suite.name, suite.file, calls), suite.writer.pos;
    assert LogSize(calls, 0) == 0;
    hide Suite.Valid, Spells, AllFits, Entries, Logged, LogFits, Fits, LogSize, ArgsThatFit;
    for i := 0 to |calls|
      invariant suite.Valid()
      invariant whole ==> suite.logs == calls[..i] && suite.writer.pos == base + LogSize(calls, i)
    {
      if whole { NextFits(suite.name, suite.file, calls, i); }
      suite.Log(calls[i].line, calls[i].fmt, calls[i].args);
    }
    assert calls[..|calls|] == calls;
  }
}
