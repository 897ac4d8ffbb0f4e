/** Crash-safe endpoint state: one regeneration as the sequence of filesystem steps a
    crash can cut into, and the recovery that picks a directory after a restart. */
module StateDirectory {
  import opened Bytes
  import opened DirectoryNames

  /** The persisted endpoint; everything but the id is opaque here. */
  datatype Persist = Persist(id: nat, spec: nat)

  /** A state directory: missing, present without a readable state file (empty, being
      written or being removed), or holding a state. */
  datatype DirState = Absent | Unreadable | Readable(persist: Persist)

  /** The four directories of one endpoint. */
  datatype Dirs = Dirs(current: DirState, next: DirState, backup: DirState, failed: DirState)
  {
    function Get(k: DirKind): DirState
    {
      match k case Current => current case Next => next case Backup => backup case NextFailed => failed
    }

    function Set(k: DirKind, s: DirState): Dirs
    {
      match k
      case Current => this.(current := s)
      case Next => this.(next := s)
      case Backup => this.(backup := s)
      case NextFailed => this.(failed := s)
    }
  }

  /** Outcome of one `remove_dir_all`: done, failed before touching anything, or failed
      part way through the contents. */
  datatype Removal = Removed | Untouched | Partial

  /** Outcome of one `write_state`: failed before the rename, written but not synced
      (reported as an error), or done. */
  datatype Writing = NotWritten | NotSynced | Written

  /** The outcome of every call one regeneration can make; a rename flag of `false`
      makes that rename fail, for another reason than a missing source. */
  datatype Faults = Faults(
    removeNext: Removal, create: bool, chmod: bool, write: Writing, attach: bool,
    removeBackup: Removal, setAside: bool, promote: bool, rollback: bool, dropBackup: Removal,
    removeFailed: Removal, keepFailed: bool, removeNextAgain: Removal)

  /** The states a sequence of steps passes through, in order, and whether it succeeded. */
  datatype Steps = Steps(trace: seq<Dirs>, ok: bool)

  function Last(s: Steps, d: Dirs): Dirs { if s.trace == [] then d else s.trace[|s.trace| - 1] }

  function After(st: DirState, r: Removal): DirState
  {
    match r
    case Removed => Absent
    case Untouched => st
    case Partial => if st.Absent? then Absent else Unreadable
  }

  /** `remove_dir_if_exists`: a directory on its way out is unreadable first. */
  function Remove(d: Dirs, k: DirKind, r: Removal): Steps
  {
    if d.Get(k).Absent? || r.Untouched? then Steps([], r.Removed?)
    else if r.Partial? then Steps([d.Set(k, Unreadable)], false)
    else Steps([d.Set(k, Unreadable), d.Set(k, Absent)], true)
  }

  /** `fs::rename` of a directory: atomic, fails without a source or onto a directory
      that still holds a state. */
  function Rename(d: Dirs, from: DirKind, to: DirKind, ok: bool): Steps
  {
    if !ok || d.Get(from).Absent? || d.Get(to).Readable? then Steps([], false)
    else Steps([d.Set(to, d.Get(from)).Set(from, Absent)], true)
  }

  function Then(a: Steps, b: Steps): Steps { Steps(a.trace + b.trace, b.ok) }

  /** `write_state` into `<id>_next`. */
  function Write(d: Dirs, p: Persist, w: Writing): Steps
  {
    if w.NotWritten? then Steps([], false) else Steps([d.Set(Next, Readable(p))], w.Written?)
  }

  /** `regenerate_bpf`. */
  function RegenerateBpf(d: Dirs, p: Persist, f: Faults): Steps
  {
    var w := Write(d, p, f.write);
    if w.ok then Steps(w.trace, f.attach) else w
  }

  /** `synchronize_directories`, from the rename of the committed directory on. */
  function SetAside(d: Dirs, f: Faults): Steps
  {
    var aside := Rename(d, Current, Backup, f.setAside);
    var hadCurrent := aside.ok;
    if !f.setAside || (!aside.ok && !d.current.Absent?) then Steps([], false)
    else
      var d1 := Last(aside, d);
      var promoted := Rename(d1, Next, Current, f.promote);
      if promoted.ok then
        var d2 := Last(promoted, d1);
        Then(aside, Then(promoted, Steps(Remove(d2, Backup, f.dropBackup).trace, true)))
      else if hadCurrent then
        Then(aside, Steps(Rename(d1, Backup, Current, f.rollback).trace, false))
      else Then(aside, promoted)
  }

  function Synchronize(d: Dirs, f: Faults): Steps
  {
    var r := Remove(d, Backup, f.removeBackup);
    if !r.ok then r else Then(r, SetAside(Last(r, d), f))
  }

  /** A failed `regenerate_bpf` keeps its directory as `<id>_next_fail`. */
  function KeepFailed(d: Dirs, f: Faults): Steps
  {
    var r := Remove(d, NextFailed, f.removeFailed);
    if !r.ok then r else Then(r, Rename(Last(r, d), Next, NextFailed, f.keepFailed))
  }

  /** The part of `regenerate` that empties `<id>_next` and builds the new state there. */
  function Prepare(d: Dirs, f: Faults): Steps
  {
    var r := Remove(d, Next, f.removeNext);
    if !r.ok then r
    else if !f.create then Then(r, Steps([], false))
    else Then(r, Steps([Last(r, d).Set(Next, Unreadable)], f.chmod))
  }

  datatype Phase = Unchanged | Ready | Failed

  datatype Regeneration = Regeneration(steps: Steps, phase: Phase)

  /** `regenerate_bpf` and then the commit of the new state or the keeping of the
      failed one. */
  function Apply(d: Dirs, p: Persist, f: Faults): Regeneration
  {
    var bpf := RegenerateBpf(d, p, f);
    var d' := Last(bpf, d);
    if bpf.ok then
      var committed := Synchronize(d', f);
      Regeneration(Then(bpf, committed), if committed.ok then Ready else Unchanged)
    else Regeneration(Then(bpf, KeepFailed(d', f)), Failed)
  }

  /** One call of `regenerate` to the state `p`. It succeeds also when the BPF step
      failed, with the failure in the phase. */
  function Regenerate(d: Dirs, p: Persist, f: Faults): Regeneration
  {
    var prepared := Prepare(d, f);
    if !prepared.ok then Regeneration(prepared, Unchanged)
    else
      var d1 := Last(prepared, d);
      var applied := Apply(d1, p, f);
      var upTo := Then(prepared, applied.steps);
      if !upTo.ok then Regeneration(upTo, applied.phase)
      else Regeneration(Then(upTo, Remove(Last(applied.steps, d1), Next, f.removeNextAgain)), applied.phase)
  }

  // ------------------------------------------------------------------ what comes of the calls

  /** A commit from any disk: it succeeds exactly when the backup is removed, the committed
      directory, if any, is set aside and the new one takes its place; whether there was one
      to set aside makes no difference. And where it leaves the directories, call by call. */
  lemma SynchronizeSpelledOut(d: Dirs, p: Persist, f: Faults)
    requires d.next == Readable(p)
    ensures var end := Last(Synchronize(d, f), d);
            && (Synchronize(d, f).ok <==> f.removeBackup.Removed? && f.setAside && f.promote)
            && end.failed == d.failed
            && (if Synchronize(d, f).ok then
                  && end.current == Readable(p) && end.next == Absent
                  && end.backup == (if d.current.Absent? || f.dropBackup.Removed? then Absent
                                    else if f.dropBackup.Partial? then Unreadable else d.current)
                else
                  && end.next == Readable(p)
                  && (if !f.removeBackup.Removed? then
                        && end.current == d.current
                        && end.backup == (if f.removeBackup.Partial? && !d.backup.Absent? then Unreadable else d.backup)
                      else if f.setAside && !f.rollback then end.current == Absent && end.backup == d.current
                      else end.current == d.current && end.backup == Absent))
  {
    var r := Remove(d, Backup, f.removeBackup);
    if r.ok {
      var d1 := d.(backup := Absent);
      assert Last(r, d) == d1;
      LastThen(r, SetAside(d1, f), d);
      SetAsideSpelledOut(d1, p, f);
      hide SetAside;
    }
  }

  lemma SetAsideSpelledOut(d: Dirs, p: Persist, f: Faults)
    requires d.next == Readable(p) && d.backup == Absent
    ensures SetAside(d, f).ok <==> f.setAside && f.promote
    ensures Last(SetAside(d, f), d) ==
            if f.setAside && f.promote then
              Dirs(Readable(p), Absent, if d.current.Absent? then Absent else After(d.current, f.dropBackup), d.failed)
            else if f.setAside && !f.rollback then Dirs(Absent, d.next, d.current, d.failed)
            else d
  {
  }

  /** One regeneration from any disk: what phase it leaves and what it returns. */
  lemma RegenerateSpelledOut(d: Dirs, p: Persist, f: Faults)
    ensures var prepared := f.removeNext.Removed? && f.create && f.chmod;
            var built := f.write.Written? && f.attach;
            var committed := f.removeBackup.Removed? && f.setAside && f.promote;
            var kept := f.removeFailed.Removed? && f.keepFailed;
            var g := Regenerate(d, p, f);
            && (g.phase.Failed? <==> prepared && !built)
            && (g.phase.Ready? <==> prepared && built && committed)
            && (g.steps.ok <==> prepared && (if built then committed else kept) && f.removeNextAgain.Removed?)
  {
    PrepareSpelledOut(d, f);
    var d1 := Last(Prepare(d, f), d);
    if Prepare(d, f).ok {
      var bpf := RegenerateBpf(d1, p, f);
      var d2 := Last(bpf, d1);
      if bpf.ok {
        SynchronizeSpelledOut(d2, p, f);
        var done := Last(Synchronize(d2, f), d2);
        LastThen(bpf, Synchronize(d2, f), d1);
        hide Synchronize, Prepare, Last;
      } else {
        KeepFailedSpelledOut(d2, f);
        LastThen(bpf, KeepFailed(d2, f), d1);
        hide KeepFailed, Prepare, Last;
      }
    }
  }

  /** And where it leaves the directories: the new state committed, or kept aside with the
      reason of its failure and everything else as it was. */
  lemma RegenerateEnds(d: Dirs, p: Persist, f: Faults)
    ensures var g := Regenerate(d, p, f);
            var end := Last(g.steps, d);
            && (g.phase.Ready? ==>
                  && end.current == Readable(p) && end.next == Absent && end.failed == d.failed
                  && end.backup == (if d.current.Absent? || f.dropBackup.Removed? then Absent
                                    else if f.dropBackup.Partial? then Unreadable else d.current))
            && (g.phase.Failed? ==>
                  && end.current == d.current && end.backup == d.backup
                  && (f.removeFailed.Removed? && f.keepFailed ==>
                        end.next == Absent && end.failed == if f.write.NotWritten? then Unreadable else Readable(p)))
            && (!(f.removeNext.Removed? && f.create && f.chmod) ==>
                  end.current == d.current && end.backup == d.backup && end.failed == d.failed)
  {
    RegenerateSpelledOut(d, p, f);
    PrepareSpelledOut(d, f);
    LastPart(d, p, f);
    var d1 := Last(Prepare(d, f), d);
    var d2 := Last(RegenerateBpf(d1, p, f), d1);
    hide Regenerate, Prepare;
    if !Prepare(d, f).ok {
      hide RegenerateBpf, Synchronize, KeepFailed;
    } else if RegenerateBpf(d1, p, f).ok {
      SynchronizeSpelledOut(d2, p, f);
      hide Synchronize;
    } else {
      KeepFailedSpelledOut(d2, f);
      hide KeepFailed;
    }
  }

  /** The order of the calls, on the way of a regeneration that goes well: emptied, written,
      the old state set aside, the new one promoted, the backup dropped. */
  lemma RegenerateInOrder(q: Persist, p: Persist)
    ensures Regenerate(Dirs(Readable(q), Absent, Absent, Absent), p, ALL_WELL).steps.trace
            == [Dirs(Readable(q), Unreadable, Absent, Absent), Dirs(Readable(q), Readable(p), Absent, Absent),
                Dirs(Absent, Readable(p), Readable(q), Absent), Dirs(Readable(p), Absent, Readable(q), Absent),
                Dirs(Readable(p), Absent, Unreadable, Absent), Dirs(Readable(p), Absent, Absent, Absent)]
  {
    var d := Dirs(Readable(q), Absent, Absent, Absent);
    var d1, d2 := d.(next := Unreadable), d.(next := Readable(p));
    assert Prepare(d, ALL_WELL) == Steps([d1], true);
    assert RegenerateBpf(d1, p, ALL_WELL) == Steps([d2], true);
    SynchronizeInOrder(q, p);
    TraceParts(d, p, ALL_WELL);
    hide Regenerate, Prepare, RegenerateBpf, Synchronize;
    var settled := Settled(d1, p, ALL_WELL);
    assert settled == Synchronize(d2, ALL_WELL) && Tail(d1, p, ALL_WELL) == [];
    hide Settled, Tail;
  }

  lemma SynchronizeInOrder(q: Persist, p: Persist)
    ensures Synchronize(Dirs(Readable(q), Readable(p), Absent, Absent), ALL_WELL)
            == Steps([Dirs(Absent, Readable(p), Readable(q), Absent), Dirs(Readable(p), Absent, Readable(q), Absent),
                      Dirs(Readable(p), Absent, Unreadable, Absent), Dirs(Readable(p), Absent, Absent, Absent)], true)
  {
    var d := Dirs(Readable(q), Readable(p), Absent, Absent);
    var d1, d2 := Dirs(Absent, Readable(p), Readable(q), Absent), Dirs(Readable(p), Absent, Readable(q), Absent);
    assert Rename(d, Current, Backup, true) == Steps([d1], true);
    assert Rename(d1, Next, Current, true) == Steps([d2], true);
    assert Remove(d2, Backup, Removed) == Steps([d2.(backup := Unreadable), d2.(backup := Absent)], true);
    assert Remove(d, Backup, Removed) == Steps([], true);
    hide Rename, Remove;
  }

  lemma PrepareSpelledOut(d: Dirs, f: Faults)
    ensures Prepare(d, f).ok <==> f.removeNext.Removed? && f.create && f.chmod
    ensures var end := Last(Prepare(d, f), d);
            && end.current == d.current && end.backup == d.backup && end.failed == d.failed
            && (Prepare(d, f).ok ==> end.next == Unreadable)
  {
  }

  lemma KeepFailedSpelledOut(d: Dirs, f: Faults)
    requires !d.next.Absent?
    ensures KeepFailed(d, f).ok <==> f.removeFailed.Removed? && f.keepFailed
    ensures var end := Last(KeepFailed(d, f), d);
            && end.current == d.current && end.backup == d.backup
            && (KeepFailed(d, f).ok ==> end.failed == d.next && end.next == Absent)
  {
  }

  // ------------------------------------------------------------------ recovery choice

  predicate Reads(d: Dirs, k: DirKind, id: nat)
  {
    d.Get(k).Readable? && d.Get(k).persist.id == id
  }

  /** The least kind whose state reads back with the endpoint's own id. */
  function Chosen(d: Dirs, id: nat): (k: Option<DirKind>)
    ensures k.Some? ==> Reads(d, k.value, id) && forall j :: Reads(d, j, id) ==> k.value.Rank() <= j.Rank()
    ensures k.None? ==> forall j :: !Reads(d, j, id)
  {
    if Reads(d, Current, id) then Some(Current)
    else if Reads(d, Next, id) then Some(Next)
    else if Reads(d, Backup, id) then Some(Backup)
    else if Reads(d, NextFailed, id) then Some(NextFailed)
    else None
  }

  /** What a restart at this moment would restore. */
  function Recovered(d: Dirs, id: nat): Option<Persist>
  {
    if Chosen(d, id).None? then None else Some(d.Get(Chosen(d, id).value).persist)
  }

  /** What a restart takes: `<id>`, else `<id>_next`, else `<id>_stale`, else
      `<id>_next_fail`, the first that reads back with the endpoint's own id. */
  lemma RecoveredSpelledOut(d: Dirs, id: nat)
    ensures Recovered(d, id) ==
            if d.current.Readable? && d.current.persist.id == id then Some(d.current.persist)
            else if d.next.Readable? && d.next.persist.id == id then Some(d.next.persist)
            else if d.backup.Readable? && d.backup.persist.id == id then Some(d.backup.persist)
            else if d.failed.Readable? && d.failed.persist.id == id then Some(d.failed.persist)
            else None
  {
  }

  // ------------------------------------------------------------------ crash consistency

  ghost predicate RecoversOnly(trace: seq<Dirs>, id: nat, ps: set<Persist>)
  {
    forall i :: 0 <= i < |trace| ==> Recovered(trace[i], id).Some? && Recovered(trace[i], id).value in ps
  }

  /** The committed state stays in place. */
  ghost predicate KeepsCurrent(trace: seq<Dirs>, q: Persist)
  {
    forall i :: 0 <= i < |trace| ==> trace[i].current == Readable(q)
  }

  lemma PrepareKeeps(d: Dirs, f: Faults, q: Persist)
    requires d.current == Readable(q)
    ensures KeepsCurrent(Prepare(d, f).trace, q) && Last(Prepare(d, f), d).current == Readable(q)
    ensures Prepare(d, f).ok ==> Last(Prepare(d, f), d).next == Unreadable
  {
  }

  lemma BpfKeeps(d: Dirs, p: Persist, f: Faults, q: Persist)
    requires d.current == Readable(q)
    ensures var s := RegenerateBpf(d, p, f);
            && KeepsCurrent(s.trace, q) && Last(s, d).current == Readable(q)
            && (s.ok ==> Last(s, d).next == Readable(p))
  {
  }

  lemma KeepFailedKeeps(d: Dirs, f: Faults, q: Persist)
    requires d.current == Readable(q)
    ensures KeepsCurrent(KeepFailed(d, f).trace, q) && Last(KeepFailed(d, f), d).current == Readable(q)
  {
  }

  /** The rename of the committed directory succeeded, the promotion of the new one
      failed, and so did putting the old one back. */
  predicate RollbackFailed(d: Dirs, p: Persist, f: Faults)
  {
    && Prepare(d, f).ok && RegenerateBpf(Last(Prepare(d, f), d), p, f).ok
    && f.removeBackup.Removed? && !d.current.Absent? && f.setAside && !f.promote && !f.rollback
  }

  /** The set-aside, the promotion and its rollback. */
  lemma SetAsideRecovers(d: Dirs, p: Persist, f: Faults, q: Persist)
    requires d.current == Readable(q) && d.next == Readable(p) && d.backup.Absent? && q.id == p.id
    ensures var s := SetAside(d, f);
            && RecoversOnly(s.trace, p.id, {q, p})
            && s.ok == (f.setAside && f.promote)
            && Last(s, d).current == if s.ok then Readable(p)
                                     else if f.setAside && !f.rollback then Absent else Readable(q)
  {
    if f.setAside {
      var d' := d.(current := Absent, backup := Readable(q));
      assert Rename(d, Current, Backup, true) == Steps([d'], true);
      if f.promote {
        assert Rename(d', Next, Current, true) == Steps([d'.(current := Readable(p), next := Absent)], true);
      }
    }
  }

  lemma SynchronizeRecovers(d: Dirs, p: Persist, f: Faults, q: Persist)
    requires d.current == Readable(q) && d.next == Readable(p) && q.id == p.id
    ensures var s := Synchronize(d, f);
            && RecoversOnly(s.trace, p.id, {q, p})
            && s.ok == (f.removeBackup.Removed? && f.setAside && f.promote)
            && Last(s, d).current == if s.ok then Readable(p)
                                     else if f.removeBackup.Removed? && f.setAside && !f.rollback then Absent
                                     else Readable(q)
  {
    var r := Remove(d, Backup, f.removeBackup);
    assert KeepsCurrent(r.trace, q);
    KeepsRecovers(r.trace, q, {q, p});
    if r.ok {
      SetAsideRecovers(Last(r, d), p, f, q);
      RecoversConcat(r.trace, SetAside(Last(r, d), f).trace, p.id, {q, p});
      hide SetAside;
    }
  }

  lemma RecoversConcat(a: seq<Dirs>, b: seq<Dirs>, id: nat, ps: set<Persist>)
    requires RecoversOnly(a, id, ps) && RecoversOnly(b, id, ps)
    ensures RecoversOnly(a + b, id, ps)
  {
  }

  lemma KeepsRecovers(trace: seq<Dirs>, q: Persist, ps: set<Persist>)
    requires KeepsCurrent(trace, q) && q in ps
    ensures RecoversOnly(trace, q.id, ps)
  {
  }

  /** Crash consistency of one regeneration, for every pattern of failing calls. From a
      committed state q, a crash after any step recovers q or the new state p; it
      recovers q throughout when the BPF step fails; the regeneration reports Ready
      exactly when p is committed. */
  lemma CrashConsistent(d: Dirs, p: Persist, f: Faults, q: Persist)
    requires d.current == Readable(q) && q.id == p.id
    ensures var g := Regenerate(d, p, f);
            && RecoversOnly(g.steps.trace, p.id, {q, p})
            && (g.phase.Failed? ==> RecoversOnly(g.steps.trace, p.id, {q}))
            && (g.phase.Ready? ==> Last(g.steps, d).current == Readable(p))
            && (!g.phase.Ready? && !RollbackFailed(d, p, f) ==> Last(g.steps, d).current == Readable(q))
            && (RollbackFailed(d, p, f) ==> Last(g.steps, d).current.Absent?)
  {
    var ps := {q, p};
    var prepared := Prepare(d, f);
    PrepareKeeps(d, f, q);
    KeepsRecovers(prepared.trace, q, {q});
    KeepsRecovers(prepared.trace, q, ps);
    if prepared.ok {
      var d1 := Last(prepared, d);
      var bpf := RegenerateBpf(d1, p, f);
      BpfKeeps(d1, p, f, q);
      KeepsRecovers(bpf.trace, q, {q});
      KeepsRecovers(bpf.trace, q, ps);
      var d2 := Last(bpf, d1);
      if bpf.ok {
        SynchronizeRecovers(d2, p, f, q);
        SettledCrash(d, d1, d2, prepared, bpf, Synchronize(d2, f), p.id, ps, f);
      } else {
        KeepFailedKeeps(d2, f, q);
        var settled := KeepFailed(d2, f);
        KeepsRecovers(settled.trace, q, {q});
        KeepsRecovers(settled.trace, q, ps);
        SettledCrash(d, d1, d2, prepared, bpf, settled, p.id, {q}, f);
        SettledCrash(d, d1, d2, prepared, bpf, settled, p.id, ps, f);
      }
    }
  }

  /** Gluing the parts of a regeneration: the final clean-up of `<id>_next` never takes
      away the recovered state, because the committed directory is there. */
  lemma SettledCrash(d: Dirs, d1: Dirs, d2: Dirs, prepared: Steps, bpf: Steps, settled: Steps,
                     id: nat, ps: set<Persist>, f: Faults)
    requires d1 == Last(prepared, d) && d2 == Last(bpf, d1)
    requires RecoversOnly(prepared.trace, id, ps) && RecoversOnly(bpf.trace, id, ps)
             && RecoversOnly(settled.trace, id, ps)
    requires var e := Last(settled, d2);
             settled.ok ==> e.current.Readable? && e.current.persist.id == id && e.current.persist in ps
    ensures var upTo := Then(prepared, Then(bpf, settled));
            var last := Then(upTo, Remove(Last(settled, d2), Next, f.removeNextAgain));
            && RecoversOnly(upTo.trace, id, ps) && Last(upTo, d) == Last(settled, d2)
            && (settled.ok ==> RecoversOnly(last.trace, id, ps)
                               && Last(last, d).current == Last(settled, d2).current)
  {
    RecoversConcat(bpf.trace, settled.trace, id, ps);
    RecoversConcat(prepared.trace, bpf.trace + settled.trace, id, ps);
    if settled.ok {
      var e := Last(settled, d2);
      var tail := Remove(e, Next, f.removeNextAgain);
      assert KeepsCurrent(tail.trace, e.current.persist);
      KeepsRecovers(tail.trace, e.current.persist, ps);
      RecoversConcat(prepared.trace + (bpf.trace + settled.trace), tail.trace, id, ps);
    }
  }

  // ------------------------------------------------------------------ runs of commands

  /** A worker's regenerations, each with its own call outcomes. */
  type Commands = seq<(Persist, Faults)>

  function RunAll(d: Dirs, cmds: Commands): (end: Dirs)
    decreases |cmds|
  {
    if cmds == [] then d else RunAll(Last(Regenerate(d, cmds[0].0, cmds[0].1).steps, d), cmds[1..])
  }

  predicate NoRollbackFails(d: Dirs, cmds: Commands)
    decreases |cmds|
  {
    cmds == [] ||
    (&& !RollbackFailed(d, cmds[0].0, cmds[0].1)
     && NoRollbackFails(Last(Regenerate(d, cmds[0].0, cmds[0].1).steps, d), cmds[1..]))
  }

  /** In any run in which no rollback rename fails, `<id>` is readable at every command
      boundary and holds the initial state or one of the requested ones, and every crash
      inside any command recovers one of them too. */
  lemma {:induction false} RunConsistent(d: Dirs, cmds: Commands, q: Persist, ps: set<Persist>, k: nat)
    requires d.current == Readable(q) && q in ps && NoRollbackFails(d, cmds) && k <= |cmds|
    requires forall c :: c in cmds ==> c.0.id == q.id && c.0 in ps
    ensures RunAll(d, cmds[..k]).current.Readable? && RunAll(d, cmds[..k]).current.persist in ps
    ensures k < |cmds| ==> RecoversOnly(Regenerate(RunAll(d, cmds[..k]), cmds[k].0, cmds[k].1).steps.trace, q.id, ps)
    decreases k
  {
    hide Regenerate, RollbackFailed;
    if k < |cmds| { assert cmds[k] in cmds; }
    if k == 0 {
      if cmds != [] {
        CrashConsistent(d, cmds[0].0, cmds[0].1, q);
        RecoversMore(Regenerate(d, cmds[0].0, cmds[0].1).steps.trace, q.id, {q, cmds[0].0}, ps);
      }
    } else {
      var (p, f) := cmds[0];
      assert cmds[0] in cmds;
      CrashConsistent(d, p, f, q);
      assert forall c :: c in cmds[1..] ==> c in cmds;
      assert cmds[..k][1..] == cmds[1..][..k - 1];
      var d' := Last(Regenerate(d, p, f).steps, d);
      RunConsistent(d', cmds[1..], if Regenerate(d, p, f).phase.Ready? then p else q, ps, k - 1);
    }
  }

  lemma RecoversMore(trace: seq<Dirs>, id: nat, ps: set<Persist>, more: set<Persist>)
    requires RecoversOnly(trace, id, ps) && ps <= more
    ensures RecoversOnly(trace, id, more)
  {
    hide Recovered;
  }

  /** `<id>` is readable at every command boundary exactly when no rollback fails. */
  lemma {:induction false} ReadableThroughoutIff(d: Dirs, cmds: Commands, q: Persist)
    requires d.current == Readable(q)
    requires forall c :: c in cmds ==> c.0.id == q.id
    ensures NoRollbackFails(d, cmds) <==> forall k :: 0 <= k <= |cmds| ==> RunAll(d, cmds[..k]).current.Readable?
    decreases |cmds|
  {
    hide Regenerate, RollbackFailed;
    if cmds != [] {
      var (p, f) := cmds[0];
      assert cmds[0] in cmds;
      CrashConsistent(d, p, f, q);
      var d' := Last(Regenerate(d, p, f).steps, d);
      assert cmds[..1][1..] == [];
      assert RunAll(d, cmds[..1]) == d';
      assert forall c :: c in cmds[1..] ==> c in cmds;
      forall k | 0 < k <= |cmds| ensures RunAll(d, cmds[..k]) == RunAll(d', cmds[1..][..k - 1]) {
        assert cmds[..k][1..] == cmds[1..][..k - 1];
      }
      if !RollbackFailed(d, p, f) {
        ReadableThroughoutIff(d', cmds[1..], if Regenerate(d, p, f).phase.Ready? then p else q);
        if forall k :: 0 <= k <= |cmds| ==> RunAll(d, cmds[..k]).current.Readable? {
          forall k | 0 <= k <= |cmds[1..]| ensures RunAll(d', cmds[1..][..k]).current.Readable? {
            assert RunAll(d, cmds[..k + 1]) == RunAll(d', cmds[1..][..k + 1 - 1]);
          }
        }
      }
    }
  }

  // ------------------------------------------------------------------ which disks are safe

  ghost predicate AlwaysRecovers(trace: seq<Dirs>, id: nat)
  {
    forall i :: 0 <= i < |trace| ==> Recovered(trace[i], id).Some?
  }

  /** The committed or the set-aside state reads back. */
  predicate Safe(d: Dirs, id: nat) { Reads(d, Current, id) || Reads(d, Backup, id) }

  /** Exactly the regenerations with a moment at which nothing can be recovered. */
  predicate Loses(d: Dirs, p: Persist, f: Faults)
  {
    && !Safe(d, p.id) && Prepare(d, f).trace != []
    && (Reads(d, NextFailed, p.id) ==> Prepare(d, f).ok && f.write.NotWritten? && !f.removeFailed.Untouched?)
  }

  ghost predicate Same(trace: seq<Dirs>, d: Dirs, k: DirKind)
  {
    forall i :: 0 <= i < |trace| ==> trace[i].Get(k) == d.Get(k)
  }

  lemma SameRecovers(trace: seq<Dirs>, d: Dirs, k: DirKind, id: nat)
    requires Same(trace, d, k) && Reads(d, k, id)
    ensures AlwaysRecovers(trace, id)
  {
    forall i | 0 <= i < |trace| ensures Recovered(trace[i], id).Some? { assert Reads(trace[i], k, id); }
  }

  /** Preparing touches `<id>_next` only. */
  lemma PrepareElsewhere(d: Dirs, f: Faults, k: DirKind)
    requires k != Next
    ensures Same(Prepare(d, f).trace, d, k) && Last(Prepare(d, f), d).Get(k) == d.Get(k)
  {
  }

  lemma BpfElsewhere(d: Dirs, p: Persist, f: Faults, k: DirKind)
    requires k != Next
    ensures var s := RegenerateBpf(d, p, f);
            && Same(s.trace, d, k) && Last(s, d).Get(k) == d.Get(k)
            && (s.trace == [] <==> f.write.NotWritten?) && (s.trace == [] ==> !s.ok)
            && (s.trace != [] ==> s.trace == [d.Set(Next, Readable(p))])
  {
  }

  lemma KeepFailedElsewhere(d: Dirs, f: Faults, k: DirKind)
    requires k.Current? || k.Backup?
    ensures Same(KeepFailed(d, f).trace, d, k) && Last(KeepFailed(d, f), d).Get(k) == d.Get(k)
  {
  }

  /** The failed state moves to `<id>_next_fail`, readable before and after. */
  lemma KeepFailedRecovers(d: Dirs, p: Persist, f: Faults)
    requires d.next == Readable(p)
    ensures var s := KeepFailed(d, f);
            AlwaysRecovers(s.trace, p.id) && (s.ok ==> Last(s, d).failed == Readable(p) && Last(s, d).next.Absent?)
  {
    var r := Remove(d, NextFailed, f.removeFailed);
    assert Same(r.trace, d, Next) && Last(r, d).next == Readable(p);
    SameRecovers(r.trace, d, Next, p.id);
    if r.ok {
      var renamed := Rename(Last(r, d), Next, NextFailed, f.keepFailed);
      assert forall i :: 0 <= i < |renamed.trace| ==> Reads(renamed.trace[i], NextFailed, p.id);
    }
  }

  lemma SetAsideFromNext(d: Dirs, p: Persist, f: Faults)
    requires d.next == Readable(p) && d.backup.Absent?
    ensures var s := SetAside(d, f);
            AlwaysRecovers(s.trace, p.id) && (s.ok ==> Last(s, d).current == Readable(p))
  {
    hide Recovered;
    var s := SetAside(d, f);
    forall i | 0 <= i < |s.trace| ensures Recovered(s.trace[i], p.id).Some? {
      SetAsideReads(d, p, f, i);
      ReadsRecovers(s.trace[i], p.id);
    }
  }

  lemma SetAsideReads(d: Dirs, p: Persist, f: Faults, i: nat)
    requires d.next == Readable(p) && d.backup.Absent? && i < |SetAside(d, f).trace|
    ensures Reads(SetAside(d, f).trace[i], Next, p.id) || Reads(SetAside(d, f).trace[i], Current, p.id)
  {
  }

  lemma ReadsRecovers(d: Dirs, id: nat)
    requires exists k :: Reads(d, k, id)
    ensures Recovered(d, id).Some?
  {
  }

  /** A commit of a complete new state always has one of the two to recover. */
  lemma SynchronizeFromNext(d: Dirs, p: Persist, f: Faults)
    requires d.next == Readable(p)
    ensures var s := Synchronize(d, f);
            AlwaysRecovers(s.trace, p.id) && (s.ok ==> Last(s, d).current == Readable(p))
  {
    var r := Remove(d, Backup, f.removeBackup);
    assert Same(r.trace, d, Next) && Last(r, d).next == Readable(p);
    SameRecovers(r.trace, d, Next, p.id);
    if r.ok {
      SetAsideFromNext(Last(r, d), p, f);
      hide Recovered, SetAside;
    }
  }

  lemma AlwaysConcat(a: seq<Dirs>, b: seq<Dirs>, id: nat)
    ensures AlwaysRecovers(a + b, id) <==> AlwaysRecovers(a, id) && AlwaysRecovers(b, id)
  {
    hide Recovered;
    if AlwaysRecovers(a + b, id) {
      forall i | 0 <= i < |a| ensures Recovered(a[i], id).Some? { assert (a + b)[i] == a[i]; }
      forall i | 0 <= i < |b| ensures Recovered(b[i], id).Some? { assert (a + b)[|a| + i] == b[i]; }
    }
  }

  /** The parts of a regeneration's trace. */
  function Settled(d: Dirs, p: Persist, f: Faults): Steps
  {
    var bpf := RegenerateBpf(d, p, f);
    if bpf.ok then Synchronize(Last(bpf, d), f) else KeepFailed(Last(bpf, d), f)
  }

  function Tail(d: Dirs, p: Persist, f: Faults): seq<Dirs>
  {
    var settled := Settled(d, p, f);
    if settled.ok then Remove(Last(settled, Last(RegenerateBpf(d, p, f), d)), Next, f.removeNextAgain).trace else []
  }

  lemma TraceParts(d: Dirs, p: Persist, f: Faults)
    ensures var prepared := Prepare(d, f);
            var d1 := Last(prepared, d);
            Regenerate(d, p, f).steps.trace
            == if prepared.ok then prepared.trace + (RegenerateBpf(d1, p, f).trace + Settled(d1, p, f).trace)
                 + Tail(d1, p, f)
               else prepared.trace
  {
    hide Prepare, RegenerateBpf, Synchronize, KeepFailed, Remove;
    var prepared := Prepare(d, f);
    var d1 := Last(prepared, d);
    var bpf := RegenerateBpf(d1, p, f);
    LastThen(bpf, Settled(d1, p, f), d1);
    assert prepared.trace + (bpf.trace + Settled(d1, p, f).trace) + []
        == prepared.trace + (bpf.trace + Settled(d1, p, f).trace);
  }

  lemma LastThen(a: Steps, b: Steps, d: Dirs)
    ensures Last(Then(a, b), d) == Last(b, Last(a, d))
  {
  }

  lemma PartsRecover(d: Dirs, p: Persist, f: Faults)
    ensures var prepared := Prepare(d, f);
            var d1 := Last(prepared, d);
            AlwaysRecovers(Regenerate(d, p, f).steps.trace, p.id) <==>
            && AlwaysRecovers(prepared.trace, p.id)
            && (prepared.ok ==> AlwaysRecovers(RegenerateBpf(d1, p, f).trace, p.id)
                                && AlwaysRecovers(Settled(d1, p, f).trace, p.id)
                                && AlwaysRecovers(Tail(d1, p, f), p.id))
  {
    TraceParts(d, p, f);
    hide AlwaysRecovers, Regenerate, Prepare, RegenerateBpf, Settled, Tail;
    var prepared := Prepare(d, f);
    var d1 := Last(prepared, d);
    AlwaysConcat(RegenerateBpf(d1, p, f).trace, Settled(d1, p, f).trace, p.id);
    AlwaysConcat(prepared.trace, RegenerateBpf(d1, p, f).trace + Settled(d1, p, f).trace, p.id);
    AlwaysConcat(prepared.trace + (RegenerateBpf(d1, p, f).trace + Settled(d1, p, f).trace), Tail(d1, p, f), p.id);
  }

  /** Once the new state is written, one of the two is always there. */
  lemma WrittenRecovers(d: Dirs, p: Persist, f: Faults)
    requires !f.write.NotWritten?
    ensures AlwaysRecovers(RegenerateBpf(d, p, f).trace, p.id)
    ensures AlwaysRecovers(Settled(d, p, f).trace, p.id) && AlwaysRecovers(Tail(d, p, f), p.id)
  {
    BpfElsewhere(d, p, f, Current);
    var bpf := RegenerateBpf(d, p, f);
    var d2 := d.(next := Readable(p));
    assert bpf.trace == [d2] && Reads(d2, Next, p.id);
    hide Synchronize, KeepFailed, RegenerateBpf, Recovered;
    ReadsRecovers(d2, p.id);
    if bpf.ok {
      SynchronizeFromNext(d2, p, f);
      var e := Last(Synchronize(d2, f), d2);
      if Synchronize(d2, f).ok { SameRecovers(Remove(e, Next, f.removeNextAgain).trace, e, Current, p.id); }
    } else {
      KeepFailedRecovers(d2, p, f);
    }
  }

  lemma SafeRecovers(d: Dirs, p: Persist, f: Faults)
    requires Safe(d, p.id)
    ensures AlwaysRecovers(Regenerate(d, p, f).steps.trace, p.id)
  {
    var k := if Reads(d, Current, p.id) then Current else Backup;
    var d1 := Last(Prepare(d, f), d);
    PrepareElsewhere(d, f, k);
    SameRecovers(Prepare(d, f).trace, d, k, p.id);
    PartsRecover(d, p, f);
    hide Regenerate, Prepare, Recovered;
    if f.write.NotWritten? {
      BpfElsewhere(d1, p, f, k);
      KeepFailedElsewhere(d1, f, k);
      SameRecovers(KeepFailed(d1, f).trace, d1, k, p.id);
      var e := Last(KeepFailed(d1, f), d1);
      SameRecovers(Remove(e, Next, f.removeNextAgain).trace, e, k, p.id);
    } else {
      WrittenRecovers(d1, p, f);
    }
  }

  /** With only `<id>_next_fail` to fall back on, the write decides. */
  lemma FailedOnlyLosesIff(d: Dirs, p: Persist, f: Faults)
    requires !Safe(d, p.id) && Reads(d, NextFailed, p.id)
    ensures AlwaysRecovers(Regenerate(d, p, f).steps.trace, p.id) <==> !Loses(d, p, f)
  {
    var prepared := Prepare(d, f);
    var d1 := Last(prepared, d);
    PrepareElsewhere(d, f, NextFailed);
    PrepareElsewhere(d, f, Current);
    PrepareElsewhere(d, f, Backup);
    SameRecovers(prepared.trace, d, NextFailed, p.id);
    PartsRecover(d, p, f);
    assert prepared.ok ==> prepared.trace != [] && d1.next == Unreadable;
    hide Regenerate, Prepare;
    if prepared.ok && f.write.NotWritten? {
      BpfElsewhere(d1, p, f, NextFailed);
      if f.removeFailed.Untouched? {
        assert KeepFailed(d1, f) == Steps([], false);
      } else {
        assert KeepFailed(d1, f).trace[0] == d1.(failed := Unreadable);
        assert Recovered(Settled(d1, p, f).trace[0], p.id).None?;
      }
    } else if prepared.ok {
      WrittenRecovers(d1, p, f);
    }
  }

  /** Without that either, emptying or creating `<id>_next` already leaves nothing. */
  lemma NothingElseLosesIff(d: Dirs, p: Persist, f: Faults)
    requires !Safe(d, p.id) && !Reads(d, NextFailed, p.id)
    ensures AlwaysRecovers(Regenerate(d, p, f).steps.trace, p.id) <==> !Loses(d, p, f)
  {
    var prepared := Prepare(d, f);
    PartsRecover(d, p, f);
    hide Regenerate;
    if prepared.trace != [] {
      assert prepared.trace[0] == d.(next := Unreadable);
      assert Recovered(prepared.trace[0], p.id).None?;
    }
  }

  /** The exact condition on the disk before a call, for every disk, state and outcome. */
  lemma LosesIff(d: Dirs, p: Persist, f: Faults)
    ensures AlwaysRecovers(Regenerate(d, p, f).steps.trace, p.id) <==> !Loses(d, p, f)
  {
    hide Regenerate, Prepare, Recovered;
    if Safe(d, p.id) { SafeRecovers(d, p, f); }
    else if Reads(d, NextFailed, p.id) { FailedOnlyLosesIff(d, p, f); }
    else { NothingElseLosesIff(d, p, f); }
  }

  /** A disk is safe for every outcome of every regeneration exactly when `<id>` or
      `<id>_stale` reads back. */
  lemma SafeIff(d: Dirs, id: nat)
    ensures Safe(d, id) <==>
            forall p: Persist, f: Faults :: p.id == id ==> AlwaysRecovers(Regenerate(d, p, f).steps.trace, id)
  {
    forall p: Persist, f: Faults | p.id == id
      ensures AlwaysRecovers(Regenerate(d, p, f).steps.trace, id) <==> !Loses(d, p, f)
    {
      LosesIff(d, p, f);
    }
    if !Safe(d, id) {
      var p, f := Persist(id, 0), ALL_WELL.(write := NotWritten);
      assert Prepare(d, f).ok && Prepare(d, f).trace != [];
      assert Loses(d, p, f);
    }
    hide Regenerate, Loses;
  }

  /** The regeneration that takes a run from a safe disk to one that is not: `<id>` does
      not read back, and after the backup is touched the new state is not promoted. */
  predicate BecomesUnsafe(d: Dirs, p: Persist, f: Faults)
  {
    && !Reads(d, Current, p.id)
    && Prepare(d, f).ok && RegenerateBpf(Last(Prepare(d, f), d), p, f).ok
    && !f.removeBackup.Untouched?
    && !(f.removeBackup.Removed? && f.setAside && f.promote)
  }

  lemma LastPart(d: Dirs, p: Persist, f: Faults)
    ensures var prepared := Prepare(d, f);
            var d1 := Last(prepared, d);
            var e := Last(Settled(d1, p, f), Last(RegenerateBpf(d1, p, f), d1));
            Last(Regenerate(d, p, f).steps, d)
            == if !prepared.ok then d1
               else if Settled(d1, p, f).ok then Last(Remove(e, Next, f.removeNextAgain), e)
               else e
  {
    hide Prepare, RegenerateBpf, Synchronize, KeepFailed, Remove;
    var prepared := Prepare(d, f);
    var d1 := Last(prepared, d);
    var bpf, settled := RegenerateBpf(d1, p, f), Settled(d1, p, f);
    LastThen(bpf, settled, d1);
    LastThen(prepared, Then(bpf, settled), d);
    if settled.ok {
      LastThen(Then(prepared, Then(bpf, settled)), Remove(Last(Then(bpf, settled), d1), Next, f.removeNextAgain), d);
    }
  }

  /** Where a commit leaves a disk whose `<id>` does not read back. */
  lemma SynchronizeSafeIff(d: Dirs, p: Persist, f: Faults)
    requires d.next == Readable(p) && !Reads(d, Current, p.id) && Reads(d, Backup, p.id)
    ensures Safe(Last(Synchronize(d, f), d), p.id) <==>
            f.removeBackup.Untouched? || (f.removeBackup.Removed? && f.setAside && f.promote)
  {
    var r := Remove(d, Backup, f.removeBackup);
    if r.ok {
      var d1 := d.(backup := Absent);
      assert Last(r, d) == d1;
      LastThen(r, SetAside(d1, f), d);
      SetAsideSafeIff(d1, p, f);
      hide SetAside;
    }
  }

  lemma SetAsideSafeIff(d: Dirs, p: Persist, f: Faults)
    requires d.next == Readable(p) && !Reads(d, Current, p.id) && d.backup.Absent?
    ensures Safe(Last(SetAside(d, f), d), p.id) <==> f.setAside && f.promote
  {
  }

  /** From a safe disk the next command boundary is safe again exactly when the
      regeneration is not of that kind. */
  lemma StaysSafeIff(d: Dirs, p: Persist, f: Faults)
    requires Safe(d, p.id)
    ensures Safe(Last(Regenerate(d, p, f).steps, d), p.id) <==> !BecomesUnsafe(d, p, f)
  {
    hide Regenerate, Prepare, RegenerateBpf, Synchronize, KeepFailed;
    LastPart(d, p, f);
    PrepareElsewhere(d, f, Current);
    PrepareElsewhere(d, f, Backup);
    var d1 := Last(Prepare(d, f), d);
    BpfElsewhere(d1, p, f, Current);
    BpfElsewhere(d1, p, f, Backup);
    var d2 := Last(RegenerateBpf(d1, p, f), d1);
    KeepFailedElsewhere(d2, f, Current);
    KeepFailedElsewhere(d2, f, Backup);
    if Prepare(d, f).ok && RegenerateBpf(d1, p, f).ok {
      assert d2.next == Readable(p);
      if Reads(d, Current, p.id) { SynchronizeCurrentSafe(d2, p, f); } else { SynchronizeSafeIff(d2, p, f); }
    }
  }

  lemma SynchronizeCurrentSafe(d: Dirs, p: Persist, f: Faults)
    requires d.next == Readable(p) && Reads(d, Current, p.id)
    ensures Safe(Last(Synchronize(d, f), d), p.id)
  {
    var r := Remove(d, Backup, f.removeBackup);
    if r.ok {
      LastThen(r, SetAside(Last(r, d), f), d);
      SetAsideRecovers(Last(r, d), p, f, d.current.persist);
      SetAsideBackup(Last(r, d), p, f);
      hide SetAside;
    }
  }

  lemma SetAsideBackup(d: Dirs, p: Persist, f: Faults)
    requires d.next == Readable(p) && Reads(d, Current, p.id) && d.backup.Absent?
    ensures Safe(Last(SetAside(d, f), d), p.id)
  {
  }

  // ------------------------------------------------------------------ restarts

  /** A restart has cleaned up: where it chose a directory, others may be lost, wholly or
      partly, whichever removals succeed and wherever it stops. */
  ghost predicate Restarted(d: Dirs, now: Dirs, id: nat)
  {
    forall k :: now.Get(k) == d.Get(k) || (Chosen(d, id).Some? && Chosen(d, id) != Some(k) && !now.Get(k).Readable?)
  }

  /** It leaves a safe disk exactly when it restores `<id>` or `<id>_stale`, or leaves a
      readable `<id>_stale` as it was. */
  predicate RestartSafe(d: Dirs, now: Dirs, id: nat)
  {
    Chosen(d, id) == Some(Current) || Chosen(d, id) == Some(Backup) || (Reads(d, Backup, id) && now.backup == d.backup)
  }

  lemma RecoverySafeIff(d: Dirs, now: Dirs, id: nat)
    requires Restarted(d, now, id)
    ensures Safe(now, id) <==> RestartSafe(d, now, id)
    ensures Recovered(now, id) == Recovered(d, id)
  {
    assert now.Get(Current) == now.current && now.Get(Next) == now.next;
    assert now.Get(Backup) == now.backup && now.Get(NextFailed) == now.failed;
  }

  /** What a restart leaves when all its removals succeed. */
  function AfterRecovery(d: Dirs, id: nat): Dirs
  {
    match Chosen(d, id)
    case None => d
    case Some(k) => Dirs(Absent, Absent, Absent, Absent).Set(k, d.Get(k))
  }

  lemma AfterRecoveryRestarted(d: Dirs, id: nat)
    ensures Restarted(d, AfterRecovery(d, id), id)
  {
  }

  /** A regeneration that runs to its end; or a crash after `at` of its states, 0 being
      before it, and a restart that leaves `now`. */
  datatype Act = Completed(p: Persist, f: Faults) | Crashed(p: Persist, f: Faults, at: nat, now: Dirs)

  /** The disk a crash leaves. */
  function DiskAt(d: Dirs, act: Act): Dirs
    requires act.Crashed? && act.at <= |Regenerate(d, act.p, act.f).steps.trace|
  {
    if act.at == 0 then d else Regenerate(d, act.p, act.f).steps.trace[act.at - 1]
  }

  ghost predicate Happens(d: Dirs, act: Act, id: nat)
  {
    && act.p.id == id
    && (act.Crashed? ==> act.at <= |Regenerate(d, act.p, act.f).steps.trace| && Restarted(DiskAt(d, act), act.now, id))
  }

  function Done(d: Dirs, act: Act): Dirs
  {
    match act
    case Completed(p, f) => Last(Regenerate(d, p, f).steps, d)
    case Crashed(_, _, _, now) => now
  }

  function DoneAll(d: Dirs, acts: seq<Act>): Dirs
    decreases |acts|
  {
    if acts == [] then d else DoneAll(Done(d, acts[0]), acts[1..])
  }

  ghost predicate HappensAll(d: Dirs, acts: seq<Act>, id: nat)
    decreases |acts|
  {
    acts == [] || (Happens(d, acts[0], id) && HappensAll(Done(d, acts[0]), acts[1..], id))
  }

  predicate StaysSafe(d: Dirs, act: Act, id: nat)
    requires act.Crashed? ==> act.at <= |Regenerate(d, act.p, act.f).steps.trace|
  {
    match act
    case Completed(p, f) => !BecomesUnsafe(d, p, f)
    case Crashed(_, _, _, now) => RestartSafe(DiskAt(d, act), now, id)
  }

  ghost predicate NeverUnsafe(d: Dirs, acts: seq<Act>, id: nat)
    requires HappensAll(d, acts, id)
    decreases |acts|
  {
    acts == [] || (StaysSafe(d, acts[0], id) && NeverUnsafe(Done(d, acts[0]), acts[1..], id))
  }

  lemma ActSafeIff(d: Dirs, act: Act, id: nat)
    requires Safe(d, id) && Happens(d, act, id)
    ensures Safe(Done(d, act), id) <==> StaysSafe(d, act, id)
  {
    hide Regenerate, Safe, BecomesUnsafe, Restarted, RestartSafe;
    match act
    case Completed(p, f) => StaysSafeIff(d, p, f);
    case Crashed(_, _, _, now) => RecoverySafeIff(DiskAt(d, act), now, id);
  }

  /** Over runs of regenerations, crashes and restarts: every boundary is safe exactly when
      each of them keeps it; and then no moment of the run, and no restart in it, is
      without a state to recover. */
  lemma {:induction false} RunSafeIff(d: Dirs, acts: seq<Act>, id: nat)
    requires Safe(d, id) && HappensAll(d, acts, id)
    ensures NeverUnsafe(d, acts, id) <==> forall k :: 0 <= k <= |acts| ==> Safe(DoneAll(d, acts[..k]), id)
    ensures NeverUnsafe(d, acts, id) ==>
              forall k :: 0 <= k < |acts| ==>
                AlwaysRecovers(Regenerate(DoneAll(d, acts[..k]), acts[k].p, acts[k].f).steps.trace, id)
    decreases |acts|
  {
    hide Regenerate, StaysSafe, Recovered, AlwaysRecovers, Safe, Restarted;
    if acts != [] {
      var d' := Done(d, acts[0]);
      ActSafeIff(d, acts[0], id);
      SafeRecovers(d, acts[0].p, acts[0].f);
      assert acts[..1][1..] == [];
      assert DoneAll(d, acts[..1]) == d';
      forall k | 0 < k <= |acts| ensures DoneAll(d, acts[..k]) == DoneAll(d', acts[1..][..k - 1]) {
        assert acts[..k][1..] == acts[1..][..k - 1];
      }
      if Safe(d', id) {
        RunSafeIff(d', acts[1..], id);
        assert forall k :: 0 < k < |acts| ==> acts[k] == acts[1..][k - 1];
        if forall k :: 0 <= k <= |acts| ==> Safe(DoneAll(d, acts[..k]), id) {
          forall k | 0 <= k <= |acts[1..]| ensures Safe(DoneAll(d', acts[1..][..k]), id) {
            assert DoneAll(d, acts[..k + 1]) == DoneAll(d', acts[1..][..k + 1 - 1]);
          }
        }
      }
    }
  }

  /** No call need fail for that: a crash between the two renames of a commit, a
      restart and the next regeneration pass through a moment with nothing to recover. */
  lemma CrashThenRestartLoses(q: Persist, p: Persist, p': Persist, f: Faults)
    requires q.id == p.id == p'.id && Prepare(Dirs(Absent, Readable(p), Absent, Absent), f).trace != []
    ensures var commit := Regenerate(Dirs(Readable(q), Absent, Absent, Absent), p, ALL_WELL);
            var crash := Dirs(Absent, Readable(p), Readable(q), Absent);
            && commit.phase.Ready? && crash in commit.steps.trace
            && Restarted(crash, AfterRecovery(crash, p.id), p.id)
            && AfterRecovery(crash, p.id) == Dirs(Absent, Readable(p), Absent, Absent)
            && !AlwaysRecovers(Regenerate(AfterRecovery(crash, p.id), p', f).steps.trace, p.id)
  {
    CommitTrace(q, p);
    AfterRecoveryRestarted(Dirs(Absent, Readable(p), Readable(q), Absent), p.id);
    hide Regenerate, Loses, Restarted;
    var left := Dirs(Absent, Readable(p), Absent, Absent);
    assert Loses(left, p', f) by { OnlyNextLoses(left, p', f); }
    LosesIff(left, p', f);
  }

  lemma OnlyNextLoses(d: Dirs, p: Persist, f: Faults)
    requires d.current.Absent? && d.backup.Absent? && d.failed.Absent? && Prepare(d, f).trace != []
    ensures Loses(d, p, f)
  {
    hide Prepare;
  }

  lemma CommitTrace(q: Persist, p: Persist)
    ensures var commit := Regenerate(Dirs(Readable(q), Absent, Absent, Absent), p, ALL_WELL);
            commit.phase.Ready? && Dirs(Absent, Readable(p), Readable(q), Absent) in commit.steps.trace
  {
    var d := Dirs(Readable(q), Absent, Absent, Absent);
    var d1, d2, crash := d.(next := Unreadable), d.(next := Readable(p)),
        Dirs(Absent, Readable(p), Readable(q), Absent);
    assert Prepare(d, ALL_WELL) == Steps([d1], true);
    assert RegenerateBpf(d1, p, ALL_WELL) == Steps([d2], true);
    assert Synchronize(d2, ALL_WELL).ok && Synchronize(d2, ALL_WELL).trace[0] == crash by {
      assert SetAside(d2, ALL_WELL).ok && SetAside(d2, ALL_WELL).trace[0] == crash;
    }
    TraceParts(d, p, ALL_WELL);
    hide Prepare, RegenerateBpf, Synchronize, Tail;
    assert Regenerate(d, p, ALL_WELL).steps.trace[2] == crash;
  }

  const ALL_WELL :=
    Faults(Removed, true, true, Written, true, Removed, true, true, true, Removed, Removed, true, Removed)

  /** With the committed state set aside, a failing promotion and a failing rollback. */
  lemma RollbackFailureStep(q: Persist, p: Persist)
    ensures var d := Dirs(Readable(q), Absent, Absent, Absent);
            Last(Regenerate(d, p, ALL_WELL.(promote := false, rollback := false)).steps, d)
            == Dirs(Absent, Readable(p), Readable(q), Absent)
  {
    var d := Dirs(Readable(q), Absent, Absent, Absent);
    var f := ALL_WELL.(promote := false, rollback := false);
    assert Prepare(d, f) == Steps([d.(next := Unreadable)], true);
    var d2 := d.(next := Readable(p));
    assert SetAside(d2, f) == Steps([Dirs(Absent, Readable(p), Readable(q), Absent)], false);
    assert Synchronize(d2, f) == SetAside(d2, f);
  }

  /** The next regeneration discards the backup before its own promotion fails. */
  lemma SecondFailureStep(q: Persist, p: Persist)
    ensures var d := Dirs(Absent, Readable(p), Readable(q), Absent);
            Last(Regenerate(d, p, ALL_WELL.(promote := false)).steps, d) == Dirs(Absent, Readable(p), Absent, Absent)
  {
    var d := Dirs(Absent, Readable(p), Readable(q), Absent);
    var f := ALL_WELL.(promote := false);
    assert Prepare(d, f) == Steps([d.(next := Unreadable), d.(next := Absent), d.(next := Unreadable)], true);
    assert Remove(d, Backup, Removed) == Steps([d.(backup := Unreadable), d.(backup := Absent)], true);
    assert SetAside(d.(backup := Absent), f) == Steps([], false);
  }

  /** With nothing but `<id>_next` left, starting the next regeneration removes it. */
  lemma ThirdStepLoses(p: Persist)
    ensures var trace := Regenerate(Dirs(Absent, Readable(p), Absent, Absent), p, ALL_WELL).steps.trace;
            trace != [] && Recovered(trace[0], p.id).None?
  {
    assert Prepare(Dirs(Absent, Readable(p), Absent, Absent), ALL_WELL).trace[0]
        == Dirs(Absent, Unreadable, Absent, Absent);
  }

  /** A run that becomes unsafe: after a failed rollback, a regeneration whose promotion
      fails leaves the new state in `<id>_next` alone, and the next regeneration passes
      through a moment at which no state can be recovered. */
  lemma RollbackFailureLoses(q: Persist, p: Persist)
    requires q.id == p.id
    ensures var f1 := ALL_WELL.(promote := false, rollback := false);
            var f2 := ALL_WELL.(promote := false);
            var d := RunAll(Dirs(Readable(q), Absent, Absent, Absent), [(p, f1), (p, f2)]);
            && Recovered(d, q.id) == Some(p)
            && Regenerate(d, p, ALL_WELL).steps.trace != []
            && Recovered(Regenerate(d, p, ALL_WELL).steps.trace[0], q.id).None?
  {
    var f1 := ALL_WELL.(promote := false, rollback := false);
    var f2 := ALL_WELL.(promote := false);
    var cmds := [(p, f1), (p, f2)];
    RollbackFailureStep(q, p);
    SecondFailureStep(q, p);
    assert cmds[1..] == [(p, f2)];
    assert [(p, f2)][1..] == [];
    ThirdStepLoses(p);
    hide Regenerate;
    assert RunAll(Dirs(Absent, Readable(p), Readable(q), Absent), [(p, f2)])
        == Dirs(Absent, Readable(p), Absent, Absent);
  }

  // ------------------------------------------------------------------ the worker's calls

  /** The directories of one endpoint as its worker changes them, with every state they
      have been in. */
  class EndpointDirs {
    var dirs: Dirs
    ghost var trace: seq<Dirs>

    constructor (d: Dirs)
      ensures dirs == d && trace == []
    {
      dirs := d;
      trace := [];
    }

    ghost predicate Ran(s: Steps, ok: bool, before: Dirs, was: seq<Dirs>)
      reads this
    {
      ok == s.ok && dirs == Last(s, before) && trace == was + s.trace
    }

    method SetDir(k: DirKind, st: DirState)
      modifies this
      ensures dirs == old(dirs).Set(k, st) && trace == old(trace) + [dirs]
    {
      dirs := dirs.Set(k, st);
      trace := trace + [dirs];
    }

    method RemoveDirIfExists(k: DirKind, r: Removal) returns (ok: bool)
      modifies this
      ensures Ran(Remove(old(dirs), k, r), ok, old(dirs), old(trace))
    {
      ok := r.Removed?;
      if !dirs.Get(k).Absent? && !r.Untouched? {
        SetDir(k, Unreadable);
        if r.Removed? { SetDir(k, Absent); }
      }
    }

    method RenameDir(from: DirKind, to: DirKind, allowed: bool) returns (ok: bool)
      modifies this
      ensures Ran(Rename(old(dirs), from, to, allowed), ok, old(dirs), old(trace))
    {
      ok := allowed && !dirs.Get(from).Absent? && !dirs.Get(to).Readable?;
      if ok {
        dirs := dirs.Set(to, dirs.Get(from)).Set(from, Absent);
        trace := trace + [dirs];
      }
    }

    method SetAsideAndPromote(f: Faults) returns (ok: bool)
      modifies this
      ensures Ran(SetAside(old(dirs), f), ok, old(dirs), old(trace))
    {
      hide Remove;
      var absent := dirs.current.Absent?;
      var hadCurrent := RenameDir(Current, Backup, f.setAside);
      if !f.setAside || (!hadCurrent && !absent) { return false; }
      ok := RenameDir(Next, Current, f.promote);
      if ok {
        var _ := RemoveDirIfExists(Backup, f.dropBackup);
      } else if hadCurrent {
        var _ := RenameDir(Backup, Current, f.rollback);
      }
    }

    /** `synchronize_directories`. */
    method SynchronizeDirectories(f: Faults) returns (ok: bool)
      modifies this
      ensures Ran(Synchronize(old(dirs), f), ok, old(dirs), old(trace))
    {
      hide Remove, SetAside;
      ok := RemoveDirIfExists(Backup, f.removeBackup);
      if ok { ok := SetAsideAndPromote(f); }
    }

    /** `regenerate_bpf`: the state file first, then the loader. */
    method RegenerateBpfDir(p: Persist, f: Faults) returns (ok: bool)
      modifies this
      ensures Ran(RegenerateBpf(old(dirs), p, f), ok, old(dirs), old(trace))
    {
      if f.write.NotWritten? { return false; }
      SetDir(Next, Readable(p));
      ok := f.write.Written? && f.attach;
    }

    method PrepareNext(f: Faults) returns (ok: bool)
      modifies this
      ensures Ran(Prepare(old(dirs), f), ok, old(dirs), old(trace))
    {
      ok := RemoveDirIfExists(Next, f.removeNext);
      if !ok { return; }
      if !f.create { return false; }
      SetDir(Next, Unreadable);
      ok := f.chmod;
    }

    method KeepFailedDir(f: Faults) returns (ok: bool)
      modifies this
      ensures Ran(KeepFailed(old(dirs), f), ok, old(dirs), old(trace))
    {
      ok := RemoveDirIfExists(NextFailed, f.removeFailed);
      if ok { ok := RenameDir(Next, NextFailed, f.keepFailed); }
    }

    method ApplyEndpoint(p: Persist, f: Faults) returns (ok: bool, phase: Phase)
      modifies this
      ensures Ran(Apply(old(dirs), p, f).steps, ok, old(dirs), old(trace))
      ensures phase == Apply(old(dirs), p, f).phase
    {
      hide RegenerateBpf, Synchronize, KeepFailed;
      var applied := RegenerateBpfDir(p, f);
      if applied {
        ok := SynchronizeDirectories(f);
        phase := if ok then Ready else Unchanged;
      } else {
        ok := KeepFailedDir(f);
        phase := Failed;
      }
    }

    /** `regenerate`: its result and the phase it leaves. */
    method RegenerateEndpoint(p: Persist, f: Faults) returns (ok: bool, phase: Phase)
      modifies this
      ensures Ran(Regenerate(old(dirs), p, f).steps, ok, old(dirs), old(trace))
      ensures phase == Regenerate(old(dirs), p, f).phase
    {
      hide Prepare, Apply, Remove;
      phase := Unchanged;
      ok := PrepareNext(f);
      if !ok { return; }
      ok, phase := ApplyEndpoint(p, f);
      if !ok { return; }
      ok := RemoveDirIfExists(Next, f.removeNextAgain);
    }
  }
}
