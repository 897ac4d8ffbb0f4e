/** `read_endpoints`: what a restart restores from the directories on disk, and the
    clean-up of the directories it supersedes. */
module Recovery {
  import opened Bytes
  import opened DirectoryNames
  import opened StateDirectory

  /** The directories under the state directory, by name. */
  type Disk = map<string, DirState>

  function Lookup(disk: Disk, name: string): DirState { if name in disk then disk[name] else Absent }

  /** Putting a state under a name; `Absent` takes the entry away. */
  function Put(disk: Disk, name: string, st: DirState): Disk
  {
    if st.Absent? then disk - {name} else disk[name := st]
  }

  /** The four directories of endpoint `id`. */
  function View(disk: Disk, id: nat): Dirs
  {
    Dirs(Lookup(disk, DirName(id, Current)), Lookup(disk, DirName(id, Next)),
         Lookup(disk, DirName(id, Backup)), Lookup(disk, DirName(id, NextFailed)))
  }

  ghost predicate Present(disk: Disk)
  {
    forall name :: name in disk ==> !disk[name].Absent?
  }

  predicate ValidId(id: nat) { MIN_ID <= id <= MAX_ID }

  /** The endpoints a restart would restore from `disk`. */
  function Restored(disk: Disk): map<nat, Persist>
  {
    map id: nat | MIN_ID <= id <= MAX_ID && Recovered(View(disk, id), id).Some? :: Recovered(View(disk, id), id).value
  }

  lemma NamesDiffer(id: nat, k: DirKind, id': nat, k': DirKind)
    requires ValidId(id) && DirName(id, k) == DirName(id', k') && ValidId(id')
    ensures id == id' && k == k'
  {
    NamesOneToOne(DirName(id, k), id, k);
    NamesOneToOne(DirName(id, k), id', k');
  }

  /** A change under one name is seen in one place of one endpoint's view. */
  lemma ViewPut(disk: Disk, id: nat, k: DirKind, st: DirState, id': nat)
    requires ValidId(id) && ValidId(id')
    ensures View(Put(disk, DirName(id, k), st), id') == if id' == id then View(disk, id).Set(k, st) else View(disk, id')
  {
    forall k' | DirName(id, k) == DirName(id', k') ensures id == id' && k == k' {
      NamesDiffer(id, k, id', k');
    }
    var after := View(Put(disk, DirName(id, k), st), id');
    forall k' ensures after.Get(k') == if id' == id && k' == k then st else View(disk, id').Get(k') {
    }
    DirsExtensional(after, if id' == id then View(disk, id).Set(k, st) else View(disk, id'));
  }

  lemma DirsExtensional(a: Dirs, b: Dirs)
    requires forall k :: a.Get(k) == b.Get(k)
    ensures a == b
  {
    assert a.Get(Current) == b.Get(Current) && a.Get(Next) == b.Get(Next);
    assert a.Get(Backup) == b.Get(Backup) && a.Get(NextFailed) == b.Get(NextFailed);
  }

  lemma ViewAfterRemove(was: Disk, now: Disk, id: nat, k: DirKind, r: Removal)
    requires ValidId(id)
    requires now == if Lookup(was, DirName(id, k)).Absent? || r.Untouched? then was
                    else Put(was, DirName(id, k), After(Lookup(was, DirName(id, k)), r))
    ensures forall id' :: ValidId(id') && id' != id ==> View(now, id') == View(was, id')
    ensures forall k' :: k' != k ==> View(now, id).Get(k') == View(was, id).Get(k')
    ensures View(now, id).Get(k) == After(View(was, id).Get(k), r)
  {
    assert View(was, id).Get(k) == Lookup(was, DirName(id, k));
    forall id' | ValidId(id') ensures
        now != was ==>
          View(now, id') == if id' == id then View(was, id).Set(k, After(Lookup(was, DirName(id, k)), r))
              else View(was, id')
    {
      ViewPut(was, id, k, After(Lookup(was, DirName(id, k)), r), id');
    }
  }

  /** Losing a directory that is not the chosen one, wholly or partly, changes nothing
      about what is restored. */
  lemma LosingOtherKeepsChoice(d: Dirs, id: nat, k: DirKind, st: DirState)
    requires Chosen(d, id).Some? && Chosen(d, id).value != k
    requires st == d.Get(k) || !st.Readable?
    ensures Chosen(d.Set(k, st), id) == Chosen(d, id)
    ensures Recovered(d.Set(k, st), id) == Recovered(d, id)
  {
  }

  lemma LosingOtherKeepsRestored(disk: Disk, id: nat, k: DirKind, st: DirState)
    requires ValidId(id) && Chosen(View(disk, id), id).Some? && Chosen(View(disk, id), id).value != k
    requires st == View(disk, id).Get(k) || !st.Readable?
    ensures Restored(Put(disk, DirName(id, k), st)) == Restored(disk)
    ensures forall id' :: ValidId(id') ==>
              Chosen(View(Put(disk, DirName(id, k), st), id'), id') == Chosen(View(disk, id'), id')
  {
    var after := Put(disk, DirName(id, k), st);
    LosingOtherKeepsChoice(View(disk, id), id, k, st);
    forall id' | ValidId(id')
      ensures Recovered(View(after, id'), id') == Recovered(View(disk, id'), id')
              && Chosen(View(after, id'), id') == Chosen(View(disk, id'), id')
    {
      ViewPut(disk, id, k, st, id');
    }
  }

  /** Superseded: the endpoint has a chosen directory and this is another of its. */
  ghost predicate Superseded(disk: Disk, name: string)
  {
    exists id: nat, k :: ParseDirName(name) == Some((id, k)) && Chosen(View(disk, id), id).Some?
        && Chosen(View(disk, id), id).value != k
  }

  /** `now` is `disk` with some superseded directories lost, wholly or partly, and
      nothing else changed. */
  ghost predicate CleanUp(disk: Disk, now: Disk)
  {
    && (forall name :: Lookup(now, name) != Lookup(disk, name) ==>
         Superseded(disk, name) && !Lookup(now, name).Readable?)
    && (forall id :: ValidId(id) ==> Chosen(View(now, id), id) == Chosen(View(disk, id), id))
    && Restored(now) == Restored(disk)
  }

  /** Every directory of `id` but the chosen one is as its removal has left it. */
  ghost predicate EachRemoved(disk: Disk, now: Disk, id: nat, chosen: DirKind, outcome: (nat, DirKind) -> Removal)
  {
    forall k :: k != chosen ==> View(now, id).Get(k) == After(View(disk, id).Get(k), outcome(id, k))
  }

  /** Where all its removals succeed, nothing but the chosen directory is left. */
  lemma AllRemoved(disk: Disk, now: Disk, id: nat, chosen: DirKind, outcome: (nat, DirKind) -> Removal)
    requires EachRemoved(disk, now, id, chosen, outcome) && Chosen(View(disk, id), id) == Some(chosen)
    requires forall k :: outcome(id, k).Removed?
    ensures OnlyChosenLeft(disk, now, id)
  {
    hide View;
  }

  /** Nothing but the chosen directory of `id` is left. */
  ghost predicate OnlyChosenLeft(disk: Disk, now: Disk, id: nat)
  {
    forall k :: Chosen(View(disk, id), id) != Some(k) ==> View(now, id).Get(k).Absent?
  }

  lemma CleanUpNothing(disk: Disk)
    ensures CleanUp(disk, disk)
  {
  }

  lemma CleanUpStep(disk: Disk, now: Disk, id: nat, k: DirKind, st: DirState)
    requires CleanUp(disk, now) && ValidId(id)
    requires Chosen(View(disk, id), id).Some? && Chosen(View(disk, id), id).value != k
    requires !st.Readable?
    ensures CleanUp(disk, Put(now, DirName(id, k), st))
  {
    hide View, Chosen, ParseDirName, DirName, Restored;
    LosingOtherKeepsRestored(now, id, k, st);
    NamesOneToOne(DirName(id, k), id, k);
    var after := Put(now, DirName(id, k), st);
    forall name | Lookup(after, name) != Lookup(disk, name)
      ensures Superseded(disk, name) && !Lookup(after, name).Readable?
    {
      assert name != DirName(id, k) ==> Lookup(after, name) == Lookup(now, name);
    }
  }

  /** Every entry of a clean-up keeps what endpoints without a readable directory have. */
  lemma CleanUpLeavesUnchosen(disk: Disk, now: Disk, id: nat, k: DirKind)
    requires CleanUp(disk, now) && ValidId(id)
    requires Chosen(View(disk, id), id).None? || Chosen(View(disk, id), id).value == k
    ensures Lookup(now, DirName(id, k)) == Lookup(disk, DirName(id, k))
  {
    NamesOneToOne(DirName(id, k), id, k);
    assert !Superseded(disk, DirName(id, k));
  }

  /** Every clean-up is a restart of every endpoint. */
  lemma CleanUpIsRestart(disk: Disk, now: Disk, id: nat)
    requires CleanUp(disk, now) && ValidId(id)
    ensures Restarted(View(disk, id), View(now, id), id)
  {
    hide CleanUp, Chosen, DirName, ParseDirName;
    forall k ensures var was, left := View(disk, id).Get(k), View(now, id).Get(k);
        left == was || (Chosen(View(disk, id), id).Some? && Chosen(View(disk, id), id) != Some(k) && !left.Readable?)
    {
      LostInCleanUp(disk, now, id, k);
    }
  }

  lemma LostInCleanUp(disk: Disk, now: Disk, id: nat, k: DirKind)
    requires CleanUp(disk, now) && ValidId(id)
    ensures View(disk, id).Get(k) == Lookup(disk, DirName(id, k)) && View(now, id).Get(k) == Lookup(now, DirName(id, k))
    ensures View(now, id).Get(k) == View(disk, id).Get(k)
            || (Chosen(View(disk, id), id).Some? && Chosen(View(disk, id), id) != Some(k)
                 && !View(now, id).Get(k).Readable?)
  {
    hide Chosen, ParseDirName, DirName;
    if Chosen(View(disk, id), id).None? || Chosen(View(disk, id), id).value == k {
      CleanUpLeavesUnchosen(disk, now, id, k);
    }
  }

  /** So it leaves an endpoint a safe disk exactly when it restores `<id>` or
      `<id>_stale`, or leaves a readable `<id>_stale` as it was. */
  lemma CleanUpSafeIff(disk: Disk, now: Disk, id: nat)
    requires CleanUp(disk, now) && ValidId(id)
    ensures Safe(View(now, id), id) <==>
            || Chosen(View(disk, id), id) == Some(Current) || Chosen(View(disk, id), id) == Some(Backup)
            || (Reads(View(disk, id), Backup, id)
                && Lookup(now, DirName(id, Backup)) == Lookup(disk, DirName(id, Backup)))
  {
    CleanUpIsRestart(disk, now, id);
    hide CleanUp, Chosen, Restarted, DirName;
    RecoverySafeIff(View(disk, id), View(now, id), id);
  }

  /** With all removals of an endpoint done, its directories are what `AfterRecovery` says. */
  lemma CleanedView(disk: Disk, now: Disk, id: nat)
    requires CleanUp(disk, now) && ValidId(id)
    requires Chosen(View(disk, id), id).Some? && OnlyChosenLeft(disk, now, id)
    ensures View(now, id) == AfterRecovery(View(disk, id), id)
  {
    var k := Chosen(View(disk, id), id).value;
    CleanUpLeavesUnchosen(disk, now, id, k);
    hide DirName, CleanUp, Chosen;
    assert View(now, id).Get(k) == View(disk, id).Get(k);
    forall j ensures View(now, id).Get(j) == AfterRecovery(View(disk, id), id).Get(j) {
      if j != k { assert View(now, id).Get(j).Absent?; }
    }
    DirsExtensional(View(now, id), AfterRecovery(View(disk, id), id));
  }

  /** Recovery is idempotent, also when the first run was cut short at any point. */
  lemma RestoredTwice(disk: Disk, now: Disk, later: Disk)
    requires CleanUp(disk, now) && CleanUp(now, later)
    ensures CleanUp(disk, later)
  {
    forall name | Lookup(later, name) != Lookup(disk, name)
      ensures Superseded(disk, name) && !Lookup(later, name).Readable?
    {
      if Lookup(later, name) != Lookup(now, name) {
        var id: nat, k :| ParseDirName(name) == Some((id, k))
                          && Chosen(View(now, id), id).Some? && Chosen(View(now, id), id).value != k;
        NamesOneToOne(name, id, k);
        assert Chosen(View(disk, id), id) == Chosen(View(now, id), id);
      }
    }
  }

  lemma ParsedNames(disk: Disk, id: nat, k: DirKind)
    requires Present(disk)
    ensures (exists name :: name in disk.Keys && ParseDirName(name) == Some((id, k))) <==>
            ValidId(id) && !View(disk, id).Get(k).Absent?
  {
    forall name ensures ParseDirName(name) == Some((id, k)) <==> ValidId(id) && name == DirName(id, k) {
      NamesOneToOne(name, id, k);
    }
    assert View(disk, id).Get(k) == Lookup(disk, DirName(id, k));
    assert ValidId(id) && DirName(id, k) in disk ==> ParseDirName(DirName(id, k)) == Some((id, k));
  }

  lemma ChosenReads(disk: Disk, id: nat)
    requires Chosen(View(disk, id), id).Some?
    ensures var st := Lookup(disk, DirName(id, Chosen(View(disk, id), id).value));
            st.Readable? && Recovered(View(disk, id), id) == Some(st.persist)
  {
  }

  lemma RecoveredIsPresent(disk: Disk, id: nat)
    requires Recovered(View(disk, id), id).Some?
    ensures exists k :: !View(disk, id).Get(k).Absent?
  {
    assert !View(disk, id).Get(Chosen(View(disk, id), id).value).Absent?;
  }

  // ------------------------------------------------------------------ the states passed through

  /** One step of a removal: a directory becomes unreadable, or an unreadable one goes. */
  ghost predicate RemovalStep(before: Disk, after: Disk)
  {
    exists name :: name in before
      && (after == Put(before, name, Unreadable) || (before[name].Unreadable? && after == Put(before, name, Absent)))
  }

  function DiskAfter(start: Disk, history: seq<Disk>): Disk
  {
    if history == [] then start else history[|history| - 1]
  }

  /** The disk went from `start` through these states, one step at a time. */
  ghost predicate Trail(start: Disk, history: seq<Disk>)
  {
    forall i :: 0 <= i < |history| ==> RemovalStep(DiskAfter(start, history[..i]), history[i])
  }

  lemma TrailExtends(start: Disk, history: seq<Disk>, now: Disk)
    requires Trail(start, history) && RemovalStep(DiskAfter(start, history), now)
    ensures Trail(start, history + [now]) && DiskAfter(start, history + [now]) == now
  {
    hide RemovalStep;
    var later := history + [now];
    forall i | 0 <= i < |later| ensures RemovalStep(DiskAfter(start, later[..i]), later[i]) {
      assert later[..i] == history[..i];
      assert i == |history| ==> history[..i] == history;
    }
  }

  const PREFERENCE: seq<DirKind> := [Current, Next, Backup, NextFailed]

  class StateDir {
    var disk: Disk
    /** The states the clean-up has passed through. */
    ghost var history: seq<Disk>

    /** The disk is where the history since `start` has led, and every state in it, like
        the disk now, is a clean-up of `start`. */
    ghost predicate Tracked(start: Disk)
      reads this
    {
      && Trail(start, history) && disk == DiskAfter(start, history)
      && Present(disk) && CleanUp(start, disk) && forall h :: h in history ==> CleanUp(start, h)
    }

    /** One step of a removal, recorded. */
    method PutDir(id: nat, k: DirKind, st: DirState, ghost start: Disk)
      requires ValidId(id) && Tracked(start) && DirName(id, k) in disk
      requires Chosen(View(start, id), id).Some? && Chosen(View(start, id), id).value != k
      requires st.Unreadable? || (st.Absent? && disk[DirName(id, k)].Unreadable?)
      modifies this
      ensures Tracked(start) && disk == Put(old(disk), DirName(id, k), st) && history == old(history) + [disk]
    {
      hide Chosen, DirName, View, Trail;
      CleanUpStep(start, disk, id, k, st);
      hide CleanUp;
      ghost var was := disk;
      disk := Put(disk, DirName(id, k), st);
      assert RemovalStep(was, disk);
      hide RemovalStep, DiskAfter;
      TrailExtends(start, history, disk);
      history := history + [disk];
    }

    /** `collect_endpoint_dirs`: names that are not state directory names are ignored. */
    method CollectEndpointDirs() returns (dirs: map<nat, set<DirKind>>)
      requires Present(disk)
      ensures forall id: nat, k :: id in dirs && k in dirs[id] <==> ValidId(id) && !View(disk, id).Get(k).Absent?
      ensures forall id :: id in dirs ==> dirs[id] != {}
    {
      hide ParseDirName, View, DirName;
      dirs := map[];
      var names := disk.Keys;
      ghost var seen: set<string> := {};
      while names != {}
        invariant seen + names == disk.Keys
        invariant forall id: nat, k :: id in dirs && k in dirs[id] <==>
                    exists name :: name in seen && ParseDirName(name) == Some((id, k))
        invariant forall id :: id in dirs ==> dirs[id] != {}
        decreases names
      {
        var name :| name in names;
        var parsed := ParseDirName(name);
        if parsed.Some? {
          var (id, k) := parsed.value;
          var kinds := (if id in dirs then dirs[id] else {}) + {k};
          assert k in kinds;
          dirs := dirs[id := kinds];
        }
        names, seen := names - {name}, seen + {name};
      }
      assert seen == disk.Keys;
      forall id: nat, k
        ensures id in dirs && k in dirs[id] <==> ValidId(id) && !View(disk, id).Get(k).Absent?
      {
        ParsedNames(disk, id, k);
      }
    }

    /** `remove_dir_if_exists` under the given outcome, with the states passed through. */
    method RemoveDir(id: nat, k: DirKind, r: Removal, ghost start: Disk)
      requires ValidId(id) && Tracked(start)
      requires Chosen(View(start, id), id).Some? && Chosen(View(start, id), id).value != k
      modifies this
      ensures Tracked(start) && old(history) <= history
      ensures disk == if Lookup(old(disk), DirName(id, k)).Absent? || r.Untouched? then old(disk)
                      else Put(old(disk), DirName(id, k), After(Lookup(old(disk), DirName(id, k)), r))
    {
      hide Tracked, Chosen, DirName, View;
      var name := DirName(id, k);
      if Lookup(disk, name).Absent? || r.Untouched? {
        return;
      }
      ghost var was := disk;
      PutDir(id, k, Unreadable, start);
      if r.Removed? {
        PutDir(id, k, Absent, start);
        assert disk == Put(was, name, Absent);
      }
    }

    /** Reads the endpoint's directories in order of preference until one is usable. */
    method Choose(id: nat, kinds: set<DirKind>) returns (chosen: Option<DirKind>)
      requires forall k :: k in kinds <==> !View(disk, id).Get(k).Absent?
      ensures chosen == Chosen(View(disk, id), id)
    {
      for i := 0 to 4
        invariant forall j :: 0 <= j < i ==> !Reads(View(disk, id), PREFERENCE[j], id)
      {
        var k := PREFERENCE[i];
        if k in kinds {
          var st := Lookup(disk, DirName(id, k));
          assert st == View(disk, id).Get(k);
          if st.Readable? && st.persist.id == id {
            assert i > 0 ==> !Reads(View(disk, id), PREFERENCE[0], id);
            assert i > 1 ==> !Reads(View(disk, id), PREFERENCE[1], id);
            assert i > 2 ==> !Reads(View(disk, id), PREFERENCE[2], id);
            return Some(k);
          }
        }
      }
      assert !Reads(View(disk, id), PREFERENCE[0], id) && !Reads(View(disk, id), PREFERENCE[1], id);
      assert !Reads(View(disk, id), PREFERENCE[2], id) && !Reads(View(disk, id), PREFERENCE[3], id);
      return None;
    }

    /** `read_endpoints`, whatever the clean-up removals do: restores exactly the least
        readable directory of each endpoint, and every state the disk passes through
        would restore the same. */
    method ReadEndpoints(outcome: (nat, DirKind) -> Removal) returns (endpoints: map<nat, Persist>)
      requires Present(disk) && history == []
      modifies this
      ensures endpoints == Restored(old(disk))
      ensures Tracked(old(disk))
      ensures forall id :: id in endpoints ==>
                EachRemoved(old(disk), disk, id, Chosen(View(old(disk), id), id).value, outcome)
    {
      hide ParseDirName, DirName, CleanUp, Chosen, View;
      ghost var start := disk;
      CleanUpNothing(start);
      assert Tracked(start);
      hide Tracked, Present;
      var dirs := CollectEndpointDirs();
      endpoints := map[];
      var rest := dirs.Keys;
      while rest != {}
        invariant rest <= dirs.Keys
        invariant Tracked(start)
        invariant forall id :: id in rest ==> ValidId(id) && View(disk, id) == View(start, id)
        invariant forall id :: id in endpoints <==> id in dirs.Keys - rest && Recovered(View(start, id), id).Some?
        invariant forall id :: id in endpoints ==> Recovered(View(start, id), id) == Some(endpoints[id])
        invariant forall id :: id in endpoints ==>
                    EachRemoved(start, disk, id, Chosen(View(start, id), id).value, outcome)
        decreases rest
      {
        var id :| id in rest;
        var kinds := dirs[id];
        var chosen := Choose(id, kinds);
        if chosen.Some? {
          ChosenReads(disk, id);
          endpoints := endpoints[id := Lookup(disk, DirName(id, chosen.value)).persist];
          RemoveOthers(id, kinds, chosen.value, outcome, start);
        }
        rest := rest - {id};
      }
      forall id | ValidId(id) && Recovered(View(start, id), id).Some? ensures id in dirs {
        RecoveredIsPresent(start, id);
      }
      assert endpoints == Restored(start);
    }

    /** Removes the endpoint's other directories; a failure is only logged. */
    method RemoveOthers(id: nat, kinds: set<DirKind>, chosen: DirKind, outcome: (nat, DirKind) -> Removal,
                        ghost start: Disk)
      requires ValidId(id) && Tracked(start) && Chosen(View(start, id), id) == Some(chosen)
      requires forall k :: k in kinds <==> !View(disk, id).Get(k).Absent?
      modifies this
      ensures Tracked(start) && old(history) <= history
      ensures forall id' :: ValidId(id') && id' != id ==> View(disk, id') == View(old(disk), id')
      ensures EachRemoved(old(disk), disk, id, chosen, outcome)
    {
      hide ParseDirName, DirName, Tracked, Chosen, View, Put;
      ghost var before := disk;
      for i := 0 to 4
        invariant Tracked(start) && old(history) <= history
        invariant forall id' :: ValidId(id') && id' != id ==> View(disk, id') == View(before, id')
        invariant forall j :: i <= j < 4 ==> View(disk, id).Get(PREFERENCE[j]) == View(before, id).Get(PREFERENCE[j])
        invariant forall j :: 0 <= j < i && PREFERENCE[j] != chosen ==>
                    View(disk, id).Get(PREFERENCE[j])
                    == After(View(before, id).Get(PREFERENCE[j]), outcome(id, PREFERENCE[j]))
      {
        var k := PREFERENCE[i];
        if k in kinds && k != chosen {
          ghost var was := disk;
          RemoveDir(id, k, outcome(id, k), start);
          ViewAfterRemove(was, disk, id, k, outcome(id, k));
        }
      }
      forall k: DirKind | k != chosen
        ensures View(disk, id).Get(k) == After(View(before, id).Get(k), outcome(id, k))
      {
        var j := k.Rank();
        assert k == PREFERENCE[j];
      }
    }
  }
}
