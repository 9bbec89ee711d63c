/** The multi-file version update: all temporaries written, all renamed, rolled back in reverse
    when a step throws, and every temporary removed at the end.  Any file-system call may fail
    at any time; rename is atomic, a failing write may leave anything in its own file. */
module SyncVersion {
  import opened Wrappers

  type Path = string

  datatype Op = Read(path: Path) | Write(path: Path) | Rename(source: Path, destination: Path) | Unlink(path: Path)

  ghost predicate SameBut(before: map<Path, string>, after: map<Path, string>, path: Path) {
    forall p | p != path :: (p in before <==> p in after) && (p in after ==> after[p] == before[p])
  }

  /** The injected file system; `fails` and `leaves` are the fault schedule, one entry per call. */
  class FileSystem {
    var files: map<Path, string>
    var clock: nat
    const fails: nat -> bool
    const leaves: nat -> Option<string>
    /** The calls that failed by schedule, oldest first. */
    ghost var faults: seq<Op>

    constructor (files: map<Path, string>, fails: nat -> bool, leaves: nat -> Option<string>)
      ensures this.files == files && faults == []
    {
      this.files, this.fails, this.leaves, clock, faults := files, fails, leaves, 0, [];
    }

    method Tick(ghost op: Op) returns (fault: bool, left: Option<string>)
      modifies this`clock, this`faults
      ensures faults == if fault then old(faults) + [op] else old(faults)
    {
      fault, left := fails(clock), leaves(clock);
      clock := clock + 1;
      if fault {
        faults := faults + [op];
      }
    }

    method ReadFile(path: Path) returns (data: Option<string>)
      modifies this`clock, this`faults
      ensures data.Some? ==> path in files && files[path] == data.value && faults == old(faults)
      ensures data.None? ==> (path !in files && faults == old(faults)) || faults == old(faults) + [Read(path)]
    {
      var fault, left := Tick(Read(path));
      if fault || path !in files {
        return None;
      }
      return Some(files[path]);
    }

    method WriteFile(path: Path, data: string) returns (ok: bool)
      modifies this`clock, this`faults, this`files
      ensures faults == if ok then old(faults) else old(faults) + [Write(path)]
      ensures ok ==> files == old(files)[path := data]
      ensures SameBut(old(files), files, path)
    {
      var fault, left := Tick(Write(path));
      if fault {
        if left.Some? {
          files := files[path := left.value];
        }
        return false;
      }
      files := files[path := data];
      return true;
    }

    /** A missing source fails without a scheduled fault. */
    method RenameFile(source: Path, destination: Path) returns (ok: bool)
      modifies this`clock, this`faults, this`files
      ensures faults == if ok || source !in old(files) then old(faults) else old(faults) + [Rename(source, destination)]
      ensures ok ==> source in old(files)
      ensures files == if ok then (old(files) - {source})[destination := old(files)[source]] else old(files)
    {
      if source !in files {
        return false;
      }
      var fault, left := Tick(Rename(source, destination));
      if fault {
        return false;
      }
      files := (files - {source})[destination := files[source]];
      return true;
    }

    /** Errors are swallowed by every caller. */
    method UnlinkFile(path: Path)
      modifies this`clock, this`faults, this`files
      ensures path !in old(files) ==> files == old(files) && faults == old(faults)
      ensures path in old(files) ==> (files == old(files) - {path} && faults == old(faults))
                                     || (files == old(files) && faults == old(faults) + [Unlink(path)])
    {
      if path !in files {
        return;
      }
      var fault, left := Tick(Unlink(path));
      if !fault {
        files := files - {path};
      }
    }
  }

  /** One file of the update; the rollback name is drawn only when it is needed. */
  datatype Update = Update(path: Path, source: string, contents: string, temporary: Path, rollback: Path)

  /** The file's content is what was read, paths differ, and random names are new. */
  ghost predicate Prepared(us: seq<Update>, files: map<Path, string>) {
    && (forall i | 0 <= i < |us| :: us[i].path in files && files[us[i].path] == us[i].source)
    && (forall i, j | 0 <= i < j < |us| :: us[i].path != us[j].path && us[i].temporary != us[j].temporary)
    && (forall i | 0 <= i < |us| :: us[i].temporary !in files && us[i].rollback !in files)
    && (forall i, j | 0 <= i < |us| && 0 <= j < |us| :: us[i].temporary != us[j].rollback)
  }

  /** Exactly the updates marked have their new content, the others the old one; every other
      file is as it was. */
  ghost predicate Holds(us: seq<Update>, before: map<Path, string>, files: map<Path, string>, updated: seq<bool>)
    requires |updated| == |us|
  {
    && (forall i | 0 <= i < |us| :: us[i].path in files && files[us[i].path] == if updated[i] then us[i].contents else us[i].source)
    && (forall p | p in before && (forall i | 0 <= i < |us| :: us[i].path != p) :: p in files && files[p] == before[p])
  }

  /** Beyond the files there were, only temporaries from k on and files whose unlink failed. */
  ghost predicate Leftover(us: seq<Update>, before: map<Path, string>, files: map<Path, string>, k: nat, faults: seq<Op>) {
    forall p | p in files :: p in before || Unlink(p) in faults || exists j: nat :: k <= j < |us| && us[j].temporary == p
  }

  ghost predicate Staged(us: seq<Update>, files: map<Path, string>, k: nat) {
    forall i | k <= i < |us| :: us[i].temporary in files && files[us[i].temporary] == us[i].contents
  }

  function Flags(n: nat, k: nat): (flags: seq<bool>)
    ensures |flags| == n && forall i | 0 <= i < n :: flags[i] == (i < k)
  {
    seq(n, i => i < k)
  }

  /** A write to a temporary touches none of the files there were. */
  lemma TemporaryWritten(us: seq<Update>, before: map<Path, string>, was: map<Path, string>, now: map<Path, string>, i: nat,
                         faults: seq<Op>, more: seq<Op>)
    requires i < |us| && Prepared(us, before) && SameBut(was, now, us[i].temporary)
    requires Holds(us, before, was, Flags(|us|, 0)) && Leftover(us, before, was, 0, faults)
    ensures Holds(us, before, now, Flags(|us|, 0)) && Leftover(us, before, now, 0, faults + more)
  {}

  /** Writes one temporary after another; the call that failed is the error thrown. */
  method WriteTemporaries(fs: FileSystem, us: seq<Update>) returns (error: Option<Op>)
    requires Prepared(us, fs.files)
    modifies fs
    ensures Holds(us, old(fs.files), fs.files, Flags(|us|, 0)) && Leftover(us, old(fs.files), fs.files, 0, fs.faults)
    ensures error.None? ==> Staged(us, fs.files, 0) && fs.faults == old(fs.faults)
    ensures error.Some? ==> fs.faults == old(fs.faults) + [error.value] && exists i :: 0 <= i < |us| && error.value == Write(us[i].temporary)
  {
    StartHolds(us, fs.files, fs.faults);
    for i := 0 to |us|
      invariant Holds(us, old(fs.files), fs.files, Flags(|us|, 0)) && Leftover(us, old(fs.files), fs.files, 0, fs.faults)
      invariant Staged(us[..i], fs.files, 0) && fs.faults == old(fs.faults)
    {
      hide Holds, Leftover, Prepared, Staged;
      ghost var was := fs.files;
      var ok := fs.WriteFile(us[i].temporary, us[i].contents);
      ghost var step := if ok then [] else [Write(us[i].temporary)];
      assert fs.faults == old(fs.faults) + step;
      TemporaryWritten(us, old(fs.files), was, fs.files, i, old(fs.faults), step);
      if !ok {
        return Some(Write(us[i].temporary));
      }
      StagedMore(us, old(fs.files), was, fs.files, i);
    }
    assert us[..|us|] == us;
    return None;
  }

  lemma StagedMore(us: seq<Update>, before: map<Path, string>, was: map<Path, string>, now: map<Path, string>, i: nat)
    requires i < |us| && Prepared(us, before) && Staged(us[..i], was, 0) && now == was[us[i].temporary := us[i].contents]
    ensures Staged(us[..i + 1], now, 0)
  {}

  lemma NamesDiffer(us: seq<Update>, before: map<Path, string>, i: nat)
    requires i < |us| && Prepared(us, before)
    ensures us[i].temporary !in before && us[i].path in before && us[i].path != us[i].temporary
    ensures forall j | 0 <= j < |us| && j != i :: us[j].temporary != us[i].temporary && us[j].temporary != us[i].path
  {}

  lemma StartHolds(us: seq<Update>, files: map<Path, string>, faults: seq<Op>)
    requires Prepared(us, files)
    ensures Holds(us, files, files, Flags(|us|, 0)) && Leftover(us, files, files, 0, faults)
  {}

  /** Renaming temporary i: its file gets the new content. */
  lemma CommitStep(us: seq<Update>, before: map<Path, string>, was: map<Path, string>, now: map<Path, string>, i: nat, faults: seq<Op>)
    requires i < |us| && Prepared(us, before)
    requires Holds(us, before, was, Flags(|us|, i)) && Leftover(us, before, was, 0, faults)
    requires us[i].temporary in was && was[us[i].temporary] == us[i].contents
    requires now == (was - {us[i].temporary})[us[i].path := was[us[i].temporary]]
    ensures Holds(us, before, now, Flags(|us|, i + 1)) && Leftover(us, before, now, 0, faults)
  {
    NamesDiffer(us, before, i);
    assert forall j | 0 <= j < |us| && j != i :: us[j].path in before && us[j].path != us[i].path;
    hide Prepared;
  }

  lemma StagedRest(us: seq<Update>, before: map<Path, string>, was: map<Path, string>, now: map<Path, string>, i: nat)
    requires i < |us| && Prepared(us, before) && Staged(us, was, i)
    requires now == (was - {us[i].temporary})[us[i].path := us[i].contents]
    ensures Staged(us, now, i + 1)
  {}

  /** Renames one temporary after another; `committed` are the flags. */
  method Commit(fs: FileSystem, us: seq<Update>, ghost before: map<Path, string>) returns (error: Option<Op>, committed: seq<bool>)
    requires Prepared(us, before)
    requires Holds(us, before, fs.files, Flags(|us|, 0)) && Leftover(us, before, fs.files, 0, fs.faults) && Staged(us, fs.files, 0)
    modifies fs
    ensures |committed| == |us| && Holds(us, before, fs.files, committed) && Leftover(us, before, fs.files, 0, fs.faults)
    ensures error.None? ==> (forall i | 0 <= i < |us| :: committed[i]) && fs.faults == old(fs.faults)
    ensures error.Some? ==> fs.faults == old(fs.faults) + [error.value] && exists i :: 0 <= i < |us| && error.value == Rename(us[i].temporary, us[i].path)
  {
    committed := Flags(|us|, 0);
    for i := 0 to |us|
      invariant committed == Flags(|us|, i)
      invariant Holds(us, before, fs.files, committed) && Leftover(us, before, fs.files, 0, fs.faults)
      invariant Staged(us, fs.files, i) && fs.faults == old(fs.faults)
    {
      assert us[i].temporary in fs.files && fs.files[us[i].temporary] == us[i].contents;
      hide Holds, Leftover, Prepared, Staged;
      ghost var was := fs.files;
      var ok := fs.RenameFile(us[i].temporary, us[i].path);
      if !ok {
        FaultLeaves(us, before, was, old(fs.faults), Rename(us[i].temporary, us[i].path));
        return Some(Rename(us[i].temporary, us[i].path)), committed;
      }
      CommitStep(us, before, was, fs.files, i, fs.faults);
      StagedRest(us, before, was, fs.files, i);
      committed := committed[i := true];
      assert committed == Flags(|us|, i + 1);
    }
    return None, committed;
  }

  lemma FaultLeaves(us: seq<Update>, before: map<Path, string>, files: map<Path, string>, faults: seq<Op>, op: Op)
    requires Leftover(us, before, files, 0, faults)
    ensures Leftover(us, before, files, 0, faults + [op])
  {}

  predicate RollbackFault(us: seq<Update>, i: nat, faults: seq<Op>)
    requires i < |us|
  {
    Write(us[i].rollback) in faults || Rename(us[i].rollback, us[i].path) in faults
  }

  predicate IsStep(op: Op) {
    op.Write? || op.Rename?
  }

  predicate NoReads(faults: seq<Op>) {
    forall k | 0 <= k < |faults| :: !faults[k].Read?
  }

  predicate OnlyUnlinks(faults: seq<Op>) {
    forall k | 0 <= k < |faults| :: faults[k].Unlink?
  }

  lemma FaultStays(us: seq<Update>, i: nat, faults: seq<Op>, more: seq<Op>)
    requires i < |us| && RollbackFault(us, i, faults)
    ensures RollbackFault(us, i, faults + more)
  {}

  /** The committed files, last first: write the old content aside, rename, remove.  Returns
      the files that still have their new content. */
  method Rollback(fs: FileSystem, us: seq<Update>, ghost before: map<Path, string>, committed: seq<bool>)
    returns (failed: seq<bool>, ghost more: seq<Op>)
    requires |committed| == |us| && Prepared(us, before)
    requires Holds(us, before, fs.files, committed) && Leftover(us, before, fs.files, 0, fs.faults)
    modifies fs
    ensures |failed| == |us| && Holds(us, before, fs.files, failed) && Leftover(us, before, fs.files, 0, fs.faults)
    ensures fs.faults == old(fs.faults) + more
    ensures forall i | 0 <= i < |us| && failed[i] :: committed[i] && RollbackFault(us, i, more)
    ensures ((forall i | 0 <= i < |us| :: !failed[i]) ==> OnlyUnlinks(more)) && NoReads(more)
  {
    hide Holds, Leftover, Prepared, RollbackFault;
    failed, more := committed, [];
    assert old(fs.faults) + [] == old(fs.faults);
    var i := |us|;
    while i > 0
      invariant 0 <= i <= |us| == |failed|
      invariant Holds(us, before, fs.files, failed) && Leftover(us, before, fs.files, 0, fs.faults)
      invariant fs.faults == old(fs.faults) + more
      invariant forall j | 0 <= j < i :: failed[j] == committed[j]
      invariant forall j | i <= j < |us| && failed[j] :: committed[j] && RollbackFault(us, j, more)
      invariant NoReads(more) && (OnlyUnlinks(more) || exists j :: i <= j < |us| && failed[j])
    {
      i := i - 1;
      if committed[i] {
        ghost var was := more;
        var ok, step := RollBackOne(fs, us, before, failed, i);
        more := was + step;
        forall j | i < j < |us| && failed[j] ensures RollbackFault(us, j, more) {
          FaultStays(us, j, was, step);
        }
        if !ok {
          FaultJoins(us, i, was, step);
        }
        ghost var prior := failed;
        failed := failed[i := !ok];
        assert failed[i] == !ok && forall j | i < j < |us| && prior[j] :: failed[j];
      }
    }
  }

  lemma FaultJoins(us: seq<Update>, i: nat, faults: seq<Op>, more: seq<Op>)
    requires i < |us| && RollbackFault(us, i, more)
    ensures RollbackFault(us, i, faults + more)
  {}

  /** Nothing but this file and its rollback name changed, and the name is gone or stuck. */
  lemma RolledBack(us: seq<Update>, before: map<Path, string>, was: map<Path, string>, now: map<Path, string>, updated: seq<bool>, i: nat,
                   ok: bool, faults: seq<Op>, more: seq<Op>)
    requires i < |us| == |updated| && updated[i] && Prepared(us, before)
    requires Holds(us, before, was, updated) && Leftover(us, before, was, 0, faults)
    requires forall p | p != us[i].path && p != us[i].rollback :: (p in was <==> p in now) && (p in now ==> now[p] == was[p])
    requires us[i].path in now && now[us[i].path] == if ok then us[i].source else us[i].contents
    requires us[i].rollback in now ==> us[i].rollback in was || Unlink(us[i].rollback) in more
    ensures Holds(us, before, now, updated[i := !ok]) && Leftover(us, before, now, 0, faults + more)
  {
    assert us[i].path in before;
    RolledBackHolds(us, before, was, now, updated, i, ok);
    hide Holds, Prepared;
  }

  lemma RolledBackHolds(us: seq<Update>, before: map<Path, string>, was: map<Path, string>, now: map<Path, string>, updated: seq<bool>, i: nat, ok: bool)
    requires i < |us| == |updated| && updated[i] && Prepared(us, before) && Holds(us, before, was, updated)
    requires forall p | p != us[i].path && p != us[i].rollback :: (p in was <==> p in now) && (p in now ==> now[p] == was[p])
    requires us[i].path in now && now[us[i].path] == if ok then us[i].source else us[i].contents
    ensures Holds(us, before, now, updated[i := !ok])
  {
    forall j | 0 <= j < |us| && j != i
      ensures us[j].path in now && now[us[j].path] == was[us[j].path]
    {
      assert us[j].path in before && us[i].rollback !in before && us[j].path != us[i].path;
    }
  }

  method RollBackOne(fs: FileSystem, us: seq<Update>, ghost before: map<Path, string>, ghost updated: seq<bool>, i: nat)
    returns (ok: bool, ghost more: seq<Op>)
    requires i < |us| == |updated| && updated[i] && Prepared(us, before)
    requires Holds(us, before, fs.files, updated) && Leftover(us, before, fs.files, 0, fs.faults)
    modifies fs
    ensures Holds(us, before, fs.files, updated[i := !ok]) && Leftover(us, before, fs.files, 0, fs.faults)
    ensures fs.faults == old(fs.faults) + more
    ensures NoReads(more) && if ok then OnlyUnlinks(more) else RollbackFault(us, i, more)
  {
    assert us[i].rollback != us[i].path && us[i].path in fs.files && fs.files[us[i].path] == us[i].contents;
    hide Holds, Leftover, Prepared, RollbackFault, OnlyUnlinks, NoReads;
    var aside := us[i].rollback;
    ok := fs.WriteFile(aside, us[i].source);
    ghost var step := if ok then [] else [Write(aside)];
    if ok {
      ok := fs.RenameFile(aside, us[i].path);
      step := if ok then [] else [Rename(aside, us[i].path)];
    }
    assert fs.faults == old(fs.faults) + step;
    fs.UnlinkFile(aside);
    ghost var last := if aside in fs.files then [Unlink(aside)] else [];
    assert fs.faults == (old(fs.faults) + step) + last;
    Joined(old(fs.faults), step, last);
    more := step + last;
    OneFault(us, i, ok, step, last);
    RolledBack(us, before, old(fs.files), fs.files, updated, i, ok, old(fs.faults), more);
  }

  /** The failures of one file's rollback: at most one step, and perhaps the unlink. */
  lemma OneFault(us: seq<Update>, i: nat, ok: bool, step: seq<Op>, last: seq<Op>)
    requires i < |us| && last in {[], [Unlink(us[i].rollback)]}
    requires if ok then step == [] else step == [Write(us[i].rollback)] || step == [Rename(us[i].rollback, us[i].path)]
    ensures NoReads(step + last) && if ok then OnlyUnlinks(step + last) else RollbackFault(us, i, step + last)
  {
    assert !ok ==> step[0] in step + last;
  }

  /** Unlinking temporary i: gone, or its unlink failed. */
  lemma CleanupStep(us: seq<Update>, before: map<Path, string>, was: map<Path, string>, now: map<Path, string>, updated: seq<bool>, i: nat,
                    faults: seq<Op>, more: seq<Op>)
    requires i < |us| == |updated| && Prepared(us, before)
    requires Holds(us, before, was, updated) && Leftover(us, before, was, i, faults)
    requires now == was - {us[i].temporary} || (now == was && Unlink(us[i].temporary) in more)
    ensures Holds(us, before, now, updated) && Leftover(us, before, now, i + 1, faults + more)
  {
    NamesDiffer(us, before, i);
  }

  /** finally: every temporary is unlinked, errors ignored. */
  method Cleanup(fs: FileSystem, us: seq<Update>, ghost before: map<Path, string>, ghost updated: seq<bool>) returns (ghost more: seq<Op>)
    requires |updated| == |us| && Prepared(us, before)
    requires Holds(us, before, fs.files, updated) && Leftover(us, before, fs.files, 0, fs.faults)
    modifies fs
    ensures Holds(us, before, fs.files, updated) && Leftover(us, before, fs.files, |us|, fs.faults)
    ensures fs.faults == old(fs.faults) + more && OnlyUnlinks(more)
  {
    hide Holds, Leftover, Prepared;
    more := [];
    for i := 0 to |us|
      invariant Holds(us, before, fs.files, updated) && Leftover(us, before, fs.files, i, fs.faults)
      invariant fs.faults == old(fs.faults) + more && OnlyUnlinks(more)
    {
      ghost var was, faults := fs.files, fs.faults;
      fs.UnlinkFile(us[i].temporary);
      ghost var step := if fs.faults == faults then [] else [Unlink(us[i].temporary)];
      assert fs.faults == faults + step;
      assert us[i].temporary !in was ==> was - {us[i].temporary} == was;
      CleanupStep(us, before, was, fs.files, updated, i, faults, step);
      Joined(old(fs.faults), more, step);
      more := more + step;
    }
  }

  lemma Joined(a: seq<Op>, b: seq<Op>, c: seq<Op>)
    ensures (a + b) + c == a + (b + c)
  {}

  predicate Distinct(paths: seq<Path>) {
    forall i, j | 0 <= i < j < |paths| :: paths[i] != paths[j]
  }

  /** Names drawn at random: new, and no two alike. */
  ghost predicate FreshNames(temporaries: seq<Path>, rollbacks: seq<Path>, files: map<Path, string>) {
    && Distinct(temporaries)
    && (forall t | t in temporaries :: t !in files && t !in rollbacks) && (forall r | r in rollbacks :: r !in files)
  }

  /** Some file is missing, cannot be read, or is not what the rewriting expects. */
  ghost predicate Unprepared(paths: seq<Path>, rewrite: (Path, string) -> Option<string>, files: map<Path, string>, faults: seq<Op>) {
    exists p | p in paths :: p !in files || Read(p) in faults || rewrite(p, files[p]).None?
  }

  /** Reads every file and computes its new content; None where a read or a rewrite throws. */
  method Prepare(fs: FileSystem, paths: seq<Path>, rewrite: (Path, string) -> Option<string>, temporaries: seq<Path>, rollbacks: seq<Path>)
    returns (us: Option<seq<Update>>)
    requires Distinct(paths) && |temporaries| == |rollbacks| == |paths| && FreshNames(temporaries, rollbacks, fs.files)
    modifies fs`clock, fs`faults
    ensures us.None? ==> Unprepared(paths, rewrite, fs.files, fs.faults)
    ensures us.Some? ==>
              && Prepared(us.value, fs.files) && |us.value| == |paths| && fs.faults == old(fs.faults)
              && forall i | 0 <= i < |paths| ::
                   && us.value[i].path == paths[i] && us.value[i].rollback == rollbacks[i] && us.value[i].temporary == temporaries[i]
                   && rewrite(paths[i], us.value[i].source) == Some(us.value[i].contents)
  {
    var made: seq<Update> := [];
    for i := 0 to |paths|
      invariant |made| == i && fs.faults == old(fs.faults)
      invariant forall k | 0 <= k < i ::
                  && made[k].path == paths[k] && made[k].rollback == rollbacks[k] && made[k].temporary == temporaries[k]
                  && paths[k] in fs.files && fs.files[paths[k]] == made[k].source
                  && rewrite(paths[k], made[k].source) == Some(made[k].contents)
    {
      var source := fs.ReadFile(paths[i]);
      if source.None? {
        return None;
      }
      var contents := rewrite(paths[i], source.value);
      if contents.None? {
        return None;
      }
      made := made + [Update(paths[i], source.value, contents.value, temporaries[i], rollbacks[i])];
    }
    return Some(made);
  }

  datatype Outcome =
    | Returned
    | Rejected                                   // nothing written: bad version, unreadable or malformed file
    | Threw(error: Op)                           // the error of the step that failed
    | Aggregate(error: Op, failed: seq<bool>)    // and some rollbacks failed as well

  /** The error thrown is that of the first call that failed, a write or a rename. */
  predicate FirstStep(error: Op, faults: seq<Op>) {
    faults != [] && faults[0] == error && IsStep(error)
  }

  /** What a call leaves in the files, given the files before it and the calls that failed. */
  ghost predicate Transaction(validVersion: bool, paths: seq<Path>, rewrite: (Path, string) -> Option<string>, rollbacks: seq<Path>,
                              before: map<Path, string>, after: map<Path, string>, faults: seq<Op>, outcome: Outcome)
    requires |rollbacks| == |paths|
  {
    && (outcome.Rejected? <==> !validVersion || Unprepared(paths, rewrite, before, faults))
    && (forall p | p in before && p !in paths :: p in after && after[p] == before[p])
    && (forall p | p in after :: p in before || Unlink(p) in faults)
    && match outcome
       case Returned => OnlyUnlinks(faults) && forall p | p in paths :: p in before && p in after && rewrite(p, before[p]) == Some(after[p])
       case Rejected => after == before
       case Threw(error) => FirstStep(error, faults) && forall p | p in paths :: p in before && p in after && after[p] == before[p]
       case Aggregate(error, failed) =>
         && FirstStep(error, faults) && |failed| == |paths| && (exists i :: 0 <= i < |paths| && failed[i])
         && forall i | 0 <= i < |paths| ::
              && paths[i] in before && paths[i] in after
              && (if failed[i] then rewrite(paths[i], before[paths[i]]) == Some(after[paths[i]]) else after[paths[i]] == before[paths[i]])
              && (failed[i] ==> Write(rollbacks[i]) in faults || Rename(rollbacks[i], paths[i]) in faults)
  }

  lemma FaultsInOrder(us: seq<Update>, first: Op, more: seq<Op>, last: seq<Op>, all: seq<Op>, i: nat)
    requires i < |us| && all == [first] + more + last && RollbackFault(us, i, more)
    ensures RollbackFault(us, i, all)
  {}

  /** How the outcome reports what happened. */
  ghost predicate Reports(us: seq<Update>, updated: seq<bool>, faults: seq<Op>, outcome: Outcome)
    requires |updated| == |us|
  {
    NoReads(faults) &&
    match outcome
    case Returned => OnlyUnlinks(faults) && forall i | 0 <= i < |us| :: updated[i]
    case Rejected => false
    case Threw(error) => FirstStep(error, faults) && forall i | 0 <= i < |us| :: !updated[i]
    case Aggregate(error, failed) =>
      && FirstStep(error, faults) && failed == updated && (exists i :: 0 <= i < |us| && updated[i])
      && forall i | 0 <= i < |us| && updated[i] :: RollbackFault(us, i, faults)
  }

  lemma FailureReports(us: seq<Update>, updated: seq<bool>, first: Op, more: seq<Op>, last: seq<Op>, all: seq<Op>)
    requires |updated| == |us| && IsStep(first) && all == [first] + more + last && NoReads(more) && NoReads(last)
    requires forall i | 0 <= i < |us| && updated[i] :: RollbackFault(us, i, more)
    ensures Reports(us, updated, all, if true in updated then Aggregate(first, updated) else Threw(first))
  {
    hide RollbackFault;
    assert all[0] == first;
    forall i | 0 <= i < |us| && updated[i] ensures RollbackFault(us, i, all) {
      FaultsInOrder(us, first, more, last, all, i);
    }
  }

  /** catch and finally */
  method Recover(fs: FileSystem, us: seq<Update>, ghost before: map<Path, string>, committed: seq<bool>, error: Op)
    returns (outcome: Outcome, ghost updated: seq<bool>)
    requires |committed| == |us| && Prepared(us, before) && IsStep(error) && fs.faults == [error]
    requires Holds(us, before, fs.files, committed) && Leftover(us, before, fs.files, 0, fs.faults)
    modifies fs
    ensures |updated| == |us| && Holds(us, before, fs.files, updated) && Leftover(us, before, fs.files, |us|, fs.faults)
    ensures Reports(us, updated, fs.faults, outcome)
  {
    hide Holds, Leftover, Prepared, RollbackFault, Reports;
    var failed, more := Rollback(fs, us, before, committed);
    ghost var last := Cleanup(fs, us, before, failed);
    FailureReports(us, failed, error, more, last, fs.faults);
    return if true in failed then Aggregate(error, failed) else Threw(error), failed;
  }

  /** The try, its catch and its finally. */
  method Execute(fs: FileSystem, us: seq<Update>) returns (outcome: Outcome, ghost updated: seq<bool>)
    requires Prepared(us, fs.files) && fs.faults == []
    modifies fs
    ensures |updated| == |us|
    ensures Holds(us, old(fs.files), fs.files, updated) && Leftover(us, old(fs.files), fs.files, |us|, fs.faults)
    ensures Reports(us, updated, fs.faults, outcome)
  {
    hide Holds, Leftover, Prepared, RollbackFault, Staged;
    var error := WriteTemporaries(fs, us);
    var flags := Flags(|us|, 0);
    if error.None? {
      error, flags := Commit(fs, us, old(fs.files));
    }
    if error.None? {
      ghost var last := Cleanup(fs, us, old(fs.files), flags);
      assert fs.faults == last;
      return Returned, flags;
    }
    assert fs.faults == [error.value];
    outcome, updated := Recover(fs, us, old(fs.files), flags, error.value);
  }

  lemma TransactionHolds(us: seq<Update>, paths: seq<Path>, rewrite: (Path, string) -> Option<string>, rollbacks: seq<Path>,
                         before: map<Path, string>, after: map<Path, string>, updated: seq<bool>, faults: seq<Op>, outcome: Outcome)
    requires |us| == |paths| == |rollbacks| == |updated| && Prepared(us, before)
    requires forall i | 0 <= i < |paths| ::
               && us[i].path == paths[i] && us[i].rollback == rollbacks[i]
               && rewrite(paths[i], us[i].source) == Some(us[i].contents)
    requires Holds(us, before, after, updated) && Leftover(us, before, after, |us|, faults) && Reports(us, updated, faults, outcome)
    ensures Transaction(true, paths, rewrite, rollbacks, before, after, faults, outcome)
  {}

  /** syncVersion: an all-or-nothing update.  It returns with every file rewritten exactly if no
      write or rename failed; it throws the error of the first call that failed, with every file
      as it was; or it reports that error in an aggregate, and then exactly the files whose own
      rollback failed keep their new content.  No other file changes, and no temporary is left
      unless its unlink failed. */
  method SyncVersion(fs: FileSystem, validVersion: bool, paths: seq<Path>, rewrite: (Path, string) -> Option<string>,
                     temporaries: seq<Path>, rollbacks: seq<Path>)
    returns (outcome: Outcome, ghost faults: seq<Op>)
    requires Distinct(paths) && |temporaries| == |rollbacks| == |paths| && FreshNames(temporaries, rollbacks, fs.files)
    requires fs.faults == []
    modifies fs
    ensures faults == fs.faults
    ensures Transaction(validVersion, paths, rewrite, rollbacks, old(fs.files), fs.files, faults, outcome)
    ensures outcome.Returned? <==> validVersion && !Unprepared(paths, rewrite, old(fs.files), faults) && OnlyUnlinks(faults)
  {
    hide Holds, Leftover, Prepared, Reports;
    if !validVersion {
      return Rejected, [];
    }
    var prepared := Prepare(fs, paths, rewrite, temporaries, rollbacks);
    if prepared.None? {
      return Rejected, fs.faults;
    }
    var us := prepared.value;
    ghost var before := fs.files;
    ghost var updated;
    outcome, updated := Execute(fs, us);
    faults := fs.faults;
    TransactionHolds(us, paths, rewrite, rollbacks, before, fs.files, updated, faults, outcome);
  }
}
