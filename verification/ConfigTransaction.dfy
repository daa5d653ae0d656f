/**
 writeConfigPair: incus.cfg and incus.json replaced as one recoverable transaction.
 */
module ConfigTransaction {
  import opened Text
  import opened FileSystems

  /** The two canonical files and the four temporary names made from a random token. */
  datatype Paths = Paths(cfg: Path, json: Path, cfgStage: Path, jsonStage: Path, cfgBackup: Path, jsonBackup: Path) {
    predicate Distinct() {
      && cfg !in {json, cfgStage, jsonStage, cfgBackup, jsonBackup}
      && json !in {cfgStage, jsonStage, cfgBackup, jsonBackup}
      && cfgStage !in {jsonStage, cfgBackup, jsonBackup}
      && jsonStage !in {cfgBackup, jsonBackup}
      && cfgBackup != jsonBackup
    }

    function All(): set<Path> { {cfg, json, cfgStage, jsonStage, cfgBackup, jsonBackup} }

    /** Nobody else uses the token. */
    predicate Fresh<C>(files: map<Path, C>) {
      At(files, cfgStage).None? && At(files, jsonStage).None? && At(files, cfgBackup).None? && At(files, jsonBackup).None?
    }
  }

  /**
   How the call ends: normally; committed but a backup could not be removed; rolled back and
   rethrown; or rethrown with an incomplete rollback.
   */
  datatype Outcome = Committed | CommittedUnclean | RolledBack | RollbackIncomplete

  /** The pair as a reader finds it: (old, old), (new, old) or (new, new), never a file missing that existed. */
  predicate GoodPair<C(==)>(p: Paths, before: map<Path, C>, cfg: C, json: C, now: map<Path, C>) {
    || (At(now, p.cfg) == At(before, p.cfg) && At(now, p.json) == At(before, p.json))
    || (At(now, p.cfg) == Some(cfg) && At(now, p.json) == At(before, p.json))
    || (At(now, p.cfg) == Some(cfg) && At(now, p.json) == Some(json))
  }

  predicate OldPair<C(==)>(p: Paths, before: map<Path, C>, now: map<Path, C>) {
    At(now, p.cfg) == At(before, p.cfg) && At(now, p.json) == At(before, p.json)
  }

  predicate NewPair<C(==)>(p: Paths, cfg: C, json: C, now: map<Path, C>) {
    At(now, p.cfg) == Some(cfg) && At(now, p.json) == Some(json)
  }

  /** Every state of the disk from position `n` of the history on is a good pair. */
  ghost predicate GoodSince<C>(p: Paths, before: map<Path, C>, cfg: C, json: C, history: seq<map<Path, C>>, n: nat) {
    forall i :: n <= i < |history| ==> GoodPair(p, before, cfg, json, history[i])
  }

  /** The flags the catch block consults. */
  datatype Progress = Progress(cfgBackedUp: bool, jsonBackedUp: bool, cfgInstalled: bool, jsonInstalled: bool)

  /** What the flags say about the disk. */
  predicate Accurate<C(==)>(p: Paths, before: map<Path, C>, cfg: C, json: C, g: Progress, now: map<Path, C>) {
    && At(now, p.cfg) == (if g.cfgInstalled then Some(cfg) else At(before, p.cfg))
    && At(now, p.json) == (if g.jsonInstalled then Some(json) else At(before, p.json))
    && (g.cfgBackedUp ==> p.cfg in before && At(now, p.cfgBackup) == At(before, p.cfg))
    && (g.jsonBackedUp ==> p.json in before && At(now, p.jsonBackup) == At(before, p.json))
    && (g.cfgInstalled ==> (p.cfg in before ==> g.cfgBackedUp) && (p.json in before ==> g.jsonBackedUp))
    && (g.cfgInstalled ==> At(now, p.cfgStage) == None)
    && (g.jsonInstalled ==> g.cfgInstalled && At(now, p.jsonStage) == None)
    && (p.cfg !in before ==> At(now, p.cfgBackup) == None)
    && (p.json !in before ==> At(now, p.jsonBackup) == None)
  }

  /** A backup file without its flag is what a broken copy left behind. */
  predicate Leftover<C(==)>(p: Paths, g: Progress, now: map<Path, C>, torn: set<Path>) {
    && (!g.cfgBackedUp && At(now, p.cfgBackup) != None ==> p.cfgBackup in torn)
    && (!g.jsonBackedUp && At(now, p.jsonBackup) != None ==> p.jsonBackup in torn)
  }

  function Count(b: bool): nat { if b then 1 else 0 }

  /** The operations of the try block: two writes, a copy of each file that exists, two renames. */
  function TryOps<C>(p: Paths, files: map<Path, C>): nat { 4 + CleanUpOps(p, files) }

  /** The operations after the commit: one backup to remove for each file that existed. */
  function CleanUpOps<C>(p: Paths, files: map<Path, C>): nat { Count(p.cfg in files) + Count(p.json in files) }

  /** The first operation to fail is the copy of the shell file. */
  ghost predicate TornCopy<C>(p: Paths, files: map<Path, C>, fate: nat -> Fate<C>, from: nat) {
    p.cfg in files && AllWork(fate, from, 2) && !WorksAt(fate, from + 2)
  }

  lemma AllWorkSplit<C>(fate: nat -> Fate<C>, from: nat, n: nat, m: nat)
    ensures AllWork(fate, from, n + m) <==> AllWork(fate, from, n) && AllWork(fate, from + n, m)
  {
    if AllWork(fate, from, n + m) {
      forall k | from <= k < from + n ensures WorksAt(fate, k) {}
    }
  }

  /** The two staging writes of the try block. */
  method Stage<C(==, !new)>(fs: FileSystem<C>, p: Paths, cfg: C, json: C) returns (ok: bool)
    requires p.Distinct()
    modifies fs
    ensures SameOutside(old(fs.files), fs.files, {p.cfgStage, p.jsonStage})
    ensures ok ==> At(fs.files, p.cfgStage) == Some(cfg) && At(fs.files, p.jsonStage) == Some(json)
    ensures fs.faults == old(fs.faults) + if ok then 0 else 1
    ensures fs.torn <= old(fs.torn) + {p.cfgStage, p.jsonStage} && old(fs.torn) <= fs.torn
    ensures old(fs.history) <= fs.history
    ensures forall i :: |old(fs.history)| <= i < |fs.history| ==>
              SameOutside(old(fs.files), fs.history[i], {p.cfgStage, p.jsonStage})
    ensures ok <==> AllWork(fs.fate, old(fs.ops), 2)
    ensures ok ==> fs.ops == old(fs.ops) + 2
  {
    ok := fs.Write(p.cfgStage, cfg);
    if ok {
      ok := fs.Write(p.jsonStage, json);
    } else {
      assert !WorksAt(fs.fate, old(fs.ops));
    }
  }

  /** One backup of the try block: only a file that existed is copied. */
  method BackUp<C(==, !new)>(fs: FileSystem<C>, canonical: Path, backup: Path, existed: bool) returns (ok: bool, backedUp: bool)
    requires canonical != backup && existed == (canonical in fs.files) && At(fs.files, backup).None?
    modifies fs
    ensures SameOutside(old(fs.files), fs.files, {backup})
    ensures backedUp == (ok && existed)
    ensures backedUp ==> At(fs.files, backup) == At(old(fs.files), canonical)
    ensures !existed ==> ok && At(fs.files, backup) == None
    ensures !backedUp && At(fs.files, backup) != None ==> backup in fs.torn
    ensures fs.faults == old(fs.faults) + if ok then 0 else 1
    ensures old(fs.torn) <= fs.torn
    ensures old(fs.history) <= fs.history
    ensures forall i :: |old(fs.history)| <= i < |fs.history| ==> SameOutside(old(fs.files), fs.history[i], {backup})
    ensures ok <==> AllWork(fs.fate, old(fs.ops), Count(existed))
    ensures ok <==> !existed || WorksAt(fs.fate, old(fs.ops))
    ensures ok ==> fs.ops == old(fs.ops) + Count(existed)
    ensures !ok ==> At(fs.files, backup) == Leaves(fs.fate(old(fs.ops)).left) && fs.ops == old(fs.ops) + 1
  {
    ok, backedUp := true, false;
    if existed {
      ok := fs.Copy(canonical, backup);
      backedUp := ok;
    }
  }

  /** The try block up to the backups. */
  method StageAndBackUp<C(==, !new)>(fs: FileSystem<C>, p: Paths, cfg: C, json: C) returns (ok: bool, g: Progress)
    requires p.Distinct() && p.Fresh(fs.files)
    modifies fs
    ensures Accurate(p, old(fs.files), cfg, json, g, fs.files) && !g.cfgInstalled && !g.jsonInstalled
    ensures SameOutside(old(fs.files), fs.files, p.All())
    ensures ok ==> At(fs.files, p.cfgStage) == Some(cfg) && At(fs.files, p.jsonStage) == Some(json)
    ensures ok ==> g.cfgBackedUp == (p.cfg in old(fs.files)) && g.jsonBackedUp == (p.json in old(fs.files))
    ensures fs.faults == old(fs.faults) + if ok then 0 else 1
    ensures Leftover(p, g, fs.files, fs.torn)
    ensures old(fs.history) <= fs.history
    ensures GoodSince(p, old(fs.files), cfg, json, fs.history, |old(fs.history)|)
    ensures ok <==> AllWork(fs.fate, old(fs.ops), 2 + CleanUpOps(p, old(fs.files)))
    ensures ok ==> fs.ops == old(fs.ops) + 2 + CleanUpOps(p, old(fs.files))
    ensures TornCopy(p, old(fs.files), fs.fate, old(fs.ops)) ==> !ok && !g.cfgBackedUp && fs.ops == old(fs.ops) + 3
    ensures TornCopy(p, old(fs.files), fs.fate, old(fs.ops)) ==> At(fs.files, p.cfgBackup) == Leaves(fs.fate(old(fs.ops) + 2).left)
  {
    AllWorkSplit(fs.fate, fs.ops, 2, CleanUpOps(p, fs.files));
    AllWorkSplit(fs.fate, fs.ops + 2, Count(p.cfg in fs.files), Count(p.json in fs.files));
    var cfgExisted, jsonExisted := p.cfg in fs.files, p.json in fs.files;
    g := Progress(false, false, false, false);
    ok := Stage(fs, p, cfg, json);
    assert At(fs.files, p.cfg) == At(old(fs.files), p.cfg) && At(fs.files, p.json) == At(old(fs.files), p.json);
    if ok {
      var backedUp;
      ok, backedUp := BackUp(fs, p.cfg, p.cfgBackup, cfgExisted);
      g := g.(cfgBackedUp := backedUp);
    }
    assert At(fs.files, p.json) == At(old(fs.files), p.json);
    if ok {
      var backedUp;
      ok, backedUp := BackUp(fs, p.json, p.jsonBackup, jsonExisted);
      g := g.(jsonBackedUp := backedUp);
    }
  }

  /** The two installs of the try block: each replaces a canonical file in one step. */
  method Install<C(==, !new)>(fs: FileSystem<C>, p: Paths, ghost before: map<Path, C>, cfg: C, json: C, g0: Progress)
    returns (ok: bool, g: Progress)
    requires p.Distinct() && Accurate(p, before, cfg, json, g0, fs.files) && !g0.cfgInstalled && !g0.jsonInstalled
    requires SameOutside(before, fs.files, p.All())
    requires At(fs.files, p.cfgStage) == Some(cfg) && At(fs.files, p.jsonStage) == Some(json)
    requires Leftover(p, g0, fs.files, fs.torn)
    requires g0.cfgBackedUp == (p.cfg in before) && g0.jsonBackedUp == (p.json in before)
    modifies fs
    ensures Accurate(p, before, cfg, json, g, fs.files) && ok == g.jsonInstalled
    ensures SameOutside(before, fs.files, p.All())
    ensures g.cfgBackedUp == g0.cfgBackedUp && g.jsonBackedUp == g0.jsonBackedUp
    ensures fs.faults == old(fs.faults) + if ok then 0 else 1
    ensures Leftover(p, g, fs.files, fs.torn)
    ensures old(fs.history) <= fs.history
    ensures GoodSince(p, before, cfg, json, fs.history, |old(fs.history)|)
    ensures ok <==> AllWork(fs.fate, old(fs.ops), 2)
    ensures ok ==> fs.ops == old(fs.ops) + 2
  {
    g := g0;
    ok := fs.Rename(p.cfgStage, p.cfg);
    if !ok {
      assert !WorksAt(fs.fate, old(fs.ops));
      return;
    }
    g := g.(cfgInstalled := true);
    ok := fs.Rename(p.jsonStage, p.json);
    if !ok { return; }
    g := g.(jsonInstalled := true);
  }

  /** Restores one canonical file in the catch block. */
  method Restore<C(==, !new)>(fs: FileSystem<C>, canonical: Path, backup: Path, backedUp: bool, installed: bool) returns (ok: bool)
    requires canonical != backup
    modifies fs
    ensures SameOutside(old(fs.files), fs.files, {canonical, backup})
    ensures old(fs.history) <= fs.history && fs.torn == old(fs.torn)
    ensures forall i :: |old(fs.history)| <= i < |fs.history| ==> fs.history[i] == fs.files
    ensures fs.faults == old(fs.faults) + if ok then 0 else 1
    ensures !ok ==> fs.files == old(fs.files)
    ensures ok && backedUp ==> At(old(fs.files), backup).Some? && At(fs.files, backup) == None
    ensures ok && backedUp ==> At(fs.files, canonical) == At(old(fs.files), backup)
    ensures ok && !backedUp && installed ==> At(fs.files, canonical) == None && At(fs.files, backup) == At(old(fs.files), backup)
    ensures !backedUp && !installed ==> fs.files == old(fs.files)
    ensures AllWorkFrom(fs.fate, old(fs.ops)) && (backedUp ==> backup in old(fs.files)) ==> ok
    ensures fs.ops >= old(fs.ops)
  {
    ok := true;
    if backedUp {
      ok := fs.Rename(backup, canonical);
    } else if installed {
      ok := fs.RemoveIfPresent(canonical);
    }
  }

  /** The first half of the catch block: both canonical files, the shell file first. */
  method RestorePair<C(==, !new)>(fs: FileSystem<C>, p: Paths, ghost before: map<Path, C>, ghost cfg: C, ghost json: C, g: Progress)
    returns (failures: nat)
    requires p.Distinct() && Accurate(p, before, cfg, json, g, fs.files) && !g.jsonInstalled
    requires SameOutside(before, fs.files, p.All())
    requires Leftover(p, g, fs.files, fs.torn)
    modifies fs
    ensures fs.faults == old(fs.faults) + failures && fs.torn == old(fs.torn)
    ensures failures == 0 ==> OldPair(p, before, fs.files)
    ensures failures == 0 ==> Leftover(p, Progress(false, false, false, false), fs.files, fs.torn)
    ensures SameOutside(before, fs.files, p.All())
    ensures GoodPair(p, before, cfg, json, fs.files)
    ensures Recoverable(p, before, fs.files)
    ensures At(fs.files, p.json) == At(before, p.json)
    ensures AllWorkFrom(fs.fate, old(fs.ops)) ==> failures == 0
    ensures !g.cfgBackedUp ==> At(fs.files, p.cfgBackup) == At(old(fs.files), p.cfgBackup)
    ensures fs.ops >= old(fs.ops)
    ensures old(fs.history) <= fs.history
    ensures GoodSince(p, before, cfg, json, fs.history, |old(fs.history)|)
  {
    failures := 0;
    var ok := Restore(fs, p.cfg, p.cfgBackup, g.cfgBackedUp, g.cfgInstalled);
    if !ok { failures := failures + 1; }
    ok := Restore(fs, p.json, p.jsonBackup, g.jsonBackedUp, g.jsonInstalled);
    if !ok { failures := failures + 1; }
  }

  method RemoveBoth<C(==, !new)>(fs: FileSystem<C>, first: Path, second: Path) returns (failures: nat)
    requires first != second
    modifies fs
    ensures fs.faults == old(fs.faults) + failures && fs.torn == old(fs.torn)
    ensures SameOutside(old(fs.files), fs.files, {first, second})
    ensures failures == 0 ==> At(fs.files, first) == None && At(fs.files, second) == None
    ensures AllWorkFrom(fs.fate, old(fs.ops)) ==> failures == 0
    ensures old(fs.history) <= fs.history
    ensures forall i :: |old(fs.history)| <= i < |fs.history| ==> SameOutside(old(fs.files), fs.history[i], {first, second})
  {
    failures := 0;
    var ok := fs.RemoveIfPresent(first);
    if !ok { failures := failures + 1; }
    ok := fs.RemoveIfPresent(second);
    if !ok { failures := failures + 1; }
  }

  /** The catch block. `failures` counts the rollback errors it collects. */
  method RollBack<C(==, !new)>(fs: FileSystem<C>, p: Paths, ghost before: map<Path, C>, ghost cfg: C, ghost json: C, g: Progress)
    returns (failures: nat)
    requires p.Distinct() && Accurate(p, before, cfg, json, g, fs.files) && !g.jsonInstalled
    requires SameOutside(before, fs.files, p.All())
    requires Leftover(p, g, fs.files, fs.torn)
    modifies fs
    ensures fs.faults == old(fs.faults) + failures && fs.torn == old(fs.torn)
    ensures failures == 0 ==> OldPair(p, before, fs.files)
    ensures failures == 0 ==> At(fs.files, p.cfgStage) == None && At(fs.files, p.jsonStage) == None
    ensures failures == 0 ==> Leftover(p, Progress(false, false, false, false), fs.files, fs.torn)
    ensures SameOutside(before, fs.files, p.All())
    ensures GoodPair(p, before, cfg, json, fs.files)
    ensures Recoverable(p, before, fs.files)
    ensures At(fs.files, p.json) == At(before, p.json)
    ensures AllWorkFrom(fs.fate, old(fs.ops)) ==> failures == 0
    ensures !g.cfgBackedUp ==> At(fs.files, p.cfgBackup) == At(old(fs.files), p.cfgBackup)
    ensures old(fs.history) <= fs.history
    ensures GoodSince(p, before, cfg, json, fs.history, |old(fs.history)|)
  {
    failures := RestorePair(fs, p, before, cfg, json, g);
    var more := RemoveBoth(fs, p.cfgStage, p.jsonStage);
    failures := failures + more;
  }

  /** The shell file is in its old place, or still on the disk under its backup name. */
  predicate Recoverable<C(==)>(p: Paths, before: map<Path, C>, now: map<Path, C>) {
    p.cfg in before && At(now, p.cfg) != At(before, p.cfg) ==> At(now, p.cfgBackup) == At(before, p.cfg)
  }

  /** The original of one of the two files is still there, as a backup. */
  predicate BackupLeft<C(==)>(p: Paths, before: map<Path, C>, now: map<Path, C>) {
    || (p.cfg in before && At(now, p.cfgBackup) == At(before, p.cfg))
    || (p.json in before && At(now, p.jsonBackup) == At(before, p.json))
  }

  /**
   writeConfigPair. Whatever fails, the pair a reader or a crash finds is good at every moment. The call
   commits exactly when every operation of the try block works, and returns normally exactly when the
   removals after it work too; otherwise it throws, with a backup left after a commit, and after a clean
   rollback with the old pair back.
   */
  method WriteConfigPair<C(==, !new)>(fs: FileSystem<C>, p: Paths, cfg: C, json: C) returns (r: Outcome)
    requires p.Distinct() && p.Fresh(fs.files) && p.All() !! fs.torn
    modifies fs
    ensures old(fs.history) <= fs.history
    ensures GoodSince(p, old(fs.files), cfg, json, fs.history, |old(fs.history)|)
    ensures fs.faults >= old(fs.faults)
    ensures fs.faults == old(fs.faults) <==> r.Committed?
    ensures fs.faults == old(fs.faults) + 1 ==> r.CommittedUnclean? || r.RolledBack?
    ensures r.Committed? || r.CommittedUnclean? <==> AllWork(fs.fate, old(fs.ops), TryOps(p, old(fs.files)))
    ensures r.Committed? <==> AllWork(fs.fate, old(fs.ops), TryOps(p, old(fs.files)) + CleanUpOps(p, old(fs.files)))
    ensures r.Committed? || r.CommittedUnclean? ==> NewPair(p, cfg, json, fs.files)
    ensures r.Committed? ==> SameOutside(old(fs.files), fs.files, {p.cfg, p.json})
    ensures r.CommittedUnclean? ==> SameOutside(old(fs.files), fs.files, {p.cfg, p.json, p.cfgBackup, p.jsonBackup})
    ensures r.CommittedUnclean? ==> BackupLeft(p, old(fs.files), fs.files)
    ensures r.RolledBack? ==> OldPair(p, old(fs.files), fs.files)
    ensures r.RolledBack? ==> SameOutside(old(fs.files), fs.files, {p.cfgBackup, p.jsonBackup} * fs.torn)
    ensures r.RollbackIncomplete? ==> SameOutside(old(fs.files), fs.files, p.All())
    ensures r.RollbackIncomplete? ==> GoodPair(p, old(fs.files), cfg, json, fs.files) && Recoverable(p, old(fs.files), fs.files)
    ensures r.RollbackIncomplete? ==> At(fs.files, p.json) == At(old(fs.files), p.json)
    ensures TornCopy(p, old(fs.files), fs.fate, old(fs.ops)) ==> At(fs.files, p.cfgBackup) == Leaves(fs.fate(old(fs.ops) + 2).left)
    ensures TornCopy(p, old(fs.files), fs.fate, old(fs.ops)) && AllWorkFrom(fs.fate, old(fs.ops) + 3) ==> r.RolledBack?
  {
    ghost var before := fs.files;
    AllWorkSplit(fs.fate, fs.ops, TryOps(p, before), CleanUpOps(p, before));
    var ok, g := TryAll(fs, p, cfg, json);
    if !ok {
      var failures := RollBack(fs, p, before, cfg, json, g);
      return if failures == 0 then RolledBack else RollbackIncomplete;
    }
    ok := CleanUp(fs, p.cfgBackup, p.jsonBackup);
    r := if ok then Committed else CommittedUnclean;
  }

  /** The try block. */
  method TryAll<C(==, !new)>(fs: FileSystem<C>, p: Paths, cfg: C, json: C) returns (ok: bool, g: Progress)
    requires p.Distinct() && p.Fresh(fs.files)
    modifies fs
    ensures Accurate(p, old(fs.files), cfg, json, g, fs.files) && ok == g.jsonInstalled
    ensures SameOutside(old(fs.files), fs.files, p.All())
    ensures ok ==> g.cfgBackedUp == (p.cfg in old(fs.files)) && g.jsonBackedUp == (p.json in old(fs.files))
    ensures fs.faults == old(fs.faults) + if ok then 0 else 1
    ensures Leftover(p, g, fs.files, fs.torn)
    ensures old(fs.history) <= fs.history
    ensures GoodSince(p, old(fs.files), cfg, json, fs.history, |old(fs.history)|)
    ensures ok <==> AllWork(fs.fate, old(fs.ops), TryOps(p, old(fs.files)))
    ensures ok ==> fs.ops == old(fs.ops) + TryOps(p, old(fs.files))
    ensures TornCopy(p, old(fs.files), fs.fate, old(fs.ops)) ==> !ok && !g.cfgBackedUp && fs.ops == old(fs.ops) + 3
    ensures TornCopy(p, old(fs.files), fs.fate, old(fs.ops)) ==> At(fs.files, p.cfgBackup) == Leaves(fs.fate(old(fs.ops) + 2).left)
  {
    ghost var before := fs.files;
    AllWorkSplit(fs.fate, fs.ops, 2 + CleanUpOps(p, before), 2);
    ok, g := StageAndBackUp(fs, p, cfg, json);
    if ok {
      ok, g := Install(fs, p, before, cfg, json, g);
    }
  }

  /** After the commit: the first backup that cannot be removed ends the call with an error, and stays. */
  method CleanUp<C(==, !new)>(fs: FileSystem<C>, first: Path, second: Path) returns (ok: bool)
    requires first != second
    modifies fs
    ensures fs.faults == old(fs.faults) + if ok then 0 else 1
    ensures SameOutside(old(fs.files), fs.files, {first, second})
    ensures ok ==> At(fs.files, first) == None && At(fs.files, second) == None
    ensures !ok ==> (first in old(fs.files) && At(fs.files, first) == At(old(fs.files), first))
                    || (second in old(fs.files) && At(fs.files, second) == At(old(fs.files), second))
    ensures ok <==> AllWork(fs.fate, old(fs.ops), Count(first in old(fs.files)) + Count(second in old(fs.files)))
    ensures old(fs.history) <= fs.history
    ensures forall i :: |old(fs.history)| <= i < |fs.history| ==> SameOutside(old(fs.files), fs.history[i], {first, second})
  {
    AllWorkSplit(fs.fate, fs.ops, Count(first in fs.files), Count(second in fs.files));
    ok := fs.RemoveIfPresent(first);
    if ok {
      ok := fs.RemoveIfPresent(second);
    }
  }

  // ---------------------------------------------------------------- two instances

  /** From every disk with a shell file: when only the first removal after the commit fails, the call throws. */
  method CleanUpErrorExample<C(==, !new)>(p: Paths, before: map<Path, C>, cfg: C, json: C) returns (fs: FileSystem<C>, r: Outcome)
    requires p.Distinct() && p.Fresh(before) && p.cfg in before
    ensures fresh(fs) && r == CommittedUnclean && NewPair(p, cfg, json, fs.files) && BackupLeft(p, before, fs.files)
  {
    var n := TryOps(p, before);
    fs := new FileSystem<C>(before, k => if k == n then Fails(AsItWas) else Works);
    assert AllWork(fs.fate, 0, n);
    assert !WorksAt(fs.fate, n);
    r := WriteConfigPair(fs, p, cfg, json);
  }

  /** From every such disk: when only the copy of the shell file breaks, its part stays behind a clean rollback. */
  method TornBackupExample<C(==, !new)>(p: Paths, before: map<Path, C>, cfg: C, json: C, part: C) returns (fs: FileSystem<C>, r: Outcome)
    requires p.Distinct() && p.Fresh(before) && p.cfg in before
    ensures fresh(fs) && r == RolledBack && OldPair(p, before, fs.files) && At(fs.files, p.cfgBackup) == Some(part)
  {
    fs := new FileSystem<C>(before, k => if k == 2 then Fails(Holding(part)) else Works);
    assert AllWork(fs.fate, 0, 2) && !WorksAt(fs.fate, 2);
    r := WriteConfigPair(fs, p, cfg, json);
  }
}
