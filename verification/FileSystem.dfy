/**
 A file system whose every operation may fail. Rename replaces its target atomically, as rename()
 of the System Interfaces volume of POSIX.1-2017 does; a write or copy that fails part way may leave
 anything at the path it was writing, and nothing anywhere else.
 */
module FileSystems {
  import opened Text

  type Path = string

  /** The content at a path, if there is a file. */
  function At<C>(files: map<Path, C>, path: Path): Option<C> {
    if path in files then Some(files[path]) else None
  }

  /** Two states of the disk agree outside the given paths. */
  ghost predicate SameOutside<C(!new)>(before: map<Path, C>, after: map<Path, C>, paths: set<Path>) {
    forall p :: p !in paths ==> At(before, p) == At(after, p)
  }

  /** What a write or copy that fails leaves at its path: what was there, nothing, or something else. */
  datatype Left<C> = AsItWas | Gone | Holding(content: C)

  /** What becomes of one operation. */
  datatype Fate<C> = Works | Fails(left: Left<C>)

  function LeftAt<C>(files: map<Path, C>, path: Path, left: Left<C>): map<Path, C> {
    match left case AsItWas => files case Gone => files - {path} case Holding(content) => files[path := content]
  }

  /** The content a failed write or copy to a free path leaves there. */
  function Leaves<C>(left: Left<C>): Option<C> { if left.Holding? then Some(left.content) else None }

  predicate WorksAt<C>(fate: nat -> Fate<C>, k: nat) { fate(k).Works? }

  /** The `n` operations from number `from` on work. */
  ghost predicate AllWork<C>(fate: nat -> Fate<C>, from: nat, n: nat) {
    forall k :: from <= k < from + n ==> WorksAt(fate, k)
  }

  ghost predicate AllWorkFrom<C>(fate: nat -> Fate<C>, from: nat) {
    forall k :: from <= k ==> WorksAt(fate, k)
  }

  class FileSystem<C(!new)> {
    /** The fate of every operation, in the order in which they happen: anything at all. */
    const fate: nat -> Fate<C>
    var files: map<Path, C>
    /** The number of the next operation. */
    var ops: nat
    /** How many operations have failed. */
    ghost var faults: nat
    /** The disk after each operation: where a crash may leave it. */
    ghost var history: seq<map<Path, C>>
    /** Where a failed write or copy left something behind. */
    ghost var torn: set<Path>

    constructor (initial: map<Path, C>, fate: nat -> Fate<C>)
      ensures files == initial && faults == 0 && history == [] && torn == {} && ops == 0 && this.fate == fate
    {
      this.fate := fate;
      files, faults, history, torn, ops := initial, 0, [], {}, 0;
    }

    /** Reads a file that is there; reading one that is not fails as well. */
    method Read(path: Path) returns (content: Option<C>)
      modifies this`faults, this`ops
      ensures content.Some? ==> content == At(files, path) && faults == old(faults)
      ensures content.None? ==> faults == old(faults) + 1
      ensures content.Some? <==> WorksAt(fate, old(ops)) && path in files
      ensures ops == old(ops) + 1
    {
      if fate(ops).Works? && path in files {
        content := Some(files[path]);
      } else {
        content := None;
        faults := faults + 1;
      }
      ops := ops + 1;
    }

    method Write(path: Path, content: C) returns (ok: bool)
      modifies this
      ensures ok ==> files == old(files)[path := content] && faults == old(faults)
      ensures !ok ==> SameOutside(old(files), files, {path}) && faults == old(faults) + 1
      ensures ok <==> WorksAt(fate, old(ops))
      ensures !ok ==> files == LeftAt(old(files), path, fate(old(ops)).left)
      ensures torn == if !ok && At(files, path) != At(old(files), path) then old(torn) + {path} else old(torn)
      ensures history == old(history) + [files] && ops == old(ops) + 1
    {
      ok := fate(ops).Works?;
      if ok {
        files := files[path := content];
      } else {
        Tear(path, fate(ops).left);
      }
      history := history + [files];
      ops := ops + 1;
    }

    method Copy(source: Path, target: Path) returns (ok: bool)
      modifies this
      ensures ok ==> source in old(files) && files == old(files)[target := old(files)[source]] && faults == old(faults)
      ensures !ok ==> SameOutside(old(files), files, {target}) && faults == old(faults) + 1
      ensures ok <==> WorksAt(fate, old(ops)) && source in old(files)
      ensures !ok && !WorksAt(fate, old(ops)) ==> files == LeftAt(old(files), target, fate(old(ops)).left)
      ensures torn == if !ok && At(files, target) != At(old(files), target) then old(torn) + {target} else old(torn)
      ensures history == old(history) + [files] && ops == old(ops) + 1
    {
      ok := fate(ops).Works? && source in files;
      if ok {
        files := files[target := files[source]];
      } else {
        Tear(target, if fate(ops).Fails? then fate(ops).left else AsItWas);
      }
      history := history + [files];
      ops := ops + 1;
    }

    /** A write stopped half way: the path is left as it was, removed, or holding something else. */
    method Tear(path: Path, left: Left<C>)
      modifies this`files, this`faults, this`torn
      ensures SameOutside(old(files), files, {path}) && faults == old(faults) + 1
      ensures files == LeftAt(old(files), path, left)
      ensures torn == if At(files, path) != At(old(files), path) then old(torn) + {path} else old(torn)
    {
      ghost var before := At(files, path);
      files := LeftAt(files, path, left);
      faults := faults + 1;
      torn := if At(files, path) != before then torn + {path} else torn;
    }

    method Rename(source: Path, target: Path) returns (ok: bool)
      requires source != target
      modifies this
      ensures ok ==> source in old(files) && files == old(files)[target := old(files)[source]] - {source} && faults == old(faults)
      ensures !ok ==> files == old(files) && faults == old(faults) + 1
      ensures ok <==> WorksAt(fate, old(ops)) && source in old(files)
      ensures history == old(history) + [files] && torn == old(torn) && ops == old(ops) + 1
    {
      ok := fate(ops).Works? && source in files;
      if ok {
        files := files[target := files[source]] - {source};
      } else {
        faults := faults + 1;
      }
      history := history + [files];
      ops := ops + 1;
    }

    /** Removes a file that is there; with none there is nothing to do, and nothing that can fail. */
    method RemoveIfPresent(path: Path) returns (ok: bool)
      modifies this
      ensures ok ==> files == old(files) - {path} && faults == old(faults)
      ensures !ok ==> path in old(files) && files == old(files) && faults == old(faults) + 1
      ensures ok <==> path !in old(files) || WorksAt(fate, old(ops))
      ensures torn == old(torn)
      ensures history == if path in old(files) then old(history) + [files] else old(history)
      ensures ops == old(ops) + if path in old(files) then 1 else 0
    {
      ok := true;
      if path in files {
        ok := fate(ops).Works?;
        if ok {
          files := files - {path};
        } else {
          faults := faults + 1;
        }
        history := history + [files];
        ops := ops + 1;
      }
    }
  }
}
