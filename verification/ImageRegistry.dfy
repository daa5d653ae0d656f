/**
 The registry of built images: three mutators on the stored array, and the invariant that every run
 of the store over them keeps.
 */
module ImageRegistry {
  import opened Text
  import Store = JsonStore

  datatype ImageRecord = ImageRecord(alias: string, distro: string, release: string, packages: seq<string>,
                                     isMaster: bool, basedOn: Option<string>, createdAt: string)

  type Images = seq<ImageRecord>

  predicate DistinctAliases(images: Images) {
    forall i, j :: 0 <= i < j < |images| ==> images[i].alias != images[j].alias
  }

  predicate OneMaster(images: Images) {
    forall i, j :: 0 <= i < j < |images| ==> !(images[i].isMaster && images[j].isMaster)
  }

  predicate HasMaster(images: Images) { exists i :: 0 <= i < |images| && images[i].isMaster }

  predicate RegistryOk(images: Images) { DistinctAliases(images) && OneMaster(images) }

  predicate Tracked(images: Images, alias: string) { exists i :: 0 <= i < |images| && images[i].alias == alias }

  // ---------------------------------------------------------------- what each operation makes of the registry

  /** Position of the first record with this alias, or -1. */
  function IndexOfAlias(images: Images, alias: string): (r: int)
    ensures -1 <= r < |images|
    ensures r >= 0 ==> images[r].alias == alias
    ensures forall i :: 0 <= i < (if r < 0 then |images| else r) ==> images[i].alias != alias
  {
    if images == [] then -1
    else if images[0].alias == alias then 0
    else
      var r := IndexOfAlias(images[1..], alias);
      if r < 0 then -1 else r + 1
  }

  /** The registry once `alias` is the master and nothing else is. */
  function Crown(images: Images, alias: string): (r: Images)
    ensures |r| == |images|
    ensures forall i :: 0 <= i < |images| ==> r[i] == images[i].(isMaster := images[i].alias == alias)
  {
    if images == [] then []
    else [images[0].(isMaster := images[0].alias == alias)] + Crown(images[1..], alias)
  }

  /** The mutators the service hands to the store. */
  datatype Op = Built(record: ImageRecord) | SetMaster(alias: string, isMaster: bool) | Untrack(alias: string)

  /** The registry after a mutator, or nothing when it throws. */
  function Apply(images: Images, op: Op): Option<Images> {
    match op
    case Built(record) =>
      var k := IndexOfAlias(images, record.alias);
      Some(if k >= 0 then images[k := record] else images + [record])
    case SetMaster(alias, isMaster) =>
      var k := IndexOfAlias(images, alias);
      if k < 0 then None
      else Some(if isMaster then Crown(images, alias) else images[k := images[k].(isMaster := false)])
    case Untrack(alias) =>
      var k := IndexOfAlias(images, alias);
      Some(if k < 0 then images else images[..k] + images[k + 1..])
  }

  // ---------------------------------------------------------------- the mutators

  /** find / findIndex by alias. */
  method FindAlias(images: Images, alias: string) returns (r: int)
    ensures r == IndexOfAlias(images, alias)
  {
    for i := 0 to |images|
      invariant forall j :: 0 <= j < i ==> images[j].alias != alias
    {
      if images[i].alias == alias {
        return i;
      }
    }
    return -1;
  }

  /** setMasterImage's mutator. */
  method SetMasterImage(images: Images, alias: string, isMaster: bool) returns (r: Option<Images>)
    ensures r == Apply(images, SetMaster(alias, isMaster))
  {
    var k := FindAlias(images, alias);
    if k < 0 {
      return None;
    }
    var edited := images;
    if isMaster {
      for i := 0 to |edited|
        invariant |edited| == |images|
        invariant forall j :: 0 <= j < |images| ==>
                    edited[j] == if j < i then images[j].(isMaster := images[j].alias == alias) else images[j]
      {
        edited := edited[i := edited[i].(isMaster := edited[i].alias == alias)];
      }
      assert edited == Crown(images, alias);
    } else {
      edited := edited[k := edited[k].(isMaster := false)];
    }
    r := Some(edited);
  }

  /** untrackImage's mutator; it also reports whether a record was removed. */
  method UntrackImage(images: Images, alias: string) returns (r: Images, removed: bool)
    ensures Some(r) == Apply(images, Untrack(alias))
    ensures removed <==> Tracked(images, alias)
  {
    var k := FindAlias(images, alias);
    if k < 0 {
      return images, false;
    }
    return images[..k] + images[k + 1..], true;
  }

  /** The record took the place of the first one with its alias, and nothing else changed. */
  predicate StandsIn(images: Images, r: Images, record: ImageRecord, k: nat)
    requires k < |images|
  {
    && |r| == |images| && images[k].alias == record.alias && r[k] == record
    && (forall j :: 0 <= j < k ==> images[j].alias != record.alias)
    && (forall j :: 0 <= j < |images| && j != k ==> r[j] == images[j])
  }

  /** recordImageBuilt's mutator: replaces the record with the same alias in place, or appends. */
  method RecordImageBuilt(images: Images, record: ImageRecord) returns (r: Images)
    ensures Some(r) == Apply(images, Built(record))
    ensures !Tracked(images, record.alias) ==> r == images + [record]
    ensures Tracked(images, record.alias) ==> exists k :: 0 <= k < |images| && StandsIn(images, r, record, k)
  {
    var k := FindAlias(images, record.alias);
    assert k >= 0 ==> StandsIn(images, images[k := record], record, k);
    r := if k >= 0 then images[k := record] else images + [record];
  }

  // ---------------------------------------------------------------- what the mutators keep

  lemma BuiltKeeps(images: Images, record: ImageRecord)
    requires RegistryOk(images) && !record.isMaster
    ensures RegistryOk(Apply(images, Built(record)).value)
  {
  }

  lemma SetMasterKeeps(images: Images, alias: string, isMaster: bool)
    requires RegistryOk(images) && Apply(images, SetMaster(alias, isMaster)).Some?
    ensures RegistryOk(Apply(images, SetMaster(alias, isMaster)).value)
  {
  }

  lemma CutKeeps(images: Images, k: nat)
    requires RegistryOk(images) && k < |images|
    ensures RegistryOk(images[..k] + images[k + 1..])
  {
    var r := images[..k] + images[k + 1..];
    assert forall i :: 0 <= i < |r| ==> r[i] == images[if i < k then i else i + 1];
  }

  lemma UntrackKeeps(images: Images, alias: string)
    requires RegistryOk(images)
    ensures RegistryOk(Apply(images, Untrack(alias)).value)
  {
    var k := IndexOfAlias(images, alias);
    if k >= 0 { CutKeeps(images, k); }
  }

  /** Every mutator keeps aliases distinct and at most one master; a build is recorded as a non-master. */
  lemma ApplyKeepsRegistry(images: Images, op: Op)
    requires RegistryOk(images)
    requires op.Built? ==> !op.record.isMaster
    ensures Apply(images, op).Some? ==> RegistryOk(Apply(images, op).value)
  {
    match op
    case Built(record) => BuiltKeeps(images, record);
    case SetMaster(alias, isMaster) => if Apply(images, op).Some? { SetMasterKeeps(images, alias, isMaster); }
    case Untrack(alias) => UntrackKeeps(images, alias);
  }

  /** setMasterImage(a, true) on any registry: succeeds for tracked aliases, and then exactly `a` is master. */
  lemma MasterIsExactly(images: Images, alias: string)
    ensures Apply(images, SetMaster(alias, true)).Some? <==> Tracked(images, alias)
    ensures Tracked(images, alias) ==>
              var r := Apply(images, SetMaster(alias, true)).value;
              && |r| == |images|
              && (forall i :: 0 <= i < |r| ==> (r[i].isMaster <==> r[i].alias == alias))
              && (forall i :: 0 <= i < |r| ==> r[i].(isMaster := images[i].isMaster) == images[i])
  {
  }

  /** Unsetting a record that is not the master changes nothing at all. */
  lemma UnsetNonMaster(images: Images, alias: string)
    requires Tracked(images, alias)
    requires forall i :: 0 <= i < |images| && images[i].alias == alias ==> !images[i].isMaster
    ensures Apply(images, SetMaster(alias, false)) == Some(images)
  {
    var k := IndexOfAlias(images, alias);
    assert k >= 0;
    assert images[k := images[k].(isMaster := false)] == images;
  }

  predicate FirstWith(images: Images, alias: string, k: nat) {
    k < |images| && images[k].alias == alias && forall j :: 0 <= j < k ==> images[j].alias != alias
  }

  lemma FirstIsIndex(images: Images, alias: string, k: nat)
    requires FirstWith(images, alias, k)
    ensures IndexOfAlias(images, alias) == k
  {
  }

  /** setMasterImage(a, false): the record of `a` loses the mark, keeps the rest, and no other changes. */
  lemma UnsetExactly(images: Images, alias: string, k: nat)
    requires FirstWith(images, alias, k)
    ensures Apply(images, SetMaster(alias, false)).Some?
    ensures var r := Apply(images, SetMaster(alias, false)).value;
      && |r| == |images| && !r[k].isMaster && r[k].(isMaster := images[k].isMaster) == images[k]
      && (forall i :: 0 <= i < |r| && i != k ==> r[i] == images[i])
      && (RegistryOk(images) && images[k].isMaster ==> !HasMaster(r))
  {
    FirstIsIndex(images, alias, k);
  }

  /** An untracked alias cannot be marked or unmarked. */
  lemma UnsetUntracked(images: Images, alias: string, isMaster: bool)
    requires !Tracked(images, alias)
    ensures Apply(images, SetMaster(alias, isMaster)) == None
  {
    if IndexOfAlias(images, alias) >= 0 { assert Tracked(images, alias); }
  }

  /** untrackImage takes out the first record with the alias, and leaves the others in their order. */
  lemma UntrackRemovesOne(before: Images, record: ImageRecord, after: Images)
    requires !Tracked(before, record.alias)
    ensures Apply(before + [record] + after, Untrack(record.alias)) == Some(before + after)
  {
    var images := before + [record] + after;
    forall j | 0 <= j < |before| ensures images[j].alias != record.alias { assert images[j] == before[j]; }
    assert images[|before|] == record;
    FirstIsIndex(images, record.alias, |before|);
    assert images[..|before|] == before && images[|before| + 1..] == after;
  }

  lemma UntrackUnknown(images: Images, alias: string)
    requires !Tracked(images, alias)
    ensures Apply(images, Untrack(alias)) == Some(images)
  {
    if IndexOfAlias(images, alias) >= 0 { assert Tracked(images, alias); }
  }

  /** A build under the alias of the master takes the mark away: afterwards nothing is master. */
  lemma RebuildDropsMaster(images: Images, record: ImageRecord, k: nat)
    requires RegistryOk(images) && k < |images| && images[k].isMaster && images[k].alias == record.alias && !record.isMaster
    ensures forall i :: 0 <= i < |images| ==> !Apply(images, Built(record)).value[i].isMaster
  {
    assert IndexOfAlias(images, record.alias) == k;
  }

  /** A build leaves a master exactly when it is recorded under another alias than the master's. */
  lemma RebuildKeepsMasterIff(images: Images, record: ImageRecord, k: nat)
    requires RegistryOk(images) && k < |images| && images[k].isMaster && !record.isMaster
    ensures HasMaster(Apply(images, Built(record)).value) <==> images[k].alias != record.alias
  {
    var r := Apply(images, Built(record)).value;
    if images[k].alias == record.alias {
      RebuildDropsMaster(images, record, k);
    } else {
      assert r[k] == images[k];
    }
  }

  // ---------------------------------------------------------------- every run of the store

  /** What the service's callers get: the edited record, whether one was removed, or nothing. */
  datatype Answer = Edited(record: ImageRecord) | Removed(any: bool) | Done

  function AnswerTo(images: Images, op: Op): Answer
    requires Apply(images, op).Some?
  {
    match op
    case Built(_) => Done
    case SetMaster(alias, _) => Edited(Apply(images, op).value[IndexOfAlias(images, alias)])
    case Untrack(alias) => Removed(IndexOfAlias(images, alias) >= 0)
  }

  /** setMasterImage resolves with the record it marked or unmarked. */
  lemma EditedTells(images: Images, alias: string, isMaster: bool, k: nat)
    requires FirstWith(images, alias, k)
    ensures Apply(images, SetMaster(alias, isMaster)).Some?
    ensures AnswerTo(images, SetMaster(alias, isMaster)) == Edited(images[k].(isMaster := isMaster))
  {
    FirstIsIndex(images, alias, k);
  }

  function MutatorOf(op: Op): Store.Mutator<ImageRecord, Answer> {
    (images: Images) => if Apply(images, op).None? then None else Some((Apply(images, op).value, AnswerTo(images, op)))
  }

  /** The step is not an update, or updates with one of the service's mutators. */
  ghost predicate FromService(step: Store.Step<ImageRecord, Answer>) {
    step.Update? ==> exists op: Op :: (op.Built? ==> !op.record.isMaster) && step.mutate == MutatorOf(op)
  }

  ghost predicate Keeps(m: Store.Mutator<ImageRecord, Answer>) {
    forall images :: RegistryOk(images) && m(images).Some? ==> RegistryOk(m(images).value.0)
  }

  lemma ServiceMutatorsKeep(step: Store.Step<ImageRecord, Answer>)
    requires FromService(step) && step.Update?
    ensures Keeps(step.mutate)
  {
    var op: Op :| (op.Built? ==> !op.record.isMaster) && step.mutate == MutatorOf(op);
    forall images | RegistryOk(images) && step.mutate(images).Some? ensures RegistryOk(step.mutate(images).value.0) {
      ApplyKeepsRegistry(images, op);
    }
  }

  lemma {:induction false} CallsKeep(disk: Store.Disk<ImageRecord>, steps: seq<Store.Step<ImageRecord, Answer>>)
    requires forall step :: step in steps ==> FromService(step)
    ensures forall c :: c in Store.Run(Store.Initial(disk), steps).calls ==> Keeps(c.mutate)
  {
    if steps == [] {
    } else {
      var n := |steps| - 1;
      CallsKeep(disk, steps[..n]);
      var s := Store.Run(Store.Initial(disk), steps[..n]);
      if steps[n].Update? {
        ServiceMutatorsKeep(steps[n]);
      }
      var t := Store.Exec(s, steps[n]);
      forall c | c in t.calls ensures Keeps(c.mutate) {
        var i :| 0 <= i < |t.calls| && t.calls[i] == c;
        if i < |s.calls| {
          assert s.calls[i] in s.calls;
        }
      }
    }
  }

  /**
   From a registry that is in order, and in particular from none at all, every interleaving of the
   three operations through the store, failed ones included, leaves it in order at every moment.
   */
  lemma RegistryAlwaysOk(disk: Store.Disk<ImageRecord>, steps: seq<Store.Step<ImageRecord, Answer>>)
    requires Store.Contents(disk).Some? ==> RegistryOk(Store.Contents(disk).value)
    requires forall step :: step in steps ==> FromService(step)
    ensures var d := Store.Run(Store.Initial(disk), steps).disk;
      Store.Contents(d).Some? ==> RegistryOk(Store.Contents(d).value)
  {
    var s := Store.Run(Store.Initial(disk), steps);
    Store.RunKeepsInv(disk, steps);
    CallsKeep(disk, steps);
    forall i, images | 0 <= i < |s.calls| && RegistryOk(images) && s.calls[i].mutate(images).Some?
      ensures RegistryOk(s.calls[i].mutate(images).value.0)
    {
      assert s.calls[i] in s.calls;
    }
    Store.SequentialKeeps(disk, s.calls, images => RegistryOk(images));
  }

  /**
   What untrackImage resolves with: whether the alias was tracked in the fold of the operations before
   it, whatever ran between the call and its answer.
   */
  lemma UntrackTells(disk: Store.Disk<ImageRecord>, steps: seq<Store.Step<ImageRecord, Answer>>, i: nat, alias: string)
    requires var s := Store.Run(Store.Initial(disk), steps);
      i < |s.calls| && s.calls[i].mutate == MutatorOf(Untrack(alias)) && s.calls[i].phase.Settled? && s.calls[i].phase.outcome.Some?
    ensures var s := Store.Run(Store.Initial(disk), steps);
      var before := Store.Contents(Store.Sequential(disk, s.calls[..i]));
      before.Some? && s.calls[i].phase.outcome == Some(Removed(Tracked(before.value, alias)))
  {
    Store.ResultIsSequential(disk, steps, i);
  }
}
