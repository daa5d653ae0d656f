/**
 The configuration service: applyConfigUpdate writes incus.cfg and incus.json as a pair, and the
 background sync brings incus.json back into agreement with incus.cfg.
 */
module ConfigSync {
  import opened Text
  import opened Settings
  import opened ShellConfig
  import opened ShellRewrite
  import opened ShellRoundTrip
  import opened ConfigMerge
  import opened FileSystems
  import opened ConfigTransaction
  import Lock = CfgLock

  /** What JSON.parse makes of a file: an error, null, an object, or a value of another kind. */
  datatype Doc =
    | Unparsable
    | NullDoc
    | Object(fields: map<Field, JsonValue>, extra: map<string, nat>)
    | Other(extra: map<string, nat>)

  /** A file's content: shell text or a JSON document. */
  datatype Content = ShellText(text: string) | JsonText(doc: Doc)

  /** The properties a parsed document shows; a file that is absent or cannot be parsed counts as empty. */
  function FieldsOf(doc: Option<Doc>): map<Field, JsonValue> {
    if doc.Some? && doc.value.Object? then doc.value.fields else map[]
  }

  /** Properties of the document that are not settings; spreading keeps them. */
  function ExtraOf(doc: Option<Doc>): map<string, nat> {
    if doc.Some? && (doc.value.Object? || doc.value.Other?) then doc.value.extra else map[]
  }

  /** The sync writes: some setting is missing from the document or differs. */
  predicate NeedsWrite(mapped: Config, doc: Option<Doc>) {
    doc != Some(NullDoc) && Differs(FieldsOf(doc), mapped)
  }

  /** incus.json after a sync without faults. Looking up a key of null throws, so null is never replaced. */
  function Synced(mapped: Config, doc: Option<Doc>): Option<Doc> {
    if NeedsWrite(mapped, doc) then Some(Object(FieldsOf(doc) + AsJson(mapped), ExtraOf(doc))) else doc
  }

  predicate NeedsSync(text: string, doc: Option<Doc>) { NeedsWrite(ReadConfig(text), doc) }

  function SyncResult(text: string, doc: Option<Doc>): Option<Doc> { Synced(ReadConfig(text), doc) }

  // ---------------------------------------------------------------- convergence

  /** The document holds every setting the shell file defines, with the same value. */
  predicate InSync(text: string, doc: Option<Doc>) { !Differs(FieldsOf(doc), ReadConfig(text)) }

  /** No line of the file sets a variable of the plugin. */
  predicate SetsNothing(text: string) { forall f :: Mapped(f) ==> ShellName(f) !in Parsed(text) }

  lemma NothingToCompare(text: string)
    ensures !Differs(map[], ReadConfig(text)) <==> SetsNothing(text)
  {
    forall f | Mapped(f) ensures f in ReadConfig(text) <==> ShellName(f) in Parsed(text) {
      SettledAt(Parsed(text), f);
    }
  }

  /**
   Convergence: one sync brings any document into agreement with the shell file and a second one
   writes nothing, unless the file holds the JSON value null while the shell file sets something.
   */
  lemma SyncConvergesIff(text: string, doc: Option<Doc>)
    ensures InSync(text, SyncResult(text, doc)) <==> doc != Some(NullDoc) || SetsNothing(text)
    ensures doc != Some(NullDoc) ==> !NeedsSync(text, SyncResult(text, doc))
    ensures SyncResult(text, SyncResult(text, doc)) == SyncResult(text, doc)
  {
    NothingToCompare(text);
  }

  lemma OneLineSets(name: string, rhs: string)
    requires PlainName(name) && IsTrimmed(rhs) && rhs != "" && '\n' !in rhs
    ensures name in Parsed(name + "=" + rhs)
  {
    var text := name + "=" + rhs;
    PlainNameIsKey(name);
    PlainNameIsNotProto(name);
    AssignmentOf(name, rhs);
    assert SplitLines(text) == [text];
    DefinedSomewhere([text], text, name);
  }

  /** For instance any shell file of one line that sets a variable of the plugin, with null in the other file. */
  lemma NullNeverConverges(f: Field)
    requires Mapped(f)
    ensures var text := ShellName(f) + "=" + "x"; !InSync(text, SyncResult(text, Some(NullDoc)))
  {
    ShellNameIsPlain(f);
    OneLineSets(ShellName(f), "x");
    SyncConvergesIff(ShellName(f) + "=" + "x", Some(NullDoc));
  }

  /** The sync keeps every other property of the document. */
  lemma SyncKeepsTheRest(text: string, doc: Option<Doc>, f: Field)
    requires f !in ReadConfig(text)
    ensures f in FieldsOf(SyncResult(text, doc)) <==> f in FieldsOf(doc)
    ensures f in FieldsOf(doc) ==> FieldsOf(SyncResult(text, doc))[f] == FieldsOf(doc)[f]
    ensures ExtraOf(SyncResult(text, doc)) == ExtraOf(doc)
  {
  }

  /** The document applyConfigUpdate writes. */
  function UpdatedDoc(content: string, input: Patch): Doc {
    Object(AsJson(Merge(ReadConfig(content), input)), map[])
  }

  /** After an update the sync that the file watcher starts is silent exactly for clean patches. */
  lemma SilentAfterUpdateIffClean(content: string, input: Patch)
    requires input.Valid()
    ensures !NeedsSync(Rewrite(content, input), Some(UpdatedDoc(content, input))) <==> Clean(content, input)
  {
    MergeReadsBackIffClean(content, input);
  }

  /** The text of the shell file and the document, read off the disk. */
  function TextOn(files: map<Path, Content>, cfg: Path): Option<string> {
    if cfg in files && files[cfg].ShellText? then Some(files[cfg].text) else None
  }

  function DocOn(files: map<Path, Content>, json: Path): Option<Doc> {
    if json in files && files[json].JsonText? then Some(files[json].doc) else None
  }

  /**
   Crash recovery: whatever moment of writing a new pair a crash hits, the shell file is there, old or
   new, and one sync that gets the lock makes the document agree with it. An update writes the rewritten
   text and an object; only a document that already was null stays out of reach.
   */
  lemma CrashThenSync(p: Paths, before: map<Path, Content>, oldText: string, newText: string, newDoc: Doc, now: map<Path, Content>)
    requires TextOn(before, p.cfg) == Some(oldText) && newDoc.Object?
    requires GoodPair(p, before, ShellText(newText), JsonText(newDoc), now)
    requires DocOn(before, p.json) != Some(NullDoc)
    ensures TextOn(now, p.cfg).Some?
    ensures var text, doc := TextOn(now, p.cfg).value, DocOn(now, p.json);
      && (text == oldText || text == newText)
      && InSync(text, SyncResult(text, doc))
      && !NeedsSync(text, SyncResult(text, doc))
  {
    SyncConvergesIff(TextOn(now, p.cfg).value, DocOn(now, p.json));
  }

  // ---- the lock such a crash leaves behind

  /** The document after the one sync of a start of the service, which makes a single attempt at the lock. */
  function AfterBoot(text: string, doc: Option<Doc>, lock: Lock.State, a: Lock.Agent): Option<Doc> {
    if Lock.IsHolding(Lock.Run(lock, Lock.LoneCall(a)), a) then SyncResult(text, doc) else doc
  }

  /** The update gives some property another value than the document has. */
  predicate Changes(doc: Option<Doc>, input: Patch) { exists f :: Mapped(f) && Outdated(doc, input.values, f) }

  /** The document does not have the value given for one property. */
  predicate Outdated(doc: Option<Doc>, config: Config, f: Field) {
    f in config && !(f in FieldsOf(doc) && FieldsOf(doc)[f] == Setting(config[f]))
  }

  lemma OutdatedFrom(doc: Option<Doc>, was: Config, reread: Config, values: Config, f: Field)
    requires !Outdated(doc, was, f)
    requires if f in values then f in reread && reread[f] == values[f] else (f in reread <==> f in was) && (f in reread ==> reread[f] == was[f])
    ensures Outdated(doc, reread, f) <==> Outdated(doc, values, f)
  {
  }

  lemma InSyncAt(text: string, doc: Option<Doc>, f: Field)
    requires InSync(text, doc) && Mapped(f)
    ensures !Outdated(doc, ReadConfig(text), f)
  {
  }

  lemma OutdatedAt(content: string, input: Patch, doc: Option<Doc>, f: Field)
    requires input.Valid() && Clean(content, input) && InSync(content, doc) && Mapped(f)
    ensures Outdated(doc, ReadConfig(Rewrite(content, input)), f) <==> Outdated(doc, input.values, f)
  {
    RereadAt(content, input, f);
    assert CleanAt(content, input, f);
    InSyncAt(content, doc, f);
    OutdatedFrom(doc, ReadConfig(content), ReadConfig(Rewrite(content, input)), input.values, f);
  }

  lemma DiffersIff(doc: Option<Doc>, reread: Config, input: Patch)
    requires forall f :: Mapped(f) ==> (Outdated(doc, reread, f) <==> Outdated(doc, input.values, f))
    ensures Differs(FieldsOf(doc), reread) <==> Changes(doc, input)
  {
    assert Differs(FieldsOf(doc), reread) <==> exists f :: Mapped(f) && Outdated(doc, reread, f);
  }

  /** After a clean update the old document is out of date exactly when the update changes it. */
  lemma UpdateOutdates(content: string, input: Patch, doc: Option<Doc>)
    requires input.Valid() && Clean(content, input) && InSync(content, doc)
    ensures InSync(Rewrite(content, input), doc) <==> !Changes(doc, input)
  {
    forall f | Mapped(f) ensures Outdated(doc, ReadConfig(Rewrite(content, input)), f) <==> Outdated(doc, input.values, f) {
      OutdatedAt(content, input, doc, f);
    }
    DiffersIff(doc, ReadConfig(Rewrite(content, input)), input);
  }

  /** The crash fell between the two installs: the shell file is new, the document is not. */
  predicate BetweenInstalls(p: Paths, before: map<Path, Content>, newText: string, now: map<Path, Content>) {
    At(now, p.cfg) == Some(ShellText(newText)) && At(now, p.json) == At(before, p.json)
  }

  /** What a clean update of an agreeing pair may be interrupted in. */
  predicate Interrupted(p: Paths, before: map<Path, Content>, content: string, input: Patch, now: map<Path, Content>) {
    && input.Valid() && Clean(content, input)
    && TextOn(before, p.cfg) == Some(content) && InSync(content, DocOn(before, p.json)) && DocOn(before, p.json) != Some(NullDoc)
    && GoodPair(p, before, ShellText(Rewrite(content, input)), JsonText(UpdatedDoc(content, input)), now)
  }

  /** The three pairs, given what is known of each. */
  lemma ThreePairs(oldText: string, newText: string, oldDoc: Option<Doc>, newDoc: Option<Doc>, text: string, doc: Option<Doc>, between: bool)
    requires InSync(oldText, oldDoc) && InSync(newText, newDoc)
    requires between ==> text == newText && doc == oldDoc
    requires !between ==> (text == oldText && doc == oldDoc) || (text == newText && doc == newDoc)
    ensures InSync(text, doc) <==> !between || InSync(newText, oldDoc)
  {
  }

  lemma InterruptedPairs(p: Paths, before: map<Path, Content>, content: string, input: Patch, now: map<Path, Content>, newText: string)
    requires Interrupted(p, before, content, input, now) && newText == Rewrite(content, input)
    ensures TextOn(now, p.cfg).Some? && DocOn(now, p.json) != Some(NullDoc)
    ensures var text, doc := TextOn(now, p.cfg).value, DocOn(now, p.json);
      if BetweenInstalls(p, before, newText, now) then text == newText && doc == DocOn(before, p.json)
      else (text == content && doc == DocOn(before, p.json)) || (text == newText && doc == Some(UpdatedDoc(content, input)))
  {
  }

  lemma UpdatedAgrees(content: string, input: Patch)
    requires input.Valid() && Clean(content, input)
    ensures InSync(Rewrite(content, input), Some(UpdatedDoc(content, input)))
  {
    SilentAfterUpdateIffClean(content, input);
  }

  lemma InterruptedAgrees(p: Paths, before: map<Path, Content>, content: string, input: Patch, now: map<Path, Content>)
    requires Interrupted(p, before, content, input, now)
    ensures TextOn(now, p.cfg).Some? && DocOn(now, p.json) != Some(NullDoc)
    ensures InSync(TextOn(now, p.cfg).value, DocOn(now, p.json))
       <==> !(BetweenInstalls(p, before, Rewrite(content, input), now) && Changes(DocOn(before, p.json), input))
  {
    var newText := Rewrite(content, input);
    UpdateOutdates(content, input, DocOn(before, p.json));
    UpdatedAgrees(content, input);
    InterruptedPairs(p, before, content, input, now, newText);
    ThreePairs(content, newText, DocOn(before, p.json), Some(UpdatedDoc(content, input)),
               TextOn(now, p.cfg).value, DocOn(now, p.json), BetweenInstalls(p, before, newText, now));
  }

  /**
   A crash inside an update leaves its lock file too. After the restart the two files agree exactly when
   that lock was already stale, or the crash fell outside the two installs, or the update changed nothing.
   */
  lemma CrashThenBoot(p: Paths, before: map<Path, Content>, content: string, input: Patch, now: map<Path, Content>,
                      lock: Lock.State, a: Lock.Agent)
    requires Interrupted(p, before, content, input, now)
    requires lock.file.Some? && a !in lock.calls
    ensures TextOn(now, p.cfg).Some?
    ensures var text := TextOn(now, p.cfg).value;
      InSync(text, AfterBoot(text, DocOn(now, p.json), lock, a))
      <==> Lock.IsStale(lock)
           || !(BetweenInstalls(p, before, Rewrite(content, input), now) && Changes(DocOn(before, p.json), input))
  {
    InterruptedAgrees(p, before, content, input, now);
    Lock.LoneCallIff(lock, a);
    SyncConvergesIff(TextOn(now, p.cfg).value, DocOn(now, p.json));
  }

  lemma BetweenIsGood(p: Paths, before: map<Path, Content>, newText: string, newDoc: Doc, now: map<Path, Content>)
    requires p.cfg != p.json && GoodPair(p, before, ShellText(newText), JsonText(newDoc), before)
    requires now == before[p.cfg := ShellText(newText)]
    ensures GoodPair(p, before, ShellText(newText), JsonText(newDoc), now) && BetweenInstalls(p, before, newText, now)
    ensures TextOn(now, p.cfg) == Some(newText) && DocOn(now, p.json) == DocOn(before, p.json)
  {
  }

  /** A restart at the moment of the crash: every update that changes something can leave the old document in place. */
  lemma EarlyBoot(p: Paths, before: map<Path, Content>, content: string, input: Patch, atomic: bool)
    returns (now: map<Path, Content>, steps: seq<Lock.Step>)
    requires p.cfg != p.json && Interrupted(p, before, content, input, before) && Changes(DocOn(before, p.json), input)
    ensures var lock := Lock.Run(Lock.Initial(atomic), steps);
      && Interrupted(p, before, content, input, now)
      && TextOn(now, p.cfg) == Some(Rewrite(content, input)) && DocOn(now, p.json) == DocOn(before, p.json)
      && Lock.AllDead(lock) && lock.file.Some? && 1 !in lock.calls
      && !InSync(Rewrite(content, input), AfterBoot(Rewrite(content, input), DocOn(now, p.json), lock, 1))
  {
    now := before[p.cfg := ShellText(Rewrite(content, input))];
    BetweenIsGood(p, before, Rewrite(content, input), UpdatedDoc(content, input), now);
    steps := Lock.FreshlyDead(atomic);
    CrashThenBoot(p, before, content, input, now, Lock.Run(Lock.Initial(atomic), steps), 1);
  }

  lemma NothingSet()
    ensures ReadConfig("") == map[]
  {
    assert SplitLines("") == [""];
    assert Variables([""]) == map[] by { assert [""][..0] == []; }
  }

  lemma FirstIsValid(input: Patch)
    requires input == Patch([JailImage], map[JailImage := Words("x")])
    ensures input.Valid()
  {
    assert NewlineFree(input.values);
  }

  lemma FirstChanges(input: Patch)
    requires input == Patch([JailImage], map[JailImage := Words("x")])
    ensures Changes(Some(Object(map[], map[])), input)
  {
    assert Outdated(Some(Object(map[], map[])), input.values, JailImage);
  }

  lemma EmptyInSync()
    ensures InSync("", Some(Object(map[], map[])))
  {
    NothingSet();
  }

  lemma FirstValue(p: Paths, input: Patch, before: map<Path, Content>)
    requires p.cfg != p.json && input == Patch([JailImage], map[JailImage := Words("x")])
    requires before == map[p.cfg := ShellText(""), p.json := JsonText(Object(map[], map[]))]
    ensures Interrupted(p, before, "", input, before) && Changes(DocOn(before, p.json), input)
  {
    FirstIsValid(input);
    FirstIsClean(input);
    FirstChanges(input);
    EmptyInSync();
    FirstDisk(p, before, Rewrite("", input), UpdatedDoc("", input));
  }

  lemma FirstDisk(p: Paths, before: map<Path, Content>, newText: string, newDoc: Doc)
    requires p.cfg != p.json && before == map[p.cfg := ShellText(""), p.json := JsonText(Object(map[], map[]))]
    ensures TextOn(before, p.cfg) == Some("") && DocOn(before, p.json) == Some(Object(map[], map[]))
    ensures GoodPair(p, before, ShellText(newText), JsonText(newDoc), before)
  {
  }

  lemma FirstIsClean(input: Patch)
    requires input == Patch([JailImage], map[JailImage := Words("x")])
    ensures Clean("", input)
  {
    forall f | Mapped(f) ensures CleanAt("", input, f) {}
  }

  /** There are such updates: the first value ever set. */
  lemma EarlyBootExample(p: Paths, atomic: bool) returns (now: map<Path, Content>, steps: seq<Lock.Step>)
    requires p.cfg != p.json
    ensures var lock := Lock.Run(Lock.Initial(atomic), steps);
      && TextOn(now, p.cfg).Some? && Lock.AllDead(lock) && lock.file.Some? && 1 !in lock.calls
      && !InSync(TextOn(now, p.cfg).value, AfterBoot(TextOn(now, p.cfg).value, DocOn(now, p.json), lock, 1))
  {
    var input := Patch([JailImage], map[JailImage := Words("x")]);
    var before := map[p.cfg := ShellText(""), p.json := JsonText(Object(map[], map[]))];
    FirstValue(p, input, before);
    now, steps := EarlyBoot(p, before, "", input, atomic);
  }

  // ---------------------------------------------------------------- the service

  /** How applyConfigUpdate ends. */
  datatype UpdateResult =
    | Updated(config: Config)
    | NotFound
    | Locked
    | ReadFailed
    | WriteFailed(outcome: Outcome)

  /** Every state of the disk from position `n` of the history on has the path as it was or as it is in the end. */
  ghost predicate OldOrFinal(path: Path, before: map<Path, Content>, after: map<Path, Content>, history: seq<map<Path, Content>>, n: nat) {
    forall i :: n <= i < |history| ==> At(history[i], path) == At(before, path) || At(history[i], path) == At(after, path)
  }

  /** Both the value served and the copy returned say whether a key is set, and the copy holds no key. */
  predicate TellsOfKey(memory: map<Field, JsonValue>, returned: Config, isSet: bool) {
    && TsAuthKeyConfigured in memory && memory[TsAuthKeyConfigured] == Setting(Flag(isSet))
    && TsAuthKeyConfigured in returned && returned[TsAuthKeyConfigured] == Flag(isSet)
    && TsAuthKey in returned && returned[TsAuthKey] == Words("")
  }

  lemma UpdateTells(content: string, input: Patch)
    requires input.Valid()
    ensures TellsOfKey(UpdatedDoc(content, input).fields, Merge(ReadConfig(content), input)[TsAuthKey := Words("")], KeyIsSet(content, input))
  {
    PresenceBit(content, input);
  }

  class ConfigSyncService {
    const fs: FileSystem<Content>
    const cfgPath: Path
    const jsonPath: Path
    var isSyncing: bool
    /** The value ConfigService serves. */
    var memory: map<Field, JsonValue>

    constructor (fs: FileSystem<Content>, cfgPath: Path, jsonPath: Path, memory: map<Field, JsonValue>)
      ensures this.fs == fs && this.cfgPath == cfgPath && this.jsonPath == jsonPath
      ensures !isSyncing && this.memory == memory
    {
      this.fs, this.cfgPath, this.jsonPath := fs, cfgPath, jsonPath;
      this.isSyncing, this.memory := false, memory;
    }

    /** incus.cfg holds shell text and incus.json, if present, a JSON text. */
    predicate Typed()
      reads fs
    {
      && (cfgPath in fs.files ==> fs.files[cfgPath].ShellText?)
      && (jsonPath in fs.files ==> fs.files[jsonPath].JsonText?)
    }

    /**
     applyConfigUpdate. `lockAcquired` is the outcome of acquireCfgLock. A committed update leaves the
     two files and the value in memory in agreement; any failure before the commit leaves all three
     as they were. An error while the backups are removed comes after the commit, so the files are new
     and the value in memory is not.
     */
    method ApplyConfigUpdate(input: Patch, lockAcquired: bool, p: Paths) returns (r: UpdateResult)
      requires input.Valid() && Typed()
      requires p.cfg == cfgPath && p.json == jsonPath && p.Distinct() && p.Fresh(fs.files) && p.All() !! fs.torn
      modifies this, fs
      ensures r.NotFound? <==> cfgPath !in old(fs.files)
      ensures r.Locked? <==> cfgPath in old(fs.files) && !lockAcquired
      ensures r.NotFound? || r.Locked? || r.ReadFailed? ==> fs.files == old(fs.files) && memory == old(memory)
      ensures r.WriteFailed? ==> memory == old(memory) && !r.outcome.Committed?
      ensures r.WriteFailed? && r.outcome.RolledBack? ==> OldPair(p, old(fs.files), fs.files)
      ensures r.WriteFailed? && r.outcome.CommittedUnclean? ==> BackupLeft(p, old(fs.files), fs.files)
      ensures r.WriteFailed? && r.outcome.RollbackIncomplete? ==>
                Recoverable(p, old(fs.files), fs.files) && At(fs.files, p.json) == At(old(fs.files), p.json)
      ensures r.Updated? ==> SameOutside(old(fs.files), fs.files, {p.cfg, p.json})
      ensures cfgPath in old(fs.files) && lockAcquired && fs.faults == old(fs.faults) ==> r.Updated?
      ensures r.Updated? || (r.WriteFailed? && r.outcome.CommittedUnclean?) ==>
                var content := old(fs.files)[cfgPath].text;
                NewPair(p, ShellText(Rewrite(content, input)), JsonText(UpdatedDoc(content, input)), fs.files)
      ensures r.Updated? ==>
                var content := old(fs.files)[cfgPath].text;
                && memory == UpdatedDoc(content, input).fields
                && r.config == Merge(ReadConfig(content), input)[TsAuthKey := Words("")]
                && TellsOfKey(memory, r.config, KeyIsSet(content, input))
      ensures cfgPath in old(fs.files) ==>
                var content := old(fs.files)[cfgPath].text;
                && old(fs.history) <= fs.history
                && GoodSince(p, old(fs.files), ShellText(Rewrite(content, input)), JsonText(UpdatedDoc(content, input)),
                             fs.history, |old(fs.history)|)
      ensures !r.NotFound? && !r.Locked? ==> !isSyncing
    {
      if cfgPath !in fs.files {
        return NotFound;
      }
      if !lockAcquired {
        return Locked;
      }
      isSyncing := true;
      var read := fs.Read(cfgPath);
      if read == None {
        r := ReadFailed;
      } else {
        r := WriteUpdate(read.value.text, input, p);
      }
      isSyncing := false;
    }

    /** The part of applyConfigUpdate after reading incus.cfg. */
    method WriteUpdate(content: string, input: Patch, p: Paths) returns (r: UpdateResult)
      requires input.Valid() && p.Distinct() && p.Fresh(fs.files) && p.All() !! fs.torn
      modifies this`memory, fs
      ensures r.Updated? || r.WriteFailed?
      ensures r.Updated? ==> memory == UpdatedDoc(content, input).fields
      ensures r.Updated? ==> r.config == Merge(ReadConfig(content), input)[TsAuthKey := Words("")]
      ensures r.Updated? ==> TellsOfKey(memory, r.config, KeyIsSet(content, input))
      ensures r.WriteFailed? ==> memory == old(memory) && !r.outcome.Committed?
      ensures r.WriteFailed? && r.outcome.RolledBack? ==> OldPair(p, old(fs.files), fs.files)
      ensures r.WriteFailed? && r.outcome.CommittedUnclean? ==> BackupLeft(p, old(fs.files), fs.files)
      ensures r.WriteFailed? && r.outcome.RollbackIncomplete? ==>
                Recoverable(p, old(fs.files), fs.files) && At(fs.files, p.json) == At(old(fs.files), p.json)
      ensures r.Updated? ==> SameOutside(old(fs.files), fs.files, {p.cfg, p.json})
      ensures r.Updated? || r.outcome.CommittedUnclean? ==>
                NewPair(p, ShellText(Rewrite(content, input)), JsonText(UpdatedDoc(content, input)), fs.files)
      ensures r.Updated? <==> fs.faults == old(fs.faults)
      ensures fs.faults >= old(fs.faults)
      ensures old(fs.history) <= fs.history
      ensures GoodSince(p, old(fs.files), ShellText(Rewrite(content, input)), JsonText(UpdatedDoc(content, input)),
                        fs.history, |old(fs.history)|)
    {
      var shell := ParseShellConfig(content);
      var current := MapShellToTS(shell);
      var merged := Merge(current, input);
      var text := UpdateShellConfig(content, input);
      r := Commit(text, merged, p);
      UpdateTells(content, input);
    }

    method Commit(text: string, merged: Config, p: Paths) returns (r: UpdateResult)
      requires p.Distinct() && p.Fresh(fs.files) && p.All() !! fs.torn
      modifies this`memory, fs
      ensures r.Updated? || r.WriteFailed?
      ensures r.Updated? ==> memory == AsJson(merged) && r.config == merged[TsAuthKey := Words("")]
      ensures r.WriteFailed? ==> memory == old(memory) && !r.outcome.Committed?
      ensures r.WriteFailed? && r.outcome.RolledBack? ==> OldPair(p, old(fs.files), fs.files)
      ensures r.WriteFailed? && r.outcome.CommittedUnclean? ==> BackupLeft(p, old(fs.files), fs.files)
      ensures r.WriteFailed? && r.outcome.RollbackIncomplete? ==>
                Recoverable(p, old(fs.files), fs.files) && At(fs.files, p.json) == At(old(fs.files), p.json)
      ensures r.Updated? ==> SameOutside(old(fs.files), fs.files, {p.cfg, p.json})
      ensures r.Updated? || r.outcome.CommittedUnclean? ==>
                NewPair(p, ShellText(text), JsonText(Object(AsJson(merged), map[])), fs.files)
      ensures r.Updated? <==> fs.faults == old(fs.faults)
      ensures fs.faults >= old(fs.faults)
      ensures old(fs.history) <= fs.history
      ensures GoodSince(p, old(fs.files), ShellText(text), JsonText(Object(AsJson(merged), map[])),
                        fs.history, |old(fs.history)|)
    {
      var outcome := WriteConfigPair(fs, p, ShellText(text), JsonText(Object(AsJson(merged), map[])));
      if outcome.Committed? {
        memory := AsJson(merged);
        r := Updated(merged[TsAuthKey := Words("")]);
      } else {
        r := WriteFailed(outcome);
      }
    }

    /** writeFileAtomic: whenever somebody reads `path`, or a crash comes, the old content is there or the new. */
    method WriteFileAtomic(path: Path, tmp: Path, content: Content) returns (ok: bool)
      requires path != tmp
      modifies fs
      ensures ok <==> fs.faults == old(fs.faults)
      ensures ok ==> At(fs.files, path) == Some(content) && SameOutside(old(fs.files), fs.files, {path, tmp})
      ensures forall other :: other !in {path, tmp} ==> OldOrFinal(other, old(fs.files), fs.files, fs.history, |old(fs.history)|)
      ensures !ok ==> SameOutside(old(fs.files), fs.files, {tmp})
      ensures old(fs.faults) <= fs.faults
      ensures old(fs.history) <= fs.history
      ensures OldOrFinal(path, old(fs.files), fs.files, fs.history, |old(fs.history)|)
    {
      ok := fs.Write(tmp, content);
      if ok {
        ok := fs.Rename(tmp, path);
      }
    }

    /** What the sync reads as the current document; a file that cannot be read counts as unparsable. */
    method ReadDoc() returns (doc: Option<Doc>)
      requires Typed()
      modifies fs`faults, fs`ops
      ensures fs.faults == old(fs.faults) ==> doc == DocOn(fs.files, jsonPath)
      ensures fs.faults >= old(fs.faults)
      ensures fs.faults > old(fs.faults) ==> doc == Some(Unparsable)
    {
      doc := None;
      if jsonPath in fs.files {
        var read := fs.Read(jsonPath);
        doc := if read == None then Some(Unparsable) else Some(read.value.doc);
      }
    }

    /**
     syncCfgToJSON. Without a fault, incus.json becomes SyncResult of what is on the disk; when nothing
     needs syncing the disk is not written at all. incus.cfg is never touched.
     */
    method SyncCfgToJSON(lockAcquired: bool, tmp: Path)
      requires Typed() && cfgPath != jsonPath && tmp !in {cfgPath, jsonPath}
      modifies this, fs
      ensures At(fs.files, cfgPath) == At(old(fs.files), cfgPath)
      ensures old(isSyncing) || cfgPath !in old(fs.files) || !lockAcquired ==>
                fs.files == old(fs.files) && fs.history == old(fs.history) && memory == old(memory)
      ensures !old(isSyncing) && cfgPath in old(fs.files) && lockAcquired && fs.faults == old(fs.faults) ==>
                DocOn(fs.files, jsonPath) == SyncResult(old(fs.files)[cfgPath].text, DocOn(old(fs.files), jsonPath))
      ensures !old(isSyncing) && cfgPath in old(fs.files) && lockAcquired && fs.faults == old(fs.faults) ==>
                if NeedsSync(old(fs.files)[cfgPath].text, DocOn(old(fs.files), jsonPath))
                then memory == FieldsOf(DocOn(fs.files, jsonPath))
                else fs.history == old(fs.history) && fs.files == old(fs.files) && memory == old(memory)
      ensures cfgPath in old(fs.files) && fs.faults > old(fs.faults) ==>
                At(fs.files, jsonPath) == At(old(fs.files), jsonPath)
                || DocOn(fs.files, jsonPath) == Some(Object(AsJson(ReadConfig(old(fs.files)[cfgPath].text)), map[]))
      ensures isSyncing == old(isSyncing)
      ensures old(fs.history) <= fs.history
      ensures OldOrFinal(jsonPath, old(fs.files), fs.files, fs.history, |old(fs.history)|)
      ensures OldOrFinal(cfgPath, old(fs.files), fs.files, fs.history, |old(fs.history)|)
    {
      if isSyncing {
        return;
      }
      if cfgPath !in fs.files {
        return;
      }
      if !lockAcquired {
        return;
      }
      isSyncing := true;
      var read := fs.Read(cfgPath);
      if read.Some? {
        SyncFrom(read.value.text, tmp);
      }
      isSyncing := false;
    }

    /** onModuleInit: the one sync at the start, with the lock as an earlier run of the service left it. */
    method InitialSync(lock: Lock.State, a: Lock.Agent, tmp: Path)
      requires Typed() && cfgPath != jsonPath && tmp !in {cfgPath, jsonPath} && !isSyncing
      modifies this, fs
      ensures At(fs.files, cfgPath) == At(old(fs.files), cfgPath)
      ensures cfgPath in old(fs.files) && fs.faults == old(fs.faults) ==>
                DocOn(fs.files, jsonPath) == AfterBoot(old(fs.files)[cfgPath].text, DocOn(old(fs.files), jsonPath), lock, a)
    {
      var lockAcquired := Lock.IsHolding(Lock.Run(lock, Lock.LoneCall(a)), a);
      SyncCfgToJSON(lockAcquired, tmp);
    }

    /** The part of syncCfgToJSON after reading incus.cfg. */
    method SyncFrom(content: string, tmp: Path)
      requires Typed() && cfgPath != jsonPath && tmp !in {cfgPath, jsonPath}
      modifies this`memory, fs
      ensures At(fs.files, cfgPath) == At(old(fs.files), cfgPath)
      ensures fs.faults >= old(fs.faults)
      ensures fs.faults == old(fs.faults) ==>
                && DocOn(fs.files, jsonPath) == SyncResult(content, DocOn(old(fs.files), jsonPath))
                && (if NeedsSync(content, DocOn(old(fs.files), jsonPath))
                    then memory == FieldsOf(DocOn(fs.files, jsonPath))
                    else fs.history == old(fs.history) && fs.files == old(fs.files) && memory == old(memory))
      ensures fs.faults > old(fs.faults) ==>
                At(fs.files, jsonPath) == At(old(fs.files), jsonPath)
                || DocOn(fs.files, jsonPath) == Some(Object(AsJson(ReadConfig(content)), map[]))
      ensures old(fs.history) <= fs.history
      ensures OldOrFinal(jsonPath, old(fs.files), fs.files, fs.history, |old(fs.history)|)
      ensures OldOrFinal(cfgPath, old(fs.files), fs.files, fs.history, |old(fs.history)|)
    {
      var shell := ParseShellConfig(content);
      var mapped := MapShellToTS(shell);
      WriteIfDifferent(mapped, tmp);
    }

    method WriteIfDifferent(mapped: Config, tmp: Path)
      requires Typed() && cfgPath != jsonPath && tmp !in {cfgPath, jsonPath}
      modifies this`memory, fs
      ensures At(fs.files, cfgPath) == At(old(fs.files), cfgPath)
      ensures fs.faults >= old(fs.faults)
      ensures fs.faults == old(fs.faults) ==>
                && DocOn(fs.files, jsonPath) == Synced(mapped, DocOn(old(fs.files), jsonPath))
                && (if NeedsWrite(mapped, DocOn(old(fs.files), jsonPath))
                    then memory == FieldsOf(DocOn(fs.files, jsonPath))
                    else fs.history == old(fs.history) && fs.files == old(fs.files) && memory == old(memory))
      ensures fs.faults > old(fs.faults) ==>
                At(fs.files, jsonPath) == At(old(fs.files), jsonPath)
                || DocOn(fs.files, jsonPath) == Some(Object(AsJson(mapped), map[]))
      ensures old(fs.history) <= fs.history
      ensures OldOrFinal(jsonPath, old(fs.files), fs.files, fs.history, |old(fs.history)|)
      ensures OldOrFinal(cfgPath, old(fs.files), fs.files, fs.history, |old(fs.history)|)
    {
      var doc := ReadDoc();
      if NeedsWrite(mapped, doc) {
        Replace(FieldsOf(doc) + AsJson(mapped), ExtraOf(doc), tmp);
        EmptyOverlay(mapped);
      }
    }

    lemma EmptyOverlay(mapped: Config)
      ensures FieldsOf(Some(Unparsable)) + AsJson(mapped) == AsJson(mapped)
    {
    }

    /** Writes the new document and, once it is on the disk, serves it. */
    method Replace(newJson: map<Field, JsonValue>, extra: map<string, nat>, tmp: Path)
      requires cfgPath != jsonPath && tmp !in {cfgPath, jsonPath}
      modifies this`memory, fs
      ensures At(fs.files, cfgPath) == At(old(fs.files), cfgPath)
      ensures fs.faults >= old(fs.faults)
      ensures fs.faults == old(fs.faults) ==>
                At(fs.files, jsonPath) == Some(JsonText(Object(newJson, extra))) && memory == newJson
      ensures fs.faults > old(fs.faults) ==>
                At(fs.files, jsonPath) == At(old(fs.files), jsonPath) && memory == old(memory)
      ensures old(fs.history) <= fs.history
      ensures OldOrFinal(jsonPath, old(fs.files), fs.files, fs.history, |old(fs.history)|)
      ensures OldOrFinal(cfgPath, old(fs.files), fs.files, fs.history, |old(fs.history)|)
    {
      var ok := WriteFileAtomic(jsonPath, tmp, JsonText(Object(newJson, extra)));
      if ok {
        memory := newJson;
      }
    }
  }
}
