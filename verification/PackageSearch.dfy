/**
 The package catalog fetches: concurrent callers of one key share one fetch, results are cached for six
 hours, failures for one minute. Callers, fetch completions and the clock interleave freely.
 */
module PackageSearch {
  import opened Text
  import opened InsertionMaps

  const SUCCESS_TTL_MS: nat := 6 * 60 * 60 * 1000
  const FAILURE_TTL_MS: nat := 60 * 1000
  const MAX_APT_CACHE_ENTRIES: nat := 8
  const MAX_FAILURE_ENTRIES: nat := 100

  /** The cache keys: two fixed catalogs, one apt index per distribution and release, one npm query each. */
  datatype Key = Pypi | Brew | Apt(distro: string, release: string) | Npm(query: string)

  /** A fetch is named by its position in the list of all fetches ever started. */
  type Id = nat
  type Data = nat

  datatype Entry = Entry(data: Data, fetchedAt: nat)
  datatype Failure = Failure(message: string, failedAt: nat)
  datatype Outcome = Fetched(data: Data) | Failed(message: string)

  /** `result` with its completion time once the fetcher has returned; `removed` after its finally callback. */
  datatype Fetch = Fetch(key: Key, startedAt: nat, result: Option<(Outcome, nat)>, removed: bool)

  /** What one caller got: cached data, a cached failure, or the promise of a fetch. */
  datatype Answer = Served(key: Key, data: Data, at: nat) | Refused(key: Key, message: string, at: nat) | Joined(key: Key, id: Id)

  datatype State = State(
    now: nat,
    plain: map<Key, Entry>,
    apt: InsertionMap<Key, Entry>,
    failures: InsertionMap<Key, Failure>,
    inFlight: map<Key, Id>,
    fetches: seq<Fetch>,
    answers: seq<Answer>)

  datatype Step = Get(key: Key) | Succeed(id: Id, data: Data) | Fail(id: Id, message: string) | Cleanup(id: Id) | Tick(ms: nat)

  const INITIAL: State := State(0, map[], InsertionMap([], map[]), InsertionMap([], map[]), map[], [], [])

  function Cached(s: State, key: Key): Option<Entry> {
    match key
    case Apt(_, _) => if key in s.apt.values then Some(s.apt.values[key]) else None
    case Npm(_) => None
    case _ => if key in s.plain then Some(s.plain[key]) else None
  }

  predicate IsFresh(s: State, key: Key) {
    Cached(s, key).Some? && s.now - Cached(s, key).value.fetchedAt < SUCCESS_TTL_MS
  }

  /** A failure of this key younger than a minute is on record. */
  predicate RecentlyFailed(s: State, key: Key) {
    key in s.failures.values && s.now - s.failures.values[key].failedAt < FAILURE_TTL_MS
  }

  ghost predicate MapsValid(s: State) { s.apt.Valid() && s.failures.Valid() }

  function Answered(s: State, a: Answer): State { s.(answers := s.answers + [a]) }

  /** dedupeInFlight: join the fetch under way, or start one. */
  function Dedupe(s: State, key: Key): State {
    if key in s.inFlight then Answered(s, Joined(key, s.inFlight[key]))
    else
      var id := |s.fetches|;
      Answered(s.(fetches := s.fetches + [Fetch(key, s.now, None, false)], inFlight := s.inFlight[key := id]), Joined(key, id))
  }

  /** One of the index getters, or a search on npm: cache, then recent failure, then fetch. */
  function ExecGet(s: State, key: Key): State
    requires MapsValid(s)
  {
    if IsFresh(s, key) then Answered(s, Served(key, Cached(s, key).value.data, s.now))
    else if RecentlyFailed(s, key) then Answered(s, Refused(key, s.failures.values[key].message, s.now))
    else Dedupe(if key in s.failures.values then s.(failures := s.failures.Delete(key)) else s, key)
  }

  predicate IsRunning(s: State, id: Id) { id < |s.fetches| && s.fetches[id].result.None? }

  function Complete(s: State, id: Id, outcome: Outcome): State
    requires id < |s.fetches|
  {
    s.(fetches := s.fetches[id := s.fetches[id].(result := Some((outcome, s.now)))])
  }

  function CachePut(s: State, key: Key, data: Data): State
    requires MapsValid(s)
  {
    var entry := Entry(data, s.now);
    match key
    case Apt(_, _) => s.(apt := s.apt.Set(key, entry).Evict(MAX_APT_CACHE_ENTRIES))
    case Npm(_) => s
    case _ => s.(plain := s.plain[key := entry])
  }

  function RecordFailure(s: State, key: Key, message: string): State
    requires MapsValid(s)
  {
    s.(failures := s.failures.Set(key, Failure(message, s.now)).Evict(MAX_FAILURE_ENTRIES))
  }

  /** One step; one that cannot happen changes nothing. */
  function Exec(s: State, step: Step): (t: State)
    requires MapsValid(s)
    ensures MapsValid(t)
  {
    match step
    case Get(key) => ExecGet(s, key)
    case Succeed(id, data) =>
      if IsRunning(s, id) then Complete(CachePut(s, s.fetches[id].key, data), id, Fetched(data)) else s
    case Fail(id, message) =>
      if IsRunning(s, id) then Complete(RecordFailure(s, s.fetches[id].key, message), id, Failed(message)) else s
    case Cleanup(id) =>
      if id < |s.fetches| && s.fetches[id].result.Some? && !s.fetches[id].removed
      then s.(inFlight := s.inFlight - {s.fetches[id].key}, fetches := s.fetches[id := s.fetches[id].(removed := true)])
      else s
    case Tick(ms) => s.(now := s.now + ms)
  }

  /** A run from any state. */
  function RunFrom(s: State, steps: seq<Step>): (t: State)
    requires MapsValid(s)
    ensures MapsValid(t)
  {
    if steps == [] then s else Exec(RunFrom(s, steps[..|steps| - 1]), steps[|steps| - 1])
  }

  function Run(steps: seq<Step>): (s: State)
    ensures MapsValid(s)
  {
    RunFrom(INITIAL, steps)
  }

  // ---------------------------------------------------------------- the invariant

  /** A fetch is registered under its key exactly until its finally callback has run. */
  predicate FlightInv(s: State) {
    && (forall key :: key in s.inFlight ==> s.inFlight[key] < |s.fetches|)
    && (forall key :: key in s.inFlight ==> s.fetches[s.inFlight[key]].key == key)
    && (forall id :: 0 <= id < |s.fetches| ==> FetchInv(s, id))
  }

  predicate FetchInv(s: State, id: Id)
    requires id < |s.fetches|
  {
    var f := s.fetches[id];
    && (f.removed <==> !(f.key in s.inFlight && s.inFlight[f.key] == id))
    && (f.removed ==> f.result.Some?)
  }

  /** Some completed fetch of the key produced this entry at the time it carries. */
  predicate Produced(s: State, key: Key, e: Entry) {
    exists id :: 0 <= id < |s.fetches| && s.fetches[id].key == key && s.fetches[id].result == Some((Fetched(e.data), e.fetchedAt))
  }

  predicate FailureProduced(s: State, key: Key, f: Failure) {
    exists id :: 0 <= id < |s.fetches| && s.fetches[id].key == key && s.fetches[id].result == Some((Failed(f.message), f.failedAt))
  }

  predicate CacheInv(s: State) {
    && (forall key :: key in s.plain ==> Produced(s, key, s.plain[key]))
    && (forall key :: key in s.apt.values ==> Produced(s, key, s.apt.values[key]))
    && (forall key :: key in s.failures.values ==> FailureProduced(s, key, s.failures.values[key]))
  }

  predicate SizeInv(s: State) {
    |s.apt.order| <= MAX_APT_CACHE_ENTRIES && |s.failures.order| <= MAX_FAILURE_ENTRIES
  }

  ghost predicate Inv(s: State) { MapsValid(s) && FlightInv(s) && CacheInv(s) && SizeInv(s) }

  lemma DedupeKeepsFlight(s: State, key: Key)
    requires FlightInv(s)
    ensures FlightInv(Dedupe(s, key))
  {
    var t := Dedupe(s, key);
    if key in s.inFlight { SameFlight(s, t); } else { StartKeepsFlight(s, t, key); }
  }

  lemma StartKeepsFlight(s: State, t: State, key: Key)
    requires FlightInv(s) && key !in s.inFlight
    requires t.fetches == s.fetches + [Fetch(key, s.now, None, false)] && t.inFlight == s.inFlight[key := |s.fetches|]
    ensures FlightInv(t)
  {
    forall id | 0 <= id < |t.fetches| ensures FetchInv(t, id) {
      if id < |s.fetches| { assert FetchInv(s, id); }
    }
  }

  lemma CompleteKeepsFlight(s: State, id: Id, outcome: Outcome)
    requires FlightInv(s) && id < |s.fetches|
    ensures FlightInv(Complete(s, id, outcome))
  {
    var t := Complete(s, id, outcome);
    forall i | 0 <= i < |t.fetches| ensures FetchInv(t, i) {
      assert FetchInv(s, i);
    }
  }

  lemma CleanupKeepsFlight(s: State, id: Id)
    requires MapsValid(s) && FlightInv(s)
    ensures FlightInv(Exec(s, Cleanup(id)))
  {
    var t := Exec(s, Cleanup(id));
    assert id < |s.fetches| ==> FetchInv(s, id);
    forall i | 0 <= i < |t.fetches| ensures FetchInv(t, i) {
      assert FetchInv(s, i);
    }
  }

  lemma StepKeepsFlight(s: State, step: Step)
    requires MapsValid(s) && FlightInv(s)
    ensures FlightInv(Exec(s, step))
  {
    match step
    case Get(key) => GetKeepsFlight(s, key);
    case Succeed(id, data) =>
      if IsRunning(s, id) { SameFlight(s, CachePut(s, s.fetches[id].key, data)); CompleteKeepsFlight(CachePut(s, s.fetches[id].key, data), id, Fetched(data)); }
    case Fail(id, message) =>
      if IsRunning(s, id) { SameFlight(s, RecordFailure(s, s.fetches[id].key, message)); CompleteKeepsFlight(RecordFailure(s, s.fetches[id].key, message), id, Failed(message)); }
    case Cleanup(id) => CleanupKeepsFlight(s, id);
    case Tick(_) => SameFlight(s, Exec(s, step));
  }

  lemma SameFlight(s: State, t: State)
    requires FlightInv(s) && t.inFlight == s.inFlight && t.fetches == s.fetches
    ensures FlightInv(t)
  {
    forall id | 0 <= id < |t.fetches| ensures FetchInv(t, id) {
      assert FetchInv(s, id);
    }
  }

  lemma GetKeepsFlight(s: State, key: Key)
    requires MapsValid(s) && FlightInv(s)
    ensures FlightInv(ExecGet(s, key))
  {
    if !IsFresh(s, key) && !RecentlyFailed(s, key) {
      var s1 := if key in s.failures.values then s.(failures := s.failures.Delete(key)) else s;
      SameFlight(s, s1);
      DedupeKeepsFlight(s1, key);
    } else {
      SameFlight(s, ExecGet(s, key));
    }
  }

  /** What a list of fetches keeps of one of its members while the fetches go on. */
  predicate Continues(before: seq<Fetch>, after: seq<Fetch>, id: Id) {
    && id < |before| && id < |after| && after[id].key == before[id].key
    && (before[id].result.Some? ==> after[id].result == before[id].result)
  }

  /** A getter starts at most one fetch, of a key that has none registered. */
  lemma GetStarts(s: State, key: Key)
    requires MapsValid(s)
    ensures var t := ExecGet(s, key);
      t.fetches == s.fetches || (key !in s.inFlight && t.fetches == s.fetches + [Fetch(key, s.now, None, false)])
  {
  }

  lemma PutsKeepFetches(s: State, key: Key, data: Data, message: string)
    requires MapsValid(s)
    ensures CachePut(s, key, data).fetches == s.fetches && RecordFailure(s, key, message).fetches == s.fetches
  {
  }

  /** A completed fetch stays as it is: everybody who joined it gets the one outcome. */
  lemma ResultsAreFinal(s: State, step: Step, id: Id)
    requires MapsValid(s) && id < |s.fetches|
    ensures Continues(s.fetches, Exec(s, step).fetches, id)
  {
    match step
    case Get(key) => GetStarts(s, key);
    case Succeed(done, data) => if IsRunning(s, done) { PutsKeepFetches(s, s.fetches[done].key, data, ""); }
    case Fail(done, message) => if IsRunning(s, done) { PutsKeepFetches(s, s.fetches[done].key, 0, message); }
    case Cleanup(_) =>
    case Tick(_) =>
  }

  lemma ProducedStays(s: State, step: Step, key: Key, e: Entry)
    requires MapsValid(s) && Produced(s, key, e)
    ensures Produced(Exec(s, step), key, e)
  {
    var id :| 0 <= id < |s.fetches| && s.fetches[id].key == key && s.fetches[id].result == Some((Fetched(e.data), e.fetchedAt));
    ResultsAreFinal(s, step, id);
  }

  lemma FailureStays(s: State, step: Step, key: Key, f: Failure)
    requires MapsValid(s) && FailureProduced(s, key, f)
    ensures FailureProduced(Exec(s, step), key, f)
  {
    var id :| 0 <= id < |s.fetches| && s.fetches[id].key == key && s.fetches[id].result == Some((Failed(f.message), f.failedAt));
    ResultsAreFinal(s, step, id);
  }

  predicate Kept(before: map<Key, Entry>, after: map<Key, Entry>, key: Key) {
    key in after ==> key in before && after[key] == before[key]
  }

  /** An entry is new only under the key being put. */
  predicate KeptOrNew(before: map<Key, Entry>, after: map<Key, Entry>, put: Key, entry: Entry, key: Key) {
    key in after && !Kept(before, after, key) ==> key == put && after[key] == entry
  }

  lemma CachePutAt(s: State, put: Key, data: Data, key: Key)
    requires MapsValid(s)
    ensures var t := CachePut(s, put, data);
      KeptOrNew(s.plain, t.plain, put, Entry(data, s.now), key) && KeptOrNew(s.apt.values, t.apt.values, put, Entry(data, s.now), key)
  {
    if put.Apt? { EvictAt(s.apt.Set(put, Entry(data, s.now)), MAX_APT_CACHE_ENTRIES, key); }
  }

  lemma CompleteProduces(s: State, id: Id, data: Data)
    requires id < |s.fetches|
    ensures Produced(Complete(s, id, Fetched(data)), s.fetches[id].key, Entry(data, s.now))
  {
    var t := Complete(s, id, Fetched(data));
    assert t.fetches[id].result == Some((Fetched(data), s.now));
  }

  lemma CompleteFails(s: State, id: Id, message: string)
    requires id < |s.fetches|
    ensures FailureProduced(Complete(s, id, Failed(message)), s.fetches[id].key, Failure(message, s.now))
  {
    var t := Complete(s, id, Failed(message));
    assert t.fetches[id].result == Some((Failed(message), s.now));
  }

  lemma CachePutKeepsRest(s: State, put: Key, data: Data)
    requires MapsValid(s)
    ensures CachePut(s, put, data) == s.(plain := CachePut(s, put, data).plain, apt := CachePut(s, put, data).apt)
  {
  }

  lemma GetKeepsCaches(s: State, key: Key)
    requires MapsValid(s)
    ensures ExecGet(s, key).plain == s.plain && ExecGet(s, key).apt == s.apt
  {
  }

  /** Where an entry of the caches after a step comes from. */
  lemma EntryOrigin(s: State, step: Step, key: Key)
    requires MapsValid(s)
    ensures var t := Exec(s, step);
      && (key in t.plain ==> Kept(s.plain, t.plain, key) || Produced(t, key, t.plain[key]))
      && (key in t.apt.values ==> Kept(s.apt.values, t.apt.values, key) || Produced(t, key, t.apt.values[key]))
  {
    match step
    case Get(k) => GetKeepsCaches(s, k);
    case Succeed(id, data) =>
      if IsRunning(s, id) {
        var s1 := CachePut(s, s.fetches[id].key, data);
        CachePutAt(s, s.fetches[id].key, data, key);
        CachePutKeepsRest(s, s.fetches[id].key, data);
        CompleteProduces(s1, id, data);
      }
    case Fail(id, message) =>
    case Cleanup(_) =>
    case Tick(_) =>
  }

  lemma RecordFailureAt(s: State, put: Key, message: string, key: Key)
    requires MapsValid(s)
    ensures var t := RecordFailure(s, put, message);
      key in t.failures.values ==>
        (key in s.failures.values && t.failures.values[key] == s.failures.values[key])
        || (key == put && t.failures.values[key] == Failure(message, s.now))
  {
    EvictAt(s.failures.Set(put, Failure(message, s.now)), MAX_FAILURE_ENTRIES, key);
  }

  lemma FailureOrigin(s: State, step: Step, key: Key)
    requires MapsValid(s)
    ensures var t := Exec(s, step);
      key in t.failures.values ==>
        (key in s.failures.values && t.failures.values[key] == s.failures.values[key])
        || FailureProduced(t, key, t.failures.values[key])
  {
    match step
    case Get(_) =>
    case Succeed(id, data) => if IsRunning(s, id) { CachePutKeepsRest(s, s.fetches[id].key, data); }
    case Fail(id, message) =>
      if IsRunning(s, id) {
        RecordFailureAt(s, s.fetches[id].key, message, key);
        CompleteFails(RecordFailure(s, s.fetches[id].key, message), id, message);
      }
    case Cleanup(_) =>
    case Tick(_) =>
  }

  lemma StepKeepsCache(s: State, step: Step)
    requires MapsValid(s) && CacheInv(s)
    ensures CacheInv(Exec(s, step))
  {
    var t := Exec(s, step);
    forall key | key in t.plain ensures Produced(t, key, t.plain[key]) {
      EntryOrigin(s, step, key);
      if key in s.plain { ProducedStays(s, step, key, s.plain[key]); }
    }
    forall key | key in t.apt.values ensures Produced(t, key, t.apt.values[key]) {
      EntryOrigin(s, step, key);
      if key in s.apt.values { ProducedStays(s, step, key, s.apt.values[key]); }
    }
    forall key | key in t.failures.values ensures FailureProduced(t, key, t.failures.values[key]) {
      FailureOrigin(s, step, key);
      if key in s.failures.values { FailureStays(s, step, key, s.failures.values[key]); }
    }
  }

  lemma GetKeepsSize(s: State, key: Key)
    requires MapsValid(s) && SizeInv(s)
    ensures SizeInv(ExecGet(s, key))
  {
  }

  lemma CachePutKeepsSize(s: State, put: Key, data: Data)
    requires MapsValid(s) && SizeInv(s)
    ensures SizeInv(CachePut(s, put, data))
  {
  }

  lemma RecordKeepsSize(s: State, put: Key, message: string)
    requires MapsValid(s) && SizeInv(s)
    ensures SizeInv(RecordFailure(s, put, message))
  {
  }

  lemma StepKeepsSize(s: State, step: Step)
    requires MapsValid(s) && SizeInv(s)
    ensures SizeInv(Exec(s, step))
  {
    match step
    case Get(key) => GetKeepsSize(s, key);
    case Succeed(id, data) => if IsRunning(s, id) { CachePutKeepsSize(s, s.fetches[id].key, data); }
    case Fail(id, message) => if IsRunning(s, id) { RecordKeepsSize(s, s.fetches[id].key, message); }
    case Cleanup(_) =>
    case Tick(_) =>
  }

  lemma StepKeepsInv(s: State, step: Step)
    requires Inv(s)
    ensures Inv(Exec(s, step))
  {
    StepKeepsFlight(s, step);
    StepKeepsCache(s, step);
    StepKeepsSize(s, step);
  }

  lemma {:induction false} RunKeepsInv(steps: seq<Step>)
    ensures Inv(Run(steps))
  {
    if steps == [] {
    } else {
      RunKeepsInv(steps[..|steps| - 1]);
      StepKeepsInv(Run(steps[..|steps| - 1]), steps[|steps| - 1]);
    }
  }

  // ---------------------------------------------------------------- what follows for every run

  /** Per key at most one fetch is under way. */
  lemma OneFetchPerKey(steps: seq<Step>, i: Id, j: Id)
    requires var s := Run(steps);
      i < |s.fetches| && j < |s.fetches| && s.fetches[i].key == s.fetches[j].key && !s.fetches[i].removed && !s.fetches[j].removed
    ensures i == j
  {
    RunKeepsInv(steps);
    assert FetchInv(Run(steps), i) && FetchInv(Run(steps), j);
  }

  /** Every answer out of a cache is what a completed fetch of that key returned less than six hours before. */
  lemma ServedIsFresh(steps: seq<Step>, key: Key) returns (id: Id)
    requires IsFresh(Run(steps), key)
    ensures var s := Run(steps);
      && ExecGet(s, key).answers == s.answers + [Served(key, Cached(s, key).value.data, s.now)]
      && ExecGet(s, key).fetches == s.fetches
      && id < |s.fetches| && s.fetches[id].key == key && s.fetches[id].result.Some?
      && s.fetches[id].result.value.0 == Fetched(Cached(s, key).value.data)
      && s.now - s.fetches[id].result.value.1 < SUCCESS_TTL_MS
  {
    var s := Run(steps);
    RunKeepsInv(steps);
    var e := Cached(s, key).value;
    assert Produced(s, key, e);
    id :| 0 <= id < |s.fetches| && s.fetches[id].key == key && s.fetches[id].result == Some((Fetched(e.data), e.fetchedAt));
  }

  /** A fetch of the key ended this way at most `ttl` before `at`. */
  predicate EndedWithin(s: State, key: Key, outcome: Outcome, at: nat, ttl: nat) {
    exists id :: 0 <= id < |s.fetches| && EndedSo(s.fetches[id], key, outcome, at, ttl)
  }

  predicate EndedSo(f: Fetch, key: Key, outcome: Outcome, at: nat, ttl: nat) {
    && f.key == key && f.result.Some? && f.result.value.0 == outcome
    && f.result.value.1 <= at < f.result.value.1 + ttl
  }

  /** What an answer already given rests on. */
  predicate Backed(s: State, a: Answer) {
    match a
    case Served(key, data, at) => EndedWithin(s, key, Fetched(data), at, SUCCESS_TTL_MS)
    case Refused(key, message, at) => EndedWithin(s, key, Failed(message), at, FAILURE_TTL_MS)
    case Joined(key, id) => id < |s.fetches| && s.fetches[id].key == key
  }

  predicate InThePast(s: State) {
    forall id :: 0 <= id < |s.fetches| && s.fetches[id].result.Some? ==> s.fetches[id].result.value.1 <= s.now
  }

  lemma StepKeepsPast(s: State, step: Step)
    requires MapsValid(s) && InThePast(s)
    ensures InThePast(Exec(s, step))
  {
    match step
    case Get(key) => GetStarts(s, key);
    case Succeed(id, data) => if IsRunning(s, id) { CachePutKeepsRest(s, s.fetches[id].key, data); }
    case Fail(_, _) =>
    case Cleanup(_) =>
    case Tick(_) =>
  }

  lemma BackedStays(s: State, step: Step, a: Answer)
    requires MapsValid(s) && Backed(s, a)
    ensures Backed(Exec(s, step), a)
  {
    match a
    case Served(key, data, at) => EndedStays(s, step, key, Fetched(data), at, SUCCESS_TTL_MS);
    case Refused(key, message, at) => EndedStays(s, step, key, Failed(message), at, FAILURE_TTL_MS);
    case Joined(_, id) => ResultsAreFinal(s, step, id);
  }

  lemma EndedStays(s: State, step: Step, key: Key, outcome: Outcome, at: nat, ttl: nat)
    requires MapsValid(s) && EndedWithin(s, key, outcome, at, ttl)
    ensures EndedWithin(Exec(s, step), key, outcome, at, ttl)
  {
    var id :| 0 <= id < |s.fetches| && EndedSo(s.fetches[id], key, outcome, at, ttl);
    ResultsAreFinal(s, step, id);
    assert EndedSo(Exec(s, step).fetches[id], key, outcome, at, ttl);
  }

  /** What a getter answers. */
  function AnswerTo(s: State, key: Key): Answer
    requires MapsValid(s)
  {
    if IsFresh(s, key) then Served(key, Cached(s, key).value.data, s.now)
    else if RecentlyFailed(s, key) then Refused(key, s.failures.values[key].message, s.now)
    else Joined(key, if key in s.inFlight then s.inFlight[key] else |s.fetches|)
  }

  lemma AnswersAfter(s: State, step: Step)
    requires MapsValid(s)
    ensures Exec(s, step).answers == s.answers + if step.Get? then [AnswerTo(s, step.key)] else []
  {
    match step
    case Get(_) =>
    case Succeed(id, data) => if IsRunning(s, id) { CachePutKeepsRest(s, s.fetches[id].key, data); }
    case Fail(_, _) =>
    case Cleanup(_) =>
    case Tick(_) =>
  }

  lemma FreshIsBacked(s: State, key: Key)
    requires CacheInv(s) && InThePast(s) && IsFresh(s, key)
    ensures EndedWithin(s, key, Fetched(Cached(s, key).value.data), s.now, SUCCESS_TTL_MS)
  {
    var e := Cached(s, key).value;
    assert Produced(s, key, e);
    var id :| 0 <= id < |s.fetches| && s.fetches[id].key == key && s.fetches[id].result == Some((Fetched(e.data), e.fetchedAt));
    assert EndedSo(s.fetches[id], key, Fetched(e.data), s.now, SUCCESS_TTL_MS);
  }

  lemma FailureIsBacked(s: State, key: Key)
    requires CacheInv(s) && InThePast(s) && RecentlyFailed(s, key)
    ensures EndedWithin(s, key, Failed(s.failures.values[key].message), s.now, FAILURE_TTL_MS)
  {
    var f := s.failures.values[key];
    var id :| 0 <= id < |s.fetches| && s.fetches[id].key == key && s.fetches[id].result == Some((Failed(f.message), f.failedAt));
    assert EndedSo(s.fetches[id], key, Failed(f.message), s.now, FAILURE_TTL_MS);
  }

  /** The answer a getter gives is backed at once. */
  lemma AnswerIsBacked(s: State, key: Key)
    requires Inv(s) && InThePast(s)
    ensures Backed(Exec(s, Get(key)), AnswerTo(s, key))
  {
    if IsFresh(s, key) {
      FreshIsBacked(s, key);
      BackedStays(s, Get(key), AnswerTo(s, key));
    } else if RecentlyFailed(s, key) {
      FailureIsBacked(s, key);
      BackedStays(s, Get(key), AnswerTo(s, key));
    } else {
      JoinedIsBacked(s, key);
    }
  }

  lemma JoinedIsBacked(s: State, key: Key)
    requires MapsValid(s) && FlightInv(s) && !IsFresh(s, key) && !RecentlyFailed(s, key)
    ensures Backed(ExecGet(s, key), AnswerTo(s, key))
  {
  }

  lemma {:induction false} ResultsAreInThePast(steps: seq<Step>)
    ensures InThePast(Run(steps))
  {
    if steps == [] {
    } else {
      ResultsAreInThePast(steps[..|steps| - 1]);
      StepKeepsPast(Run(steps[..|steps| - 1]), steps[|steps| - 1]);
    }
  }

  /**
   Over every run, whatever came after an answer: data served was fetched less than six hours before, a
   refusal repeats a failure younger than a minute, and a joined fetch is one of the key asked for.
   */
  lemma {:induction false} AnswersAreBacked(steps: seq<Step>, k: nat)
    requires k < |Run(steps).answers|
    ensures Backed(Run(steps), Run(steps).answers[k])
  {
    if steps == [] {
      assert false;
    } else {
      var init, step := steps[..|steps| - 1], steps[|steps| - 1];
      var s := Run(init);
      RunKeepsInv(init);
      ResultsAreInThePast(init);
      AnswersAfter(s, step);
      if k < |s.answers| {
        AnswersAreBacked(init, k);
        BackedStays(s, step, s.answers[k]);
      } else {
        AnswerIsBacked(s, step.key);
      }
    }
  }

  /**
   A fetch starts only for a key with no fresh cache entry, no failure younger than a minute and no
   fetch under way; a caller that finds one under way joins it.
   */
  lemma FetchStartsWhen(steps: seq<Step>, step: Step)
    ensures var s, t := Run(steps), Exec(Run(steps), step);
      if |t.fetches| == |s.fetches| then
        step.Get? && !IsFresh(s, step.key) && !RecentlyFailed(s, step.key) ==>
          step.key in s.inFlight && t.answers == s.answers + [Joined(step.key, s.inFlight[step.key])]
      else
        && step.Get? && !IsFresh(s, step.key) && !RecentlyFailed(s, step.key) && step.key !in s.inFlight
        && t.answers == s.answers + [Joined(step.key, |s.fetches|)] && t.fetches == s.fetches + [Fetch(step.key, s.now, None, false)]
  {
  }

  // ---- the time between two fetches of a key

  /** The step throws the cached index of this key out to make room. */
  predicate DropsEntry(s: State, step: Step, key: Key)
    requires MapsValid(s)
  {
    Cached(s, key).Some? && Cached(Exec(s, step), key).None?
  }

  /** The step throws the failure record of this key out to make room, as opposed to clearing an expired one. */
  predicate DropsFailure(s: State, step: Step, key: Key)
    requires MapsValid(s)
  {
    step.Fail? && key in s.failures.values && key !in Exec(s, step).failures.values
  }

  ghost predicate KeepsEntry(s: State, steps: seq<Step>, key: Key)
    requires MapsValid(s)
  {
    steps == [] || (KeepsEntry(s, steps[..|steps| - 1], key) && !DropsEntry(RunFrom(s, steps[..|steps| - 1]), steps[|steps| - 1], key))
  }

  ghost predicate KeepsFailure(s: State, steps: seq<Step>, key: Key)
    requires MapsValid(s)
  {
    steps == [] || (KeepsFailure(s, steps[..|steps| - 1], key) && !DropsFailure(RunFrom(s, steps[..|steps| - 1]), steps[|steps| - 1], key))
  }

  /** Every fetch of the key from number `n` on started at `at` or later. */
  predicate StartsFrom(fetches: seq<Fetch>, n: nat, key: Key, at: nat) {
    forall j :: n <= j < |fetches| && fetches[j].key == key ==> fetches[j].startedAt >= at
  }

  /** What a step does to the start times: at most it appends one fetch, of a key that nothing holds off. */
  lemma StepStarts(s: State, step: Step, n: nat, key: Key, at: nat)
    requires MapsValid(s) && n <= |s.fetches| && StartsFrom(s.fetches, n, key, at)
    requires step == Get(key) && !IsFresh(s, key) && !RecentlyFailed(s, key) ==> s.now >= at
    ensures n <= |Exec(s, step).fetches| && StartsFrom(Exec(s, step).fetches, n, key, at)
  {
    var t := Exec(s, step);
    forall j | n <= j < |t.fetches| && t.fetches[j].key == key ensures t.fetches[j].startedAt >= at {
      if j < |s.fetches| { StartIsFinal(s, step, j); }
    }
  }

  lemma StartIsFinal(s: State, step: Step, j: nat)
    requires MapsValid(s) && j < |s.fetches|
    ensures j < |Exec(s, step).fetches|
    ensures Exec(s, step).fetches[j].key == s.fetches[j].key && Exec(s, step).fetches[j].startedAt == s.fetches[j].startedAt
  {
    match step
    case Get(key) =>
    case Succeed(id, data) => if IsRunning(s, id) { CachePutKeepsRest(s, s.fetches[id].key, data); }
    case Fail(_, _) =>
    case Cleanup(_) =>
    case Tick(_) =>
  }

  /** The key is held off until `from` + the time to live: an entry that new is cached, or the time has come. */
  predicate HeldByEntry(s: State, key: Key, from: nat) {
    s.now >= from + SUCCESS_TTL_MS || (Cached(s, key).Some? && Cached(s, key).value.fetchedAt >= from)
  }

  predicate HeldByFailure(s: State, key: Key, from: nat) {
    s.now >= from + FAILURE_TTL_MS || (key in s.failures.values && s.failures.values[key].failedAt >= from)
  }

  lemma CachedAfterPut(s: State, put: Key, data: Data, key: Key)
    requires MapsValid(s)
    ensures var e := Cached(CachePut(s, put, data), key);
      e.Some? ==> e == Cached(s, key) || e == Some(Entry(data, s.now))
  {
    CachePutAt(s, put, data, key);
  }

  lemma StepHoldsEntry(s: State, step: Step, key: Key, from: nat)
    requires MapsValid(s) && from <= s.now && HeldByEntry(s, key, from) && !DropsEntry(s, step, key)
    ensures HeldByEntry(Exec(s, step), key, from) && from <= Exec(s, step).now
  {
    match step
    case Get(k) => GetKeepsCaches(s, k);
    case Succeed(id, data) =>
      if IsRunning(s, id) {
        CachedAfterPut(s, s.fetches[id].key, data, key);
        CachePutKeepsRest(s, s.fetches[id].key, data);
      }
    case Fail(_, _) =>
    case Cleanup(_) =>
    case Tick(_) =>
  }

  lemma StepHoldsFailure(s: State, step: Step, key: Key, from: nat)
    requires MapsValid(s) && from <= s.now && HeldByFailure(s, key, from) && !DropsFailure(s, step, key)
    ensures HeldByFailure(Exec(s, step), key, from) && from <= Exec(s, step).now
  {
    match step
    case Get(_) =>
    case Succeed(id, data) => if IsRunning(s, id) { CachePutKeepsRest(s, s.fetches[id].key, data); }
    case Fail(id, message) => if IsRunning(s, id) { RecordFailureAt(s, s.fetches[id].key, message, key); }
    case Cleanup(_) =>
    case Tick(_) =>
  }

  /** While an entry is not thrown out, no fetch of its key starts within six hours of the one that made it. */
  lemma {:induction false} EntryHoldsOff(s: State, steps: seq<Step>, key: Key)
    requires MapsValid(s) && Cached(s, key).Some? && Cached(s, key).value.fetchedAt <= s.now && KeepsEntry(s, steps, key)
    ensures var from := Cached(s, key).value.fetchedAt;
      var t := RunFrom(s, steps);
      && from <= t.now && HeldByEntry(t, key, from)
      && |s.fetches| <= |t.fetches| && StartsFrom(t.fetches, |s.fetches|, key, from + SUCCESS_TTL_MS)
  {
    var from := Cached(s, key).value.fetchedAt;
    if steps == [] {
    } else {
      var init, step := steps[..|steps| - 1], steps[|steps| - 1];
      EntryHoldsOff(s, init, key);
      StepHoldsEntry(RunFrom(s, init), step, key, from);
      StepStarts(RunFrom(s, init), step, |s.fetches|, key, from + SUCCESS_TTL_MS);
    }
  }

  /** While a failure record is not thrown out, no fetch of its key starts within a minute of the failure. */
  lemma {:induction false} FailureHoldsOff(s: State, steps: seq<Step>, key: Key)
    requires MapsValid(s) && key in s.failures.values && s.failures.values[key].failedAt <= s.now && KeepsFailure(s, steps, key)
    ensures var from := s.failures.values[key].failedAt;
      var t := RunFrom(s, steps);
      && from <= t.now && HeldByFailure(t, key, from)
      && |s.fetches| <= |t.fetches| && StartsFrom(t.fetches, |s.fetches|, key, from + FAILURE_TTL_MS)
  {
    var from := s.failures.values[key].failedAt;
    if steps == [] {
    } else {
      var init, step := steps[..|steps| - 1], steps[|steps| - 1];
      FailureHoldsOff(s, init, key);
      StepHoldsFailure(RunFrom(s, init), step, key, from);
      StepStarts(RunFrom(s, init), step, |s.fetches|, key, from + FAILURE_TTL_MS);
    }
  }

  /** The two fixed catalogs are never thrown out. */
  predicate IsFixed(key: Key) { key.Pypi? || key.Brew? }

  lemma FixedIsKept(s: State, step: Step, key: Key)
    requires MapsValid(s) && IsFixed(key)
    ensures !DropsEntry(s, step, key)
  {
    match step
    case Get(k) => GetKeepsCaches(s, k);
    case _ =>
  }

  lemma {:induction false} FixedKeepsEntry(s: State, steps: seq<Step>, key: Key)
    requires MapsValid(s) && IsFixed(key)
    ensures KeepsEntry(s, steps, key)
  {
    if steps == [] {
    } else {
      FixedKeepsEntry(s, steps[..|steps| - 1], key);
      FixedIsKept(RunFrom(s, steps[..|steps| - 1]), steps[|steps| - 1], key);
    }
  }

  /** A fetch that is not the last of its key has completed, and its finally callback has run. */
  lemma {:induction false} EarlierIsRemoved(steps: seq<Step>, i: Id, j: Id)
    requires var s := Run(steps); i < j < |s.fetches| && s.fetches[i].key == s.fetches[j].key
    ensures Run(steps).fetches[i].removed
  {
    if steps == [] {
      assert false;
    } else {
      var init, step := steps[..|steps| - 1], steps[|steps| - 1];
      var s := Run(init);
      RunKeepsInv(init);
      StepKeepsRemoved(s, step, i, j);
      if j < |s.fetches| { EarlierIsRemoved(init, i, j); }
    }
  }

  lemma StepKeepsRemoved(s: State, step: Step, i: Id, j: Id)
    requires Inv(s) && i < j < |Exec(s, step).fetches| && Exec(s, step).fetches[i].key == Exec(s, step).fetches[j].key
    ensures i < |s.fetches|
    ensures if j < |s.fetches| then s.fetches[i].key == s.fetches[j].key && (s.fetches[i].removed ==> Exec(s, step).fetches[i].removed)
            else Exec(s, step).fetches[i].removed
  {
    OneMore(s, step);
    assert FetchInv(s, i);
    StartIsFinal(s, step, i);
    RemovedStays(s, step, i);
    if j < |s.fetches| { StartIsFinal(s, step, j); }
  }

  lemma OneMore(s: State, step: Step)
    requires MapsValid(s)
    ensures var t := Exec(s, step);
      |t.fetches| == |s.fetches|
      || (step.Get? && step.key !in s.inFlight && |t.fetches| == |s.fetches| + 1 && t.fetches[|s.fetches|].key == step.key)
  {
    match step
    case Get(key) => GetStarts(s, key);
    case Succeed(id, data) => if IsRunning(s, id) { PutsKeepFetches(s, s.fetches[id].key, data, ""); }
    case Fail(id, message) => if IsRunning(s, id) { PutsKeepFetches(s, s.fetches[id].key, 0, message); }
    case Cleanup(_) =>
    case Tick(_) =>
  }

  /** A fetch that is still running is the last of its key. */
  lemma RunningIsLast(steps: seq<Step>, i: Id, j: Id)
    requires IsRunning(Run(steps), i) && i < j < |Run(steps).fetches|
    ensures Run(steps).fetches[i].key != Run(steps).fetches[j].key
  {
    RunKeepsInv(steps);
    assert FetchInv(Run(steps), i);
    if Run(steps).fetches[i].key == Run(steps).fetches[j].key { EarlierIsRemoved(steps, i, j); }
  }

  lemma RemovedStays(s: State, step: Step, i: Id)
    requires MapsValid(s) && i < |s.fetches| && i < |Exec(s, step).fetches|
    ensures s.fetches[i].removed ==> Exec(s, step).fetches[i].removed
  {
    match step
    case Get(_) =>
    case Succeed(id, data) => if IsRunning(s, id) { CachePutKeepsRest(s, s.fetches[id].key, data); }
    case Fail(_, _) =>
    case Cleanup(_) =>
    case Tick(_) =>
  }

  lemma LaterOnly(fetches: seq<Fetch>, n: nat, i: Id, key: Key, at: nat)
    requires i < n <= |fetches| && StartsFrom(fetches, n, key, at)
    requires forall j :: i < j < n ==> fetches[j].key != key
    ensures StartsFrom(fetches, i + 1, key, at)
  {
  }

  lemma {:induction false} KeysAreFinal(s: State, steps: seq<Step>, j: nat)
    requires MapsValid(s) && j < |s.fetches|
    ensures j < |RunFrom(s, steps).fetches| && RunFrom(s, steps).fetches[j].key == s.fetches[j].key
  {
    if steps == [] {
    } else {
      KeysAreFinal(s, steps[..|steps| - 1], j);
      StartIsFinal(RunFrom(s, steps[..|steps| - 1]), steps[|steps| - 1], j);
    }
  }

  /** Over every run: after a failed fetch no other of its key starts within a minute, unless its record was thrown out. */
  lemma FailedFetchHoldsOff(before: seq<Step>, i: Id, message: string, after: seq<Step>)
    requires IsRunning(Run(before), i)
    requires KeepsFailure(Exec(Run(before), Fail(i, message)), after, Run(before).fetches[i].key)
    ensures var s := Run(before);
      StartsFrom(RunFrom(Exec(s, Fail(i, message)), after).fetches, i + 1, s.fetches[i].key, s.now + FAILURE_TTL_MS)
  {
    var s, t := Run(before), Exec(Run(before), Fail(i, message));
    var key := s.fetches[i].key;
    var n := |s.fetches|;
    RecordedFailureSurvives(before, i, message);
    OneMore(s, Fail(i, message));
    FailureHoldsOff(t, after, key);
    forall j | i < j < n ensures RunFrom(t, after).fetches[j].key != key {
      RunningIsLast(before, i, j);
      StartIsFinal(s, Fail(i, message), j);
      KeysAreFinal(t, after, j);
    }
    LaterOnly(RunFrom(t, after).fetches, n, i, key, s.now + FAILURE_TTL_MS);
  }

  /** ... and after a successful fetch of an apt index none within six hours, unless the index was thrown out. */
  lemma FetchedIndexHoldsOff(before: seq<Step>, i: Id, data: Data, after: seq<Step>)
    requires IsRunning(Run(before), i) && Run(before).fetches[i].key.Apt?
    requires KeepsEntry(Exec(Run(before), Succeed(i, data)), after, Run(before).fetches[i].key)
    ensures var s := Run(before);
      StartsFrom(RunFrom(Exec(s, Succeed(i, data)), after).fetches, i + 1, s.fetches[i].key, s.now + SUCCESS_TTL_MS)
  {
    var s, t := Run(before), Exec(Run(before), Succeed(i, data));
    var key := s.fetches[i].key;
    var n := |s.fetches|;
    FetchedIndexSurvives(before, i, data);
    OneMore(s, Succeed(i, data));
    CachePutKeepsRest(s, key, data);
    EntryHoldsOff(t, after, key);
    forall j | i < j < n ensures RunFrom(t, after).fetches[j].key != key {
      RunningIsLast(before, i, j);
      StartIsFinal(s, Succeed(i, data), j);
      KeysAreFinal(t, after, j);
    }
    LaterOnly(RunFrom(t, after).fetches, n, i, key, s.now + SUCCESS_TTL_MS);
  }

  /** The fetch's data is in the cache of a fixed catalog, or newer data is. */
  predicate Superseded(s: State, key: Key, from: nat) {
    from <= s.now && Cached(s, key).Some? && Cached(s, key).value.fetchedAt >= from
  }

  /** Over every run: two fetches of PyPI or Homebrew, the first successful, are six hours apart. */
  lemma {:induction false} CatalogFetchesAreSpaced(steps: seq<Step>, i: Id, data: Data, at: nat)
    requires var s := Run(steps); i < |s.fetches| && IsFixed(s.fetches[i].key) && s.fetches[i].result == Some((Fetched(data), at))
    ensures var s := Run(steps); Superseded(s, s.fetches[i].key, at)
    ensures var s := Run(steps); StartsFrom(s.fetches, i + 1, s.fetches[i].key, at + SUCCESS_TTL_MS)
  {
    var init, step := steps[..|steps| - 1], steps[|steps| - 1];
    var s, t := Run(init), Exec(Run(init), step);
    if i < |s.fetches| && s.fetches[i].result.Some? {
      ResultsAreFinal(s, step, i);
      CatalogFetchesAreSpaced(init, i, data, at);
      FixedIsKept(s, step, s.fetches[i].key);
      StepSupersedes(s, step, s.fetches[i].key, at);
      StepStarts(s, step, i + 1, s.fetches[i].key, at + SUCCESS_TTL_MS);
    } else {
      JustCompleted(s, step, i, data, at);
      forall j | i + 1 <= j < |t.fetches| ensures t.fetches[j].key != t.fetches[i].key {
        RunningIsLast(init, i, j);
      }
    }
  }

  lemma StepSupersedes(s: State, step: Step, key: Key, from: nat)
    requires MapsValid(s) && Superseded(s, key, from) && !DropsEntry(s, step, key)
    ensures Superseded(Exec(s, step), key, from)
  {
    match step
    case Get(k) => GetKeepsCaches(s, k);
    case Succeed(id, data) =>
      if IsRunning(s, id) {
        CachedAfterPut(s, s.fetches[id].key, data, key);
        CachePutKeepsRest(s, s.fetches[id].key, data);
      }
    case Fail(_, _) =>
    case Cleanup(_) =>
    case Tick(_) =>
  }

  /** A fetch that has a result only since this step completed in it, and no fetch started. */
  lemma JustCompleted(s: State, step: Step, i: Id, data: Data, at: nat)
    requires MapsValid(s)
    requires var t := Exec(s, step); i < |t.fetches| && t.fetches[i].result == Some((Fetched(data), at)) && IsFixed(t.fetches[i].key)
    requires i < |s.fetches| ==> s.fetches[i].result.None?
    ensures step == Succeed(i, data) && IsRunning(s, i) && at == s.now
    ensures var t := Exec(s, step);
      |t.fetches| == |s.fetches| && t.fetches[i].key == s.fetches[i].key && Superseded(t, t.fetches[i].key, at)
      && forall j :: 0 <= j < |t.fetches| ==> t.fetches[j].key == s.fetches[j].key
  {
    match step
    case Get(_) =>
    case Succeed(id, d) => if IsRunning(s, id) { CachePutKeepsRest(s, s.fetches[id].key, d); }
    case Fail(_, _) =>
    case Cleanup(_) =>
    case Tick(_) =>
  }

  /** The bounds on the two evicting maps hold at every moment. */
  lemma SizesAreBounded(steps: seq<Step>)
    ensures |Run(steps).apt.order| <= MAX_APT_CACHE_ENTRIES && |Run(steps).failures.order| <= MAX_FAILURE_ENTRIES
  {
    RunKeepsInv(steps);
  }

  /** The index just fetched is still cached after the eviction. */
  lemma FetchedIndexSurvives(steps: seq<Step>, id: Id, data: Data)
    requires IsRunning(Run(steps), id) && Run(steps).fetches[id].key.Apt?
    ensures var s, t := Run(steps), Exec(Run(steps), Succeed(id, data));
      var key := s.fetches[id].key;
      key in t.apt.values && t.apt.values[key] == Entry(data, s.now)
  {
    var s := Run(steps);
    SizesAreBounded(steps);
    LastSetSurvives(s.apt, s.fetches[id].key, Entry(data, s.now), MAX_APT_CACHE_ENTRIES);
  }

  /** The failure just recorded is still on record after the eviction. */
  lemma RecordedFailureSurvives(steps: seq<Step>, id: Id, message: string)
    requires IsRunning(Run(steps), id)
    ensures var s, t := Run(steps), Exec(Run(steps), Fail(id, message));
      var key := s.fetches[id].key;
      key in t.failures.values && t.failures.values[key] == Failure(message, s.now)
  {
    var s := Run(steps);
    SizesAreBounded(steps);
    LastSetSurvives(s.failures, s.fetches[id].key, Failure(message, s.now), MAX_FAILURE_ENTRIES);
  }

  // ---- what one fetch leads to

  /** The finally callback takes its own key out of the table, and leaves every other key and all else alone. */
  lemma CleanupUnregisters(steps: seq<Step>, id: Id)
    requires var s := Run(steps); id < |s.fetches| && s.fetches[id].result.Some? && !s.fetches[id].removed
    ensures var s, t := Run(steps), Exec(Run(steps), Cleanup(id));
      var key := s.fetches[id].key;
      && key !in t.inFlight
      && (forall k :: k != key ==> (k in t.inFlight <==> k in s.inFlight))
      && (forall k :: k != key && k in s.inFlight ==> t.inFlight[k] == s.inFlight[k])
      && t.now == s.now && t.plain == s.plain && t.apt == s.apt && t.failures == s.failures && t.answers == s.answers
      && |t.fetches| == |s.fetches|
  {
  }

  /** Answer and fetches after a call of a getter that starts a fetch. */
  predicate StartsFetch(s: State, t: State, key: Key) {
    && t.fetches == s.fetches + [Fetch(key, s.now, None, false)]
    && t.answers == s.answers + [Joined(key, |s.fetches|)]
  }

  /** A getter that answers on the spot. */
  predicate AnswersAtOnce(s: State, t: State, a: Answer) {
    t.answers == s.answers + [a] && t.fetches == s.fetches && t.inFlight == s.inFlight
  }

  lemma StartsOrJoins(s: State, key: Key)
    requires MapsValid(s) && !IsFresh(s, key) && !RecentlyFailed(s, key)
    ensures key !in s.inFlight ==> StartsFetch(s, ExecGet(s, key), key)
    ensures key in s.inFlight ==> AnswersAtOnce(s, ExecGet(s, key), Joined(key, s.inFlight[key]))
  {
  }

  /** While a fetch is running every caller of its key that is not answered otherwise joins it. */
  lemma CallersJoin(steps: seq<Step>, id: Id)
    requires var s := Run(steps);
      IsRunning(s, id) && !IsFresh(s, s.fetches[id].key) && !RecentlyFailed(s, s.fetches[id].key)
    ensures var s := Run(steps); AnswersAtOnce(s, Exec(s, Get(s.fetches[id].key)), Joined(s.fetches[id].key, id))
  {
    RunKeepsInv(steps);
    assert FetchInv(Run(steps), id);
    StartsOrJoins(Run(steps), Run(steps).fetches[id].key);
  }

  /** The state `ms` after a fetch ended and its finally callback ran. */
  function AfterEnd(s: State, end: Step, id: Id, ms: nat): (t: State)
    requires MapsValid(s)
    ensures MapsValid(t)
  {
    Exec(Exec(Exec(s, end), Cleanup(id)), Tick(ms))
  }

  /** A failed fetch is not repeated for a minute, in which its message is the answer; after that the next caller fetches again. */
  lemma FailedFetchIsRetried(steps: seq<Step>, id: Id, message: string, ms: nat)
    requires var s := Run(steps); IsRunning(s, id) && !IsFresh(s, s.fetches[id].key)
    ensures var key := Run(steps).fetches[id].key;
      var t := AfterEnd(Run(steps), Fail(id, message), id, ms);
      if ms < FAILURE_TTL_MS then AnswersAtOnce(t, Exec(t, Get(key)), Refused(key, message, t.now))
      else StartsFetch(t, Exec(t, Get(key)), key)
  {
    var s := Run(steps);
    var key := s.fetches[id].key;
    var s1 := Exec(s, Fail(id, message));
    RecordedFailureSurvives(steps, id, message);
    RunKeepsInv(steps);
    assert FetchInv(s, id);
    FailKeepsRest(s, id, message);
    var t := AfterEnd(s, Fail(id, message), id, ms);
    AfterCleanup(s1, id, ms);
    assert Cached(t, key) == Cached(s, key);
    if ms >= FAILURE_TTL_MS { StartsOrJoins(t, key); }
  }

  lemma FailKeepsRest(s: State, id: Id, message: string)
    requires MapsValid(s) && IsRunning(s, id)
    ensures var t := Exec(s, Fail(id, message));
      && t.plain == s.plain && t.apt == s.apt && t.now == s.now && t.inFlight == s.inFlight && t.answers == s.answers
      && |t.fetches| == |s.fetches| && t.fetches[id] == s.fetches[id].(result := Some((Failed(message), s.now)))
  {
  }

  lemma SucceedKeepsRest(s: State, id: Id, data: Data)
    requires MapsValid(s) && IsRunning(s, id)
    ensures var t := Exec(s, Succeed(id, data));
      && t.failures == s.failures && t.now == s.now && t.inFlight == s.inFlight && t.answers == s.answers
      && |t.fetches| == |s.fetches| && t.fetches[id] == s.fetches[id].(result := Some((Fetched(data), s.now)))
  {
    CachePutKeepsRest(s, s.fetches[id].key, data);
  }

  lemma AfterCleanup(s: State, id: Id, ms: nat)
    requires MapsValid(s) && id < |s.fetches| && s.fetches[id].result.Some? && !s.fetches[id].removed
    ensures var t := Exec(Exec(s, Cleanup(id)), Tick(ms));
      && t.inFlight == s.inFlight - {s.fetches[id].key} && t.now == s.now + ms
      && t.plain == s.plain && t.apt == s.apt && t.failures == s.failures && t.answers == s.answers
  {
  }

  lemma SuccessIsCached(steps: seq<Step>, id: Id, data: Data)
    requires var s := Run(steps); IsRunning(s, id) && !s.fetches[id].key.Npm?
    ensures var s := Run(steps); Cached(Exec(s, Succeed(id, data)), s.fetches[id].key) == Some(Entry(data, s.now))
  {
    if Run(steps).fetches[id].key.Apt? { FetchedIndexSurvives(steps, id, data); }
  }

  /** No failure on record is from the future. */
  lemma FailuresAreInThePast(steps: seq<Step>, key: Key)
    requires key in Run(steps).failures.values
    ensures Run(steps).failures.values[key].failedAt <= Run(steps).now
  {
    var s := Run(steps);
    RunKeepsInv(steps);
    ResultsAreInThePast(steps);
    var f := s.failures.values[key];
    assert FailureProduced(s, key, f);
    var i :| 0 <= i < |s.fetches| && s.fetches[i].key == key && s.fetches[i].result == Some((Failed(f.message), f.failedAt));
  }

  /** A fetched catalog is served for six hours; after that the next caller fetches again. */
  lemma FetchedCatalogIsServed(steps: seq<Step>, id: Id, data: Data, ms: nat)
    requires var s := Run(steps); IsRunning(s, id) && !s.fetches[id].key.Npm?
    ensures var key := Run(steps).fetches[id].key;
      var t := AfterEnd(Run(steps), Succeed(id, data), id, ms);
      if ms < SUCCESS_TTL_MS then AnswersAtOnce(t, Exec(t, Get(key)), Served(key, data, t.now))
      else StartsFetch(t, Exec(t, Get(key)), key)
  {
    var s := Run(steps);
    var key := s.fetches[id].key;
    SuccessIsCached(steps, id, data);
    RunKeepsInv(steps);
    assert FetchInv(s, id);
    SucceedKeepsRest(s, id, data);
    var s1, t := Exec(s, Succeed(id, data)), AfterEnd(s, Succeed(id, data), id, ms);
    AfterCleanup(s1, id, ms);
    assert Cached(t, key) == Cached(s1, key);
    if ms >= SUCCESS_TTL_MS {
      if key in s.failures.values { FailuresAreInThePast(steps, key); }
      StartsOrJoins(t, key);
    }
  }

  /** What a search on npm found is kept by nobody: the next caller fetches again. */
  lemma SearchIsRepeated(steps: seq<Step>, id: Id, data: Data)
    requires var s := Run(steps); IsRunning(s, id) && s.fetches[id].key.Npm? && !RecentlyFailed(s, s.fetches[id].key)
    ensures var key := Run(steps).fetches[id].key;
      var t := AfterEnd(Run(steps), Succeed(id, data), id, 0);
      StartsFetch(t, Exec(t, Get(key)), key)
  {
    var s := Run(steps);
    RunKeepsInv(steps);
    assert FetchInv(s, id);
    SucceedKeepsRest(s, id, data);
    AfterCleanup(Exec(s, Succeed(id, data)), id, 0);
    StartsOrJoins(AfterEnd(s, Succeed(id, data), id, 0), s.fetches[id].key);
  }

  // ---------------------------------------------------------------- the service

  class PackageSearchService {
    var now: nat
    var plain: map<Key, Entry>
    var apt: InsertionMap<Key, Entry>
    var failures: InsertionMap<Key, Failure>
    var inFlight: map<Key, Id>
    ghost var fetches: seq<Fetch>
    ghost var answers: seq<Answer>
    /** The number of fetches started: the name of the next one. */
    var started: nat

    ghost function Abstract(): State
      reads this
    {
      State(now, plain, apt, failures, inFlight, fetches, answers)
    }

    ghost predicate Valid()
      reads this
    {
      MapsValid(Abstract()) && started == |fetches|
    }

    constructor ()
      ensures Valid() && Abstract() == INITIAL
    {
      now, plain, inFlight, started := 0, map[], map[], 0;
      apt, failures := InsertionMap([], map[]), InsertionMap([], map[]);
      fetches, answers := [], [];
    }

    /** checkRecentFailure: drops an expired record; reports a recent one. */
    method CheckRecentFailure(key: Key) returns (recent: Option<string>)
      requires Valid()
      modifies this`failures
      ensures Valid() && recent.Some? == RecentlyFailed(old(Abstract()), key)
      ensures recent.Some? ==> recent.value == old(failures).values[key].message && failures == old(failures)
      ensures recent.None? ==> failures == if key in old(failures).values then old(failures).Delete(key) else old(failures)
    {
      recent := None;
      if key in failures.values {
        var failure := failures.values[key];
        if now - failure.failedAt >= FAILURE_TTL_MS {
          failures := failures.Delete(key);
        }
        if now - failure.failedAt < FAILURE_TTL_MS {
          recent := Some(failure.message);
        }
      }
    }

    /** The eviction loop behind both maps. */
    method EvictOldest<V>(m: InsertionMap<Key, V>, max: nat) returns (r: InsertionMap<Key, V>)
      requires m.Valid()
      ensures r == m.Evict(max)
    {
      r := m;
      while |r.order| > max
        invariant r.Valid() && r.Evict(max) == m.Evict(max)
        decreases |r.order|
      {
        r := r.DeleteOldest();
      }
    }

    /** The synchronous part of an index getter: cache, recent failure, shared fetch. */
    method GetIndex(key: Key) returns (answer: Answer)
      requires Valid()
      modifies this
      ensures Valid() && Abstract() == Exec(old(Abstract()), Get(key))
      ensures answers == old(answers) + [answer]
    {
      var cached := match key
        case Apt(_, _) => if key in apt.values then Some(apt.values[key]) else None
        case Npm(_) => None
        case _ => if key in plain then Some(plain[key]) else None;
      if cached.Some? && now - cached.value.fetchedAt < SUCCESS_TTL_MS {
        answer := Served(key, cached.value.data, now);
      } else {
        var recent := CheckRecentFailure(key);
        if recent.Some? {
          answer := Refused(key, recent.value, now);
        } else {
          var id := DedupeInFlight(key);
          answer := Joined(key, id);
        }
      }
      answers := answers + [answer];
    }

    /** dedupeInFlight. */
    method DedupeInFlight(key: Key) returns (id: Id)
      requires Valid()
      modifies this`inFlight, this`fetches, this`started
      ensures Valid()
      ensures Answered(Abstract(), Joined(key, id)) == Dedupe(old(Abstract()), key)
    {
      if key in inFlight {
        return inFlight[key];
      }
      id := started;
      started := started + 1;
      inFlight := inFlight[key := id];
      fetches := fetches + [Fetch(key, now, None, false)];
    }

    /** The fetcher returns: the entry goes into its cache, which is then trimmed. */
    method OnFetched(id: Id, key: Key, data: Data)
      requires Valid() && IsRunning(Abstract(), id) && fetches[id].key == key
      modifies this
      ensures Valid() && Abstract() == Exec(old(Abstract()), Succeed(id, data))
    {
      match key {
        case Apt(_, _) =>
          var grown := apt.Set(key, Entry(data, now));
          apt := EvictOldest(grown, MAX_APT_CACHE_ENTRIES);
        case Npm(_) =>
        case _ =>
          plain := plain[key := Entry(data, now)];
      }
      fetches := fetches[id := fetches[id].(result := Some((Fetched(data), now)))];
    }

    /** The fetcher throws: recordFailure, with its own trimming loop. */
    method OnFailed(id: Id, key: Key, message: string)
      requires Valid() && IsRunning(Abstract(), id) && fetches[id].key == key
      modifies this
      ensures Valid() && Abstract() == Exec(old(Abstract()), Fail(id, message))
    {
      var grown := failures.Set(key, Failure(message, now));
      failures := EvictOldest(grown, MAX_FAILURE_ENTRIES);
      fetches := fetches[id := fetches[id].(result := Some((Failed(message), now)))];
    }

    /** The finally callback of the shared promise. */
    method OnFinally(id: Id, key: Key)
      requires Valid() && id < |fetches| && fetches[id].key == key && fetches[id].result.Some? && !fetches[id].removed
      modifies this
      ensures Valid() && Abstract() == Exec(old(Abstract()), Cleanup(id))
    {
      inFlight := inFlight - {key};
      fetches := fetches[id := fetches[id].(removed := true)];
    }
  }
}
