/**
 The conversation timeline of the app-server client. Notifications, answered approval requests and
 messages typed by the user all edit one list of entries, each found by its id.
 */
module Timeline {
  import opened Text

  /** The item types the client tells apart. */
  datatype Kind = UserMessage | ApprovalResolution | Other(name: string)

  /** One element of an item's `content`: a bare string, a text part, or any other object. */
  datatype Part = Words(words: string) | TextPart(text: Option<string>) | OtherPart

  /** The parts of an item the client reads or writes; None is an absent field. */
  datatype Item = Item(
    kind: Kind,
    text: Option<string>,
    summary: Option<seq<string>>,
    content: Option<seq<Part>>,
    output: Option<string>,
    changes: Option<string>,
    status: Option<string>,
    exitCode: Option<int>,
    approvalItemId: Option<string>,
    decision: Option<string>,
    approved: bool,
    session: bool,
    commandStatus: Option<string>)

  datatype Entry = Entry(id: string, turnId: string, item: Item, startedAt: Option<int>, completedAt: Option<int>, progress: Option<string>)

  /** A server request, with its id already turned into text. */
  datatype Request = Request(id: string, approval: bool, turnId: Option<string>, itemId: Option<string>, startedAt: Option<int>)

  datatype Event =
    | Started(id: string, turnId: string, item: Item, startedAt: Option<int>)
    | Completed(id: string, item: Item, completedAt: Option<int>)
    | TextDelta(id: string, delta: Option<string>)
    | SummaryDelta(id: string, delta: Option<string>)
    | SummaryPartAdded(id: string)
    | ReasoningDelta(id: string, delta: Option<string>)
    | OutputDelta(itemId: Option<string>, processId: Option<string>, delta: Option<string>)
    | PatchUpdated(id: string, changes: Option<string>)
    | Progress(id: string, message: Option<string>)
    | Resolve(request: Request, decision: Option<string>, now: int)
    | Send(uuid: string, typed: string, now: int)

  // ---------------------------------------------------------------- the reducers

  /** A missing text counts as the empty one. */
  function OrEmpty(s: Option<string>): string {
    if s.Some? then s.value else ""
  }

  predicate IsLocal(id: string) { "local-" <= id }

  function LocalId(uuid: string): string { "local-" + uuid }

  function ResolutionId(request: Request): string { "approval-" + request.id }

  function TextParts(content: seq<Part>): seq<string> {
    if content == [] then []
    else if content[0].TextPart? then [OrEmpty(content[0].text)] + TextParts(content[1..])
    else TextParts(content[1..])
  }

  function ContentText(content: Option<seq<Part>>): string {
    if content.Some? then Join(TextParts(content.value)) else ""
  }

  /** What a template literal makes of a part. */
  function PartAsText(p: Part): string {
    if p.Words? then p.words else "[object Object]"
  }

  function GrowSummary(summary: seq<string>, delta: string): seq<string> {
    if summary == [] then [delta] else summary[|summary| - 1 := summary[|summary| - 1] + delta]
  }

  function GrowContent(content: seq<Part>, delta: string): seq<Part> {
    if content == [] then [Words(delta)]
    else content[|content| - 1 := Words(PartAsText(content[|content| - 1]) + delta)]
  }

  /** What an update does to the entry that is there. */
  function Changed(entry: Entry, e: Event): (r: Entry)
    ensures r.id == entry.id
  {
    var item := entry.item;
    match e
    case Started(_, turnId, item, startedAt) => entry.(turnId := turnId, item := item, startedAt := startedAt)
    case Completed(_, item, completedAt) => entry.(item := item, completedAt := completedAt)
    case TextDelta(_, delta) => entry.(item := item.(text := Some(OrEmpty(item.text) + OrEmpty(delta))))
    case SummaryDelta(_, delta) =>
      entry.(item := item.(summary := Some(GrowSummary(if item.summary.Some? then item.summary.value else [], OrEmpty(delta)))))
    case SummaryPartAdded(_) =>
      entry.(item := item.(summary := Some((if item.summary.Some? then item.summary.value else []) + [""])))
    case ReasoningDelta(_, delta) =>
      entry.(item := item.(content := Some(GrowContent(if item.content.Some? then item.content.value else [], OrEmpty(delta)))))
    case OutputDelta(_, _, delta) => entry.(item := item.(output := Some(OrEmpty(item.output) + OrEmpty(delta))))
    case PatchUpdated(_, changes) => entry.(item := item.(changes := changes))
    case Progress(_, message) => entry.(progress := message)
    case Resolve(_, _, _) => entry
    case Send(_, _, _) => entry
  }

  /** The entry an update makes when there is none; the function updates make none. */
  function Fresh(e: Event): Option<Entry> {
    match e
    case Started(id, turnId, item, startedAt) => Some(Entry(id, turnId, item, startedAt, None, None))
    case Completed(id, item, completedAt) => Some(Entry(id, "", item, None, completedAt, None))
    case _ => None
  }

  /** The position of the first entry with this id, or the length. */
  function IndexOf(items: seq<Entry>, id: string): (i: nat)
    ensures i <= |items|
    ensures i < |items| ==> items[i].id == id
  {
    if items == [] then 0 else if items[0].id == id then 0 else 1 + IndexOf(items[1..], id)
  }

  /** upsertTimeline, with the update that event `e` carries. */
  function Upsert(items: seq<Entry>, id: string, e: Event): seq<Entry> {
    var i := IndexOf(items, id);
    if i < |items| then items[i := Changed(items[i], e)]
    else if Fresh(e).Some? then items + [Fresh(e).value]
    else items
  }

  /** The optimistic copy of a user message that the server now reports under its own id. */
  predicate IsEcho(entry: Entry, text: string) {
    IsLocal(entry.id) && entry.turnId == "pending" && ContentText(entry.item.content) == text
  }

  function DropEchoes(items: seq<Entry>, text: string): seq<Entry> {
    if items == [] then []
    else if IsEcho(items[0], text) then DropEchoes(items[1..], text)
    else [items[0]] + DropEchoes(items[1..], text)
  }

  /** An approval card learns how the command it was about ended. */
  function Marked(entry: Entry, id: string, item: Item): (r: Entry)
    ensures r.id == entry.id
  {
    if entry.item.kind == ApprovalResolution && entry.item.approvalItemId == Some(id)
    then entry.(item := entry.item.(commandStatus := item.status, exitCode := item.exitCode))
    else entry
  }

  function MarkAll(items: seq<Entry>, id: string, item: Item): (r: seq<Entry>)
    ensures |r| == |items|
  {
    if items == [] then [] else [Marked(items[0], id, item)] + MarkAll(items[1..], id, item)
  }

  function ResolutionOf(request: Request, decision: Option<string>, now: int): Entry {
    var accepted := decision.Some? && decision.value in ["accept", "acceptForSession", "approved", "approved_for_session"];
    var session := decision.Some? && decision.value in ["acceptForSession", "approved_for_session"];
    Entry(ResolutionId(request), OrEmpty(request.turnId),
          Item(ApprovalResolution, None, None, None, None, None, None, None, request.itemId, decision, accepted, session, None),
          if request.startedAt.Some? then request.startedAt else Some(now), Some(now), None)
  }

  function Insert(items: seq<Entry>, at: nat, entry: Entry): seq<Entry>
    requires at <= |items|
  {
    items[..at] + [entry] + items[at..]
  }

  /** addApprovalResolution: the card goes just before the item it is about, or last. */
  function AddResolution(items: seq<Entry>, request: Request, decision: Option<string>, now: int): seq<Entry> {
    if !request.approval then items
    else
      var at := if request.itemId.Some? then IndexOf(items, request.itemId.value) else |items|;
      Insert(items, at, ResolutionOf(request, decision, now))
  }

  function LocalMessage(uuid: string, typed: string, now: int): Entry {
    Entry(LocalId(uuid), "pending",
          Item(UserMessage, None, None, Some([TextPart(Some(typed))]), None, None, None, None, None, None, false, false, None),
          Some(now), Some(now), None)
  }

  /** The id an update goes to; None when it names none. */
  function Address(e: Event): Option<string> {
    match e
    case OutputDelta(itemId, processId, _) => if itemId.Some? then itemId else processId
    case Resolve(request, _, _) => if request.approval then Some(ResolutionId(request)) else None
    case Send(uuid, _, _) => Some(LocalId(uuid))
    case _ => Some(e.id)
  }

  /** The timeline after one event. */
  function Exec(items: seq<Entry>, e: Event): seq<Entry> {
    match e
    case Started(id, _, item, _) =>
      Upsert(if item.kind == UserMessage then DropEchoes(items, ContentText(item.content)) else items, id, e)
    case Completed(id, item, _) => MarkAll(Upsert(items, id, e), id, item)
    case Resolve(request, decision, now) => AddResolution(items, request, decision, now)
    case Send(uuid, typed, now) => items + [LocalMessage(uuid, typed, now)]
    case _ => if Address(e).Some? then Upsert(items, Address(e).value, e) else items
  }

  function Run(start: seq<Entry>, events: seq<Event>): seq<Entry> {
    if events == [] then start else Exec(Run(start, events[..|events| - 1]), events[|events| - 1])
  }

  // ---------------------------------------------------------------- one entry of the list

  /** The entry shown under an id. */
  function View(items: seq<Entry>, id: string): Option<Entry> {
    var i := IndexOf(items, id);
    if i < |items| then Some(items[i]) else None
  }

  predicate HasId(items: seq<Entry>, id: string) { IndexOf(items, id) < |items| }

  lemma {:induction false} IndexOfUpdate(items: seq<Entry>, i: nat, x: Entry, id: string)
    requires i < |items| && x.id == items[i].id
    ensures IndexOf(items[i := x], id) == IndexOf(items, id)
  {
    var t := items[i := x];
    if i == 0 {
      assert t[1..] == items[1..];
    } else {
      assert t[1..] == items[1..][i - 1 := x];
      IndexOfUpdate(items[1..], i - 1, x, id);
    }
  }

  lemma {:induction false} IndexOfConcat(a: seq<Entry>, b: seq<Entry>, id: string)
    ensures IndexOf(a + b, id) == if IndexOf(a, id) < |a| then IndexOf(a, id) else |a| + IndexOf(b, id)
  {
    if a == [] {
      assert a + b == b;
    } else {
      assert (a + b)[1..] == a[1..] + b;
      IndexOfConcat(a[1..], b, id);
    }
  }

  lemma IndexOfOne(x: Entry, id: string)
    ensures IndexOf([x], id) == if x.id == id then 0 else 1
  {
  }

  lemma {:induction false} MarkAllAt(items: seq<Entry>, done: string, item: Item, id: string)
    ensures var t := MarkAll(items, done, item);
      && IndexOf(t, id) == IndexOf(items, id)
      && (forall k :: 0 <= k < |items| ==> t[k] == Marked(items[k], done, item))
  {
    if items == [] {
    } else {
      MarkAllAt(items[1..], done, item, id);
    }
  }

  /** An entry that is not dropped is still found; a local echo is the only thing dropped. */
  lemma {:induction false} DropEchoesView(items: seq<Entry>, text: string, id: string)
    requires HasId(items, id) ==> !IsEcho(View(items, id).value, text)
    ensures HasId(items, id) ==> View(DropEchoes(items, text), id) == View(items, id)
    ensures !HasId(items, id) ==> !HasId(DropEchoes(items, text), id)
  {
    if items == [] {
    } else if items[0].id == id {
      ConsIndex(items[0], DropEchoes(items[1..], text), id);
    } else {
      DropEchoesView(items[1..], text, id);
      ConsIndex(items[0], DropEchoes(items[1..], text), id);
    }
  }

  lemma ConsIndex(x: Entry, items: seq<Entry>, id: string)
    ensures IndexOf([x] + items, id) == if x.id == id then 0 else 1 + IndexOf(items, id)
    ensures View([x] + items, id) == if x.id == id then Some(x) else View(items, id)
  {
    assert ([x] + items)[1..] == items;
  }

  lemma FreshId(e: Event)
    requires Fresh(e).Some?
    ensures Address(e) == Some(Fresh(e).value.id)
  {
  }

  /** An upsert changes or adds the entry of its id, and only that one. */
  lemma UpsertView(items: seq<Entry>, e: Event, id: string)
    requires Address(e).Some?
    ensures View(Upsert(items, Address(e).value, e), id) == if Some(id) == Address(e) then Project(View(items, id), e) else View(items, id)
  {
    var i := IndexOf(items, Address(e).value);
    if i < |items| {
      IndexOfUpdate(items, i, Changed(items[i], e), id);
    } else if Fresh(e).Some? {
      FreshId(e);
      IndexOfConcat(items, [Fresh(e).value], id);
      IndexOfOne(Fresh(e).value, id);
    }
  }

  lemma IndexOfBetween(a: seq<Entry>, x: Entry, b: seq<Entry>, id: string)
    requires x.id != id
    ensures IndexOf(a + ([x] + b), id) == if IndexOf(a + b, id) < |a| then IndexOf(a + b, id) else IndexOf(a + b, id) + 1
  {
    IndexOfConcat(a, b, id);
    IndexOfConcat(a, [x] + b, id);
    ConsIndex(x, b, id);
  }

  lemma InsertParts(items: seq<Entry>, at: nat, x: Entry)
    requires at <= |items|
    ensures items == items[..at] + items[at..] && Insert(items, at, x) == items[..at] + ([x] + items[at..])
  {
  }

  lemma InsertAt(items: seq<Entry>, at: nat, x: Entry, k: nat)
    requires at <= |items| && k < |items|
    ensures Insert(items, at, x)[if k < at then k else k + 1] == items[k]
  {
  }

  lemma InsertIndexOf(items: seq<Entry>, at: nat, x: Entry, id: string)
    requires at <= |items| && x.id != id
    ensures IndexOf(Insert(items, at, x), id) == if IndexOf(items, id) < at then IndexOf(items, id) else IndexOf(items, id) + 1
  {
    InsertParts(items, at, x);
    IndexOfBetween(items[..at], x, items[at..], id);
  }

  lemma InsertView(items: seq<Entry>, at: nat, x: Entry, id: string)
    requires at <= |items| && x.id != id
    ensures View(Insert(items, at, x), id) == View(items, id)
    ensures IndexOf(Insert(items, at, x), id) == if IndexOf(items, id) < at then IndexOf(items, id) else IndexOf(items, id) + 1
  {
    InsertIndexOf(items, at, x, id);
    var i := IndexOf(items, id);
    if i < |items| { InsertAt(items, at, x, i); }
  }

  // ---------------------------------------------------------------- the projection theorem

  /** How the entry of an id answers an event addressed to it. */
  function Project(v: Option<Entry>, e: Event): Option<Entry> {
    if v.None? then Fresh(e) else Some(Changed(v.value, e))
  }

  function Play(v: Option<Entry>, events: seq<Event>): Option<Entry> {
    if events == [] then v else Project(Play(v, events[..|events| - 1]), events[|events| - 1])
  }

  function AddressedTo(events: seq<Event>, id: string): seq<Event> {
    if events == [] then []
    else
      var e := events[|events| - 1];
      var earlier := AddressedTo(events[..|events| - 1], id);
      if Address(e) == Some(id) then earlier + [e] else earlier
  }

  /** The event makes no approval card of the entry `id`. */
  predicate MakesNoCard(e: Event, id: string) {
    Address(e) == Some(id) ==> !e.Resolve? && !((e.Started? || e.Completed?) && e.item.kind == ApprovalResolution)
  }

  predicate IsNoCard(v: Option<Entry>) { v.Some? ==> v.value.item.kind != ApprovalResolution }

  /** An ordinary server item: neither a local echo nor an approval card, at any time. */
  predicate Ordinary(start: seq<Entry>, events: seq<Event>, id: string) {
    !IsLocal(id) && IsNoCard(View(start, id)) && forall k :: 0 <= k < |events| ==> MakesNoCard(events[k], id)
  }

  lemma LocalIsLocal(uuid: string)
    ensures IsLocal(LocalId(uuid))
  {
  }

  lemma MarkAllView(items: seq<Entry>, done: string, item: Item, id: string)
    requires IsNoCard(View(items, id))
    ensures View(MarkAll(items, done, item), id) == View(items, id)
  {
    MarkAllAt(items, done, item, id);
  }

  lemma ProjectIsNoCard(v: Option<Entry>, e: Event, id: string)
    requires IsNoCard(v) && MakesNoCard(e, id) && Address(e) == Some(id)
    ensures IsNoCard(Project(v, e))
  {
  }

  /** One event, seen from one ordinary item. */
  lemma StepProjects(s: seq<Entry>, e: Event, id: string)
    requires !IsLocal(id) && IsNoCard(View(s, id)) && MakesNoCard(e, id)
    ensures View(Exec(s, e), id) == if Address(e) == Some(id) then Project(View(s, id), e) else View(s, id)
    ensures IsNoCard(View(Exec(s, e), id))
  {
    if Address(e) == Some(id) { ProjectIsNoCard(View(s, id), e, id); }
    match e
    case Started(_, _, item, _) =>
      if item.kind == UserMessage {
        DropEchoesView(s, ContentText(item.content), id);
        UpsertView(DropEchoes(s, ContentText(item.content)), e, id);
      } else {
        UpsertView(s, e, id);
      }
    case Completed(done, item, _) =>
      UpsertView(s, e, id);
      MarkAllView(Upsert(s, done, e), done, item, id);
    case Resolve(request, decision, now) => ResolveProjects(s, e, id);
    case Send(uuid, typed, now) =>
      LocalIsLocal(uuid);
      IndexOfConcat(s, [LocalMessage(uuid, typed, now)], id);
      IndexOfOne(LocalMessage(uuid, typed, now), id);
    case _ => if Address(e).Some? { UpsertView(s, e, id); }
  }

  lemma ResolveProjects(s: seq<Entry>, e: Event, id: string)
    requires e.Resolve? && MakesNoCard(e, id)
    ensures View(Exec(s, e), id) == View(s, id) && Address(e) != Some(id)
  {
    if e.request.approval {
      var at := if e.request.itemId.Some? then IndexOf(s, e.request.itemId.value) else |s|;
      InsertView(s, at, ResolutionOf(e.request, e.decision, e.now), id);
    }
  }

  /**
   Whatever else interleaves, the entry of an ordinary item is what the events addressed to it alone
   make of it.
   */
  lemma {:induction false} Projection(start: seq<Entry>, events: seq<Event>, id: string)
    requires Ordinary(start, events, id)
    ensures View(Run(start, events), id) == Play(View(start, id), AddressedTo(events, id))
    ensures IsNoCard(View(Run(start, events), id))
  {
    if events == [] {
    } else {
      var init, e := events[..|events| - 1], events[|events| - 1];
      Projection(start, init, id);
      StepProjects(Run(start, init), e, id);
      if Address(e) == Some(id) {
        var mine := AddressedTo(init, id);
        assert (mine + [e])[..|mine + [e]| - 1] == mine;
      }
    }
  }

  // ---------------------------------------------------------------- streamed text

  predicate IsDelta(e: Event) { !e.Started? && !e.Completed? && !e.Resolve? && !e.Send? }

  predicate AllDeltas(events: seq<Event>) { forall k :: 0 <= k < |events| ==> IsDelta(events[k]) }

  function TextDeltas(events: seq<Event>): string {
    if events == [] then ""
    else
      var e := events[|events| - 1];
      TextDeltas(events[..|events| - 1]) + if e.TextDelta? then OrEmpty(e.delta) else ""
  }

  function OutputDeltas(events: seq<Event>): string {
    if events == [] then ""
    else
      var e := events[|events| - 1];
      OutputDeltas(events[..|events| - 1]) + if e.OutputDelta? then OrEmpty(e.delta) else ""
  }

  function SummaryText(summary: Option<seq<string>>): string {
    if summary.None? then "" else Concat(summary.value)
  }

  function Concat(parts: seq<string>): string {
    if parts == [] then "" else Concat(parts[..|parts| - 1]) + parts[|parts| - 1]
  }

  function SummaryDeltas(events: seq<Event>): string {
    if events == [] then ""
    else
      var e := events[|events| - 1];
      SummaryDeltas(events[..|events| - 1]) + if e.SummaryDelta? then OrEmpty(e.delta) else ""
  }

  lemma GrowSummaryConcat(summary: seq<string>, delta: string)
    ensures Concat(GrowSummary(summary, delta)) == Concat(summary) + delta
  {
    var t := GrowSummary(summary, delta);
    if summary == [] {
      assert t[..0] == [];
    } else {
      assert t[..|t| - 1] == summary[..|summary| - 1];
      assert Concat(t) == Concat(summary[..|summary| - 1]) + (summary[|summary| - 1] + delta);
    }
  }

  lemma AddPartConcat(summary: seq<string>)
    ensures Concat(summary + [""]) == Concat(summary)
  {
    assert (summary + [""])[..|summary|] == summary;
  }

  /** One delta extends the three streamed texts by what it carries for each. */
  lemma DeltaExtends(x: Entry, e: Event)
    requires IsDelta(e)
    ensures var y := Changed(x, e);
      && OrEmpty(y.item.text) == OrEmpty(x.item.text) + (if e.TextDelta? then OrEmpty(e.delta) else "")
      && OrEmpty(y.item.output) == OrEmpty(x.item.output) + (if e.OutputDelta? then OrEmpty(e.delta) else "")
      && SummaryText(y.item.summary) == SummaryText(x.item.summary) + (if e.SummaryDelta? then OrEmpty(e.delta) else "")
  {
    var summary := if x.item.summary.Some? then x.item.summary.value else [];
    if e.SummaryDelta? { GrowSummaryConcat(summary, OrEmpty(e.delta)); }
    if e.SummaryPartAdded? { AddPartConcat(summary); }
  }

  // ---- reasoning text, which is streamed into the parts of `content`

  function WordsOf(parts: seq<Part>): string {
    if parts == [] then ""
    else WordsOf(parts[..|parts| - 1]) + if parts[|parts| - 1].Words? then parts[|parts| - 1].words else ""
  }

  function PartsOf(item: Item): seq<Part> { if item.content.Some? then item.content.value else [] }

  /** A delta goes on with the last part, which is a bare string, or starts one. */
  predicate EndsInWords(parts: seq<Part>) { parts == [] || parts[|parts| - 1].Words? }

  /** What the first delta puts before itself: an object at the end is turned into text. */
  function Opening(parts: seq<Part>): string { if EndsInWords(parts) then "" else "[object Object]" }

  lemma GrowContentWords(parts: seq<Part>, delta: string)
    ensures WordsOf(GrowContent(parts, delta)) == WordsOf(parts) + Opening(parts) + delta
    ensures EndsInWords(GrowContent(parts, delta))
  {
    var t := GrowContent(parts, delta);
    if parts == [] {
      assert t[..0] == [];
    } else {
      assert t[..|t| - 1] == parts[..|parts| - 1];
      AppendTwice(WordsOf(parts[..|parts| - 1]), PartAsText(parts[|parts| - 1]), delta);
    }
  }

  /** A reasoning delta extends the text exactly when the last part is a bare string, or there is none. */
  lemma ReasoningExtendsIff(x: Entry, e: Event)
    requires e.ReasoningDelta?
    ensures WordsOf(PartsOf(Changed(x, e).item)) == WordsOf(PartsOf(x.item)) + OrEmpty(e.delta) <==> EndsInWords(PartsOf(x.item))
  {
    var parts, delta := PartsOf(x.item), OrEmpty(e.delta);
    GrowContentWords(parts, delta);
    if !EndsInWords(parts) {
      assert |WordsOf(parts) + Opening(parts) + delta| > |WordsOf(parts) + delta|;
    } else {
      assert WordsOf(parts) + "" == WordsOf(parts);
    }
  }

  /** For instance at an item whose content is one object: the object becomes text, and stands before the delta. */
  lemma ReasoningExample(x: Entry, e: Event)
    requires e.ReasoningDelta? && x.item.content == Some([OtherPart])
    ensures Changed(x, e).item.content == Some([Words("[object Object]" + OrEmpty(e.delta))])
    ensures WordsOf(PartsOf(Changed(x, e).item)) != WordsOf(PartsOf(x.item)) + OrEmpty(e.delta)
  {
    var now := Words("[object Object]" + OrEmpty(e.delta));
    assert GrowContent([OtherPart], OrEmpty(e.delta)) == [now];
    ReasoningExtendsIff(x, e);
  }

  function ReasoningDeltas(events: seq<Event>): string {
    if events == [] then ""
    else
      var e := events[|events| - 1];
      ReasoningDeltas(events[..|events| - 1]) + if e.ReasoningDelta? then OrEmpty(e.delta) else ""
  }

  predicate Reasons(events: seq<Event>) {
    events != [] && (events[|events| - 1].ReasoningDelta? || Reasons(events[..|events| - 1]))
  }

  /** The reasoning text after some deltas: what was there, the opening if there is any delta, the deltas. */
  predicate ReasonedTo(was: seq<Part>, now: seq<Part>, events: seq<Event>) {
    if Reasons(events) then WordsOf(now) == WordsOf(was) + Opening(was) + ReasoningDeltas(events) && EndsInWords(now)
    else now == was && ReasoningDeltas(events) == ""
  }

  lemma LastEvent(events: seq<Event>, e: Event)
    ensures (events + [e])[..|events + [e]| - 1] == events
    ensures ReasoningDeltas(events + [e]) == ReasoningDeltas(events) + if e.ReasoningDelta? then OrEmpty(e.delta) else ""
    ensures Reasons(events + [e]) <==> e.ReasoningDelta? || Reasons(events)
  {
    assert (events + [e])[..|events|] == events;
  }

  lemma EmptyBetween(a: string, b: string)
    ensures a + "" + b == a + b && a + ("" + b) == a + b && b + "" == b
  {
  }

  lemma FirstDelta(was: seq<Part>, events: seq<Event>, e: Event)
    requires e.ReasoningDelta? && !Reasons(events) && ReasoningDeltas(events) == ""
    ensures ReasonedTo(was, GrowContent(was, OrEmpty(e.delta)), events + [e])
  {
    LastEvent(events, e);
    GrowContentWords(was, OrEmpty(e.delta));
    EmptyBetween("", OrEmpty(e.delta));
  }

  lemma FurtherDelta(was: seq<Part>, now: seq<Part>, events: seq<Event>, e: Event)
    requires e.ReasoningDelta? && Reasons(events) && ReasonedTo(was, now, events)
    ensures ReasonedTo(was, GrowContent(now, OrEmpty(e.delta)), events + [e])
  {
    var delta := OrEmpty(e.delta);
    LastEvent(events, e);
    GrowContentWords(now, delta);
    AppendTwice(WordsOf(was) + Opening(was), ReasoningDeltas(events), delta);
    EmptyBetween(WordsOf(now), delta);
  }

  lemma ReasonedDelta(was: seq<Part>, now: seq<Part>, events: seq<Event>, e: Event)
    requires e.ReasoningDelta? && ReasonedTo(was, now, events)
    ensures ReasonedTo(was, GrowContent(now, OrEmpty(e.delta)), events + [e])
  {
    if Reasons(events) {
      FurtherDelta(was, now, events, e);
    } else {
      FirstDelta(was, events, e);
    }
  }

  lemma ReasonedStep(was: seq<Part>, y: Entry, events: seq<Event>, e: Event)
    requires IsDelta(e) && ReasonedTo(was, PartsOf(y.item), events)
    ensures ReasonedTo(was, PartsOf(Changed(y, e).item), events + [e])
  {
    if e.ReasoningDelta? {
      ReasonedDelta(was, PartsOf(y.item), events, e);
    } else {
      LastEvent(events, e);
      EmptyBetween("", ReasoningDeltas(events));
    }
  }

  lemma PlaySnoc(x: Entry, init: seq<Event>, e: Event)
    ensures Play(Some(x), init + [e]) == Project(Play(Some(x), init), e)
  {
    assert (init + [e])[..|init|] == init;
  }

  lemma {:induction false} ReasoningAccumulates(x: Entry, events: seq<Event>)
    requires AllDeltas(events)
    ensures var v := Play(Some(x), events); v.Some? && ReasonedTo(PartsOf(x.item), PartsOf(v.value.item), events)
  {
    if events == [] {
    } else {
      var init, e := events[..|events| - 1], events[|events| - 1];
      assert events == init + [e];
      ReasoningAccumulates(x, init);
      ReasonedStep(PartsOf(x.item), Play(Some(x), init).value, init, e);
      PlaySnoc(x, init, e);
    }
  }

  lemma AppendTwice(a: string, b: string, c: string)
    ensures a + b + c == a + (b + c)
  {
  }

  lemma {:induction false} DeltasAccumulate(x: Entry, events: seq<Event>)
    requires AllDeltas(events)
    ensures var v := Play(Some(x), events);
      && v.Some?
      && OrEmpty(v.value.item.text) == OrEmpty(x.item.text) + TextDeltas(events)
      && OrEmpty(v.value.item.output) == OrEmpty(x.item.output) + OutputDeltas(events)
      && SummaryText(v.value.item.summary) == SummaryText(x.item.summary) + SummaryDeltas(events)
  {
    if events == [] {
    } else {
      var init, e := events[..|events| - 1], events[|events| - 1];
      DeltasAccumulate(x, init);
      var y := Play(Some(x), init).value;
      DeltaExtends(y, e);
      AppendTwice(OrEmpty(x.item.text), TextDeltas(init), if e.TextDelta? then OrEmpty(e.delta) else "");
      AppendTwice(OrEmpty(x.item.output), OutputDeltas(init), if e.OutputDelta? then OrEmpty(e.delta) else "");
      AppendTwice(SummaryText(x.item.summary), SummaryDeltas(init), if e.SummaryDelta? then OrEmpty(e.delta) else "");
    }
  }

  lemma {:induction false} AddressedKeepsDeltas(events: seq<Event>, id: string)
    requires forall k :: 0 <= k < |events| && Address(events[k]) == Some(id) ==> IsDelta(events[k])
    ensures AllDeltas(AddressedTo(events, id))
  {
    if events == [] {
    } else {
      AddressedKeepsDeltas(events[..|events| - 1], id);
    }
  }

  /**
   From the start of an ordinary item to its completion, its text is the text it started with followed
   by its deltas in order, and likewise its command output, its reasoning summary and its reasoning text.
   */
  lemma StreamedText(before: seq<Entry>, begin: Event, events: seq<Event>, id: string)
    requires begin.Started? && begin.id == id && begin.item.kind != ApprovalResolution
    requires !IsLocal(id) && IsNoCard(View(before, id))
    requires forall k :: 0 <= k < |events| && Address(events[k]) == Some(id) ==> IsDelta(events[k])
    ensures var v, mine := View(Run(Exec(before, begin), events), id), AddressedTo(events, id);
      && v.Some?
      && OrEmpty(v.value.item.text) == OrEmpty(begin.item.text) + TextDeltas(mine)
      && OrEmpty(v.value.item.output) == OrEmpty(begin.item.output) + OutputDeltas(mine)
      && SummaryText(v.value.item.summary) == SummaryText(begin.item.summary) + SummaryDeltas(mine)
      && ReasonedTo(PartsOf(begin.item), PartsOf(v.value.item), mine)
  {
    var s := Exec(before, begin);
    StepProjects(before, begin, id);
    assert Ordinary(s, events, id) by {
      forall k | 0 <= k < |events| ensures MakesNoCard(events[k], id) {}
    }
    Projection(s, events, id);
    AddressedKeepsDeltas(events, id);
    DeltasAccumulate(View(s, id).value, AddressedTo(events, id));
    ReasoningAccumulates(View(s, id).value, AddressedTo(events, id));
  }

  /** The completion replaces whatever was streamed, also for an item whose start was never seen. */
  lemma CompletionWins(before: seq<Entry>, end: Event, id: string)
    requires end.Completed? && end.id == id && end.item.kind != ApprovalResolution
    requires !IsLocal(id) && IsNoCard(View(before, id))
    ensures var v := View(Exec(before, end), id);
      v.Some? && v.value.item == end.item && v.value.completedAt == end.completedAt
      && v.value.startedAt == if HasId(before, id) then View(before, id).value.startedAt else None
  {
    StepProjects(before, end, id);
  }

  // ---------------------------------------------------------------- approval cards

  /** The item of the last completion of `target`. */
  function LastCompletion(events: seq<Event>, target: Option<string>): Option<Item> {
    if events == [] then None
    else
      var e := events[|events| - 1];
      if e.Completed? && target == Some(e.id) then Some(e.item) else LastCompletion(events[..|events| - 1], target)
  }

  /** A card with the outcome of the command filled in. */
  function WithOutcome(card: Entry, done: Option<Item>): Entry {
    if done.None? then card
    else card.(item := card.item.(commandStatus := done.value.status, exitCode := done.value.exitCode))
  }

  lemma CardStep(s: seq<Entry>, e: Event, id: string)
    requires !IsLocal(id) && HasId(s, id) && Address(e) != Some(id)
    ensures View(Exec(s, e), id) == Some(if e.Completed? then Marked(View(s, id).value, e.id, e.item) else View(s, id).value)
  {
    match e
    case Started(_, _, item, _) =>
      if item.kind == UserMessage {
        DropEchoesView(s, ContentText(item.content), id);
        UpsertView(DropEchoes(s, ContentText(item.content)), e, id);
      } else {
        UpsertView(s, e, id);
      }
    case Completed(done, item, _) =>
      UpsertView(s, e, id);
      MarkAllAt(Upsert(s, done, e), done, item, id);
    case Resolve(request, decision, now) =>
      if request.approval {
        var at := if request.itemId.Some? then IndexOf(s, request.itemId.value) else |s|;
        InsertView(s, at, ResolutionOf(request, decision, now), id);
      }
    case Send(uuid, typed, now) => IndexOfConcat(s, [LocalMessage(uuid, typed, now)], id);
    case _ => if Address(e).Some? { UpsertView(s, e, id); }
  }

  /**
   A card that no event is addressed to keeps everything but the outcome of its command, and shows the
   outcome of the last completion of the item it is about.
   */
  lemma {:induction false} CardShowsLastOutcome(start: seq<Entry>, events: seq<Event>, id: string)
    requires !IsLocal(id) && HasId(start, id) && View(start, id).value.item.kind == ApprovalResolution
    requires forall k :: 0 <= k < |events| ==> Address(events[k]) != Some(id)
    ensures var card := View(start, id).value;
      View(Run(start, events), id) == Some(WithOutcome(card, LastCompletion(events, card.item.approvalItemId)))
  {
    if events == [] {
    } else {
      CardShowsLastOutcome(start, events[..|events| - 1], id);
      CardStep(Run(start, events[..|events| - 1]), events[|events| - 1], id);
    }
  }

  // ---------------------------------------------------------------- unique ids

  predicate Unique(items: seq<Entry>) {
    items == [] || (!HasId(items[1..], items[0].id) && Unique(items[1..]))
  }

  lemma {:induction false} AbsentMeans(items: seq<Entry>, id: string, k: nat)
    requires k < |items| && items[k].id == id
    ensures HasId(items, id) && IndexOf(items, id) <= k
  {
    if items[0].id == id {
    } else {
      AbsentMeans(items[1..], id, k - 1);
    }
  }

  /** Unique says just that no two entries share an id. */
  lemma {:induction false} UniqueMeans(items: seq<Entry>, i: nat, j: nat)
    requires Unique(items) && i < j < |items|
    ensures items[i].id != items[j].id
  {
    if i == 0 {
      if items[j].id == items[0].id { AbsentMeans(items[1..], items[0].id, j - 1); }
    } else {
      UniqueMeans(items[1..], i - 1, j - 1);
    }
  }

  lemma {:induction false} UpdateKeepsUnique(items: seq<Entry>, i: nat, x: Entry)
    requires i < |items| && x.id == items[i].id && Unique(items)
    ensures Unique(items[i := x])
  {
    var t := items[i := x];
    if i == 0 {
      assert t[1..] == items[1..];
    } else {
      assert t[1..] == items[1..][i - 1 := x];
      IndexOfUpdate(items[1..], i - 1, x, items[0].id);
      UpdateKeepsUnique(items[1..], i - 1, x);
    }
  }

  /** Adding an entry anywhere keeps the ids unique exactly when its id is new. */
  lemma {:induction false} InsertUniqueIff(items: seq<Entry>, at: nat, x: Entry)
    requires at <= |items| && Unique(items)
    ensures Unique(Insert(items, at, x)) <==> !HasId(items, x.id)
  {
    var t := Insert(items, at, x);
    if at == 0 {
      assert t == [x] + items;
      assert t[1..] == items;
    } else {
      assert t[1..] == Insert(items[1..], at - 1, x);
      InsertUniqueIff(items[1..], at - 1, x);
      InsertHas(items[1..], at - 1, x, items[0].id);
    }
  }

  lemma InsertHas(items: seq<Entry>, at: nat, x: Entry, id: string)
    requires at <= |items|
    ensures HasId(Insert(items, at, x), id) <==> HasId(items, id) || x.id == id
  {
    if x.id == id {
      AbsentMeans(Insert(items, at, x), id, at);
    } else {
      InsertView(items, at, x, id);
    }
  }

  lemma AppendIsInsert(items: seq<Entry>, x: Entry)
    ensures items + [x] == Insert(items, |items|, x)
  {
  }

  lemma {:induction false} MarkAllKeepsUnique(items: seq<Entry>, id: string, item: Item)
    requires Unique(items)
    ensures Unique(MarkAll(items, id, item))
  {
    if items == [] {
    } else {
      MarkAllKeepsUnique(items[1..], id, item);
      MarkAllAt(items[1..], id, item, items[0].id);
      assert MarkAll(items, id, item)[1..] == MarkAll(items[1..], id, item);
    }
  }

  lemma {:induction false} DropEchoesAbsent(items: seq<Entry>, text: string, id: string)
    requires !HasId(items, id)
    ensures !HasId(DropEchoes(items, text), id)
  {
    if items == [] {
    } else {
      DropEchoesAbsent(items[1..], text, id);
      ConsIndex(items[0], DropEchoes(items[1..], text), id);
    }
  }

  lemma {:induction false} DropEchoesKeepsUnique(items: seq<Entry>, text: string)
    requires Unique(items)
    ensures Unique(DropEchoes(items, text))
  {
    if items == [] {
    } else {
      DropEchoesKeepsUnique(items[1..], text);
      DropEchoesAbsent(items[1..], text, items[0].id);
      assert ([items[0]] + DropEchoes(items[1..], text))[1..] == DropEchoes(items[1..], text);
    }
  }

  lemma UpsertKeepsUnique(items: seq<Entry>, e: Event)
    requires Address(e).Some? && Unique(items)
    ensures Unique(Upsert(items, Address(e).value, e))
  {
    var i := IndexOf(items, Address(e).value);
    if i < |items| {
      UpdateKeepsUnique(items, i, Changed(items[i], e));
    } else if Fresh(e).Some? {
      FreshId(e);
      AppendIsInsert(items, Fresh(e).value);
      InsertUniqueIff(items, |items|, Fresh(e).value);
    }
  }

  /** The two events that add an entry without looking for its id. */
  predicate Repeats(s: seq<Entry>, e: Event) {
    (e.Send? || (e.Resolve? && e.request.approval)) && HasId(s, Address(e).value)
  }

  /** Ids stay unique except when a card or a local message is added under an id that is already shown. */
  lemma StepUniqueIff(s: seq<Entry>, e: Event)
    requires Unique(s)
    ensures Unique(Exec(s, e)) <==> !Repeats(s, e)
  {
    match e
    case Started(_, _, item, _) =>
      DropEchoesKeepsUnique(s, ContentText(item.content));
      UpsertKeepsUnique(if item.kind == UserMessage then DropEchoes(s, ContentText(item.content)) else s, e);
    case Completed(id, item, _) =>
      UpsertKeepsUnique(s, e);
      MarkAllKeepsUnique(Upsert(s, id, e), id, item);
    case Resolve(request, decision, now) =>
      if request.approval {
        var at := if request.itemId.Some? then IndexOf(s, request.itemId.value) else |s|;
        InsertUniqueIff(s, at, ResolutionOf(request, decision, now));
      }
    case Send(uuid, typed, now) =>
      AppendIsInsert(s, LocalMessage(uuid, typed, now));
      InsertUniqueIff(s, |s|, LocalMessage(uuid, typed, now));
    case _ => if Address(e).Some? { UpsertKeepsUnique(s, e); }
  }

  /** No event of the run repeats an id. */
  predicate NeverRepeats(start: seq<Entry>, events: seq<Event>) {
    events == [] || (NeverRepeats(start, events[..|events| - 1]) && !Repeats(Run(start, events[..|events| - 1]), events[|events| - 1]))
  }

  lemma {:induction false} RunKeepsUnique(start: seq<Entry>, events: seq<Event>)
    requires Unique(start) && NeverRepeats(start, events)
    ensures Unique(Run(start, events))
  {
    if events == [] {
    } else {
      RunKeepsUnique(start, events[..|events| - 1]);
      StepUniqueIff(Run(start, events[..|events| - 1]), events[|events| - 1]);
    }
  }

  /** Server notifications alone can never repeat an id. */
  lemma {:induction false} NotificationsKeepUnique(start: seq<Entry>, events: seq<Event>)
    requires Unique(start) && forall k :: 0 <= k < |events| ==> !events[k].Send? && !events[k].Resolve?
    ensures Unique(Run(start, events))
  {
    if events == [] {
    } else {
      NotificationsKeepUnique(start, events[..|events| - 1]);
      StepUniqueIff(Run(start, events[..|events| - 1]), events[|events| - 1]);
    }
  }

  /** Such an event comes about: a second request with the id of the first, as after a reconnect. */
  lemma IdsCanRepeat(request: Request, decision: Option<string>, now: int)
    requires request.approval
    ensures var once := Exec([], Resolve(request, decision, now)); Unique(once) && !Unique(Exec(once, Resolve(request, decision, now)))
  {
    var e := Resolve(request, decision, now);
    var x := ResolutionOf(request, decision, now);
    IndexOfOne(x, x.id);
    assert Exec([], e) == [x];
    StepUniqueIff([], e);
    StepUniqueIff([x], e);
  }

  // ---------------------------------------------------------------- the order

  /** `origin[k]` is the position at the start of a run of the entry now at `k`; None for a newer one. */
  type Origins = seq<Option<nat>>

  function Numbers(n: nat): (r: Origins)
    ensures |r| == n
  {
    if n == 0 then [] else Numbers(n - 1) + [Some(n - 1)]
  }

  function DropOrigins(items: seq<Entry>, origin: Origins, text: string): (r: Origins)
    requires |items| == |origin|
    ensures |r| == |DropEchoes(items, text)|
  {
    if items == [] then []
    else if IsEcho(items[0], text) then DropOrigins(items[1..], origin[1..], text)
    else [origin[0]] + DropOrigins(items[1..], origin[1..], text)
  }

  /** What an upsert does to the positions: in place, or one new entry at the end. */
  function UpsertOrigins(items: seq<Entry>, origin: Origins, e: Event): Origins
    requires Address(e).Some?
  {
    if HasId(items, Address(e).value) || Fresh(e).None? then origin else origin + [None]
  }

  /** Where the entries after an event come from. */
  function OriginsAfter(items: seq<Entry>, origin: Origins, e: Event): (r: Origins)
    requires |items| == |origin|
    ensures |r| == |Exec(items, e)|
  {
    match e
    case Started(id, _, item, _) =>
      if item.kind == UserMessage
      then UpsertOrigins(DropEchoes(items, ContentText(item.content)), DropOrigins(items, origin, ContentText(item.content)), e)
      else UpsertOrigins(items, origin, e)
    case Resolve(request, _, _) =>
      if !request.approval then origin
      else
        var at := if request.itemId.Some? then IndexOf(items, request.itemId.value) else |items|;
        origin[..at] + [None] + origin[at..]
    case Send(_, _, _) => origin + [None]
    case _ => if Address(e).Some? then UpsertOrigins(items, origin, e) else origin
  }

  function OriginsOf(start: seq<Entry>, events: seq<Event>): (r: Origins)
    ensures |r| == |Run(start, events)|
  {
    if events == [] then Numbers(|start|)
    else OriginsAfter(Run(start, events[..|events| - 1]), OriginsOf(start, events[..|events| - 1]), events[|events| - 1])
  }

  predicate Rises(origin: Origins, i: nat, j: nat)
    requires i < |origin| && j < |origin|
  {
    origin[i].Some? && origin[j].Some? ==> origin[i].value < origin[j].value
  }

  predicate Ascending(origin: Origins) { forall i, j :: 0 <= i < j < |origin| ==> Rises(origin, i, j) }

  /** An entry keeps the id it had at the start. */
  predicate KeepsId(start: seq<Entry>, items: seq<Entry>, origin: Origins, k: nat)
    requires k < |items| && |origin| == |items|
  {
    origin[k].Some? ==> origin[k].value < |start| && items[k].id == start[origin[k].value].id
  }

  lemma {:induction false} NumbersAt(n: nat, k: nat)
    requires k < n
    ensures Numbers(n)[k] == Some(k)
  {
    if k == n - 1 {
    } else {
      NumbersAt(n - 1, k);
    }
  }

  lemma InsertAscends(origin: Origins, at: nat)
    requires at <= |origin| && Ascending(origin)
    ensures Ascending(origin[..at] + [None] + origin[at..])
  {
    var t := origin[..at] + [None] + origin[at..];
    forall i, j | 0 <= i < j < |t| ensures Rises(t, i, j) {
      if i != at && j != at { assert Rises(origin, if i < at then i else i - 1, if j < at then j else j - 1); }
    }
  }

  lemma AppendAscends(origin: Origins)
    requires Ascending(origin)
    ensures Ascending(origin + [None])
  {
    var t := origin + [None];
    forall i, j | 0 <= i < j < |t| ensures Rises(t, i, j) {
      if j < |origin| { assert Rises(origin, i, j); }
    }
  }

  lemma TailAscends(origin: Origins)
    requires origin != [] && Ascending(origin)
    ensures Ascending(origin[1..])
  {
    forall i, j | 0 <= i < j < |origin[1..]| ensures Rises(origin[1..], i, j) { assert Rises(origin, i + 1, j + 1); }
  }

  lemma {:induction false} DropKeepsMembers(items: seq<Entry>, origin: Origins, text: string, o: Option<nat>)
    requires |items| == |origin| && o in DropOrigins(items, origin, text)
    ensures o in origin
  {
    if items == [] {
    } else if o in DropOrigins(items[1..], origin[1..], text) {
      DropKeepsMembers(items[1..], origin[1..], text, o);
    }
  }

  lemma {:induction false} DropAscends(items: seq<Entry>, origin: Origins, text: string)
    requires |items| == |origin| && Ascending(origin)
    ensures Ascending(DropOrigins(items, origin, text))
  {
    if items == [] {
    } else {
      TailAscends(origin);
      DropAscends(items[1..], origin[1..], text);
      if !IsEcho(items[0], text) { ConsAscends(items, origin, text); }
    }
  }

  lemma ConsAscends(items: seq<Entry>, origin: Origins, text: string)
    requires |items| == |origin| && items != [] && Ascending(origin) && Ascending(DropOrigins(items[1..], origin[1..], text))
    ensures Ascending([origin[0]] + DropOrigins(items[1..], origin[1..], text))
  {
    var rest := DropOrigins(items[1..], origin[1..], text);
    var t := [origin[0]] + rest;
    forall i, j | 0 <= i < j < |t| ensures Rises(t, i, j) {
      if i > 0 {
        assert Rises(rest, i - 1, j - 1);
      } else {
        assert rest[j - 1] in rest;
        DropKeepsMembers(items[1..], origin[1..], text, rest[j - 1]);
        var k :| 0 <= k < |origin[1..]| && origin[1..][k] == rest[j - 1];
        assert Rises(origin, 0, k + 1);
      }
    }
  }

  lemma UpsertAscends(items: seq<Entry>, origin: Origins, e: Event)
    requires Address(e).Some? && Ascending(origin)
    ensures Ascending(UpsertOrigins(items, origin, e))
  {
    AppendAscends(origin);
  }

  /** Whatever the event, the entries that stay keep their relative order. */
  lemma StepKeepsOrder(items: seq<Entry>, origin: Origins, e: Event)
    requires |items| == |origin| && Ascending(origin)
    ensures Ascending(OriginsAfter(items, origin, e))
  {
    match e
    case Started(_, _, item, _) =>
      var text := ContentText(item.content);
      DropAscends(items, origin, text);
      UpsertAscends(DropEchoes(items, text), DropOrigins(items, origin, text), e);
      UpsertAscends(items, origin, e);
    case Resolve(request, _, _) =>
      if request.approval {
        InsertAscends(origin, if request.itemId.Some? then IndexOf(items, request.itemId.value) else |items|);
      }
    case Send(_, _, _) => AppendAscends(origin);
    case _ => if Address(e).Some? { UpsertAscends(items, origin, e); }
  }

  // ---- the origins name the entries they should

  predicate AllKeepId(start: seq<Entry>, items: seq<Entry>, origin: Origins) {
    |origin| == |items| && forall k :: 0 <= k < |items| ==> KeepsId(start, items, origin, k)
  }

  lemma {:induction false} DropKeepsIds(start: seq<Entry>, items: seq<Entry>, origin: Origins, text: string)
    requires AllKeepId(start, items, origin)
    ensures AllKeepId(start, DropEchoes(items, text), DropOrigins(items, origin, text))
  {
    if items == [] {
    } else {
      forall k | 0 <= k < |items[1..]| ensures KeepsId(start, items[1..], origin[1..], k) {
        assert KeepsId(start, items, origin, k + 1);
      }
      assert KeepsId(start, items, origin, 0);
      DropKeepsIds(start, items[1..], origin[1..], text);
      ConsKeepsIds(start, items[0], origin[0], DropEchoes(items[1..], text), DropOrigins(items[1..], origin[1..], text));
    }
  }

  lemma ConsKeepsIds(start: seq<Entry>, x: Entry, o: Option<nat>, items: seq<Entry>, origin: Origins)
    requires AllKeepId(start, items, origin)
    ensures (o.Some? ==> o.value < |start| && x.id == start[o.value].id) ==> AllKeepId(start, [x] + items, [o] + origin)
  {
    if o.Some? ==> o.value < |start| && x.id == start[o.value].id {
      forall k | 0 <= k < |[x] + items| ensures KeepsId(start, [x] + items, [o] + origin, k) {
        if k > 0 { assert KeepsId(start, items, origin, k - 1); }
      }
    }
  }

  lemma UpsertKeepsIds(start: seq<Entry>, items: seq<Entry>, origin: Origins, e: Event)
    requires Address(e).Some? && AllKeepId(start, items, origin)
    ensures AllKeepId(start, Upsert(items, Address(e).value, e), UpsertOrigins(items, origin, e))
  {
    var t, o := Upsert(items, Address(e).value, e), UpsertOrigins(items, origin, e);
    forall k | 0 <= k < |t| ensures KeepsId(start, t, o, k) {
      if k < |items| { assert KeepsId(start, items, origin, k); }
    }
  }

  lemma InsertKeepsIds(start: seq<Entry>, items: seq<Entry>, origin: Origins, at: nat, x: Entry)
    requires at <= |items| && AllKeepId(start, items, origin)
    ensures AllKeepId(start, Insert(items, at, x), origin[..at] + [None] + origin[at..])
  {
    var t, o := Insert(items, at, x), origin[..at] + [None] + origin[at..];
    forall k | 0 <= k < |t| ensures KeepsId(start, t, o, k) {
      if k != at { assert KeepsId(start, items, origin, if k < at then k else k - 1); }
    }
  }

  lemma MarkKeepsIds(start: seq<Entry>, items: seq<Entry>, origin: Origins, done: string, item: Item)
    requires AllKeepId(start, items, origin)
    ensures AllKeepId(start, MarkAll(items, done, item), origin)
  {
    MarkAllAt(items, done, item, done);
    var t := MarkAll(items, done, item);
    forall k | 0 <= k < |t| ensures KeepsId(start, t, origin, k) { assert KeepsId(start, items, origin, k); }
  }

  lemma StepKeepsIds(start: seq<Entry>, items: seq<Entry>, origin: Origins, e: Event)
    requires AllKeepId(start, items, origin)
    ensures AllKeepId(start, Exec(items, e), OriginsAfter(items, origin, e))
  {
    match e
    case Started(_, _, item, _) =>
      var text := ContentText(item.content);
      DropKeepsIds(start, items, origin, text);
      UpsertKeepsIds(start, DropEchoes(items, text), DropOrigins(items, origin, text), e);
      UpsertKeepsIds(start, items, origin, e);
    case Completed(id, item, _) =>
      UpsertKeepsIds(start, items, origin, e);
      MarkKeepsIds(start, Upsert(items, id, e), UpsertOrigins(items, origin, e), id, item);
    case Resolve(request, decision, now) =>
      if request.approval {
        var at := if request.itemId.Some? then IndexOf(items, request.itemId.value) else |items|;
        InsertKeepsIds(start, items, origin, at, ResolutionOf(request, decision, now));
      }
    case Send(uuid, typed, now) =>
      AppendIsInsert(items, LocalMessage(uuid, typed, now));
      InsertKeepsIds(start, items, origin, |items|, LocalMessage(uuid, typed, now));
      assert origin[..|items|] + [None] + origin[|items|..] == origin + [None];
    case _ => if Address(e).Some? { UpsertKeepsIds(start, items, origin, e); }
  }

  /**
   Over every run, cards, local messages and repeated ids included: the entries still there from the
   start stand in their old order, each under its old id.
   */
  lemma {:induction false} RunKeepsOrder(start: seq<Entry>, events: seq<Event>)
    ensures Ascending(OriginsOf(start, events)) && AllKeepId(start, Run(start, events), OriginsOf(start, events))
  {
    if events == [] {
      var origin := Numbers(|start|);
      forall i, j | 0 <= i < j < |start| ensures Rises(origin, i, j) { NumbersAt(|start|, i); NumbersAt(|start|, j); }
      forall k | 0 <= k < |start| ensures KeepsId(start, start, origin, k) { NumbersAt(|start|, k); }
    } else {
      var init, e := events[..|events| - 1], events[|events| - 1];
      RunKeepsOrder(start, init);
      StepKeepsOrder(Run(start, init), OriginsOf(start, init), e);
      StepKeepsIds(start, Run(start, init), OriginsOf(start, init), e);
    }
  }

  lemma {:induction false} DropKeepsOthers(items: seq<Entry>, origin: Origins, text: string, k: nat)
    requires k < |items| && |items| == |origin| && !IsEcho(items[k], text)
    ensures origin[k] in DropOrigins(items, origin, text)
  {
    if k == 0 {
    } else {
      DropKeepsOthers(items[1..], origin[1..], text, k - 1);
      assert origin[1..][k - 1] == origin[k];
    }
  }

  lemma InsertKeepsMember(origin: Origins, at: nat, k: nat)
    requires at <= |origin| && k < |origin|
    ensures origin[k] in origin[..at] + [None] + origin[at..]
  {
    var t := origin[..at] + [None] + origin[at..];
    assert t[if k < at then k else k + 1] == origin[k];
  }

  lemma StepKeepsServerItem(items: seq<Entry>, origin: Origins, e: Event, k: nat)
    requires |items| == |origin| && k < |items| && !IsLocal(items[k].id)
    ensures origin[k] in OriginsAfter(items, origin, e)
  {
    match e
    case Started(_, _, item, _) => DropKeepsOthers(items, origin, ContentText(item.content), k);
    case Resolve(request, _, _) =>
      if request.approval {
        InsertKeepsMember(origin, if request.itemId.Some? then IndexOf(items, request.itemId.value) else |items|, k);
      }
    case _ =>
  }

  /** No event ever takes an entry off the timeline, unless it is a local echo. */
  lemma {:induction false} ServerItemsSurvive(start: seq<Entry>, events: seq<Event>, o: nat)
    requires o < |start| && !IsLocal(start[o].id)
    ensures Some(o) in OriginsOf(start, events)
  {
    if events == [] {
      NumbersAt(|start|, o);
    } else {
      var init, e := events[..|events| - 1], events[|events| - 1];
      ServerItemsSurvive(start, init, o);
      RunKeepsOrder(start, init);
      var origin := OriginsOf(start, init);
      var k :| 0 <= k < |origin| && origin[k] == Some(o);
      assert KeepsId(start, Run(start, init), origin, k);
      StepKeepsServerItem(Run(start, init), origin, e, k);
    }
  }

  /** A new approval card stands directly before the first entry of the item it is about; with no such item it is last. */
  lemma CardStandsBefore(s: seq<Entry>, e: Event)
    requires e.Resolve? && e.request.approval
    ensures var t, card := Exec(s, e), ResolutionOf(e.request, e.decision, e.now);
      if e.request.itemId.Some? && HasId(s, e.request.itemId.value) then
        var at := IndexOf(s, e.request.itemId.value);
        |t| == |s| + 1 && t[at] == card && Some(t[at + 1]) == View(s, e.request.itemId.value) && t[..at] + t[at + 1..] == s
      else t == s + [card]
  {
    var x := ResolutionOf(e.request, e.decision, e.now);
    if e.request.itemId.Some? && HasId(s, e.request.itemId.value) {
      InsertedAt(s, IndexOf(s, e.request.itemId.value), x);
    } else {
      AppendIsInsert(s, x);
    }
  }

  lemma InsertedAt(items: seq<Entry>, at: nat, x: Entry)
    requires at < |items|
    ensures var t := Insert(items, at, x);
      |t| == |items| + 1 && t[at] == x && t[at + 1] == items[at] && t[..at] + t[at + 1..] == items
  {
  }

  // ---------------------------------------------------------------- what single events show

  /** A notification about one item, by the id it names; output may be addressed by its process instead. */
  predicate IsAbout(e: Event, id: string) {
    match e
    case Started(i, _, _, _) => i == id
    case Completed(i, _, _) => i == id
    case OutputDelta(itemId, processId, _) => itemId == Some(id) || (itemId == None && processId == Some(id))
    case Resolve(_, _, _) => false
    case Send(_, _, _) => false
    case _ => e.id == id
  }

  /** The notifications that change the entry shown under their id in one field of its own. */
  predicate Replaces(was: Entry, now: Entry, e: Event) {
    match e
    case PatchUpdated(_, changes) => now == was.(item := was.item.(changes := changes))
    case Progress(_, message) => now == was.(progress := message)
    case TextDelta(_, delta) => now == was.(item := was.item.(text := Some(OrEmpty(was.item.text) + OrEmpty(delta))))
    case OutputDelta(_, _, delta) => now == was.(item := was.item.(output := Some(OrEmpty(was.item.output) + OrEmpty(delta))))
    case _ => true
  }

  /** Text, output, patch and progress notifications reach the entry they name and change nothing else of it. */
  lemma NotificationReaches(s: seq<Entry>, e: Event, id: string)
    requires IsAbout(e, id) && !e.Started? && !e.Completed?
    ensures var was, now := View(s, id), View(Exec(s, e), id);
      if was.None? then Exec(s, e) == s else now.Some? && Replaces(was.value, now.value, e)
  {
    UpsertView(s, e, id);
  }

  /** An item that starts is shown with what the notification says of it. */
  lemma StartShows(s: seq<Entry>, e: Event)
    requires e.Started? && !IsLocal(e.id)
    ensures var was, now := View(s, e.id), View(Exec(s, e), e.id);
      && now.Some? && now.value.turnId == e.turnId && now.value.item == e.item && now.value.startedAt == e.startedAt
      && now.value.completedAt == (if was.Some? then was.value.completedAt else None)
      && now.value.progress == (if was.Some? then was.value.progress else None)
  {
    if e.item.kind == UserMessage {
      DropEchoesView(s, ContentText(e.item.content), e.id);
      UpsertView(DropEchoes(s, ContentText(e.item.content)), e, e.id);
    } else {
      UpsertView(s, e, e.id);
    }
  }

  /** An item whose start was never seen is shown from its completion on, with no turn. */
  lemma CompletionShows(s: seq<Entry>, e: Event)
    requires e.Completed? && !HasId(s, e.id) && e.item.kind != ApprovalResolution
    ensures View(Exec(s, e), e.id) == Some(Entry(e.id, "", e.item, None, e.completedAt, None))
  {
    UpsertView(s, e, e.id);
    MarkAllAt(Upsert(s, e.id, e), e.id, e.item, e.id);
  }

  // ---- the parts of a summary

  function SummaryOf(x: Entry): seq<string> { if x.item.summary.Some? then x.item.summary.value else [] }

  /** A delta goes on with the last part, or makes the first one. */
  lemma SummaryGrows(s: seq<Entry>, id: string, delta: string)
    requires HasId(s, id)
    ensures var was, now := SummaryOf(View(s, id).value), View(Exec(s, SummaryDelta(id, Some(delta))), id);
      && now.Some?
      && SummaryOf(now.value) == if was == [] then [delta] else was[..|was| - 1] + [was[|was| - 1] + delta]
  {
    UpsertView(s, SummaryDelta(id, Some(delta)), id);
  }

  /** A part that is added keeps what comes after it apart from what came before. */
  lemma PartSeparates(s: seq<Entry>, id: string, before: string, after: string)
    requires HasId(s, id)
    ensures var first := Exec(s, SummaryDelta(id, Some(before)));
      var t := Exec(Exec(first, SummaryPartAdded(id)), SummaryDelta(id, Some(after)));
      && View(first, id).Some? && View(t, id).Some?
      && SummaryOf(View(t, id).value) == SummaryOf(View(first, id).value) + [after]
  {
    SummaryGrows(s, id, before);
    var first := Exec(s, SummaryDelta(id, Some(before)));
    var second := Exec(first, SummaryPartAdded(id));
    UpsertView(first, SummaryPartAdded(id), id);
    var parts := SummaryOf(View(first, id).value);
    assert SummaryOf(View(second, id).value) == parts + [""];
    SummaryGrows(second, id, after);
    assert (parts + [""])[..|parts|] == parts && "" + after == after;
  }

  // ---- approval cards and messages of the user

  /** What a decision says. */
  predicate Accepts(decision: string) {
    decision == "accept" || decision == "approved" || AcceptsForSession(decision)
  }

  predicate AcceptsForSession(decision: string) {
    decision == "acceptForSession" || decision == "approved_for_session"
  }

  /** An answered approval request is shown as a card that says what was decided; other requests show nothing. */
  lemma CardShows(s: seq<Entry>, request: Request, decision: Option<string>, now: int)
    requires !HasId(s, "approval-" + request.id)
    ensures var t := Exec(s, Resolve(request, decision, now));
      var card := View(t, "approval-" + request.id);
      if !request.approval then t == s
      else
        && card.Some? && card.value.item.kind == ApprovalResolution && card.value.item.approvalItemId == request.itemId
        && card.value.item.decision == decision
        && (card.value.item.approved <==> decision.Some? && Accepts(decision.value))
        && (card.value.item.session <==> decision.Some? && AcceptsForSession(decision.value))
        && card.value.item.commandStatus == None && card.value.item.exitCode == None
        && card.value.turnId == OrEmpty(request.turnId) && card.value.completedAt == Some(now)
        && card.value.startedAt == if request.startedAt.Some? then request.startedAt else Some(now)
  {
    if request.approval {
      var card := ResolutionOf(request, decision, now);
      InsertedIsShown(s, if request.itemId.Some? then IndexOf(s, request.itemId.value) else |s|, card);
    }
  }

  lemma InsertedIsShown(items: seq<Entry>, at: nat, x: Entry)
    requires at <= |items| && !HasId(items, x.id)
    ensures View(Insert(items, at, x), x.id) == Some(x)
  {
    var t := Insert(items, at, x);
    AbsentMeans(t, x.id, at);
    var i := IndexOf(t, x.id);
    if i < at {
      assert t[i] == items[i];
      AbsentMeans(items, x.id, i);
    }
  }

  /** A message the user sends is shown last, at once, as pending. */
  lemma MessageShows(s: seq<Entry>, uuid: string, typed: string, now: int)
    ensures var t := Exec(s, Send(uuid, typed, now));
      && |t| == |s| + 1 && t[..|s|] == s && t[|s|].id == "local-" + uuid && t[|s|].turnId == "pending"
      && t[|s|].item.kind == UserMessage && ContentText(t[|s|].item.content) == typed
  {
    var parts := [TextPart(Some(typed))];
    assert parts[1..] == [] && TextParts(parts) == [typed];
  }

  /** Once the server reports a user message, no pending local copy with its text is left. */
  lemma {:induction false} EchoesAreDropped(items: seq<Entry>, text: string)
    ensures forall k :: 0 <= k < |DropEchoes(items, text)| ==> !IsEcho(DropEchoes(items, text)[k], text)
  {
    if items == [] {
    } else {
      EchoesAreDropped(items[1..], text);
    }
  }

  lemma NoEchoLeft(s: seq<Entry>, e: Event, k: nat)
    requires e.Started? && e.item.kind == UserMessage && !IsLocal(e.id) && k < |Exec(s, e)|
    ensures var x := Exec(s, e)[k];
      !("local-" <= x.id && x.turnId == "pending" && ContentText(x.item.content) == ContentText(e.item.content))
  {
    var text := ContentText(e.item.content);
    EchoesAreDropped(s, text);
    var kept := DropEchoes(s, text);
    if k < |kept| && Exec(s, e)[k] == kept[k] {
      assert !IsEcho(kept[k], text);
    }
  }
}
