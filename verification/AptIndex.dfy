/**
 The parser of an apt Packages index. It walks over the characters once; what it must find is stated by
 lines, stanzas and fields, as section 5.1 of the Debian Policy Manual describes a control file.
 */
module AptIndex {
  import opened Text

  datatype Package = Package(name: string, description: Option<string>, version: Option<string>)

  // ---------------------------------------------------------------- the specification

  function ChompAll(lines: seq<string>): (r: seq<string>)
    ensures |r| == |lines|
  {
    if lines == [] then [] else [ChompCr(lines[0])] + ChompAll(lines[1..])
  }

  /** The lines of the index, each short of one trailing carriage return. */
  function Lines(text: string): seq<string> {
    ChompAll(Split(text))
  }

  /** The stanzas between the empty lines; two neighbouring empty lines have an empty stanza between them. */
  function Stanzas(lines: seq<string>): (r: seq<seq<string>>)
    ensures |r| >= 1
  {
    if lines == [] then [[]]
    else if lines[0] == "" then [[]] + Stanzas(lines[1..])
    else
      var rest := Stanzas(lines[1..]);
      [[lines[0]] + rest[0]] + rest[1..]
  }

  /** The field a line sets: none for a line that continues the one before or that has no colon. */
  function FieldOf(line: string): Option<(string, string)> {
    if line != "" && (line[0] == ' ' || line[0] == '\t') then None
    else
      var colon := IndexOf(line, ':');
      if colon < 0 then None else Some((line[..colon], Trim(line[colon + 1..])))
  }

  predicate Sets(line: string, key: string) {
    FieldOf(line).Some? && FieldOf(line).value.0 == key
  }

  /** The value the last line setting a field gives it. */
  function LastValue(stanza: seq<string>, key: string): Option<string> {
    if stanza == [] then None
    else
      var last := stanza[|stanza| - 1];
      if Sets(last, key) then Some(FieldOf(last).value.1) else LastValue(stanza[..|stanza| - 1], key)
  }

  /** A stanza yields a package when its Package field is there and not empty. */
  function RecordOf(stanza: seq<string>): seq<Package> {
    var name := LastValue(stanza, "Package");
    if name.Some? && name.value != ""
    then [Package(name.value, LastValue(stanza, "Description"), LastValue(stanza, "Version"))]
    else []
  }

  function Records(stanzas: seq<seq<string>>): seq<Package> {
    if stanzas == [] then []
    else Records(stanzas[..|stanzas| - 1]) + RecordOf(stanzas[|stanzas| - 1])
  }

  function Parsed(text: string): seq<Package> {
    Records(Stanzas(Lines(text)))
  }

  // ---------------------------------------------------------------- laws of the specification

  /** Puts an empty line between neighbouring stanzas. */
  function Rejoin(stanzas: seq<seq<string>>): seq<string> {
    if stanzas == [] then []
    else if |stanzas| == 1 then stanzas[0]
    else stanzas[0] + [""] + Rejoin(stanzas[1..])
  }

  /** Every line is in just one stanza, in place, and no stanza holds an empty line. */
  lemma {:induction false} StanzasPartition(lines: seq<string>)
    ensures Rejoin(Stanzas(lines)) == lines
    ensures forall k :: 0 <= k < |Stanzas(lines)| ==> "" !in Stanzas(lines)[k]
  {
    if lines == [] {
    } else {
      StanzasPartition(lines[1..]);
      var rest := Stanzas(lines[1..]);
      var all := Stanzas(lines);
      assert lines == [lines[0]] + lines[1..];
      if lines[0] == "" {
        assert all[1..] == rest;
      } else {
        assert all[1..] == rest[1..];
        RejoinGrow(lines[0], rest);
      }
    }
  }

  lemma RejoinGrow(line: string, rest: seq<seq<string>>)
    requires rest != []
    ensures Rejoin([[line] + rest[0]] + rest[1..]) == [line] + Rejoin(rest)
  {
    var all := [[line] + rest[0]] + rest[1..];
    assert all[1..] == rest[1..];
    if |rest| > 1 {
      assert [line] + rest[0] + [""] + Rejoin(rest[1..]) == [line] + (rest[0] + [""] + Rejoin(rest[1..]));
    }
  }

  predicate SetsAt(stanza: seq<string>, key: string, k: nat) {
    k < |stanza| && Sets(stanza[k], key)
  }

  /** The value of a field is that of the last line that sets it. */
  lemma {:induction false} LastValueIs(stanza: seq<string>, key: string, k: nat)
    requires SetsAt(stanza, key, k) && forall j :: k < j < |stanza| ==> !SetsAt(stanza, key, j)
    ensures LastValue(stanza, key) == Some(FieldOf(stanza[k]).value.1)
  {
    var last := |stanza| - 1;
    if k < last {
      assert !SetsAt(stanza, key, last);
      forall j | k < j < last ensures !SetsAt(stanza[..last], key, j) {
        assert !SetsAt(stanza, key, j);
      }
      LastValueIs(stanza[..last], key, k);
    }
  }

  /** A field that no line sets has no value. */
  lemma {:induction false} LastValueNone(stanza: seq<string>, key: string)
    requires forall j :: 0 <= j < |stanza| ==> !SetsAt(stanza, key, j)
    ensures LastValue(stanza, key) == None
  {
    if stanza == [] {
    } else {
      var last := |stanza| - 1;
      assert !SetsAt(stanza, key, last);
      forall j | 0 <= j < last ensures !SetsAt(stanza[..last], key, j) {
        assert !SetsAt(stanza, key, j);
      }
      LastValueNone(stanza[..last], key);
    }
  }

  lemma {:induction false} StanzasConcat(a: seq<string>, b: seq<string>)
    ensures Stanzas(a + [""] + b) == Stanzas(a) + Stanzas(b)
  {
    var all := a + [""] + b;
    if a == [] {
      assert all[1..] == b;
    } else {
      assert all[1..] == a[1..] + [""] + b;
      StanzasConcat(a[1..], b);
    }
  }

  lemma RecordsSnoc(stanzas: seq<seq<string>>, last: seq<string>)
    ensures Records(stanzas + [last]) == Records(stanzas) + RecordOf(last)
  {
    assert (stanzas + [last])[..|stanzas|] == stanzas;
  }

  lemma PackagesAssoc(a: seq<Package>, b: seq<Package>, c: seq<Package>)
    ensures a + (b + c) == a + b + c
  {
  }

  lemma RecordsConcatSnoc(a: seq<seq<string>>, init: seq<seq<string>>, last: seq<string>,
                          before: seq<seq<string>>, b: seq<seq<string>>, all: seq<seq<string>>)
    requires b == init + [last] && all == before + [last] && Records(before) == Records(a) + Records(init)
    ensures Records(all) == Records(a) + Records(b)
  {
    RecordsSnoc(before, last);
    RecordsSnoc(init, last);
    PackagesAssoc(Records(a), Records(init), RecordOf(last));
  }

  lemma {:induction false} RecordsConcat(a: seq<seq<string>>, b: seq<seq<string>>)
    ensures Records(a + b) == Records(a) + Records(b)
  {
    if b == [] {
      assert a + b == a;
    } else {
      var init, last := b[..|b| - 1], b[|b| - 1];
      assert b == init + [last] && a + b == a + init + [last];
      RecordsConcat(a, init);
      RecordsConcatSnoc(a, init, last, a + init, b, a + b);
    }
  }

  lemma {:induction false} ChompAllConcat(a: seq<string>, b: seq<string>)
    ensures ChompAll(a + b) == ChompAll(a) + ChompAll(b)
  {
    if a == [] {
      assert a + b == b;
    } else {
      assert (a + b)[1..] == a[1..] + b;
      ChompAllConcat(a[1..], b);
    }
  }

  lemma AppendAssoc(a: seq<string>, b: seq<string>, c: seq<string>)
    ensures a + (b + c) == a + b + c
  {
  }

  lemma LinesConcat(a: string, b: string)
    ensures Lines(a + "\n" + b) == Lines(a) + Lines(b)
  {
    SplitConcat(a, b);
    ChompAllConcat(Split(a), Split(b));
  }

  lemma LinesOne(a: string)
    requires '\n' !in a
    ensures Lines(a) == [ChompCr(a)]
  {
    assert Split(a) == [a];
  }

  lemma EndedLine(a: string)
    ensures Lines(a + "\n") == Lines(a) + [""]
  {
    assert a + "\n" + "" == a + "\n";
    LinesConcat(a, "");
    LinesOne("");
  }

  lemma RecordsOfConcat(a: seq<string>, b: seq<string>)
    ensures Records(Stanzas(a + [""] + b)) == Records(Stanzas(a)) + Records(Stanzas(b))
  {
    StanzasConcat(a, b);
    RecordsConcat(Stanzas(a), Stanzas(b));
  }

  /** Two indexes with an empty line between them are read one after the other. */
  lemma ParsedConcat(a: string, b: string)
    ensures Parsed(a + "\n" + "\n" + b) == Parsed(a) + Parsed(b)
  {
    LinesConcat(a + "\n", b);
    EndedLine(a);
    RecordsOfConcat(Lines(a), Lines(b));
  }

  /** An empty line may end with a carriage return too. */
  lemma CarriageReturnSeparates(a: string, b: string)
    ensures Parsed(a + "\n" + ("\r" + "\n" + b)) == Parsed(a) + Parsed(b)
  {
    LinesConcat(a, "\r" + "\n" + b);
    LinesConcat("\r", b);
    LinesOne("\r");
    assert ChompCr("\r") == "";
    AppendAssoc(Lines(a), [""], Lines(b));
    RecordsOfConcat(Lines(a), Lines(b));
  }

  lemma NoRecordOfNothing()
    ensures Records(Stanzas([])) == []
  {
    var empty: seq<seq<string>> := [[]];
    assert empty[..0] == [] && RecordOf([]) == [];
  }

  /** A missing final newline makes no difference. */
  lemma FinalNewlineIsOptional(text: string)
    ensures Parsed(text + "\n") == Parsed(text)
  {
    EndedLine(text);
    RecordsOfConcat(Lines(text), []);
    assert Lines(text) + [""] + [] == Lines(text) + [""];
    NoRecordOfNothing();
  }

  // ---------------------------------------------------------------- a stanza as it is written

  /** A line of a stanza: `key:value`, the continuation of the line before, or a line without a colon. */
  datatype Entry = Setting(key: string, value: string) | Continuation(text: string) | Other(text: string)

  function Rendered(e: Entry): string {
    match e case Setting(key, value) => key + ":" + value case Continuation(text) => text case Other(text) => text
  }

  predicate StartsIndented(line: string) { line != "" && (line[0] == ' ' || line[0] == '\t') }

  predicate IsEntry(e: Entry) {
    match e
    case Setting(key, value) => ':' !in key && '\n' !in key && '\n' !in value && !StartsIndented(key)
    case Continuation(text) => StartsIndented(text) && '\n' !in text
    case Other(text) => ':' !in text && '\n' !in text && ChompCr(text) != "" && !StartsIndented(text)
  }

  predicate AreEntries(entries: seq<Entry>) { forall k :: 0 <= k < |entries| ==> IsEntry(entries[k]) }

  function RenderAll(entries: seq<Entry>): (r: seq<string>)
    ensures |r| == |entries| && forall k :: 0 <= k < |r| ==> r[k] == Rendered(entries[k])
  {
    seq(|entries|, k requires 0 <= k < |entries| => Rendered(entries[k]))
  }

  function TextOf(entries: seq<Entry>): string { Join(RenderAll(entries)) }

  predicate SetsKey(entries: seq<Entry>, key: string, k: nat) {
    k < |entries| && entries[k].Setting? && entries[k].key == key
  }

  predicate SetsLast(entries: seq<Entry>, key: string, k: nat) {
    SetsKey(entries, key, k) && forall j :: k < j < |entries| ==> !SetsKey(entries, key, j)
  }

  /** The trimmed value of the last line that sets the key, if there is one. */
  ghost predicate LastIs(entries: seq<Entry>, key: string, value: Option<string>) {
    match value
    case None => forall k :: 0 <= k < |entries| ==> !SetsKey(entries, key, k)
    case Some(t) => exists k :: 0 <= k < |entries| && SetsLast(entries, key, k) && t == Trim(entries[k].value)
  }

  lemma ChompBehind(head: string, tail: string)
    requires !EndsWithCr(head)
    ensures ChompCr(head + tail) == head + ChompCr(tail)
  {
  }

  lemma FieldLine(key: string, rest: string)
    requires ':' !in key && !StartsIndented(key)
    ensures FieldOf(key + ":" + rest) == Some((key, Trim(rest)))
  {
    var line := key + ":" + rest;
    assert line[..|key|] == key && line[|key| + 1..] == rest;
    IndexOfIs(line, ':', |key|);
  }

  lemma SettingLine(key: string, value: string)
    requires ':' !in key && !StartsIndented(key)
    ensures FieldOf(ChompCr(key + ":" + value)) == Some((key, Trim(value)))
  {
    ChompBehind(key + ":", value);
    FieldLine(key, ChompCr(value));
    TrimChomped(value);
  }

  /** What one line sets. */
  lemma EntryLine(e: Entry)
    requires IsEntry(e)
    ensures var line := ChompCr(Rendered(e));
      && line != "" && '\n' !in Rendered(e)
      && FieldOf(line) == if e.Setting? then Some((e.key, Trim(e.value))) else None
  {
    match e
    case Setting(key, value) => SettingLine(key, value);
    case Continuation(text) => assert ChompCr(text)[0] == text[0];
    case Other(text) => assert forall i :: 0 <= i < |ChompCr(text)| ==> ChompCr(text)[i] == text[i];
  }

  lemma {:induction false} ChompAllAt(lines: seq<string>, k: nat)
    requires k < |lines|
    ensures ChompAll(lines)[k] == ChompCr(lines[k])
  {
    if k == 0 {
    } else {
      ChompAllAt(lines[1..], k - 1);
    }
  }

  lemma LinesOfText(entries: seq<Entry>)
    requires AreEntries(entries) && entries != []
    ensures Lines(TextOf(entries)) == ChompAll(RenderAll(entries))
    ensures "" !in Lines(TextOf(entries))
  {
    var lines := RenderAll(entries);
    forall k | 0 <= k < |lines| ensures '\n' !in lines[k] && ChompAll(lines)[k] != "" {
      EntryLine(entries[k]);
      ChompAllAt(lines, k);
    }
    SplitJoined(lines);
  }

  lemma {:induction false} OneStanza(lines: seq<string>)
    requires "" !in lines
    ensures Stanzas(lines) == [lines]
  {
    if lines == [] {
    } else {
      assert forall line :: line in lines[1..] ==> line in lines;
      OneStanza(lines[1..]);
      assert lines == [lines[0]] + lines[1..];
    }
  }

  lemma SetsAtIs(entries: seq<Entry>, key: string, k: nat)
    requires AreEntries(entries) && k < |entries|
    ensures SetsAt(ChompAll(RenderAll(entries)), key, k) <==> SetsKey(entries, key, k)
    ensures SetsKey(entries, key, k) ==>
              FieldOf(ChompAll(RenderAll(entries))[k]) == Some((key, Trim(entries[k].value)))
  {
    EntryLine(entries[k]);
    ChompAllAt(RenderAll(entries), k);
  }

  lemma LastValueOf(entries: seq<Entry>, key: string, value: Option<string>)
    requires AreEntries(entries) && LastIs(entries, key, value)
    ensures LastValue(ChompAll(RenderAll(entries)), key) == value
  {
    var lines := ChompAll(RenderAll(entries));
    forall k | 0 <= k < |entries| ensures SetsAt(lines, key, k) <==> SetsKey(entries, key, k) {
      SetsAtIs(entries, key, k);
    }
    if value.None? {
      LastValueNone(lines, key);
    } else {
      var k :| 0 <= k < |entries| && SetsLast(entries, key, k) && value.value == Trim(entries[k].value);
      SetsAtIs(entries, key, k);
      LastValueIs(lines, key, k);
    }
  }

  lemma RecordsOfOne(stanza: seq<string>)
    ensures Records([stanza]) == RecordOf(stanza)
  {
    assert [stanza][..0] == [];
    assert Records([]) + RecordOf(stanza) == RecordOf(stanza);
  }

  lemma NoText()
    ensures Parsed("") == []
  {
    LinesOne("");
    RecordsOfConcat([], []);
    assert [] + [""] + [] == [""];
    NoRecordOfNothing();
  }

  /**
   A stanza, line by line: one package if its last Package line has a value that is not blank, and none
   otherwise; each field has the trimmed value of the last line that sets it. Indented lines and lines
   without a colon set nothing.
   */
  lemma StanzaReads(entries: seq<Entry>, name: Option<string>, description: Option<string>, version: Option<string>)
    requires AreEntries(entries)
    requires LastIs(entries, "Package", name) && LastIs(entries, "Description", description) && LastIs(entries, "Version", version)
    ensures Parsed(TextOf(entries)) ==
            if name.Some? && name.value != "" then [Package(name.value, description, version)] else []
  {
    if entries == [] {
      NoText();
    } else {
      var lines := ChompAll(RenderAll(entries));
      LinesOfText(entries);
      OneStanza(lines);
      LastValueOf(entries, "Package", name);
      LastValueOf(entries, "Description", description);
      LastValueOf(entries, "Version", version);
      RecordsOfOne(lines);
    }
  }

  // ---------------------------------------------------------------- the loop

  function Last(stanzas: seq<seq<string>>): seq<string>
    requires stanzas != []
  {
    stanzas[|stanzas| - 1]
  }

  function AllButLast(stanzas: seq<seq<string>>): seq<seq<string>>
    requires stanzas != []
  {
    stanzas[..|stanzas| - 1]
  }

  /** The first `start` characters hold the lines `done`, and the line after them has no end before `i`. */
  predicate Scanned(text: string, start: nat, i: nat, done: seq<string>) {
    if start <= i <= |text|
    then Lines(text) == done + Lines(text[start..]) && '\n' !in text[start..i]
    else Lines(text) == done
  }

  /** The variables of the loop hold the closed stanzas' packages and the fields of the open stanza. */
  predicate Gathered(done: seq<string>, results: seq<Package>, name: Option<string>, description: Option<string>, version: Option<string>) {
    && results == Records(AllButLast(Stanzas(done)))
    && name == LastValue(Last(Stanzas(done)), "Package")
    && description == LastValue(Last(Stanzas(done)), "Description")
    && version == LastValue(Last(Stanzas(done)), "Version")
  }

  lemma LineGoesOn(text: string, start: nat, i: nat, done: seq<string>)
    requires start <= i < |text| && Scanned(text, start, i, done) && text[i] != '\n'
    ensures Scanned(text, start, i + 1, done)
  {
    assert text[start..i + 1] == text[start..i] + [text[i]];
  }

  lemma LineEnds(text: string, start: nat, i: nat, done: seq<string>)
    requires start <= i <= |text| && Scanned(text, start, i, done) && (i == |text| || text[i] == '\n')
    ensures Scanned(text, i + 1, i + 1, done + [ChompCr(text[start..i])])
  {
    var line := text[start..i];
    LinesOne(line);
    if i == |text| {
      assert text[start..] == line;
    } else {
      NewlineAt(text, start, i);
      LinesConcat(line, text[i + 1..]);
      AppendAssoc(done, [ChompCr(line)], Lines(text[i + 1..]));
    }
  }

  lemma NewlineAt(text: string, start: nat, i: nat)
    requires start <= i < |text| && text[i] == '\n'
    ensures text[start..] == text[start..i] + "\n" + text[i + 1..]
  {
  }

  /** How the stanzas grow by one line. */
  predicate Grows(s: seq<seq<string>>, t: seq<seq<string>>, line: string)
    requires s != [] && t != []
  {
    if line == "" then t == s + [[]] else AllButLast(t) == AllButLast(s) && Last(t) == Last(s) + [line]
  }

  lemma GrowsUnderEmpty(s: seq<seq<string>>, t: seq<seq<string>>, line: string)
    requires s != [] && t != [] && Grows(s, t, line)
    ensures Grows([[]] + s, [[]] + t, line)
  {
    if line != "" {
      assert AllButLast([[]] + t) == [[]] + AllButLast(t);
      assert AllButLast([[]] + s) == [[]] + AllButLast(s);
    }
  }

  lemma GrowsUnderLine(s: seq<seq<string>>, t: seq<seq<string>>, first: string, line: string)
    requires s != [] && t != [] && Grows(s, t, line)
    ensures Grows([[first] + s[0]] + s[1..], [[first] + t[0]] + t[1..], line)
  {
    var s', t' := [[first] + s[0]] + s[1..], [[first] + t[0]] + t[1..];
    if line == "" {
      assert t[0] == s[0] && t[1..] == s[1..] + [[]];
    } else if |s| == 1 {
      assert |AllButLast(t)| == 0;
      assert Last(t') == [first] + t[0] && Last(s') == [first] + s[0];
    } else {
      assert |AllButLast(t)| == |AllButLast(s)|;
      assert t[0] == AllButLast(t)[0] && s[0] == AllButLast(s)[0];
      assert AllButLast(t') == [[first] + t[0]] + AllButLast(t)[1..];
      assert AllButLast(s') == [[first] + s[0]] + AllButLast(s)[1..];
    }
  }

  lemma {:induction false} StanzasSnoc(lines: seq<string>, line: string)
    ensures Grows(Stanzas(lines), Stanzas(lines + [line]), line)
  {
    if lines == [] {
      assert (lines + [line])[1..] == [];
    } else {
      assert (lines + [line])[1..] == lines[1..] + [line];
      StanzasSnoc(lines[1..], line);
      if lines[0] == "" {
        GrowsUnderEmpty(Stanzas(lines[1..]), Stanzas(lines[1..] + [line]), line);
      } else {
        GrowsUnderLine(Stanzas(lines[1..]), Stanzas(lines[1..] + [line]), lines[0], line);
      }
    }
  }

  lemma LastValueSnoc(stanza: seq<string>, line: string, key: string)
    ensures LastValue(stanza + [line], key) == if Sets(line, key) then Some(FieldOf(line).value.1) else LastValue(stanza, key)
  {
    assert (stanza + [line])[..|stanza|] == stanza;
  }

  /** An empty line closes the stanza. */
  lemma GatherEmpty(done: seq<string>, results: seq<Package>, name: Option<string>, description: Option<string>, version: Option<string>)
    requires Gathered(done, results, name, description, version)
    ensures Gathered(done + [""], results + RecordOf(Last(Stanzas(done))), None, None, None)
  {
    StanzasSnoc(done, "");
    var s := Stanzas(done);
    assert AllButLast(s + [[]]) == s && Last(s + [[]]) == [];
  }

  /** Any other line adds to the open stanza. */
  lemma GatherLine(done: seq<string>, line: string, results: seq<Package>, name: Option<string>, description: Option<string>, version: Option<string>)
    requires Gathered(done, results, name, description, version) && line != ""
    ensures Gathered(done + [line], results,
                     if Sets(line, "Package") then Some(FieldOf(line).value.1) else name,
                     if Sets(line, "Description") then Some(FieldOf(line).value.1) else description,
                     if Sets(line, "Version") then Some(FieldOf(line).value.1) else version)
  {
    StanzasSnoc(done, line);
    LastValueSnoc(Last(Stanzas(done)), line, "Package");
    LastValueSnoc(Last(Stanzas(done)), line, "Description");
    LastValueSnoc(Last(Stanzas(done)), line, "Version");
  }

  /** flush: the package gathered so far, if it has a name. */
  method Flush(results: seq<Package>, name: Option<string>, description: Option<string>, version: Option<string>) returns (r: seq<Package>)
    ensures forall stanza ::
      name == LastValue(stanza, "Package") && description == LastValue(stanza, "Description") && version == LastValue(stanza, "Version")
      ==> r == results + RecordOf(stanza)
  {
    r := results;
    if name.Some? && name.value != "" {
      r := r + [Package(name.value, description, version)];
    }
  }

  /** The if-chain of the loop body for one non-empty line. */
  method TakeLine(line: string, name: Option<string>, description: Option<string>, version: Option<string>)
    returns (name': Option<string>, description': Option<string>, version': Option<string>)
    requires line != ""
    ensures name' == if Sets(line, "Package") then Some(FieldOf(line).value.1) else name
    ensures description' == if Sets(line, "Description") then Some(FieldOf(line).value.1) else description
    ensures version' == if Sets(line, "Version") then Some(FieldOf(line).value.1) else version
  {
    name', description', version' := name, description, version;
    if line[0] == ' ' || line[0] == '\t' {
      return;
    }
    var separator := IndexOf(line, ':');
    if separator < 0 {
      return;
    }
    var key := line[..separator];
    var value := Trim(line[separator + 1..]);
    if key == "Package" {
      name' := Some(value);
    } else if key == "Description" {
      description' := Some(value);
    } else if key == "Version" {
      version' := Some(value);
    }
  }

  /** parseApt: one pass over the characters finds what the specification describes. */
  method ParseApt(text: string) returns (results: seq<Package>)
    ensures results == Parsed(text)
  {
    results := [];
    var name: Option<string>, description: Option<string>, version: Option<string> := None, None, None;
    var start, i := 0, 0;
    ghost var done: seq<string> := [];
    assert text[0..] == text;
    while i <= |text|
      invariant start <= i <= |text| + 1 && (i == |text| + 1 ==> start == i)
      invariant Scanned(text, start, i, done)
      invariant Gathered(done, results, name, description, version)
    {
      if i < |text| && text[i] != '\n' {
        LineGoesOn(text, start, i, done);
        i := i + 1;
        continue;
      }
      var line := ChompCr(text[start..i]);
      LineEnds(text, start, i, done);
      start := i + 1;
      i := i + 1;
      if line == "" {
        GatherEmpty(done, results, name, description, version);
        results := Flush(results, name, description, version);
        name, description, version := None, None, None;
      } else {
        GatherLine(done, line, results, name, description, version);
        name, description, version := TakeLine(line, name, description, version);
      }
      done := done + [line];
    }
    results := Flush(results, name, description, version);
  }
}
