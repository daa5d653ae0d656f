/**
 Reading back what updateShellConfig wrote: for every file and every patch, which settings come
 back as written, and which do not.
 */
module ShellRoundTrip {
  import opened Text
  import opened Settings
  import opened ShellConfig
  import opened ShellRewrite

  // ---------------------------------------------------------------- appended lines

  /** The patch adds a line for variable `k`. */
  predicate Adds(k: string, keys: seq<Field>, values: Config, seen: set<Field>) {
    match FieldNamed(k)
    case None => false
    case Some(f) => f in keys && f in values && f !in seen
  }

  lemma RenderedLine(f: Field, values: Config, k: string)
    requires Mapped(f) && f in values
    ensures var line := Render(ShellName(f), Format(f, values[f]), "");
      && (Defines(line, k) <==> FieldNamed(k) == Some(f))
      && (Defines(line, k) ==> ReadsBack(ValueIn(line), Format(f, values[f])))
  {
    FieldNamedIs(f);
    ShellNameIsPlain(f);
    PlainNameIsNotProto(ShellName(f));
    RenderIsAssignment(ShellName(f), Format(f, values[f]), "");
    QuotedReadsBack(Format(f, values[f]), "");
  }

  /** `now` is `was` with the variables of the added lines. */
  predicate Extended(was: map<string, string>, now: map<string, string>, keys: seq<Field>, values: Config, seen: set<Field>, k: string) {
    && (k in now <==> k in was || Adds(k, keys, values, seen))
    && (k in now ==>
          if Adds(k, keys, values, seen)
          then ReadsBack(now[k], Format(FieldNamed(k).value, values[FieldNamed(k).value]))
          else now[k] == was[k])
  }

  lemma ExtendStep(was: map<string, string>, mid: map<string, string>, keys: seq<Field>, values: Config, seen: set<Field>, k: string)
    requires keys != []
    ensures var more := AppendedFor(keys[|keys| - 1], values, seen);
      Extended(was, mid, keys[..|keys| - 1], values, seen, k)
      ==> Extended(was, if more == [] then mid else Store(mid, more[0]), keys, values, seen, k)
  {
    var f := keys[|keys| - 1];
    if f in values && f !in seen && Mapped(f) {
      RenderedLine(f, values, k);
      StoreDefines(mid, Render(ShellName(f), Format(f, values[f]), ""), k);
    }
  }

  lemma {:induction false} AppendedReads(base: seq<string>, keys: seq<Field>, values: Config, seen: set<Field>, k: string)
    ensures Extended(Variables(base), Variables(base + Appended(keys, values, seen)), keys, values, seen, k)
  {
    if keys == [] {
      assert base + [] == base;
    } else {
      var n := |keys| - 1;
      var lines := base + Appended(keys[..n], values, seen);
      AppendedReads(base, keys[..n], values, seen, k);
      ExtendStep(Variables(base), Variables(lines), keys, values, seen, k);
      AddedLine(lines, AppendedFor(keys[n], values, seen));
      assert base + Appended(keys, values, seen) == lines + AppendedFor(keys[n], values, seen);
    }
  }

  lemma AddedLine(lines: seq<string>, more: seq<string>)
    requires |more| <= 1
    ensures Variables(lines + more) == if more == [] then Variables(lines) else Store(Variables(lines), more[0])
  {
    if more == [] {
      assert lines + more == lines;
    } else {
      assert (lines + more)[..|lines|] == lines;
    }
  }

  // ---------------------------------------------------------------- carriage returns do not matter

  lemma SameStore(vars: map<string, string>, a: string, b: string)
    ensures ReadAssignment(a) == ReadAssignment(b) ==> Store(vars, a) == Store(vars, b)
  {
  }

  lemma {:induction false} SameAssignments(a: seq<string>, b: seq<string>)
    requires |a| == |b|
    requires forall i :: 0 <= i < |a| ==> ReadAssignment(a[i]) == ReadAssignment(b[i])
    ensures Variables(a) == Variables(b)
  {
    if a == [] {
    } else {
      SameAssignments(a[..|a| - 1], b[..|b| - 1]);
      SameStore(Variables(a[..|a| - 1]), a[|a| - 1], b[|b| - 1]);
    }
  }

  lemma {:induction false} ChompedAt(lines: seq<string>, i: nat)
    requires i < |lines|
    ensures ChompAllButLast(lines)[i] == if i == |lines| - 1 then lines[i] else ChompCr(lines[i])
  {
    if i == 0 {
    } else {
      ChompedAt(lines[1..], i - 1);
    }
  }

  /** A carriage return at the end of a line makes no difference to what the line assigns. */
  lemma ChompedReadSame(lines: seq<string>, i: nat)
    requires i < |lines|
    ensures ReadAssignment(ChompAllButLast(lines)[i]) == ReadAssignment(lines[i])
  {
    ChompedAt(lines, i);
    TrimChomped(lines[i]);
  }

  // ---------------------------------------------------------------- newline-free values

  predicate NewlineFree(values: Config) {
    forall f :: f in values && values[f].Words? ==> '\n' !in values[f].text
  }

  lemma RenderNewline(name: string, text: string, comment: string)
    ensures '\n' in Render(name, text, comment) <==> '\n' in name || '\n' in text || '\n' in comment
  {
    var q := SingleQuote(text);
    EscapeKeeps(text, '\n');
    assert '\n' in text <==> '\n' in multiset(text);
    assert '\n' in EscapeQuotes(text) <==> '\n' in multiset(EscapeQuotes(text));
    assert '\n' in q <==> '\n' in text;
    assert '\n' in q + Suffix(comment) <==> '\n' in q || '\n' in comment;
  }

  lemma FormatNewline(f: Field, values: Config)
    requires Mapped(f) && f in values && NewlineFree(values)
    ensures '\n' !in Format(f, values[f])
  {
  }

  lemma AssignmentNewline(line: string)
    requires '\n' !in line && ReadAssignment(line).Some?
    ensures var a := ReadAssignment(line).value; '\n' !in a.key && '\n' !in a.rhs
  {
    var trimmed := Trim(line);
    TrimKeepsOut(line, '\n');
    var eq := IndexOf(trimmed, '=');
    TrimKeepsOut(trimmed[..eq], '\n');
    TrimKeepsOut(trimmed[eq + 1..], '\n');
  }

  lemma RewriteLineNewline(line: string, values: Config)
    requires '\n' !in line && NewlineFree(values)
    ensures '\n' !in RewriteLine(line, values)
  {
    if Target(line, values).Some? {
      var f := Target(line, values).value;
      var a := ReadAssignment(line).value;
      AssignmentNewline(line);
      FormatNewline(f, values);
      RenderNewline(a.key, Format(f, values[f]), Comment(a.rhs));
    }
  }

  lemma AppendedForNewline(f: Field, values: Config, seen: set<Field>)
    requires NewlineFree(values)
    ensures forall line :: line in AppendedFor(f, values, seen) ==> '\n' !in line
  {
    if f in values && f !in seen && Mapped(f) {
      ShellNameIsPlain(f);
      var name := ShellName(f);
      PlainNameIsKey(name);
      FormatNewline(f, values);
      RenderNewline(name, Format(f, values[f]), "");
    }
  }

  lemma {:induction false} AppendedNewline(keys: seq<Field>, values: Config, seen: set<Field>)
    requires NewlineFree(values)
    ensures forall line :: line in Appended(keys, values, seen) ==> '\n' !in line
  {
    if keys == [] {
    } else {
      AppendedNewline(keys[..|keys| - 1], values, seen);
      AppendedForNewline(keys[|keys| - 1], values, seen);
    }
  }

  lemma RewrittenNewline(content: string, p: Patch)
    requires NewlineFree(p.values)
    ensures forall line :: line in RewrittenLines(content, p) ==> '\n' !in line
  {
    var lines := SplitLines(content);
    forall line | line in RewriteLines(lines, p.values) ensures '\n' !in line {
      var i :| 0 <= i < |lines| && line == RewriteLines(lines, p.values)[i];
      RewriteLineNewline(lines[i], p.values);
    }
    AppendedNewline(p.keys, p.values, Touched(lines, p.values));
  }

  // ---------------------------------------------------------------- re-reading the rewritten file

  function Parsed(content: string): map<string, string> { Variables(SplitLines(content)) }

  /** The patch has a value for variable `k`. */
  predicate Patches(p: Patch, k: string) {
    FieldNamed(k).Some? && FieldNamed(k).value in p.values
  }

  function Written(p: Patch, k: string): string
    requires Patches(p, k)
  {
    Format(FieldNamed(k).value, p.values[FieldNamed(k).value])
  }

  lemma RereadIsVariables(content: string, p: Patch)
    requires NewlineFree(p.values)
    ensures Parsed(Rewrite(content, p)) == Variables(RewrittenLines(content, p))
  {
    var lines := RewrittenLines(content, p);
    RewrittenNewline(content, p);
    SplitOfJoin(lines);
    forall i | 0 <= i < |lines| ensures ReadAssignment(ChompAllButLast(lines)[i]) == ReadAssignment(lines[i]) {
      ChompedReadSame(lines, i);
    }
    SameAssignments(ChompAllButLast(lines), lines);
  }

  lemma TouchedOrAdded(lines: seq<string>, p: Patch, k: string)
    requires p.Valid()
    ensures Adds(k, p.keys, p.values, Touched(lines, p.values)) <==> Patches(p, k) && k !in Variables(lines)
  {
  }

  /**
   One variable before and after an update. One that the patch does not set keeps its value or its
   absence; one it sets is defined, and reads back as written exactly when the text has no quote.
   */
  predicate Reread(was: map<string, string>, now: map<string, string>, p: Patch, k: string) {
    && (k in now <==> k in was || Patches(p, k))
    && (k in now ==> if Patches(p, k) then ReadsBack(now[k], Written(p, k)) else now[k] == was[k])
  }

  /** The frame of the rewriter, for every file, patch and variable. */
  lemma RereadVariable(content: string, p: Patch, k: string)
    requires p.Valid() && NewlineFree(p.values)
    ensures Reread(Parsed(content), Parsed(Rewrite(content, p)), p, k)
  {
    var lines := SplitLines(content);
    var rewritten := RewriteLines(lines, p.values);
    RereadIsVariables(content, p);
    RewriteOverrides(lines, p.values);
    AppendedReads(rewritten, p.keys, p.values, Touched(lines, p.values), k);
    TouchedOrAdded(lines, p, k);
    assert k in Variables(lines) ==> Replaced(k, Variables(lines)[k], Variables(rewritten)[k], p.values);
  }

  // ---------------------------------------------------------------- values with a newline

  lemma {:induction false} ValuesHaveNoNewline(lines: seq<string>, k: string)
    requires forall line :: line in lines ==> '\n' !in line
    requires k in Variables(lines)
    ensures '\n' !in Variables(lines)[k]
  {
    var n := |lines| - 1;
    StoreDefines(Variables(lines[..n]), lines[n], k);
    if Defines(lines[n], k) {
      AssignmentNewline(lines[n]);
      ReadValueNewline(ReadAssignment(lines[n]).value.rhs);
    } else {
      ValuesHaveNoNewline(lines[..n], k);
    }
  }

  lemma ReadValueNewline(rhs: string)
    requires '\n' !in rhs
    ensures '\n' !in ReadValue(rhs)
  {
    var hash := UnquotedHash(rhs);
    if hash >= 0 {
      TrimKeepsOut(rhs[..hash], '\n');
    }
  }

  lemma LastOf(lines: seq<string>, line: string)
    requires line in lines
    ensures line == lines[|lines| - 1] || line in lines[..|lines| - 1]
  {
  }

  lemma {:induction false} DefinedSomewhere(lines: seq<string>, line: string, k: string)
    requires line in lines && Defines(line, k)
    ensures k in Variables(lines)
  {
    var n := |lines| - 1;
    StoreDefines(Variables(lines[..n]), lines[n], k);
    LastOf(lines, line);
    if line != lines[n] {
      DefinedSomewhere(lines[..n], line, k);
    }
  }

  /** Whatever comes before, the lines of `b` are still lines of the whole text. */
  lemma {:induction false} SplitTail(a: string, b: string, line: string)
    requires line in SplitLines(b)
    ensures line in SplitLines(a + "\n" + b)
    decreases |a|
  {
    var i := IndexOf(a, '\n');
    if i < 0 {
      SplitPrefix(a, b);
    } else {
      SplitTail(a[i + 1..], b, line);
      CutAtNewline(a, b, i);
      SplitPrefix(a[..i], a[i + 1..] + "\n" + b);
    }
  }

  /** A line that starts with NAME=' assigns to NAME, whatever follows. */
  lemma OpeningDefines(name: string, rest: string)
    requires PlainName(name)
    ensures Defines(name + "='" + rest, name)
  {
    var line := name + "='" + rest;
    PlainNameIsKey(name);
    PlainNameIsNotProto(name);
    TrimOfTrimmed(name);
    assert TrimStart(line) == line;
    var t := TrimEnd(line);
    TrimEndReaches(line, |name| + 1);
    assert t[..|name|] == name && t[|name|] == '=';
    IndexOfIs(t, '=', |name|);
  }

  /** ... also when the text after it contains newlines: the first line still opens with NAME='. */
  lemma OpeningOfText(name: string, rest: string) returns (line: string)
    requires PlainName(name)
    ensures line in SplitLines(name + "='" + rest) && Defines(line, name)
  {
    var text := name + "='" + rest;
    PlainNameIsKey(name);
    line := SplitLines(text)[0];
    FirstLineKeeps(name, rest);
    OpeningDefines(name, line[|name| + 2..]);
  }

  lemma FirstLineKeeps(name: string, rest: string)
    requires '\n' !in name
    ensures var line := SplitLines(name + "='" + rest)[0];
      |line| >= |name| + 2 && line == name + "='" + line[|name| + 2..]
  {
    var head := name + "='";
    var line := SplitLines(head + rest)[0];
    assert line == head + line[|head|..];
  }

  lemma {:induction false} JoinFrom(lines: seq<string>, i: nat, line: string)
    requires i < |lines| && line in SplitLines(Join(lines[i..]))
    ensures line in SplitLines(Join(lines))
  {
    if i == 0 {
      assert lines[0..] == lines;
    } else {
      assert lines[1..][i - 1..] == lines[i..];
      JoinFrom(lines[1..], i - 1, line);
      SplitTail(lines[0], Join(lines[1..]), line);
    }
  }

  lemma OpeningInJoin(lines: seq<string>, i: nat, name: string, rest: string) returns (line: string)
    requires PlainName(name) && i < |lines| && lines[i] == name + "='" + rest
    ensures line in SplitLines(Join(lines)) && Defines(line, name)
  {
    var tail := JoinHead(lines[i..]);
    OpeningTail(name, rest, tail);
    line := OpeningOfText(name, rest + tail);
    JoinFrom(lines, i, line);
  }

  lemma JoinHead(lines: seq<string>) returns (tail: string)
    requires lines != []
    ensures Join(lines) == lines[0] + tail
  {
    tail := if |lines| == 1 then "" else "\n" + Join(lines[1..]);
    assert |lines| == 1 ==> lines[0] + "" == lines[0];
  }

  lemma OpeningTail(name: string, rest: string, tail: string)
    ensures name + "='" + rest + tail == name + "='" + (rest + tail)
  {
  }

  /** A patched variable is defined in the rewritten file even when its text contains newlines. */
  lemma PatchedIsDefined(content: string, p: Patch, f: Field)
    requires p.Valid() && f in p.values && Mapped(f)
    ensures ShellName(f) in Parsed(Rewrite(content, p))
  {
    var name := ShellName(f);
    ShellNameIsPlain(f);
    var i, rest := PatchedLine(content, p, f);
    var line := OpeningInJoin(RewrittenLines(content, p), i, name, rest);
    DefinedSomewhere(SplitLines(Rewrite(content, p)), line, name);
  }

  lemma PatchedLine(content: string, p: Patch, f: Field) returns (i: nat, rest: string)
    requires p.Valid() && f in p.values && Mapped(f)
    ensures i < |RewrittenLines(content, p)| && RewrittenLines(content, p)[i] == ShellName(f) + "='" + rest
  {
    var comment;
    i, comment := PatchedRender(SplitLines(content), p, f);
    rest := RenderOpens(ShellName(f), Format(f, p.values[f]), comment);
  }

  lemma PatchedRender(lines: seq<string>, p: Patch, f: Field) returns (i: nat, comment: string)
    requires p.Valid() && f in p.values && Mapped(f)
    ensures var r := RewriteLines(lines, p.values) + Appended(p.keys, p.values, Touched(lines, p.values));
      i < |r| && r[i] == Render(ShellName(f), Format(f, p.values[f]), comment)
  {
    if f in Touched(lines, p.values) {
      i := TouchedLine(lines, ShellName(f));
      TargetIs(lines[i], p.values, f);
      comment := Comment(ReadAssignment(lines[i]).value.rhs);
    } else {
      var j := AppendedLine(p.keys, p.values, Touched(lines, p.values), f);
      i := |lines| + j;
      comment := "";
    }
  }

  lemma RenderOpens(name: string, text: string, comment: string) returns (rest: string)
    ensures Render(name, text, comment) == name + "='" + rest
  {
    rest := EscapeQuotes(text) + "'" + Suffix(comment);
    assert SingleQuote(text) + Suffix(comment) == "'" + rest;
  }

  lemma {:induction false} TouchedLine(lines: seq<string>, k: string) returns (i: nat)
    requires k in Variables(lines)
    ensures i < |lines| && Defines(lines[i], k)
  {
    var n := |lines| - 1;
    StoreDefines(Variables(lines[..n]), lines[n], k);
    if Defines(lines[n], k) {
      i := n;
    } else {
      i := TouchedLine(lines[..n], k);
    }
  }

  lemma {:induction false} AppendedLine(keys: seq<Field>, values: Config, seen: set<Field>, f: Field) returns (i: nat)
    requires f in keys && f in values && f !in seen && Mapped(f)
    ensures i < |Appended(keys, values, seen)|
    ensures Appended(keys, values, seen)[i] == Render(ShellName(f), Format(f, values[f]), "")
  {
    var n := |keys| - 1;
    if keys[n] == f {
      i := |Appended(keys[..n], values, seen)|;
    } else {
      i := AppendedLine(keys[..n], values, seen, f);
    }
  }
}
