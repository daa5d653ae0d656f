/**
 updateShellConfig: the line-preserving rewriter, and the theorem that reading the rewritten file
 gives the settings the caller already holds in memory.
 */
module ShellRewrite {
  import opened Text
  import opened Settings
  import opened ShellConfig

  function FindField(key: string, i: nat): (r: Option<Field>)
    requires i <= |FIELDS|
    ensures r.Some? ==> Mapped(r.value) && ShellName(r.value) == key
    ensures r.None? ==> forall j :: i <= j < |FIELDS| ==> ShellName(FIELDS[j]) != key
    decreases |FIELDS| - i
  {
    if i == |FIELDS| then None
    else if ShellName(FIELDS[i]) == key then Some(FIELDS[i])
    else FindField(key, i + 1)
  }

  /** The property a shell variable belongs to. */
  function FieldNamed(key: string): (r: Option<Field>)
    ensures r.Some? ==> Mapped(r.value) && ShellName(r.value) == key
  {
    FindField(key, 0)
  }

  lemma FieldNamedIs(f: Field)
    requires Mapped(f)
    ensures FieldNamed(ShellName(f)) == Some(f)
  {
    assert f in FIELDS;
    var r := FieldNamed(ShellName(f));
    ShellNameInjective(r.value, f);
  }

  // ---------------------------------------------------------------- the rewriter

  /** A Partial<IncusConfig>: its own keys in order; a key without a value holds `undefined`. */
  datatype Patch = Patch(keys: seq<Field>, values: Config) {
    predicate Valid() {
      && WellTyped(values)
      && (forall i, j :: 0 <= i < j < |keys| ==> keys[i] != keys[j])
      && (forall f :: f in values ==> f in keys)
    }
  }

  /** The property a line sets, if the patch has a value for it. */
  function Target(line: string, values: Config): (r: Option<Field>)
    ensures r.Some? ==> Mapped(r.value) && r.value in values && ReadAssignment(line).Some?
    ensures r.Some? ==> ShellName(r.value) == ReadAssignment(line).value.key
  {
    match ReadAssignment(line)
    case None => None
    case Some(a) =>
      match FieldNamed(a.key)
      case None => None
      case Some(f) => if f in values then Some(f) else None
  }

  function RewriteLine(line: string, values: Config): string {
    match Target(line, values)
    case None => line
    case Some(f) =>
      var a := ReadAssignment(line).value;
      Render(a.key, Format(f, values[f]), Comment(a.rhs))
  }

  function RewriteLines(lines: seq<string>, values: Config): (r: seq<string>)
    ensures |r| == |lines|
    ensures forall i :: 0 <= i < |lines| ==> r[i] == RewriteLine(lines[i], values)
  {
    if lines == [] then []
    else RewriteLines(lines[..|lines| - 1], values) + [RewriteLine(lines[|lines| - 1], values)]
  }

  /** The patched properties some line sets. */
  function Touched(lines: seq<string>, values: Config): set<Field> {
    set f | f in values && Sets(Variables(lines), f)
  }

  predicate Sets(vars: map<string, string>, f: Field) { Mapped(f) && ShellName(f) in vars }

  function Appended(keys: seq<Field>, values: Config, seen: set<Field>): seq<string> {
    if keys == [] then [] else
    var f := keys[|keys| - 1];
    Appended(keys[..|keys| - 1], values, seen) + AppendedFor(f, values, seen)
  }

  function AppendedFor(f: Field, values: Config, seen: set<Field>): seq<string> {
    if f in values && f !in seen && Mapped(f) then [Render(ShellName(f), Format(f, values[f]), "")] else []
  }

  lemma AppendedStep(keys: seq<Field>, i: nat, values: Config, seen: set<Field>)
    requires i < |keys|
    ensures Appended(keys[..i + 1], values, seen) == Appended(keys[..i], values, seen) + AppendedFor(keys[i], values, seen)
  {
    assert keys[..i + 1][..i] == keys[..i];
  }

  /** The new lines stand in the order of the keys. */
  lemma {:induction false} AppendedConcat(a: seq<Field>, b: seq<Field>, values: Config, seen: set<Field>)
    ensures Appended(a + b, values, seen) == Appended(a, values, seen) + Appended(b, values, seen)
  {
    if b == [] {
      assert a + b == a;
    } else {
      var init, f := b[..|b| - 1], b[|b| - 1];
      assert (a + b)[..|a + b| - 1] == a + init;
      AppendedConcat(a, init, values, seen);
      LinesAssoc(Appended(a, values, seen), Appended(init, values, seen), AppendedFor(f, values, seen));
    }
  }

  lemma LinesAssoc(a: seq<string>, b: seq<string>, c: seq<string>)
    ensures a + b + c == a + (b + c)
  {
  }

  lemma RewriteLinesStep(lines: seq<string>, i: nat, values: Config)
    requires i < |lines|
    ensures RewriteLines(lines[..i + 1], values) == RewriteLines(lines[..i], values) + [RewriteLine(lines[i], values)]
  {
    assert lines[..i + 1][..i] == lines[..i];
  }

  function RewrittenLines(content: string, p: Patch): seq<string> {
    var lines := SplitLines(content);
    RewriteLines(lines, p.values) + Appended(p.keys, p.values, Touched(lines, p.values))
  }

  function Rewrite(content: string, p: Patch): string {
    Join(RewrittenLines(content, p))
  }

  lemma TargetIs(line: string, values: Config, f: Field)
    requires f in values && Mapped(f)
    ensures Target(line, values) == Some(f) <==> Defines(line, ShellName(f))
  {
    FieldNamedIs(f);
    ShellNameIsPlain(f);
    PlainNameIsNotProto(ShellName(f));
  }

  lemma TouchedAt(lines: seq<string>, i: nat, values: Config, f: Field)
    requires i < |lines| && f in values
    ensures Sets(Variables(lines[..i + 1]), f)
       <==> Sets(Variables(lines[..i]), f) || Target(lines[i], values) == Some(f)
  {
    VariablesStep(lines, i);
    if Mapped(f) {
      TargetIs(lines[i], values, f);
      StoreDefines(Variables(lines[..i]), lines[i], ShellName(f));
    }
  }

  /** Reading one more line: the set of touched properties grows by the line's target. */
  lemma TouchedStep(lines: seq<string>, i: nat, values: Config)
    requires i < |lines|
    ensures Touched(lines[..i + 1], values)
         == Touched(lines[..i], values) + (match Target(lines[i], values) case None => {} case Some(f) => {f})
  {
    forall f | f in values {
      TouchedAt(lines, i, values, f);
    }
  }

  /** The function updateShellConfig maps over the lines. */
  method RewriteOne(line: string, values: Config) returns (newLine: string, target: Option<Field>)
    ensures newLine == RewriteLine(line, values) && target == Target(line, values)
  {
    newLine := line;
    target := Target(line, values);
    if target.Some? {
      var a := ReadAssignment(line).value;
      var hash := FindUnquotedHash(a.rhs);
      var comment := if hash >= 0 then a.rhs[hash..] else "";
      newLine := Render(a.key, Format(target.value, values[target.value]), comment);
    }
  }

  method UpdateShellConfig(content: string, updates: Patch) returns (result: string)
    requires updates.Valid()
    ensures result == Rewrite(content, updates)
  {
    var lines := SplitLines(content);
    var values := updates.values;
    var seen: set<Field> := {};
    var newLines: seq<string> := [];
    for i := 0 to |lines|
      invariant newLines == RewriteLines(lines[..i], values)
      invariant seen == Touched(lines[..i], values)
    {
      TouchedStep(lines, i, values);
      RewriteLinesStep(lines, i, values);
      var newLine, target := RewriteOne(lines[i], values);
      if target.Some? {
        seen := seen + {target.value};
      }
      newLines := newLines + [newLine];
    }
    assert lines[..|lines|] == lines;

    var appended: seq<string> := [];
    for i := 0 to |updates.keys|
      invariant appended == Appended(updates.keys[..i], values, seen)
    {
      AppendedStep(updates.keys, i, values, seen);
      var f := updates.keys[i];
      if f in values && f !in seen && Mapped(f) {
        appended := appended + [Render(ShellName(f), Format(f, values[f]), "")];
      }
    }
    assert updates.keys[..|updates.keys|] == updates.keys;
    result := Join(newLines + appended);
  }

  // ---------------------------------------------------------------- what the rewritten lines define

  /** `v` is what reading `text` back gives: `text` itself exactly when it has no single quote. */
  predicate ReadsBack(v: string, text: string) { v == text <==> '\'' !in text }

  /** `after` is `before` with the patched variables replaced. */
  predicate Overridden(before: map<string, string>, after: map<string, string>, values: Config) {
    && after.Keys == before.Keys
    && forall k :: k in before ==> Replaced(k, before[k], after[k], values)
  }

  predicate Replaced(k: string, was: string, now: string, values: Config) {
    match FieldNamed(k)
    case Some(f) => if f in values then ReadsBack(now, Format(f, values[f])) else now == was
    case None => now == was
  }

  lemma RewriteLineReads(line: string, values: Config, k: string)
    ensures Defines(line, k) <==> Defines(RewriteLine(line, values), k)
    ensures Defines(line, k) ==> Replaced(k, ValueIn(line), ValueIn(RewriteLine(line, values)), values)
  {
    if Target(line, values).Some? {
      var a := ReadAssignment(line).value;
      var f := Target(line, values).value;
      CommentIsComment(a.rhs);
      ShellNameIsPlain(f);
      FieldNamedIs(f);
      RenderIsAssignment(a.key, Format(f, values[f]), Comment(a.rhs));
      QuotedReadsBack(Format(f, values[f]), Comment(a.rhs));
    }
  }

  lemma StoreOverridesAt(before: map<string, string>, after: map<string, string>, line: string, values: Config, k: string)
    requires Overridden(before, after, values)
    ensures var line' := RewriteLine(line, values);
      && (k in Store(before, line) <==> k in Store(after, line'))
      && (k in Store(before, line) ==> Replaced(k, Store(before, line)[k], Store(after, line')[k], values))
  {
    RewriteLineReads(line, values, k);
    StoreDefines(before, line, k);
    StoreDefines(after, RewriteLine(line, values), k);
  }

  lemma StoreOverrides(before: map<string, string>, after: map<string, string>, line: string, values: Config)
    requires Overridden(before, after, values)
    ensures Overridden(Store(before, line), Store(after, RewriteLine(line, values)), values)
  {
    forall k {
      StoreOverridesAt(before, after, line, values, k);
    }
  }

  lemma {:induction false} RewriteOverrides(lines: seq<string>, values: Config)
    ensures Overridden(Variables(lines), Variables(RewriteLines(lines, values)), values)
  {
    if lines == [] {
    } else {
      var n := |lines| - 1;
      RewriteOverrides(lines[..n], values);
      StoreOverrides(Variables(lines[..n]), Variables(RewriteLines(lines[..n], values)), lines[n], values);
      assert RewriteLines(lines, values)[..n] == RewriteLines(lines[..n], values);
    }
  }
}
