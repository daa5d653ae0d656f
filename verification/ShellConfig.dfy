/**
 The text half of the configuration service: incus.cfg is parsed as KEY=VALUE lines, mapped to
 typed settings, and rewritten line by line so that comments and foreign lines survive.
 */
module ShellConfig {
  import opened Text
  import opened Settings

  // ---------------------------------------------------------------- trailing comments

  /** The scanner behind findUnquotedHash. A backslash escapes only inside double quotes. */
  datatype Quoting = Outside | InSingle | InDouble | Escaped

  function Scan(q: Quoting, c: char): Quoting {
    match q
    case Escaped => InDouble
    case Outside => if c == '\'' then InSingle else if c == '"' then InDouble else Outside
    case InSingle => if c == '\'' then Outside else InSingle
    case InDouble => if c == '\\' then Escaped else if c == '"' then Outside else InDouble
  }

  /** Scanner state after reading `s`. */
  function QuotingAfter(s: string): Quoting {
    if s == "" then Outside else Scan(QuotingAfter(s[..|s| - 1]), s[|s| - 1])
  }

  predicate StartsComment(s: string, i: nat)
    requires i < |s|
  {
    s[i] == '#' && QuotingAfter(s[..i]) == Outside
  }

  function HashFrom(s: string, i: nat, q: Quoting): (r: int)
    requires i <= |s|
    ensures -1 <= r < |s|
    decreases |s| - i
  {
    if i == |s| then -1
    else if s[i] == '#' && q == Outside then i
    else HashFrom(s, i + 1, Scan(q, s[i]))
  }

  /** The first `#` outside quotes, or -1. */
  function UnquotedHash(s: string): (r: int)
    ensures -1 <= r < |s|
  {
    HashFrom(s, 0, Outside)
  }

  /** `r` is the first position from `i` on where a comment starts, or -1. */
  predicate FirstComment(s: string, i: nat, r: int) {
    && (r >= 0 ==> i <= r < |s| && StartsComment(s, r))
    && forall j :: i <= j < |s| && (r < 0 || j < r) ==> !StartsComment(s, j)
  }

  lemma {:induction false} HashFromIsFirst(s: string, i: nat)
    requires i <= |s|
    ensures FirstComment(s, i, HashFrom(s, i, QuotingAfter(s[..i])))
    decreases |s| - i
  {
    if i < |s| && !StartsComment(s, i) {
      assert s[..i + 1][..i] == s[..i];
      HashFromIsFirst(s, i + 1);
    }
  }

  lemma UnquotedHashIsFirst(s: string)
    ensures FirstComment(s, 0, UnquotedHash(s))
  {
    HashFromIsFirst(s, 0);
  }

  lemma UnquotedHashIs(s: string, r: int)
    requires FirstComment(s, 0, r) && r >= -1
    ensures UnquotedHash(s) == r
  {
    UnquotedHashIsFirst(s);
  }

  method FindUnquotedHash(value: string) returns (r: int)
    ensures r == UnquotedHash(value)
  {
    var quote: Option<char> := None;
    var escaped := false;
    var i := 0;
    while i < |value|
      invariant 0 <= i <= |value|
      invariant escaped ==> quote == Some('"')
      invariant quote.Some? ==> quote.value == '\'' || quote.value == '"'
      invariant QuotingAfter(value[..i])
             == if escaped then Escaped
                else if quote == None then Outside
                else if quote.value == '\'' then InSingle else InDouble
      invariant forall j :: 0 <= j < i ==> !StartsComment(value, j)
    {
      var c := value[i];
      assert value[..i + 1][..i] == value[..i];
      if escaped {
        escaped := false;
      } else if c == '\\' && quote == Some('"') {
        escaped := true;
      } else if c == '\'' || c == '"' {
        if quote == None {
          quote := Some(c);
        } else if quote.value == c {
          quote := None;
        }
      } else if c == '#' && quote == None {
        UnquotedHashIs(value, i);
        return i;
      }
      i := i + 1;
    }
    UnquotedHashIs(value, -1);
    return -1;
  }

  // ---------------------------------------------------------------- reading a line

  /** A KEY=... line: the key and the trimmed text right of the first `=`. */
  datatype Assignment = Assignment(key: string, rhs: string)

  function ReadAssignment(line: string): (r: Option<Assignment>)
    ensures r.Some? ==> IsTrimmed(r.value.rhs)
  {
    ReadTrimmed(Trim(line))
  }

  function ReadTrimmed(trimmed: string): (r: Option<Assignment>)
    ensures r.Some? ==> IsTrimmed(r.value.rhs)
  {
    if trimmed == "" || trimmed[0] == '#' then None
    else
      var eq := IndexOf(trimmed, '=');
      if eq <= 0 then None
      else Some(Assignment(Trim(trimmed[..eq]), Trim(trimmed[eq + 1..])))
  }

  /**
   Drops one pair of surrounding quotes. A lone quote character stays, because `substring(1, 0)`
   swaps its arguments.
   */
  function Unquote(s: string): string {
    if |s| >= 2 && s[0] == s[|s| - 1] && (s[0] == '"' || s[0] == '\'') then s[1..|s| - 1] else s
  }

  function ReadValue(rhs: string): string {
    var hash := UnquotedHash(rhs);
    Unquote(if hash >= 0 then Trim(rhs[..hash]) else rhs)
  }

  function Comment(rhs: string): string {
    var hash := UnquotedHash(rhs);
    if hash >= 0 then rhs[hash..] else ""
  }

  /** Assigning a string to this key of an object literal stores nothing. */
  const PROTO := "__proto__"

  function Store(vars: map<string, string>, line: string): map<string, string> {
    match ReadAssignment(line)
    case None => vars
    case Some(a) => if a.key == PROTO then vars else vars[a.key := ReadValue(a.rhs)]
  }

  /** The variable a line defines. */
  predicate Defines(line: string, key: string) {
    key != PROTO && ReadAssignment(line).Some? && ReadAssignment(line).value.key == key
  }

  function ValueIn(line: string): string
    requires ReadAssignment(line).Some?
  {
    ReadValue(ReadAssignment(line).value.rhs)
  }

  lemma StoreDefines(vars: map<string, string>, line: string, key: string)
    ensures key in Store(vars, line) <==> key in vars || Defines(line, key)
    ensures Defines(line, key) ==> Store(vars, line)[key] == ValueIn(line)
    ensures !Defines(line, key) && key in vars ==> Store(vars, line)[key] == vars[key]
  {
  }

  lemma PlainNameIsNotProto(name: string)
    requires PlainName(name)
    ensures name != PROTO
  {
  }

  /** The variables a list of lines defines; a later line overrides an earlier one. */
  function Variables(lines: seq<string>): map<string, string> {
    if lines == [] then map[] else Store(Variables(lines[..|lines| - 1]), lines[|lines| - 1])
  }

  lemma VariablesStep(lines: seq<string>, i: nat)
    requires i < |lines|
    ensures Variables(lines[..i + 1]) == Store(Variables(lines[..i]), lines[i])
  {
    assert lines[..i + 1][..i] == lines[..i];
  }

  /** Removes an unquoted trailing comment, then surrounding quotes. */
  method StripValue(rhs: string) returns (val: string)
    ensures val == ReadValue(rhs)
  {
    val := rhs;
    var hash := FindUnquotedHash(val);
    if hash >= 0 {
      val := Trim(val[..hash]);
    }
    val := Unquote(val);
  }

  /** The loop body of parseShellConfig. */
  method ParseLine(line: string, vars: map<string, string>) returns (result: map<string, string>)
    ensures result == Store(vars, line)
  {
    result := vars;
    var trimmed := Trim(line);
    if trimmed == "" || trimmed[0] == '#' {
      return;
    }
    var eq := IndexOf(trimmed, '=');
    if eq > 0 {
      var key := Trim(trimmed[..eq]);
      var val := StripValue(Trim(trimmed[eq + 1..]));
      if key != PROTO {
        result := result[key := val];
      }
    }
  }

  method ParseShellConfig(content: string) returns (result: map<string, string>)
    ensures result == Variables(SplitLines(content))
  {
    result := map[];
    var lines := SplitLines(content);
    for i := 0 to |lines|
      invariant result == Variables(lines[..i])
    {
      VariablesStep(lines, i);
      result := ParseLine(lines[i], result);
    }
    assert lines[..|lines|] == lines;
  }

  // ---------------------------------------------------------------- shell variables to settings

  function Decode(f: Field, text: string): Value {
    if f == Enabled then Flag(text == "enabled")
    else if IsFlag(f) then Flag(text == "true")
    else Words(text)
  }

  /** The variable a property is read from is that of this field. */
  function SetBy(g: Field): (f: Field)
    ensures Mapped(f)
  {
    if Mapped(g) then g else TsAuthKey
  }

  /** The value of property `g` when its variable holds `text`. */
  function Derive(g: Field, text: string): Value {
    if Mapped(g) then Decode(g, text) else Flag(|text| > 0)
  }

  /** mapShellToTS: only defined variables yield properties; the key brings its presence bit along. */
  function Settled(shell: map<string, string>): (c: Config)
    ensures WellTyped(c)
  {
    map g: Field | ShellName(SetBy(g)) in shell :: Derive(g, shell[ShellName(SetBy(g))])
  }

  lemma SettledAt(shell: map<string, string>, f: Field)
    requires Mapped(f)
    ensures f in Settled(shell) <==> ShellName(f) in shell
    ensures f in Settled(shell) ==> Settled(shell)[f] == Decode(f, shell[ShellName(f)])
  {
  }

  /** One field assignment of mapShellToTS, given the text of its variable. */
  function AssignText(config: Config, f: Field, text: string): Config
    requires Mapped(f)
  {
    if f == TsAuthKey then config[f := Words(text)][TsAuthKeyConfigured := Flag(|text| > 0)]
    else config[f := Decode(f, text)]
  }

  lemma AssignTextAt(config: Config, f: Field, text: string, g: Field)
    requires Mapped(f)
    ensures var after := AssignText(config, f, text);
      if SetBy(g) == f then g in after && after[g] == Derive(g, text)
      else (g in after <==> g in config) && (g in after ==> after[g] == config[g])
  {
  }

  function Assign(config: Config, shell: map<string, string>, f: Field): Config
    requires Mapped(f)
  {
    if ShellName(f) in shell then AssignText(config, f, shell[ShellName(f)]) else config
  }

  function AssignAll(shell: map<string, string>, fields: seq<Field>): Config
    requires forall f :: f in fields ==> Mapped(f)
  {
    if fields == [] then map[]
    else Assign(AssignAll(shell, fields[..|fields| - 1]), shell, fields[|fields| - 1])
  }

  lemma AssignAt(config: Config, shell: map<string, string>, f: Field, g: Field)
    requires Mapped(f)
    requires g in config ==> g in Settled(shell)
    ensures var after := Assign(config, shell, f);
      if SetBy(g) == f then (g in after <==> g in Settled(shell)) && (g in after ==> after[g] == Settled(shell)[g])
      else (g in after <==> g in config) && (g in after ==> after[g] == config[g])
  {
    if ShellName(f) in shell {
      AssignTextAt(config, f, shell[ShellName(f)], g);
    }
  }

  lemma {:induction false} AssignAllAt(shell: map<string, string>, fields: seq<Field>, g: Field)
    requires forall f :: f in fields ==> Mapped(f)
    ensures g in AssignAll(shell, fields) <==> g in Settled(shell) && SetBy(g) in fields
    ensures g in AssignAll(shell, fields) ==> AssignAll(shell, fields)[g] == Settled(shell)[g]
  {
    if fields == [] {
    } else {
      var n := |fields| - 1;
      AssignAllAt(shell, fields[..n], g);
      AssignAt(AssignAll(shell, fields[..n]), shell, fields[n], g);
      assert fields == fields[..n] + [fields[n]];
    }
  }

  lemma AssignAllIsSettled(shell: map<string, string>)
    requires forall f :: f in FIELDS ==> Mapped(f)
    ensures AssignAll(shell, FIELDS) == Settled(shell)
  {
    FieldsAreMapped();
    forall g ensures g in AssignAll(shell, FIELDS) <==> g in Settled(shell) {
      AssignAllAt(shell, FIELDS, g);
    }
    forall g | g in Settled(shell) ensures AssignAll(shell, FIELDS)[g] == Settled(shell)[g] {
      AssignAllAt(shell, FIELDS, g);
    }
  }

  /** The assignments one after the other. */
  method AssignFields(shell: map<string, string>, fields: seq<Field>) returns (config: Config)
    requires forall f :: f in fields ==> Mapped(f)
    ensures config == AssignAll(shell, fields)
  {
    config := map[];
    for i := 0 to |fields|
      invariant config == AssignAll(shell, fields[..i])
    {
      assert fields[..i + 1][..i] == fields[..i];
      config := Assign(config, shell, fields[i]);
    }
    assert fields[..|fields|] == fields;
  }

  method MapShellToTS(shell: map<string, string>) returns (config: Config)
    ensures config == Settled(shell)
  {
    FieldsAreMapped();
    config := AssignFields(shell, FIELDS);
    AssignAllIsSettled(shell);
  }

  // ---------------------------------------------------------------- writing a line

  /** `replace` of every single quote by: close quote, escaped quote, open quote. */
  function EscapeQuotes(s: string): (r: string)
    ensures |r| >= |s| && ('\'' in s ==> |r| > |s|) && ('\'' !in s ==> r == s)
  {
    if s == "" then ""
    else if s[0] == '\'' then "'\\''" + EscapeQuotes(s[1..])
    else [s[0]] + EscapeQuotes(s[1..])
  }

  lemma CountCons(c: char, s: string, x: char)
    ensures multiset([c] + s)[x] == (if c == x then 1 else 0) + multiset(s)[x]
  {
  }

  lemma CountEscape(s: string, x: char)
    requires x != '\'' && x != '\\'
    ensures multiset("'\\''" + s)[x] == multiset(s)[x]
  {
  }

  lemma EscapeCons(c: char, s: string)
    ensures EscapeQuotes([c] + s) == (if c == '\'' then "'\\''" else [c]) + EscapeQuotes(s)
  {
    assert ([c] + s)[1..] == s;
  }

  lemma EscapeKeepsCons(c: char, rest: string, x: char)
    requires x != '\'' && x != '\\' && multiset(EscapeQuotes(rest))[x] == multiset(rest)[x]
    ensures multiset(EscapeQuotes([c] + rest))[x] == multiset([c] + rest)[x]
  {
    EscapeCons(c, rest);
    CountCons(c, rest, x);
    if c == '\'' {
      CountEscape(EscapeQuotes(rest), x);
    } else {
      CountCons(c, EscapeQuotes(rest), x);
    }
  }

  lemma {:induction false} EscapeKeeps(s: string, x: char)
    requires x != '\'' && x != '\\'
    ensures multiset(EscapeQuotes(s))[x] == multiset(s)[x]
  {
    if s == "" {
    } else {
      EscapeKeeps(s[1..], x);
      EscapeKeepsCons(s[0], s[1..], x);
      assert s == [s[0]] + s[1..];
    }
  }

  lemma {:induction false} EscapeRun(run: string, rest: string)
    requires '\'' !in run
    ensures EscapeQuotes(run + rest) == run + EscapeQuotes(rest)
  {
    if run == "" {
      assert "" + rest == rest && "" + EscapeQuotes(rest) == EscapeQuotes(rest);
    } else {
      EscapeRun(run[1..], rest);
      EscapeCons(run[0], run[1..] + rest);
      Unfold(run, rest);
      Unfold(run, EscapeQuotes(rest));
    }
  }

  lemma Unfold(run: string, rest: string)
    requires run != ""
    ensures run + rest == [run[0]] + (run[1..] + rest)
  {
  }

  function SingleQuote(s: string): string { "'" + EscapeQuotes(s) + "'" }

  predicate Truthy(v: Value) {
    match v case Flag(on) => on case Words(text) => text != ""
  }

  /** formatShellValue: enabled/disabled, true/false, or the value as a string. */
  function Format(f: Field, v: Value): string
    requires Mapped(f)
  {
    if f == Enabled then if Truthy(v) then "enabled" else "disabled"
    else if IsFlag(f) then if Truthy(v) then "true" else "false"
    else match v case Words(text) => text case Flag(on) => if on then "true" else "false"
  }

  function Render(key: string, text: string, comment: string): string {
    key + "=" + (SingleQuote(text) + Suffix(comment))
  }

  function Suffix(comment: string): string { if comment != "" then " " + comment else "" }

  // ---------------------------------------------------------------- a rendered line reads back

  /** What may follow `#` when a line is rewritten: a trimmed comment, or nothing. */
  predicate IsComment(c: string) {
    c != "" ==> c[0] == '#' && !IsSpace(c[|c| - 1])
  }

  lemma CommentIsComment(rhs: string)
    requires IsTrimmed(rhs)
    ensures IsComment(Comment(rhs))
  {
    var hash := UnquotedHash(rhs);
    UnquotedHashIsFirst(rhs);
    if hash >= 0 {
      var c := rhs[hash..];
      assert c[0] == rhs[hash] && c[|c| - 1] == rhs[|rhs| - 1];
    }
  }

  lemma PlainNameIsKey(name: string)
    requires PlainName(name)
    ensures IsTrimmed(name) && name[0] != '#' && '=' !in name && '\n' !in name
  {
    assert NameChar(name[|name| - 1]);
  }

  lemma AssignmentShape(name: string, rhs: string)
    requires PlainName(name) && IsTrimmed(rhs) && rhs != ""
    ensures var line := name + "=" + rhs;
      IsTrimmed(line) && line[0] != '#' && IndexOf(line, '=') == |name| && line[..|name|] == name && line[|name| + 1..] == rhs
  {
    PlainNameIsKey(name);
    var line := name + "=" + rhs;
    assert line[0] == name[0] && line[|line| - 1] == rhs[|rhs| - 1];
    assert line[..|name|] == name;
    IndexOfIs(line, '=', |name|);
  }

  lemma AssignmentOf(name: string, rhs: string)
    requires PlainName(name) && IsTrimmed(rhs) && rhs != ""
    ensures ReadAssignment(name + "=" + rhs) == Some(Assignment(name, rhs))
  {
    PlainNameIsKey(name);
    AssignmentShape(name, rhs);
    var line := name + "=" + rhs;
    TrimOfTrimmed(line);
    TrimOfTrimmed(name);
    TrimOfTrimmed(rhs);
  }

  predicate Quoted(q: string) { |q| >= 2 && q[0] == '\'' && q[|q| - 1] == '\'' }

  lemma QuotedIsTrimmed(q: string, comment: string)
    requires Quoted(q) && IsComment(comment)
    ensures IsTrimmed(q) && IsTrimmed(q + Suffix(comment)) && q + Suffix(comment) != ""
  {
    var rhs := q + Suffix(comment);
    assert rhs[0] == q[0];
    assert rhs[|rhs| - 1] == if comment == "" then q[|q| - 1] else comment[|comment| - 1];
  }

  /** The rewritten line is an assignment to the same key with the quoted text in front. */
  lemma RenderIsAssignment(name: string, text: string, comment: string)
    requires PlainName(name) && IsComment(comment)
    ensures ReadAssignment(Render(name, text, comment))
         == Some(Assignment(name, SingleQuote(text) + Suffix(comment)))
  {
    var q := SingleQuote(text);
    QuotedIsTrimmed(q, comment);
    AssignmentOf(name, q + Suffix(comment));
  }

  lemma {:induction false} QuotingInside(s: string, k: nat)
    requires '\'' !in s && k <= |s|
    ensures QuotingAfter("'" + s[..k]) == InSingle
  {
    if k == 0 {
      assert "'" + s[..0] == "'" && "'"[..0] == "";
      assert QuotingAfter("'") == Scan(QuotingAfter(""), '\'');
    } else {
      QuotingInside(s, k - 1);
      var t := "'" + s[..k];
      assert t[..|t| - 1] == "'" + s[..k - 1] && t[|t| - 1] == s[k - 1];
    }
  }

  lemma QuotingAfterStep(s: string, i: nat)
    requires i < |s|
    ensures QuotingAfter(s[..i + 1]) == Scan(QuotingAfter(s[..i]), s[i])
  {
    assert s[..i + 1][..i] == s[..i];
  }

  lemma NoHashInQuoted(s: string, tail: string, j: nat)
    requires '\'' !in s && j < |s| + 2
    ensures !StartsComment("'" + s + "'" + tail, j)
  {
    var t := "'" + s + "'" + tail;
    if 1 <= j <= |s| {
      QuotingInside(s, j - 1);
      assert t[..j] == "'" + s[..j - 1];
    }
  }

  lemma QuotedCloses(s: string, tail: string)
    requires '\'' !in s
    ensures QuotingAfter(("'" + s + "'" + tail)[..|s| + 2]) == Outside
  {
    var t := "'" + s + "'" + tail;
    QuotingInside(s, |s|);
    assert t[..|s| + 1] == "'" + s[..|s|];
    QuotingAfterStep(t, |s| + 1);
  }

  /** Without a quote in it, the quoted text hides every `#`, and the comment is found again. */
  lemma HashOfQuoted(s: string, comment: string)
    requires '\'' !in s && IsComment(comment)
    ensures UnquotedHash(SingleQuote(s) + Suffix(comment)) == if comment == "" then -1 else |s| + 3
  {
    var tail := Suffix(comment);
    var rhs := "'" + s + "'" + tail;
    forall j | 0 <= j < |s| + 2 ensures !StartsComment(rhs, j) {
      NoHashInQuoted(s, tail, j);
    }
    if comment != "" {
      assert rhs[|s| + 2] == tail[0] && rhs[|s| + 3] == tail[1];
      QuotedCloses(s, tail);
      QuotingAfterStep(rhs, |s| + 2);
      UnquotedHashIs(rhs, |s| + 3);
    } else {
      UnquotedHashIs(rhs, -1);
    }
  }

  /** A value read from `SingleQuote(s)` followed by a comment is `s` exactly when `s` has no quote. */
  lemma QuotedReadsBack(s: string, comment: string)
    requires IsComment(comment)
    ensures ReadValue(SingleQuote(s) + Suffix(comment)) == s <==> '\'' !in s
    ensures '\'' !in s ==> Comment(SingleQuote(s) + Suffix(comment)) == comment
  {
    if '\'' in s {
      QuoteNeverReadsBack(s, comment);
    } else {
      PlainReadsBack(s, comment);
    }
  }

  lemma UnquoteSingleQuote(s: string)
    requires '\'' !in s
    ensures Quoted(SingleQuote(s)) && |SingleQuote(s)| == |s| + 2 && Unquote(SingleQuote(s)) == s
  {
    var q := SingleQuote(s);
    assert q[1..|q| - 1] == s;
  }

  lemma PlainReadsBack(s: string, comment: string)
    requires '\'' !in s && IsComment(comment)
    ensures ReadValue(SingleQuote(s) + Suffix(comment)) == s
    ensures Comment(SingleQuote(s) + Suffix(comment)) == comment
  {
    var q := SingleQuote(s);
    HashOfQuoted(s, comment);
    UnquoteSingleQuote(s);
    if comment == "" {
      EmptySuffix(q);
    } else {
      BeforeComment(q, comment);
    }
  }

  lemma EmptySuffix(q: string)
    ensures q + Suffix("") == q
  {
  }

  lemma SuffixParts(comment: string)
    requires comment != ""
    ensures Suffix(comment)[..1] == [' '] && Suffix(comment)[1..] == comment
  {
  }

  lemma TrimQuotedPad(q: string)
    requires Quoted(q)
    ensures Trim(q + [' ']) == q
  {
    QuotedIsTrimmed(q, "");
    TrimPad(q, ' ');
    TrimOfTrimmed(q);
  }

  lemma BeforeComment(q: string, comment: string)
    requires Quoted(q) && comment != ""
    ensures Trim((q + Suffix(comment))[..|q| + 1]) == q
    ensures (q + Suffix(comment))[|q| + 1..] == comment
  {
    SuffixParts(comment);
    SliceOfConcat(q, Suffix(comment), 1);
    TrimQuotedPad(q);
  }

  lemma UnquoteIsShort(v: string)
    ensures |Unquote(v)| >= |v| - 2
    ensures forall c: char :: multiset(Unquote(v))[c] <= multiset(v)[c]
  {
    forall c: char ensures multiset(Unquote(v))[c] <= multiset(v)[c] {
      if |v| >= 2 { SliceCount(v, 1, |v| - 1, c); }
    }
  }

  /** Cutting the line after the closing quote leaves at least the quoted text. */
  lemma CutAfter(q: string, tail: string, cut: nat)
    requires Quoted(q) && |q| <= cut <= |q + tail|
    ensures |Unquote(Trim((q + tail)[..cut]))| >= |q| - 2
  {
    var rest := tail[..cut - |q|];
    assert (q + tail)[..cut] == q + rest;
    QuotedIsTrimmed(q, "");
    TrimKeepsPrefix(q, rest);
    UnquoteIsShort(Trim(q + rest));
  }

  /** Cutting it at a `#` inside loses that `#`. */
  lemma CutInside(q: string, tail: string, cut: nat)
    requires cut < |q| && q[cut] == '#'
    ensures multiset(Unquote(Trim((q + tail)[..cut])))['#'] < multiset(q)['#']
  {
    assert (q + tail)[..cut] == q[..cut];
    HashIsLost(q, cut);
    TrimCount(q[..cut], '#');
    UnquoteIsShort(Trim(q[..cut]));
  }

  /** A text with a single quote comes back longer, or short of a `#`: the reader never undoes the escape. */
  lemma QuoteNeverReadsBack(s: string, comment: string)
    requires '\'' in s && IsComment(comment)
    ensures ReadValue(SingleQuote(s) + Suffix(comment)) != s
  {
    var q, tail := SingleQuote(s), Suffix(comment);
    var hash := UnquotedHash(q + tail);
    UnquotedHashIsFirst(q + tail);
    assert |q| > |s| + 2;
    if hash < 0 {
      UnquoteIsShort(q + tail);
    } else if hash >= |q| {
      CutAfter(q, tail, hash);
    } else {
      assert (q + tail)[hash] == q[hash];
      CutInside(q, tail, hash);
      QuotedHashes(s);
    }
  }

  lemma TrimKeepsPrefix(q: string, tail: string)
    requires q != "" && IsTrimmed(q)
    ensures |Trim(q + tail)| >= |q|
  {
    assert (q + tail)[0] == q[0] && (q + tail)[|q| - 1] == q[|q| - 1];
    TrimEndReaches(q + tail, |q| - 1);
  }

  lemma HashIsLost(q: string, hash: nat)
    requires hash < |q| && q[hash] == '#'
    ensures multiset(q[..hash])['#'] < multiset(q)['#']
  {
    assert q == q[..hash] + ([q[hash]] + q[hash + 1..]);
  }

  lemma QuotedHashes(s: string)
    ensures multiset(SingleQuote(s))['#'] == multiset(s)['#']
  {
    EscapeKeeps(s, '#');
  }
}
