/**
 What the parser reads from a file as people write it: bare words and both kinds of quotes, with white
 space around every part and comments behind the value.
 */
module ShellValues {
  import opened Text
  import opened Settings
  import opened ShellConfig
  import opened ShellRoundTrip
  import opened ShellFrame

  // ---------------------------------------------------------------- the ways to write a value

  datatype Form = Bare | Single | Double

  /** Inside double quotes a backslash stands before every double quote and every backslash. */
  function EscapeDouble(s: string): string {
    if s == "" then "" else EscapeDouble(s[..|s| - 1]) + EscapedInDouble(s[|s| - 1])
  }

  function EscapedInDouble(c: char): string { if c == '"' || c == '\\' then ['\\', c] else [c] }

  /** The text `s` in this form. */
  function Written(form: Form, s: string): string {
    match form case Bare => s case Single => "'" + s + "'" case Double => "\"" + EscapeDouble(s) + "\""
  }

  /** Which texts a form can hold. */
  predicate CanHold(form: Form, s: string) {
    match form
    case Bare => IsTrimmed(s) && '#' !in s && '\'' !in s && '"' !in s
    case Single => '\'' !in s
    case Double => true
  }

  /** What the parser makes of it: the text, except that it leaves the backslashes of the escapes. */
  function Value(form: Form, s: string): string { if form == Double then EscapeDouble(s) else s }

  lemma {:induction false} NothingToEscape(s: string)
    requires '"' !in s && '\\' !in s
    ensures EscapeDouble(s) == s
  {
    if s == "" {
    } else {
      var init, c := s[..|s| - 1], s[|s| - 1];
      assert s == init + [c] && c in s;
      NothingToEscape(init);
    }
  }

  // ---------------------------------------------------------------- the scanner on each form

  /** The scanner ends in this state and has seen no comment start. */
  predicate Scanned(s: string, q: Quoting) { QuotingAfter(s) == q && NoComment(s) }

  lemma ScannedOne(s: string, q: Quoting, c: char)
    requires Scanned(s, q) && !(c == '#' && q == Outside)
    ensures Scanned(s + [c], Scan(q, c))
  {
    QuotingAfterOne(s, c);
    NoCommentSnoc(s, c);
  }

  /** Characters that do not change the scanner's state leave it, and start no comment. */
  lemma {:induction false} ScannedRun(s: string, q: Quoting, run: string)
    requires Scanned(s, q) && forall c :: c in run ==> Scan(q, c) == q && !(c == '#' && q == Outside)
    ensures Scanned(s + run, q)
  {
    if run == "" {
      assert s + run == s;
    } else {
      var init, c := run[..|run| - 1], run[|run| - 1];
      assert run == init + [c] && c in run;
      ScannedRun(s, q, init);
      ScannedOne(s + init, q, c);
      assert s + run == s + init + [c];
    }
  }

  lemma {:induction false} ScannedEscaped(s: string)
    ensures Scanned("\"" + EscapeDouble(s), InDouble)
  {
    if s == "" {
      ScannedOne("", Outside, '"');
      assert "\"" + EscapeDouble(s) == "" + ['"'];
    } else {
      var init, c := s[..|s| - 1], s[|s| - 1];
      ScannedEscaped(init);
      ScannedEscape("\"" + EscapeDouble(init), c);
      assert "\"" + EscapeDouble(s) == "\"" + EscapeDouble(init) + EscapedInDouble(c);
    }
  }

  lemma ScannedEscape(s: string, c: char)
    requires Scanned(s, InDouble)
    ensures Scanned(s + EscapedInDouble(c), InDouble)
  {
    if c == '"' || c == '\\' {
      ScannedOne(s, InDouble, '\\');
      ScannedOne(s + ['\\'], Escaped, c);
      assert s + EscapedInDouble(c) == s + ['\\'] + [c];
    } else {
      ScannedOne(s, InDouble, c);
    }
  }

  lemma ScannedWritten(form: Form, s: string)
    requires CanHold(form, s)
    ensures Scanned(Written(form, s), Outside)
  {
    match form
    case Bare =>
      ScannedRun("", Outside, s);
      assert "" + s == s;
    case Single =>
      ScannedOne("", Outside, '\'');
      assert "" + ['\''] == "'";
      ScannedRun("'", InSingle, s);
      ScannedOne("'" + s, InSingle, '\'');
    case Double =>
      ScannedEscaped(s);
      ScannedOne("\"" + EscapeDouble(s), InDouble, '"');
  }

  /** The first `#` behind a closed text and white space is where the comment starts. */
  lemma HashBehind(v: string, gap: string, comment: string)
    requires Scanned(v, Outside) && Spaces(gap) && IsComment(comment)
    ensures UnquotedHash(v + gap + comment) == if comment == "" then -1 else |v + gap|
  {
    forall c | c in gap ensures IsSpace(c) {}
    ScannedRun(v, Outside, gap);
    FirstHash(v + gap, comment);
  }

  lemma FirstHash(s: string, comment: string)
    requires Scanned(s, Outside) && IsComment(comment)
    ensures UnquotedHash(s + comment) == if comment == "" then -1 else |s|
  {
    var t := s + comment;
    forall j | 0 <= j < |s| ensures !StartsComment(t, j) {
      assert t[..j] == s[..j];
      assert !StartsComment(s, j);
    }
    assert t[..|s|] == s;
    UnquotedHashIs(t, if comment == "" then -1 else |s|);
  }

  // ---------------------------------------------------------------- a line

  /** A key as the parser can return it. */
  predicate IsKey(name: string) {
    name != "" && IsTrimmed(name) && name[0] != '#' && '=' !in name && name != PROTO
  }

  /** `name = value # comment`, with white space around each part. */
  function Line(before: string, name: string, behind: string, gap: string, value: string, after: string): string {
    before + name + behind + "=" + gap + value + after
  }

  lemma SpacesConcat(a: string, b: string)
    requires Spaces(a) && Spaces(b)
    ensures Spaces(a + b)
  {
  }

  lemma LineTrimmed(before: string, name: string, behind: string, gap: string, value: string, after: string)
    requires Spaces(before) && Spaces(gap) && Spaces(after) && IsKey(name) && IsTrimmed(value)
    ensures var head := name + behind + "=";
      Trim(Line(before, name, behind, gap, value, after)) == if value == "" then head else head + (gap + value)
  {
    var head := name + behind + "=";
    if value == "" {
      assert Line(before, name, behind, gap, value, after) == before + head + (gap + after);
      SpacesConcat(gap, after);
      TrimBetween(before, head, gap + after);
    } else {
      var core := head + (gap + value);
      assert Line(before, name, behind, gap, value, after) == before + core + after;
      assert core[0] == name[0] && core[|core| - 1] == value[|value| - 1];
      TrimBetween(before, core, after);
    }
  }

  lemma SplitsAtEquals(name: string, behind: string, rest: string)
    requires IsKey(name) && Spaces(behind)
    ensures var trimmed := name + behind + "=" + rest;
      && IndexOf(trimmed, '=') == |name + behind|
      && trimmed[..|name + behind|] == name + behind && trimmed[|name + behind| + 1..] == rest
  {
    var trimmed := name + behind + "=" + rest;
    assert trimmed[..|name + behind|] == name + behind;
    assert forall i :: 0 <= i < |behind| ==> behind[i] != '=';
    IndexOfIs(trimmed, '=', |name + behind|);
  }

  /** The key and the right-hand side of such a line. */
  lemma LineAssigns(before: string, name: string, behind: string, gap: string, value: string, after: string)
    requires Spaces(before) && Spaces(behind) && Spaces(gap) && Spaces(after) && IsKey(name) && IsTrimmed(value)
    ensures ReadAssignment(Line(before, name, behind, gap, value, after)) == Some(Assignment(name, value))
  {
    var rest := if value == "" then "" else gap + value;
    LineTrimmed(before, name, behind, gap, value, after);
    assert name + behind + "=" + "" == name + behind + "=";
    SplitsAtEquals(name, behind, rest);
    TrimBehind(name, behind);
    TrimOfTrimmed(name);
    TrimBefore(gap, value);
    TrimOfTrimmed(value);
  }

  /** Where a comment may stand: white space between, and none without a comment. */
  predicate Follows(value: string, gap: string, comment: string) {
    Spaces(gap) && IsComment(comment) && (value == "" || comment == "" ==> gap == "")
  }

  lemma WrittenIsTrimmed(form: Form, s: string, gap: string, comment: string)
    requires CanHold(form, s) && Follows(Written(form, s), gap, comment)
    ensures IsTrimmed(Written(form, s)) && IsTrimmed(Written(form, s) + gap + comment)
  {
    var v := Written(form, s);
    var rhs := v + gap + comment;
    if rhs != "" {
      assert rhs[0] == if v == "" then comment[0] else v[0];
      assert rhs[|rhs| - 1] == if comment == "" then v[|v| - 1] else comment[|comment| - 1];
    }
  }

  lemma UnquoteWritten(form: Form, s: string)
    requires CanHold(form, s)
    ensures Unquote(Written(form, s)) == Value(form, s)
  {
    var v := Written(form, s);
    match form
    case Bare => if s != "" { assert s[0] in s; }
    case Single => assert v[1..|v| - 1] == s;
    case Double => assert v[1..|v| - 1] == EscapeDouble(s);
  }

  lemma WrittenReads(form: Form, s: string, gap: string, comment: string)
    requires CanHold(form, s) && Follows(Written(form, s), gap, comment)
    ensures ReadValue(Written(form, s) + gap + comment) == Value(form, s)
  {
    var v := Written(form, s);
    ScannedWritten(form, s);
    HashBehind(v, gap, comment);
    WrittenIsTrimmed(form, s, gap, comment);
    UnquoteWritten(form, s);
    assert comment == "" ==> v + gap + comment == v;
    assert (v + gap + comment)[..|v + gap|] == v + gap;
    TrimBehind(v, gap);
    TrimOfTrimmed(v);
  }

  /** One written assignment: the line defines its key, with the value written. */
  lemma LineReads(before: string, name: string, behind: string, pad: string, form: Form, s: string, gap: string, comment: string, after: string)
    requires Spaces(before) && Spaces(behind) && Spaces(pad) && Spaces(after) && IsKey(name)
    requires CanHold(form, s) && Follows(Written(form, s), gap, comment)
    ensures var line := Line(before, name, behind, pad, Written(form, s) + gap + comment, after);
      Defines(line, name) && ValueIn(line) == Value(form, s)
  {
    WrittenIsTrimmed(form, s, gap, comment);
    LineAssigns(before, name, behind, pad, Written(form, s) + gap + comment, after);
    WrittenReads(form, s, gap, comment);
  }

  // ---------------------------------------------------------------- a file

  lemma {:induction false} LastAssignment(lines: seq<string>, i: nat, name: string)
    requires i < |lines| && Defines(lines[i], name) && forall j :: i < j < |lines| ==> !Defines(lines[j], name)
    ensures name in Variables(lines) && Variables(lines)[name] == ValueIn(lines[i])
  {
    var init, last := lines[..|lines| - 1], lines[|lines| - 1];
    StoreDefines(Variables(init), last, name);
    if i == |lines| - 1 {
    } else {
      LastAssignment(init, i, name);
    }
  }

  /**
   In every file the last line that assigns a key gives it its value: a bare word, or what stands between
   the quotes, whatever white space is around it and whatever comment behind it.
   */
  lemma FileReads(content: string, i: nat, before: string, name: string, behind: string, pad: string,
                  form: Form, s: string, gap: string, comment: string, after: string)
    requires Spaces(before) && Spaces(behind) && Spaces(pad) && Spaces(after) && IsKey(name)
    requires CanHold(form, s) && Follows(Written(form, s), gap, comment)
    requires var lines := SplitLines(content);
      && i < |lines| && lines[i] == Line(before, name, behind, pad, Written(form, s) + gap + comment, after)
      && forall j :: i < j < |lines| ==> !Defines(lines[j], name)
    ensures name in Parsed(content) && Parsed(content)[name] == Value(form, s)
  {
    LineReads(before, name, behind, pad, form, s, gap, comment, after);
    LastAssignment(SplitLines(content), i, name);
  }

  lemma OneLine(line: string, name: string)
    requires '\n' !in line && Defines(line, name)
    ensures Parsed(line) == map[name := ValueIn(line)]
  {
    assert SplitLines(line) == [line];
    VariablesOfOne(line, name);
  }

  lemma VariablesOfOne(line: string, name: string)
    requires Defines(line, name)
    ensures Variables([line]) == map[name := ValueIn(line)]
  {
    assert [line][..0] == [];
    assert Variables([line]) == Store(Variables([]), line);
    assert Variables([]) == map[];
  }

  lemma SimpleLine(name: string, v: string, comment: string)
    ensures name + "=" + (v + Suffix(comment)) == Line("", name, "", "", v + (if comment == "" then "" else " ") + comment, "")
  {
  }

  lemma NoNewline(name: string, v: string, comment: string)
    requires '\n' !in name && '\n' !in v && '\n' !in comment
    ensures '\n' !in name + "=" + (v + Suffix(comment))
  {
  }

  lemma OneLineReads(name: string, form: Form, s: string, comment: string)
    requires IsKey(name) && CanHold(form, s) && IsComment(comment) && (comment == "" || Written(form, s) != "")
    requires '\n' !in name && '\n' !in Written(form, s) && '\n' !in comment
    ensures Parsed(name + "=" + (Written(form, s) + Suffix(comment))) == map[name := Value(form, s)]
  {
    SimpleLine(name, Written(form, s), comment);
    NoNewline(name, Written(form, s), comment);
    LineReads("", name, "", "", form, s, if comment == "" then "" else " ", comment, "");
    OneLine(name + "=" + (Written(form, s) + Suffix(comment)), name);
  }

  /** The file of one line KEY="VALUE", with a comment behind it or none, defines that key alone. */
  lemma DoubleQuotedReads(name: string, s: string, comment: string)
    requires IsKey(name) && '\n' !in name && '"' !in s && '\\' !in s && '\n' !in s && IsComment(comment) && '\n' !in comment
    ensures Parsed(name + "=" + ("\"" + s + "\"" + Suffix(comment))) == map[name := s]
  {
    NothingToEscape(s);
    OneLineReads(name, Double, s, comment);
  }

  /** The file of one line KEY=word. */
  lemma BareReads(name: string, word: string)
    requires IsKey(name) && '\n' !in name && '\n' !in word && CanHold(Bare, word)
    ensures Parsed(name + "=" + word) == map[name := word]
  {
    OneLineReads(name, Bare, word, "");
    assert word + Suffix("") == word;
  }

  /** A value without a comment and without a matching pair of quotes around it is read as it stands. */
  lemma OthersReadAsTheyStand(before: string, name: string, behind: string, pad: string, value: string, after: string)
    requires Spaces(before) && Spaces(behind) && Spaces(pad) && Spaces(after) && IsKey(name)
    requires IsTrimmed(value) && '#' !in value
    requires |value| < 2 || value[0] != value[|value| - 1] || (value[0] != '"' && value[0] != '\'')
    ensures var line := Line(before, name, behind, pad, value, after); Defines(line, name) && ValueIn(line) == value
  {
    LineAssigns(before, name, behind, pad, value, after);
    forall j | 0 <= j < |value| ensures !StartsComment(value, j) { assert value[j] in value; }
    UnquotedHashIs(value, -1);
  }

  /** Blank lines, comments, and lines without a key or an equals sign define nothing. */
  lemma OtherLinesDefineNothing(before: string, text: string, after: string, vars: map<string, string>)
    requires Spaces(before) && Spaces(after) && IsTrimmed(text)
    requires text == "" || text[0] == '#' || text[0] == '=' || '=' !in text
    ensures Store(vars, before + text + after) == vars
  {
    TrimBetween(before, text, after);
  }
}
