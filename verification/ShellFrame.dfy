/**
 What updateShellConfig leaves alone: foreign lines stay verbatim and in place and comments stay on
 their lines; and when the next update finds a comment again and applying the same one changes nothing.
 */
module ShellFrame {
  import opened Text
  import opened Settings
  import opened ShellConfig
  import opened ShellRewrite
  import opened ShellRoundTrip

  /** A value without quotes or newlines in its text. */
  predicate PlainValues(values: Config) {
    NewlineFree(values) && forall f :: f in values && values[f].Words? ==> '\'' !in values[f].text
  }

  lemma FormatIsPlain(f: Field, values: Config)
    requires Mapped(f) && f in values && PlainValues(values)
    ensures '\'' !in Format(f, values[f])
  {
  }

  predicate SameKey(was: string, now: string)
    requires ReadAssignment(was).Some?
  {
    ReadAssignment(now).Some? && ReadAssignment(now).value.key == ReadAssignment(was).value.key
  }

  /**
   Line by line: the rewritten file starts with the old lines in their old places. A line that sets
   no patched property is verbatim, except that only the last line of the new file keeps a carriage
   return at its end; any other line keeps its key.
   */
  lemma LinesStayInPlace(content: string, p: Patch, i: nat)
    requires p.Valid() && NewlineFree(p.values) && i < |SplitLines(content)|
    ensures var was, now := SplitLines(content), SplitLines(Rewrite(content, p));
      && |now| >= |was|
      && (Target(was[i], p.values).None? ==> now[i] == if i == |now| - 1 then was[i] else ChompCr(was[i]))
      && (Target(was[i], p.values).Some? ==> SameKey(was[i], now[i]))
  {
    var was := SplitLines(content);
    var lines := RewrittenLines(content, p);
    RewrittenNewline(content, p);
    SplitOfJoin(lines);
    ChompedAt(lines, i);
    TrimChomped(lines[i]);
    assert lines[i] == RewriteLine(was[i], p.values);
    if Target(was[i], p.values).Some? {
      RewrittenKey(was[i], p.values, Target(was[i], p.values).value);
    }
  }

  lemma RewrittenKey(line: string, values: Config, f: Field)
    ensures Target(line, values) == Some(f) ==> SameKey(line, RewriteLine(line, values))
  {
    if Target(line, values) == Some(f) {
      var a := ReadAssignment(line).value;
      ShellNameIsPlain(f);
      CommentIsComment(a.rhs);
      RenderIsAssignment(a.key, Format(f, values[f]), Comment(a.rhs));
    }
  }

  /** With plain values the comment behind a rewritten assignment is the one that stood there. */
  lemma CommentStays(line: string, values: Config)
    requires PlainValues(values) && Target(line, values).Some?
    ensures var now := RewriteLine(line, values);
      ReadAssignment(now).Some? && Comment(ReadAssignment(now).value.rhs) == Comment(ReadAssignment(line).value.rhs)
  {
    var f := Target(line, values).value;
    var a := ReadAssignment(line).value;
    ShellNameIsPlain(f);
    CommentIsComment(a.rhs);
    FormatIsPlain(f, values);
    RenderIsAssignment(a.key, Format(f, values[f]), Comment(a.rhs));
    PlainReadsBack(Format(f, values[f]), Comment(a.rhs));
  }

  // ---------------------------------------------------------------- when a comment survives

  /** No position of `s` starts a comment. */
  predicate NoComment(s: string) { forall j :: 0 <= j < |s| ==> !StartsComment(s, j) }

  /** The quoted text leaves no quote open and has no `#` outside its quotes. */
  predicate ClosesCleanly(text: string) {
    var q := SingleQuote(text);
    QuotingAfter(q) == Outside && NoComment(q)
  }

  lemma SuffixQuoting(q: string, comment: string)
    requires IsComment(comment) && comment != ""
    ensures var rhs := q + Suffix(comment);
      && (forall j :: 0 <= j < |q| ==> (StartsComment(rhs, j) <==> StartsComment(q, j)))
      && !StartsComment(rhs, |q|)
      && (StartsComment(rhs, |q| + 1) <==> QuotingAfter(q) == Outside)
  {
    var rhs := q + Suffix(comment);
    assert forall j :: 0 <= j < |q| ==> rhs[..j] == q[..j];
    assert rhs[..|q|] == q && rhs[|q|] == ' ' && rhs[|q| + 1] == '#';
    QuotingAfterStep(rhs, |q|);
  }

  /** The comment behind `q` is the first one exactly when `q` ends outside quotes and starts none. */
  lemma FirstCommentIff(q: string, comment: string)
    requires IsComment(comment) && comment != ""
    ensures UnquotedHash(q + Suffix(comment)) == |q| + 1 <==> QuotingAfter(q) == Outside && NoComment(q)
  {
    var rhs := q + Suffix(comment);
    SuffixQuoting(q, comment);
    UnquotedHashIsFirst(rhs);
    if QuotingAfter(q) == Outside && NoComment(q) {
      UnquotedHashIs(rhs, |q| + 1);
    }
  }

  lemma CommentTail(q: string, comment: string, r: nat)
    requires comment != "" && r <= |q + Suffix(comment)|
    ensures (q + Suffix(comment))[r..] == comment <==> r == |q| + 1
  {
  }

  /**
   A comment behind the value is found again by the next update exactly when the quoted text closes
   cleanly; otherwise the next update of the line drops it, shortens it or swallows part of the value.
   */
  lemma CommentFoundIff(text: string, comment: string)
    requires IsComment(comment) && comment != ""
    ensures Comment(SingleQuote(text) + Suffix(comment)) == comment <==> ClosesCleanly(text)
  {
    var q := SingleQuote(text);
    FirstCommentIff(q, comment);
    var hash := UnquotedHash(q + Suffix(comment));
    if hash >= 0 { CommentTail(q, comment, hash); }
  }

  // ---- the same, read off a text without double quotes

  function QuotesIn(text: string): nat { multiset(text)['\''] }

  /** The scanner reads the text behind an odd number of quotes as if it stood outside quotes. */
  function InsideAfter(text: string): Quoting { if QuotesIn(text) % 2 == 0 then InSingle else Outside }

  /** An even number of quotes, and no `#` behind an odd number of them. */
  predicate Sheltered(text: string) {
    QuotesIn(text) % 2 == 0 && NoHashOutside(text)
  }

  predicate NoHashOutside(text: string) {
    text == "" || (NoHashOutside(text[..|text| - 1]) && (text[|text| - 1] == '#' ==> QuotesIn(text[..|text| - 1]) % 2 == 0))
  }

  lemma NoCommentSnoc(s: string, c: char)
    ensures NoComment(s + [c]) <==> NoComment(s) && !(c == '#' && QuotingAfter(s) == Outside)
  {
    var t := s + [c];
    forall j | 0 <= j < |s| ensures StartsComment(t, j) <==> StartsComment(s, j) {
      assert t[..j] == s[..j];
    }
    assert t[..|s|] == s;
    if NoComment(s) && !(c == '#' && QuotingAfter(s) == Outside) {
      forall j | 0 <= j < |t| ensures !StartsComment(t, j) {}
    }
    assert StartsComment(t, |s|) <==> c == '#' && QuotingAfter(s) == Outside;
  }

  /** What one character becomes between the quotes. */
  function EscapedChar(c: char): string { if c == '\'' then "'\\''" else [c] }

  lemma EscapeHead(c: char, rest: string)
    ensures EscapeQuotes([c] + rest) == EscapedChar(c) + EscapeQuotes(rest)
  {
    EscapeCons(c, rest);
  }

  lemma EscapeOne(c: char)
    ensures EscapeQuotes([c]) == EscapedChar(c)
  {
    EscapeHead(c, "");
    assert [c] + "" == [c];
  }

  lemma AppendAssoc(a: string, b: string, c: string)
    ensures a + (b + c) == a + b + c
  {
  }

  lemma {:induction false} EscapeSnoc(text: string, c: char)
    ensures EscapeQuotes(text + [c]) == EscapeQuotes(text) + EscapedChar(c)
    decreases |text|
  {
    if text == "" {
      assert text + [c] == [c];
      EscapeOne(c);
    } else {
      var head, rest := text[0], text[1..];
      EscapeSnoc(rest, c);
      EscapeHead(head, rest);
      EscapeHead(head, rest + [c]);
      AppendAssoc([head], rest, [c]);
      AppendAssoc(EscapedChar(head), EscapeQuotes(rest), EscapedChar(c));
      assert text == [head] + rest;
    }
  }

  /** Four characters for one quote: the scanner ends on the other side, and starts no comment. */
  lemma ScanEscape(s: string)
    requires QuotingAfter(s) == InSingle || QuotingAfter(s) == Outside
    ensures QuotingAfter(s + "'\\''") == if QuotingAfter(s) == InSingle then Outside else InSingle
    ensures NoComment(s + "'\\''") <==> NoComment(s)
  {
    var a, b, c := s + ['\''], s + ['\''] + ['\\'], s + ['\''] + ['\\'] + ['\''];
    QuotingAfterOne(s, '\'');
    QuotingAfterOne(a, '\\');
    QuotingAfterOne(b, '\'');
    QuotingAfterOne(c, '\'');
    NoCommentSnoc(s, '\'');
    NoCommentSnoc(a, '\\');
    NoCommentSnoc(b, '\'');
    NoCommentSnoc(c, '\'');
    assert s + "'\\''" == c + ['\''];
  }

  lemma InsideSnoc(init: string, c: char)
    ensures InsideAfter(init + [c]) == if c != '\'' then InsideAfter(init) else if InsideAfter(init) == InSingle then Outside else InSingle
    ensures NoHashOutside(init + [c]) <==> NoHashOutside(init) && !(c == '#' && InsideAfter(init) == Outside)
  {
    assert (init + [c])[..|init|] == init;
    assert QuotesIn(init + [c]) == QuotesIn(init) + if c == '\'' then 1 else 0;
  }

  /** The scanner's state after the text, and whether it saw a comment start, as read off the text. */
  predicate ScansAs(s: string, text: string) {
    QuotingAfter(s) == InsideAfter(text) && (NoComment(s) <==> NoHashOutside(text))
  }

  lemma ScanSnoc(s: string, init: string, c: char)
    requires c != '"' && ScansAs(s, init)
    ensures ScansAs(s + EscapedChar(c), init + [c])
  {
    InsideSnoc(init, c);
    if c == '\'' {
      ScanEscape(s);
    } else {
      QuotingAfterOne(s, c);
      NoCommentSnoc(s, c);
    }
  }

  /** The quoted text without its closing quote. */
  function Opened(text: string): string { "'" + EscapeQuotes(text) }

  lemma OpenedSnoc(init: string, c: char)
    ensures Opened(init + [c]) == Opened(init) + EscapedChar(c)
  {
    EscapeSnoc(init, c);
    AppendAssoc("'", EscapeQuotes(init), EscapedChar(c));
  }

  lemma ScanStep(text: string, init: string, c: char)
    requires text == init + [c] && c != '"' && ScansAs(Opened(init), init)
    ensures ScansAs(Opened(text), text)
  {
    OpenedSnoc(init, c);
    ScanSnoc(Opened(init), init, c);
  }

  lemma ScanNothing()
    ensures ScansAs(Opened(""), "")
  {
    assert Opened("") == "'" && "'"[..0] == "";
  }

  lemma {:induction false} ScanEscaped(text: string)
    requires '"' !in text
    ensures ScansAs(Opened(text), text)
    decreases |text|
  {
    if text == "" {
      ScanNothing();
    } else {
      ScanEscaped(text[..|text| - 1]);
      ScanStep(text, text[..|text| - 1], text[|text| - 1]);
    }
  }

  /** Without double quotes in the text the condition can be read off it. */
  lemma ClosesCleanlyIff(text: string)
    requires '"' !in text
    ensures ClosesCleanly(text) <==> Sheltered(text)
  {
    var s := Opened(text);
    ScanEscaped(text);
    QuotingAfterOne(s, '\'');
    NoCommentSnoc(s, '\'');
    assert SingleQuote(text) == s + ['\''];
  }

  lemma {:induction false} OutsideStays(s: string, b: string)
    requires QuotingAfter(s) == Outside && '\'' !in b && '"' !in b
    ensures QuotingAfter(s + b) == Outside
  {
    if b == "" {
      assert s + b == s;
    } else {
      var n := |b| - 1;
      OutsideStays(s, b[..n]);
      assert (s + b)[..|s + b| - 1] == s + b[..n] && (s + b)[|s + b| - 1] == b[n];
    }
  }

  lemma QuotingAfterOne(s: string, c: char)
    ensures QuotingAfter(s + [c]) == Scan(QuotingAfter(s), c)
  {
    assert (s + [c])[..|s|] == s;
  }

  /** One apostrophe, as in "it's", leaves the quoted text open for the scanner. */
  lemma OneQuoteLosesComment(a: string, b: string, comment: string)
    requires '\'' !in a && '\'' !in b && '"' !in b && IsComment(comment) && comment != ""
    ensures Comment(SingleQuote(a + "'" + b) + Suffix(comment)) != comment
  {
    var text := a + "'" + b;
    QuotingInside(a, |a|);
    var s0 := "'" + a[..|a|];
    QuotingAfterOne(s0, '\'');
    QuotingAfterOne(s0 + "'", '\\');
    QuotingAfterOne(s0 + "'" + "\\", '\'');
    QuotingAfterOne(s0 + "'" + "\\" + "'", '\'');
    var s1 := s0 + "'" + "\\" + "'" + "'";
    OutsideStays(s1, b);
    QuotingAfterOne(s1 + b, '\'');
    OneQuoteShape(a, b);
    CommentFoundIff(text, comment);
  }

  lemma OneQuoteShape(a: string, b: string)
    requires '\'' !in a && '\'' !in b
    ensures SingleQuote(a + "'" + b) == "'" + a[..|a|] + "'" + "\\" + "'" + "'" + b + "'"
  {
    assert a + "'" + b == a + ("'" + b);
    EscapeRun(a, "'" + b);
    assert ("'" + b)[1..] == b;
    assert EscapeQuotes("'" + b) == "'\\''" + b;
  }

  // ---------------------------------------------------------------- updating twice

  /** The next update finds the comment behind the quoted text again, and none where none stands. */
  predicate Settles(text: string, comment: string) {
    if comment == "" then NoComment(SingleQuote(text)) else ClosesCleanly(text)
  }

  lemma SettlesIff(text: string, comment: string)
    requires IsComment(comment)
    ensures Comment(SingleQuote(text) + Suffix(comment)) == comment <==> Settles(text, comment)
  {
    if comment == "" {
      assert SingleQuote(text) + "" == SingleQuote(text);
      UnquotedHashIsFirst(SingleQuote(text));
    } else {
      CommentFoundIff(text, comment);
    }
  }

  lemma SuffixInjective(a: string, b: string)
    requires Suffix(a) == Suffix(b)
    ensures a == b
  {
    if a != "" && b != "" {
      assert a == (" " + a)[1..] && b == (" " + b)[1..];
    }
  }

  lemma CutHead(head: string, a: string, b: string)
    requires head + a == head + b
    ensures a == b
  {
    assert a == (head + a)[|head|..] && b == (head + b)[|head|..];
  }

  lemma RenderInjective(name: string, text: string, a: string, b: string)
    requires Render(name, text, a) == Render(name, text, b)
    ensures a == b
  {
    CutHead(name + "=", SingleQuote(text) + Suffix(a), SingleQuote(text) + Suffix(b));
    CutHead(SingleQuote(text), Suffix(a), Suffix(b));
    SuffixInjective(a, b);
  }

  /** The update leaves the line as it is. */
  predicate Stays(line: string, values: Config) { RewriteLine(line, values) == line }

  lemma RenderSame(name: string, text: string, a: string, b: string)
    ensures Render(name, text, a) == Render(name, text, b) <==> a == b
  {
    if Render(name, text, a) == Render(name, text, b) {
      RenderInjective(name, text, a, b);
    }
  }

  lemma RewriteOfRendered(f: Field, values: Config, comment: string)
    requires Mapped(f) && f in values && IsComment(comment)
    ensures var name, text := ShellName(f), Format(f, values[f]);
      RewriteLine(Render(name, text, comment), values) == Render(name, text, Comment(SingleQuote(text) + Suffix(comment)))
  {
    ShellNameIsPlain(f);
    FieldNamedIs(f);
    RenderIsAssignment(ShellName(f), Format(f, values[f]), comment);
  }

  /** The rewriter leaves a line it has made as it is exactly when the comment on it settles. */
  lemma RenderedAgain(f: Field, values: Config, comment: string)
    requires Mapped(f) && f in values && IsComment(comment)
    ensures Stays(Render(ShellName(f), Format(f, values[f]), comment), values) <==> Settles(Format(f, values[f]), comment)
  {
    var name, text := ShellName(f), Format(f, values[f]);
    RewriteOfRendered(f, values, comment);
    RenderSame(name, text, Comment(SingleQuote(text) + Suffix(comment)), comment);
    SettlesIff(text, comment);
  }

  /** The comment of the line, if the patch rewrites it, settles behind the new value. */
  predicate LineSettles(line: string, values: Config) {
    match Target(line, values)
    case None => true
    case Some(f) => Settles(Format(f, values[f]), Comment(ReadAssignment(line).value.rhs))
  }

  lemma RewrittenStays(line: string, values: Config)
    ensures Stays(RewriteLine(line, values), values) <==> LineSettles(line, values)
  {
    if Target(line, values).Some? {
      var rhs := ReadAssignment(line).value.rhs;
      CommentIsComment(rhs);
      RenderedAgain(Target(line, values).value, values, Comment(rhs));
    }
  }

  /** A property the update appends a line for, and whose quoted text the scanner sees no comment in. */
  predicate NewSettles(f: Field, values: Config, seen: set<Field>) {
    f in values && Mapped(f) && f !in seen ==> Settles(Format(f, values[f]), "")
  }

  predicate AllStay(lines: seq<string>, values: Config) { forall i :: 0 <= i < |lines| ==> Stays(lines[i], values) }

  lemma AllStayConcat(a: seq<string>, b: seq<string>, values: Config)
    ensures AllStay(a + b, values) <==> AllStay(a, values) && AllStay(b, values)
  {
    assert forall i :: 0 <= i < |a| ==> (a + b)[i] == a[i];
    assert forall i :: 0 <= i < |b| ==> b[i] == (a + b)[|a| + i];
  }

  lemma OneStays(line: string, values: Config)
    ensures AllStay([line], values) <==> Stays(line, values)
  {
    assert [line][0] == line;
  }

  lemma AppendedForStays(f: Field, values: Config, seen: set<Field>)
    ensures AllStay(AppendedFor(f, values, seen), values) <==> NewSettles(f, values, seen)
  {
    if f in values && f !in seen && Mapped(f) {
      RenderedAgain(f, values, "");
      OneStays(Render(ShellName(f), Format(f, values[f]), ""), values);
    }
  }

  predicate NewSettle(keys: seq<Field>, values: Config, seen: set<Field>) {
    forall f :: f in keys ==> NewSettles(f, values, seen)
  }

  lemma NewSettleSnoc(init: seq<Field>, f: Field, values: Config, seen: set<Field>)
    ensures NewSettle(init + [f], values, seen) <==> NewSettle(init, values, seen) && NewSettles(f, values, seen)
  {
    assert f in init + [f];
    assert forall g :: g in init + [f] <==> g in init || g == f;
  }

  lemma AppendedStaySnoc(keys: seq<Field>, init: seq<Field>, f: Field, values: Config, seen: set<Field>)
    requires keys == init + [f]
    requires AllStay(Appended(init, values, seen), values) <==> NewSettle(init, values, seen)
    ensures AllStay(Appended(keys, values, seen), values) <==> NewSettle(keys, values, seen)
  {
    AppendedForStays(f, values, seen);
    AllStayConcat(Appended(init, values, seen), AppendedFor(f, values, seen), values);
    NewSettleSnoc(init, f, values, seen);
    assert keys[..|keys| - 1] == init;
  }

  lemma NoKeys(values: Config, seen: set<Field>)
    ensures AllStay(Appended([], values, seen), values) && NewSettle([], values, seen)
  {
  }

  lemma {:induction false} AppendedStay(keys: seq<Field>, values: Config, seen: set<Field>)
    ensures AllStay(Appended(keys, values, seen), values) <==> NewSettle(keys, values, seen)
  {
    if keys == [] {
      NoKeys(values, seen);
    } else {
      var init, f := keys[..|keys| - 1], keys[|keys| - 1];
      assert keys == init + [f];
      AppendedStay(init, values, seen);
      AppendedStaySnoc(keys, init, f, values, seen);
    }
  }

  /** Every comment the update leaves on a line it writes is found again by the next one. */
  predicate CommentsSettle(content: string, p: Patch) {
    var lines := SplitLines(content);
    && (forall i :: 0 <= i < |lines| ==> LineSettles(lines[i], p.values))
    && NewSettle(p.keys, p.values, Touched(lines, p.values))
  }

  lemma RewrittenLinesStay(content: string, p: Patch)
    ensures AllStay(RewrittenLines(content, p), p.values) <==> CommentsSettle(content, p)
  {
    var lines := SplitLines(content);
    var rewritten := RewriteLines(lines, p.values);
    forall i | 0 <= i < |lines| ensures Stays(rewritten[i], p.values) <==> LineSettles(lines[i], p.values) {
      RewrittenStays(lines[i], p.values);
    }
    AppendedStay(p.keys, p.values, Touched(lines, p.values));
    AllStayConcat(rewritten, Appended(p.keys, p.values, Touched(lines, p.values)), p.values);
  }

  /** Every patched property is set by some line of the rewritten file, so nothing is appended again. */
  lemma AllTouched(content: string, p: Patch)
    requires p.Valid() && NewlineFree(p.values)
    ensures forall f :: f in p.values && Mapped(f) ==> f in Touched(SplitLines(Rewrite(content, p)), p.values)
  {
    forall f | f in p.values && Mapped(f) ensures f in Touched(SplitLines(Rewrite(content, p)), p.values) {
      PatchedIsDefined(content, p, f);
    }
  }

  lemma {:induction false} NothingAppended(keys: seq<Field>, values: Config, seen: set<Field>)
    requires forall f :: f in values && Mapped(f) ==> f in seen
    ensures Appended(keys, values, seen) == []
  {
    if keys == [] {
    } else {
      NothingAppended(keys[..|keys| - 1], values, seen);
    }
  }

  /** The second update rewrites the same lines, each short of one carriage return, and appends nothing. */
  lemma SecondUpdateLines(content: string, p: Patch)
    requires p.Valid() && NewlineFree(p.values)
    ensures RewrittenLines(Rewrite(content, p), p) == RewriteLines(ChompAllButLast(RewrittenLines(content, p)), p.values)
  {
    var once := RewrittenLines(content, p);
    RewrittenNewline(content, p);
    SplitOfJoin(once);
    var lines := ChompAllButLast(once);
    AllTouched(content, p);
    NothingAppended(p.keys, p.values, Touched(lines, p.values));
    assert RewriteLines(lines, p.values) + [] == RewriteLines(lines, p.values);
  }

  lemma JoinInjective(a: seq<string>, b: seq<string>)
    requires a != [] && b != [] && Join(a) == Join(b)
    requires (forall line :: line in a ==> '\n' !in line) && (forall line :: line in b ==> '\n' !in line)
    ensures a == b
  {
    SplitJoined(a);
    SplitJoined(b);
  }

  /** The update adds a line: some patched property is set by no line of the file. */
  predicate AddsLines(content: string, p: Patch) {
    exists f :: f in p.values && Mapped(f) && !Sets(Parsed(content), f)
  }

  /** A line of its own, which the update copies: it sets no patched property. */
  predicate Copied(line: string, p: Patch) { Target(line, p.values).None? }

  /**
   No copied line ends in a carriage return; only the last line of the file may, and only if the update
   adds no line behind it.
   */
  predicate PlainEndings(content: string, p: Patch) {
    var lines := SplitLines(content);
    forall i :: 0 <= i < |lines| && (i < |lines| - 1 || AddsLines(content, p)) && Copied(lines[i], p) ==> !EndsWithCr(lines[i])
  }

  lemma RenderedNoCr(name: string, text: string, comment: string)
    requires IsComment(comment)
    ensures !EndsWithCr(Render(name, text, comment))
  {
    var line := Render(name, text, comment);
    assert line[|line| - 1] == if comment == "" then '\'' else comment[|comment| - 1];
  }

  lemma RewrittenNoCr(line: string, p: Patch)
    ensures EndsWithCr(RewriteLine(line, p.values)) <==> Copied(line, p) && EndsWithCr(line)
  {
    if !Copied(line, p) {
      var a := ReadAssignment(line).value;
      CommentIsComment(a.rhs);
      RenderedNoCr(a.key, Format(Target(line, p.values).value, p.values[Target(line, p.values).value]), Comment(a.rhs));
    }
  }

  lemma StaysChomped(line: string, p: Patch)
    ensures RewriteLine(ChompCr(line), p.values) == line <==> !EndsWithCr(line) && Stays(line, p.values)
  {
    if EndsWithCr(line) {
      TrimChomped(line);
      RewrittenNoCr(ChompCr(line), p);
      assert ChompCr(line) != line;
    }
  }

  lemma SameLines(once: seq<string>, p: Patch)
    ensures RewriteLines(ChompAllButLast(once), p.values) == once <==> NoInnerCr(once) && AllStay(once, p.values)
  {
    var chomped := ChompAllButLast(once);
    NoInnerCrMeans(once);
    forall i | 0 <= i < |once|
      ensures RewriteLine(chomped[i], p.values) == once[i] <==> (i < |once| - 1 ==> !EndsWithCr(once[i])) && Stays(once[i], p.values)
    {
      ChompedAt(once, i);
      StaysChomped(once[i], p);
    }
    assert RewriteLines(chomped, p.values) == once <==> forall i :: 0 <= i < |once| ==> RewriteLine(chomped[i], p.values) == once[i];
  }

  lemma {:induction false} AppendedNoCr(keys: seq<Field>, values: Config, seen: set<Field>)
    ensures NoneEndsWithCr(Appended(keys, values, seen))
  {
    if keys == [] {
    } else {
      var f := keys[|keys| - 1];
      AppendedNoCr(keys[..|keys| - 1], values, seen);
      if f in values && Mapped(f) { RenderedNoCr(ShellName(f), Format(f, values[f]), ""); }
      var init, more := Appended(keys[..|keys| - 1], values, seen), AppendedFor(f, values, seen);
      NoneMeans(init);
      NoneMeans(init + more);
    }
  }

  lemma {:induction false} AppendedIff(keys: seq<Field>, values: Config, seen: set<Field>)
    ensures Appended(keys, values, seen) != [] <==> exists f :: f in keys && f in values && Mapped(f) && f !in seen
  {
    if keys == [] {
    } else {
      AppendedIff(keys[..|keys| - 1], values, seen);
      assert keys == keys[..|keys| - 1] + [keys[|keys| - 1]];
    }
  }

  lemma AddsLinesIff(content: string, p: Patch)
    requires p.Valid()
    ensures AddsLines(content, p) <==> Appended(p.keys, p.values, Touched(SplitLines(content), p.values)) != []
  {
    AppendedIff(p.keys, p.values, Touched(SplitLines(content), p.values));
  }

  lemma EndingsOfRewritten(content: string, p: Patch)
    requires p.Valid()
    ensures NoInnerCr(RewrittenLines(content, p)) <==> PlainEndings(content, p)
  {
    var lines := SplitLines(content);
    var rewritten := RewriteLines(lines, p.values);
    var more := Appended(p.keys, p.values, Touched(lines, p.values));
    AddsLinesIff(content, p);
    forall i | 0 <= i < |lines| ensures EndsWithCr(rewritten[i]) <==> Copied(lines[i], p) && EndsWithCr(lines[i]) {
      RewrittenNoCr(lines[i], p);
    }
    if more == [] {
      assert rewritten + more == rewritten;
      NoInnerCrMeans(rewritten);
    } else {
      AppendedNoCr(p.keys, p.values, Touched(lines, p.values));
      NoneMeans(more);
      NoInnerCrMeans(more);
      NoInnerCrConcat(rewritten, more);
      NoneMeans(rewritten);
    }
  }

  /**
   For values without newlines: updating twice is updating once exactly for files with plain endings on
   which every comment settles.
   */
  lemma UpdateIdempotentIff(content: string, p: Patch)
    requires p.Valid() && NewlineFree(p.values)
    ensures Rewrite(Rewrite(content, p), p) == Rewrite(content, p) <==> PlainEndings(content, p) && CommentsSettle(content, p)
  {
    var once, twice := RewrittenLines(content, p), RewrittenLines(Rewrite(content, p), p);
    SecondUpdateLines(content, p);
    SameLines(once, p);
    EndingsOfRewritten(content, p);
    RewrittenLinesStay(content, p);
    RewrittenNewline(content, p);
    RewrittenNewline(Rewrite(content, p), p);
    if Join(twice) == Join(once) {
      JoinInjective(twice, once);
    }
  }

  lemma PlainSettles(f: Field, values: Config, comment: string)
    requires PlainValues(values) && Mapped(f) && f in values && IsComment(comment)
    ensures Settles(Format(f, values[f]), comment)
  {
    FormatIsPlain(f, values);
    PlainReadsBack(Format(f, values[f]), comment);
    SettlesIff(Format(f, values[f]), comment);
  }

  /** Behind a value without quotes every comment settles. */
  lemma PlainCommentsSettle(content: string, p: Patch)
    requires PlainValues(p.values)
    ensures CommentsSettle(content, p)
  {
    var lines := SplitLines(content);
    forall i | 0 <= i < |lines| ensures LineSettles(lines[i], p.values) {
      if Target(lines[i], p.values).Some? {
        CommentIsComment(ReadAssignment(lines[i]).value.rhs);
        PlainSettles(Target(lines[i], p.values).value, p.values, Comment(ReadAssignment(lines[i]).value.rhs));
      }
    }
    forall f | f in p.keys ensures NewSettles(f, p.values, Touched(lines, p.values)) {
      if f in p.values && Mapped(f) { PlainSettles(f, p.values, ""); }
    }
  }

  /** With plain values the update is idempotent exactly for files with plain endings. */
  lemma UpdateIdempotent(content: string, p: Patch)
    requires p.Valid() && PlainValues(p.values)
    ensures Rewrite(Rewrite(content, p), p) == Rewrite(content, p) <==> PlainEndings(content, p)
  {
    UpdateIdempotentIff(content, p);
    PlainCommentsSettle(content, p);
  }

  /** In particular for every file without carriage returns. */
  lemma UpdateIdempotentWithoutCr(content: string, p: Patch)
    requires p.Valid() && PlainValues(p.values) && '\r' !in content
    ensures Rewrite(Rewrite(content, p), p) == Rewrite(content, p)
  {
    forall i | 0 <= i < |SplitLines(content)| ensures !EndsWithCr(SplitLines(content)[i]) {
      SplitLinesKeepsOut(content, '\r', i);
    }
    UpdateIdempotent(content, p);
  }

  /** A file for which it fails: even the empty update strips one more carriage return each time. */
  lemma UpdateNotIdempotent()
    ensures var p := Patch([], map[]);
      p.Valid() && PlainValues(p.values) && Rewrite(Rewrite("x\r" + "\r\ny", p), p) != Rewrite("x\r" + "\r\ny", p)
  {
    var content, p := "x\r" + "\r\ny", Patch([], map[]);
    var a := "x\r\r";
    SplitPrefix(a, "y");
    assert content == a + "\n" + "y" && ChompCr(a) == "x\r";
    var line := SplitLines(content)[0];
    assert line == "x\r" && EndsWithCr(line) && Copied(line, p);
    UpdateIdempotent(content, p);
  }

  lemma RenderedTarget(f: Field, values: Config, comment: string)
    requires Mapped(f) && f in values && IsComment(comment)
    ensures var line := Render(ShellName(f), "", comment);
      Target(line, values) == Some(f) && Comment(ReadAssignment(line).value.rhs) == comment
  {
    ShellNameIsPlain(f);
    FieldNamedIs(f);
    RenderIsAssignment(ShellName(f), "", comment);
    PlainReadsBack("", comment);
  }

  lemma RenderedIsOneLine(f: Field, comment: string)
    requires Mapped(f) && '\n' !in comment
    ensures var line := Render(ShellName(f), "", comment); SplitLines(line) == [line]
  {
    ShellNameIsPlain(f);
    RenderNewline(ShellName(f), "", comment);
  }

  lemma Unsettled(line: string, p: Patch, f: Field)
    requires SplitLines(line) == [line] && Target(line, p.values) == Some(f)
    requires !Settles(Format(f, p.values[f]), Comment(ReadAssignment(line).value.rhs))
    ensures !CommentsSettle(line, p)
  {
    assert !LineSettles(SplitLines(line)[0], p.values);
  }

  /** A value after which it fails: one whose quoted text does not close cleanly, in front of a comment. */
  lemma QuoteNotIdempotent(f: Field, line: string, p: Patch, comment: string)
    requires Mapped(f) && p.Valid() && NewlineFree(p.values) && f in p.values && !ClosesCleanly(Format(f, p.values[f]))
    requires IsComment(comment) && comment != "" && '\n' !in comment && line == Render(ShellName(f), "", comment)
    ensures Rewrite(Rewrite(line, p), p) != Rewrite(line, p)
  {
    RenderedIsOneLine(f, comment);
    RenderedTarget(f, p.values, comment);
    Unsettled(line, p, f);
    UpdateIdempotentIff(line, p);
  }
}
