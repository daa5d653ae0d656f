/**
 The quoting against its consumer: incus.cfg is sourced by the shell, so a quoted value must read
 as one literal word under sections 2.2.1 and 2.2.2 of the POSIX.1-2017 Shell Command Language.
 */
module ShellQuoting {
  import opened Text
  import opened ShellConfig

  /** Characters that section 2.2 says must, or under some conditions must, be quoted to stand for themselves. */
  predicate Special(c: char) {
    c in {'|', '&', ';', '<', '>', '(', ')', '$', '`', '"', ' ', '\t', '\n', '*', '?', '[', '#', '~', '=', '%'}
  }

  /**
   The literal text of one word built from backslash escapes, single-quoted runs and ordinary
   characters; nothing when the shell would see an expansion, an operator or an open quote.
   */
  function ReadWord(s: string): Option<string>
    decreases |s|
  {
    if s == "" then Some("")
    else if s[0] == '\\' then
      if |s| < 2 then None
      else if s[1] == '\n' then ReadWord(s[2..])
      else Prefix([s[1]], ReadWord(s[2..]))
    else if s[0] == '\'' then
      var close := IndexOf(s[1..], '\'');
      if close < 0 then None
      else Prefix(s[1..][..close], ReadWord(s[1..][close + 1..]))
    else if Special(s[0]) then None
    else Prefix([s[0]], ReadWord(s[1..]))
  }

  function Prefix(p: string, rest: Option<string>): Option<string> {
    match rest
    case None => None
    case Some(r) => Some(p + r)
  }

  lemma ReadQuotedRun(run: string, rest: string)
    requires '\'' !in run
    ensures ReadWord("'" + run + "'" + rest) == Prefix(run, ReadWord(rest))
  {
    var s := "'" + run + "'" + rest;
    assert s[1..] == run + "'" + rest;
    var t := s[1..];
    assert t[..|run|] == run && t[|run|] == '\'';
    IndexOfIs(t, '\'', |run|);
    assert t[|run| + 1..] == rest;
  }

  lemma ReadRunAndQuote(run: string, tail: string, rest: string)
    requires '\'' !in run && ReadWord(tail) == Some(rest)
    ensures ReadWord("'" + run + "'" + ("\\'" + tail)) == Some(run + ("'" + rest))
  {
    ReadQuotedRun(run, "\\'" + tail);
  }

  lemma ReadRunAlone(run: string)
    requires '\'' !in run
    ensures ReadWord(SingleQuote(run)) == Some(run)
  {
    ReadQuotedRun(run, "");
    assert SingleQuote(run) == "'" + run + "'" + "";
    assert run + "" == run;
  }

  /** For every value, the shell reads the quoted text as exactly that value. */
  lemma {:induction false} QuotedIsLiteral(v: string)
    ensures ReadWord(SingleQuote(v)) == Some(v)
    decreases |v|
  {
    var i := IndexOf(v, '\'');
    if i < 0 {
      ReadRunAlone(v);
    } else {
      var rest := v[i + 1..];
      QuotedIsLiteral(rest);
      ReadSplit(v, i, SingleQuote(rest));
    }
  }

  lemma ReadSplit(v: string, i: nat, tail: string)
    requires i < |v| && v[i] == '\'' && '\'' !in v[..i]
    requires tail == SingleQuote(v[i + 1..]) && ReadWord(tail) == Some(v[i + 1..])
    ensures ReadWord(SingleQuote(v)) == Some(v)
  {
    SplitAtQuote(v, i);
    ReadRunAndQuote(v[..i], tail, v[i + 1..]);
    RejoinAtQuote(v, i);
  }

  lemma RejoinAtQuote(v: string, i: nat)
    requires i < |v| && v[i] == '\''
    ensures v[..i] + ("'" + v[i + 1..]) == v
  {
  }

  lemma SplitAtQuote(v: string, i: nat)
    requires i < |v| && v[i] == '\'' && '\'' !in v[..i]
    ensures SingleQuote(v) == "'" + v[..i] + "'" + ("\\'" + SingleQuote(v[i + 1..]))
  {
    var run, rest := v[..i], v[i + 1..];
    assert v == run + ("'" + rest);
    EscapeRun(run, "'" + rest);
    assert ("'" + rest)[1..] == rest;
    assert EscapeQuotes("'" + rest) == "'\\''" + EscapeQuotes(rest);
    AssociateQuoted(run, EscapeQuotes(rest));
  }

  lemma AssociateQuoted(run: string, escaped: string)
    ensures "'" + (run + ("'\\''" + escaped)) + "'" == "'" + run + "'" + ("\\'" + ("'" + escaped + "'"))
  {
  }
}
