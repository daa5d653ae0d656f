/**
 String operations of the JavaScript standard library that the configuration code relies on,
 with the few laws the proofs need. A string is a sequence of Unicode scalar values.
 */
module Text {

  datatype Option<+T> = None | Some(value: T)

  /** WhiteSpace or LineTerminator of ECMA-262: what `trim` removes and `\s` matches. */
  predicate IsSpace(c: char) {
    || c == ' ' || ('\t' <= c <= '\r')
    || c == '\U{00A0}' || c == '\U{1680}' || ('\U{2000}' <= c <= '\U{200A}')
    || c == '\U{2028}' || c == '\U{2029}' || c == '\U{202F}' || c == '\U{205F}'
    || c == '\U{3000}' || c == '\U{FEFF}'
  }

  function TrimStart(s: string): (t: string)
    ensures |t| <= |s|
    ensures t != "" ==> !IsSpace(t[0])
  {
    if s != "" && IsSpace(s[0]) then TrimStart(s[1..]) else s
  }

  function TrimEnd(s: string): (t: string)
    ensures t <= s
    ensures t != "" ==> !IsSpace(t[|t| - 1])
  {
    if s != "" && IsSpace(s[|s| - 1]) then TrimEnd(s[..|s| - 1]) else s
  }

  lemma {:induction false} TrimStartIsTail(s: string)
    ensures TrimStart(s) == s[|s| - |TrimStart(s)|..]
  {
    if s == "" || !IsSpace(s[0]) {
    } else {
      TrimStartIsTail(s[1..]);
    }
  }

  /** `trim` stops at the last character that is not white space. */
  lemma {:induction false} TrimEndReaches(s: string, i: nat)
    requires i < |s| && !IsSpace(s[i])
    ensures |TrimEnd(s)| > i
  {
    if !IsSpace(s[|s| - 1]) {
    } else {
      TrimEndReaches(s[..|s| - 1], i);
    }
  }

  function Trim(s: string): (t: string)
    ensures IsTrimmed(t)
  {
    TrimEnd(TrimStart(s))
  }

  predicate IsTrimmed(s: string) {
    s != "" ==> !IsSpace(s[0]) && !IsSpace(s[|s| - 1])
  }

  /** A string whose ends are not white space is left alone by `trim`. */
  lemma TrimOfTrimmed(s: string)
    requires IsTrimmed(s)
    ensures Trim(s) == s
  {
    assert TrimStart(s) == s;
  }

  lemma {:induction false} TrimEndPad(s: string, c: char)
    requires IsSpace(c)
    ensures TrimEnd(s + [c]) == TrimEnd(s)
  {
    assert (s + [c])[..|s|] == s;
  }

  lemma OneSpace(c: char)
    requires IsSpace(c)
    ensures Trim([c]) == "" == Trim("")
  {
    assert [c][1..] == "";
  }

  lemma TailOfPadded(s: string, c: char)
    requires s != ""
    ensures (s + [c])[1..] == s[1..] + [c] && (s + [c])[0] == s[0]
  {
  }

  /** White space after the text does not change what `trim` returns. */
  lemma {:induction false} TrimPad(s: string, c: char)
    requires IsSpace(c)
    ensures Trim(s + [c]) == Trim(s)
    decreases |s|
  {
    if s == "" {
      OneSpace(c);
      assert s + [c] == [c];
    } else if IsSpace(s[0]) {
      TailOfPadded(s, c);
      TrimPad(s[1..], c);
    } else {
      TrimEndPad(s, c);
    }
  }

  predicate Spaces(s: string) { forall i :: 0 <= i < |s| ==> IsSpace(s[i]) }

  lemma {:induction false} TrimBefore(a: string, s: string)
    requires Spaces(a)
    ensures Trim(a + s) == Trim(s)
  {
    if a == "" {
      assert a + s == s;
    } else {
      assert (a + s)[1..] == a[1..] + s;
      TrimBefore(a[1..], s);
    }
  }

  lemma {:induction false} TrimBehind(s: string, b: string)
    requires Spaces(b)
    ensures Trim(s + b) == Trim(s)
  {
    if b == "" {
      assert s + b == s;
    } else {
      var init, c := b[..|b| - 1], b[|b| - 1];
      TrimBehind(s, init);
      TrimPad(s + init, c);
      assert s + b == s + init + [c];
    }
  }

  /** `trim` takes exactly the white space off both ends. */
  lemma TrimBetween(a: string, s: string, b: string)
    requires Spaces(a) && Spaces(b) && IsTrimmed(s)
    ensures Trim(a + s + b) == s
  {
    TrimBehind(a + s, b);
    TrimBefore(a, s);
    TrimOfTrimmed(s);
  }

  /** `trim` keeps a contiguous part of the text. */
  lemma TrimIsSlice(s: string) returns (lo: nat, hi: nat)
    ensures lo <= hi <= |s| && Trim(s) == s[lo..hi]
  {
    var t := TrimStart(s);
    TrimStartIsTail(s);
    lo := |s| - |t|;
    hi := lo + |TrimEnd(t)|;
  }

  lemma TrimKeepsOut(s: string, c: char)
    ensures c in Trim(s) ==> c in s
  {
    var lo, hi := TrimIsSlice(s);
  }

  lemma TrimCount(s: string, c: char)
    ensures multiset(Trim(s))[c] <= multiset(s)[c]
  {
    var lo, hi := TrimIsSlice(s);
    SliceCount(s, lo, hi, c);
  }

  lemma SliceCount(s: string, lo: nat, hi: nat, c: char)
    requires lo <= hi <= |s|
    ensures multiset(s[lo..hi])[c] <= multiset(s)[c]
  {
    assert s == s[..lo] + (s[lo..hi] + s[hi..]);
  }

  /** Position of the first `c`, or -1. */
  function IndexOf(s: string, c: char): (i: int)
    ensures -1 <= i < |s|
    ensures i < 0 <==> c !in s
    ensures 0 <= i ==> s[i] == c && c !in s[..i]
  {
    if s == "" then -1
    else if s[0] == c then 0
    else
      var i := IndexOf(s[1..], c);
      if i < 0 then -1 else
      assert s[..i + 1] == [s[0]] + s[1..][..i];
      i + 1
  }

  lemma IndexOfIs(s: string, c: char, i: nat)
    requires i < |s| && s[i] == c && c !in s[..i]
    ensures IndexOf(s, c) == i
  {
    var j := IndexOf(s, c);
    assert forall k :: 0 <= k < i ==> s[k] == s[..i][k];
    assert forall k :: 0 <= k < j ==> s[k] == s[..j][k];
  }

  /** Drops one carriage return at the end. */
  function ChompCr(s: string): (t: string)
    ensures t <= s
  {
    if s != "" && s[|s| - 1] == '\r' then s[..|s| - 1] else s
  }

  lemma TrimChomped(s: string)
    ensures Trim(ChompCr(s)) == Trim(s)
  {
    if EndsWithCr(s) {
      assert s == ChompCr(s) + ['\r'];
      TrimPad(ChompCr(s), '\r');
    }
  }

  predicate EndsWithCr(s: string) { s != "" && s[|s| - 1] == '\r' }

  /** `split` at the pattern "optional carriage return, newline". */
  function SplitLines(s: string): (lines: seq<string>)
    ensures |lines| >= 1
    ensures forall line :: line in lines ==> '\n' !in line
    decreases |s|
  {
    var i := IndexOf(s, '\n');
    if i < 0 then [s] else
    var first := ChompCr(s[..i]);
    assert '\n' !in first by {
      assert forall k :: 0 <= k < |first| ==> first[k] == s[..i][k];
    }
    [first] + SplitLines(s[i + 1..])
  }

  /** `join` with a newline. */
  function Join(lines: seq<string>): string {
    if lines == [] then ""
    else if |lines| == 1 then lines[0]
    else lines[0] + "\n" + Join(lines[1..])
  }

  function ChompAllButLast(lines: seq<string>): (r: seq<string>)
    ensures |r| == |lines|
  {
    if |lines| <= 1 then lines else [ChompCr(lines[0])] + ChompAllButLast(lines[1..])
  }

  /** No line but the last ends in a carriage return. */
  predicate NoInnerCr(lines: seq<string>) {
    |lines| <= 1 || (!EndsWithCr(lines[0]) && NoInnerCr(lines[1..]))
  }

  /** Such lines are the ones that joining and splitting gives back unchanged. */
  lemma {:induction false} UnchompedIff(lines: seq<string>)
    ensures NoInnerCr(lines) <==> ChompAllButLast(lines) == lines
  {
    if |lines| <= 1 {
    } else {
      UnchompedIff(lines[1..]);
      var t := ChompAllButLast(lines);
      assert t[0] == ChompCr(lines[0]) && t[1..] == ChompAllButLast(lines[1..]);
      assert lines == [lines[0]] + lines[1..];
    }
  }

  predicate NoneEndsWithCr(lines: seq<string>) {
    lines == [] || (!EndsWithCr(lines[0]) && NoneEndsWithCr(lines[1..]))
  }

  /** In a longer list a line stops being the last. */
  lemma {:induction false} NoInnerCrConcat(a: seq<string>, b: seq<string>)
    requires b != []
    ensures NoInnerCr(a + b) <==> NoneEndsWithCr(a) && NoInnerCr(b)
  {
    if a == [] {
      assert a + b == b;
    } else {
      assert (a + b)[1..] == a[1..] + b;
      NoInnerCrConcat(a[1..], b);
    }
  }

  lemma {:induction false} NoneMeans(lines: seq<string>)
    ensures NoneEndsWithCr(lines) <==> forall i :: 0 <= i < |lines| ==> !EndsWithCr(lines[i])
  {
    if lines == [] {
    } else {
      NoneMeans(lines[1..]);
      assert lines == [lines[0]] + lines[1..];
    }
  }

  lemma NoInnerCrMeans(lines: seq<string>)
    ensures NoInnerCr(lines) <==> forall i :: 0 <= i < |lines| - 1 ==> !EndsWithCr(lines[i])
  {
    if lines == [] {
    } else {
      var n := |lines| - 1;
      assert lines == lines[..n] + [lines[n]];
      NoInnerCrConcat(lines[..n], [lines[n]]);
      NoneMeans(lines[..n]);
      assert forall i :: 0 <= i < n ==> lines[..n][i] == lines[i];
    }
  }

  /** Splitting brings in no character. */
  lemma {:induction false} SplitLinesKeepsOut(s: string, c: char, k: nat)
    requires c !in s && k < |SplitLines(s)|
    ensures c !in SplitLines(s)[k]
    decreases |s|
  {
    var i := IndexOf(s, '\n');
    if i < 0 {
    } else {
      SliceKeepsOut(s, c, i);
      if k > 0 { SplitLinesKeepsOut(s[i + 1..], c, k - 1); }
    }
  }

  lemma SliceKeepsOut(s: string, c: char, i: nat)
    requires c !in s && i < |s|
    ensures c !in s[i + 1..] && c !in ChompCr(s[..i])
  {
    assert forall k :: 0 <= k < |ChompCr(s[..i])| ==> ChompCr(s[..i])[k] == s[k];
  }

  lemma {:induction false} SplitPrefix(a: string, b: string)
    requires '\n' !in a
    ensures SplitLines(a + "\n" + b) == [ChompCr(a)] + SplitLines(b)
  {
    var s := a + "\n" + b;
    assert s[..|a|] == a && s[|a|] == '\n' && s[|a| + 1..] == b;
    IndexOfIs(s, '\n', |a|);
  }

  /** Splitting joined lines gives them back, each short of one trailing carriage return. */
  lemma {:induction false} SplitOfJoin(lines: seq<string>)
    requires |lines| >= 1
    requires forall line :: line in lines ==> '\n' !in line
    ensures SplitLines(Join(lines)) == ChompAllButLast(lines)
  {
    if |lines| > 1 {
      SplitPrefix(lines[0], Join(lines[1..]));
      SplitOfJoin(lines[1..]);
    } else {
      assert lines == [lines[0]];
    }
  }

  /** `split` at every newline. */
  function Split(s: string): (lines: seq<string>)
    ensures |lines| >= 1
    decreases |s|
  {
    var i := IndexOf(s, '\n');
    if i < 0 then [s] else [s[..i]] + Split(s[i + 1..])
  }

  lemma SplitHead(a: string, b: string)
    requires '\n' !in a
    ensures Split(a + "\n" + b) == [a] + Split(b)
  {
    var s := a + "\n" + b;
    assert s[..|a|] == a && s[|a|] == '\n' && s[|a| + 1..] == b;
    IndexOfIs(s, '\n', |a|);
  }

  lemma {:induction false} SplitHasNoNewline(s: string)
    ensures forall line :: line in Split(s) ==> '\n' !in line
    decreases |s|
  {
    var i := IndexOf(s, '\n');
    if i < 0 {
    } else {
      SplitHasNoNewline(s[i + 1..]);
    }
  }

  lemma CutAtNewline(a: string, b: string, i: nat)
    requires i < |a| && a[i] == '\n'
    ensures a + "\n" + b == a[..i] + "\n" + (a[i + 1..] + "\n" + b)
  {
    assert a == a[..i] + "\n" + a[i + 1..];
  }

  /** A newline between two texts is a boundary between their lines. */
  lemma {:induction false} SplitConcat(a: string, b: string)
    ensures Split(a + "\n" + b) == Split(a) + Split(b)
    decreases |a|
  {
    var i := IndexOf(a, '\n');
    if i < 0 {
      SplitHead(a, b);
    } else {
      var first, rest := a[..i], a[i + 1..];
      CutAtNewline(a, b, i);
      SplitHead(first, rest + "\n" + b);
      SplitConcat(rest, b);
      assert [first] + (Split(rest) + Split(b)) == [first] + Split(rest) + Split(b);
    }
  }

  /** Lines without newlines survive joining and splitting. */
  lemma {:induction false} SplitJoined(lines: seq<string>)
    requires |lines| >= 1 && forall line :: line in lines ==> '\n' !in line
    ensures Split(Join(lines)) == lines
  {
    if |lines| > 1 {
      SplitHead(lines[0], Join(lines[1..]));
      SplitJoined(lines[1..]);
    } else {
      assert lines == [lines[0]];
    }
  }

  lemma SliceOfConcat(a: string, b: string, k: nat)
    requires k <= |b|
    ensures (a + b)[..|a| + k] == a + b[..k] && (a + b)[|a| + k..] == b[k..]
  {
  }
}
