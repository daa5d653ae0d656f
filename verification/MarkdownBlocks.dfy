/**
 The block parser of the chat renderer: fenced code, bullet lists and paragraphs. The regular expressions
 it tests a line with are written out as line classes.
 */
module MarkdownBlocks {
  import opened Text

  datatype Block = CodeBlock(code: string, language: string) | ListBlock(items: seq<string>) | Paragraph(text: string)

  // ---------------------------------------------------------------- the classes of a line

  datatype Class = Fence | Bullet | Blank | Plain

  /** A letter, a digit or an underscore. */
  predicate IsWord(c: char) {
    'a' <= c <= 'z' || 'A' <= c <= 'Z' || '0' <= c <= '9' || c == '_'
  }

  function WordLength(s: string): (n: nat)
    ensures n <= |s|
  {
    if s != "" && IsWord(s[0]) then 1 + WordLength(s[1..]) else 0
  }

  /** What `.` does not match. */
  predicate IsTerminator(c: char) { c == '\n' || c == '\r' || c == '\U{2028}' || c == '\U{2029}' }

  predicate OnOneLine(s: string) { forall k :: 0 <= k < |s| ==> !IsTerminator(s[k]) }

  /** Three backquotes, an optional word, white space to the end. */
  predicate IsFence(line: string) {
    "```" <= line && TrimStart(line[3 + WordLength(line[3..])..]) == ""
  }

  function Language(line: string): string
    requires IsFence(line)
  {
    if WordLength(line[3..]) == 0 then "text" else line[3..3 + WordLength(line[3..])]
  }

  /** Three backquotes, white space to the end. */
  predicate IsClose(line: string) {
    "```" <= line && TrimStart(line[3..]) == ""
  }

  /** Optional white space, a dash or star, white space, then anything without a line terminator. */
  predicate IsBullet(line: string) {
    var t := TrimStart(line);
    |t| >= 2 && (t[0] == '-' || t[0] == '*') && IsSpace(t[1]) && OnOneLine(TrimStart(t[1..]))
  }

  function ItemOf(line: string): string
    requires IsBullet(line)
  {
    TrimStart(TrimStart(line)[1..])
  }

  /** The tests of the loop, in their order. */
  function Classify(line: string): Class {
    if IsFence(line) then Fence
    else if IsBullet(line) then Bullet
    else if Trim(line) == "" then Blank
    else Plain
  }

  predicate AllOf(lines: seq<string>, c: Class) {
    lines == [] || (Classify(lines[0]) == c && AllOf(lines[1..], c))
  }

  predicate NoClose(lines: seq<string>) {
    lines == [] || (!IsClose(lines[0]) && NoClose(lines[1..]))
  }

  function Items(lines: seq<string>): seq<string>
    requires AllOf(lines, Bullet)
  {
    if lines == [] then [] else [ItemOf(lines[0])] + Items(lines[1..])
  }

  // ---------------------------------------------------------------- the specification

  /** A stretch of consecutive lines that belong together. */
  datatype Segment =
    | Code(open: string, body: seq<string>, close: Option<string>)
    | Bullets(lines: seq<string>)
    | Plains(lines: seq<string>)
    | Empty(line: string)

  /** How many lines of one class the text starts with. */
  function RunLength(lines: seq<string>, c: Class): (n: nat)
    ensures n <= |lines|
  {
    if lines != [] && Classify(lines[0]) == c then 1 + RunLength(lines[1..], c) else 0
  }

  /** How many lines come before the first closing fence. */
  function BodyLength(lines: seq<string>): (n: nat)
    ensures n <= |lines|
  {
    if lines == [] || IsClose(lines[0]) then 0 else 1 + BodyLength(lines[1..])
  }

  /** The text cut into segments: code up to its closing fence or the end, lists and paragraphs as long as possible. */
  function Segments(lines: seq<string>): seq<Segment>
    decreases |lines|
  {
    if lines == [] then []
    else
      match Classify(lines[0])
      case Fence =>
        var rest := lines[1..];
        var n := BodyLength(rest);
        if n < |rest| then [Code(lines[0], rest[..n], Some(rest[n]))] + Segments(rest[n + 1..])
        else [Code(lines[0], rest, None)]
      case Bullet =>
        var n := RunLength(lines, Bullet);
        [Bullets(lines[..n])] + Segments(lines[n..])
      case Plain =>
        var n := RunLength(lines, Plain);
        [Plains(lines[..n])] + Segments(lines[n..])
      case Blank => [Empty(lines[0])] + Segments(lines[1..])
  }

  predicate IsSegment(seg: Segment) {
    match seg
    case Code(open, body, close) => Classify(open) == Fence && NoClose(body) && (close.Some? ==> IsClose(close.value))
    case Bullets(lines) => lines != [] && AllOf(lines, Bullet)
    case Plains(lines) => lines != [] && AllOf(lines, Plain)
    case Empty(line) => Classify(line) == Blank
  }

  /** The block a segment renders as; an empty line renders as nothing. */
  function BlockOf(seg: Segment): seq<Block>
    requires IsSegment(seg)
  {
    match seg
    case Code(open, body, _) => [CodeBlock(Join(body), Language(open))]
    case Bullets(lines) => [ListBlock(Items(lines))]
    case Plains(lines) => [Paragraph(Join(lines))]
    case Empty(_) => []
  }

  predicate AreSegments(segs: seq<Segment>) {
    segs == [] || (IsSegment(segs[0]) && AreSegments(segs[1..]))
  }

  function BlocksOf(segs: seq<Segment>): seq<Block>
    requires AreSegments(segs)
  {
    if segs == [] then [] else BlockOf(segs[0]) + BlocksOf(segs[1..])
  }

  function Parsed(lines: seq<string>): seq<Block> {
    SegmentsAreSegments(lines);
    BlocksOf(Segments(lines))
  }

  /** What the parser returns for a text. */
  function ParsedText(markdown: string): seq<Block> {
    Parsed(SplitLines(markdown))
  }

  lemma TakeTail<T>(s: seq<T>, n: nat)
    requires n < |s|
    ensures s[..n + 1][1..] == s[1..][..n]
  {
  }

  lemma {:induction false} RunIsAllOf(lines: seq<string>, c: Class)
    ensures AllOf(lines[..RunLength(lines, c)], c)
    ensures RunLength(lines, c) < |lines| ==> Classify(lines[RunLength(lines, c)]) != c
  {
    if lines == [] || Classify(lines[0]) != c {
    } else {
      RunIsAllOf(lines[1..], c);
      TakeTail(lines, RunLength(lines[1..], c));
    }
  }

  lemma {:induction false} BodyHasNoClose(lines: seq<string>)
    ensures NoClose(lines[..BodyLength(lines)])
    ensures BodyLength(lines) < |lines| ==> IsClose(lines[BodyLength(lines)])
  {
    if lines == [] || IsClose(lines[0]) {
    } else {
      BodyHasNoClose(lines[1..]);
      TakeTail(lines, BodyLength(lines[1..]));
    }
  }

  lemma ConsSegments(seg: Segment, rest: seq<Segment>)
    requires IsSegment(seg) && AreSegments(rest)
    ensures AreSegments([seg] + rest) && BlocksOf([seg] + rest) == BlockOf(seg) + BlocksOf(rest)
  {
    assert ([seg] + rest)[1..] == rest;
  }

  lemma {:induction false} SegmentsAreSegments(lines: seq<string>)
    ensures AreSegments(Segments(lines))
    decreases |lines|
  {
    if lines == [] {
    } else {
      match Classify(lines[0])
      case Fence => FenceSegments(lines);
      case Bullet =>
        var n := RunLength(lines, Bullet);
        RunIsAllOf(lines, Bullet);
        SegmentsAreSegments(lines[n..]);
        ConsSegments(Bullets(lines[..n]), Segments(lines[n..]));
      case Plain =>
        var n := RunLength(lines, Plain);
        RunIsAllOf(lines, Plain);
        SegmentsAreSegments(lines[n..]);
        ConsSegments(Plains(lines[..n]), Segments(lines[n..]));
      case Blank =>
        SegmentsAreSegments(lines[1..]);
        ConsSegments(Empty(lines[0]), Segments(lines[1..]));
    }
  }

  lemma OneSegment(seg: Segment)
    requires IsSegment(seg)
    ensures AreSegments([seg])
  {
  }

  lemma FenceSegments(lines: seq<string>)
    requires lines != [] && Classify(lines[0]) == Fence
    ensures AreSegments(Segments(lines))
    decreases |lines|, 0
  {
    var rest := lines[1..];
    var n := BodyLength(rest);
    BodyHasNoClose(rest);
    if n < |rest| {
      SegmentsAreSegments(rest[n + 1..]);
      ConsSegments(Code(lines[0], rest[..n], Some(rest[n])), Segments(rest[n + 1..]));
    } else {
      assert rest[..n] == rest;
      OneSegment(Code(lines[0], rest, None));
    }
  }

  // ---------------------------------------------------------------- segments are the one decomposition

  function LinesOf(seg: Segment): seq<string> {
    match seg
    case Code(open, body, close) => [open] + body + if close.Some? then [close.value] else []
    case Bullets(lines) => lines
    case Plains(lines) => lines
    case Empty(line) => [line]
  }

  function Flatten(segs: seq<Segment>): seq<string> {
    if segs == [] then [] else LinesOf(segs[0]) + Flatten(segs[1..])
  }

  /** Neighbours that could not be told apart: two lists, two paragraphs, or anything after unclosed code. */
  predicate MayFollow(a: Segment, b: Segment) {
    !(a.Bullets? && b.Bullets?) && !(a.Plains? && b.Plains?) && !(a.Code? && a.close.None?)
  }

  predicate WellJoined(segs: seq<Segment>) {
    |segs| <= 1 || (MayFollow(segs[0], segs[1]) && WellJoined(segs[1..]))
  }

  /** Every line is in just one segment, in place. */
  lemma {:induction false} NoLineIsLost(lines: seq<string>)
    ensures Flatten(Segments(lines)) == lines
    decreases |lines|
  {
    if lines == [] {
    } else {
      match Classify(lines[0])
      case Fence => NoFenceLineIsLost(lines);
      case Bullet => NoRunLineIsLost(lines, Bullet);
      case Plain => NoRunLineIsLost(lines, Plain);
      case Blank =>
        NoLineIsLost(lines[1..]);
        assert lines == [lines[0]] + lines[1..];
    }
  }

  lemma FlattenCut(lines: seq<string>, n: nat, seg: Segment, segs: seq<Segment>)
    requires n <= |lines| && LinesOf(seg) == lines[..n] && Flatten(segs) == lines[n..]
    ensures Flatten([seg] + segs) == lines
  {
    assert lines == lines[..n] + lines[n..];
  }

  lemma NoRunLineIsLost(lines: seq<string>, c: Class)
    requires lines != [] && Classify(lines[0]) == c && (c == Bullet || c == Plain)
    ensures Flatten(Segments(lines)) == lines
    decreases |lines|, 0
  {
    var n := RunLength(lines, c);
    NoLineIsLost(lines[n..]);
    if c == Bullet {
      FlattenCut(lines, n, Bullets(lines[..n]), Segments(lines[n..]));
    } else {
      FlattenCut(lines, n, Plains(lines[..n]), Segments(lines[n..]));
    }
  }

  lemma CodeLines(lines: seq<string>, n: nat)
    requires lines != [] && n < |lines| - 1
    ensures LinesOf(Code(lines[0], lines[1..][..n], Some(lines[1..][n]))) == lines[..n + 2] && lines[1..][n + 1..] == lines[n + 2..]
  {
  }

  lemma NoFenceLineIsLost(lines: seq<string>)
    requires lines != [] && Classify(lines[0]) == Fence
    ensures Flatten(Segments(lines)) == lines
    decreases |lines|, 0
  {
    var rest := lines[1..];
    var n := BodyLength(rest);
    if n < |rest| {
      CodeLines(lines, n);
      NoLineIsLost(rest[n + 1..]);
      FlattenCut(lines, n + 2, Code(lines[0], rest[..n], Some(rest[n])), Segments(rest[n + 1..]));
    } else {
      FlattenCut(lines, |lines|, Code(lines[0], rest, None), []);
    }
  }

  /** The class of the first line of a segment. */
  function FirstClass(seg: Segment): Class {
    match seg case Code(_, _, _) => Fence case Bullets(_) => Bullet case Plains(_) => Plain case Empty(_) => Blank
  }

  lemma FirstLine(seg: Segment)
    requires IsSegment(seg)
    ensures LinesOf(seg) != [] && Classify(LinesOf(seg)[0]) == FirstClass(seg)
  {
  }

  lemma {:induction false} RunLengthIs(a: seq<string>, rest: seq<string>, c: Class)
    requires AllOf(a, c) && (rest == [] || Classify(rest[0]) != c)
    ensures RunLength(a + rest, c) == |a|
  {
    if a == [] {
      assert a + rest == rest;
    } else {
      assert (a + rest)[1..] == a[1..] + rest;
      RunLengthIs(a[1..], rest, c);
    }
  }

  lemma {:induction false} BodyLengthIs(a: seq<string>, rest: seq<string>)
    requires NoClose(a) && (rest == [] || IsClose(rest[0]))
    ensures BodyLength(a + rest) == |a|
  {
    if a == [] {
      assert a + rest == rest;
    } else {
      assert (a + rest)[1..] == a[1..] + rest;
      BodyLengthIs(a[1..], rest);
    }
  }

  /** Cutting off a segment that the rest may follow. */
  lemma SegmentsCons(seg: Segment, rest: seq<string>)
    requires IsSegment(seg)
    requires rest != [] ==> Classify(rest[0]) != FirstClass(seg) || seg.Code? || seg.Empty?
    requires rest != [] ==> !(seg.Code? && seg.close.None?)
    ensures Segments(LinesOf(seg) + rest) == [seg] + Segments(rest)
  {
    var all := LinesOf(seg) + rest;
    match seg
    case Code(open, body, close) => CodeCons(open, body, close, rest);
    case Bullets(lines) =>
      RunLengthIs(lines, rest, Bullet);
      assert all[..|lines|] == lines && all[|lines|..] == rest;
    case Plains(lines) =>
      RunLengthIs(lines, rest, Plain);
      assert all[..|lines|] == lines && all[|lines|..] == rest;
    case Empty(line) => assert all[1..] == rest;
  }

  lemma CodeCons(open: string, body: seq<string>, close: Option<string>, rest: seq<string>)
    requires IsSegment(Code(open, body, close)) && (rest != [] ==> close.Some?)
    ensures Segments(LinesOf(Code(open, body, close)) + rest) == [Code(open, body, close)] + Segments(rest)
  {
    var all := LinesOf(Code(open, body, close)) + rest;
    var tail := if close.Some? then [close.value] + rest else [];
    CodeLinesCut(open, body, close, rest, tail);
    assert all[1..] == body + tail;
    BodyLengthIs(body, tail);
    if close.Some? {
      TailCut(body, close.value, rest);
    } else {
      assert body + tail == body;
    }
  }

  lemma CodeLinesCut(open: string, body: seq<string>, close: Option<string>, rest: seq<string>, tail: seq<string>)
    requires rest != [] ==> close.Some?
    requires tail == if close.Some? then [close.value] + rest else []
    ensures LinesOf(Code(open, body, close)) + rest == [open] + (body + tail)
  {
  }

  lemma TailCut(body: seq<string>, close: string, rest: seq<string>)
    ensures var t := body + ([close] + rest);
      t[..|body|] == body && t[|body|] == close && t[|body| + 1..] == rest
  {
  }

  /** The decomposition the parser finds is the only one whose neighbours may follow each other. */
  lemma {:induction false} SegmentsAreUnique(segs: seq<Segment>)
    requires AreSegments(segs) && WellJoined(segs)
    ensures Segments(Flatten(segs)) == segs
  {
    if segs == [] {
    } else {
      SegmentsAreUnique(segs[1..]);
      if |segs| > 1 { FirstLine(segs[1]); }
      SegmentsCons(segs[0], Flatten(segs[1..]));
    }
  }

  // ---------------------------------------------------------------- the printer and the round trip

  /** A block written out again. */
  function PrintBlock(b: Block): seq<string> {
    match b
    case CodeBlock(code, language) => ["```" + language] + Split(code) + ["```"]
    case ListBlock(items) => PrintItems(items)
    case Paragraph(text) => Split(text)
  }

  function PrintItems(items: seq<string>): seq<string> {
    if items == [] then [] else ["- " + items[0]] + PrintItems(items[1..])
  }

  /** The blocks with an empty line between neighbours. */
  function PrintLines(blocks: seq<Block>): seq<string> {
    if blocks == [] then []
    else if |blocks| == 1 then PrintBlock(blocks[0])
    else PrintBlock(blocks[0]) + [""] + PrintLines(blocks[1..])
  }

  function Print(blocks: seq<Block>): string {
    Join(PrintLines(blocks))
  }

  predicate IsItem(item: string) { OnOneLine(item) && (item != "" ==> !IsSpace(item[0])) }

  predicate AreItems(items: seq<string>) { items == [] || (IsItem(items[0]) && AreItems(items[1..])) }

  /** What every block the parser makes satisfies. */
  predicate IsParsedBlock(b: Block) {
    match b
    case CodeBlock(code, language) => language != "" && WordLength(language) == |language| && NoClose(Split(code))
    case ListBlock(items) => items != [] && AreItems(items)
    case Paragraph(text) => AllOf(Split(text), Plain)
  }

  predicate AreParsedBlocks(blocks: seq<Block>) {
    blocks == [] || (IsParsedBlock(blocks[0]) && AreParsedBlocks(blocks[1..]))
  }

  lemma {:induction false} WordPrefix(s: string)
    ensures WordLength(s[..WordLength(s)]) == WordLength(s)
  {
    if s == "" || !IsWord(s[0]) {
    } else {
      WordPrefix(s[1..]);
      TakeTail(s, WordLength(s[1..]));
    }
  }

  lemma LanguageIsWord(line: string)
    requires IsFence(line)
    ensures Language(line) != "" && WordLength(Language(line)) == |Language(line)|
  {
    var n := WordLength(line[3..]);
    if n == 0 {
      TextIsWord();
    } else {
      WordPrefix(line[3..]);
      assert line[3..3 + n] == line[3..][..n];
    }
  }

  lemma TextIsWord()
    ensures WordLength("text") == 4
  {
    assert "text"[1..] == "ext" && "ext"[1..] == "xt" && "xt"[1..] == "t" && "t"[1..] == "";
    assert WordLength("t") == 1 && WordLength("xt") == 2 && WordLength("ext") == 3;
  }

  lemma {:induction false} ItemsAreItems(lines: seq<string>)
    requires AllOf(lines, Bullet)
    ensures AreItems(Items(lines)) && |Items(lines)| == |lines|
  {
    if lines == [] {
    } else {
      ItemsAreItems(lines[1..]);
      assert IsItem(ItemOf(lines[0]));
      assert Items(lines)[1..] == Items(lines[1..]);
    }
  }

  predicate OnlyLines(lines: seq<string>) { forall k :: 0 <= k < |lines| ==> '\n' !in lines[k] }

  lemma SplitOfJoined(lines: seq<string>)
    requires OnlyLines(lines)
    ensures Split(Join(lines)) == if lines == [] then [""] else lines
  {
    if lines != [] {
      forall line | line in lines ensures '\n' !in line {}
      SplitJoined(lines);
    }
  }

  lemma EmptyLineIsBlank()
    ensures Classify("") == Blank && !IsClose("")
  {
  }

  lemma SegmentBlock(seg: Segment)
    requires IsSegment(seg) && OnlyLines(LinesOf(seg)) && !seg.Empty?
    ensures IsParsedBlock(BlockOf(seg)[0])
  {
    match seg
    case Code(open, body, close) =>
      LanguageIsWord(open);
      BodyLines(open, body, close);
      SplitOfJoined(body);
      EmptyLineIsBlank();
    case Bullets(lines) => ItemsAreItems(lines);
    case Plains(lines) => SplitOfJoined(lines);
  }

  lemma BodyLines(open: string, body: seq<string>, close: Option<string>)
    requires OnlyLines(LinesOf(Code(open, body, close)))
    ensures OnlyLines(body)
  {
    forall k | 0 <= k < |body| ensures '\n' !in body[k] {
      assert LinesOf(Code(open, body, close))[k + 1] == body[k];
    }
  }

  lemma OnlyLinesSplit(a: seq<string>, b: seq<string>)
    requires OnlyLines(a + b)
    ensures OnlyLines(a) && OnlyLines(b)
  {
    forall k | 0 <= k < |a| ensures '\n' !in a[k] { assert (a + b)[k] == a[k]; }
    forall k | 0 <= k < |b| ensures '\n' !in b[k] { assert (a + b)[|a| + k] == b[k]; }
  }

  lemma {:induction false} SegmentBlocks(segs: seq<Segment>)
    requires AreSegments(segs) && OnlyLines(Flatten(segs))
    ensures AreParsedBlocks(BlocksOf(segs))
  {
    if segs == [] {
    } else {
      OnlyLinesSplit(LinesOf(segs[0]), Flatten(segs[1..]));
      SegmentBlocks(segs[1..]);
      var rest := BlocksOf(segs[1..]);
      if segs[0].Empty? {
        assert BlocksOf(segs) == rest;
      } else {
        SegmentBlock(segs[0]);
        assert BlocksOf(segs)[1..] == rest;
      }
    }
  }

  /** Every block that comes out of a text can be written out again. */
  lemma ParsedBlocks(lines: seq<string>)
    requires OnlyLines(lines)
    ensures AreParsedBlocks(Parsed(lines))
  {
    SegmentsAreSegments(lines);
    NoLineIsLost(lines);
    SegmentBlocks(Segments(lines));
  }

  // ---- what the printed lines are read as

  lemma PrintedFence(language: string)
    requires language != "" && WordLength(language) == |language|
    ensures Classify("```" + language) == Fence && Language("```" + language) == language
  {
    TailAfterTicks("```", language);
    FenceOf("```" + language, language);
  }

  lemma TailAfterTicks(ticks: string, language: string)
    ensures (ticks + language)[|ticks|..] == language && ticks <= ticks + language
  {
  }

  lemma FenceOf(line: string, language: string)
    requires "```" <= line && line[3..] == language && language != "" && WordLength(language) == |language|
    ensures Classify(line) == Fence && Language(line) == language
  {
    assert line[3 + |language|..] == "";
    assert line[3..3 + |language|] == language;
  }

  lemma PrintedItem(item: string)
    requires IsItem(item)
    ensures Classify("- " + item) == Bullet && ItemOf("- " + item) == item
  {
    var line := "- " + item;
    assert TrimStart(line) == line;
    assert line[1..] == " " + item;
    assert (" " + item)[1..] == item;
    assert TrimStart(" " + item) == TrimStart(item) == item;
    assert line[0] != '`';
  }

  lemma {:induction false} PrintedItems(items: seq<string>)
    requires AreItems(items)
    ensures AllOf(PrintItems(items), Bullet) && Items(PrintItems(items)) == items && |PrintItems(items)| == |items|
  {
    if items == [] {
    } else {
      PrintedItem(items[0]);
      PrintedItems(items[1..]);
      assert PrintItems(items)[1..] == PrintItems(items[1..]);
    }
  }

  lemma CutText(s: string, i: nat)
    requires i < |s| && s[i] == '\n'
    ensures s[..i] + "\n" + s[i + 1..] == s
  {
  }

  lemma JoinSplitHead(first: string, rest: string)
    requires '\n' !in first && Join(Split(rest)) == rest
    ensures Join(Split(first + "\n" + rest)) == first + "\n" + rest
  {
    SplitHead(first, rest);
  }

  lemma {:induction false} JoinSplit(s: string)
    ensures Join(Split(s)) == s
    decreases |s|
  {
    var i := IndexOf(s, '\n');
    if i >= 0 {
      CutText(s, i);
      JoinSplit(s[i + 1..]);
      JoinSplitHead(s[..i], s[i + 1..]);
    } else {
      assert Split(s) == [s];
    }
  }

  /** The segment a printed block is read as. */
  function PrintedSegment(b: Block): Segment {
    match b
    case CodeBlock(code, language) => Code("```" + language, Split(code), Some("```"))
    case ListBlock(items) => Bullets(PrintItems(items))
    case Paragraph(text) => Plains(Split(text))
  }

  lemma PrintedBlock(b: Block)
    requires IsParsedBlock(b)
    ensures IsSegment(PrintedSegment(b)) && LinesOf(PrintedSegment(b)) == PrintBlock(b) && BlockOf(PrintedSegment(b)) == [b]
  {
    match b
    case CodeBlock(code, language) => PrintedFence(language); JoinSplit(code);
    case ListBlock(items) => PrintedItems(items);
    case Paragraph(text) => JoinSplit(text);
  }

  lemma ParsedCons(seg: Segment, rest: seq<string>)
    requires IsSegment(seg)
    requires rest != [] ==> !(seg.Code? && seg.close.None?) && (Classify(rest[0]) == Blank || seg.Code? || seg.Empty?)
    ensures Parsed(LinesOf(seg) + rest) == BlockOf(seg) + Parsed(rest)
  {
    SegmentsCons(seg, rest);
    SegmentsAreSegments(rest);
    ConsSegments(seg, Segments(rest));
  }

  lemma ParsedBlank(rest: seq<string>)
    ensures Parsed([""] + rest) == Parsed(rest)
  {
    EmptyLineIsBlank();
    ParsedCons(Empty(""), rest);
  }

  lemma LinesAssoc(a: seq<string>, b: seq<string>, c: seq<string>)
    ensures a + b + c == a + (b + c)
  {
  }

  lemma ParsedNext(b: Block, rest: seq<string>)
    requires IsParsedBlock(b)
    ensures Parsed(PrintBlock(b) + [""] + rest) == [b] + Parsed(rest)
  {
    PrintedBlock(b);
    EmptyLineIsBlank();
    ParsedBlank(rest);
    ParsedCons(PrintedSegment(b), [""] + rest);
    LinesAssoc(PrintBlock(b), [""], rest);
  }

  lemma ParsedLast(b: Block)
    requires IsParsedBlock(b)
    ensures Parsed(PrintBlock(b)) == [b]
  {
    PrintedBlock(b);
    ParsedCons(PrintedSegment(b), []);
    assert PrintBlock(b) + [] == PrintBlock(b);
  }

  /** Reading printed blocks line by line gives the blocks back. */
  lemma {:induction false} PrintedLinesReadBack(blocks: seq<Block>)
    requires AreParsedBlocks(blocks)
    ensures Parsed(PrintLines(blocks)) == blocks
  {
    if blocks == [] {
    } else if |blocks| == 1 {
      ParsedLast(blocks[0]);
    } else {
      PrintedLinesReadBack(blocks[1..]);
      ParsedNext(blocks[0], PrintLines(blocks[1..]));
    }
  }

  // ---- carriage returns

  function CrCount(s: string): nat { multiset(s)['\r'] }

  function CrsIn(lines: seq<string>): nat {
    if lines == [] then 0 else CrCount(lines[0]) + CrsIn(lines[1..])
  }

  lemma ChompedCount(s: string)
    ensures CrCount(ChompCr(s)) + (if EndsWithCr(s) then 1 else 0) == CrCount(s)
  {
    if EndsWithCr(s) { assert s == ChompCr(s) + ['\r']; }
  }

  /** Chomping loses a carriage return exactly when some line but the last ends with one. */
  lemma {:induction false} ChompLoses(lines: seq<string>)
    ensures if NoInnerCr(lines) then ChompAllButLast(lines) == lines else CrsIn(ChompAllButLast(lines)) < CrsIn(lines)
    ensures CrsIn(ChompAllButLast(lines)) <= CrsIn(lines)
  {
    if |lines| <= 1 {
    } else {
      ChompLoses(lines[1..]);
      ChompedCount(lines[0]);
      var t := ChompAllButLast(lines);
      assert t[1..] == ChompAllButLast(lines[1..]);
    }
  }

  lemma {:induction false} CrsInConcat(a: seq<string>, b: seq<string>)
    ensures CrsIn(a + b) == CrsIn(a) + CrsIn(b)
  {
    if a == [] {
      assert a + b == b;
    } else {
      assert (a + b)[1..] == a[1..] + b;
      CrsInConcat(a[1..], b);
    }
  }

  lemma CrCountConcat(a: string, b: string)
    ensures CrCount(a + b) == CrCount(a) + CrCount(b)
  {
  }

  lemma {:induction false} CrsInJoin(lines: seq<string>)
    ensures CrCount(Join(lines)) == CrsIn(lines)
  {
    if lines == [] {
    } else if |lines| == 1 {
      assert lines[1..] == [];
    } else {
      CrsInJoin(lines[1..]);
      CrCountConcat(lines[0] + "\n", Join(lines[1..]));
      CrCountConcat(lines[0], "\n");
    }
  }

  function CrsOf(b: Block): nat {
    match b case CodeBlock(code, _) => CrCount(code) case ListBlock(_) => 0 case Paragraph(text) => CrCount(text)
  }

  function CrsOfAll(blocks: seq<Block>): nat {
    if blocks == [] then 0 else CrsOf(blocks[0]) + CrsOfAll(blocks[1..])
  }

  lemma SegmentCrs(seg: Segment)
    requires IsSegment(seg) && !seg.Empty?
    ensures CrsOf(BlockOf(seg)[0]) <= CrsIn(LinesOf(seg))
  {
    match seg
    case Code(open, body, close) =>
      CrsInJoin(body);
      CrsInConcat([open] + body, if close.Some? then [close.value] else []);
      CrsInConcat([open], body);
    case Bullets(lines) =>
    case Plains(lines) => CrsInJoin(lines);
  }

  lemma {:induction false} SegmentsCrs(segs: seq<Segment>)
    requires AreSegments(segs)
    ensures CrsOfAll(BlocksOf(segs)) <= CrsIn(Flatten(segs))
  {
    if segs == [] {
    } else {
      SegmentsCrs(segs[1..]);
      CrsInConcat(LinesOf(segs[0]), Flatten(segs[1..]));
      var rest := BlocksOf(segs[1..]);
      if segs[0].Empty? {
        assert BlocksOf(segs) == rest;
      } else {
        SegmentCrs(segs[0]);
        assert BlocksOf(segs)[1..] == rest;
      }
    }
  }

  /** Parsing makes no carriage returns. */
  lemma ParsedCrs(lines: seq<string>)
    ensures CrsOfAll(Parsed(lines)) <= CrsIn(lines)
  {
    SegmentsAreSegments(lines);
    NoLineIsLost(lines);
    SegmentsCrs(Segments(lines));
  }

  lemma NoCrOnOneLine(s: string)
    requires OnOneLine(s)
    ensures CrCount(s) == 0
  {
  }

  lemma {:induction false} NoCrInItems(items: seq<string>)
    requires AreItems(items)
    ensures CrsIn(PrintItems(items)) == 0
  {
    if items == [] {
    } else {
      NoCrInItems(items[1..]);
      CrCountConcat("- ", items[0]);
      NoCrOnOneLine("- ");
      NoCrOnOneLine(items[0]);
      assert PrintItems(items)[1..] == PrintItems(items[1..]);
    }
  }

  lemma PrintBlockCrs(b: Block)
    requires IsParsedBlock(b)
    ensures CrsIn(PrintBlock(b)) == CrsOf(b)
  {
    match b
    case CodeBlock(code, language) => PrintCodeCrs(code, language);
    case ListBlock(items) => NoCrInItems(items);
    case Paragraph(text) => JoinSplit(text); CrsInJoin(Split(text));
  }

  lemma CrsInOne(s: string)
    ensures CrsIn([s]) == CrCount(s)
  {
    assert [s][1..] == [];
  }

  lemma CrsInThree(a: string, b: seq<string>, c: string)
    ensures CrsIn([a] + b + [c]) == CrCount(a) + CrsIn(b) + CrCount(c)
  {
    CrsInOne(a);
    CrsInOne(c);
    CrsInConcat([a] + b, [c]);
    CrsInConcat([a], b);
  }

  lemma TicksCrs()
    ensures CrCount("```") == 0
  {
    NoCrOnOneLine("```");
  }

  lemma {:induction false} NoCrInWord(word: string)
    requires WordLength(word) == |word|
    ensures CrCount(word) == 0
  {
    if word == "" {
    } else {
      NoCrInWord(word[1..]);
      assert word == [word[0]] + word[1..];
    }
  }

  lemma NoCrInConcat(a: string, b: string)
    requires CrCount(a) == 0 && CrCount(b) == 0
    ensures CrCount(a + b) == 0
  {
    CrCountConcat(a, b);
  }

  lemma PrintedFenceCrs(language: string)
    requires WordLength(language) == |language|
    ensures CrCount("```" + language) == 0
  {
    TicksCrs();
    NoCrInWord(language);
    NoCrInConcat("```", language);
  }

  lemma PrintCodeCrs(code: string, language: string)
    requires WordLength(language) == |language|
    ensures CrsIn(PrintBlock(CodeBlock(code, language))) == CrCount(code)
  {
    JoinSplit(code);
    CrsInJoin(Split(code));
    PrintedFenceCrs(language);
    CrsInThree("```" + language, Split(code), "```");
  }

  lemma {:induction false} PrintCrs(blocks: seq<Block>)
    requires AreParsedBlocks(blocks)
    ensures CrsIn(PrintLines(blocks)) == CrsOfAll(blocks)
  {
    if blocks == [] {
    } else if |blocks| == 1 {
      PrintBlockCrs(blocks[0]);
    } else {
      PrintBlockCrs(blocks[0]);
      PrintCrs(blocks[1..]);
      CrsInConcat(PrintBlock(blocks[0]) + [""], PrintLines(blocks[1..]));
      CrsInConcat(PrintBlock(blocks[0]), [""]);
      CrsInOne("");
    }
  }

  lemma {:induction false} PrintedBlocksAreLines(blocks: seq<Block>)
    requires AreParsedBlocks(blocks)
    ensures OnlyLines(PrintLines(blocks))
  {
    if blocks == [] {
    } else {
      PrintedBlockIsLines(blocks[0]);
      if |blocks| > 1 { PrintedBlocksAreLines(blocks[1..]); }
    }
  }

  lemma PrintedBlockIsLines(b: Block)
    requires IsParsedBlock(b)
    ensures OnlyLines(PrintBlock(b))
  {
    match b
    case CodeBlock(code, language) => SplitIsLines(code); NoNewlineInWord(language);
    case ListBlock(items) => PrintedItemsAreLines(items);
    case Paragraph(text) => SplitIsLines(text);
  }

  lemma SplitIsLines(s: string)
    ensures OnlyLines(Split(s))
  {
    SplitHasNoNewline(s);
  }

  lemma {:induction false} NoNewlineInWord(word: string)
    requires WordLength(word) == |word|
    ensures '\n' !in word
  {
    if word == "" {
    } else {
      NoNewlineInWord(word[1..]);
      assert word == [word[0]] + word[1..];
    }
  }

  lemma {:induction false} PrintedItemsAreLines(items: seq<string>)
    requires AreItems(items)
    ensures OnlyLines(PrintItems(items))
  {
    if items == [] {
    } else {
      PrintedItemsAreLines(items[1..]);
      assert '\n' !in items[0];
      assert '\n' !in "- " + items[0];
    }
  }

  lemma SplitLinesOfPrint(blocks: seq<Block>)
    requires AreParsedBlocks(blocks) && blocks != []
    ensures SplitLines(Print(blocks)) == ChompAllButLast(PrintLines(blocks))
  {
    PrintedBlocksAreLines(blocks);
    forall line | line in PrintLines(blocks) ensures '\n' !in line {}
    SplitOfJoin(PrintLines(blocks));
  }

  lemma TextIsLines(markdown: string)
    ensures AreParsedBlocks(ParsedText(markdown))
  {
    forall k | 0 <= k < |SplitLines(markdown)| ensures '\n' !in SplitLines(markdown)[k] {}
    ParsedBlocks(SplitLines(markdown));
  }

  /** The round trip loses nothing exactly when no printed line but the last ends with a carriage return. */
  lemma RoundTripOfPrint(markdown: string)
    ensures ParsedText(Print(ParsedText(markdown))) == ParsedText(markdown) <==> NoInnerCr(PrintLines(ParsedText(markdown)))
  {
    var blocks := ParsedText(markdown);
    TextIsLines(markdown);
    if blocks == [] {
      NothingPrinted();
    } else {
      SplitLinesOfPrint(blocks);
      ChompLoses(PrintLines(blocks));
      if NoInnerCr(PrintLines(blocks)) {
        PrintedLinesReadBack(blocks);
      } else {
        ParsedCrs(ChompAllButLast(PrintLines(blocks)));
        PrintCrs(blocks);
      }
    }
  }

  // ---- ... and what that says of the text handed in

  predicate OnlyEmpty(segs: seq<Segment>) { segs == [] || (segs[0].Empty? && OnlyEmpty(segs[1..])) }

  /** No line of code or of a paragraph ends with a carriage return; the last line of the last block may, in a paragraph. */
  predicate CleanEnds(seg: Segment, last: bool) {
    match seg
    case Code(_, body, _) => NoneEndsWithCr(body)
    case Plains(lines) => if last then NoInnerCr(lines) else NoneEndsWithCr(lines)
    case _ => true
  }

  predicate CleanSegments(segs: seq<Segment>) {
    segs == [] || (CleanEnds(segs[0], OnlyEmpty(segs[1..])) && CleanSegments(segs[1..]))
  }

  lemma {:induction false} NoneConcat(a: seq<string>, b: seq<string>)
    ensures NoneEndsWithCr(a + b) <==> NoneEndsWithCr(a) && NoneEndsWithCr(b)
  {
    if a == [] {
      assert a + b == b;
    } else {
      assert (a + b)[1..] == a[1..] + b;
      NoneConcat(a[1..], b);
    }
  }

  lemma NoneOne(s: string)
    ensures NoneEndsWithCr([s]) <==> !EndsWithCr(s)
  {
    assert [s][1..] == [];
  }

  lemma {:induction false} NoneInner(lines: seq<string>)
    requires NoneEndsWithCr(lines)
    ensures NoInnerCr(lines)
  {
    if lines == [] {
    } else {
      NoneInner(lines[1..]);
    }
  }

  lemma NoCrAtEnd(s: string)
    requires CrCount(s) == 0
    ensures !EndsWithCr(s)
  {
    ChompedCount(s);
  }

  lemma {:induction false} PrintedItemEnds(items: seq<string>)
    requires AreItems(items)
    ensures NoneEndsWithCr(PrintItems(items))
  {
    if items == [] {
    } else {
      PrintedItemEnds(items[1..]);
      CrCountConcat("- ", items[0]);
      NoCrOnOneLine("- ");
      NoCrOnOneLine(items[0]);
      NoCrAtEnd("- " + items[0]);
      assert PrintItems(items)[1..] == PrintItems(items[1..]);
    }
  }

  lemma PrintedCodeEnds(body: seq<string>, language: string)
    requires OnlyLines(body) && language != "" && WordLength(language) == |language|
    ensures var printed := PrintBlock(CodeBlock(Join(body), language));
      (NoneEndsWithCr(printed) <==> NoneEndsWithCr(body)) && (NoInnerCr(printed) <==> NoneEndsWithCr(body))
  {
    var fence, inside := "```" + language, Split(Join(body));
    PrintedFenceCrs(language);
    NoCrAtEnd(fence);
    SplitOfJoined(body);
    NoneOne("");
    NoneOne(fence);
    NoneOne("```");
    NoneConcat([fence], inside);
    NoneConcat([fence] + inside, ["```"]);
    NoInnerCrConcat([fence] + inside, ["```"]);
  }

  /** The endings of a printed block, in the middle of the text or at its end. */
  lemma PrintedEnds(seg: Segment)
    requires IsSegment(seg) && OnlyLines(LinesOf(seg)) && !seg.Empty?
    ensures var printed := PrintBlock(BlockOf(seg)[0]);
      (NoneEndsWithCr(printed) <==> CleanEnds(seg, false)) && (NoInnerCr(printed) <==> CleanEnds(seg, true))
  {
    match seg
    case Code(open, body, close) =>
      LanguageIsWord(open);
      BodyLines(open, body, close);
      PrintedCodeEnds(body, Language(open));
    case Bullets(lines) =>
      ItemsAreItems(lines);
      PrintedItemEnds(Items(lines));
      NoneInner(PrintItems(Items(lines)));
    case Plains(lines) => SplitOfJoined(lines);
  }

  lemma {:induction false} OnlyEmptyIff(segs: seq<Segment>)
    requires AreSegments(segs)
    ensures OnlyEmpty(segs) <==> BlocksOf(segs) == []
    ensures OnlyEmpty(segs) ==> CleanSegments(segs)
  {
    if segs == [] {
    } else {
      OnlyEmptyIff(segs[1..]);
    }
  }

  /** The blank line between two printed blocks makes every line of the first an inner line. */
  lemma PrintedTwo(b: Block, rest: seq<Block>)
    requires rest != [] && PrintLines(rest) != []
    ensures NoInnerCr(PrintLines([b] + rest)) <==> NoneEndsWithCr(PrintBlock(b)) && NoInnerCr(PrintLines(rest))
  {
    assert ([b] + rest)[1..] == rest;
    NoneOne("");
    NoneConcat(PrintBlock(b), [""]);
    NoInnerCrConcat(PrintBlock(b) + [""], PrintLines(rest));
  }

  lemma PrintsSomething(blocks: seq<Block>)
    requires AreParsedBlocks(blocks) && blocks != []
    ensures PrintLines(blocks) != []
  {
    PrintedBlock(blocks[0]);
  }

  lemma {:induction false} PrintedCleanIff(segs: seq<Segment>)
    requires AreSegments(segs) && OnlyLines(Flatten(segs))
    ensures NoInnerCr(PrintLines(BlocksOf(segs))) <==> CleanSegments(segs)
  {
    if segs == [] {
    } else {
      var seg, rest := segs[0], segs[1..];
      OnlyLinesSplit(LinesOf(seg), Flatten(rest));
      PrintedCleanIff(rest);
      OnlyEmptyIff(rest);
      if seg.Empty? {
        assert BlocksOf(segs) == BlocksOf(rest);
      } else {
        PrintedEnds(seg);
        OneOrMore(BlockOf(seg)[0], rest);
      }
    }
  }

  /** One block in front: it is the last one exactly when only empty segments follow. */
  lemma OneOrMore(b: Block, rest: seq<Segment>)
    requires AreSegments(rest) && OnlyLines(Flatten(rest))
    ensures NoInnerCr(PrintLines([b] + BlocksOf(rest)))
       <==> if OnlyEmpty(rest) then NoInnerCr(PrintBlock(b)) else NoneEndsWithCr(PrintBlock(b)) && NoInnerCr(PrintLines(BlocksOf(rest)))
  {
    OnlyEmptyIff(rest);
    if OnlyEmpty(rest) {
      assert [b] + BlocksOf(rest) == [b];
    } else {
      SegmentBlocks(rest);
      PrintsSomething(BlocksOf(rest));
      PrintedTwo(b, BlocksOf(rest));
    }
  }

  /**
   Parsing, printing and parsing again gives the same blocks exactly when, in the text handed in, no
   line of code and no paragraph line ends with a carriage return, except the last line of a paragraph
   that nothing but blank lines follow.
   */
  lemma RoundTripIff(markdown: string)
    ensures ParsedText(Print(ParsedText(markdown))) == ParsedText(markdown) <==> CleanSegments(Segments(SplitLines(markdown)))
  {
    var lines := SplitLines(markdown);
    RoundTripOfPrint(markdown);
    SegmentsAreSegments(lines);
    NoLineIsLost(lines);
    forall k | 0 <= k < |lines| ensures '\n' !in lines[k] {}
    PrintedCleanIff(Segments(lines));
  }

  lemma NothingPrinted()
    ensures ParsedText(Print([])) == []
  {
    assert SplitLines("") == [""];
    ParsedBlank([]);
    assert [""] + [] == [""];
  }

  lemma {:induction false} CleanWithoutCr(segs: seq<Segment>)
    requires NoneEndsWithCr(Flatten(segs))
    ensures CleanSegments(segs)
  {
    if segs == [] {
    } else {
      var seg, rest := segs[0], segs[1..];
      NoneConcat(LinesOf(seg), Flatten(rest));
      CleanWithoutCr(rest);
      match seg
      case Code(open, body, close) =>
        NoneConcat([open] + body, if close.Some? then [close.value] else []);
        NoneConcat([open], body);
      case Plains(lines) => NoneInner(lines);
      case _ =>
    }
  }

  /** Without carriage returns in the text the round trip holds. */
  lemma RoundTrip(markdown: string)
    requires '\r' !in markdown
    ensures ParsedText(Print(ParsedText(markdown))) == ParsedText(markdown)
  {
    var lines := SplitLines(markdown);
    forall i | 0 <= i < |lines| ensures !EndsWithCr(lines[i]) {
      SplitLinesKeepsOut(markdown, '\r', i);
    }
    NoneMeans(lines);
    NoLineIsLost(lines);
    CleanWithoutCr(Segments(lines));
    RoundTripIff(markdown);
  }

  /** A text for which it fails: the paragraph's first line keeps a carriage return, which printing loses. */
  lemma RoundTripCanFail()
    ensures ParsedText(Print(ParsedText("a\r" + "\r\nb"))) != ParsedText("a\r" + "\r\nb")
  {
    var lines := ["a\r", "b"];
    FailingLines();
    FailingBlocks(lines);
    assert EndsWithCr(lines[0]);
    assert !NoInnerCr(lines);
    RoundTripOfPrint("a\r" + "\r\nb");
  }

  lemma FailingLines()
    ensures SplitLines("a\r" + "\r\nb") == ["a\r", "b"]
  {
    var a := "a\r\r";
    SplitPrefix(a, "b");
    assert "a\r" + "\r\nb" == a + "\n" + "b";
    assert ChompCr(a) == "a\r";
    assert Text.IndexOf("b", '\n') < 0;
  }

  lemma FailingBlocks(lines: seq<string>)
    requires lines == ["a\r", "b"]
    ensures PrintLines(Parsed(lines)) == lines
  {
    PlainLetters();
    assert lines[1..] == ["b"] && ["b"][1..] == [];
    assert AllOf(["b"], Plain);
    ParsedCons(Plains(lines), []);
    assert lines + [] == lines;
    assert Parsed(lines) == [Paragraph(Join(lines))];
    assert OnlyLines(lines);
    SplitOfJoined(lines);
  }

  lemma PlainLetters()
    ensures Classify("a\r") == Plain && Classify("b") == Plain
  {
    assert TrimStart("a\r") == "a\r" && TrimStart("b") == "b";
    TrimEndReaches("a\r", 0);
    TrimEndReaches("b", 0);
  }

  // ---------------------------------------------------------------- the loop

  /** `replace` of every carriage return and newline by a newline. */
  function UnixNewlines(s: string): string {
    if s == "" then ""
    else if |s| >= 2 && s[0] == '\r' && s[1] == '\n' then "\n" + UnixNewlines(s[2..])
    else [s[0]] + UnixNewlines(s[1..])
  }

  lemma {:induction false} UnixNewlinesHead(a: string, b: string)
    requires '\n' !in a
    ensures UnixNewlines(a + "\n" + b) == ChompCr(a) + "\n" + UnixNewlines(b)
  {
    var s := a + "\n" + b;
    if a == "" {
      assert s[1..] == b;
    } else if a == "\r" {
      assert s[2..] == b;
    } else {
      var t := a[1..];
      assert a == [a[0]] + t;
      assert s[1..] == t + "\n" + b;
      UnixNewlinesHead(t, b);
      assert ChompCr(a) == [a[0]] + ChompCr(t);
    }
  }

  lemma {:induction false} UnixNewlinesNone(s: string)
    requires '\n' !in s
    ensures UnixNewlines(s) == s
  {
    if s == "" {
    } else {
      assert s == [s[0]] + s[1..];
      UnixNewlinesNone(s[1..]);
    }
  }

  /** Replacing and splitting is splitting at a newline with an optional carriage return before it. */
  lemma {:induction false} ReplaceThenSplit(s: string)
    ensures Split(UnixNewlines(s)) == SplitLines(s)
    decreases |s|
  {
    var i := Text.IndexOf(s, '\n');
    if i < 0 {
      UnixNewlinesNone(s);
    } else {
      var first, rest := s[..i], s[i + 1..];
      assert s == first + "\n" + rest;
      UnixNewlinesHead(first, rest);
      ReplaceThenSplit(rest);
      SplitHead(ChompCr(first), UnixNewlines(rest));
    }
  }

  /** The accumulators hold the lines `held`, which are all of one class; they are never both in use. */
  predicate Held(held: seq<string>, paragraph: seq<string>, list: seq<string>) {
    if paragraph != [] then list == [] && paragraph == held && AllOf(held, Plain)
    else if list != [] then AllOf(held, Bullet) && Items(held) == list
    else held == []
  }

  function Flushed(paragraph: seq<string>, list: seq<string>): seq<Block> {
    (if paragraph != [] then [Paragraph(Join(paragraph))] else []) + (if list != [] then [ListBlock(list)] else [])
  }

  /** A line of another class, or the end, closes what is held. */
  lemma FlushHeld(held: seq<string>, paragraph: seq<string>, list: seq<string>, rest: seq<string>)
    requires Held(held, paragraph, list)
    requires rest != [] ==> (paragraph != [] ==> Classify(rest[0]) != Plain) && (list != [] ==> Classify(rest[0]) != Bullet)
    ensures Parsed(held + rest) == Flushed(paragraph, list) + Parsed(rest)
  {
    if paragraph != [] {
      ParsedSegment(Plains(held), rest);
    } else if list != [] {
      ParsedSegment(Bullets(held), rest);
    } else {
      assert held + rest == rest;
    }
  }

  lemma ParsedSegment(seg: Segment, rest: seq<string>)
    requires IsSegment(seg) && (seg.Plains? || seg.Bullets?)
    requires rest != [] ==> Classify(rest[0]) != FirstClass(seg)
    ensures Parsed(LinesOf(seg) + rest) == BlockOf(seg) + Parsed(rest)
  {
    SegmentsCons(seg, rest);
    SegmentsAreSegments(rest);
    ConsSegments(seg, Segments(rest));
  }

  lemma {:induction false} AllOfSnoc(lines: seq<string>, line: string, c: Class)
    requires AllOf(lines, c) && Classify(line) == c
    ensures AllOf(lines + [line], c)
    ensures c == Bullet ==> Items(lines + [line]) == Items(lines) + [ItemOf(line)]
  {
    if lines == [] {
      assert (lines + [line])[1..] == [];
    } else {
      assert (lines + [line])[1..] == lines[1..] + [line];
      AllOfSnoc(lines[1..], line, c);
    }
  }

  method FlushParagraph(blocks: seq<Block>, paragraph: seq<string>) returns (blocks': seq<Block>, paragraph': seq<string>)
    ensures blocks' == blocks + Flushed(paragraph, []) && paragraph' == []
  {
    blocks', paragraph' := blocks, paragraph;
    if paragraph != [] {
      blocks' := blocks' + [Paragraph(Join(paragraph))];
      paragraph' := [];
    }
  }

  method FlushList(blocks: seq<Block>, list: seq<string>) returns (blocks': seq<Block>, list': seq<string>)
    ensures blocks' == blocks + Flushed([], list) && list' == []
  {
    blocks', list' := blocks, list;
    if list != [] {
      blocks' := blocks' + [ListBlock(list)];
      list' := [];
    }
  }

  method FlushBoth(blocks: seq<Block>, paragraph: seq<string>, list: seq<string>) returns (blocks': seq<Block>)
    ensures blocks' == blocks + Flushed(paragraph, list)
  {
    var p, l;
    blocks', p := FlushParagraph(blocks, paragraph);
    blocks', l := FlushList(blocks', list);
  }

  lemma {:induction false} NoCloseSnoc(lines: seq<string>, line: string)
    requires NoClose(lines) && !IsClose(line)
    ensures NoClose(lines + [line])
  {
    if lines == [] {
      assert (lines + [line])[1..] == [];
    } else {
      assert (lines + [line])[1..] == lines[1..] + [line];
      NoCloseSnoc(lines[1..], line);
    }
  }

  lemma BodyGrows(lines: seq<string>, from: nat, to: nat)
    requires from <= to < |lines| && NoClose(lines[from..to]) && !IsClose(lines[to])
    ensures lines[from..to] + [lines[to]] == lines[from..to + 1] && NoClose(lines[from..to + 1])
  {
    NoCloseSnoc(lines[from..to], lines[to]);
    assert lines[from..to] + [lines[to]] == lines[from..to + 1];
  }

  /** The inner loop: the lines up to a closing fence or the end. */
  method TakeBody(lines: seq<string>, from: nat) returns (body: seq<string>, end: nat)
    requires from <= |lines|
    ensures IsBody(lines, from, body, end)
  {
    body, end := [], from;
    while end < |lines| && !IsClose(lines[end])
      invariant from <= end <= |lines| && body == lines[from..end] && NoClose(body)
    {
      BodyGrows(lines, from, end);
      body := body + [lines[end]];
      end := end + 1;
    }
  }

  /** The block that the fence at `i` opens, and where to go on. */
  method TakeCode(lines: seq<string>, i: nat) returns (block: Block, next: nat, ghost body: seq<string>)
    requires i < |lines| && IsFence(lines[i])
    ensures i < next && IsCode(lines, i, body, block, next)
  {
    var taken, end := TakeBody(lines, i + 1);
    body := taken;
    block := CodeBlock(Join(taken), Language(lines[i]));
    next := end + 1;
  }

  predicate IsBody(lines: seq<string>, from: nat, body: seq<string>, end: nat) {
    from <= end <= |lines| && body == lines[from..end] && NoClose(body) && (end < |lines| ==> IsClose(lines[end]))
  }

  predicate IsCode(lines: seq<string>, i: nat, body: seq<string>, block: Block, next: nat) {
    i < |lines| && IsFence(lines[i]) && i < next && IsBody(lines, i + 1, body, next - 1) && block == CodeBlock(Join(body), Language(lines[i]))
  }

  function SegmentAt(lines: seq<string>, i: nat, body: seq<string>, end: nat): Segment
    requires i < |lines|
  {
    Code(lines[i], body, if end < |lines| then Some(lines[end]) else None)
  }

  lemma SegmentAtIsCode(lines: seq<string>, i: nat, body: seq<string>, block: Block, next: nat)
    requires IsCode(lines, i, body, block, next)
    ensures var seg := SegmentAt(lines, i, body, next - 1);
      && IsSegment(seg) && block == CodeBlock(Join(seg.body), Language(seg.open))
      && (From(lines, next) != [] ==> seg.close.Some?)
  {
  }

  lemma CutTwice(lines: seq<string>, i: nat, end: nat)
    requires i < end <= |lines|
    ensures lines[i..] == [lines[i]] + lines[i + 1..end] + lines[end..]
  {
  }

  lemma CutOne(lines: seq<string>, i: nat)
    requires i < |lines|
    ensures lines[i..] == [lines[i]] + lines[i + 1..]
  {
  }

  lemma CodeSlice(lines: seq<string>, i: nat, body: seq<string>, next: nat)
    requires i + 1 < next <= |lines| + 1 && body == lines[i + 1..next - 1]
    ensures lines[i..] == LinesOf(SegmentAt(lines, i, body, next - 1)) + From(lines, next)
  {
    CutTwice(lines, i, next - 1);
    if next <= |lines| {
      CutOne(lines, next - 1);
      ClosedCode(lines[i], body, lines[next - 1], lines[next..]);
    } else {
      OpenCode(lines[i], body);
    }
  }

  lemma ClosedCode(open: string, body: seq<string>, close: string, rest: seq<string>)
    ensures [open] + body + ([close] + rest) == LinesOf(Code(open, body, Some(close))) + rest
  {
    LinesAssoc([open] + body, [close], rest);
  }

  lemma OpenCode(open: string, body: seq<string>)
    ensures [open] + body + [] == LinesOf(Code(open, body, None)) + []
  {
  }

  lemma ParsedCode(text: seq<string>, seg: Segment, rest: seq<string>, block: Block)
    requires text == LinesOf(seg) + rest && seg.Code? && IsSegment(seg) && (rest != [] ==> seg.close.Some?)
    requires block == CodeBlock(Join(seg.body), Language(seg.open))
    ensures Parsed(text) == [block] + Parsed(rest)
  {
    SegmentsCons(seg, rest);
    SegmentsAreSegments(rest);
    ConsSegments(seg, Segments(rest));
  }

  lemma CodeParsed(lines: seq<string>, i: nat, body: seq<string>, block: Block, next: nat)
    requires IsCode(lines, i, body, block, next)
    ensures Parsed(lines[i..]) == [block] + Parsed(From(lines, next))
  {
    CodeSlice(lines, i, body, next);
    SegmentAtIsCode(lines, i, body, block, next);
    ParsedCode(lines[i..], SegmentAt(lines, i, body, next - 1), From(lines, next), block);
  }

  function From(lines: seq<string>, i: nat): seq<string> {
    if i <= |lines| then lines[i..] else []
  }

  /** The blocks so far, what is held and the lines from `i` on make up the whole result. */
  predicate Progress(lines: seq<string>, i: nat, blocks: seq<Block>, held: seq<string>, paragraph: seq<string>, list: seq<string>) {
    Held(held, paragraph, list) && Parsed(lines) == blocks + Parsed(held + From(lines, i))
  }

  lemma AfterFlush(lines: seq<string>, i: nat, blocks: seq<Block>, held: seq<string>, paragraph: seq<string>, list: seq<string>)
    requires Progress(lines, i, blocks, held, paragraph, list)
    requires i < |lines| ==> (paragraph != [] ==> Classify(lines[i]) != Plain) && (list != [] ==> Classify(lines[i]) != Bullet)
    ensures Progress(lines, i, blocks + Flushed(paragraph, list), [], [], [])
  {
    var rest := From(lines, i);
    FlushHeld(held, paragraph, list, rest);
    BlocksAssoc(blocks, Flushed(paragraph, list), Parsed(rest));
    assert [] + rest == rest;
  }

  lemma AfterFlushList(lines: seq<string>, i: nat, blocks: seq<Block>, held: seq<string>, paragraph: seq<string>, list: seq<string>)
    requires i < |lines| && Progress(lines, i, blocks, held, paragraph, list) && Classify(lines[i]) == Plain
    ensures Progress(lines, i, blocks + Flushed([], list), if list != [] then [] else held, paragraph, [])
  {
    if list != [] {
      AfterFlush(lines, i, blocks, held, paragraph, list);
    } else {
      assert blocks + Flushed([], []) == blocks;
    }
  }

  lemma AfterFlushParagraph(lines: seq<string>, i: nat, blocks: seq<Block>, held: seq<string>, paragraph: seq<string>, list: seq<string>)
    requires i < |lines| && Progress(lines, i, blocks, held, paragraph, list) && Classify(lines[i]) == Bullet
    ensures Progress(lines, i, blocks + Flushed(paragraph, []), if paragraph != [] then [] else held, [], list)
  {
    if paragraph != [] {
      AfterFlush(lines, i, blocks, held, paragraph, list);
    } else {
      assert blocks + Flushed([], []) == blocks;
    }
  }

  lemma BlocksAssoc(a: seq<Block>, b: seq<Block>, c: seq<Block>)
    ensures a + (b + c) == a + b + c
  {
  }

  lemma NothingHeld(lines: seq<string>, i: nat)
    ensures [] + From(lines, i) == From(lines, i)
  {
  }

  lemma AfterCode(lines: seq<string>, i: nat, blocks: seq<Block>, body: seq<string>, block: Block, next: nat)
    requires IsCode(lines, i, body, block, next) && Progress(lines, i, blocks, [], [], [])
    ensures Progress(lines, next, blocks + [block], [], [], [])
  {
    CodeParsed(lines, i, body, block, next);
    NothingHeld(lines, i);
    NothingHeld(lines, next);
    BlocksAssoc(blocks, [block], Parsed(From(lines, next)));
  }

  lemma AfterEmptyLine(lines: seq<string>, i: nat, blocks: seq<Block>)
    requires i < |lines| && Progress(lines, i, blocks, [], [], []) && Classify(lines[i]) == Blank
    ensures Progress(lines, i + 1, blocks, [], [], [])
  {
    assert [] + From(lines, i) == lines[i..];
    assert [] + From(lines, i + 1) == lines[i + 1..];
    ParsedEmptyLine(lines, i);
  }

  lemma ParsedEmptyLine(lines: seq<string>, i: nat)
    requires i < |lines| && Classify(lines[i]) == Blank
    ensures Parsed(lines[i..]) == Parsed(lines[i + 1..])
  {
    assert lines[i..] == LinesOf(Empty(lines[i])) + lines[i + 1..];
    ParsedCons(Empty(lines[i]), lines[i + 1..]);
    assert [] + Parsed(lines[i + 1..]) == Parsed(lines[i + 1..]);
  }

  lemma HoldLine(held: seq<string>, lines: seq<string>, i: nat)
    requires i < |lines|
    ensures held + From(lines, i) == (held + [lines[i]]) + From(lines, i + 1)
  {
  }

  lemma AfterBullet(lines: seq<string>, i: nat, blocks: seq<Block>, held: seq<string>, list: seq<string>)
    requires i < |lines| && Progress(lines, i, blocks, held, [], list) && Classify(lines[i]) == Bullet
    ensures Progress(lines, i + 1, blocks, held + [lines[i]], [], list + [ItemOf(lines[i])])
  {
    HoldLine(held, lines, i);
    AllOfSnoc(held, lines[i], Bullet);
  }

  lemma AfterPlain(lines: seq<string>, i: nat, blocks: seq<Block>, held: seq<string>, paragraph: seq<string>)
    requires i < |lines| && Progress(lines, i, blocks, held, paragraph, []) && Classify(lines[i]) == Plain
    ensures Progress(lines, i + 1, blocks, held + [lines[i]], paragraph + [lines[i]], [])
  {
    HoldLine(held, lines, i);
    AllOfSnoc(held, lines[i], Plain);
  }

  lemma ParsedNothing(lines: seq<string>, i: nat)
    requires i >= |lines|
    ensures Parsed([] + From(lines, i)) == []
  {
    assert [] + From(lines, i) == [];
  }

  /** flushParagraph before a bullet: a list that is being gathered goes on. */
  method EndParagraph(lines: seq<string>, i: nat, blocks: seq<Block>, paragraph: seq<string>, list: seq<string>, ghost held: seq<string>)
    returns (blocks': seq<Block>, paragraph': seq<string>, ghost held': seq<string>)
    requires i < |lines| && Progress(lines, i, blocks, held, paragraph, list) && Classify(lines[i]) == Bullet
    ensures Progress(lines, i, blocks', held', paragraph', list) && paragraph' == []
    ensures blocks' == blocks + Flushed(paragraph, [])
  {
    held' := if paragraph != [] then [] else held;
    blocks', paragraph' := FlushParagraph(blocks, paragraph);
    AfterFlushParagraph(lines, i, blocks, held, paragraph, list);
  }

  /** flushList before a plain line: a paragraph that is being gathered goes on. */
  method EndList(lines: seq<string>, i: nat, blocks: seq<Block>, paragraph: seq<string>, list: seq<string>, ghost held: seq<string>)
    returns (blocks': seq<Block>, list': seq<string>, ghost held': seq<string>)
    requires i < |lines| && Progress(lines, i, blocks, held, paragraph, list) && Classify(lines[i]) == Plain
    ensures Progress(lines, i, blocks', held', paragraph, list') && list' == []
    ensures blocks' == blocks + Flushed([], list)
  {
    held' := if list != [] then [] else held;
    blocks', list' := FlushList(blocks, list);
    AfterFlushList(lines, i, blocks, held, paragraph, list);
  }

  lemma AtTheStart(lines: seq<string>)
    ensures Progress(lines, 0, [], [], [], [])
  {
    assert [] + From(lines, 0) == lines;
  }

  /** A fence flushes what is held and takes its code. */
  method FenceLine(lines: seq<string>, i: nat, blocks: seq<Block>, paragraph: seq<string>, list: seq<string>, ghost held: seq<string>)
    returns (blocks': seq<Block>, next: nat)
    requires i < |lines| && Progress(lines, i, blocks, held, paragraph, list) && IsFence(lines[i])
    ensures i < next && Progress(lines, next, blocks', [], [], [])
  {
    AfterFlush(lines, i, blocks, held, paragraph, list);
    var flushed := FlushBoth(blocks, paragraph, list);
    var block, after, body := TakeCode(lines, i);
    AfterCode(lines, i, flushed, body, block, after);
    blocks', next := flushed + [block], after;
  }

  /** A bullet flushes the paragraph and adds its item to the list. */
  method BulletLine(lines: seq<string>, i: nat, blocks: seq<Block>, paragraph: seq<string>, list: seq<string>, ghost held: seq<string>)
    returns (blocks': seq<Block>, list': seq<string>, ghost held': seq<string>)
    requires i < |lines| && Progress(lines, i, blocks, held, paragraph, list) && !IsFence(lines[i]) && IsBullet(lines[i])
    ensures Progress(lines, i + 1, blocks', held', [], list')
  {
    ghost var kept;
    var p;
    blocks', p, kept := EndParagraph(lines, i, blocks, paragraph, list, held);
    AfterBullet(lines, i, blocks', kept, list);
    held' := kept + [lines[i]];
    list' := list + [ItemOf(lines[i])];
  }

  /** A blank line flushes what is held. */
  method BlankLine(lines: seq<string>, i: nat, blocks: seq<Block>, paragraph: seq<string>, list: seq<string>, ghost held: seq<string>)
    returns (blocks': seq<Block>)
    requires i < |lines| && Progress(lines, i, blocks, held, paragraph, list) && Classify(lines[i]) == Blank
    ensures Progress(lines, i + 1, blocks', [], [], [])
  {
    AfterFlush(lines, i, blocks, held, paragraph, list);
    blocks' := FlushBoth(blocks, paragraph, list);
    AfterEmptyLine(lines, i, blocks');
  }

  /** Any other line flushes the list and joins the paragraph. */
  method PlainLine(lines: seq<string>, i: nat, blocks: seq<Block>, paragraph: seq<string>, list: seq<string>, ghost held: seq<string>)
    returns (blocks': seq<Block>, paragraph': seq<string>, ghost held': seq<string>)
    requires i < |lines| && Progress(lines, i, blocks, held, paragraph, list) && Classify(lines[i]) == Plain
    ensures Progress(lines, i + 1, blocks', held', paragraph', [])
  {
    ghost var kept;
    var l;
    blocks', l, kept := EndList(lines, i, blocks, paragraph, list, held);
    AfterPlain(lines, i, blocks', kept, paragraph);
    held' := kept + [lines[i]];
    paragraph' := paragraph + [lines[i]];
  }

  /** The end flushes what is held, and everything has been read. */
  method AtTheEnd(lines: seq<string>, i: nat, blocks: seq<Block>, paragraph: seq<string>, list: seq<string>, ghost held: seq<string>)
    returns (blocks': seq<Block>)
    requires i >= |lines| && Progress(lines, i, blocks, held, paragraph, list)
    ensures blocks' == Parsed(lines)
  {
    AfterFlush(lines, i, blocks, held, paragraph, list);
    blocks' := FlushBoth(blocks, paragraph, list);
    ParsedNothing(lines, i);
    assert blocks' + [] == blocks';
  }

  /** parseBlocks: the index loop with its two accumulators finds what the segments say. */
  method ParseBlocks(markdown: string) returns (blocks: seq<Block>)
    ensures blocks == ParsedText(markdown)
  {
    var lines := Split(UnixNewlines(markdown));
    ReplaceThenSplit(markdown);
    blocks := [];
    var paragraph: seq<string>, list: seq<string> := [], [];
    ghost var held: seq<string> := [];
    var i := 0;
    AtTheStart(lines);
    while i < |lines|
      invariant Progress(lines, i, blocks, held, paragraph, list)
    {
      if IsFence(lines[i]) {
        blocks, i := FenceLine(lines, i, blocks, paragraph, list, held);
        paragraph, list, held := [], [], [];
      } else if IsBullet(lines[i]) {
        blocks, list, held := BulletLine(lines, i, blocks, paragraph, list, held);
        paragraph := [];
        i := i + 1;
      } else if Trim(lines[i]) == "" {
        blocks := BlankLine(lines, i, blocks, paragraph, list, held);
        paragraph, list, held := [], [], [];
        i := i + 1;
      } else {
        blocks, paragraph, held := PlainLine(lines, i, blocks, paragraph, list, held);
        list := [];
        i := i + 1;
      }
    }
    blocks := AtTheEnd(lines, i, blocks, paragraph, list, held);
  }

  // ---------------------------------------------------------------- lines as people write them

  /** A line with a dash or a star in front. */
  datatype Bulleted = Bulleted(pad: string, star: bool, gap: string, item: string)

  predicate IsBulleted(b: Bulleted) { Spaces(b.pad) && Spaces(b.gap) && b.gap != "" && IsItem(b.item) }

  function Write(b: Bulleted): string { b.pad + (Mark(b.star) + (b.gap + b.item)) }

  function Mark(star: bool): string { if star then "*" else "-" }

  function WriteAll(bs: seq<Bulleted>): (r: seq<string>)
    ensures |r| == |bs|
  {
    if bs == [] then [] else [Write(bs[0])] + WriteAll(bs[1..])
  }

  function ItemsOf(bs: seq<Bulleted>): seq<string> {
    if bs == [] then [] else [bs[0].item] + ItemsOf(bs[1..])
  }

  lemma {:induction false} TrimStartBefore(pad: string, s: string)
    requires Spaces(pad)
    ensures TrimStart(pad + s) == TrimStart(s)
  {
    if pad == "" {
      assert pad + s == s;
    } else {
      assert (pad + s)[1..] == pad[1..] + s;
      TrimStartBefore(pad[1..], s);
    }
  }

  /** Behind white space, what the line starts with decides. */
  lemma TrimmedLine(pad: string, text: string)
    requires Spaces(pad) && text != "" && !IsSpace(text[0])
    ensures TrimStart(pad + text) == text && Trim(pad + text) != ""
    ensures pad != "" || text[0] != '`' ==> !IsFence(pad + text)
  {
    TrimStartBefore(pad, text);
    TrimEndReaches(text, 0);
    if pad == "" {
      assert pad + text == text;
    } else {
      assert (pad + text)[0] == pad[0] && IsSpace(pad[0]);
    }
  }

  lemma MarkedText(star: bool, rest: string)
    ensures var text := Mark(star) + rest;
      text[1..] == rest && (text[0] == '-' || text[0] == '*') && !IsSpace(text[0])
  {
  }

  lemma MarkedLine(line: string, gap: string, item: string)
    requires Spaces(gap) && gap != "" && IsItem(item) && !IsFence(line)
    requires var t := TrimStart(line); t != "" && (t[0] == '-' || t[0] == '*') && t[1..] == gap + item
    ensures Classify(line) == Bullet && ItemOf(line) == item
  {
    var t := TrimStart(line);
    assert t[1] == t[1..][0] == gap[0];
    TrimStartBefore(gap, item);
  }

  /** A dash and a star make the same list item, however the line is indented. */
  lemma BulletReads(b: Bulleted)
    requires IsBulleted(b)
    ensures Classify(Write(b)) == Bullet && ItemOf(Write(b)) == b.item
  {
    MarkedText(b.star, b.gap + b.item);
    TrimmedLine(b.pad, Mark(b.star) + (b.gap + b.item));
    MarkedLine(Write(b), b.gap, b.item);
  }

  lemma {:induction false} BulletLines(bs: seq<Bulleted>)
    requires forall k :: 0 <= k < |bs| ==> IsBulleted(bs[k])
    ensures AllOf(WriteAll(bs), Bullet) && Items(WriteAll(bs)) == ItemsOf(bs)
  {
    if bs == [] {
    } else {
      BulletReads(bs[0]);
      BulletLines(bs[1..]);
      assert WriteAll(bs)[1..] == WriteAll(bs[1..]);
    }
  }

  lemma ParsedOfNothing()
    ensures Parsed([]) == []
  {
  }

  lemma LastSegment(seg: Segment, block: Block)
    requires IsSegment(seg) && seg.Bullets? && BlockOf(seg) == [block]
    ensures Parsed(LinesOf(seg) + []) == [block]
  {
    ParsedSegment(seg, []);
    ParsedOfNothing();
  }

  lemma OneList(lines: seq<string>)
    requires lines != [] && AllOf(lines, Bullet)
    ensures Parsed(lines) == [ListBlock(Items(lines))]
  {
    LastSegment(Bullets(lines), ListBlock(Items(lines)));
    assert LinesOf(Bullets(lines)) + [] == lines;
  }

  /** Lines with dashes and stars in any mixture are one list. */
  lemma BulletsAreOneList(bs: seq<Bulleted>)
    requires bs != [] && forall k :: 0 <= k < |bs| ==> IsBulleted(bs[k])
    ensures Parsed(WriteAll(bs)) == [ListBlock(ItemsOf(bs))]
  {
    BulletLines(bs);
    OneList(WriteAll(bs));
  }

  /** A line that starts with neither mark nor, at its very start, a backquote is text. */
  lemma OtherLineIsPlain(pad: string, text: string)
    requires Spaces(pad) && text != "" && !IsSpace(text[0]) && text[0] != '-' && text[0] != '*' && (pad != "" || text[0] != '`')
    ensures Classify(pad + text) == Plain
  {
    TrimmedLine(pad, text);
  }

  /** So is a mark with no white space behind it. */
  lemma MarkAloneIsPlain(pad: string, star: bool, rest: string)
    requires Spaces(pad) && (rest != "" ==> !IsSpace(rest[0]))
    ensures Classify(pad + (Mark(star) + rest)) == Plain
  {
    var text := Mark(star) + rest;
    TrimmedLine(pad, text);
    assert rest != "" ==> text[1] == rest[0];
  }

  lemma {:induction false} WordBefore(word: string, gap: string)
    requires WordLength(word) == |word| && Spaces(gap)
    ensures WordLength(word + gap) == |word|
  {
    if word == "" {
      assert word + gap == gap;
      assert gap != "" ==> IsSpace(gap[0]);
    } else {
      assert (word + gap)[1..] == word[1..] + gap;
      WordBefore(word[1..], gap);
    }
  }

  /** A fence names its language, or text when it names none. */
  lemma FenceReads(word: string, gap: string)
    requires WordLength(word) == |word| && Spaces(gap)
    ensures Classify("```" + (word + gap)) == Fence
    ensures Language("```" + (word + gap)) == if word == "" then "text" else word
    ensures word == "" ==> IsClose("```" + (word + gap))
  {
    TailAfterTicks("```", word + gap);
    FenceTail("```" + (word + gap), word, gap);
  }

  lemma FenceTail(line: string, word: string, gap: string)
    requires "```" <= line && line[3..] == word + gap && WordLength(word) == |word| && Spaces(gap)
    ensures Classify(line) == Fence && Language(line) == if word == "" then "text" else word
    ensures word == "" ==> IsClose(line)
  {
    WordBefore(word, gap);
    assert line[3 + |word|..] == line[3..][|word|..] == gap;
    assert line[3..3 + |word|] == line[3..][..|word|] == word;
    TrimStartBefore(gap, "");
    assert gap + "" == gap;
    assert word == "" ==> word + gap == gap;
  }

  // ---- ... and no other lines are of these classes

  lemma {:induction false} SplitSpaces(line: string) returns (pad: string, text: string)
    ensures line == pad + text && Spaces(pad) && text == TrimStart(line)
  {
    if line == "" || !IsSpace(line[0]) {
      pad, text := "", line;
      assert "" + line == line;
    } else {
      pad, text := SplitSpaces(line[1..]);
      pad := [line[0]] + pad;
    }
  }

  /** A closing fence is three backquotes and white space. */
  lemma CloseIff(line: string)
    ensures IsClose(line) <==> exists gap :: Spaces(gap) && line == "```" + gap
  {
    if IsClose(line) {
      var pad, text := SplitSpaces(line[3..]);
      assert line == "```" + pad;
    }
    if gap :| Spaces(gap) && line == "```" + gap {
      TailAfterTicks("```", gap);
      TrimStartBefore(gap, "");
      assert gap + "" == gap;
    }
  }

  predicate IsFenceOf(line: string, word: string, gap: string) {
    WordLength(word) == |word| && Spaces(gap) && line == "```" + (word + gap)
  }

  lemma FenceParts(line: string) returns (word: string, gap: string)
    requires IsFence(line)
    ensures IsFenceOf(line, word, gap)
  {
    var tail := line[3..];
    var n := WordLength(tail);
    word := tail[..n];
    WordPrefix(tail);
    var text;
    gap, text := SplitSpaces(tail[n..]);
    assert line[3 + n..] == tail[n..];
    assert tail == word + gap && line == "```" + tail;
  }

  /** An opening fence is three backquotes, a word or none, and white space. */
  lemma FenceIff(line: string)
    ensures IsFence(line) <==> exists word, gap :: IsFenceOf(line, word, gap)
  {
    if IsFence(line) {
      var word, gap := FenceParts(line);
      assert IsFenceOf(line, word, gap);
    }
    if word, gap :| IsFenceOf(line, word, gap) {
      FenceReads(word, gap);
    }
  }

  lemma BulletParts(line: string) returns (b: Bulleted)
    requires IsBullet(line)
    ensures IsBulleted(b) && line == Write(b)
  {
    var pad, text := SplitSpaces(line);
    var gap, item := SplitSpaces(text[1..]);
    b := Bulleted(pad, text[0] == '*', gap, item);
    StartsWithSpace(text[1..], gap, item);
    MarkApart(text);
  }

  lemma StartsWithSpace(s: string, gap: string, rest: string)
    requires s != "" && IsSpace(s[0]) && s == gap + rest && (rest != "" ==> !IsSpace(rest[0]))
    ensures gap != ""
  {
  }

  lemma MarkApart(text: string)
    requires text != "" && (text[0] == '-' || text[0] == '*')
    ensures text == Mark(text[0] == '*') + text[1..]
  {
  }

  /** A bullet is a line written with a dash or a star. */
  lemma BulletIff(line: string)
    ensures IsBullet(line) <==> exists b :: IsBulleted(b) && line == Write(b)
  {
    if IsBullet(line) {
      var b := BulletParts(line);
      assert IsBulleted(b) && line == Write(b);
    }
    if b :| IsBulleted(b) && line == Write(b) {
      BulletReads(b);
    }
  }
}
