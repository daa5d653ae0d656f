/**
 The build log: chunks are cut at newlines so that redaction sees whole lines, and the file is capped.
 */
module BuildLog {

  const MAX_BUILD_LOG_BYTES: nat := 16 * 1024 * 1024
  const MAX_PENDING: nat := 65536
  const KEEP: nat := 512

  type Byte = x: int | 0 <= x < 256

  /** A UTF-16 code unit: what the length and the positions of a JavaScript string count. */
  type CodeUnit = x: int | 0 <= x < 0x10000

  type Text = seq<CodeUnit>

  const NEWLINE: CodeUnit := 10
  const LETTER: CodeUnit := 120
  const LONG_LINE: nat := 65536

  /** Redaction followed by UTF-8 encoding, whatever it does to the text. */
  type Redactor = Text -> seq<Byte>

  // ---------------------------------------------------------------- the file, given the pieces handed to it

  /** All bytes the pieces would produce without a cap. An empty piece is never redacted. */
  function Encoded(redact: Redactor, pieces: seq<Text>): seq<Byte> {
    if pieces == [] then [] else
    Encoded(redact, pieces[..|pieces| - 1]) + EncodedPiece(redact, pieces[|pieces| - 1])
  }

  function EncodedPiece(redact: Redactor, piece: Text): seq<Byte> {
    if piece == [] then [] else redact(piece)
  }

  function Cap(bytes: seq<Byte>): seq<Byte> {
    if |bytes| <= MAX_BUILD_LOG_BYTES then bytes else bytes[..MAX_BUILD_LOG_BYTES]
  }

  /** Some piece starts below the limit and ends above it. */
  ghost predicate Straddles(redact: Redactor, pieces: seq<Text>) {
    exists k :: 0 <= k < |pieces| && CutAt(redact, pieces, k)
  }

  predicate CutAt(redact: Redactor, pieces: seq<Text>, k: nat)
    requires k < |pieces|
  {
    |Encoded(redact, pieces[..k])| < MAX_BUILD_LOG_BYTES < |Encoded(redact, pieces[..k + 1])|
  }

  function Concat(pieces: seq<Text>): Text {
    if pieces == [] then [] else Concat(pieces[..|pieces| - 1]) + pieces[|pieces| - 1]
  }

  lemma EncodedPush(redact: Redactor, pieces: seq<Text>, piece: Text)
    ensures Encoded(redact, pieces + [piece]) == Encoded(redact, pieces) + EncodedPiece(redact, piece)
  {
    assert (pieces + [piece])[..|pieces|] == pieces;
  }

  lemma CapPush(bytes: seq<Byte>, more: seq<Byte>)
    ensures |bytes| >= MAX_BUILD_LOG_BYTES ==> Cap(bytes + more) == Cap(bytes)
    ensures |bytes| < MAX_BUILD_LOG_BYTES ==>
              var remaining := MAX_BUILD_LOG_BYTES - |bytes|;
              Cap(bytes + more) == bytes + if |more| <= remaining then more else more[..remaining]
  {
  }

  /** Handing over one more piece: the marker condition becomes true exactly if this piece is cut. */
  lemma StraddlesPush(redact: Redactor, pieces: seq<Text>, piece: Text)
    ensures Straddles(redact, pieces + [piece])
       <==> Straddles(redact, pieces)
            || |Encoded(redact, pieces)| < MAX_BUILD_LOG_BYTES < |Encoded(redact, pieces + [piece])|
  {
    var more := pieces + [piece];
    forall k | 0 <= k < |pieces| ensures CutAt(redact, more, k) <==> CutAt(redact, pieces, k) {
      assert more[..k] == pieces[..k] && more[..k + 1] == pieces[..k + 1];
    }
    assert more[..|pieces|] == pieces && more[..|more|] == more;
    assert CutAt(redact, more, |pieces|) <==> |Encoded(redact, pieces)| < MAX_BUILD_LOG_BYTES < |Encoded(redact, more)|;
  }

  lemma {:induction false} EncodedGrows(redact: Redactor, pieces: seq<Text>, k: nat)
    requires k <= |pieces|
    ensures |Encoded(redact, pieces[..k])| <= |Encoded(redact, pieces)|
  {
    if k == |pieces| {
      assert pieces[..k] == pieces;
    } else {
      var n := |pieces| - 1;
      EncodedGrows(redact, pieces[..n], k);
      assert pieces[..n][..k] == pieces[..k];
    }
  }

  /**
   When the truncation marker is missing: bytes are lost exactly when the total exceeds the limit, and
   they are lost without a marker exactly when, in addition, some prefix of the pieces fills it to the
   byte.
   */
  lemma SilentLossIff(redact: Redactor, pieces: seq<Text>)
    requires |Encoded(redact, pieces)| > MAX_BUILD_LOG_BYTES
    ensures !Straddles(redact, pieces) <==> exists k :: 0 <= k <= |pieces| && FillsExactly(redact, pieces, k)
  {
    if k :| 0 <= k <= |pieces| && FillsExactly(redact, pieces, k) {
      forall j | 0 <= j < |pieces| ensures !CutAt(redact, pieces, j) {
        PrefixGrows(redact, pieces, if j < k then j + 1 else k, if j < k then k else j);
      }
    } else {
      var k := FirstAbove(redact, pieces);
      assert !FillsExactly(redact, pieces, k);
      assert CutAt(redact, pieces, k);
    }
  }

  predicate FillsExactly(redact: Redactor, pieces: seq<Text>, k: nat)
    requires k <= |pieces|
  {
    |Encoded(redact, pieces[..k])| == MAX_BUILD_LOG_BYTES
  }

  lemma PrefixGrows(redact: Redactor, pieces: seq<Text>, j: nat, k: nat)
    requires j <= k <= |pieces|
    ensures |Encoded(redact, pieces[..j])| <= |Encoded(redact, pieces[..k])|
  {
    EncodedGrows(redact, pieces[..k], j);
    assert pieces[..k][..j] == pieces[..j];
  }

  /** The piece with which the total first exceeds the limit. */
  lemma {:induction false} FirstAbove(redact: Redactor, pieces: seq<Text>) returns (k: nat)
    requires |Encoded(redact, pieces)| > MAX_BUILD_LOG_BYTES
    ensures k < |pieces| && |Encoded(redact, pieces[..k])| <= MAX_BUILD_LOG_BYTES < |Encoded(redact, pieces[..k + 1])|
  {
    var n := |pieces| - 1;
    if |Encoded(redact, pieces[..n])| <= MAX_BUILD_LOG_BYTES {
      k := n;
      assert pieces[..n + 1] == pieces;
    } else {
      k := FirstAbove(redact, pieces[..n]);
      assert pieces[..n][..k] == pieces[..k] && pieces[..n][..k + 1] == pieces[..k + 1];
    }
  }

  /** A line of 65,536 code units, 65,535 letters and the newline: what a pipe delivers in one chunk. */
  function LongLine(): Text { seq(LONG_LINE - 1, i => LETTER) + [NEWLINE] }

  function Repeated(piece: Text, n: nat): (r: seq<Text>)
    ensures |r| == n
  {
    if n == 0 then [] else Repeated(piece, n - 1) + [piece]
  }

  lemma {:induction false} RepeatedPrefix(piece: Text, n: nat, k: nat)
    requires k <= n
    ensures Repeated(piece, n)[..k] == Repeated(piece, k)
  {
    if n == k {
    } else {
      RepeatedPrefix(piece, n - 1, k);
    }
  }

  lemma {:induction false} EncodedRepeated(redact: Redactor, piece: Text, n: nat)
    requires piece != [] && |redact(piece)| == LONG_LINE
    ensures |Encoded(redact, Repeated(piece, n))| == LONG_LINE * n
  {
    if n == 0 {
    } else {
      EncodedRepeated(redact, piece, n - 1);
      assert Repeated(piece, n)[..n - 1] == Repeated(piece, n - 1);
    }
  }

  /**
   There are such logs: 257 long lines, with any redactor that leaves such a line as it is. The first 256
   fill the limit to the byte, and the last is lost without a marker.
   */
  lemma SilentLossExample(redact: Redactor)
    requires redact(LongLine()) == LongLine()
    ensures var pieces := Repeated(LongLine(), 257);
      && |Encoded(redact, pieces)| == MAX_BUILD_LOG_BYTES + LONG_LINE
      && FillsExactly(redact, pieces, 256) && !Straddles(redact, pieces)
  {
    var pieces := Repeated(LongLine(), 257);
    EncodedRepeated(redact, LongLine(), 256);
    EncodedRepeated(redact, LongLine(), 257);
    RepeatedPrefix(LongLine(), 257, 256);
    assert FillsExactly(redact, pieces, 256);
    SilentLossIff(redact, pieces);
  }

  // ---------------------------------------------------------------- the pipeline

  /** Position `k` ends the last line of the text. */
  predicate EndsLastLine(text: Text, k: nat) {
    k < |text| && text[k] == NEWLINE && forall i :: k < i < |text| ==> text[i] != NEWLINE
  }

  /** What becomes of the unfinished line: it is held back whole, or, once too long, all but its end is handed over. */
  predicate HoldsBack(line: Text, was: seq<Text>, now: seq<Text>, pending: Text) {
    if |line| <= MAX_PENDING then now == was && pending == line
    else now == was + [line[..|line| - KEEP]] && pending == line[|line| - KEEP..]
  }

  class LogPipeline {
    const redact: Redactor
    var logBytes: nat
    var logTruncated: bool
    var pendingLogText: Text
    /** The texts handed to writeRedactedLog so far, and all text received. */
    ghost var pieces: seq<Text>
    ghost var received: Text
    /** The log file before the marker, and how often the marker was written. */
    ghost var file: seq<Byte>
    ghost var markers: nat

    /**
     Nothing received is lost or reordered before redaction; the file is the capped encoding; the
     marker is written once if a piece was cut, and otherwise not.
     */
    ghost predicate Valid()
      reads this
    {
      && Concat(pieces) + pendingLogText == received
      && file == Cap(Encoded(redact, pieces)) && logBytes == |file|
      && logTruncated == Straddles(redact, pieces)
      && markers == if logTruncated then 1 else 0
    }

    constructor (redact: Redactor)
      ensures Valid() && received == [] && pendingLogText == [] && this.redact == redact
    {
      this.redact := redact;
      logBytes, logTruncated, pendingLogText := 0, false, [];
      pieces, received, file, markers := [], [], [], 0;
    }

    /** writeRedactedLog, without the back-pressure on the child's streams. */
    method WriteRedactedLog(text: Text)
      requires file == Cap(Encoded(redact, pieces)) && logBytes == |file|
      requires logTruncated == Straddles(redact, pieces) && markers == if logTruncated then 1 else 0
      modifies this`logBytes, this`logTruncated, this`pieces, this`file, this`markers
      ensures pieces == old(pieces) + [text]
      ensures file == Cap(Encoded(redact, pieces)) && logBytes == |file|
      ensures logTruncated == Straddles(redact, pieces) && markers == if logTruncated then 1 else 0
    {
      StraddlesPush(redact, pieces, text);
      EncodedPush(redact, pieces, text);
      CapPush(Encoded(redact, pieces), EncodedPiece(redact, text));
      pieces := pieces + [text];
      if logBytes >= MAX_BUILD_LOG_BYTES || text == [] {
        return;
      }
      var encoded := redact(text);
      var remaining := MAX_BUILD_LOG_BYTES - logBytes;
      var output := if |encoded| <= remaining then encoded else encoded[..remaining];
      logBytes := logBytes + |output|;
      file := file + output;
      if |output| < |encoded| && !logTruncated {
        logTruncated := true;
        markers := markers + 1;
      }
    }

    method LastNewline(text: Text) returns (r: int)
      ensures -1 <= r < |text|
      ensures r >= 0 ==> text[r] == NEWLINE
      ensures forall i :: r < i < |text| ==> text[i] != NEWLINE
    {
      r := |text| - 1;
      while r >= 0 && text[r] != NEWLINE
        invariant -1 <= r < |text|
        invariant forall i :: r < i < |text| ==> text[i] != NEWLINE
      {
        r := r - 1;
      }
    }

    /** Hands the first `n` characters of the pending text over. */
    method HandOver(n: nat)
      requires Valid() && n <= |pendingLogText|
      modifies this
      ensures Valid() && received == old(received)
      ensures pendingLogText == old(pendingLogText)[n..]
      ensures pieces == old(pieces) + [old(pendingLogText)[..n]]
    {
      assert pendingLogText == pendingLogText[..n] + pendingLogText[n..];
      WriteRedactedLog(pendingLogText[..n]);
      pendingLogText := pendingLogText[n..];
    }

    /** Takes the chunk in, with nothing handed over yet. */
    method Receive(chunk: Text)
      requires Valid()
      modifies this`pendingLogText, this`received
      ensures Valid() && received == old(received) + chunk && pendingLogText == old(pendingLogText) + chunk
    {
      assert Concat(pieces) + (pendingLogText + chunk) == (Concat(pieces) + pendingLogText) + chunk;
      pendingLogText := pendingLogText + chunk;
      received := received + chunk;
    }

    /** Hands the pending text over up to its last newline. */
    method HandOverLines()
      requires Valid()
      modifies this
      ensures Valid() && received == old(received)
      ensures NEWLINE !in pendingLogText
      ensures NEWLINE !in old(pendingLogText) ==> pieces == old(pieces) && pendingLogText == old(pendingLogText)
      ensures forall k :: EndsLastLine(old(pendingLogText), k) ==>
                pieces == old(pieces) + [old(pendingLogText)[..k + 1]] && pendingLogText == old(pendingLogText)[k + 1..]
    {
      ghost var was := pendingLogText;
      var lastNewline := LastNewline(pendingLogText);
      if lastNewline >= 0 {
        HandOver(lastNewline + 1);
        forall k | EndsLastLine(was, k) ensures k == lastNewline {}
      }
    }

    /** Hands an unfinished line over that has become too long, except for its end. */
    method HandOverLongLine()
      requires Valid() && NEWLINE !in pendingLogText
      modifies this
      ensures Valid() && received == old(received)
      ensures NEWLINE !in pendingLogText && |pendingLogText| <= MAX_PENDING
      ensures HoldsBack(old(pendingLogText), old(pieces), pieces, pendingLogText)
    {
      if |pendingLogText| > MAX_PENDING {
        HandOver(|pendingLogText| - KEEP);
      }
    }

    /**
     appendLog. Whole lines are handed over in one piece, an unfinished line is held back while it is not
     too long, and of a longer one the last 512 units stay.
     */
    method AppendLog(chunk: Text)
      requires Valid()
      modifies this
      ensures Valid() && received == old(received) + chunk
      ensures NEWLINE !in pendingLogText && |pendingLogText| <= MAX_PENDING
      ensures var all := old(pendingLogText) + chunk;
        NEWLINE !in all ==> HoldsBack(all, old(pieces), pieces, pendingLogText)
      ensures var all := old(pendingLogText) + chunk;
        forall k :: EndsLastLine(all, k) ==> HoldsBack(all[k + 1..], old(pieces) + [all[..k + 1]], pieces, pendingLogText)
      ensures chunk != [] && chunk[|chunk| - 1] == NEWLINE ==>
                pendingLogText == [] && pieces == old(pieces) + [old(pendingLogText) + chunk]
    {
      ghost var all := pendingLogText + chunk;
      Receive(chunk);
      HandOverLines();
      HandOverLongLine();
      if chunk != [] && chunk[|chunk| - 1] == NEWLINE {
        assert EndsLastLine(all, |all| - 1);
        assert all[..|all| - 1 + 1] == all && all[|all| - 1 + 1..] == [];
      }
    }

    /** What finish does with the rest: everything received has been handed over. */
    method Flush()
      requires Valid()
      modifies this
      ensures Valid() && received == old(received)
      ensures pendingLogText == [] && Concat(pieces) == received
    {
      HandOver(|pendingLogText|);
      assert Concat(pieces) + [] == Concat(pieces);
    }
  }
}
