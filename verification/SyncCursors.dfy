/** How far a transcript has been absorbed: byte counts, line counts, and the first cursor of a transcript found mid-life. */
module SyncCursors {
  import opened Outcomes

  type Byte = b: int | 0 <= b < 256

  const NEWLINE: Byte := 10

  datatype Cursor = Cursor(size: nat, line: nat, prefixHash: string)

  // ---- Lines --------------------------------------------------------------------------------------

  function Newlines(content: seq<Byte>): nat {
    if content == [] then 0 else Newlines(content[..|content| - 1]) + if content[|content| - 1] == NEWLINE then 1 else 0
  }

  predicate EndsLine(content: seq<Byte>) {
    content == [] || content[|content| - 1] == NEWLINE
  }

  /** `countLines`: an unfinished last line counts. */
  function CountLines(content: seq<Byte>): nat {
    Newlines(content) + if EndsLine(content) then 0 else 1
  }

  lemma {:induction false} NewlinesAppend(a: seq<Byte>, b: seq<Byte>)
    ensures Newlines(a + b) == Newlines(a) + Newlines(b)
  {
    if b == [] {
      assert a + b == a;
    } else {
      assert (a + b)[..|a + b| - 1] == a + b[..|b| - 1];
      NewlinesAppend(a, b[..|b| - 1]);
    }
  }

  lemma LinesAfterWholeLines(a: seq<Byte>, b: seq<Byte>)
    requires EndsLine(a)
    ensures CountLines(a + b) == CountLines(a) + CountLines(b)
  {
    NewlinesAppend(a, b);
    if b == [] {
      assert a + b == a;
    }
  }

  /** The number of the line that holds a byte. */
  function LineOf(content: seq<Byte>, index: nat): nat
    requires index < |content|
  {
    Newlines(content[..index]) + 1
  }

  /** The first line handed to a job holds the first new byte exactly when the absorbed prefix ended a line; otherwise the
      rest of the unfinished line is passed over. */
  lemma FromLineIsExact(content: seq<Byte>, size: nat)
    requires size < |content|
    ensures CountLines(content[..size]) + 1 == LineOf(content, size) + if EndsLine(content[..size]) then 0 else 1
    ensures EndsLine(content[..size]) ==> CountLines(content) == CountLines(content[..size]) + CountLines(content[size..])
  {
    if EndsLine(content[..size]) {
      assert content == content[..size] + content[size..];
      LinesAfterWholeLines(content[..size], content[size..]);
    }
  }

  /** Whether the line range a job gets, when a prefix is absorbed already, covers the line of a byte. */
  predicate IsOffered(content: seq<Byte>, absorbed: nat, byte: nat)
    requires absorbed <= |content| && byte < |content|
  {
    CountLines(content[..absorbed]) + 1 <= LineOf(content, byte) <= CountLines(content)
  }

  lemma NewlinesOfPrefix(content: seq<Byte>, a: nat, b: nat)
    requires a <= b <= |content|
    ensures Newlines(content[..a]) <= Newlines(content[..b])
  {
    assert content[..b] == content[..a] + content[a..b];
    NewlinesAppend(content[..a], content[a..b]);
  }

  lemma LinesOfPrefix(content: seq<Byte>, a: nat, b: nat)
    requires a <= b <= |content|
    ensures CountLines(content[..a]) <= CountLines(content[..b])
  {
    NewlinesOfPrefix(content, a, b);
    if !EndsLine(content[..a]) && EndsLine(content[..b]) {
      assert content[..b] == content[..b - 1] + [NEWLINE];
      NewlinesOfPrefix(content, a, b - 1);
      assert content[..b][..b - 1] == content[..b - 1];
    }
  }

  lemma LineIsCounted(content: seq<Byte>, byte: nat)
    requires byte < |content|
    ensures LineOf(content, byte) <= CountLines(content)
  {
    assert content[..|content|] == content && content[..byte + 1][..byte] == content[..byte];
    LinesOfPrefix(content, byte + 1, |content|);
  }

  /** The new bytes on the line where the absorbed prefix stops are in the range of the next job if and only if the prefix ended a
      line; and if it did not, they are in the range of no job that is started once they are there. */
  lemma UnfinishedLineIsLost(content: seq<Byte>, absorbed: nat, byte: nat)
    requires absorbed <= byte < |content| && LineOf(content, byte) == LineOf(content, absorbed)
    ensures IsOffered(content, absorbed, byte) <==> EndsLine(content[..absorbed])
    ensures !EndsLine(content[..absorbed]) ==> forall later :: absorbed <= later <= |content| ==> !IsOffered(content, later, byte)
  {
    FromLineIsExact(content, absorbed);
    LineIsCounted(content, byte);
    forall later | absorbed <= later <= |content|
      ensures CountLines(content[..absorbed]) <= CountLines(content[..later])
    {
      LinesOfPrefix(content, absorbed, later);
    }
  }

  function LineLength(content: seq<Byte>): nat
    requires content != []
  {
    if content[0] == NEWLINE || |content| == 1 then 1 else 1 + LineLength(content[1..])
  }

  lemma {:induction false} LineLengthFits(content: seq<Byte>)
    requires content != []
    ensures 1 <= LineLength(content) <= |content|
    ensures var line := content[..LineLength(content)]; Newlines(line[..|line| - 1]) == 0
    ensures LineLength(content) < |content| ==> content[LineLength(content) - 1] == NEWLINE
  {
    if content[0] != NEWLINE && |content| > 1 {
      LineLengthFits(content[1..]);
      var n := LineLength(content[1..]);
      assert content[..n + 1][..n] == [content[0]] + content[1..][..n][..n - 1];
      NewlinesAppend([content[0]], content[1..][..n][..n - 1]);
      assert Newlines([content[0]]) == 0;
    }
  }

  /** The text cut after every newline. */
  function SplitLines(content: seq<Byte>): seq<seq<Byte>>
    decreases |content|
  {
    if content == [] then [] else
      var n := LineLength(content);
      if 1 <= n <= |content| then [content[..n]] + SplitLines(content[n..]) else [content]
  }

  function Joined(lines: seq<seq<Byte>>): seq<Byte> {
    if lines == [] then [] else lines[0] + Joined(lines[1..])
  }

  lemma JoinUnrolls(first: seq<Byte>, rest: seq<seq<Byte>>, k: nat)
    requires 0 < k <= 1 + |rest|
    ensures Joined(([first] + rest)[..k]) == first + Joined(rest[..k - 1])
  {
    var lines := ([first] + rest)[..k];
    assert lines[0] == first && lines[1..] == rest[..k - 1];
  }

  lemma {:induction false} SplitKeepsBytes(content: seq<Byte>, k: nat)
    requires k <= |SplitLines(content)|
    ensures |Joined(SplitLines(content)[..k])| <= |content|
    ensures Joined(SplitLines(content)[..k]) == content[..|Joined(SplitLines(content)[..k])|]
    ensures k == |SplitLines(content)| ==> Joined(SplitLines(content)[..k]) == content
    decreases |content|
  {
    if k > 0 {
      LineLengthFits(content);
      var first, rest := content[..LineLength(content)], content[LineLength(content)..];
      JoinUnrolls(first, SplitLines(rest), k);
      SplitKeepsBytes(rest, k - 1);
    }
  }

  lemma {:induction false} SplitCountsLines(content: seq<Byte>, k: nat)
    requires k <= |SplitLines(content)|
    ensures CountLines(Joined(SplitLines(content)[..k])) == k
    ensures k < |SplitLines(content)| ==> EndsLine(Joined(SplitLines(content)[..k]))
    decreases |content|
  {
    if k > 0 {
      LineLengthFits(content);
      var first, rest := content[..LineLength(content)], content[LineLength(content)..];
      JoinUnrolls(first, SplitLines(rest), k);
      var tail := Joined(SplitLines(rest)[..k - 1]);
      SplitCountsLines(rest, k - 1);
      OneLine(first);
      if rest == [] || tail == [] {
        assert first + tail == first;
      } else {
        LinesAfterWholeLines(first, tail);
      }
    }
  }

  lemma OneLine(line: seq<Byte>)
    requires line != [] && Newlines(line[..|line| - 1]) == 0
    ensures CountLines(line) == 1
  {
  }

  // ---- UTF-8 and back -----------------------------------------------------------------------------

  /** Continuation bytes a lead byte calls for; 0 for ASCII and for bytes that never lead (section 4 of RFC 3629). */
  function Needed(lead: Byte): nat {
    if 0xC2 <= lead <= 0xDF then 1 else if 0xE0 <= lead <= 0xEF then 2 else if 0xF0 <= lead <= 0xF4 then 3 else 0
  }

  predicate Continues(lead: Byte, index: nat, b: Byte) {
    && 0x80 <= b <= 0xBF
    && (index == 0 ==> (lead == 0xE0 ==> b >= 0xA0) && (lead == 0xED ==> b <= 0x9F)
                       && (lead == 0xF0 ==> b >= 0x90) && (lead == 0xF4 ==> b <= 0x8F))
  }

  /** How many of the bytes after the lead continue it. */
  function Fitting(bytes: seq<Byte>, index: nat): nat
    requires bytes != []
    decreases Needed(bytes[0]) - index
  {
    if index < Needed(bytes[0]) && index + 1 < |bytes| && Continues(bytes[0], index, bytes[index + 1])
    then Fitting(bytes, index + 1) else index
  }

  /** Decoding consumes a whole character or a maximal malformed piece, which becomes U+FFFD. */
  function PieceSize(bytes: seq<Byte>): nat
    requires bytes != []
  {
    1 + Fitting(bytes, 0)
  }

  predicate PieceIsWhole(bytes: seq<Byte>)
    requires bytes != []
  {
    bytes[0] < 0x80 || (Needed(bytes[0]) > 0 && Fitting(bytes, 0) == Needed(bytes[0]))
  }

  lemma {:induction false} FittingBounds(bytes: seq<Byte>, index: nat)
    requires bytes != [] && index <= Needed(bytes[0]) && index < |bytes|
    ensures index <= Fitting(bytes, index) <= Needed(bytes[0]) && Fitting(bytes, index) < |bytes|
    decreases Needed(bytes[0]) - index
  {
    if index < Needed(bytes[0]) && index + 1 < |bytes| && Continues(bytes[0], index, bytes[index + 1]) {
      FittingBounds(bytes, index + 1);
    }
  }

  /** Bytes that decoding and encoding again would take: a replacement character takes three. */
  function ReencodedLength(bytes: seq<Byte>): nat
    decreases |bytes|
  {
    if bytes == [] then 0 else
      var n := PieceSize(bytes);
      if n <= |bytes| then (if PieceIsWhole(bytes) then n else 3) + ReencodedLength(bytes[n..]) else 0
  }

  predicate ValidUtf8(bytes: seq<Byte>)
    decreases |bytes|
  {
    bytes == [] || (PieceIsWhole(bytes) && PieceSize(bytes) <= |bytes| && ValidUtf8(bytes[PieceSize(bytes)..]))
  }

  /** Every malformed piece happens to be as long as the character that replaces it. */
  predicate DamageKeepsLength(bytes: seq<Byte>)
    decreases |bytes|
  {
    bytes == [] || (PieceSize(bytes) <= |bytes| && (PieceIsWhole(bytes) || PieceSize(bytes) == 3)
                    && DamageKeepsLength(bytes[PieceSize(bytes)..]))
  }

  /** Re-encoding never shortens, and keeps the length exactly when all damage is three bytes long. */
  lemma {:induction false} ReencodingGrows(bytes: seq<Byte>)
    ensures ReencodedLength(bytes) >= |bytes|
    ensures ReencodedLength(bytes) == |bytes| <==> DamageKeepsLength(bytes)
    ensures ValidUtf8(bytes) ==> DamageKeepsLength(bytes)
    decreases |bytes|
  {
    if bytes != [] {
      FittingBounds(bytes, 0);
      ReencodingGrows(bytes[PieceSize(bytes)..]);
    }
  }

  lemma {:induction false} FittingStopsAtNewline(line: seq<Byte>, rest: seq<Byte>, index: nat)
    requires line != [] && line[|line| - 1] == NEWLINE && (index == 0 || index + 1 < |line|)
    ensures Fitting(line + rest, index) == Fitting(line, index)
    decreases |line| - index
  {
    var bytes := line + rest;
    assert bytes[0] == line[0];
    if index + 1 < |line| {
      assert bytes[index + 1] == line[index + 1];
      if index < Needed(bytes[0]) && Continues(bytes[0], index, bytes[index + 1]) {
        FittingStopsAtNewline(line, rest, index + 1);
      }
    }
  }

  /** No character and no malformed piece spans a newline, so lines may be cut before or after decoding. */
  lemma {:induction false} DecodingCutsAtNewlines(line: seq<Byte>, rest: seq<Byte>)
    requires EndsLine(line)
    ensures ReencodedLength(line + rest) == ReencodedLength(line) + ReencodedLength(rest)
    decreases |line|
  {
    if line == [] {
      assert line + rest == rest;
    } else {
      FittingStopsAtNewline(line, rest, 0);
      FittingBounds(line, 0);
      var n := PieceSize(line);
      assert (line + rest)[n..] == line[n..] + rest;
      DecodingCutsAtNewlines(line[n..], rest);
    }
  }

  // ---- The first cursor ---------------------------------------------------------------------------

  /** What the sweep knows of a transcript line: the timestamp in its JSON, if there is one. */
  predicate Reaches(line: seq<Byte>, since: int, stamp: seq<Byte> -> Option<int>) {
    stamp(line).Some? && stamp(line).value >= since
  }

  function ReencodedLines(lines: seq<seq<Byte>>): nat {
    if lines == [] then 0 else ReencodedLines(lines[..|lines| - 1]) + ReencodedLength(lines[|lines| - 1])
  }

  /** `content.subarray(0, size)`. */
  function Prefix(content: seq<Byte>, size: nat): seq<Byte> {
    if size <= |content| then content[..size] else content
  }

  /** What every first cursor keeps to: its hash is that of the bytes up to its size, as far as there are any. */
  predicate Computed(cursor: Cursor, content: seq<Byte>, sha: seq<Byte> -> string) {
    cursor.prefixHash == sha(Prefix(content, cursor.size))
  }

  /** The cursor of a transcript the ledger does not know: everything before the first line at or after `since`. */
  method InitialLedgerCursor(content: seq<Byte>, since: Option<int>, stamp: seq<Byte> -> Option<int>, sha: seq<Byte> -> string)
    returns (cursor: Cursor)
    ensures since.None? || content == [] ==> cursor == Cursor(0, 0, sha([]))
    ensures since.Some? && content != [] ==>
              var lines := SplitLines(content);
              && cursor.line <= |lines|
              && (forall i :: 0 <= i < cursor.line ==> stamp(lines[i]).Some? ==> stamp(lines[i]).value < since.value)
              && (cursor.line < |lines| ==> stamp(lines[cursor.line]).Some? && since.value <= stamp(lines[cursor.line]).value)
              && cursor.size == (if cursor.line < |lines| then ReencodedLines(lines[..cursor.line]) else |content|)
              && cursor.prefixHash == sha(Prefix(content, cursor.size))
    ensures Computed(cursor, content, sha)
  {
    assert Prefix(content, 0) == [];
    if since.None? || content == [] {
      return Cursor(0, 0, sha([]));
    }
    var lines := SplitLines(content);
    var offset, line := 0, 0;
    while line < |lines|
      invariant 0 <= line <= |lines|
      invariant forall i :: 0 <= i < line ==> !Reaches(lines[i], since.value, stamp)
      invariant offset == ReencodedLines(lines[..line])
    {
      if Reaches(lines[line], since.value, stamp) {
        assert content[..0] == [];
        return Cursor(offset, line, if offset == 0 then sha([]) else sha(Prefix(content, offset)));
      }
      assert lines[..line + 1][..line] == lines[..line];
      offset := offset + ReencodedLength(lines[line]);
      line := line + 1;
    }
    assert content[..|content|] == content;
    cursor := Cursor(|content|, line, sha(content));
  }

  /** A cursor tells the truth about the bytes and lines it claims to have absorbed. */
  predicate Describes(cursor: Cursor, content: seq<Byte>, sha: seq<Byte> -> string) {
    && cursor.size <= |content|
    && cursor.line == CountLines(content[..cursor.size])
    && cursor.prefixHash == sha(content[..cursor.size])
  }

  lemma {:induction false} ReencodedPrefix(content: seq<Byte>, k: nat)
    requires k < |SplitLines(content)|
    ensures ReencodedLines(SplitLines(content)[..k]) == ReencodedLength(Joined(SplitLines(content)[..k]))
  {
    var lines := SplitLines(content);
    if k > 0 {
      ReencodedPrefix(content, k - 1);
      SplitCountsLines(content, k - 1);
      assert lines[..k][..k - 1] == lines[..k - 1] && lines[..k] == lines[..k - 1] + [lines[k - 1]];
      JoinedAppend(lines[..k - 1], lines[k - 1]);
      DecodingCutsAtNewlines(Joined(lines[..k - 1]), lines[k - 1]);
    }
  }

  lemma {:induction false} JoinedAppend(lines: seq<seq<Byte>>, last: seq<Byte>)
    ensures Joined(lines + [last]) == Joined(lines) + last
  {
    if lines == [] {
      assert [last][1..] == [];
    } else {
      JoinedAppend(lines[1..], last);
      assert (lines + [last])[1..] == lines[1..] + [last];
    }
  }

  /** The computed cursor describes the bytes before the first recent line exactly when decoding those bytes and encoding
      them again keeps their length; valid UTF-8 always does. */
  lemma {:induction false} InitialCursorIsExact(content: seq<Byte>, k: nat, sha: seq<Byte> -> string)
    requires k < |SplitLines(content)|
    ensures var skipped := Joined(SplitLines(content)[..k]);
            var size := ReencodedLines(SplitLines(content)[..k]);
            && (Describes(Cursor(size, k, sha(Prefix(content, size))), content, sha) <==> DamageKeepsLength(skipped))
            && (ValidUtf8(skipped) ==> DamageKeepsLength(skipped))
  {
    var skipped := Joined(SplitLines(content)[..k]);
    var size := ReencodedLines(SplitLines(content)[..k]);
    ReencodedPrefix(content, k);
    ReencodingGrows(skipped);
    SplitKeepsBytes(content, k);
    SplitCountsLines(content, k);
    if |skipped| < size <= |content| {
      assert content[..size] == skipped + content[|skipped|..size];
      LinesAfterWholeLines(skipped, content[|skipped|..size]);
      SomeLines(content[|skipped|..size]);
    }
  }

  /** A line with one stray byte grows by two when it is decoded and encoded again, past the end of a short transcript. */
  lemma MalformedLineOvershoots()
    ensures var malformed: seq<Byte> := [128, 10]; ReencodedLength(malformed) == 4 && !DamageKeepsLength(malformed)
    ensures var content: seq<Byte> := [128, 10, 97];
            SplitLines(content) == [content[..2], content[2..]] && ReencodedLines(SplitLines(content)[..1]) == 4 > |content|
  {
    var malformed: seq<Byte>, content: seq<Byte> := [128, 10], [128, 10, 97];
    assert malformed[1..] == [10] && malformed[1..][1..] == [];
    assert content[..2] == malformed && content[2..] == [97] && content[1..] == [10, 97];
    var recent := content[2..];
    assert LineLength(recent) == 1 && recent[..1] == recent && recent[1..] == [] && SplitLines(recent) == [recent];
    var lines := SplitLines(content);
    var first := lines[..1];
    assert first == [malformed] && first[..|first| - 1] == [];
  }

  lemma SomeLines(content: seq<Byte>)
    requires content != []
    ensures CountLines(content) > 0
  {
  }

  /** Where every line is older, the cursor stands at the end and always describes the transcript. */
  lemma {:induction false} EndCursorIsExact(content: seq<Byte>, sha: seq<Byte> -> string)
    ensures Describes(Cursor(|content|, |SplitLines(content)|, sha(content)), content, sha)
  {
    SplitKeepsBytes(content, |SplitLines(content)|);
    SplitCountsLines(content, |SplitLines(content)|);
    assert content[..|content|] == content;
    assert SplitLines(content)[..|SplitLines(content)|] == SplitLines(content);
  }
}
