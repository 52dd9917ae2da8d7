/** What a JSON string may hold (RFC 8259, section 7), against the reader of it. */
module JsonGrammar {
  import opened Outcomes
  import opened JsonStrings

  const LETTERS := "\"\\/bfnrt"
  const MEANINGS := "\"\\/\U{08}\U{0c}\n\r\t"
  const LOWER := "0123456789abcdef"
  const UPPER := "0123456789ABCDEF"

  /** A hexadecimal digit in either case. */
  datatype Hex = Hex(value: nat, upper: bool)

  /** The unescaped characters, the escapes of one letter, and the escapes of four digits. */
  datatype Piece = Raw(c: char) | Short(index: nat) | Long(a: Hex, b: Hex, c4: Hex, d: Hex)

  predicate ValidHex(h: Hex) {
    h.value < 16
  }

  function HexText(h: Hex): char
    requires ValidHex(h)
  {
    if h.upper then UPPER[h.value] else LOWER[h.value]
  }

  function LongCode(p: Piece): int
    requires p.Long?
  {
    ((p.a.value * 16 + p.b.value) * 16 + p.c4.value) * 16 + p.d.value
  }

  predicate ValidPiece(p: Piece) {
    match p
    case Raw(c) => c >= ' ' && c != '\"' && c != '\\'
    case Short(index) => index < 8
    case Long(a, b, c4, d) =>
      ValidHex(a) && ValidHex(b) && ValidHex(c4) && ValidHex(d) && (LongCode(p) < 0xD800 || 0xE000 <= LongCode(p) < 0x1_0000)
  }

  predicate ValidPieces(pieces: seq<Piece>) {
    forall i :: 0 <= i < |pieces| ==> ValidPiece(pieces[i])
  }

  function PieceText(p: Piece): string
    requires ValidPiece(p)
  {
    match p
    case Raw(c) => [c]
    case Short(index) => ['\\', LETTERS[index]]
    case Long(a, b, c4, d) => ['\\', 'u', HexText(a), HexText(b), HexText(c4), HexText(d)]
  }

  function PieceChar(p: Piece): char
    requires ValidPiece(p)
  {
    match p
    case Raw(c) => c
    case Short(index) => MEANINGS[index]
    case Long(_, _, _, _) => LongCode(p) as char
  }

  function TextOf(pieces: seq<Piece>): string
    requires ValidPieces(pieces)
  {
    if pieces == [] then "" else PieceText(pieces[0]) + TextOf(pieces[1..])
  }

  function CharsOf(pieces: seq<Piece>): string
    requires ValidPieces(pieces)
  {
    if pieces == [] then "" else [PieceChar(pieces[0])] + CharsOf(pieces[1..])
  }

  lemma HexIsRead(h: Hex)
    requires ValidHex(h)
    ensures HexValue(HexText(h)) == Some(h.value)
  {
    assert h.value < 10 ==> HexText(h) == '0' + h.value as char;
    assert h.value >= 10 && h.upper ==> HexText(h) == 'A' + (h.value - 10) as char;
    assert h.value >= 10 && !h.upper ==> HexText(h) == 'a' + (h.value - 10) as char;
  }

  lemma HexIsWritten(c: char) returns (h: Hex)
    requires HexValue(c).Some?
    ensures ValidHex(h) && HexText(h) == c && HexValue(c) == Some(h.value)
  {
    h := Hex(HexValue(c).value, 'A' <= c <= 'F');
    HexIsRead(h);
    assert h.value < 10 ==> HexText(h) == '0' + h.value as char;
    assert h.value >= 10 && h.upper ==> HexText(h) == 'A' + (h.value - 10) as char;
    assert h.value >= 10 && !h.upper ==> HexText(h) == 'a' + (h.value - 10) as char;
  }

  lemma LetterIsRead(index: nat)
    requires index < 8
    ensures Meant(LETTERS[index]) == Some(MEANINGS[index]) && LETTERS[index] != 'u'
  {
  }

  lemma LetterIsWritten(letter: char) returns (index: nat)
    requires Meant(letter).Some?
    ensures index < 8 && LETTERS[index] == letter && MEANINGS[index] == Meant(letter).value
  {
    index := match letter
      case '\"' => 0
      case '\\' => 1
      case '/' => 2
      case 'b' => 3
      case 'f' => 4
      case 'n' => 5
      case 'r' => 6
      case _ => 7;
  }

  lemma {:induction false} PieceIsRead(p: Piece, rest: string)
    requires ValidPiece(p)
    ensures Contents(PieceText(p) + rest) == Before(PieceChar(p), Contents(rest))
  {
    var s := PieceText(p) + rest;
    assert s[|PieceText(p)|..] == rest;
    match p
    case Raw(_) =>
    case Short(index) =>
      LetterIsRead(index);
    case Long(a, b, c4, d) =>
      HexIsRead(a);
      HexIsRead(b);
      HexIsRead(c4);
      HexIsRead(d);
      assert s[2..6] == [HexText(a), HexText(b), HexText(c4), HexText(d)];
      assert CodeOf(a.value, b.value, c4.value, d.value) == LongCode(p);
  }

  /** Every text of the grammar is read as the characters it stands for. */
  lemma {:induction false} GrammarIsRead(pieces: seq<Piece>)
    requires ValidPieces(pieces)
    ensures Contents(TextOf(pieces) + "\"") == Some(CharsOf(pieces))
  {
    if pieces != [] {
      GrammarIsRead(pieces[1..]);
      assert TextOf(pieces) + "\"" == PieceText(pieces[0]) + (TextOf(pieces[1..]) + "\"");
      PieceIsRead(pieces[0], TextOf(pieces[1..]) + "\"");
    }
  }

  lemma PieceIsFound(s: string) returns (p: Piece)
    requires Contents(s).Some? && s[0] != '\"'
    ensures ValidPiece(p) && |PieceText(p)| <= |s| && s[..|PieceText(p)|] == PieceText(p)
    ensures Contents(s[|PieceText(p)|..]).Some? && Contents(s) == Some([PieceChar(p)] + Contents(s[|PieceText(p)|..]).value)
  {
    if s[0] != '\\' {
      p := Raw(s[0]);
    } else if s[1] == 'u' {
      var a := HexIsWritten(s[2]);
      var b := HexIsWritten(s[3]);
      var c4 := HexIsWritten(s[4]);
      var d := HexIsWritten(s[5]);
      p := Long(a, b, c4, d);
      assert CodeOf(a.value, b.value, c4.value, d.value) == LongCode(p);
    } else {
      var index := LetterIsWritten(s[1]);
      p := Short(index);
    }
    assert s == s[..|PieceText(p)|] + s[|PieceText(p)|..];
    PieceIsRead(p, s[|PieceText(p)|..]);
  }

  /** Nothing else is read: what the reader accepts is a text of the grammar up to the closing quote, and is read as its characters. */
  lemma {:induction false} OnlyGrammarIsRead(s: string) returns (pieces: seq<Piece>)
    requires Contents(s).Some?
    ensures ValidPieces(pieces) && s == TextOf(pieces) + "\"" && Contents(s) == Some(CharsOf(pieces))
    decreases |s|
  {
    if s[0] == '\"' {
      return [];
    }
    var p := PieceIsFound(s);
    var n := |PieceText(p)|;
    var rest := OnlyGrammarIsRead(s[n..]);
    pieces := [p] + rest;
    assert pieces[1..] == rest && s == s[..n] + s[n..];
  }

  /** A text is read exactly when it is one of the grammar with its closing quote. */
  lemma {:induction false} ReadsExactlyTheGrammar(s: string, t: string)
    ensures Contents(s) == Some(t) <==> exists pieces :: ValidPieces(pieces) && s == TextOf(pieces) + "\"" && t == CharsOf(pieces)
  {
    if Contents(s) == Some(t) {
      var pieces := OnlyGrammarIsRead(s);
      assert ValidPieces(pieces) && s == TextOf(pieces) + "\"" && t == CharsOf(pieces);
    }
    forall pieces | ValidPieces(pieces) && s == TextOf(pieces) + "\"" && t == CharsOf(pieces) ensures Contents(s) == Some(t) {
      GrammarIsRead(pieces);
    }
  }

  /** How a character is written: the escape of one letter where there is one, though not for a slash, four lower-case digits for other
      control characters, and the character itself else. */
  lemma CharIsWritten(c: char)
    ensures (exists i :: 0 <= i < 8 && i != 2 && MEANINGS[i] == c) ==>
              exists i :: 0 <= i < 8 && i != 2 && MEANINGS[i] == c && EscapeChar(c) == ['\\', LETTERS[i]]
    ensures c < ' ' && c !in MEANINGS ==>
              exists a, b :: 0 <= a < 16 && 0 <= b < 16 && 16 * a + b == c as int && EscapeChar(c) == ['\\', 'u', '0', '0', LOWER[a], LOWER[b]]
    ensures c >= ' ' && c != '\"' && c != '\\' ==> EscapeChar(c) == [c]
  {
    assert MEANINGS[0] == '\"' && MEANINGS[1] == '\\' && MEANINGS[3] == '\U{08}' && MEANINGS[4] == '\U{0c}';
    assert MEANINGS[5] == '\n' && MEANINGS[6] == '\r' && MEANINGS[7] == '\t';
    if i :| 0 <= i < 8 && i != 2 && MEANINGS[i] == c {
      assert EscapeChar(c) == ['\\', LETTERS[i]];
    }
    if c < ' ' && c !in MEANINGS {
      var a, b := c as int / 16, c as int % 16;
      assert 16 * a + b == c as int && EscapeChar(c) == ['\\', 'u', '0', '0', LOWER[a], LOWER[b]];
    }
  }
}
