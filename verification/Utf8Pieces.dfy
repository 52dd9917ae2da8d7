/** The pieces a transcript is decoded in, against the encoding itself (section 3 of RFC 3629). */
module Utf8Pieces {
  import opened SyncCursors

  /** The characters there are: no surrogates, nothing beyond the last plane. */
  predicate Scalar(c: int) {
    0 <= c < 0xD800 || 0xE000 <= c < 0x110000
  }

  function Encode(c: int): (bytes: seq<Byte>)
    requires Scalar(c)
    ensures 1 <= |bytes| <= 4
  {
    if c < 0x80 then [c]
    else if c < 0x800 then [0xC0 + c / 64, 0x80 + c % 64]
    else if c < 0x1_0000 then [0xE0 + c / 4096, 0x80 + c / 64 % 64, 0x80 + c % 64]
    else [0xF0 + c / 262144, 0x80 + c / 4096 % 64, 0x80 + c / 64 % 64, 0x80 + c % 64]
  }

  /** The first bytes of some character, or all of them. */
  ghost predicate StartsCharacter(bytes: seq<Byte>) {
    exists c :: Scalar(c) && bytes <= Encode(c)
  }

  lemma CharacterFits(c: int)
    requires Scalar(c)
    ensures |Encode(c)| == 1 ==> Encode(c)[0] < 0x80
    ensures |Encode(c)| > 1 ==> Needed(Encode(c)[0]) == |Encode(c)| - 1
    ensures forall i :: 0 < i < |Encode(c)| ==> Continues(Encode(c)[0], i - 1, Encode(c)[i])
  {
  }

  lemma {:induction false} FitsAsFar(bytes: seq<Byte>, c: int, n: nat, index: nat)
    requires Scalar(c) && 0 < n <= |bytes| && bytes[..n] <= Encode(c) && index < n
    ensures n - 1 <= Fitting(bytes, index)
    decreases n - index
  {
    CharacterFits(c);
    assert bytes[..n][0] == bytes[0] == Encode(c)[0];
    if index + 1 < n {
      assert bytes[..n][index + 1] == bytes[index + 1];
      FitsAsFar(bytes, c, n, index + 1);
    } else {
      FittingBounds(bytes, index);
    }
  }

  lemma {:induction false} FittingContinues(bytes: seq<Byte>, index: nat)
    requires bytes != [] && index <= Needed(bytes[0]) && index < |bytes|
    ensures index <= Fitting(bytes, index) <= Needed(bytes[0]) && Fitting(bytes, index) < |bytes|
    ensures forall i :: index < i <= Fitting(bytes, index) ==> Continues(bytes[0], i - 1, bytes[i])
    decreases Needed(bytes[0]) - index
  {
    if index < Needed(bytes[0]) && index + 1 < |bytes| && Continues(bytes[0], index, bytes[index + 1]) {
      FittingContinues(bytes, index + 1);
    }
  }

  /** The least byte that may follow at a place. */
  function Least(lead: Byte, index: nat): Byte {
    if index > 0 then 0x80 else if lead == 0xE0 then 0xA0 else if lead == 0xF0 then 0x90 else 0x80
  }

  lemma TwoBytes(b0: Byte, b1: Byte) returns (c: int)
    requires Needed(b0) == 1 && Continues(b0, 0, b1)
    ensures Scalar(c) && Encode(c) == [b0, b1]
  {
    c := (b0 - 0xC0) * 64 + (b1 - 0x80);
  }

  lemma ThreeBytes(b0: Byte, b1: Byte, b2: Byte) returns (c: int)
    requires Needed(b0) == 2 && Continues(b0, 0, b1) && Continues(b0, 1, b2)
    ensures Scalar(c) && Encode(c) == [b0, b1, b2]
  {
    c := (b0 - 0xE0) * 4096 + (b1 - 0x80) * 64 + (b2 - 0x80);
    assert c / 64 == (b0 - 0xE0) * 64 + (b1 - 0x80);
  }

  lemma FourBytes(b0: Byte, b1: Byte, b2: Byte, b3: Byte) returns (c: int)
    requires Needed(b0) == 3 && Continues(b0, 0, b1) && Continues(b0, 1, b2) && Continues(b0, 2, b3)
    ensures Scalar(c) && Encode(c) == [b0, b1, b2, b3]
  {
    c := (b0 - 0xF0) * 262144 + (b1 - 0x80) * 4096 + (b2 - 0x80) * 64 + (b3 - 0x80);
    assert c / 64 == (b0 - 0xF0) * 4096 + (b1 - 0x80) * 64 + (b2 - 0x80);
    assert c / 4096 == (b0 - 0xF0) * 64 + (b1 - 0x80);
  }

  /** Bytes that fit so far can be gone on with, to the character with the least bytes in the missing places. */
  lemma CanBeCompleted(bytes: seq<Byte>) returns (c: int)
    requires bytes != [] && (bytes[0] < 0x80 || Needed(bytes[0]) > 0)
    ensures PieceSize(bytes) <= |bytes| && Scalar(c) && bytes[..PieceSize(bytes)] <= Encode(c)
    ensures PieceIsWhole(bytes) ==> bytes[..PieceSize(bytes)] == Encode(c)
  {
    FittingBounds(bytes, 0);
    if bytes[0] < 0x80 {
      return bytes[0];
    }
    FittingContinues(bytes, 0);
    var n := PieceSize(bytes);
    var b1 := if n > 1 then bytes[1] else Least(bytes[0], 0);
    if Needed(bytes[0]) == 1 {
      c := TwoBytes(bytes[0], b1);
      return;
    }
    var b2 := if n > 2 then bytes[2] else Least(bytes[0], 1);
    if Needed(bytes[0]) == 2 {
      c := ThreeBytes(bytes[0], b1, b2);
      return;
    }
    var b3 := if n > 3 then bytes[3] else Least(bytes[0], 2);
    c := FourBytes(bytes[0], b1, b2, b3);
  }

  /** Decoding takes as many bytes as start a character, as far as they go, and one if they start none. */
  lemma PieceIsMaximal(bytes: seq<Byte>)
    requires bytes != []
    ensures 1 <= PieceSize(bytes) <= |bytes|
    ensures PieceSize(bytes) > 1 ==> StartsCharacter(bytes[..PieceSize(bytes)])
    ensures forall n :: PieceSize(bytes) < n <= |bytes| ==> !StartsCharacter(bytes[..n])
  {
    FittingBounds(bytes, 0);
    if Needed(bytes[0]) > 0 {
      var _ := CanBeCompleted(bytes);
    }
    forall n | PieceSize(bytes) < n <= |bytes| ensures !StartsCharacter(bytes[..n]) {
      if StartsCharacter(bytes[..n]) {
        var c :| Scalar(c) && bytes[..n] <= Encode(c);
        FitsAsFar(bytes, c, n, 0);
      }
    }
  }

  /** A piece is whole exactly when the bytes begin with a whole character, and then it is that character. */
  lemma WholePieceIsCharacter(bytes: seq<Byte>)
    requires bytes != []
    ensures PieceIsWhole(bytes) <==> exists c :: Scalar(c) && Encode(c) <= bytes
    ensures forall c :: Scalar(c) && Encode(c) <= bytes ==> PieceSize(bytes) == |Encode(c)|
  {
    if PieceIsWhole(bytes) {
      FittingBounds(bytes, 0);
      var c := CanBeCompleted(bytes);
      assert Encode(c) <= bytes;
    }
    forall c | Scalar(c) && Encode(c) <= bytes ensures PieceIsWhole(bytes) && PieceSize(bytes) == |Encode(c)| {
      assert bytes[..|Encode(c)|] == Encode(c);
      FitsAsFar(bytes, c, |Encode(c)|, 0);
      CharacterFits(c);
      FittingBounds(bytes, 0);
    }
  }

  function Encoded(text: seq<int>): seq<Byte>
    requires forall i :: 0 <= i < |text| ==> Scalar(text[i])
  {
    if text == [] then [] else Encode(text[0]) + Encoded(text[1..])
  }

  /** Encoded text decodes whole. */
  lemma {:induction false} EncodedTextIsValid(text: seq<int>)
    requires forall i :: 0 <= i < |text| ==> Scalar(text[i])
    ensures ValidUtf8(Encoded(text))
  {
    if text != [] {
      var bytes := Encoded(text);
      assert Encode(text[0]) <= bytes;
      WholePieceIsCharacter(bytes);
      assert bytes[PieceSize(bytes)..] == Encoded(text[1..]);
      EncodedTextIsValid(text[1..]);
    }
  }

  /** Bytes are valid exactly when they are the encoding of some text. */
  lemma {:induction false} ValidIsEncodedText(bytes: seq<Byte>) returns (text: seq<int>)
    requires ValidUtf8(bytes)
    ensures forall i :: 0 <= i < |text| ==> Scalar(text[i])
    ensures Encoded(text) == bytes
    decreases |bytes|
  {
    if bytes == [] {
      return [];
    }
    var c := CanBeCompleted(bytes);
    var n := PieceSize(bytes);
    var rest := ValidIsEncodedText(bytes[n..]);
    assert bytes == bytes[..n] + bytes[n..];
    text := [c] + rest;
    assert text[1..] == rest;
  }
}
