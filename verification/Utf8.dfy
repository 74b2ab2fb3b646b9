/** UTF-8 sequences as the line editor builds them and takes them apart. */
module Utf8 {
  import opened Bytes

  type char32 = c: int | 0 <= c < 0x1_0000_0000 witness 0

  const LAST_CODE_POINT := 0x10FFFF

  /** The bytes of one code point; none beyond the last code point. */
  function Encode(ch: char32): seq<byte> {
    if ch <= 0x7F then [ch]
    else if ch <= 0x7FF then [0xC0 + ch / 64 % 32, 0x80 + ch % 64]
    else if ch <= 0xFFFF then [0xE0 + ch / 4096 % 16, 0x80 + ch / 64 % 64, 0x80 + ch % 64]
    else if ch <= LAST_CODE_POINT then
      [0xF0 + ch / 262144 % 8, 0x80 + ch / 4096 % 64, 0x80 + ch / 64 % 64, 0x80 + ch % 64]
    else []
  }

  method AppendUtf8(ch: char32, text: seq<byte>) returns (r: seq<byte>)
    ensures r == text + Encode(ch)
  {
    r := text;
    if ch <= 0x7F {
      r := r + [ch];
    } else if ch <= 0x7FF {
      r := r + [0xC0 + ch / 64 % 32];
      r := r + [0x80 + ch % 64];
    } else if ch <= 0xFFFF {
      r := r + [0xE0 + ch / 4096 % 16];
      r := r + [0x80 + ch / 64 % 64];
      r := r + [0x80 + ch % 64];
    } else if ch <= LAST_CODE_POINT {
      r := r + [0xF0 + ch / 262144 % 8];
      r := r + [0x80 + ch / 4096 % 64];
      r := r + [0x80 + ch / 64 % 64];
      r := r + [0x80 + ch % 64];
    }
  }

  predicate Continuation(b: byte) { 0x80 <= b < 0xC0 }

  /** A sequence has one byte that starts it and at most three that continue it. */
  lemma EncodeShape(ch: char32)
    requires ch <= LAST_CODE_POINT
    ensures 1 <= |Encode(ch)| <= 4 && !Continuation(Encode(ch)[0])
    ensures forall i :: 0 < i < |Encode(ch)| ==> Continuation(Encode(ch)[i])
    ensures Encode(ch)[|Encode(ch)| - 1] == ch || (Encode(ch)[|Encode(ch)| - 1] >= 0x80 && ch >= 0x80)
  {
  }

  /** What a byte carries beyond its mark. */
  function Carried(b: byte, mark: int): int { b - mark }

  /** One byte carries a code point below 128; else the first byte says how many there are, and what they carry
      beyond their marks is the code point, six bits to a byte, the highest first. */
  lemma EncodeValue(ch: char32)
    requires ch <= LAST_CODE_POINT
    ensures var e := Encode(ch);
      && (ch < 0x80 ==> e == [ch])
      && (0x80 <= ch < 0x800 ==> |e| == 2 && Carried(e[0], 0xC0) * 64 + Carried(e[1], 0x80) == ch)
      && (0x800 <= ch < 0x10000 ==>
            |e| == 3 && (Carried(e[0], 0xE0) * 64 + Carried(e[1], 0x80)) * 64 + Carried(e[2], 0x80) == ch)
      && (0x10000 <= ch ==>
            |e| == 4 && ((Carried(e[0], 0xF0) * 64 + Carried(e[1], 0x80)) * 64 + Carried(e[2], 0x80)) * 64
                        + Carried(e[3], 0x80) == ch)
  {
    assert ch / 4096 == ch / 64 / 64 && ch / 262144 == ch / 64 / 64 / 64;
    assert ch == ch / 64 * 64 + ch % 64 && ch / 64 == ch / 64 / 64 * 64 + ch / 64 % 64;
  }

  /** Takes back up to the byte that starts the last character, four bytes at most. */
  method PopBackUtf8Char(line: seq<byte>) returns (r: seq<byte>)
    ensures r == Popped(line)
  {
    if line == [] {
      return line;
    }
    var pos := |line| - 1;
    var i := 0;
    while i < 3 && pos > 0
      invariant 0 <= i <= 3 && 0 <= pos < |line|
      invariant Start(line, pos, i) == Start(line, |line| - 1, 0)
    {
      if !Continuation(line[pos]) {
        break;
      }
      i := i + 1;
      pos := pos - 1;
    }
    return line[..pos];
  }

  function Start(line: seq<byte>, pos: nat, i: nat): (r: nat)
    requires pos < |line| && i <= 3
    ensures r <= pos
    decreases pos
  {
    if i < 3 && pos > 0 && Continuation(line[pos]) then Start(line, pos - 1, i + 1) else pos
  }

  function Popped(line: seq<byte>): seq<byte> {
    if line == [] then [] else line[..Start(line, |line| - 1, 0)]
  }

  lemma {:induction false} StartIs(line: seq<byte>, n: nat, pos: nat, i: nat)
    requires n <= pos < |line| && pos + i == |line| - 1 && i <= 3 && |line| - n <= 4
    requires !Continuation(line[n]) && forall j :: n < j <= pos ==> Continuation(line[j])
    ensures Start(line, pos, i) == n
    decreases pos
  {
    if n < pos { StartIs(line, n, pos - 1, i + 1); }
  }

  /** What is taken back is exactly the last character, whatever is in front of it. */
  lemma PoppedIs(text: seq<byte>, ch: char32)
    requires ch <= LAST_CODE_POINT
    ensures Popped(text + Encode(ch)) == text
  {
    EncodeShape(ch);
    var line := text + Encode(ch);
    forall j | |text| <= j < |line| ensures line[j] == Encode(ch)[j - |text|] {
    }
    StartIs(line, |text|, |line| - 1, 0);
    assert line[..|text|] == text;
  }

  /** Beyond the last code point nothing is put, and taking it back takes the character before it. */
  lemma PoppedIffCodePoint(text: seq<byte>, ch: char32)
    requires text != []
    ensures Popped(text + Encode(ch)) == text <==> ch <= LAST_CODE_POINT
  {
    if ch <= LAST_CODE_POINT {
      PoppedIs(text, ch);
    } else {
      assert text + Encode(ch) == text;
      assert |Popped(text)| < |text|;
    }
  }
}
