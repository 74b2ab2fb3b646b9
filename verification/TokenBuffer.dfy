/** The app's buffering of generated text: pieces are held back until what is held is whole characters. */
module TokenBuffer {
  import opened Bytes
  import opened Utf8

  // Whether a text is whole characters

  /** How many bytes the character has that starts with this byte; 0 where none does. */
  function Length(b: byte): nat {
    if b < 0x80 then 1
    else if 0xC0 <= b < 0xE0 then 2
    else if 0xE0 <= b < 0xF0 then 3
    else if 0xF0 <= b < 0xF8 then 4
    else 0
  }

  /** The first bytes are one whole character. */
  predicate StartsWhole(s: seq<byte>) {
    && s != [] && 1 <= Length(s[0]) <= |s|
    && forall i :: 1 <= i < Length(s[0]) ==> Continuation(s[i])
  }

  /** Nothing but whole characters. */
  predicate Whole(s: seq<byte>) {
    s == [] || (StartsWhole(s) && Whole(s[Length(s[0])..]))
  }

  /** No byte is the zero that ends a C string. */
  predicate NulFree(s: seq<byte>) { forall i :: 0 <= i < |s| ==> s[i] != 0 }

  /** A C string: what is in front of the first zero. */
  function CString(s: seq<byte>): (r: seq<byte>)
    ensures r <= s && NulFree(r) && (NulFree(s) ==> r == s) && (r != s ==> s[|r|] == 0)
  {
    if s == [] || s[0] == 0 then [] else [s[0]] + CString(s[1..])
  }

  /** The byte at p of a C string, whose end is a zero. */
  function ByteAt(s: seq<byte>, p: nat): byte
    requires p <= |s|
  {
    if p == |s| then 0 else s[p]
  }

  method IsValidUtf8(s: seq<byte>) returns (valid: bool)
    requires NulFree(s)
    ensures valid <==> Whole(s)
  {
    var p := 0;
    assert s[0..] == s;
    while ByteAt(s, p) != 0
      invariant p <= |s|
      invariant Whole(s) <==> Whole(s[p..])
      decreases |s| - p
    {
      var b := s[p];
      var num;
      if b < 0x80 {
        num := 1;
      } else if 0xC0 <= b < 0xE0 {
        num := 2;
      } else if 0xE0 <= b < 0xF0 {
        num := 3;
      } else if 0xF0 <= b < 0xF8 {
        num := 4;
      } else {
        return false;
      }
      ghost var start, rest := p, s[p..];
      assert rest[0] == b && num == Length(b);
      p := p + 1;
      var i := 1;
      while i < num
        invariant 1 <= i <= num && p == start + i && i <= |rest|
        invariant forall j :: 1 <= j < i ==> Continuation(rest[j])
      {
        assert p < |s| ==> rest[i] == s[p];
        if !Continuation(ByteAt(s, p)) {
          return false;
        }
        p := p + 1;
        i := i + 1;
      }
      assert rest[num..] == s[p..];
    }
    assert s[p..] == [];
    valid := true;
  }

  /** By its first byte a character has up to three continuations. */
  lemma WholeCharacter(b: byte, rest: seq<byte>)
    requires forall i :: 0 <= i < |rest| ==> 0x80 <= rest[i] < 0xC0
    ensures Whole([b] + rest) <==>
      || (|rest| == 0 && b < 0x80)
      || (|rest| == 1 && 0xC0 <= b < 0xE0)
      || (|rest| == 2 && 0xE0 <= b < 0xF0)
      || (|rest| == 3 && 0xF0 <= b < 0xF8)
  {
    var s := [b] + rest;
    assert forall i :: 1 <= i < |s| ==> s[i] == rest[i - 1];
    if StartsWhole(s) {
      var n := Length(b);
      if n < |s| { assert s[n..][0] == s[n]; } else { assert s[n..] == []; }
    }
  }

  // Whole characters next to each other

  lemma {:induction false} WholeConcat(a: seq<byte>, b: seq<byte>)
    requires Whole(a)
    ensures Whole(a + b) <==> Whole(b)
    decreases |a|
  {
    if a == [] {
      assert a + b == b;
    } else {
      var n := Length(a[0]);
      assert (a + b)[n..] == a[n..] + b;
      assert forall i :: 0 <= i < n ==> (a + b)[i] == a[i];
      WholeConcat(a[n..], b);
    }
  }

  /** The bytes of a text of code points. */
  function EncodeAll(text: seq<char32>): seq<byte> {
    if text == [] then [] else Encode(text[0]) + EncodeAll(text[1..])
  }

  /** All UTF-8 text is accepted. */
  lemma {:induction false} TextIsWhole(text: seq<char32>)
    requires CodePoints(text)
    ensures Whole(EncodeAll(text))
  {
    if text != [] {
      var e := Encode(text[0]);
      EncodeShape(text[0]);
      assert Length(e[0]) == |e| && e[|e|..] == [];
      TextIsWhole(text[1..]);
      WholeConcat(e, EncodeAll(text[1..]));
    }
  }

  /** So is more than that: sequences longer than their code point needs. */
  lemma OverlongIsWhole(b: byte, c: byte)
    requires 0xC0 <= b < 0xC2 && Continuation(c)
    ensures Whole([b, c]) && forall ch: char32 :: Encode(ch) != [b, c]
  {
    assert [b, c][2..] == [];
  }

  /** The first character is no longer than its code point needs, and its code point is not beyond the last. */
  predicate WellFormed(s: seq<byte>)
    requires StartsWhole(s)
  {
    && (Length(s[0]) == 2 ==> s[0] >= 0xC2)
    && (s[0] == 0xE0 ==> s[1] >= 0xA0)
    && (s[0] == 0xF0 ==> s[1] >= 0x90)
    && (s[0] == 0xF4 ==> s[1] < 0x90)
    && s[0] <= 0xF4
  }

  predicate AllWellFormed(s: seq<byte>)
    requires Whole(s)
  {
    s == [] || (WellFormed(s) && AllWellFormed(s[Length(s[0])..]))
  }

  predicate CodePoints(text: seq<char32>) { forall i :: 0 <= i < |text| ==> text[i] <= LAST_CODE_POINT }

  /** What a byte adds to the code point. */
  function Payload(b: byte, lead: int): int { b - lead }

  /** The code point of a well-formed character. */
  function Decode(s: seq<byte>): char32
    requires StartsWhole(s) && WellFormed(s)
  {
    match Length(s[0])
    case 1 => s[0]
    case 2 => Payload(s[0], 0xC0) * 64 + Payload(s[1], 0x80)
    case 3 => Payload(s[0], 0xE0) * 4096 + Payload(s[1], 0x80) * 64 + Payload(s[2], 0x80)
    case _ =>
      Payload(s[0], 0xF0) * 262144 + Payload(s[1], 0x80) * 4096 + Payload(s[2], 0x80) * 64 + Payload(s[3], 0x80)
  }

  lemma Digits2(a: int, b: int)
    requires 0 <= b < 64
    ensures (a * 64 + b) / 64 == a && (a * 64 + b) % 64 == b
  {
  }

  lemma Digits3(a: int, b: int, c: int)
    requires 0 <= b < 64 && 0 <= c < 64
    ensures var x := a * 4096 + b * 64 + c; x / 4096 == a && x / 64 % 64 == b && x % 64 == c
  {
    Digits2(a * 64 + b, c);
    Digits2(a, b);
  }

  lemma Digits4(a: int, b: int, c: int, d: int)
    requires 0 <= b < 64 && 0 <= c < 64 && 0 <= d < 64
    ensures var x := a * 262144 + b * 4096 + c * 64 + d;
      x / 262144 == a && x / 4096 % 64 == b && x / 64 % 64 == c && x % 64 == d
  {
    Digits2(a * 4096 + b * 64 + c, d);
    Digits3(a, b, c);
  }

  lemma DecodeIs(s: seq<byte>)
    requires StartsWhole(s) && WellFormed(s)
    ensures Decode(s) <= LAST_CODE_POINT && Encode(Decode(s)) == s[..Length(s[0])]
  {
    match Length(s[0])
    case 1 =>
    case 2 => DecodeTwo(s);
    case 3 => DecodeThree(s);
    case _ => DecodeFour(s);
  }

  lemma DecodeTwo(s: seq<byte>)
    requires StartsWhole(s) && WellFormed(s) && Length(s[0]) == 2
    ensures Encode(Decode(s)) == s[..2]
  {
    Digits2(Payload(s[0], 0xC0), Payload(s[1], 0x80));
  }

  lemma DecodeThree(s: seq<byte>)
    requires StartsWhole(s) && WellFormed(s) && Length(s[0]) == 3
    ensures Encode(Decode(s)) == s[..3]
  {
    Digits3(Payload(s[0], 0xE0), Payload(s[1], 0x80), Payload(s[2], 0x80));
  }

  lemma DecodeFour(s: seq<byte>)
    requires StartsWhole(s) && WellFormed(s) && Length(s[0]) == 4
    ensures Decode(s) <= LAST_CODE_POINT && Encode(Decode(s)) == s[..4]
  {
    Digits4(Payload(s[0], 0xF0), Payload(s[1], 0x80), Payload(s[2], 0x80), Payload(s[3], 0x80));
  }

  lemma EncodedWellFormed(ch: char32, rest: seq<byte>)
    requires ch <= LAST_CODE_POINT
    ensures var s := Encode(ch) + rest;
      StartsWhole(s) && WellFormed(s) && s[Length(s[0])..] == rest
  {
    EncodedIsWhole(ch);
    WellFormedExtends(Encode(ch), rest);
  }

  lemma EncodedIsWhole(ch: char32)
    requires ch <= LAST_CODE_POINT
    ensures var e := Encode(ch); StartsWhole(e) && Length(e[0]) == |e| && WellFormed(e)
  {
    var q := ch / 4096;
    assert ch / 262144 == q / 64;
    if ch > 0xFFFF {
      assert 16 <= q < 272;
    } else if ch > 0x7FF {
      assert q < 16 && (q == 0 ==> ch / 64 >= 32);
    }
  }

  lemma WellFormedExtends(e: seq<byte>, rest: seq<byte>)
    requires StartsWhole(e) && WellFormed(e) && Length(e[0]) == |e|
    ensures StartsWhole(e + rest) && WellFormed(e + rest) && (e + rest)[Length((e + rest)[0])..] == rest
  {
    assert forall i :: 0 <= i < |e| ==> (e + rest)[i] == e[i];
  }

  lemma {:induction false} TextWellFormed(text: seq<char32>)
    requires CodePoints(text)
    ensures Whole(EncodeAll(text)) && AllWellFormed(EncodeAll(text))
  {
    if text != [] {
      TextWellFormed(text[1..]);
      EncodedWellFormed(text[0], EncodeAll(text[1..]));
    }
  }

  lemma {:induction false} WellFormedText(s: seq<byte>) returns (text: seq<char32>)
    requires Whole(s) && AllWellFormed(s)
    ensures CodePoints(text) && EncodeAll(text) == s
  {
    if s == [] {
      text := [];
    } else {
      var n := Length(s[0]);
      DecodeIs(s);
      var rest := WellFormedText(s[n..]);
      text := [Decode(s)] + rest;
      assert text[1..] == rest && s == s[..n] + s[n..];
    }
  }

  /** What is accepted is the encoding of code points exactly when no character is longer than its code
      point needs and none is beyond the last code point. */
  lemma TextIffWellFormed(s: seq<byte>)
    ensures (exists text: seq<char32> :: CodePoints(text) && EncodeAll(text) == s)
      <==> Whole(s) && AllWellFormed(s)
  {
    if text: seq<char32> :| CodePoints(text) && EncodeAll(text) == s {
      TextWellFormed(text);
    }
    if Whole(s) && AllWellFormed(s) {
      var text := WellFormedText(s);
    }
  }

  // The buffer

  function Concat(pieces: seq<seq<byte>>): seq<byte> {
    if pieces == [] then [] else Concat(pieces[..|pieces| - 1]) + pieces[|pieces| - 1]
  }

  lemma ConcatSnoc(pieces: seq<seq<byte>>, p: seq<byte>)
    ensures Concat(pieces + [p]) == Concat(pieces) + p
  {
    assert (pieces + [p])[..|pieces|] == pieces;
  }

  /** What is given out for one more piece, and what is held back after it. */
  function Step(cache: seq<byte>, piece: seq<byte>): (seq<byte>, seq<byte>) {
    if Whole(cache + piece) then (cache + piece, []) else ([], cache + piece)
  }

  /** What is given out for each of the pieces, and what is held back in the end. */
  function Run(pieces: seq<seq<byte>>): (seq<seq<byte>>, seq<byte>) {
    if pieces == [] then ([], [])
    else
      var k := |pieces| - 1;
      var before := Run(pieces[..k]);
      var step := Step(before.1, pieces[k]);
      (before.0 + [step.0], step.1)
  }

  /** Nothing is lost, everything given out is whole characters, and only an unfinished text is held back. */
  lemma {:induction false} RunIs(pieces: seq<seq<byte>>)
    ensures Concat(Run(pieces).0) + Run(pieces).1 == Concat(pieces)
    ensures |Run(pieces).0| == |pieces|
    ensures forall i :: 0 <= i < |Run(pieces).0| ==> Whole(Run(pieces).0[i])
    ensures Whole(Concat(Run(pieces).0))
    ensures Run(pieces).1 == [] || !Whole(Run(pieces).1)
  {
    if pieces != [] {
      var k := |pieces| - 1;
      var before := Run(pieces[..k]);
      var step := Step(before.1, pieces[k]);
      RunIs(pieces[..k]);
      ConcatSnoc(before.0, step.0);
      Regrouped(Concat(before.0), before.1, pieces[k]);
      WholeConcat(Concat(before.0), step.0);
    }
  }

  lemma Regrouped(a: seq<byte>, b: seq<byte>, c: seq<byte>)
    ensures a + (b + c) == (a + b) + c && a + (b + c) + [] == (a + b) + c && a + [] + (b + c) == (a + b) + c
  {
  }

  /** Nothing is held back in the end exactly when all the pieces together are whole characters. */
  lemma EmptyIffWhole(pieces: seq<seq<byte>>)
    ensures Run(pieces).1 == [] <==> Whole(Concat(pieces))
  {
    RunIs(pieces);
    WholeConcat(Concat(Run(pieces).0), Run(pieces).1);
  }

  /** How the pieces are cut makes no difference once the text so far is whole characters: all of it has
      been given out. */
  lemma CutsIrrelevant(a: seq<seq<byte>>, b: seq<seq<byte>>)
    requires Concat(a) == Concat(b) && Whole(Concat(a))
    ensures Concat(Run(a).0) == Concat(Run(b).0) == Concat(a)
  {
    EmptyIffWhole(a);
    EmptyIffWhole(b);
    RunIs(a);
    RunIs(b);
    assert Concat(Run(a).0) + [] == Concat(Run(a).0) && Concat(Run(b).0) + [] == Concat(Run(b).0);
  }

  class Completion {
    var cachedTokenChars: seq<byte>

    constructor ()
      ensures cachedTokenChars == []
    {
      cachedTokenChars := [];
    }

    /** The new token to show for one more piece. */
    method CompletionLoop(newTokenChars: seq<byte>) returns (newToken: seq<byte>)
      modifies this
      ensures NulFree(old(cachedTokenChars)) && NulFree(newTokenChars) ==>
                NulFree(cachedTokenChars) && (newToken, cachedTokenChars) == Step(old(cachedTokenChars), newTokenChars)
      ensures var text := CString(old(cachedTokenChars) + newTokenChars);
              if Whole(text) then newToken == text && cachedTokenChars == []
              else newToken == [] && cachedTokenChars == old(cachedTokenChars) + newTokenChars
    {
      cachedTokenChars := cachedTokenChars + newTokenChars;
      var text := CString(cachedTokenChars);
      var valid := IsValidUtf8(text);
      if valid {
        newToken := text;
        cachedTokenChars := [];
      } else {
        newToken := [];
      }
    }
  }
}
