/** Base64 with both alphabets, after sections 4 and 5 of RFC 4648; bits are moved by division and remainder. */
module Base64 {
  import opened Bytes
  import opened Text

  /** Six bits. */
  type sextet = b: int | 0 <= b < 64

  datatype Alphabet = Auto | Standard | UrlFilenameSafe

  datatype Behavior = Moderate | Loose

  const PAD: byte := '=' as int

  // Letters

  function Letter(v: sextet, alphabet: Alphabet): byte {
    if v < 26 then 'A' as int + v
    else if v < 52 then 'a' as int + (v - 26)
    else if v < 62 then '0' as int + (v - 52)
    else if alphabet.UrlFilenameSafe? then (if v == 62 then '-' as int else '_' as int)
    else (if v == 62 then '+' as int else '/' as int)
  }

  /** The value of a letter, and the alphabet as known after it. */
  function ValueOf(alphabet: Alphabet, c: byte): Option<(sextet, Alphabet)> {
    if 'A' as int <= c <= 'Z' as int then Some((c - 'A' as int, alphabet))
    else if 'a' as int <= c <= 'z' as int then Some((c - 'a' as int + 26, alphabet))
    else if '0' as int <= c <= '9' as int then Some((c - '0' as int + 52, alphabet))
    else if c == '+' as int && !alphabet.UrlFilenameSafe? then Some((62, Standard))
    else if c == '/' as int && !alphabet.UrlFilenameSafe? then Some((63, Standard))
    else if c == '-' as int && !alphabet.Standard? then Some((62, UrlFilenameSafe))
    else if c == '_' as int && !alphabet.Standard? then Some((63, UrlFilenameSafe))
    else None
  }

  // Encoding

  function Encoded(data: seq<byte>, alphabet: Alphabet): seq<byte> {
    if data == [] then []
    else if |data| == 1 then
      [Letter(data[0] / 4, alphabet), Letter(data[0] % 4 * 16, alphabet), PAD, PAD]
    else if |data| == 2 then
      [Letter(data[0] / 4, alphabet), Letter(data[0] % 4 * 16 + data[1] / 16, alphabet),
       Letter(data[1] % 16 * 4, alphabet), PAD]
    else
      [Letter(data[0] / 4, alphabet), Letter(data[0] % 4 * 16 + data[1] / 16, alphabet),
       Letter(data[1] % 16 * 4 + data[2] / 64, alphabet), Letter(data[2] % 64, alphabet)]
      + Encoded(data[3..], alphabet)
  }

  function RequiredEncodeSize(size: nat): nat { (size / 3 + if size % 3 != 0 then 1 else 0) * 4 }

  lemma {:induction false} EncodedSize(data: seq<byte>, alphabet: Alphabet)
    ensures |Encoded(data, alphabet)| == RequiredEncodeSize(|data|)
  {
    if |data| > 2 { EncodedSize(data[3..], alphabet); }
  }

  lemma OneLeft(data: seq<byte>, p: nat, alphabet: Alphabet)
    requires p + 1 == |data|
    ensures Encoded(data[p..], alphabet)
         == [Letter(data[p] / 4, alphabet), Letter(data[p] % 4 * 16, alphabet), PAD, PAD]
  {
    assert data[p..] == [data[p]];
  }

  lemma TwoLeft(data: seq<byte>, p: nat, alphabet: Alphabet)
    requires p + 2 == |data|
    ensures Encoded(data[p..], alphabet)
         == [Letter(data[p] / 4, alphabet), Letter(data[p] % 4 * 16 + data[p + 1] / 16, alphabet),
             Letter(data[p + 1] % 16 * 4, alphabet), PAD]
  {
    assert data[p..] == [data[p], data[p + 1]];
  }

  lemma MoreLeft(data: seq<byte>, p: nat, alphabet: Alphabet)
    requires p + 3 <= |data|
    ensures Encoded(data[p..], alphabet)
         == [Letter(data[p] / 4, alphabet), Letter(data[p] % 4 * 16 + data[p + 1] / 16, alphabet),
             Letter(data[p + 1] % 16 * 4 + data[p + 2] / 64, alphabet), Letter(data[p + 2] % 64, alphabet)]
            + Encoded(data[p + 3..], alphabet)
  {
    var rest := data[p..];
    assert rest[0] == data[p] && rest[1] == data[p + 1] && rest[2] == data[p + 2] && rest[3..] == data[p + 3..];
  }

  lemma MoreStep(data: seq<byte>, p: nat, alphabet: Alphabet, before: seq<byte>, letters: seq<byte>)
    requires p + 3 <= |data|
    requires letters == [Letter(data[p] / 4, alphabet), Letter(data[p] % 4 * 16 + data[p + 1] / 16, alphabet),
                         Letter(data[p + 1] % 16 * 4 + data[p + 2] / 64, alphabet), Letter(data[p + 2] % 64, alphabet)]
    ensures before + letters + Encoded(data[p + 3..], alphabet) == before + Encoded(data[p..], alphabet)
  {
    MoreLeft(data, p, alphabet);
    Regrouped(before, letters, Encoded(data[p + 3..], alphabet));
  }

  method Encode(data: seq<byte>, alphabet: Alphabet) returns (out: seq<byte>)
    ensures out == Encoded(data, alphabet)
    ensures |out| == RequiredEncodeSize(|data|)
  {
    EncodedSize(data, alphabet);
    out := [];
    var p := 0;
    ghost var target := Encoded(data, alphabet);
    assert data[0..] == data;
    while p < |data|
      invariant 0 <= p <= |data|
      invariant out + Encoded(data[p..], alphabet) == target
    {
      ghost var start, before := p, out;
      var i0 := data[p];
      p := p + 1;
      var c0 := Letter(i0 / 4, alphabet);
      out := out + [c0];
      if p == |data| {
        var c1 := Letter(i0 % 4 * 16, alphabet);
        out := out + [c1];
        out := out + [PAD];
        out := out + [PAD];
        Four(before, c0, c1, PAD, PAD);
        OneLeft(data, start, alphabet);
        return;
      }
      var i1 := data[p];
      p := p + 1;
      var c1 := Letter(i0 % 4 * 16 + i1 / 16, alphabet);
      out := out + [c1];
      if p == |data| {
        var c2 := Letter(i1 % 16 * 4, alphabet);
        out := out + [c2];
        out := out + [PAD];
        Four(before, c0, c1, c2, PAD);
        TwoLeft(data, start, alphabet);
        return;
      }
      var i2 := data[p];
      p := p + 1;
      var c2 := Letter(i1 % 16 * 4 + i2 / 64, alphabet);
      out := out + [c2];
      var c3 := Letter(i2 % 64, alphabet);
      out := out + [c3];
      Four(before, c0, c1, c2, c3);
      MoreStep(data, start, alphabet, before, [c0, c1, c2, c3]);
    }
  }

  lemma Four(s: seq<byte>, a: byte, b: byte, c: byte, d: byte)
    ensures s + [a] + [b] + [c] + [d] == s + [a, b, c, d]
  {
  }

  lemma Regrouped(s: seq<byte>, t: seq<byte>, u: seq<byte>)
    ensures s + t + u == s + (t + u)
  {
  }

  // Decoding

  /** A byte from the low bits of one letter's value, shifted up, and the high bits of the next. */
  function Combined(last: sextet, bits: nat, part: sextet): byte
    requires bits == 2 || bits == 4 || bits == 6
  {
    if bits == 6 then last * 4 + part / 16
    else if bits == 4 then last % 16 * 16 + part / 4
    else last % 4 * 64 + part
  }

  predicate ValidBits(bits: nat) { bits == 0 || bits == 2 || bits == 4 || bits == 6 }

  /** What follows the first padding must be padding, unless that is let pass. */
  predicate PaddingOk(rest: seq<byte>, behavior: Behavior) {
    behavior.Loose? || forall i :: 0 <= i < |rest| ==> rest[i] == PAD
  }

  /** The loop from a given state on; None where it throws. */
  function DecodedFrom(s: seq<byte>, alphabet: Alphabet, behavior: Behavior, bits: nat, last: sextet, out: seq<byte>)
    : Option<seq<byte>>
    requires ValidBits(bits)
  {
    if s == [] then Some(out)
    else if s[0] == PAD then (if PaddingOk(s[1..], behavior) then Some(out) else None)
    else
      var v := ValueOf(alphabet, s[0]);
      if v.None? then None
      else if bits + 6 >= 8 then
        DecodedFrom(s[1..], v.value.1, behavior, bits - 2, v.value.0, out + [Combined(last, bits, v.value.0)])
      else DecodedFrom(s[1..], v.value.1, behavior, bits + 6, v.value.0, out)
  }

  function Decoded(s: seq<byte>, alphabet: Alphabet, behavior: Behavior): Option<seq<byte>> {
    DecodedFrom(s, alphabet, behavior, 0, 0, [])
  }

  function MaxDecodeSize(size: nat): nat { (size / 4 + if size % 4 != 0 then 1 else 0) * 3 }

  method OnlyPadding(s: seq<byte>, p0: nat) returns (ok: bool)
    requires p0 <= |s|
    ensures ok <==> forall i :: p0 <= i < |s| ==> s[i] == PAD
  {
    var p := p0;
    while p < |s|
      invariant p0 <= p <= |s|
      invariant forall i :: p0 <= i < p ==> s[i] == PAD
    {
      var c := s[p];
      p := p + 1;
      if c != PAD {
        return false;
      }
    }
    return true;
  }

  method Decode(s: seq<byte>, alphabet: Alphabet, behavior: Behavior) returns (r: Option<seq<byte>>)
    ensures r == Decoded(s, alphabet, behavior)
    ensures r.Some? ==> |r.value| <= MaxDecodeSize(|s|)
  {
    var a := alphabet;
    var out := [];
    var last: sextet := 0;
    var bits: nat := 0;
    var p := 0;
    assert s[0..] == s;
    while p < |s|
      invariant 0 <= p <= |s| && ValidBits(bits)
      invariant 6 * p == 8 * |out| + bits
      invariant DecodedFrom(s[p..], a, behavior, bits, last, out) == Decoded(s, alphabet, behavior)
    {
      var c := s[p];
      assert s[p..][1..] == s[p + 1..];
      p := p + 1;
      if c == PAD {
        if !behavior.Loose? {
          var ok := OnlyPadding(s, p);
          if !ok {
            return None;
          }
        }
        return Some(out);
      }
      var v := ValueOf(a, c);
      if v.None? {
        return None;
      }
      a := v.value.1;
      if bits + 6 >= 8 {
        out := out + [Combined(last, bits, v.value.0)];
        bits := bits - 2;
      } else {
        bits := bits + 6;
      }
      last := v.value.0;
    }
    assert s[|s|..] == [];
    return Some(out);
  }

  /** Every write lands strictly behind what has been read, so decoding over the input reads it unharmed. */
  method DecodeInPlace(buf: array<byte>, alphabet: Alphabet, behavior: Behavior) returns (r: Option<nat>)
    modifies buf
    ensures r.Some? <==> Decoded(old(buf[..]), alphabet, behavior).Some?
    ensures r.Some? ==> r.value <= buf.Length && r.value <= MaxDecodeSize(buf.Length)
                        && buf[..r.value] == Decoded(old(buf[..]), alphabet, behavior).value
  {
    ghost var s := buf[..];
    var a := alphabet;
    var w := 0;
    var last: sextet := 0;
    var bits: nat := 0;
    var p := 0;
    assert s[0..] == s && buf[..0] == [];
    while p < buf.Length
      invariant 0 <= w <= p <= buf.Length && ValidBits(bits)
      invariant 6 * p == 8 * w + bits
      invariant buf[p..] == s[p..]
      invariant DecodedFrom(s[p..], a, behavior, bits, last, buf[..w]) == Decoded(s, alphabet, behavior)
    {
      var c := buf[p];
      assert c == buf[p..][0] && s[p..][1..] == s[p + 1..] && buf[p + 1..] == buf[p..][1..];
      p := p + 1;
      if c == PAD {
        if !behavior.Loose? {
          var ok := OnlyPadding(buf[..], p);
          assert forall i :: p <= i < buf.Length ==> buf[i] == buf[p..][i - p] == s[i];
          if !ok {
            return None;
          }
        }
        return Some(w);
      }
      var v := ValueOf(a, c);
      if v.None? {
        return None;
      }
      a := v.value.1;
      if bits + 6 >= 8 {
        ghost var before := buf[..w];
        buf[w] := Combined(last, bits, v.value.0);
        assert buf[..w + 1] == before + [buf[w]];
        w := w + 1;
        bits := bits - 2;
      } else {
        bits := bits + 6;
      }
      last := v.value.0;
    }
    assert s[|s|..] == [];
    return Some(w);
  }

  // Round trip

  /** Alphabets under which the letters of `used` are read for what they are. */
  predicate Reads(alphabet: Alphabet, used: Alphabet) {
    alphabet.Auto? || (alphabet.UrlFilenameSafe? <==> used.UrlFilenameSafe?)
  }

  lemma LetterRead(alphabet: Alphabet, used: Alphabet, v: sextet)
    requires Reads(alphabet, used)
    ensures ValueOf(alphabet, Letter(v, used)).Some? && Letter(v, used) != PAD
    ensures ValueOf(alphabet, Letter(v, used)).value.0 == v
    ensures Reads(ValueOf(alphabet, Letter(v, used)).value.1, used)
  {
  }

  lemma FirstByte(a: byte, x: nat)
    requires x < 16
    ensures a % 4 * 16 + x < 64 && Combined(a / 4, 6, a % 4 * 16 + x) == a
  {
    var q := a % 4;
    assert (q * 16 + x) / 16 == q;
  }

  lemma SecondByte(q: nat, b: byte, y: nat)
    requires q < 4 && y < 4
    ensures q * 16 + b / 16 < 64 && b % 16 * 4 + y < 64 && Combined(q * 16 + b / 16, 4, b % 16 * 4 + y) == b
  {
    var h, l := b / 16, b % 16;
    assert (q * 16 + h) % 16 == h && (l * 4 + y) / 4 == l;
  }

  lemma ThirdByte(l: nat, c: byte)
    requires l < 16
    ensures l * 4 + c / 64 < 64 && Combined(l * 4 + c / 64, 2, c % 64) == c
  {
    var y := c / 64;
    assert (l * 4 + y) % 4 == y;
  }

  /** One letter read outside the padding. */
  lemma ReadLetter(s: seq<byte>, alphabet: Alphabet, used: Alphabet, behavior: Behavior, bits: nat, last: sextet,
                   out: seq<byte>, v: sextet) returns (a: Alphabet)
    requires s != [] && s[0] == Letter(v, used) && Reads(alphabet, used) && ValidBits(bits)
    ensures Reads(a, used)
    ensures DecodedFrom(s, alphabet, behavior, bits, last, out)
         == if bits == 0 then DecodedFrom(s[1..], a, behavior, 6, v, out)
            else DecodedFrom(s[1..], a, behavior, bits - 2, v, out + [Combined(last, bits, v)])
  {
    LetterRead(alphabet, used, v);
    a := ValueOf(alphabet, s[0]).value.1;
  }

  /** Decoding what was encoded gives it back, with either alphabet given or with the alphabet detected. */
  lemma {:induction false} RoundTripFrom(data: seq<byte>, alphabet: Alphabet, used: Alphabet, behavior: Behavior,
                                         last: sextet, out: seq<byte>)
    requires Reads(alphabet, used)
    ensures DecodedFrom(Encoded(data, used), alphabet, behavior, 0, last, out) == Some(out + data)
    decreases |data|
  {
    if data == [] {
      assert out + data == out;
    } else if |data| == 1 {
      OneByte(data[0], alphabet, used, behavior, last, out);
      assert data == [data[0]];
    } else if |data| == 2 {
      TwoBytes(data[0], data[1], alphabet, used, behavior, last, out);
      assert data == [data[0], data[1]];
    } else {
      var rest := Encoded(data[3..], used);
      var a := ThreeBytes(data[0], data[1], data[2], rest, alphabet, used, behavior, last, out);
      var out' := out + [data[0]] + [data[1]] + [data[2]];
      RoundTripFrom(data[3..], a, used, behavior, data[2] % 64, out');
      assert out' + data[3..] == out + data;
    }
  }

  lemma OneByte(i0: byte, alphabet: Alphabet, used: Alphabet, behavior: Behavior, last: sextet, out: seq<byte>)
    requires Reads(alphabet, used)
    ensures DecodedFrom(Encoded([i0], used), alphabet, behavior, 0, last, out) == Some(out + [i0])
  {
    var s := Encoded([i0], used);
    FirstByte(i0, 0);
    var a := ReadLetter(s, alphabet, used, behavior, 0, last, out, i0 / 4);
    a := ReadLetter(s[1..], a, used, behavior, 6, i0 / 4, out, i0 % 4 * 16);
    assert s[1..][1..] == [PAD, PAD];
  }

  lemma TwoBytes(i0: byte, i1: byte, alphabet: Alphabet, used: Alphabet, behavior: Behavior,
                 last: sextet, out: seq<byte>)
    requires Reads(alphabet, used)
    ensures DecodedFrom(Encoded([i0, i1], used), alphabet, behavior, 0, last, out) == Some(out + [i0, i1])
  {
    var s := Encoded([i0, i1], used);
    FirstByte(i0, i1 / 16);
    SecondByte(i0 % 4, i1, 0);
    var a := ReadLetter(s, alphabet, used, behavior, 0, last, out, i0 / 4);
    a := ReadLetter(s[1..], a, used, behavior, 6, i0 / 4, out, i0 % 4 * 16 + i1 / 16);
    assert s[1..][1..] == s[2..];
    a := ReadLetter(s[2..], a, used, behavior, 4, i0 % 4 * 16 + i1 / 16, out + [i0], i1 % 16 * 4);
    assert s[2..][1..] == [PAD];
    assert out + [i0] + [i1] == out + [i0, i1];
  }

  lemma ThreeBytes(i0: byte, i1: byte, i2: byte, rest: seq<byte>, alphabet: Alphabet, used: Alphabet,
                   behavior: Behavior,
                   last: sextet, out: seq<byte>) returns (a: Alphabet)
    requires Reads(alphabet, used)
    ensures Reads(a, used)
    ensures i0 % 4 * 16 + i1 / 16 < 64 && i1 % 16 * 4 + i2 / 64 < 64
    ensures DecodedFrom([Letter(i0 / 4, used), Letter(i0 % 4 * 16 + i1 / 16, used),
                         Letter(i1 % 16 * 4 + i2 / 64, used), Letter(i2 % 64, used)] + rest,
                        alphabet, behavior, 0, last, out)
         == DecodedFrom(rest, a, behavior, 0, i2 % 64, out + [i0] + [i1] + [i2])
  {
    FirstByte(i0, i1 / 16);
    SecondByte(i0 % 4, i1, i2 / 64);
    ThirdByte(i1 % 16, i2);
    var p0: sextet, p1: sextet := i0 / 4, i0 % 4 * 16 + i1 / 16;
    var p2: sextet, p3: sextet := i1 % 16 * 4 + i2 / 64, i2 % 64;
    a := FourLetters(p0, p1, p2, p3, rest, alphabet, used, behavior, last, out);
  }

  lemma FourLetters(p0: sextet, p1: sextet, p2: sextet, p3: sextet, rest: seq<byte>, alphabet: Alphabet, used: Alphabet,
                    behavior: Behavior, last: sextet, out: seq<byte>) returns (a: Alphabet)
    requires Reads(alphabet, used)
    ensures Reads(a, used)
    ensures DecodedFrom([Letter(p0, used), Letter(p1, used), Letter(p2, used), Letter(p3, used)] + rest,
                        alphabet, behavior, 0, last, out)
         == DecodedFrom(rest, a, behavior, 0, p3,
                        out + [Combined(p0, 6, p1)] + [Combined(p1, 4, p2)] + [Combined(p2, 2, p3)])
  {
    var s := [Letter(p0, used), Letter(p1, used), Letter(p2, used), Letter(p3, used)] + rest;
    assert s[1..][1..] == s[2..] && s[2..][1..] == s[3..] && s[3..][1..] == rest;
    a := ReadLetter(s, alphabet, used, behavior, 0, last, out, p0);
    a := ReadLetter(s[1..], a, used, behavior, 6, p0, out, p1);
    var out1 := out + [Combined(p0, 6, p1)];
    a := ReadLetter(s[2..], a, used, behavior, 4, p1, out1, p2);
    a := ReadLetter(s[3..], a, used, behavior, 2, p2, out1 + [Combined(p1, 4, p2)], p3);
  }

  lemma RoundTrip(data: seq<byte>, alphabet: Alphabet, used: Alphabet, behavior: Behavior)
    requires Reads(alphabet, used)
    ensures Decoded(Encoded(data, used), alphabet, behavior) == Some(data)
  {
    RoundTripFrom(data, alphabet, used, behavior, 0, []);
    assert [] + data == data;
  }

  // Detection

  /** Detecting the alphabet reads exactly what one of the two alphabets reads, and reads it the same. */
  lemma {:induction false} DetectionFrom(s: seq<byte>, behavior: Behavior, bits: nat, last: sextet, out: seq<byte>)
    requires ValidBits(bits)
    ensures DecodedFrom(s, Auto, behavior, bits, last, out)
         == if DecodedFrom(s, Standard, behavior, bits, last, out).Some?
            then DecodedFrom(s, Standard, behavior, bits, last, out)
            else DecodedFrom(s, UrlFilenameSafe, behavior, bits, last, out)
    decreases |s|
  {
    if s != [] && s[0] != PAD {
      var v := ValueOf(Auto, s[0]);
      if v.Some? && v.value.1.Auto? {
        if bits == 0 {
          DetectionFrom(s[1..], behavior, 6, v.value.0, out);
        } else {
          DetectionFrom(s[1..], behavior, bits - 2, v.value.0, out + [Combined(last, bits, v.value.0)]);
        }
      }
    }
  }

  // What decoding means

  /** The values of the letters up to the padding; None where something else is among them. */
  function Letters(s: seq<byte>, alphabet: Alphabet): Option<seq<sextet>> {
    if s == [] || s[0] == PAD then Some([])
    else
      var v := ValueOf(alphabet, s[0]);
      if v.None? then None
      else
        var rest := Letters(s[1..], v.value.1);
        if rest.None? then None else Some([v.value.0] + rest.value)
  }

  /** What comes behind the first padding. */
  function BehindPadding(s: seq<byte>): seq<byte> {
    if s == [] then [] else if s[0] == PAD then s[1..] else BehindPadding(s[1..])
  }

  /** Digits read as a number, the first the highest. */
  function Number(digits: seq<nat>, base: nat): nat {
    if digits == [] then 0 else Number(digits[..|digits| - 1], base) * base + digits[|digits| - 1]
  }

  function Power(bits: nat): nat
    requires ValidBits(bits)
  {
    if bits == 0 then 1 else if bits == 2 then 4 else if bits == 4 then 16 else 64
  }

  /** The letters as one number are the bytes as one number, followed by the bits that are left over. */
  ghost predicate SameNumber(vs: seq<sextet>, out: seq<byte>, bits: nat, low: nat) {
    && ValidBits(bits) && 6 * |vs| == 8 * |out| + bits && low < Power(bits)
    && Number(vs, 64) == Number(out, 256) * Power(bits) + low
  }

  lemma NumberSnoc(digits: seq<nat>, d: nat, base: nat)
    ensures Number(digits + [d], base) == Number(digits, base) * base + d
  {
    assert (digits + [d])[..|digits|] == digits;
  }

  lemma FirstLetter(vs: seq<sextet>, out: seq<byte>, v: sextet)
    requires SameNumber(vs, out, 0, 0)
    ensures SameNumber(vs + [v], out, 6, v)
  {
    NumberSnoc(vs, v, 64);
  }

  lemma NextLetter(vs: seq<sextet>, out: seq<byte>, bits: nat, last: sextet, v: sextet)
    requires (bits == 2 || bits == 4 || bits == 6) && SameNumber(vs, out, bits, last % Power(bits))
    ensures SameNumber(vs + [v], out + [Combined(last, bits, v)], bits - 2, v % Power(bits - 2))
  {
    var c := Combined(last, bits, v);
    NumberSnoc(vs, v, 64);
    NumberSnoc(out, c, 256);
    assert v == v / 16 * 16 + v % 16 && v == v / 4 * 4 + v % 4;
  }

  lemma {:induction false} AcceptedFrom(s: seq<byte>, alphabet: Alphabet, behavior: Behavior, bits: nat, last: sextet,
                                        out: seq<byte>)
    requires ValidBits(bits)
    ensures DecodedFrom(s, alphabet, behavior, bits, last, out).Some?
       <==> Letters(s, alphabet).Some? && PaddingOk(BehindPadding(s), behavior)
    decreases |s|
  {
    if s != [] && s[0] != PAD {
      var v := ValueOf(alphabet, s[0]);
      if v.Some? {
        if bits == 0 {
          AcceptedFrom(s[1..], v.value.1, behavior, 6, v.value.0, out);
        } else {
          AcceptedFrom(s[1..], v.value.1, behavior, bits - 2, v.value.0, out + [Combined(last, bits, v.value.0)]);
        }
      }
    }
  }

  lemma {:induction false} NumberFrom(s: seq<byte>, alphabet: Alphabet, behavior: Behavior, bits: nat, last: sextet,
                                      out: seq<byte>, vs: seq<sextet>) returns (left: nat, low: nat)
    requires ValidBits(bits) && SameNumber(vs, out, bits, last % Power(bits))
    requires DecodedFrom(s, alphabet, behavior, bits, last, out).Some? && Letters(s, alphabet).Some?
    ensures SameNumber(vs + Letters(s, alphabet).value, DecodedFrom(s, alphabet, behavior, bits, last, out).value,
                       left, low)
    decreases |s|
  {
    if s == [] || s[0] == PAD {
      left, low := bits, last % Power(bits);
      assert vs + [] == vs;
    } else {
      var v := ValueOf(alphabet, s[0]).value;
      if bits == 0 {
        FirstLetter(vs, out, v.0);
        left, low := NumberFrom(s[1..], v.1, behavior, 6, v.0, out, vs + [v.0]);
      } else {
        NextLetter(vs, out, bits, last, v.0);
        left, low := NumberFrom(s[1..], v.1, behavior, bits - 2, v.0, out + [Combined(last, bits, v.0)], vs + [v.0]);
      }
      ConsLetters(vs, v.0, Letters(s[1..], v.1).value);
    }
  }

  lemma ConsLetters(vs: seq<sextet>, v: sextet, rest: seq<sextet>)
    ensures (vs + [v]) + rest == vs + ([v] + rest)
  {
  }

  /**
   * Decoding is accepted exactly for letters followed by nothing but padding, or by anything where that
   * is let pass; and it is a change of base: the letters' number is the bytes' number and fewer than
   * eight bits more.
   */
  lemma DecodedIs(s: seq<byte>, alphabet: Alphabet, behavior: Behavior) returns (left: nat, low: nat)
    ensures Decoded(s, alphabet, behavior).Some? <==>
            Letters(s, alphabet).Some? && PaddingOk(BehindPadding(s), behavior)
    ensures Decoded(s, alphabet, behavior).Some? ==>
              SameNumber(Letters(s, alphabet).value, Decoded(s, alphabet, behavior).value, left, low)
  {
    AcceptedFrom(s, alphabet, behavior, 0, 0, []);
    left, low := 0, 0;
    if Decoded(s, alphabet, behavior).Some? {
      left, low := NumberFrom(s, alphabet, behavior, 0, 0, [], []);
      assert [] + Letters(s, alphabet).value == Letters(s, alphabet).value;
    }
  }
}
