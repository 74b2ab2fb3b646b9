/** The letters of base64 and what an encoding is made of: table 1 and table 2 of RFC 4648. */
module Base64Letters {
  import opened Bytes
  import opened Base64

  const UPPER := "ABCDEFGHIJKLMNOPQRSTUVWXYZ"
  const LOWER := "abcdefghijklmnopqrstuvwxyz"
  const DIGITS := "0123456789"

  /** The letters in the order of their values. */
  function Table(alphabet: Alphabet): string {
    UPPER + LOWER + DIGITS + if alphabet.UrlFilenameSafe? then "-_" else "+/"
  }

  lemma LetterIs(v: sextet, alphabet: Alphabet)
    ensures |Table(alphabet)| == 64 && Letter(v, alphabet) == Table(alphabet)[v] as int
  {
    TableAt(v, alphabet);
    if v < 26 { UpperIs(v); } else if v < 52 { LowerIs(v - 26); }
  }

  lemma TableAt(v: sextet, alphabet: Alphabet)
    ensures |Table(alphabet)| == 64
    ensures Table(alphabet)[v] == if v < 26 then UPPER[v] else if v < 52 then LOWER[v - 26]
                                  else if v < 62 then DIGITS[v - 52]
                                  else (if alphabet.UrlFilenameSafe? then "-_" else "+/")[v - 62]
  {
  }

  lemma UpperIs(v: nat)
    requires v < 26
    ensures UPPER[v] as int == 'A' as int + v
  {
  }

  lemma LowerIs(v: nat)
    requires v < 26
    ensures LOWER[v] as int == 'a' as int + v
  {
  }

  /** A byte has a value exactly where it is a letter of the alphabet, or of either one that it may turn out to be;
      and then that is its place in the table. */
  lemma ValueIs(alphabet: Alphabet, c: byte)
    ensures ValueOf(alphabet, c).Some? <==>
      exists v: sextet, used: Alphabet :: Reads(alphabet, used) && Letter(v, used) == c
    ensures ValueOf(alphabet, c).Some? ==>
      var (v, next) := ValueOf(alphabet, c).value;
      Letter(v, next) == c && Reads(alphabet, next) && (next == alphabet || (alphabet.Auto? && v >= 62))
  {
    if ValueOf(alphabet, c).Some? {
      var v := ValueOf(alphabet, c).value;
      assert Letter(v.0, v.1) == c;
      assert Reads(alphabet, v.1);
    }
    if v: sextet, used: Alphabet :| Reads(alphabet, used) && Letter(v, used) == c { LetterRead(alphabet, used, v); }
  }

  // What is accepted

  /** Letters may be followed by padding; behind the first pad the moderate behaviour lets nothing but pads pass, the
      loose one anything. */
  lemma AcceptedIs(s: seq<byte>, alphabet: Alphabet)
    ensures Decoded(s, alphabet, Loose).Some? <==> Letters(s, alphabet).Some?
    ensures Decoded(s, alphabet, Moderate).Some? <==>
      Letters(s, alphabet).Some? && forall i :: 0 <= i < |BehindPadding(s)| ==> BehindPadding(s)[i] == '=' as int
  {
    var left, low := DecodedIs(s, alphabet, Loose);
    left, low := DecodedIs(s, alphabet, Moderate);
  }

  // Encodings

  /** The letters with these values. */
  function Written(vs: seq<sextet>, alphabet: Alphabet): (r: seq<byte>)
    ensures |r| == |vs|
  {
    seq(|vs|, i requires 0 <= i < |vs| => Letter(vs[i], alphabet))
  }

  function Pads(n: nat): (r: seq<byte>)
    ensures |r| == n
  {
    seq(n, i => PAD)
  }

  lemma WrittenConcat(vs: seq<sextet>, ws: seq<sextet>, alphabet: Alphabet)
    ensures Written(vs + ws, alphabet) == Written(vs, alphabet) + Written(ws, alphabet)
  {
  }

  /** Three bytes in four letters. */
  lemma FourSame(vs: seq<sextet>, out: seq<byte>, a: byte, b: byte, c: byte)
    requires SameNumber(vs, out, 0, 0)
    ensures SameNumber(vs + [a / 4, a % 4 * 16 + b / 16, b % 16 * 4 + c / 64, c % 64], out + [a, b, c], 0, 0)
  {
    var v0, v1: sextet, v2: sextet, v3: sextet := a / 4, a % 4 * 16 + b / 16, b % 16 * 4 + c / 64, c % 64;
    ThreeSame(vs, out, a, b, c / 64);
    NextLetter(vs + [v0, v1, v2], out + [a, b], 2, v2, v3);
    ThirdByte(b % 16, c);
    assert vs + [v0, v1, v2] + [v3] == vs + [v0, v1, v2, v3];
    assert out + [a, b] + [Combined(v2, 2, v3)] == out + [a, b, c];
  }

  /** Two bytes in three letters, with bits of the next one behind. */
  lemma ThreeSame(vs: seq<sextet>, out: seq<byte>, a: byte, b: byte, y: nat)
    requires SameNumber(vs, out, 0, 0) && y < 4
    ensures SameNumber(vs + [a / 4, a % 4 * 16 + b / 16, b % 16 * 4 + y], out + [a, b], 2, y)
  {
    var v0, v1: sextet, v2: sextet := a / 4, a % 4 * 16 + b / 16, b % 16 * 4 + y;
    TwoSame(vs, out, a, b / 16);
    NextLetter(vs + [v0, v1], out + [a], 4, v1, v2);
    SecondByte(a % 4, b, y);
    assert vs + [v0, v1] + [v2] == vs + [v0, v1, v2];
    assert out + [a] + [Combined(v1, 4, v2)] == out + [a, b];
  }

  /** One byte in two letters, with bits of the next one behind. */
  lemma TwoSame(vs: seq<sextet>, out: seq<byte>, a: byte, x: nat)
    requires SameNumber(vs, out, 0, 0) && x < 16
    ensures SameNumber(vs + [a / 4, a % 4 * 16 + x], out + [a], 4, x)
  {
    var v0, v1: sextet := a / 4, a % 4 * 16 + x;
    FirstLetter(vs, out, v0);
    NextLetter(vs + [v0], out, 6, v0, v1);
    FirstByte(a, x);
    assert vs + [v0] + [v1] == vs + [v0, v1];
    assert out + [Combined(v0, 6, v1)] == out + [a];
  }

  /** How many bytes the last letters are short of. */
  function Short(size: nat): nat { if size % 3 == 0 then 0 else 3 - size % 3 }

  lemma LastOne(data: seq<byte>, alphabet: Alphabet, vs: seq<sextet>, out: seq<byte>) returns (ws: seq<sextet>)
    requires SameNumber(vs, out, 0, 0) && |data| == 1
    ensures Encoded(data, alphabet) == Written(ws, alphabet) + Pads(2) && SameNumber(vs + ws, out + data, 4, 0)
  {
    ws := [data[0] / 4, data[0] % 4 * 16];
    TwoSame(vs, out, data[0], 0);
    assert data == [data[0]] && Pads(2) == [PAD, PAD];
  }

  lemma LastTwo(data: seq<byte>, alphabet: Alphabet, vs: seq<sextet>, out: seq<byte>) returns (ws: seq<sextet>)
    requires SameNumber(vs, out, 0, 0) && |data| == 2
    ensures Encoded(data, alphabet) == Written(ws, alphabet) + Pads(1) && SameNumber(vs + ws, out + data, 2, 0)
  {
    ws := [data[0] / 4, data[0] % 4 * 16 + data[1] / 16, data[1] % 16 * 4];
    ThreeSame(vs, out, data[0], data[1], 0);
    assert data == [data[0], data[1]] && Pads(1) == [PAD];
  }

  lemma FirstFour(data: seq<byte>, alphabet: Alphabet) returns (four: seq<sextet>, three: seq<byte>)
    requires |data| >= 3
    ensures three == data[..3] && data == three + data[3..]
    ensures four == [data[0] / 4, data[0] % 4 * 16 + data[1] / 16, data[1] % 16 * 4 + data[2] / 64, data[2] % 64]
    ensures three == [data[0], data[1], data[2]]
    ensures Encoded(data, alphabet) == Written(four, alphabet) + Encoded(data[3..], alphabet)
  {
    four := [data[0] / 4, data[0] % 4 * 16 + data[1] / 16, data[1] % 16 * 4 + data[2] / 64, data[2] % 64];
    three := [data[0], data[1], data[2]];
    assert Written(four, alphabet) == [Letter(four[0], alphabet), Letter(four[1], alphabet), Letter(four[2], alphabet),
                                       Letter(four[3], alphabet)];
  }

  lemma {:induction false} EncodedFrom(data: seq<byte>, alphabet: Alphabet, vs: seq<sextet>, out: seq<byte>)
    returns (ws: seq<sextet>)
    requires SameNumber(vs, out, 0, 0)
    ensures Encoded(data, alphabet) == Written(ws, alphabet) + Pads(Short(|data|))
    ensures SameNumber(vs + ws, out + data, 2 * Short(|data|), 0)
    decreases |data|
  {
    if data == [] {
      ws := [];
      assert vs + ws == vs && out + data == out && Written(ws, alphabet) + Pads(0) == [];
    } else if |data| == 1 {
      ws := LastOne(data, alphabet, vs, out);
    } else if |data| == 2 {
      ws := LastTwo(data, alphabet, vs, out);
    } else {
      var four, three := FirstFour(data, alphabet);
      FourSame(vs, out, data[0], data[1], data[2]);
      var rest := EncodedFrom(data[3..], alphabet, vs + four, out + three);
      ws := four + rest;
      ShortOf(|data|);
      Joined(data, data[3..], alphabet, vs, out, four, three, rest, Short(|data|));
    }
  }

  lemma ShortOf(n: nat)
    requires n >= 3
    ensures Short(n - 3) == Short(n)
  {
  }

  lemma Joined(data: seq<byte>, tail: seq<byte>, alphabet: Alphabet, vs: seq<sextet>, out: seq<byte>,
               four: seq<sextet>, three: seq<byte>, rest: seq<sextet>, k: nat)
    requires data == three + tail && Encoded(data, alphabet) == Written(four, alphabet) + Encoded(tail, alphabet)
    requires Encoded(tail, alphabet) == Written(rest, alphabet) + Pads(k)
    requires SameNumber(vs + four + rest, out + three + tail, 2 * k, 0)
    ensures Encoded(data, alphabet) == Written(four + rest, alphabet) + Pads(k)
    ensures SameNumber(vs + (four + rest), out + data, 2 * k, 0)
  {
    WrittenConcat(four, rest, alphabet);
    Regroup(vs, four, rest, out, three, tail);
    JoinAssoc(Written(four, alphabet), Written(rest, alphabet), Pads(k));
  }

  lemma Regroup(vs: seq<sextet>, ws: seq<sextet>, xs: seq<sextet>, a: seq<byte>, b: seq<byte>, c: seq<byte>)
    ensures vs + ws + xs == vs + (ws + xs) && a + b + c == a + (b + c)
  {
  }

  lemma JoinAssoc(a: seq<byte>, b: seq<byte>, c: seq<byte>)
    ensures a + (b + c) == (a + b) + c
  {
  }

  /** An encoding is letters and as many pads as bytes are missing from the last three; the letters as one number are
      the bytes as one number, followed by no bits but zeros. */
  lemma EncodedIs(data: seq<byte>, alphabet: Alphabet) returns (vs: seq<sextet>)
    ensures Encoded(data, alphabet) == Written(vs, alphabet) + Pads(Short(|data|))
    ensures SameNumber(vs, data, 2 * Short(|data|), 0)
  {
    vs := EncodedFrom(data, alphabet, [], []);
    assert [] + vs == vs && [] + data == data;
  }
}
