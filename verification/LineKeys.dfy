/** What the line editor makes of the keys: typed characters, erasing, escape sequences and the end of a line. */
module LineKeys {
  import opened Bytes
  import opened Utf8
  import opened LineEditor

  /** The key puts its character: no line end, end of input, backspace, delete or escape. */
  predicate Plain(k: Key) { k.ch !in {0x0A, 0x0D, 0x04, 0xFFFF_FFFF, 0x1B, 0x08, 0x7F} }

  predicate AllPlain(keys: seq<Key>) { forall i :: 0 <= i < |keys| ==> Plain(keys[i]) }

  /** The characters of the keys, with no width below zero. */
  function Typed(keys: seq<Key>): (r: seq<Glyph>)
    ensures |r| == |keys|
  {
    seq(|keys|, i requires 0 <= i < |keys| => Glyph(keys[i].ch, if keys[i].width < 0 then 0 else keys[i].width))
  }

  /** Keys that put their characters put them one behind the other. */
  lemma {:induction false} TypedKeys(keys: seq<Key>, rest: seq<Key>, glyphs: seq<Glyph>)
    requires AllPlain(keys)
    ensures Edited(keys + rest, glyphs) == Edited(rest, glyphs + Typed(keys))
    decreases |keys|
  {
    if keys == [] {
      assert keys + rest == rest && glyphs + Typed(keys) == glyphs;
    } else {
      var g := Typed(keys)[0];
      assert Plain(keys[0]) && (keys + rest)[0] == keys[0] && (keys + rest)[1..] == keys[1..] + rest;
      TypedKeys(keys[1..], rest, glyphs + [g]);
      assert glyphs + [g] + Typed(keys[1..]) == glyphs + Typed(keys);
    }
  }

  /** A line ends at a carriage return or a line feed; control-D, the end of the input or no more keys end the input. */
  lemma LineEnds(end: Key, rest: seq<Key>, glyphs: seq<Glyph>)
    ensures end.ch in {0x0A, 0x0D} ==> Edited([end] + rest, glyphs) == (glyphs, false)
    ensures end.ch in {0x04, 0xFFFF_FFFF} ==> Edited([end] + rest, glyphs) == (glyphs, true)
    ensures Edited([], glyphs) == (glyphs, true)
  {
    assert ([end] + rest)[0] == end;
  }

  /** A backspace or a delete takes back a character and the widthless ones behind it. */
  lemma EraseUndoes(k: Key, marks: seq<Key>, erase: Key, rest: seq<Key>, glyphs: seq<Glyph>)
    requires Plain(k) && k.width > 0 && AllPlain(marks) && erase.ch in {0x08, 0x7F}
    requires forall i :: 0 <= i < |marks| ==> marks[i].width <= 0
    ensures Edited([k] + marks + ([erase] + rest), glyphs) == Edited(rest, glyphs)
  {
    var keys := [k] + marks;
    TypedKeys(keys, [erase] + rest, glyphs);
    assert ([erase] + rest)[0] == erase && ([erase] + rest)[1..] == rest;
    var put := glyphs + Typed(keys);
    assert put == glyphs + [Typed(keys)[0]] + Typed(marks);
    ErasedBehind(glyphs, Typed(keys)[0], Typed(marks));
  }

  lemma {:induction false} ErasedBehind(glyphs: seq<Glyph>, g: Glyph, marks: seq<Glyph>)
    requires g.width > 0 && forall i :: 0 <= i < |marks| ==> marks[i].width == 0
    ensures Erased(glyphs + [g] + marks) == glyphs
    decreases |marks|
  {
    var all := glyphs + [g] + marks;
    if marks == [] {
      assert all == glyphs + [g] && (glyphs + [g])[..|glyphs|] == glyphs;
    } else {
      var n := |marks| - 1;
      assert all[|all| - 1] == marks[n] && all[..|all| - 1] == glyphs + [g] + marks[..n];
      ErasedBehind(glyphs, g, marks[..n]);
    }
  }

  /** Erasing on an empty line, or one of widthless characters alone, leaves it empty. */
  lemma {:induction false} NothingToErase(marks: seq<Glyph>, erase: Key, rest: seq<Key>)
    requires erase.ch in {0x08, 0x7F} && forall i :: 0 <= i < |marks| ==> marks[i].width == 0
    ensures Edited([erase] + rest, marks) == Edited(rest, [])
    decreases |marks|
  {
    assert ([erase] + rest)[0] == erase && ([erase] + rest)[1..] == rest;
    if marks != [] { NothingToErase(marks[..|marks| - 1], erase, rest); }
  }

  // Escape sequences

  /** A letter or a tilde ends a sequence. */
  predicate Final(k: Key) { 0x41 <= k.ch <= 0x5A || 0x61 <= k.ch <= 0x7A || k.ch == 0x7E }

  lemma {:induction false} CodeSkipped(inner: seq<Key>, final: Key, rest: seq<Key>)
    requires Final(final) && forall i :: 0 <= i < |inner| ==> !Final(inner[i]) && inner[i].ch != 0xFFFF_FFFF
    ensures AfterCode(inner + ([final] + rest)) == rest
    decreases |inner|
  {
    var keys := inner + ([final] + rest);
    if inner == [] {
      assert keys[0] == final && keys[1..] == rest;
    } else {
      assert keys[0] == inner[0] && !Final(inner[0]) && keys[1..] == inner[1..] + ([final] + rest);
      CodeSkipped(inner[1..], final, rest);
    }
  }

  /** An escape sequence changes nothing: escape and `[` or another escape, up to a letter or a tilde. */
  lemma SequenceIgnored(esc: Key, open: Key, inner: seq<Key>, final: Key, rest: seq<Key>, glyphs: seq<Glyph>)
    requires esc.ch == 0x1B && open.ch in {0x5B, 0x1B} && Final(final)
    requires forall i :: 0 <= i < |inner| ==> !Final(inner[i]) && inner[i].ch != 0xFFFF_FFFF
    ensures Edited([esc, open] + (inner + ([final] + rest)), glyphs) == Edited(rest, glyphs)
  {
    var keys := [esc, open] + (inner + ([final] + rest));
    assert keys[0] == esc && keys[1..][0] == open && keys[1..][1..] == inner + ([final] + rest);
    CodeSkipped(inner, final, rest);
  }

  /** The end of the input ends a sequence too. */
  lemma SequenceCutOff(esc: Key, open: Key, inner: seq<Key>, eof: Key, rest: seq<Key>, glyphs: seq<Glyph>)
    requires esc.ch == 0x1B && open.ch in {0x5B, 0x1B} && eof.ch == 0xFFFF_FFFF
    requires forall i :: 0 <= i < |inner| ==> !Final(inner[i]) && inner[i].ch != 0xFFFF_FFFF
    ensures Edited([esc, open] + (inner + ([eof] + rest)), glyphs) == Edited(rest, glyphs)
  {
    var keys := [esc, open] + (inner + ([eof] + rest));
    assert keys[0] == esc && keys[1..][0] == open && keys[1..][1..] == inner + ([eof] + rest);
    CodeCutOff(inner, eof, rest);
  }

  lemma {:induction false} CodeCutOff(inner: seq<Key>, eof: Key, rest: seq<Key>)
    requires eof.ch == 0xFFFF_FFFF
    requires forall i :: 0 <= i < |inner| ==> !Final(inner[i]) && inner[i].ch != 0xFFFF_FFFF
    ensures AfterCode(inner + ([eof] + rest)) == rest
    decreases |inner|
  {
    var keys := inner + ([eof] + rest);
    if inner == [] {
      assert keys[0] == eof && keys[1..] == rest;
    } else {
      assert keys[0] == inner[0] && !Final(inner[0]) && keys[1..] == inner[1..] + ([eof] + rest);
      CodeCutOff(inner[1..], eof, rest);
    }
  }

  /** Behind any other key it is that key alone. */
  lemma EscapedKeyIgnored(esc: Key, key: Key, rest: seq<Key>, glyphs: seq<Glyph>)
    requires esc.ch == 0x1B && key.ch !in {0x5B, 0x1B}
    ensures Edited([esc, key] + rest, glyphs) == Edited(rest, glyphs)
  {
    var keys := [esc, key] + rest;
    assert keys[0] == esc && keys[1..][0] == key && keys[1..][1..] == rest;
  }

  // The line handed back

  /** The bytes of the keys' characters. */
  function TextOf(keys: seq<Key>): seq<byte> {
    if keys == [] then [] else TextOf(keys[..|keys| - 1]) + Encode(keys[|keys| - 1].ch)
  }

  lemma {:induction false} TextIs(keys: seq<Key>)
    ensures LineBytes(Typed(keys)) == TextOf(keys)
  {
    if keys != [] {
      var n := |keys| - 1;
      TextIs(keys[..n]);
      assert Typed(keys)[..n] == Typed(keys[..n]);
    }
  }

  const NEWLINE: seq<byte> := [0x0A]

  /**
   * What is handed back for typed keys and the key that ends them: a backslash at the end continues a single line and
   * ends several, a slash at the end ends the input, and it goes with a blank that is all there is in front of it;
   * any other line has its line end, but at the end of the input.
   */
  lemma EnteredLine(keys: seq<Key>, end: Key, rest: seq<Key>, multiline: bool)
    requires AllPlain(keys) && keys != [] && end.ch in {0x0A, 0x0D, 0x04, 0xFFFF_FFFF}
    ensures var n := |keys| - 1;
      var r := Edited(keys + ([end] + rest), []);
      Finished(r.0, r.1, multiline) ==
        if keys[n].ch == 0x5C then (TextOf(keys[..n]) + NEWLINE, !multiline)
        else if keys[n].ch == 0x2F then
          (if n == 1 && keys[0].ch == 0x20 then [] else TextOf(keys[..n]), false)
        else if end.ch in {0x04, 0xFFFF_FFFF} then (TextOf(keys), false)
        else (TextOf(keys) + NEWLINE, multiline)
  {
    TypedKeys(keys, [end] + rest, []);
    LineEnds(end, rest, Typed(keys));
    assert [] + Typed(keys) == Typed(keys);
    FinishedTyped(keys, end.ch in {0x04, 0xFFFF_FFFF}, multiline);
  }

  lemma FinishedTyped(keys: seq<Key>, ended: bool, multiline: bool)
    requires keys != []
    ensures var n := |keys| - 1;
      Finished(Typed(keys), ended, multiline) ==
        if keys[n].ch == 0x5C then (TextOf(keys[..n]) + NEWLINE, !multiline)
        else if keys[n].ch == 0x2F then
          (if n == 1 && keys[0].ch == 0x20 then [] else TextOf(keys[..n]), false)
        else if ended then (TextOf(keys), false)
        else (TextOf(keys) + NEWLINE, multiline)
  {
    var n := |keys| - 1;
    assert Typed(keys)[..n] == Typed(keys[..n]);
    TextIs(keys);
    TextIs(keys[..n]);
  }

  /** An empty line is a line end, or nothing at the end of the input. */
  lemma EmptyLine(end: Key, rest: seq<Key>, multiline: bool)
    requires end.ch in {0x0A, 0x0D, 0x04, 0xFFFF_FFFF}
    ensures var r := Edited([end] + rest, []);
      Finished(r.0, r.1, multiline) == if end.ch in {0x0A, 0x0D} then (NEWLINE, multiline) else ([], false)
  {
    LineEnds(end, rest, []);
    assert LineBytes([]) + NEWLINE == NEWLINE;
  }
}
