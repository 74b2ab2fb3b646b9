/** The console's line editor: its bytes and widths against a list of characters on the screen. */
module LineEditor {
  import opened Bytes
  import opened Utf8

  /** A key, with the width that the terminal reports for it when it is put. */
  datatype Key = Key(ch: char32, width: int)

  /** A character of the line and the columns it takes. */
  datatype Glyph = Glyph(ch: char32, width: nat)

  const WEOF: char32 := 0xFFFF_FFFF
  const CTRL_D: char32 := 0x04
  const ESCAPE: char32 := 0x1B
  const BACKSPACE: char32 := 0x08
  const DELETE: char32 := 0x7F

  predicate Newline(c: char32) { c == '\r' as int || c == '\n' as int }

  predicate EndsInput(c: char32) { c == WEOF || c == CTRL_D }

  predicate Erases(c: char32) { c == BACKSPACE || c == DELETE }

  predicate EndsEscape(c: char32) {
    'A' as int <= c <= 'Z' as int || 'a' as int <= c <= 'z' as int || c == '~' as int
  }

  // The line as characters

  /** The bytes of a line. */
  function LineBytes(glyphs: seq<Glyph>): seq<byte> {
    if glyphs == [] then [] else LineBytes(glyphs[..|glyphs| - 1]) + Encode(glyphs[|glyphs| - 1].ch)
  }

  function Widths(glyphs: seq<Glyph>): (r: seq<nat>)
    ensures |r| == |glyphs|
  {
    seq(|glyphs|, i requires 0 <= i < |glyphs| => glyphs[i].width)
  }

  /** What a backspace leaves: the characters without a width at the end go, and one more. */
  function Erased(glyphs: seq<Glyph>): (r: seq<Glyph>)
    ensures |r| <= |glyphs|
  {
    if glyphs == [] then []
    else if glyphs[|glyphs| - 1].width == 0 then Erased(glyphs[..|glyphs| - 1])
    else glyphs[..|glyphs| - 1]
  }

  lemma {:induction false} ErasedIs(glyphs: seq<Glyph>)
    requires glyphs != []
    ensures |Erased(glyphs)| < |glyphs| && Erased(glyphs) == glyphs[..|Erased(glyphs)|]
    ensures forall i :: |Erased(glyphs)| < i < |glyphs| ==> glyphs[i].width == 0
    ensures glyphs[|Erased(glyphs)|].width == 0 ==> Erased(glyphs) == []
  {
    var k := |glyphs| - 1;
    if glyphs[k].width == 0 && k > 0 {
      ErasedIs(glyphs[..k]);
    }
  }

  /** The keys left after an escape sequence. */
  function AfterEscape(keys: seq<Key>): (r: seq<Key>)
    ensures |r| <= |keys|
  {
    if keys == [] then []
    else if keys[0].ch == '[' as int || keys[0].ch == ESCAPE then AfterCode(keys[1..])
    else keys[1..]
  }

  function AfterCode(keys: seq<Key>): (r: seq<Key>)
    ensures |r| <= |keys|
  {
    if keys == [] then []
    else if keys[0].ch == WEOF || EndsEscape(keys[0].ch) then keys[1..]
    else AfterCode(keys[1..])
  }

  /** The characters on the line when it ends, and whether the input ended with it. */
  function Edited(keys: seq<Key>, glyphs: seq<Glyph>): (seq<Glyph>, bool)
    decreases |keys|
  {
    if keys == [] then (glyphs, true)
    else
      var k := keys[0];
      if Newline(k.ch) then (glyphs, false)
      else if EndsInput(k.ch) then (glyphs, true)
      else if k.ch == ESCAPE then Edited(AfterEscape(keys[1..]), glyphs)
      else if Erases(k.ch) then Edited(keys[1..], Erased(glyphs))
      else Edited(keys[1..], glyphs + [Glyph(k.ch, if k.width < 0 then 0 else k.width)])
  }

  predicate LastIs(glyphs: seq<Glyph>, c: char) { glyphs != [] && glyphs[|glyphs| - 1].ch == c as int }

  /** The line handed back and whether more is to follow: a last backslash turns that round, a last slash ends it. */
  function Finished(glyphs: seq<Glyph>, endOfStream: bool, multiline: bool): (seq<byte>, bool) {
    var n := |glyphs| - 1;
    if LastIs(glyphs, '\\') then (LineBytes(glyphs[..n]) + ['\n' as int], !multiline)
    else if LastIs(glyphs, '/') then
      ((if n == 1 && glyphs[0].ch == ' ' as int then [] else LineBytes(glyphs[..n])), false)
    else if endOfStream then (LineBytes(glyphs), false)
    else (LineBytes(glyphs) + ['\n' as int], multiline)
  }

  predicate CodePoints(keys: seq<Key>) { forall i :: 0 <= i < |keys| ==> keys[i].ch <= LAST_CODE_POINT }

  predicate GlyphCodePoints(glyphs: seq<Glyph>) { forall i :: 0 <= i < |glyphs| ==> glyphs[i].ch <= LAST_CODE_POINT }

  // Bytes and characters

  lemma BytesSnoc(glyphs: seq<Glyph>, g: Glyph)
    ensures LineBytes(glyphs + [g]) == LineBytes(glyphs) + Encode(g.ch)
    ensures Widths(glyphs + [g]) == Widths(glyphs) + [g.width]
  {
    assert (glyphs + [g])[..|glyphs|] == glyphs;
  }

  /** The last byte is a backslash or a slash exactly when the last character is. */
  lemma LastByte(glyphs: seq<Glyph>, c: char)
    requires GlyphCodePoints(glyphs) && c as int < 0x80
    ensures (LineBytes(glyphs) != [] && LineBytes(glyphs)[|LineBytes(glyphs)| - 1] == c as int) <==> LastIs(glyphs, c)
    ensures LastIs(glyphs, c) ==>
              LineBytes(glyphs)[..|LineBytes(glyphs)| - 1] == LineBytes(glyphs[..|glyphs| - 1])
  {
    if glyphs != [] { EncodeShape(glyphs[|glyphs| - 1].ch); }
  }

  predicate EndsSpecial(line: seq<byte>) {
    line != [] && (line[|line| - 1] == '\\' as int || line[|line| - 1] == '/' as int)
  }

  /** A single space is a line of one character. */
  lemma OneSpace(glyphs: seq<Glyph>)
    requires GlyphCodePoints(glyphs)
    ensures LineBytes(glyphs) == [' ' as int] <==> |glyphs| == 1 && glyphs[0].ch == ' ' as int
  {
    if glyphs != [] {
      var n := |glyphs| - 1;
      EncodeShape(glyphs[n].ch);
      if n > 0 { EncodeShape(glyphs[n - 1].ch); }
    }
  }

  // The program

  /** What holds of the program's variables between keys, when every key is a code point. */
  ghost predicate Shows(line: seq<byte>, widths: seq<nat>, glyphs: seq<Glyph>) {
    line == LineBytes(glyphs) && widths == Widths(glyphs) && GlyphCodePoints(glyphs)
  }

  lemma ShowsShorter(line: seq<byte>, widths: seq<nat>, glyphs: seq<Glyph>)
    requires Shows(line, widths, glyphs) && glyphs != []
    ensures widths != [] && widths[|widths| - 1] == glyphs[|glyphs| - 1].width
    ensures Shows(Popped(line), widths[..|widths| - 1], glyphs[..|glyphs| - 1])
  {
    PoppedIs(LineBytes(glyphs[..|glyphs| - 1]), glyphs[|glyphs| - 1].ch);
  }

  /** Takes characters back for one backspace. */
  method Backspace(line0: seq<byte>, widths0: seq<nat>, ghost glyphs: seq<Glyph>)
    returns (line: seq<byte>, widths: seq<nat>)
    requires widths0 != []
    ensures |widths| < |widths0|
    ensures Shows(line0, widths0, glyphs) ==> Shows(line, widths, Erased(glyphs))
  {
    line, widths := line0, widths0;
    ghost var left := glyphs;
    var count := 0;
    var first := true;
    while first || (count == 0 && widths != [])
      invariant first ==> widths == widths0 && left == glyphs
      invariant !first ==> |widths| < |widths0|
      invariant Shows(line0, widths0, glyphs) ==> Shows(line, widths, left)
      invariant Shows(line0, widths0, glyphs) ==> Erased(glyphs) == if first || count == 0 then Erased(left) else left
      decreases |widths|
    {
      if left != [] {
        if Shows(line, widths, left) { ShowsShorter(line, widths, left); }
        left := left[..|left| - 1];
      }
      first := false;
      count := widths[|widths| - 1];
      widths := widths[..|widths| - 1];
      line := PopBackUtf8Char(line);
    }
  }

  /** Reads keys from position p on until an escape sequence is over. */
  method SkipEscape(keys: seq<Key>, p0: nat) returns (p: nat)
    requires p0 <= |keys|
    ensures p0 <= p <= |keys| && keys[p..] == AfterEscape(keys[p0..])
  {
    p := p0;
    if p == |keys| {
      return;
    }
    var code := keys[p].ch;
    assert keys[p0..][1..] == keys[p0 + 1..];
    p := p + 1;
    if code == '[' as int || code == ESCAPE {
      while p < |keys|
        invariant p0 < p <= |keys|
        invariant AfterCode(keys[p..]) == AfterCode(keys[p0 + 1..])
      {
        code := keys[p].ch;
        assert keys[p..][1..] == keys[p + 1..];
        p := p + 1;
        if code == WEOF || EndsEscape(code) {
          return;
        }
      }
    }
  }

  /** Puts a character at the end of the line. */
  method Put(line0: seq<byte>, widths0: seq<nat>, key: Key, ghost glyphs: seq<Glyph>)
    returns (line: seq<byte>, widths: seq<nat>)
    ensures Shows(line0, widths0, glyphs) && key.ch <= LAST_CODE_POINT ==>
              Shows(line, widths, glyphs + [Glyph(key.ch, if key.width < 0 then 0 else key.width)])
  {
    line := AppendUtf8(key.ch, line0);
    var width := key.width;
    if width < 0 {
      width := 0;
    }
    widths := widths0 + [width];
    BytesSnoc(glyphs, Glyph(key.ch, width));
  }

  /** The keys up to the end of the line. */
  method EditLine(keys: seq<Key>)
    returns (line: seq<byte>, isSpecialChar: bool, endOfStream: bool, ghost glyphs: seq<Glyph>)
    ensures isSpecialChar <==> EndsSpecial(line)
    ensures CodePoints(keys) ==>
              line == LineBytes(glyphs) && GlyphCodePoints(glyphs) && Edited(keys, []) == (glyphs, endOfStream)
  {
    line := [];
    var widths: seq<nat> := [];
    isSpecialChar, endOfStream, glyphs := false, false, [];
    var p := 0;
    assert keys[0..] == keys;
    while true
      invariant p <= |keys| && !endOfStream
      invariant isSpecialChar <==> EndsSpecial(line)
      invariant CodePoints(keys) ==> Shows(line, widths, glyphs)
      invariant CodePoints(keys) ==> Edited(keys[p..], glyphs) == Edited(keys, [])
      decreases |keys| - p
    {
      var inputChar := if p < |keys| then keys[p].ch else WEOF;
      if Newline(inputChar) {
        break;
      }
      if EndsInput(inputChar) {
        endOfStream := true;
        break;
      }
      assert keys[p..][1..] == keys[p + 1..];
      var key := keys[p];
      p := p + 1;
      if isSpecialChar {
        assert line != [];
        isSpecialChar := false;
      }
      if inputChar == ESCAPE {
        p := SkipEscape(keys, p);
      } else if Erases(inputChar) {
        if widths != [] {
          line, widths := Backspace(line, widths, glyphs);
        }
        glyphs := Erased(glyphs);
      } else {
        line, widths := Put(line, widths, key, glyphs);
        glyphs := glyphs + [Glyph(key.ch, if key.width < 0 then 0 else key.width)];
      }
      if line != [] && (line[|line| - 1] == '\\' as int || line[|line| - 1] == '/' as int) {
        isSpecialChar := true;
      }
    }
  }

  method ReadlineAdvanced(keys: seq<Key>, multiline: bool) returns (line: seq<byte>, hasMore: bool)
    ensures CodePoints(keys) ==>
              var edited := Edited(keys, []);
              GlyphCodePoints(edited.0) && (line, hasMore) == Finished(edited.0, edited.1, multiline)
  {
    var isSpecialChar, endOfStream;
    ghost var glyphs;
    line, isSpecialChar, endOfStream, glyphs := EditLine(keys);
    if CodePoints(keys) {
      LastByte(glyphs, '\\');
      LastByte(glyphs, '/');
      if glyphs != [] { OneSpace(glyphs[..|glyphs| - 1]); }
    }
    hasMore := multiline;
    if isSpecialChar {
      var last := line[|line| - 1];
      line := line[..|line| - 1];
      if last == '\\' as int {
        line := line + ['\n' as int];
        hasMore := !hasMore;
      } else {
        if |line| == 1 && line[0] == ' ' as int {
          assert line == [' ' as int];
          line := [];
        }
        hasMore := false;
      }
    } else {
      if endOfStream {
        hasMore := false;
      } else {
        line := line + ['\n' as int];
      }
    }
  }
}
