/** What the scanner makes of escapes, whitespace and numbers: sections 2, 6 and 7 of RFC 8259. */
module JsonLexemes {
  import opened Text
  import opened JsonText
  import opened JsonReader
  import opened JsonShape
  import opened JsonLocator
  import opened JsonProbes
  import opened JsonErrors

  // Escapes

  const LOWER := "0123456789abcdef"
  const UPPER := "0123456789ABCDEF"

  /** The character is that digit, in either case. */
  predicate Spells(c: char, d: nibble) { c == LOWER[d] || c == UPPER[d] }

  lemma SpelledDigit(c: char, d: nibble)
    requires Spells(c, d)
    ensures IsHex(c) && HexDigit(c) == d
  {
  }

  /** Exactly the digits of one of the two cases are hexadecimal. */
  lemma HexIsSpelled(c: char)
    ensures IsHex(c) <==> exists d: nibble :: Spells(c, d)
  {
    if IsHex(c) { assert Spells(c, HexDigit(c)); }
    if d: nibble :| Spells(c, d) { SpelledDigit(c, d); }
  }

  function Unit(a: nibble, b: nibble, c: nibble, d: nibble): nat { 0x1000 * a + 0x100 * b + 0x10 * c + d }

  predicate Surrogate(unit: nat) { 0xD800 <= unit < 0xE000 }

  function AfterCode(role: Role, x: string, stack: Stack, r: Decoding): State {
    match r
    case More(next) => State(InUnicode(role, x, next), stack)
    case Decoded(u) => State(InString(role, x + [u]), stack)
    case Broken => FAILED
  }

  /** Four digits behind `\u`, after what is in front of them. */
  lemma ReadUnit(role: Role, x: string, stack: Stack, first: Option<nat>, a: nibble, b: nibble, c: nibble, d: nibble,
                 h: string)
    requires |h| == 4 && Spells(h[0], a) && Spells(h[1], b) && Spells(h[2], c) && Spells(h[3], d)
    ensures Run(State(InUnicode(role, x, Hex(first, [])), stack), h)
         == AfterCode(role, x, stack, CodePoint(first, Unit(a, b, c, d)))
  {
    SpelledDigit(h[0], a);
    SpelledDigit(h[1], b);
    SpelledDigit(h[2], c);
    SpelledDigit(h[3], d);
    assert h == [h[0], h[1], h[2], h[3]];
    Run4(State(InUnicode(role, x, Hex(first, [])), stack), h[0], h[1], h[2], h[3]);
    DigitsGather(first, a, b, c, d, h);
  }

  lemma DigitsGather(first: Option<nat>, a: nibble, b: nibble, c: nibble, d: nibble, h: string)
    requires |h| == 4 && IsHex(h[0]) && IsHex(h[1]) && IsHex(h[2]) && IsHex(h[3])
    requires HexDigit(h[0]) == a && HexDigit(h[1]) == b && HexDigit(h[2]) == c && HexDigit(h[3]) == d
    ensures Decode(Hex(first, []), h[0]) == More(Hex(first, [a]))
    ensures Decode(Hex(first, [a]), h[1]) == More(Hex(first, [a, b]))
    ensures Decode(Hex(first, [a, b]), h[2]) == More(Hex(first, [a, b, c]))
    ensures Decode(Hex(first, [a, b, c]), h[3]) == CodePoint(first, Unit(a, b, c, d))
  {
    assert [] + [a] == [a] && [a] + [b] == [a, b] && [a, b] + [c] == [a, b, c];
  }

  /** A character of four digits is read as that character; half of a pair alone is no character. */
  lemma EscapeRead(role: Role, x: string, stack: Stack, a: nibble, b: nibble, c: nibble, d: nibble, h: string)
    requires |h| == 4 && Spells(h[0], a) && Spells(h[1], b) && Spells(h[2], c) && Spells(h[3], d)
    ensures var u, s := Unit(a, b, c, d), Run(State(InString(role, x), stack), ['\\', 'u'] + h);
      && (!Surrogate(u) ==> s == State(InString(role, x + [u as char]), stack))
      && (0xDC00 <= u < 0xE000 ==> s.mode.Failed?)
      && (0xD800 <= u < 0xDC00 ==> s == State(InUnicode(role, x, Backslash(u)), stack))
  {
    var s := State(InString(role, x), stack);
    CodeStarts(s);
    ReadUnit(role, x, stack, None, a, b, c, d, h);
    RunConcat(s, ['\\', 'u'], h);
  }

  /** Behind the first half of a pair only a second half makes a character: the one whose halves they are. */
  lemma PairRead(role: Role, x: string, stack: Stack, high: nat, a: nibble, b: nibble, c: nibble, d: nibble, h: string)
    requires |h| == 4 && Spells(h[0], a) && Spells(h[1], b) && Spells(h[2], c) && Spells(h[3], d)
    requires 0xD800 <= high < 0xDC00
    ensures var u, s := Unit(a, b, c, d), Run(State(InUnicode(role, x, Backslash(high)), stack), ['\\', 'u'] + h);
      if 0xDC00 <= u < 0xE000
      then s == State(InString(role, x + [(0x10000 + (high - 0xD800) * 0x400 + (u - 0xDC00)) as char]), stack)
      else s.mode.Failed?
  {
    var s := State(InUnicode(role, x, Backslash(high)), stack);
    Run2(s, '\\', 'u');
    ReadUnit(role, x, stack, Some(high), a, b, c, d, h);
    RunConcat(s, ['\\', 'u'], h);
  }

  lemma NoPair(role: Role, x: string, stack: Stack, high: nat, c: char)
    requires c != '\\'
    ensures Step(State(InUnicode(role, x, Backslash(high)), stack), c).mode.Failed?
  {
  }

  /** Every character beyond the first sixteen bits has two such halves. */
  lemma EveryPair(c: char)
    requires c as nat >= 0x10000
    ensures var n := c as nat - 0x10000;
      var high, low := 0xD800 + n / 0x400, 0xDC00 + n % 0x400;
      && high < 0xDC00 && low < 0xE000 && (0x10000 + (high - 0xD800) * 0x400 + (low - 0xDC00)) == c as nat
  {
  }

  const ESCAPE_LETTERS := "\"\\/bfnrt"
  const ESCAPED: string := ['"', '\\', '/', 8 as char, 12 as char, 10 as char, 13 as char, 9 as char]

  /** The other escapes are of one letter. */
  lemma LetterRead(role: Role, x: string, stack: Stack, c: char)
    requires c != 'u'
    ensures var s := Step(State(InEscape(role, x), stack), c);
      && (forall i :: 0 <= i < 8 && c == ESCAPE_LETTERS[i] ==> s == State(InString(role, x + [ESCAPED[i]]), stack))
      && (c !in ESCAPE_LETTERS ==> s.mode.Failed?)
  {
  }

  // Whitespace

  /** Between tokens blanks, tabs and line ends make no difference. */
  lemma SpaceSkipped(a: string, c: char, b: string)
    requires c in {' ', '\t', '\n', '\r'} && BetweenTokens(Run(START, a).mode)
    ensures Parse(a + [c] + b) == Parse(a + b)
  {
    RunSnoc(START, a, c);
    if Run(START, a).mode.Failed? {
      FailsBehind(a, b);
      FailsBehind(a + [c], b);
    } else {
      SpaceStep(Run(START, a), c);
      SameBehind(a + [c], a, b);
    }
  }

  lemma FailsBehind(a: string, b: string)
    requires Run(START, a).mode.Failed?
    ensures Parse(a + b).None?
  {
    RunConcat(START, a, b);
    RunFailed(Run(START, a), b);
  }

  lemma SpaceStep(s: State, c: char)
    requires c in {' ', '\t', '\n', '\r'} && BetweenTokens(s.mode) && !s.mode.Failed?
    ensures Step(s, c) == s
  {
  }

  lemma SameBehind(a: string, a': string, b: string)
    requires Run(START, a) == Run(START, a')
    ensures Parse(a + b) == Parse(a' + b)
  {
    RunConcat(START, a, b);
    RunConcat(START, a', b);
  }

  /** No other control character may stand anywhere. */
  lemma ControlRefused(a: string, c: char, b: string)
    requires c < ' ' && c !in {'\t', '\n', '\r'}
    ensures Parse(a + [c] + b).None?
  {
    RunSnoc(START, a, c);
    ControlFails(Run(START, a), c);
    FailsBehind(a + [c], b);
  }

  lemma ControlFails(s: State, c: char)
    requires c < ' ' && c !in {'\t', '\n', '\r'}
    ensures Step(s, c).mode.Failed?
  {
  }

  // Numbers

  predicate Digits(w: string) { w != [] && forall i :: 0 <= i < |w| ==> IsDigit(w[i]) }

  predicate IntPart(w: string) { Digits(w) && (w[0] == '0' ==> |w| == 1) }

  predicate FracPart(w: string) { w == [] || (w[0] == '.' && Digits(w[1..])) }

  predicate ExpPart(w: string) {
    w == [] || (w[0] in {'e', 'E'} && (Digits(w[1..]) || (|w| > 1 && w[1] in {'+', '-'} && Digits(w[2..]))))
  }

  datatype Parts = Parts(sign: string, whole: string, frac: string, exp: string)

  function PartsText(p: Parts): string { p.sign + p.whole + p.frac + p.exp }

  /** Section 6 of RFC 8259: a sign, a whole part without leading zeros, a fraction and an exponent. */
  predicate NumberParts(p: Parts) { p.sign in {"", "-"} && IntPart(p.whole) && FracPart(p.frac) && ExpPart(p.exp) }

  /** What the automaton has seen of a number in each of its states. */
  predicate Seen(p: Parts, n: NumState) {
    && p.sign in {"", "-"}
    && match n
       case Bad => true
       case Minus => p == Parts("-", "", "", "")
       case Zero => p.whole == "0" && p.frac == "" && p.exp == ""
       case Int => IntPart(p.whole) && p.whole[0] != '0' && p.frac == "" && p.exp == ""
       case Dot => IntPart(p.whole) && p.frac == "." && p.exp == ""
       case Frac => IntPart(p.whole) && FracPart(p.frac) && p.frac != "" && p.exp == ""
       case Exp => IntPart(p.whole) && FracPart(p.frac) && |p.exp| == 1 && p.exp[0] in {'e', 'E'}
       case ExpSign =>
         IntPart(p.whole) && FracPart(p.frac) && |p.exp| == 2 && p.exp[0] in {'e', 'E'} && p.exp[1] in {'+', '-'}
       case ExpDigits => IntPart(p.whole) && FracPart(p.frac) && ExpPart(p.exp) && p.exp != ""
  }

  lemma DigitsSnoc(w: string, c: char)
    ensures Digits(w + [c]) <==> IsDigit(c) && (w == "" || Digits(w))
  {
    if Digits(w + [c]) {
      assert (w + [c])[|w|] == c;
      forall i | 0 <= i < |w| ensures IsDigit(w[i]) { assert w[i] == (w + [c])[i]; }
    }
  }

  /** The part that one more character belongs to. */
  function Grown(p: Parts, n: NumState, c: char): Parts {
    match NumStep(n, c)
    case Zero => p.(whole := p.whole + [c])
    case Int => p.(whole := p.whole + [c])
    case Dot => p.(frac := p.frac + [c])
    case Frac => p.(frac := p.frac + [c])
    case _ => p.(exp := p.exp + [c])
  }

  lemma GrownText(p: Parts, n: NumState, c: char)
    requires Seen(p, n) && NumStep(n, c) != Bad
    ensures PartsText(Grown(p, n, c)) == PartsText(p) + [c]
  {
  }

  lemma GrownSeen(p: Parts, n: NumState, c: char)
    requires Seen(p, n) && NumStep(n, c) != Bad && n != Bad
    ensures Seen(Grown(p, n, c), NumStep(n, c))
  {
    DigitsSnoc(p.whole, c);
    match n
    case Dot => DotGrown(p.frac, c);
    case Frac => if IsDigit(c) { TailGrown(p.frac, c); }
    case Exp => assert (p.exp + [c])[1..] == [c];
    case ExpSign => assert (p.exp + [c])[2..] == [c];
    case ExpDigits => ExpGrown(p.exp, c);
    case _ =>
  }

  lemma DotGrown(w: string, c: char)
    requires w == "."
    ensures (w + [c])[0] == '.' && (w + [c])[1..] == [c]
  {
  }

  lemma TailGrown(w: string, c: char)
    requires w != "" && Digits(w[1..]) && IsDigit(c)
    ensures (w + [c])[0] == w[0] && Digits((w + [c])[1..])
  {
    assert (w + [c])[1..] == w[1..] + [c];
    DigitsSnoc(w[1..], c);
  }

  lemma ExpGrown(w: string, c: char)
    requires ExpPart(w) && w != "" && IsDigit(c)
    ensures ExpPart(w + [c])
  {
    if Digits(w[1..]) {
      TailGrown(w, c);
    } else {
      assert (w + [c])[2..] == w[2..] + [c] && (w + [c])[1] == w[1];
      DigitsSnoc(w[2..], c);
    }
  }

  lemma {:induction false} SeenRun(t: string) returns (p: Parts)
    requires NumRun(t) != Bad
    ensures PartsText(p) == t && Seen(p, NumRun(t))
  {
    if |t| == 1 {
      p := SeenFirst(t);
    } else {
      var n := |t| - 1;
      var q := SeenRun(t[..n]);
      assert t == t[..n] + [t[n]];
      p := SeenNext(q, t[..n], t[n], t);
    }
  }

  lemma SeenFirst(t: string) returns (p: Parts)
    requires |t| == 1 && NumStart(t[0]) != Bad
    ensures PartsText(p) == t && Seen(p, NumStart(t[0]))
  {
    p := if t[0] == '-' then Parts("-", "", "", "") else Parts("", t, "", "");
    assert t == [t[0]];
  }

  lemma SeenNext(q: Parts, front: string, c: char, t: string) returns (p: Parts)
    requires PartsText(q) == front && Seen(q, NumRun(front)) && front != ""
    requires NumStep(NumRun(front), c) != Bad && t == front + [c]
    ensures PartsText(p) == t && Seen(p, NumStep(NumRun(front), c))
  {
    GrownText(q, NumRun(front), c);
    GrownSeen(q, NumRun(front), c);
    p := Grown(q, NumRun(front), c);
  }

  lemma {:induction false} DigitsRun(a: string, w: string)
    requires NumRun(a) in {Int, Frac, ExpDigits} && forall i :: 0 <= i < |w| ==> IsDigit(w[i])
    ensures NumRun(a + w) == NumRun(a)
    decreases |w|
  {
    if w == [] {
      assert a + w == a;
    } else {
      NumRunSnoc(a, w[0]);
      DigitsRun(a + [w[0]], w[1..]);
      assert a + [w[0]] + w[1..] == a + w;
    }
  }

  lemma WholeRun(sign: string, w: string)
    requires sign in {"", "-"} && IntPart(w)
    ensures NumRun(sign + w) == if w[0] == '0' then Zero else Int
  {
    var a := sign + [w[0]];
    if sign == "" {
      assert a == [w[0]];
    } else {
      NumRunSnoc("-", w[0]);
    }
    assert sign + w == a + w[1..];
    if w[0] == '0' { assert a + w[1..] == a; } else { DigitsRun(a, w[1..]); }
  }

  lemma FracRun(a: string, w: string)
    requires NumRun(a) in {Zero, Int} && FracPart(w)
    ensures NumRun(a + w) == if w == "" then NumRun(a) else Frac
  {
    if w == "" {
      assert a + w == a;
    } else {
      NumRunSnoc(a, '.');
      NumRunSnoc(a + ".", w[1]);
      DigitsRun(a + "." + [w[1]], w[2..]);
      assert w[1..][0] == w[1] && forall i :: 2 <= i < |w| ==> w[i] == w[1..][i - 1];
      assert a + "." + [w[1]] + w[2..] == a + w;
    }
  }

  lemma ExpRun(a: string, w: string)
    requires NumRun(a) in {Zero, Int, Frac} && ExpPart(w)
    ensures NumComplete(NumRun(a + w))
  {
    if w == "" {
      assert a + w == a;
    } else {
      NumRunSnoc(a, w[0]);
      TailGlue(a, w);
      ExpTailRun(a + [w[0]], w[1..]);
    }
  }

  lemma TailGlue(a: string, w: string)
    requires w != ""
    ensures a + [w[0]] + w[1..] == a + w
  {
  }

  lemma ExpTailRun(a: string, w: string)
    requires NumRun(a) == Exp && a != ""
    requires Digits(w) || (w != "" && w[0] in {'+', '-'} && Digits(w[1..]))
    ensures NumRun(a + w) == ExpDigits
  {
    if Digits(w) {
      ExpDigitsRun(a, w);
    } else {
      NumRunSnoc(a, w[0]);
      TailGlue(a, w);
      ExpDigitsRun(a + [w[0]], w[1..]);
    }
  }

  lemma ExpDigitsRun(a: string, w: string)
    requires NumRun(a) in {Exp, ExpSign} && Digits(w) && a != ""
    ensures NumRun(a + w) == ExpDigits
  {
    NumRunSnoc(a, w[0]);
    DigitsRun(a + [w[0]], w[1..]);
    assert a + [w[0]] + w[1..] == a + w;
  }

  lemma PartsRun(p: Parts)
    requires NumberParts(p)
    ensures IsNumber(PartsText(p))
  {
    WholeRun(p.sign, p.whole);
    FracRun(p.sign + p.whole, p.frac);
    ExpRun(p.sign + p.whole + p.frac, p.exp);
  }

  /** The automaton accepts exactly the numbers of the grammar. */
  lemma NumbersAre(t: string)
    ensures IsNumber(t) <==> exists p: Parts :: NumberParts(p) && PartsText(p) == t
  {
    if IsNumber(t) {
      var p := SeenRun(t);
      assert NumberParts(p);
    } else if p: Parts :| NumberParts(p) && PartsText(p) == t {
      PartsRun(p);
    }
  }
}
