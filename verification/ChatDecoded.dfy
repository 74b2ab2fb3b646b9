/** What reading a text decodes, and when nothing of it holds the marker. */
module ChatDecoded {
  import opened Text
  import opened JsonText
  import opened JsonReader
  import opened JsonShape
  import opened JsonRoundTrip
  import opened ChatCleanup
  import opened ChatCleanupResult

  /** Nothing decoded so far in the open containers holds the marker as a dump writes it. */
  predicate ClearStack(stack: Stack, m: string) {
    stack.Push? ==>
      && ClearStack(stack.below, m)
      && match stack.top
         case ArrFrame(items) => Clear(Arr(items), m)
         case ObjFrame(members, pending) => Clear(Obj(members), m) && (pending.Some? ==> !Shows(pending.value, m))
  }

  /** Nor does the string being read. */
  predicate ClearState(s: State, m: string) {
    && ClearStack(s.stack, m)
    && match s.mode
       case InString(_, x) => !Shows(x, m)
       case InEscape(_, x) => !Shows(x, m)
       case InUnicode(_, x, _) => !Shows(x, m)
       case Done(v) => Clear(v, m)
       case _ => true
  }

  lemma ClearInsert(members: seq<Member>, k: string, v: Json, m: string)
    requires Clear(Obj(members), m) && !Shows(k, m) && Clear(v, m)
    ensures Clear(Obj(Insert(members, k, v)), m)
  {
    if members != [] && members[0].key != k {
      ClearParts(members, m);
      ClearInsert(members[1..], k, v, m);
      var r := Insert(members[1..], k, v);
      assert Insert(members, k, v) == [members[0]] + r;
      forall i | 0 <= i < |r| + 1 ensures var x := ([members[0]] + r)[i]; !Shows(x.key, m) && Clear(x.value, m) {
        if i > 0 { assert ([members[0]] + r)[i] == r[i - 1]; }
      }
    }
  }

  // From the raw text

  /** No `\u` escape is read. */
  ghost predicate NoCodes(t: string) { forall n: nat :: n <= |t| ==> !OnCode(t[..n]) }

  predicate AllDigits(w: string) { forall i :: 0 <= i < |w| ==> IsDigit(w[i]) }

  /** Digits at the end of x are at the end of t. */
  ghost predicate DigitsKept(x: string, t: string) {
    forall w :: AllDigits(w) && EndsWith(x, w) ==> EndsWith(t, w)
  }

  /** Nothing decoded from t holds the marker, and what is being read cannot come to. */
  ghost predicate ReadClear(s: State, t: string, m: string) {
    && ClearState(s, m)
    && (s.mode.InString? ==> DigitsKept(DumpText(s.mode.text), t))
    && (s.mode.InNumber? ==> EndsWith(t, s.mode.digits))
  }

  lemma EmptyFree(m: string)
    requires DigitMarker(m)
    ensures !Has([], m) && !Shows([], m)
  {
    NoDigitFree([], m);
    HasContains([], m);
  }

  lemma OpensClear(t: string, m: string)
    requires DigitMarker(m)
    ensures !Shows([], m) && DigitsKept(DumpText([]), t)
  {
    EmptyFree(m);
    assert t[|t|..] == [];
  }

  lemma EndsWithInit(a: string, c: char, w: string, e: char)
    ensures EndsWith(a + [c], w + [e]) <==> c == e && EndsWith(a, w)
  {
    if |w| <= |a| {
      assert (a + [c])[|a| - |w|..] == a[|a| - |w|..] + [c];
      if a[|a| - |w|..] + [c] == w + [e] {
        assert (w + [e])[..|w|] == w && (a[|a| - |w|..] + [c])[..|w|] == a[|a| - |w|..];
        assert (w + [e])[|w|] == e && (a[|a| - |w|..] + [c])[|w|] == c;
      }
    }
  }

  lemma LastOff(s: string, front: string, c: char, w: string)
    requires s == front + [c] && w != []
    ensures EndsWith(s, w) <==> c == w[|w| - 1] && EndsWith(front, w[..|w| - 1])
  {
    var k := |w| - 1;
    assert w == w[..k] + [w[k]];
    EndsWithInit(front, c, w[..k], w[k]);
  }

  /** A character read as itself. */
  lemma CharKept(x: string, t: string, c: char, m: string)
    requires DigitMarker(m) && !Has(x, m) && DigitsKept(x, t) && !Contains(t + [c], m)
    ensures !Has(x + [c], m) && DigitsKept(x + [c], t + [c])
  {
    forall w | AllDigits(w) && EndsWith(x + [c], w) ensures EndsWith(t + [c], w) {
      if w == [] {
        assert (t + [c])[|t| + 1..] == [];
      } else {
        LastOff(x + [c], x, c, w);
        assert AllDigits(w[..|w| - 1]);
        LastOff(t + [c], t, c, w);
      }
    }
    if Has(x + [c], m) { NewOccurrence(x, t, c, m); }
  }

  lemma NewOccurrence(x: string, t: string, c: char, m: string)
    requires DigitMarker(m) && !Has(x, m) && Has(x + [c], m) && DigitsKept(x + [c], t + [c])
    ensures Contains(t + [c], m)
  {
    HasContains(x, m);
    HasContains(x + [c], m);
    var i: nat :| OccursAt(x + [c], m, i);
    if i + |m| <= |x| { OccursInPrefix(x, [c], m, i); }
    assert EndsWith(x + [c], m) && AllDigits(m);
    assert OccursAt(t + [c], m, |t| + 1 - |m|);
  }

  lemma RawKept(x: string, t: string, c: char, m: string)
    requires DigitMarker(m) && IsRaw(c) && !Shows(x, m) && DigitsKept(DumpText(x), t) && !Contains(t + [c], m)
    ensures !Shows(x + [c], m) && DigitsKept(DumpText(x + [c]), t + [c])
  {
    DumpTextSnoc(x, c);
    CharKept(DumpText(x), t, c, m);
  }

  lemma DumpTextSnoc(x: string, c: char)
    ensures DumpText(x + [c]) == DumpText(x) + DumpChar(c)
  {
    assert (x + [c])[..|x|] == x;
  }

  /** An escaped character is dumped with something other than a digit at its end. */
  lemma EscapeKept(x: string, t: string, u: char, c: char, m: string)
    requires DigitMarker(m) && !Shows(x, m) && Unescape(c) == Some(u)
    ensures !Shows(x + [u], m) && DigitsKept(DumpText(x + [u]), t + [c])
  {
    DumpTextSnoc(x, u);
    HasContains(DumpText(x), m);
    HasContains(DumpText(x + [u]), m);
    EscapedDump(u, c);
    EndKept(DumpText(x), DumpChar(u), t + [c], m);
  }

  lemma EscapedDump(u: char, c: char)
    requires Unescape(c) == Some(u)
    ensures var e := DumpChar(u);
      (|e| == 1 || (|e| == 2 && e[0] == '\\')) && !IsDigit(e[|e| - 1])
  {
  }

  lemma EndKept(d: string, e: string, t: string, m: string)
    requires DigitMarker(m) && !Contains(d, m)
    requires (|e| == 1 || (|e| == 2 && e[0] == '\\')) && !IsDigit(e[|e| - 1])
    ensures !Contains(d + e, m) && DigitsKept(d + e, t)
  {
    if |e| == 1 {
      assert e == [e[0]];
      FreePunctuation(d, e[0], m);
      NoDigitKept(d, e[0], t);
    } else {
      assert e == ['\\', e[1]];
      BehindBackslash(d, e[1], t, m);
    }
  }

  lemma BehindBackslash(d: string, e: char, t: string, m: string)
    requires DigitMarker(m) && !Contains(d, m) && !IsDigit(e)
    ensures !Contains(d + ['\\', e], m) && DigitsKept(d + ['\\', e], t)
  {
    FreePunctuation(d, '\\', m);
    FreePunctuation(d + ['\\'], e, m);
    assert d + ['\\', e] == d + ['\\'] + [e];
    NoDigitKept(d + ['\\'], e, t);
  }

  lemma NoDigitKept(x: string, u: char, t: string)
    requires !IsDigit(u)
    ensures DigitsKept(x + [u], t)
  {
    forall w | AllDigits(w) && EndsWith(x + [u], w) ensures EndsWith(t, w) {
      if w != [] { LastOff(x + [u], x, u, w); }
      assert t[|t|..] == [];
    }
  }

  lemma NumberFree(t: string, d: string, m: string)
    requires EndsWith(t, d) && !Contains(t, m)
    ensures !Has(d, m)
  {
    HasContains(d, m);
    assert t == t[..|t| - |d|] + d;
    FreeSuffix(t[..|t| - |d|], d, m);
  }

  lemma CompleteClear(stack: Stack, v: Json, t: string, m: string)
    requires ClearStack(stack, m) && Clear(v, m)
    ensures ReadClear(Complete(stack, v), t, m)
  {
    match stack
    case Push(ObjFrame(members, Some(k)), below) => ClearInsert(members, k, v, m);
    case _ =>
  }

  lemma FinishClear(s: State, t: string, m: string)
    requires ReadClear(s, t, m) && !Contains(t, m)
    ensures ReadClear(Finish(s), t, m)
  {
    if s.mode.InNumber? {
      NumberFree(t, s.mode.digits, m);
      CompleteClear(s.stack, Num(s.mode.digits), t, m);
    }
  }

  lemma StartClear(stack: Stack, t: string, c: char, m: string)
    requires ClearStack(stack, m) && DigitMarker(m)
    ensures ReadClear(StartValue(stack, c), t + [c], m)
  {
    OpensClear(t + [c], m);
    assert (t + [c])[|t|..] == [c];
  }

  lemma AfterClear(stack: Stack, t: string, c: char, m: string)
    requires ClearStack(stack, m)
    ensures ReadClear(AfterValue(stack, c), t, m)
  {
    if stack.Push? {
      if stack.top.ArrFrame? {
        CompleteClear(stack.below, Arr(stack.top.items), t, m);
      } else {
        CompleteClear(stack.below, Obj(stack.top.members), t, m);
      }
    }
  }

  lemma AdvanceClear(s: State, t: string, c: char, m: string)
    requires ReadClear(s, t, m) && DigitMarker(m) && !Contains(t + [c], m) && !s.mode.InUnicode?
    ensures ReadClear(Advance(s, c), t + [c], m)
  {
    match s.mode
    case InString(role, x) =>
      if c == '"' {
        CompleteClear(s.stack, Str(x), t + [c], m);
      } else if IsRaw(c) {
        RawKept(x, t, c, m);
      }
    case InEscape(_, x) => if Unescape(c).Some? { EscapeKept(x, t, Unescape(c).value, c, m); }
    case InLiteral(lit, _) => CompleteClear(s.stack, LiteralValue(lit), t + [c], m);
    case Value => StartClear(s.stack, t, c, m);
    case ValueOrClose =>
      StartClear(s.stack, t, c, m);
      AfterClear(s.stack, t + [c], c, m);
    case KeyOrClose =>
      OpensClear(t + [c], m);
      AfterClear(s.stack, t + [c], c, m);
    case KeyOnly => OpensClear(t + [c], m);
    case After => AfterClear(s.stack, t + [c], c, m);
    case _ =>
  }

  lemma StepClear(s: State, t: string, c: char, m: string)
    requires ReadClear(s, t, m) && DigitMarker(m) && !Contains(t + [c], m) && !s.mode.InUnicode?
    ensures ReadClear(Step(s, c), t + [c], m)
  {
    if s.mode.InNumber? && NumStep(NumRun(s.mode.digits), c) != Bad {
      var d := s.mode.digits;
      assert t + [c] == t[..|t| - |d|] + (d + [c]);
    } else {
      FreePrefix(t, [c], m);
      FinishClear(s, t, m);
      AdvanceClear(Finish(s), t, c, m);
    }
  }

  /** Reading text without `\u` escapes that is free of the marker decodes nothing that holds it: digits then
      stand for themselves. */
  lemma {:induction false} RunClear(t: string, m: string)
    requires DigitMarker(m) && !Contains(t, m) && NoCodes(t)
    ensures ReadClear(Run(START, t), t, m)
    decreases |t|
  {
    if t != [] {
      var n := |t| - 1;
      var u := t[..n];
      assert t == u + [t[n]];
      FreePrefix(u, [t[n]], m);
      forall k: nat | k <= n ensures !OnCode(u[..k]) { assert u[..k] == t[..k]; }
      RunClear(u, m);
      RunSnoc(START, u, t[n]);
      assert !OnCode(t[..n]);
      StepClear(Run(START, u), u, t[n], m);
    }
  }

  // The dump of what has been read

  lemma FrameTextFree(f: Frame, below: Stack, m: string)
    requires ClearStack(Push(f, below), m) && DigitMarker(m)
    ensures !Contains(FrameText(f), m)
  {
    match f
    case ArrFrame(items) =>
      FreeDumpItems(items, m);
      FreePunctuation(DumpedItems(items), '[', m);
    case ObjFrame(members, pending) =>
      FreeDumpMembers(members, m);
      FreePunctuation(DumpedMembers(members), '{', m);
      if pending.Some? { PendingFree("{" + DumpedMembers(members), pending.value, m); }
  }

  lemma PendingFree(a: string, k: string, m: string)
    requires !Contains(a, m) && !Shows(k, m) && DigitMarker(m)
    ensures !Contains(a + DumpStr(k), m) && !Contains(a + DumpStr(k) + ":", m)
  {
    FreeStr(k, m);
    FreeKey(a, DumpText(k), m);
    FreePunctuation(a + DumpStr(k), ':', m);
  }

  /** Texts free of the marker, the second of which opens with a bracket. */
  lemma FreeBracket(a: string, b: string, m: string)
    requires DigitMarker(m) && !Contains(a, m) && !Contains(b, m) && b != [] && !IsDigit(b[0])
    ensures !Contains(a + b, m)
  {
    assert b == [b[0]] + b[1..] && a + b == a + [b[0]] + b[1..];
    FreeSuffix([b[0]], b[1..], m);
    FreeJoin(a, b[0], b[1..], m);
  }

  lemma {:induction false} AwaitTextFree(stack: Stack, m: string)
    requires ClearStack(stack, m) && DigitMarker(m)
    ensures !Contains(AwaitText(stack), m)
  {
    if stack.Bottom? {
      NoDigitFree([], m);
    } else {
      AwaitTextFree(stack.below, m);
      FrameTextFree(stack.top, stack.below, m);
      FreeBracket(AwaitText(stack.below), FrameText(stack.top), m);
    }
  }

  lemma OpenTextFree(a: string, x: string, m: string)
    requires !Contains(a, m) && !Shows(x, m) && DigitMarker(m)
    ensures !Contains(a + "\"" + DumpText(x), m) && !Contains(a + "\"" + DumpText(x) + "\\", m)
  {
    HasContains(DumpText(x), m);
    FreeJoin(a, '"', DumpText(x), m);
    FreePunctuation(a + "\"" + DumpText(x), '\\', m);
  }

  lemma ClosedTextFree(stack: Stack, m: string)
    requires ClearStack(stack, m) && DigitMarker(m) && stack.Push?
    ensures var d := match stack.top case ArrFrame(items) => "[" + DumpItems(items)
                                     case ObjFrame(members, _) => "{" + DumpMembers(members);
      !Contains(AwaitText(stack.below) + d, m)
  {
    AwaitTextFree(stack.below, m);
    if stack.top.ArrFrame? {
      FreeDumpItems(stack.top.items, m);
      FreePunctuation(DumpItems(stack.top.items), '[', m);
      FreeBracket(AwaitText(stack.below), "[" + DumpItems(stack.top.items), m);
    } else {
      FreeDumpMembers(stack.top.members, m);
      FreePunctuation(DumpMembers(stack.top.members), '{', m);
      FreeBracket(AwaitText(stack.below), "{" + DumpMembers(stack.top.members), m);
    }
  }

  lemma ColonTextFree(s: State, m: string)
    requires Shaped(s) && s.mode.Colon? && ClearStack(s.stack, m) && DigitMarker(m)
    ensures !Contains(StateText(s), m)
  {
    var a, d := AwaitText(s.stack.below), DumpedMembers(s.stack.top.members);
    AwaitTextFree(s.stack.below, m);
    FreeDumpMembers(s.stack.top.members, m);
    FreeJoin(a, '{', d, m);
    PendingFree(a + "{" + d, s.stack.top.pending.value, m);
  }

  /** The text that healing cuts its dump back to is free of the marker. */
  lemma FreeStateText(s: State, m: string)
    requires Settled(s) && ClearState(s, m) && !s.mode.Failed? && DigitMarker(m)
    ensures !Contains(StateText(s), m)
  {
    AwaitTextFree(s.stack, m);
    match s.mode
    case Colon => ColonTextFree(s, m);
    case InString(_, x) => OpenTextFree(AwaitText(s.stack), x, m);
    case InEscape(_, x) => OpenTextFree(AwaitText(s.stack), x, m);
    case After => ClosedTextFree(s.stack, m);
    case _ =>
  }
}
