/** What every state of the reader looks like, and the text it has read up to
    insignificant whitespace. */
module JsonShape {
  import opened Text
  import opened JsonText
  import opened JsonReader

  /** Every open container waits for a value: an object does so behind a pending key. */
  predicate Awaiting(stack: Stack) {
    stack.Push? ==> (stack.top.ObjFrame? ==> stack.top.pending.Some?) && Awaiting(stack.below)
  }

  /** The top container is an object waiting for a key, the others wait for a value. */
  predicate AwaitingKey(stack: Stack) {
    stack.Push? && stack.top.ObjFrame? && stack.top.pending.None? && Awaiting(stack.below)
  }

  predicate AfterSome(stack: Stack) {
    stack.Push? && Awaiting(stack.below) &&
    match stack.top
    case ArrFrame(items) => items != []
    case ObjFrame(members, pending) => members != [] && pending.None?
  }

  /** The invariant of the reader. */
  predicate Shaped(s: State) {
    match s.mode
    case Value => Awaiting(s.stack) && (s.stack.Push? && s.stack.top.ArrFrame? ==> s.stack.top.items != [])
    case ValueOrClose => Awaiting(s.stack) && s.stack.Push? && s.stack.top == ArrFrame([])
    case KeyOrClose => AwaitingKey(s.stack) && s.stack.top.members == []
    case KeyOnly => AwaitingKey(s.stack) && s.stack.top.members != []
    case Colon => Awaiting(s.stack) && s.stack.Push? && s.stack.top.ObjFrame?
    case InString(role, _) => if role == Key then AwaitingKey(s.stack) else Awaiting(s.stack)
    case InEscape(role, _) => if role == Key then AwaitingKey(s.stack) else Awaiting(s.stack)
    case InUnicode(role, _, _) => if role == Key then AwaitingKey(s.stack) else Awaiting(s.stack)
    case InNumber(digits) => Awaiting(s.stack) && NumRun(digits) != Bad
    case InLiteral(lit, n) => Awaiting(s.stack) && 0 < n < |LiteralText(lit)|
    case After => AfterSome(s.stack)
    case Done(_) => s.stack == Bottom
    case Failed => true
  }

  lemma {:induction false} InsertNonEmpty(members: seq<Member>, k: string, v: Json)
    ensures Insert(members, k, v) != []
  {
  }

  lemma CompleteShaped(stack: Stack, v: Json)
    requires Awaiting(stack)
    ensures Shaped(Complete(stack, v)) && !Complete(stack, v).mode.Failed?
  {
    if stack.Push? && stack.top.ObjFrame? {
      InsertNonEmpty(stack.top.members, stack.top.pending.value, v);
    }
  }

  lemma FinishShaped(s: State)
    requires Shaped(s)
    ensures Shaped(Finish(s))
  {
    if s.mode.InNumber? { CompleteShaped(s.stack, Num(s.mode.digits)); }
  }

  lemma StringShaped(s: State, c: char)
    requires Shaped(s) && (s.mode.InString? || s.mode.InEscape? || s.mode.InUnicode?)
    ensures Shaped(Advance(s, c))
  {
    if s.mode.InString? && s.mode.role == Val { CompleteShaped(s.stack, Str(s.mode.text)); }
  }

  lemma StartShaped(stack: Stack, c: char)
    requires Awaiting(stack)
    ensures Shaped(StartValue(stack, c))
  {
  }

  lemma AfterShaped(stack: Stack, c: char)
    requires stack.Push? && Awaiting(stack.below) && (c == ',' ==> AfterSome(stack))
    ensures Shaped(AfterValue(stack, c))
  {
    match stack.top
    case ArrFrame(items) => CompleteShaped(stack.below, Arr(items));
    case ObjFrame(members, _) => CompleteShaped(stack.below, Obj(members));
  }

  lemma AdvanceShaped(s: State, c: char)
    requires Shaped(s)
    ensures Shaped(Advance(s, c))
  {
    match s.mode
    case InString(_, _) => StringShaped(s, c);
    case InEscape(_, _) => StringShaped(s, c);
    case InUnicode(_, _, _) => StringShaped(s, c);
    case InLiteral(lit, _) => CompleteShaped(s.stack, LiteralValue(lit));
    case Value => StartShaped(s.stack, c);
    case ValueOrClose =>
      if c == ']' { AfterShaped(s.stack, c); } else { StartShaped(s.stack, c); }
    case KeyOrClose => if c == '}' { AfterShaped(s.stack, c); }
    case After => AfterShaped(s.stack, c);
    case _ =>
  }

  lemma NumRunSnoc(t: string, c: char)
    requires t != []
    ensures NumRun(t + [c]) == NumStep(NumRun(t), c)
  {
    assert (t + [c])[..|t|] == t;
  }

  lemma StepShaped(s: State, c: char)
    requires Shaped(s)
    ensures Shaped(Step(s, c))
  {
    if s.mode.InNumber? && NumStep(NumRun(s.mode.digits), c) != Bad {
      NumRunSnoc(s.mode.digits, c);
    } else {
      FinishShaped(s);
      AdvanceShaped(Finish(s), c);
    }
  }

  lemma {:induction false} RunShaped(s: State, t: string)
    requires Shaped(s)
    ensures Shaped(Run(s, t))
    decreases |t|
  {
    if t != [] {
      StepShaped(s, t[0]);
      RunShaped(Step(s, t[0]), t[1..]);
    }
  }

  // The text behind a state

  function FrameText(f: Frame): string {
    match f
    case ArrFrame(items) => "[" + DumpedItems(items)
    case ObjFrame(members, None) => "{" + DumpedMembers(members)
    case ObjFrame(members, Some(k)) => "{" + DumpedMembers(members) + DumpStr(k) + ":"
  }

  /** The compact text of open containers, up to where the next value or key goes. */
  function AwaitText(stack: Stack): string {
    if stack.Bottom? then [] else AwaitText(stack.below) + FrameText(stack.top)
  }

  /** The escape as it has been read, when it is written as a dump writes it. */
  function CodeText(code: Code): string {
    match code
    case Hex(None, digits) => "\\u" + HexText(digits)
    case _ => []
  }

  /** The compact text of what a state has read. */
  function StateText(s: State): string
    requires Shaped(s)
  {
    match s.mode
    case Colon =>
      AwaitText(s.stack.below) + "{" + DumpedMembers(s.stack.top.members) + DumpStr(s.stack.top.pending.value)
    case InString(_, t) => AwaitText(s.stack) + "\"" + DumpText(t)
    case InEscape(_, t) => AwaitText(s.stack) + "\"" + DumpText(t) + "\\"
    case InUnicode(_, t, code) => AwaitText(s.stack) + "\"" + DumpText(t) + CodeText(code)
    case InNumber(digits) => AwaitText(s.stack) + digits
    case InLiteral(lit, n) => AwaitText(s.stack) + LiteralText(lit)[..n]
    case After =>
      AwaitText(s.stack.below) + (match s.stack.top
                                  case ArrFrame(items) => "[" + DumpItems(items)
                                  case ObjFrame(members, _) => "{" + DumpMembers(members))
    case Done(v) => Dump(v)
    case Failed => []
    case _ => AwaitText(s.stack)
  }

  /** Pending keys are new to their objects. */
  predicate Fresh(stack: Stack) {
    stack.Push? ==>
      (stack.top.ObjFrame? && stack.top.pending.Some? ==> !HasKey(stack.top.members, stack.top.pending.value))
      && Fresh(stack.below)
  }

  /** The character is the next of an escape as a dump writes it: a lower-case digit, and the last one of a
      control character without a short escape. */
  predicate CleanCode(code: Code, c: char) {
    && code.Hex? && code.first.None? && IsHex(c) && c == HexLetter(HexDigit(c))
    && var r := Decode(code, c);
       if r.More? then r.code.Hex? else r.Decoded? && r.c < ' ' && !HasShortEscape(r.c)
  }

  /** The character is written as a dump writes it: no `\/`, no needless `\u`, no repeated key. */
  predicate CleanStep(s: State, c: char) {
    && (s.mode.InEscape? ==> c != '/') && (s.mode.InUnicode? ==> CleanCode(s.mode.code, c))
    && (s.mode.InString? && s.mode.role == Key && c == '"' && s.stack.Push? && s.stack.top.ObjFrame? ==>
          !HasKey(s.stack.top.members, s.mode.text))
  }

  /** The character is insignificant whitespace. */
  predicate Skipped(s: State, c: char) {
    IsSpace(c) && !s.mode.InString? && !s.mode.InEscape? && !s.mode.InUnicode?
  }

  predicate CleanRun(s: State, t: string)
    decreases |t|
  {
    t != [] ==> CleanStep(s, t[0]) && CleanRun(Step(s, t[0]), t[1..])
  }

  /** The text without its insignificant whitespace. */
  function Squeeze(s: State, t: string): string
    decreases |t|
  {
    if t == [] then []
    else (if Skipped(s, t[0]) then [] else [t[0]]) + Squeeze(Step(s, t[0]), t[1..])
  }

  lemma DumpItemsSnoc(items: seq<Json>, v: Json)
    ensures DumpItems(items + [v]) == DumpedItems(items) + Dump(v)
  {
    assert (items + [v])[..|items|] == items;
  }

  lemma DumpMembersSnoc(members: seq<Member>, m: Member)
    ensures DumpMembers(members + [m]) == DumpedMembers(members) + DumpStr(m.key) + ":" + Dump(m.value)
  {
    assert (members + [m])[..|members|] == members;
  }

  lemma Regroup(a: string, o: string, d: string, e: string, c: string, v: string)
    ensures a + (o + (d + e + c + v)) == a + (o + d + e + c) + v
  {
    assert o + (d + e + c + v) == (o + d + e + c) + v;
    Assoc(a, o + d + e + c, v);
  }

  lemma CompleteTextArr(items: seq<Json>, below: Stack, v: Json)
    requires Awaiting(below)
    ensures StateText(State(After, Push(ArrFrame(items + [v]), below)))
         == AwaitText(Push(ArrFrame(items), below)) + Dump(v)
  {
    DumpItemsSnoc(items, v);
    Assoc("[", DumpedItems(items), Dump(v));
    Assoc(AwaitText(below), "[" + DumpedItems(items), Dump(v));
  }

  lemma CompleteTextObj(members: seq<Member>, k: string, below: Stack, v: Json)
    requires Awaiting(below)
    ensures StateText(State(After, Push(ObjFrame(members + [Member(k, v)], None), below)))
         == AwaitText(Push(ObjFrame(members, Some(k)), below)) + Dump(v)
  {
    DumpMembersSnoc(members, Member(k, v));
    Regroup(AwaitText(below), "{", DumpedMembers(members), DumpStr(k), ":", Dump(v));
  }

  lemma CompleteText(stack: Stack, v: Json)
    requires Awaiting(stack) && Fresh(stack)
    ensures Shaped(Complete(stack, v)) && Fresh(Complete(stack, v).stack)
    ensures StateText(Complete(stack, v)) == AwaitText(stack) + Dump(v)
  {
    CompleteShaped(stack, v);
    match stack
    case Bottom => assert AwaitText(stack) + Dump(v) == Dump(v);
    case Push(ArrFrame(items), below) => CompleteTextArr(items, below, v);
    case Push(ObjFrame(members, pending), below) =>
      InsertFresh(members, pending.value, v);
      CompleteTextObj(members, pending.value, below, v);
  }

  lemma FinishText(s: State)
    requires Shaped(s) && Fresh(s.stack)
    ensures Shaped(Finish(s)) && Fresh(Finish(s).stack) && StateText(Finish(s)) == StateText(s)
  {
    if s.mode.InNumber? && IsNumber(s.mode.digits) { CompleteText(s.stack, Num(s.mode.digits)); }
  }

  // One character extends the text by itself, unless it is skipped

  lemma StartValueText(stack: Stack, c: char)
    requires Awaiting(stack) && Fresh(stack) && !StartValue(stack, c).mode.Failed?
    ensures Shaped(StartValue(stack, c)) && Fresh(StartValue(stack, c).stack)
    ensures StateText(StartValue(stack, c)) == AwaitText(stack) + [c]
  {
    var s := StartValue(stack, c);
    StartShaped(stack, c);
    OpenedTexts();
    if s.mode.InString? {
      Appended(AwaitText(stack), "\"", DumpText([]));
    } else if s.mode.InLiteral? {
      LiteralStarts(s.mode.lit);
    }
  }

  lemma OpenedTexts()
    ensures FrameText(ObjFrame([], None)) == ['{'] && FrameText(ArrFrame([])) == ['['] && DumpText([]) == []
  {
  }

  lemma Appended(a: string, b: string, c: string)
    requires c == []
    ensures a + b + c == a + b
  {
  }

  lemma LiteralStarts(lit: Literal)
    ensures LiteralText(lit)[..1] == [LiteralText(lit)[0]]
  {
  }

  lemma EndStringText(role: Role, text: string, stack: Stack)
    requires if role == Key then AwaitingKey(stack) && !HasKey(stack.top.members, text) else Awaiting(stack)
    requires Fresh(stack)
    ensures var s := EndString(role, text, stack);
      Shaped(s) && Fresh(s.stack) && StateText(s) == AwaitText(stack) + "\"" + DumpText(text) + "\""
  {
    Assoc(AwaitText(stack), "\"" + DumpText(text), "\"");
    Assoc(AwaitText(stack), "\"", DumpText(text));
    if role == Val {
      CompleteText(stack, Str(text));
    } else {
      var open := DumpedMembers(stack.top.members);
      Assoc(AwaitText(stack.below), "{", open);
      assert AwaitText(stack) == AwaitText(stack.below) + "{" + open;
    }
  }

  lemma AfterArrText(items: seq<Json>, below: Stack, c: char)
    requires Awaiting(below) && Fresh(below) && (c == ']' || (c == ',' && items != []))
    ensures var s := AfterValue(Push(ArrFrame(items), below), c);
      Shaped(s) && Fresh(s.stack) && StateText(s) == AwaitText(below) + ("[" + DumpItems(items)) + [c]
  {
    Assoc(AwaitText(below), "[" + DumpItems(items), [c]);
    Assoc("[", DumpItems(items), [c]);
    if c == ']' {
      CompleteText(below, Arr(items));
    }
  }

  lemma AfterObjText(members: seq<Member>, below: Stack, c: char)
    requires Awaiting(below) && Fresh(below) && (c == '}' || (c == ',' && members != []))
    ensures var s := AfterValue(Push(ObjFrame(members, None), below), c);
      Shaped(s) && Fresh(s.stack) && StateText(s) == AwaitText(below) + ("{" + DumpMembers(members)) + [c]
  {
    Assoc(AwaitText(below), "{" + DumpMembers(members), [c]);
    Assoc("{", DumpMembers(members), [c]);
    if c == '}' {
      CompleteText(below, Obj(members));
    }
  }

  lemma AfterText(s: State, c: char)
    requires Shaped(s) && Fresh(s.stack) && s.mode.After? && !AfterValue(s.stack, c).mode.Failed?
    ensures var n := AfterValue(s.stack, c);
      Shaped(n) && Fresh(n.stack) && StateText(n) == StateText(s) + [c]
  {
    match s.stack.top
    case ArrFrame(items) => AfterArrText(items, s.stack.below, c);
    case ObjFrame(members, _) => AfterObjText(members, s.stack.below, c);
  }

  lemma CloseEmptyText(s: State, c: char)
    requires Shaped(s) && Fresh(s.stack)
    requires (s.mode.ValueOrClose? && c == ']') || (s.mode.KeyOrClose? && c == '}')
    ensures var n := AfterValue(s.stack, c);
      Shaped(n) && Fresh(n.stack) && StateText(n) == StateText(s) + [c]
  {
    if s.mode.ValueOrClose? {
      AfterArrText([], s.stack.below, c);
      assert "[" + DumpItems([]) == FrameText(s.stack.top);
    } else {
      AfterObjText([], s.stack.below, c);
      assert "{" + DumpMembers([]) == FrameText(s.stack.top);
    }
  }

  lemma ColonText(s: State)
    requires Shaped(s) && Fresh(s.stack) && s.mode.Colon?
    ensures AwaitText(s.stack) == StateText(s) + ":"
  {
    var a, d, k := AwaitText(s.stack.below), DumpedMembers(s.stack.top.members), DumpStr(s.stack.top.pending.value);
    ColonGrouping(a, "{", d, k, ":");
  }

  lemma ColonGrouping(a: string, o: string, d: string, k: string, c: string)
    ensures a + (o + d + k + c) == a + o + d + k + c
  {
  }

  lemma StringText(s: State, c: char)
    requires Shaped(s) && Fresh(s.stack) && CleanStep(s, c) && !Advance(s, c).mode.Failed?
    requires s.mode.InString? || s.mode.InEscape? || s.mode.InUnicode?
    ensures var n := Advance(s, c);
      Shaped(n) && Fresh(n.stack) && StateText(n) == StateText(s) + [c]
  {
    if s.mode.InString? && c == '"' {
      EndStringText(s.mode.role, s.mode.text, s.stack);
    } else if s.mode.InString? && IsRaw(c) {
      assert (s.mode.text + [c])[..|s.mode.text|] == s.mode.text;
      assert DumpText(s.mode.text + [c]) == DumpText(s.mode.text) + [c];
      Assoc(AwaitText(s.stack) + "\"", DumpText(s.mode.text), [c]);
    } else if s.mode.InEscape? && c == 'u' {
      CodeStart(AwaitText(s.stack) + "\"" + DumpText(s.mode.text));
    } else if s.mode.InEscape? {
      EscapeText(AwaitText(s.stack) + "\"", s.mode.text, Unescape(c).value, c);
    } else if s.mode.InUnicode? {
      CodeStepText(AwaitText(s.stack) + "\"", s.mode.text, s.mode.code, c);
    }
  }

  lemma CodeStart(a: string)
    ensures a + CodeText(Hex(None, [])) == a + "\\" + ['u']
  {
    assert CodeText(Hex(None, [])) == ['\\', 'u'];
  }

  lemma CodeStepText(a: string, text: string, code: Code, c: char)
    requires CleanCode(code, c)
    ensures var r := Decode(code, c);
      if r.More? then a + DumpText(text) + CodeText(r.code) == a + DumpText(text) + CodeText(code) + [c]
      else a + DumpText(text + [r.c]) == a + DumpText(text) + CodeText(code) + [c]
  {
    var digits := code.digits;
    var d: nibble := HexDigit(c);
    HexSnoc(digits, d);
    if |digits| == 3 {
      var u := Decode(code, c).c;
      ControlText(digits[0], digits[1], digits[2], d, u);
      assert [digits[0], digits[1], digits[2], d] == digits + [d];
      assert (text + [u])[..|text|] == text;
    }
    CodeGlue(a + DumpText(text), HexText(digits), c);
  }

  lemma CodeGlue(a: string, h: string, c: char)
    ensures a + ("\\u" + (h + [c])) == a + ("\\u" + h) + [c]
  {
  }

  /** A control character below the space is written with two zeros. */
  lemma ControlText(d0: nibble, d1: nibble, d2: nibble, d3: nibble, u: char)
    requires u as nat == ((d0 * 16 + d1) * 16 + d2) * 16 + d3 && u < ' ' && !HasShortEscape(u)
    ensures DumpChar(u) == "\\u" + HexText([d0, d1, d2, d3])
  {
    assert d0 == 0 && d1 == 0 && u as nat / 16 == d2 && u as nat % 16 == d3;
    FourDigits(d0, d1, d2, d3);
    assert "\\u00" == "\\u" + ['0', '0'];
  }

  lemma FourDigits(a: nibble, b: nibble, c: nibble, d: nibble)
    ensures HexText([a, b, c, d]) == [HexLetter(a), HexLetter(b), HexLetter(c), HexLetter(d)]
  {
    HexSnoc([], a);
    HexSnoc([a], b);
    HexSnoc([a, b], c);
    HexSnoc([a, b, c], d);
    assert [] + [a] == [a] && [a] + [b] == [a, b] && [a, b] + [c] == [a, b, c] && [a, b, c] + [d] == [a, b, c, d];
  }

  lemma HexSnoc(digits: seq<nibble>, d: nibble)
    ensures HexText(digits + [d]) == HexText(digits) + [HexLetter(d)]
  {
    assert (digits + [d])[..|digits|] == digits;
  }

  lemma EscapeText(a: string, text: string, u: char, c: char)
    requires DumpChar(u) == ['\\', c]
    ensures a + DumpText(text + [u]) == a + DumpText(text) + "\\" + [c]
  {
    assert (text + [u])[..|text|] == text;
    assert ['\\', c] == "\\" + [c];
    Assoc(a, DumpText(text), "\\" + [c]);
    Assoc(a + DumpText(text), "\\", [c]);
  }

  lemma LiteralStepText(s: State, c: char)
    requires Shaped(s) && Fresh(s.stack) && s.mode.InLiteral? && !Advance(s, c).mode.Failed?
    ensures var n := Advance(s, c);
      Shaped(n) && Fresh(n.stack) && StateText(n) == StateText(s) + [c]
  {
    var w, n := LiteralText(s.mode.lit), s.mode.matched;
    assert w[..n + 1] == w[..n] + [c];
    Assoc(AwaitText(s.stack), w[..n], [c]);
    if n + 1 == |w| {
      assert w[..n + 1] == w == Dump(LiteralValue(s.mode.lit));
      CompleteText(s.stack, LiteralValue(s.mode.lit));
    }
  }

  lemma StructuralText(s: State, c: char)
    requires Shaped(s) && Fresh(s.stack) && !Structural(s, c).mode.Failed?
    ensures var n := Structural(s, c);
      Shaped(n) && Fresh(n.stack) && StateText(n) == StateText(s) + [c]
  {
    match s.mode
    case Value => StartValueText(s.stack, c);
    case ValueOrClose => if c == ']' { CloseEmptyText(s, c); } else { StartValueText(s.stack, c); }
    case KeyOrClose =>
      if c == '}' {
        CloseEmptyText(s, c);
      } else {
        assert AwaitText(s.stack) + "\"" + DumpText([]) == StateText(s) + [c];
      }
    case KeyOnly => assert AwaitText(s.stack) + "\"" + DumpText([]) == StateText(s) + [c];
    case Colon => ColonText(s);
    case After => AfterText(s, c);
    case _ =>
  }

  lemma AdvanceText(s: State, c: char)
    requires Shaped(s) && Fresh(s.stack) && CleanStep(s, c) && !Advance(s, c).mode.Failed?
    ensures var n := Advance(s, c);
      Shaped(n) && Fresh(n.stack) && StateText(n) == StateText(s) + (if Skipped(s, c) then [] else [c])
  {
    if s.mode.InString? || s.mode.InEscape? || s.mode.InUnicode? {
      StringText(s, c);
    } else if s.mode.InLiteral? {
      LiteralStepText(s, c);
    } else if !IsSpace(c) {
      StructuralText(s, c);
    }
  }

  lemma StepText(s: State, c: char)
    requires Shaped(s) && Fresh(s.stack) && CleanStep(s, c) && !Step(s, c).mode.Failed?
    ensures var n := Step(s, c);
      Shaped(n) && Fresh(n.stack) && StateText(n) == StateText(s) + (if Skipped(s, c) then [] else [c])
  {
    if s.mode.InNumber? && NumStep(NumRun(s.mode.digits), c) != Bad {
      NumRunSnoc(s.mode.digits, c);
      Assoc(AwaitText(s.stack), s.mode.digits, [c]);
    } else {
      FinishText(s);
      AdvanceText(Finish(s), c);
    }
  }

  /** The reader's state determines the text it has read: every piece of it is kept, in order. */
  lemma {:induction false} RunText(s: State, t: string)
    requires Shaped(s) && Fresh(s.stack) && CleanRun(s, t) && !Run(s, t).mode.Failed?
    ensures var n := Run(s, t);
      Shaped(n) && Fresh(n.stack) && StateText(n) == StateText(s) + Squeeze(s, t)
    decreases |t|
  {
    if t == [] {
      assert StateText(s) + [] == StateText(s);
    } else {
      if Step(s, t[0]).mode.Failed? { RunFailed(Step(s, t[0]), t[1..]); }
      StepText(s, t[0]);
      RunText(Step(s, t[0]), t[1..]);
      Assoc(StateText(s), if Skipped(s, t[0]) then [] else [t[0]], Squeeze(Step(s, t[0]), t[1..]));
    }
  }
}
