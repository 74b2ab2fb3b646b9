/** Closing the open containers, and putting a marker in front of the closing: a branch of the
    cascade whose probe succeeded builds valid JSON. */
module JsonHealing {
  import opened Text
  import opened JsonText
  import opened JsonReader
  import opened JsonShape
  import opened JsonLocator
  import opened JsonPartial
  import opened JsonProbes

  // Closing

  lemma {:induction false} ClosingIsClosing(stack: seq<Element>)
    ensures IsClosing(Closing(stack))
  {
    if stack != [] { ClosingIsClosing(stack[..|stack| - 1]); }
  }

  function Bracket(f: Frame): string { if f.ArrFrame? then "]" else "}" }

  lemma ClosingPush(f: Frame, below: Stack)
    ensures Closing(Elements(Push(f, below))) == Bracket(f) + Closing(Elements(below))
  {
    var es := Elements(Push(f, below));
    match f
    case ArrFrame(_) => assert es[..|es| - 1] == Elements(below);
    case ObjFrame(_, None) => assert es[..|es| - 1] == Elements(below);
    case ObjFrame(_, Some(k)) =>
      var obj := Elements(below) + [Element(OBJECT, [])];
      assert es[..|es| - 1] == obj && obj[..|obj| - 1] == Elements(below);
  }

  /** A value wrapped in the containers open around it. */
  function Plug(stack: Stack, v: Json): Json {
    match stack
    case Bottom => v
    case Push(ArrFrame(items), below) => Plug(below, Arr(items + [v]))
    case Push(ObjFrame(members, None), below) => Plug(below, Obj(members))
    case Push(ObjFrame(members, Some(k)), below) => Plug(below, Obj(Insert(members, k, v)))
  }

  /** What a container is worth when it closes. */
  function FrameValue(f: Frame): Json { if f.ArrFrame? then Arr(f.items) else Obj(f.members) }

  lemma CloseTop(f: Frame, below: Stack, k: string)
    ensures Ends(State(After, Push(f, below)), Bracket(f) + k) == Ends(Complete(below, FrameValue(f)), k)
  {
    EndsCons(State(After, Push(f, below)), Bracket(f)[0], k);
    assert Bracket(f) == [Bracket(f)[0]];
  }

  /** Closing the open containers after a complete value gives a whole document. */
  lemma {:induction false} CloseAll(stack: Stack, v: Json)
    requires Awaiting(stack)
    ensures Ends(Complete(stack, v), Closing(Elements(stack))) == Some(Plug(stack, v))
    decreases stack
  {
    if stack.Push? {
      var f, below := Complete(stack, v).stack.top, stack.below;
      ClosingPush(stack.top, below);
      CloseTop(f, below, Closing(Elements(below)));
      CloseAll(below, FrameValue(f));
    }
  }

  lemma ClosingIgnoresKeys(s: Stack, t: Stack)
    requires s.Push? && t.Push? && s.below == t.below && s.top.ArrFrame? == t.top.ArrFrame?
    ensures Closing(Elements(s)) == Closing(Elements(t))
  {
    ClosingPush(s.top, s.below);
    ClosingPush(t.top, t.below);
  }

  lemma CloseStep(f: State)
    requires Shaped(f) && (f.mode.After? || f.mode.ValueOrClose? || f.mode.KeyOrClose?)
    ensures Step(f, Bracket(f.stack.top)[0]) == Complete(f.stack.below, FrameValue(f.stack.top))
  {
    var c := Bracket(f.stack.top)[0];
    assert !IsSpace(c);
    assert Step(f, c) == AfterValue(f.stack, c);
  }

  /** After any text that ends behind a complete value or a freshly opened container, the closing
      alone makes a valid document. */
  lemma ClosingCompletes(t: string)
    requires Viable(t)
    requires var f := Finish(Run(START, t)); f.mode.After? || f.mode.ValueOrClose? || f.mode.KeyOrClose?
    ensures CanParse(t + Closing(Elements(Finish(Run(START, t)).stack)))
  {
    RunShaped(START, t);
    FinishShaped(Run(START, t));
    var s := Run(START, t);
    var f := Finish(s);
    var k := Closing(Elements(f.stack));
    assert f.stack == Push(f.stack.top, f.stack.below);
    ClosingPush(f.stack.top, f.stack.below);
    ClosingEnds(s, f);
    ParseEnds(t, k);
  }

  lemma ClosingEnds(s: State, f: State)
    requires f == Finish(s) && Shaped(f) && f.stack.Push?
    requires f.mode.After? || f.mode.ValueOrClose? || f.mode.KeyOrClose?
    ensures Ends(s, Bracket(f.stack.top) + Closing(Elements(f.stack.below))).Some?
  {
    var top, below := f.stack.top, f.stack.below;
    var k := Closing(Elements(below));
    assert Bracket(top) == [Bracket(top)[0]];
    StepFinish(s, Bracket(top)[0]);
    EndsCons(s, Bracket(top)[0], k);
    CloseStep(f);
    CloseAll(below, FrameValue(top));
  }

  // Reading the marker

  lemma {:induction false} ReadMarker(role: Role, text: string, stack: Stack, m: string)
    requires RawText(m)
    ensures Run(State(InString(role, text), stack), m) == State(InString(role, text + m), stack)
  {
    if m == [] {
      assert text + m == text;
    } else {
      var n := |m| - 1;
      assert RawText(m[..n]) && IsRaw(m[n]);
      ReadMarker(role, text, stack, m[..n]);
      RunSnoc(State(InString(role, text), stack), m[..n], m[n]);
      assert m == m[..n] + [m[n]];
      assert text + m == text + m[..n] + [m[n]];
    }
  }

  lemma ValueRest(text: string, stack: Stack, k: string)
    ensures Ends(State(InString(Val, text), stack), "\"" + k) == Ends(Complete(stack, Str(text)), k)
  {
    EndsCons(State(InString(Val, text), stack), '"', k);
    assert "\"" == ['"'];
  }

  lemma KeyRest(text: string, stack: Stack, k: string)
    requires stack.Push? && stack.top.ObjFrame? && IsClosing(k)
    ensures Ends(State(InString(Key, text), stack), "\": 1" + k)
         == Ends(Complete(WithKey(stack, text), Num("1")), k)
  {
    assert "\": 1" + k == ['"'] + (": 1" + k);
    EndsCons(State(InString(Key, text), stack), '"', ": 1" + k);
    ColonOne(WithKey(stack, text), k);
  }

  /** The text with the marker put after `q`, when `q` leads into a string. */
  lemma Insert1(t: string, q: string, m: string, rest: string, role: Role, text: string, stack: Stack)
    requires RawText(m) && Run(Run(START, t), q) == State(InString(role, text), stack)
    ensures Parse(t + (q + m) + rest) == Ends(State(InString(role, text + m), stack), rest)
  {
    ParseEnds(t + (q + m), rest);
    RunConcat(START, t, q + m);
    RunConcat(Run(START, t), q, m);
    ReadMarker(role, text, stack, m);
  }

  lemma Run1(s: State, c: char)
    ensures Run(s, [c]) == Step(s, c)
  {
    RunCons(s, c, []);
    assert [c] + [] == [c];
  }

  lemma ValueText(t: string, q: string, m: string, k: string, x: string, stack: Stack)
    requires RawText(m) && Run(Run(START, t), q) == State(InString(Val, x), stack)
    ensures Parse(t + (q + m) + ("\"" + k)) == Ends(Complete(stack, Str(x + m)), k)
  {
    Insert1(t, q, m, "\"" + k, Val, x, stack);
    ValueRest(x + m, stack, k);
  }

  lemma KeyText(t: string, q: string, m: string, k: string, x: string, stack: Stack)
    requires RawText(m) && Run(Run(START, t), q) == State(InString(Key, x), stack)
    requires stack.Push? && stack.top.ObjFrame? && IsClosing(k)
    ensures Parse(t + (q + m) + ("\": 1" + k)) == Ends(Complete(WithKey(stack, x + m), Num("1")), k)
  {
    Insert1(t, q, m, "\": 1" + k, Key, x, stack);
    KeyRest(x + m, stack, k);
  }

  /** Where `q` leads from the places a marker goes. */
  lemma QuoteLeads(s: State)
    ensures s.mode.Value? || s.mode.ValueOrClose? ==> Run(s, "\"") == State(InString(Val, []), s.stack)
    ensures s.mode.KeyOnly? || s.mode.KeyOrClose? ==> Run(s, "\"") == State(InString(Key, []), s.stack)
    ensures s.mode.Colon? ==> Run(s, ":\"") == State(InString(Val, []), s.stack)
    ensures s.mode.InEscape? ==> Run(s, "\\") == State(InString(s.mode.role, s.mode.text + "\\"), s.stack)
  {
    Run1(s, '"');
    Run1(s, '\\');
    Run2(s, ':', '"');
    assert "\"" == ['"'] && "\\" == ['\\'] && ":\"" == [':', '"'];
  }

  lemma CommaLeads(s: State)
    requires Shaped(s) && Finish(s).mode.After? && !s.mode.InString?
    ensures Run(s, ",\"") == State(InString(if Finish(s).stack.top.ArrFrame? then Val else Key, []), Finish(s).stack)
  {
    CommaStep(s);
    Run2(s, ',', '"');
    assert ",\"" == [',', '"'];
  }

  /** The same insertions, as acceptance of the text they build. */
  lemma ValueTextAccepted(t: string, q: string, m: string, k: string, x: string, stack: Stack, v: Json)
    requires RawText(m) && Run(Run(START, t), q) == State(InString(Val, x), stack)
    requires Accepts(Complete(stack, v), k)
    ensures CanParse(t + (q + m) + ("\"" + k))
  {
    ValueText(t, q, m, k, x, stack);
    CompleteEnds(stack, v, Str(x + m), k);
  }

  lemma KeyTextAccepted(t: string, q: string, m: string, k: string, x: string, y: string, stack: Stack)
    requires RawText(m) && Run(Run(START, t), q) == State(InString(Key, x), stack)
    requires stack.Push? && stack.top.ObjFrame? && IsClosing(k)
    requires Accepts(Complete(WithKey(stack, y), Num("1")), k)
    ensures CanParse(t + (q + m) + ("\": 1" + k))
  {
    KeyText(t, q, m, k, x, stack);
    SameStackRefl(stack);
    var a, b := WithKey(stack, y), WithKey(stack, x + m);
    SimilarComplete(a, b, Num("1"), Num("1"));
    SimilarEnds(Complete(a, Num("1")), Complete(b, Num("1")), k);
  }

  /** Behind `{` the closing is accepted only where the object can close at once. */
  lemma ClosesAtOnce(s: State, k: string)
    requires Shaped(s) && LastFits(s, Some('{')) && IsClosing(k) && Accepts(s, k)
    ensures s.mode.KeyOrClose? && k != [] && Accepts(Step(s, k[0]), k[1..])
  {
    if s.mode.InString? {
      RejectsInString(s, k);
    } else if s.mode.Failed? {
      RejectsFailed(s, k);
    }
  }

  lemma ClosesWithBrace(s: State, k: string)
    requires s.mode.KeyOrClose? && k != [] && IsClosing(k) && Accepts(Step(s, k[0]), k[1..])
    ensures k[0] == '}'
  {
    if Step(s, k[0]).mode.Failed? { RejectsFailed(Step(s, k[0]), k[1..]); }
  }

  lemma OpenedState(t: string, k: string)
    requires IsClosing(k) && LastNonSpace(t) == Some('{') && CanParse(t + k)
    ensures var s := Run(START, t);
      && Shaped(s) && s.mode.KeyOrClose? && k != [] && k[0] == '}' && Accepts(Step(s, '}'), k[1..])
  {
    RunFits(t);
    ParseEnds(t, k);
    ClosesAtOnce(Run(START, t), k);
    ClosesWithBrace(Run(START, t), k);
  }

  /** An object just opened can close at once or take a member first. */
  lemma OpenedObject(t: string, m: string, k: string)
    requires RawText(m) && IsClosing(k) && LastNonSpace(t) == Some('{') && CanParse(t + k)
    ensures Run(START, t).mode.KeyOrClose?
    ensures CanParse(t + ("\"" + m) + ("\": 1" + k))
  {
    OpenedState(t, k);
    OpenedMember(t, m, k, Run(START, t));
  }

  lemma OpenedMember(t: string, m: string, k: string, s: State)
    requires RawText(m) && IsClosing(k) && s == Run(START, t) && Shaped(s) && s.mode.KeyOrClose?
    requires k != [] && k[0] == '}' && Accepts(Step(s, '}'), k[1..])
    ensures CanParse(t + ("\"" + m) + ("\": 1" + k))
  {
    QuoteLeads(s);
    ValueAfterMember(s.stack, m, k);
    KeyText(t, "\"", m, k, [], s.stack);
    assert [] + m == m;
  }

  lemma ValueAfterMember(stack: Stack, key: string, k: string)
    requires stack.Push? && stack.top == ObjFrame([], None) && k != [] && k[0] == '}'
    requires Accepts(Complete(stack.below, Obj([])), k[1..])
    ensures Accepts(Complete(WithKey(stack, key), Num("1")), k)
  {
    var o := Insert([], key, Num("1"));
    assert Step(Complete(WithKey(stack, key), Num("1")), '}') == Complete(stack.below, Obj(o));
    CompleteEnds(stack.below, Obj([]), Obj(o), k[1..]);
  }

  // One probe each: what it accepts, the text with the marker is too

  lemma SoundValue(t: string, k: string, m: string)
    requires RawText(m) && IsClosing(k) && CanParse(t + "1" + k)
    requires LastNonSpace(t).Some? && LastNonSpace(t).value in {':', ',', '['}
    ensures CanParse(t + ("\"" + m) + ("\"" + k))
  {
    var s := Run(START, t);
    RunFits(t);
    QuoteLeads(s);
    ParseEnds(t, "1" + k);
    Assoc(t, "1", k);
    ProbeOne(s, k);
    ValueTextAccepted(t, "\"", m, k, [], s.stack, Num("1"));
  }

  lemma SoundColon(t: string, k: string, m: string)
    requires RawText(m) && IsClosing(k) && CanParse(t + ": 1" + k)
    ensures CanParse(t + (":\"" + m) + ("\"" + k))
  {
    var s := Run(START, t);
    RunFits(t);
    QuoteLeads(s);
    ParseEnds(t, ": 1" + k);
    Assoc(t, ": 1", k);
    ProbeColonOne(s, k);
    ValueTextAccepted(t, ":\"", m, k, [], s.stack, Num("1"));
  }

  lemma SoundString(t: string, k: string, m: string)
    requires RawText(m) && IsClosing(k) && CanParse(t + "\"" + k)
    ensures CanParse(t + m + ("\"" + k))
  {
    var s := Run(START, t);
    RunFits(t);
    ParseEnds(t, "\"" + k);
    Assoc(t, "\"", k);
    ProbeQuote(s, k);
    assert [] + m == m;
    ValueTextAccepted(t, [], m, k, s.mode.text, s.stack, Str(s.mode.text));
  }

  lemma SoundEscape(t: string, k: string, m: string)
    requires RawText(m) && IsClosing(k) && CanParse(t + "\\\"" + k)
    ensures CanParse(t + ("\\" + m) + ("\"" + k))
  {
    var s := Run(START, t);
    RunFits(t);
    QuoteLeads(s);
    ParseEnds(t, "\\\"" + k);
    Assoc(t, "\\\"", k);
    ProbeEscapedQuote(s, k);
    ValueTextAccepted(t, "\\", m, k, s.mode.text + "\\", s.stack, Str(s.mode.text + "\\"));
  }

  lemma SoundNextItem(t: string, k: string, m: string)
    requires RawText(m) && IsClosing(k) && CanParse(t + ", 1" + k)
    ensures CanParse(t + (",\"" + m) + ("\"" + k))
  {
    var s := Run(START, t);
    RunFits(t);
    ParseEnds(t, ", 1" + k);
    Assoc(t, ", 1", k);
    ProbeNextItem(s, k);
    CommaLeads(s);
    ValueTextAccepted(t, ",\"", m, k, [], Finish(s).stack, Num("1"));
  }

  lemma SoundInKey(t: string, k: string, m: string)
    requires RawText(m) && IsClosing(k) && LastNonSpace(t).Some?
    ensures var c := ChooseInKey(t, LastNonSpace(t).value, k, m); c.Chosen? && !c.cutBack ==> CanParse(c.text)
  {
    var last := LastNonSpace(t).value;
    if last == ':' && CanParse(t + "1" + k) {
      SoundValue(t, k, m);
    } else if CanParse(t + ": 1" + k) {
      SoundColon(t, k, m);
    } else if last == '{' && CanParse(t + k) {
      OpenedObject(t, m, k);
    } else if CanParse(t + "\"" + k) {
      SoundString(t, k, m);
    } else if LastChar(t) == Some('\\') && CanParse(t + "\\\"" + k) {
      SoundEscape(t, k, m);
    }
  }

  lemma SoundInArray(t: string, k: string, m: string)
    requires RawText(m) && IsClosing(k) && LastNonSpace(t).Some?
    ensures var c := ChooseInArray(t, LastNonSpace(t).value, k, m); c.Chosen? && !c.cutBack ==> CanParse(c.text)
  {
    var last := LastNonSpace(t).value;
    if (last == ',' || last == '[') && CanParse(t + "1" + k) {
      SoundValue(t, k, m);
    } else if CanParse(t + "\"" + k) {
      SoundString(t, k, m);
    } else if LastChar(t) == Some('\\') && CanParse(t + "\\\"" + k) {
      SoundEscape(t, k, m);
    } else if !MaybeNumber(t, last) && CanParse(t + ", 1" + k) {
      SoundNextItem(t, k, m);
    }
  }

  lemma Regroup3(t: string, k: string)
    ensures t + "1" + k == t + ("1" + k) && t + ": 1" + k == t + (": 1" + k) && t + "\"" + k == t + ("\"" + k)
    ensures t + "\\\"" + k == t + ("\\\"" + k) && t + ", 1" + k == t + (", 1" + k)
    ensures t + "\"\": 1" + k == t + ("\"\": 1" + k) && t + ",\"\": 1" + k == t + (",\"\": 1" + k)
    ensures t + "\": 1" + k == t + ("\": 1" + k) && t + "\\\": 1" + k == t + ("\\\": 1" + k)
  {
    Assoc(t, "1", k);
    Assoc(t, ": 1", k);
    Assoc(t, "\"", k);
    Assoc(t, "\\\"", k);
    Assoc(t, ", 1", k);
    Assoc(t, "\"\": 1", k);
    Assoc(t, ",\"\": 1", k);
    Assoc(t, "\": 1", k);
    Assoc(t, "\\\": 1", k);
  }

  lemma SoundInObject(t: string, k: string, m: string)
    requires RawText(m) && IsClosing(k) && LastNonSpace(t).Some?
    ensures var c := ChooseInObject(t, LastNonSpace(t).value, k, m); c.Chosen? && !c.cutBack ==> CanParse(c.text)
  {
    var s, last := Run(START, t), LastNonSpace(t).value;
    RunFits(t);
    FinishShaped(s);
    QuoteLeads(s);
    ParseEnds(t, "\"\": 1" + k);
    ParseEnds(t, ",\"\": 1" + k);
    ParseEnds(t, "\": 1" + k);
    ParseEnds(t, "\\\": 1" + k);
    Regroup3(t, k);
    if last == '{' && CanParse(t + k) {
      OpenedObject(t, m, k);
    } else if last == ',' && CanParse(t + "\"\": 1" + k) {
      ProbeMember(s, k);
      KeyTextAccepted(t, "\"", m, k, [], [], s.stack);
    } else if !MaybeNumber(t, last) && CanParse(t + ",\"\": 1" + k) {
      ProbeNextMember(s, k);
      CommaLeads(s);
      KeyTextAccepted(t, ",\"", m, k, [], [], Finish(s).stack);
    } else if CanParse(t + "\": 1" + k) {
      ProbeKeyQuote(s, k);
      assert [] + m == m;
      KeyTextAccepted(t, [], m, k, s.mode.text, s.mode.text, s.stack);
    } else if LastChar(t) == Some('\\') && CanParse(t + "\\\": 1" + k) {
      ProbeKeyEscape(s, k);
      KeyTextAccepted(t, "\\", m, k, s.mode.text + "\\", s.mode.text + "\\", s.stack);
    }
  }

  /** For every text, whatever its stack, and every marker of characters that stand for themselves:
      a branch whose probe succeeded builds valid JSON, so healing cannot throw outside the three
      cut-back branches. */
  lemma ProbesAreSound(t: string, stack: seq<Element>, m: string)
    requires RawText(m) && stack != []
    ensures var c := Choose(t, stack, m);
      c.Chosen? && !c.cutBack ==> CanParse(c.text) && Heal(t, stack, m).Healed?
  {
    ClosingIsClosing(stack);
    if LastNonSpace(t).Some? {
      match stack[|stack| - 1].kind
      case KEY => SoundInKey(t, Closing(stack), m);
      case ARRAY => SoundInArray(t, Closing(stack), m);
      case OBJECT => SoundInObject(t, Closing(stack), m);
    }
  }
}
