/** Healing text that was cut short at any point: what it gives, and that cutting the dump of what
    it gives at the marker brings the text back. */
module JsonRoundTrip {
  import opened Text
  import opened JsonText
  import opened JsonReader
  import opened JsonShape
  import opened JsonDumped
  import opened JsonLocator
  import opened JsonPartial
  import opened JsonProbes
  import opened JsonHealing

  /** The text stops inside some container. */
  predicate Truncated(t: string) { Viable(t) && Finish(Run(START, t)).stack.Push? }

  /** The text stops on a scalar that may be incomplete: a number, a literal not yet whole, or
      `true` or `false` with nothing behind it. */
  predicate OnScalar(t: string) {
    var s := Run(START, t);
    s.mode.InNumber? || s.mode.InLiteral? || (s.mode.After? && LastChar(t) == Some('e'))
  }

  /** The text stops inside a `\u` escape. */
  predicate OnCode(t: string) { Run(START, t).mode.InUnicode? }

  /** The state is inside no token that a marker cannot follow. */
  predicate Resting(s: State) { !s.mode.InNumber? && !s.mode.InLiteral? && !s.mode.InUnicode? }

  const OPENERS: set<char> := {':', '[', ','}

  /** The text healing keeps: all of it, or up to its last `:`, `[` or `,` when it stops on a scalar. */
  function Kept(t: string): string {
    if !OnScalar(t) then t
    else
      var u := UpToLast(t, OPENERS);
      if u.Some? then u.value else []
  }

  /** What the marker becomes, and behind what: the simple form of the cascade of probes. */
  datatype Point = Point(stack: Stack, value: Json, quote: string)

  /** The place a healing marker takes, directly from the reader's state. */
  function HealingPoint(s: State, m: string): Point
    requires Shaped(s)
  {
    match s.mode
    case Colon => Point(s.stack, Str(m), ":\"")
    case InString(role, x) =>
      if role == Val then Point(s.stack, Str(x + m), []) else Point(WithKey(s.stack, x + m), Num("1"), [])
    case InEscape(role, x) =>
      if role == Val then Point(s.stack, Str(x + "\\" + m), "\\")
      else Point(WithKey(s.stack, x + "\\" + m), Num("1"), "\\")
    case KeyOrClose => Point(WithKey(s.stack, m), Num("1"), "\"")
    case KeyOnly => Point(WithKey(s.stack, m), Num("1"), "\"")
    case After =>
      if s.stack.top.ArrFrame? then Point(s.stack, Str(m), ",\"") else Point(WithKey(s.stack, m), Num("1"), ",\"")
    case _ => Point(s.stack, Str(m), "\"")
  }

  /** What healing a truncated text gives. */
  function HealedAs(t: string, m: string): Outcome
    requires Viable(Kept(t))
  {
    RunShaped(START, Kept(t));
    var p := HealingPoint(Run(START, Kept(t)), m);
    Healed(Plug(p.stack, p.value), m, p.quote + m, |t|)
  }

  // Where a text stops

  lemma {:induction false} FirstBadViable(s: State, t: string)
    requires !Run(s, t).mode.Failed?
    ensures FirstBad(s, t) == |t|
    decreases |t|
  {
    if t != [] {
      if Step(s, t[0]).mode.Failed? { RunFailed(Step(s, t[0]), t[1..]); }
      FirstBadViable(Step(s, t[0]), t[1..]);
    }
  }

  lemma LocateTruncated(t: string)
    requires Truncated(t)
    ensures Parse(t).None?
    ensures Locate(t) == Located(true, |t|, Elements(Finish(Run(START, t)).stack))
    ensures Locate(t).stack != []
  {
    FirstBadViable(START, t);
    assert t[..|t|] == t;
    RunShaped(START, t);
    FinishShaped(Run(START, t));
    var f := Finish(Run(START, t));
    ClosingPush(f.stack.top, f.stack.below);
  }

  /** The state does not end in a token when the text ends in whitespace. */
  lemma TokenLast(t: string)
    requires var m := Run(START, t).mode; m.InEscape? || m.InNumber? || m.InLiteral?
    ensures LastChar(t) == LastNonSpace(t)
  {
    var n := |t| - 1;
    assert t == t[..n] + [t[n]];
    RunSnoc(START, t[..n], t[n]);
    SpaceEndsToken(Run(START, t[..n]), t[n]);
  }

  lemma SpaceEndsToken(s: State, c: char)
    requires var m := Step(s, c).mode; m.InEscape? || m.InNumber? || m.InLiteral?
    ensures !IsSpace(c)
  {
  }

  /** A value is complete behind its last character or whitespace, never behind a bare digit. */
  lemma AfterLast(t: string)
    requires Run(START, t).mode.After?
    ensures LastChar(t).Some?
    ensures var c := LastChar(t).value; IsSpace(c) || c in {'"', 'e', 'l', ']', '}'}
  {
    var n := |t| - 1;
    assert t == t[..n] + [t[n]];
    RunSnoc(START, t[..n], t[n]);
    var s := Run(START, t[..n]);
    RunShaped(START, t[..n]);
    AfterStepLast(s, t[n]);
  }

  lemma AfterStepLast(s: State, c: char)
    requires Shaped(s) && Step(s, c).mode.After?
    ensures IsSpace(c) || c in {'"', 'e', 'l', ']', '}'}
  {
    FinishShaped(s);
    if s.mode.InNumber? { StepFinish(s, c); }
  }

  lemma NumberChar(d: string)
    requires NumRun(d) != Bad
    ensures d != [] && (IsDigit(d[|d| - 1]) || d[|d| - 1] in {'-', '+', '.', 'e', 'E'})
  {
  }

  lemma LiteralChar(lit: Literal, n: nat)
    requires n < |LiteralText(lit)|
    ensures LiteralText(lit)[n] in {'n', 'u', 'l', 't', 'r', 'e', 'f', 'a', 's'}
  {
  }

  // The cascade on truncated text

  /** The probe texts as what the reader does with them behind `t`. */
  lemma ProbeTexts(t: string, k: string)
    requires IsClosing(k)
    ensures Shaped(Run(START, t)) && LastFits(Run(START, t), LastNonSpace(t))
    ensures var s := Run(START, t);
      && CanParse(t + k) == Accepts(s, k)
      && CanParse(t + "1" + k) == Accepts(s, "1" + k)
      && CanParse(t + ": 1" + k) == Accepts(s, ": 1" + k)
      && CanParse(t + "\"" + k) == Accepts(s, "\"" + k)
      && CanParse(t + "\\\"" + k) == Accepts(s, "\\\"" + k)
      && CanParse(t + ", 1" + k) == Accepts(s, ", 1" + k)
      && CanParse(t + "\"\": 1" + k) == Accepts(s, "\"\": 1" + k)
      && CanParse(t + ",\"\": 1" + k) == Accepts(s, ",\"\": 1" + k)
      && CanParse(t + "\": 1" + k) == Accepts(s, "\": 1" + k)
      && CanParse(t + "\\\": 1" + k) == Accepts(s, "\\\": 1" + k)
  {
    RunFits(t);
    Regroup3(t, k);
    ParseEnds(t, k);
    ParseEnds(t, "1" + k);
    ParseEnds(t, ": 1" + k);
    ParseEnds(t, "\"" + k);
    ParseEnds(t, "\\\"" + k);
    ParseEnds(t, ", 1" + k);
    ParseEnds(t, "\"\": 1" + k);
    ParseEnds(t, ",\"\": 1" + k);
    ParseEnds(t, "\": 1" + k);
    ParseEnds(t, "\\\": 1" + k);
  }

  /** Which probes succeed, for a text stopping in state `s` and the closing of its containers. */
  lemma ProbeResults(s: State, k: string)
    requires Shaped(s) && s.stack.Push? && k == Closing(Elements(s.stack)) && IsClosing(k)
    requires !s.mode.InNumber?
    ensures Accepts(s, "1" + k) == (s.mode.Value? || s.mode.ValueOrClose?)
    ensures Accepts(s, ": 1" + k) == s.mode.Colon?
    ensures Accepts(s, "\"" + k) == (s.mode.InString? && s.mode.role == Val)
    ensures Accepts(s, "\\\"" + k) == (s.mode.InEscape? && s.mode.role == Val)
    ensures Accepts(s, ", 1" + k) == (s.mode.After? && s.stack.top.ArrFrame?)
    ensures s.mode.KeyOnly? ==> Accepts(s, "\"\": 1" + k)
    ensures !s.mode.InEscape? && !s.mode.KeyOnly? && !s.mode.KeyOrClose? ==> !Accepts(s, "\"\": 1" + k)
    ensures Accepts(s, ",\"\": 1" + k) == (s.mode.After? && s.stack.top.ObjFrame?)
    ensures Accepts(s, "\": 1" + k) == (s.mode.InString? && s.mode.role == Key)
    ensures Accepts(s, "\\\": 1" + k) == (s.mode.InEscape? && s.mode.role == Key)
    ensures s.mode.InString? ==> !Accepts(s, k)
    ensures s.mode.KeyOrClose? ==> Accepts(s, k)
  {
    ProbeOne(s, k);
    ProbeColonOne(s, k);
    ProbeQuote(s, k);
    ProbeEscapedQuote(s, k);
    ProbeNextItem(s, k);
    ProbeNextMember(s, k);
    ProbeKeyQuote(s, k);
    ProbeKeyEscape(s, k);
    if !s.mode.InEscape? { ProbeMember(s, k); }
    ClosedAccepts(s, k);
    if s.mode.InString? { RejectsInString(s, k); }
    if s.mode.KeyOrClose? {
      ClosingPush(s.stack.top, s.stack.below);
      CloseStep(s);
      CloseAll(s.stack.below, FrameValue(s.stack.top));
      assert Bracket(s.stack.top) == ['}'];
      EndsCons(s, '}', Closing(Elements(s.stack.below)));
    }
  }

  /** The closing is accepted behind whatever completes a value in the open containers. */
  lemma ClosedAccepts(s: State, k: string)
    requires Shaped(s) && s.stack.Push? && k == Closing(Elements(s.stack))
    ensures Awaiting(s.stack) ==> forall v :: Accepts(Complete(s.stack, v), k)
    ensures AwaitingKey(s.stack) || (s.mode.After? && s.stack.top.ObjFrame?) ==>
      forall x :: Accepts(Complete(WithKey(s.stack, x), Num("1")), k)
    ensures s.mode.After? && s.stack.top.ArrFrame? ==> forall v :: Accepts(Complete(s.stack, v), k)
  {
    if Awaiting(s.stack) {
      forall v ensures Accepts(Complete(s.stack, v), k) { CloseAll(s.stack, v); }
    }
    if AwaitingKey(s.stack) || (s.mode.After? && s.stack.top.ObjFrame?) {
      forall x ensures Accepts(Complete(WithKey(s.stack, x), Num("1")), k) {
        ClosingIgnoresKeys(s.stack, WithKey(s.stack, x));
        CloseAll(WithKey(s.stack, x), Num("1"));
      }
    }
    if s.mode.After? && s.stack.top.ArrFrame? {
      forall v ensures Accepts(Complete(s.stack, v), k) { CloseAll(s.stack, v); }
    }
  }

  lemma ElementsTop(stack: Stack)
    requires stack.Push?
    ensures var es := Elements(stack);
      es != [] && es[|es| - 1].kind ==
        if stack.top.ArrFrame? then ARRAY else if stack.top.pending.Some? then KEY else OBJECT
  {
  }

  /** The text a point's value needs behind the marker. */
  function RestOf(p: Point, k: string): string { if p.value == Num("1") then "\": 1" + k else "\"" + k }

  // The probes that each of the three cascades asks for

  /** Text that does not stop on a scalar, and the closing of its open containers. */
  predicate Probed(t: string, k: string) {
    var s := Run(START, t);
    Truncated(t) && !OnScalar(t) && !OnCode(t) && s.stack.Push? && k == Closing(Elements(s.stack))
  }

  lemma KeyProbes(t: string, k: string)
    requires Probed(t, k)
    ensures LastNonSpace(t).Some? && Shaped(Run(START, t)) && LastFits(Run(START, t), LastNonSpace(t))
    ensures var s := Run(START, t);
      && CanParse(t + "1" + k) == (s.mode.Value? || s.mode.ValueOrClose?)
      && CanParse(t + ": 1" + k) == s.mode.Colon?
      && CanParse(t + "\"" + k) == (s.mode.InString? && s.mode.role == Val)
      && CanParse(t + "\\\"" + k) == (s.mode.InEscape? && s.mode.role == Val)
      && (s.mode.InString? ==> !CanParse(t + k))
  {
    AllProbes(t, k);
  }

  lemma ArrayProbes(t: string, k: string)
    requires Probed(t, k)
    ensures LastNonSpace(t).Some? && Shaped(Run(START, t)) && LastFits(Run(START, t), LastNonSpace(t))
    ensures var s := Run(START, t);
      && CanParse(t + "1" + k) == (s.mode.Value? || s.mode.ValueOrClose?)
      && CanParse(t + "\"" + k) == (s.mode.InString? && s.mode.role == Val)
      && CanParse(t + "\\\"" + k) == (s.mode.InEscape? && s.mode.role == Val)
      && CanParse(t + ", 1" + k) == (s.mode.After? && s.stack.top.ArrFrame?)
  {
    AllProbes(t, k);
  }

  lemma ObjectProbes(t: string, k: string)
    requires Probed(t, k)
    ensures LastNonSpace(t).Some? && Shaped(Run(START, t)) && LastFits(Run(START, t), LastNonSpace(t))
    ensures var s := Run(START, t);
      && (s.mode.KeyOnly? ==> CanParse(t + "\"\": 1" + k))
      && (!s.mode.InEscape? && !s.mode.KeyOnly? && !s.mode.KeyOrClose? ==> !CanParse(t + "\"\": 1" + k))
      && CanParse(t + ",\"\": 1" + k) == (s.mode.After? && s.stack.top.ObjFrame?)
      && CanParse(t + "\": 1" + k) == (s.mode.InString? && s.mode.role == Key)
      && CanParse(t + "\\\": 1" + k) == (s.mode.InEscape? && s.mode.role == Key)
      && (s.mode.InString? ==> !CanParse(t + k)) && (s.mode.KeyOrClose? ==> CanParse(t + k))
  {
    AllProbes(t, k);
  }

  lemma AllProbes(t: string, k: string)
    requires Probed(t, k)
    ensures IsClosing(k) && LastNonSpace(t).Some? && Shaped(Run(START, t)) && LastFits(Run(START, t), LastNonSpace(t))
    ensures var s := Run(START, t);
      && CanParse(t + k) == Accepts(s, k)
      && CanParse(t + "1" + k) == (s.mode.Value? || s.mode.ValueOrClose?)
      && CanParse(t + ": 1" + k) == s.mode.Colon?
      && CanParse(t + "\"" + k) == (s.mode.InString? && s.mode.role == Val)
      && CanParse(t + "\\\"" + k) == (s.mode.InEscape? && s.mode.role == Val)
      && CanParse(t + ", 1" + k) == (s.mode.After? && s.stack.top.ArrFrame?)
      && (s.mode.KeyOnly? ==> CanParse(t + "\"\": 1" + k))
      && (!s.mode.InEscape? && !s.mode.KeyOnly? && !s.mode.KeyOrClose? ==> !CanParse(t + "\"\": 1" + k))
      && CanParse(t + ",\"\": 1" + k) == (s.mode.After? && s.stack.top.ObjFrame?)
      && CanParse(t + "\": 1" + k) == (s.mode.InString? && s.mode.role == Key)
      && CanParse(t + "\\\": 1" + k) == (s.mode.InEscape? && s.mode.role == Key)
      && (s.mode.InString? ==> !CanParse(t + k)) && (s.mode.KeyOrClose? ==> CanParse(t + k))
  {
    ClosingIsClosing(Elements(Run(START, t).stack));
    ProbeTexts(t, k);
    ProbeResults(Run(START, t), k);
    StringHasQuote(t);
  }

  lemma KeyChooses(t: string, m: string, k: string)
    requires Truncated(t) && !OnScalar(t) && !OnCode(t) && RawText(m)
    requires var s := Run(START, t);
      s.stack.top.ObjFrame? && s.stack.top.pending.Some? && k == Closing(Elements(s.stack))
    ensures LastNonSpace(t).Some? && Shaped(Run(START, t))
    ensures var p := HealingPoint(Run(START, t), m);
      ChooseInKey(t, LastNonSpace(t).value, k, m) == Insertion(t, p.quote + m, RestOf(p, k))
  {
    var s := Run(START, t);
    KeyProbes(t, k);
    if s.mode.InEscape? { TokenLast(t); }
    assert [] + m == m;
  }

  /** Text that has got anywhere has a character other than whitespace. */
  lemma {:induction false} StringHasQuote(t: string)
    requires Viable(t) && Run(START, t).stack.Push?
    ensures LastNonSpace(t).Some?
  {
    if t != [] {
      var n := |t| - 1;
      assert t == t[..n] + [t[n]];
      ViablePrefix(t[..n], [t[n]]);
      RunSnoc(START, t[..n], t[n]);
      if IsSpace(t[n]) {
        RunShaped(START, t[..n]);
        SpaceKeepsStack(Run(START, t[..n]), t[n]);
        StringHasQuote(t[..n]);
      }
    }
  }

  lemma SpaceKeepsStack(s: State, c: char)
    requires Shaped(s) && IsSpace(c) && Step(s, c).stack.Push?
    ensures s.stack.Push?
  {
    if s.mode.InNumber? {
      assert NumStep(NumRun(s.mode.digits), c) == Bad;
      StepFinish(s, c);
    }
  }

  lemma ArrayChooses(t: string, m: string, k: string)
    requires Truncated(t) && !OnScalar(t) && !OnCode(t) && RawText(m)
    requires var s := Run(START, t); s.stack.top.ArrFrame? && k == Closing(Elements(s.stack))
    ensures LastNonSpace(t).Some? && Shaped(Run(START, t))
    ensures var p := HealingPoint(Run(START, t), m);
      ChooseInArray(t, LastNonSpace(t).value, k, m) == Insertion(t, p.quote + m, RestOf(p, k))
  {
    var s := Run(START, t);
    ArrayProbes(t, k);
    if s.mode.InEscape? { TokenLast(t); }
    if s.mode.After? { AfterLast(t); SpaceOrLast(t); }
    assert [] + m == m;
  }

  lemma ObjectChooses(t: string, m: string, k: string)
    requires Truncated(t) && !OnScalar(t) && !OnCode(t) && RawText(m)
    requires var s := Run(START, t);
      s.stack.top.ObjFrame? && s.stack.top.pending.None? && k == Closing(Elements(s.stack))
    ensures LastNonSpace(t).Some? && Shaped(Run(START, t))
    ensures var p := HealingPoint(Run(START, t), m);
      ChooseInObject(t, LastNonSpace(t).value, k, m) == Insertion(t, p.quote + m, RestOf(p, k))
  {
    var s := Run(START, t);
    ObjectProbes(t, k);
    if s.mode.InEscape? { TokenLast(t); }
    if s.mode.After? { AfterLast(t); SpaceOrLast(t); }
    assert [] + m == m;
  }

  lemma SpaceOrLast(t: string)
    requires t != []
    ensures IsSpace(t[|t| - 1]) || LastNonSpace(t) == LastChar(t)
  {
  }

  /** On truncated text that does not stop on a scalar, the cascade puts the marker at its point. */
  lemma ChoosesPoint(t: string, m: string)
    requires Truncated(t) && !OnScalar(t) && !OnCode(t) && RawText(m)
    ensures Shaped(Run(START, t)) && Elements(Run(START, t).stack) != []
    ensures var s := Run(START, t);
      var p := HealingPoint(s, m);
      Choose(t, Elements(s.stack), m) == Insertion(t, p.quote + m, RestOf(p, Closing(Elements(s.stack))))
  {
    var s := Run(START, t);
    RunShaped(START, t);
    ElementsTop(s.stack);
    StringHasQuote(t);
    var k := Closing(Elements(s.stack));
    if s.stack.top.ArrFrame? {
      ArrayChooses(t, m, k);
    } else if s.stack.top.pending.Some? {
      KeyChooses(t, m, k);
    } else {
      ObjectChooses(t, m, k);
    }
  }

  // Text that stops on a scalar

  /** Behind the last opener only the scalar itself has been read. */
  lemma {:induction false} ScalarStart(t: string, cs: set<char>)
    requires Viable(t) && cs <= OPENERS
    requires var s := Run(START, t);
      && (s.mode.Value? || s.mode.ValueOrClose? || s.mode.InNumber? || s.mode.InLiteral?)
      && s.stack.Push? && (if s.stack.top.ArrFrame? then '[' in cs && ',' in cs else ':' in cs)
    ensures UpToLast(t, cs).Some? && UpToLast(t, cs) == UpToLast(t, OPENERS)
    ensures var n := Run(START, UpToLast(t, cs).value);
      (n.mode.Value? || n.mode.ValueOrClose?) && n.stack == Run(START, t).stack
  {
    var n := |t| - 1;
    var u, c := t[..n], t[n];
    assert t == u + [c];
    ViablePrefix(u, [c]);
    RunSnoc(START, u, c);
    RunFits(t);
    RunFits(u);
    if c in OPENERS { ScalarCharOpens(Run(START, t), c); }
    if c !in cs {
      ScalarCharKeeps(Run(START, u), c, cs);
      ScalarStart(u, cs);
    }
  }

  /** A character that is no opener leaves the place where the scalar started. */
  lemma ScalarCharKeeps(s: State, c: char, cs: set<char>)
    requires Shaped(s) && cs <= OPENERS && c !in cs
    requires var n := Step(s, c);
      && (n.mode.Value? || n.mode.ValueOrClose? || n.mode.InNumber? || n.mode.InLiteral?)
      && n.stack.Push? && (if n.stack.top.ArrFrame? then '[' in cs && ',' in cs else ':' in cs)
    ensures (s.mode.Value? || s.mode.ValueOrClose? || s.mode.InNumber? || s.mode.InLiteral?)
    ensures s.stack == Step(s, c).stack
  {
    if s.mode.InNumber? && NumStep(NumRun(s.mode.digits), c) == Bad {
      StepFinish(s, c);
      FinishShaped(s);
    }
  }

  /** Behind an opener a value is expected. */
  lemma ScalarCharOpens(s: State, c: char)
    requires Shaped(s) && LastFits(s, Some(c)) && c in OPENERS
    requires s.mode.Value? || s.mode.ValueOrClose? || s.mode.InNumber? || s.mode.InLiteral?
    ensures s.mode.Value? || s.mode.ValueOrClose?
    ensures s.stack.Push? ==> (if s.stack.top.ArrFrame? then c == '[' || c == ',' else c == ':')
  {
    if s.mode.InNumber? { NumberChar(s.mode.digits); }
    if s.mode.InLiteral? { LiteralChar(s.mode.lit, s.mode.matched - 1); }
  }

  /** No probe for a string or a key succeeds on a scalar. */
  lemma ScalarProbes(s: State, k: string)
    requires Shaped(s) && IsClosing(k) && (s.mode.InNumber? || s.mode.InLiteral? || s.mode.After?)
    ensures !Accepts(s, ": 1" + k) && !Accepts(s, "\"" + k) && !Accepts(s, "\\\"" + k)
    ensures !Accepts(s, "\": 1" + k) && !Accepts(s, "\\\": 1" + k)
    ensures !Finish(s).mode.After? ==> !Accepts(s, ", 1" + k) && !Accepts(s, ",\"\": 1" + k)
  {
    ProbeColonOne(s, k);
    ProbeQuote(s, k);
    ProbeEscapedQuote(s, k);
    ProbeNextItem(s, k);
    ProbeNextMember(s, k);
    ProbeKeyQuote(s, k);
    ProbeKeyEscape(s, k);
  }

  /** The last character of a scalar is no opener, and a complete one looks like a number. */
  lemma ScalarLast(t: string)
    requires Truncated(t) && OnScalar(t)
    ensures LastNonSpace(t).Some? && LastNonSpace(t) == LastChar(t)
    ensures LastNonSpace(t).value !in OPENERS && LastNonSpace(t).value != '{' && LastNonSpace(t).value != '\\'
    ensures Finish(Run(START, t)).mode.After? ==> MaybeNumber(t, LastNonSpace(t).value)
  {
    var s := Run(START, t);
    RunFits(t);
    if s.mode.InNumber? {
      TokenLast(t);
      NumberChar(s.mode.digits);
      if IsNumber(s.mode.digits) { NumberEndsInDigit(s.mode.digits); }
    } else if s.mode.InLiteral? {
      TokenLast(t);
      LiteralChar(s.mode.lit, s.mode.matched - 1);
    }
  }

  /** On a scalar every probe fails and the cascade cuts the text back. */
  lemma ScalarChooses(t: string, m: string)
    requires Truncated(t) && OnScalar(t)
    ensures var els := Elements(Finish(Run(START, t)).stack);
      els != [] && Choose(t, els, m)
                   == CutBack(t, if els[|els| - 1].kind == ARRAY then {'[', ','} else {':'}, m, Closing(els))
  {
    var s := Run(START, t);
    var f := Finish(s);
    var els := Elements(f.stack);
    ClosingIsClosing(els);
    NoScalarProbe(t, Closing(els));
    ScalarLast(t);
    RunShaped(START, t);
    FinishShaped(s);
    ElementsTop(f.stack);
    CascadeCuts(t, els, m, LastNonSpace(t).value);
  }

  /** None of the probes that a scalar's last character lets through succeeds. */
  predicate NothingProbed(t: string, k: string, last: char) {
    && !CanParse(t + ": 1" + k) && !CanParse(t + "\"" + k) && !CanParse(t + "\\\"" + k)
    && !CanParse(t + "\": 1" + k) && !CanParse(t + "\\\": 1" + k)
    && (MaybeNumber(t, last) || (!CanParse(t + ", 1" + k) && !CanParse(t + ",\"\": 1" + k)))
  }

  lemma NoScalarProbe(t: string, k: string)
    requires Truncated(t) && OnScalar(t) && IsClosing(k)
    ensures LastNonSpace(t).Some? && NothingProbed(t, k, LastNonSpace(t).value)
  {
    ProbeTexts(t, k);
    ScalarProbes(Run(START, t), k);
    ScalarLast(t);
  }

  lemma CascadeCuts(t: string, els: seq<Element>, m: string, last: char)
    requires els != [] && LastNonSpace(t) == Some(last) && NothingProbed(t, Closing(els), last)
    requires last !in OPENERS && last != '{'
    ensures Choose(t, els, m) == CutBack(t, if els[|els| - 1].kind == ARRAY then {'[', ','} else {':'}, m, Closing(els))
  {
  }

  /** The cut-back text stops where the scalar would start, in the same open containers. */
  lemma ScalarKept(t: string)
    requires Truncated(t) && OnScalar(t)
    ensures var els := Elements(Finish(Run(START, t)).stack);
      && els != []
      && var cs := if els[|els| - 1].kind == ARRAY then {'[', ','} else {':'};
      && UpToLast(t, cs) == Some(Kept(t))
      && var n := Run(START, Kept(t));
      && (n.mode.Value? || n.mode.ValueOrClose?) && n.stack.Push? && Awaiting(n.stack)
      && Closing(Elements(n.stack)) == Closing(els)
  {
    var s := Run(START, t);
    RunShaped(START, t);
    FinishShaped(s);
    ElementsTop(Finish(s).stack);
    RunShaped(START, Kept(t));
    if s.mode.After? {
      LiteralKept(t, s);
    } else {
      ScalarStart(t, if s.stack.top.ArrFrame? then {'[', ','} else {':'});
      ClosingIgnoresKeys(s.stack, Finish(s).stack);
    }
  }

  lemma LiteralKept(t: string, s: State)
    requires Viable(t) && s == Run(START, t) && Shaped(s) && s.mode.After? && LastChar(t) == Some('e') && s.stack.Push?
    ensures var cs := if s.stack.top.ArrFrame? then {'[', ','} else {':'};
      && UpToLast(t, cs).Some? && UpToLast(t, cs) == UpToLast(t, OPENERS)
      && var n := Run(START, UpToLast(t, cs).value);
      && (n.mode.Value? || n.mode.ValueOrClose?) && n.stack.Push?
      && Closing(Elements(n.stack)) == Closing(Elements(s.stack))
  {
    var u := t[..|t| - 1];
    assert t == u + ['e'];
    ViablePrefix(u, ['e']);
    RunSnoc(START, u, 'e');
    RunShaped(START, u);
    var r := Run(START, u);
    LiteralCompletes(r);
    ScalarStart(u, if s.stack.top.ArrFrame? then {'[', ','} else {':'});
    ClosingIgnoresKeys(r.stack, s.stack);
  }

  lemma LiteralCompletes(r: State)
    requires Shaped(r) && Step(r, 'e').mode.After?
    ensures r.mode.InLiteral? && Step(r, 'e') == Complete(r.stack, LiteralValue(r.mode.lit)) && r.stack.Push?
    ensures r.stack.below == Step(r, 'e').stack.below && r.stack.top.ArrFrame? == Step(r, 'e').stack.top.ArrFrame?
  {
    FinishShaped(r);
    if r.mode.InNumber? && NumStep(NumRun(r.mode.digits), 'e') == Bad { StepFinish(r, 'e'); }
  }

  // What healing gives

  /** The text built at a point parses to the marker plugged into the open containers. */
  lemma PointParses(t: string, m: string)
    requires Truncated(t) && RawText(m)
    requires var s := Run(START, t); Resting(s)
    ensures Shaped(Run(START, t))
    ensures var s := Run(START, t);
      var p := HealingPoint(s, m);
      Parse(t + (p.quote + m) + RestOf(p, Closing(Elements(s.stack)))) == Some(Plug(p.stack, p.value))
  {
    var s := Run(START, t);
    RunShaped(START, t);
    ClosingIsClosing(Elements(s.stack));
    QuoteLeads(s);
    if s.mode.After? { CommaLeads(s); }
    assert [] + m == m;
    if HealingPoint(s, m).value == Num("1") {
      KeyPointParses(t, m, s);
    } else {
      ValuePointParses(t, m, s);
    }
  }

  /** What stands in the open string in front of the marker. */
  function Opened(s: State): string {
    match s.mode
    case InString(_, x) => x
    case InEscape(_, x) => x + "\\"
    case _ => []
  }

  lemma KeyPointParses(t: string, m: string, s: State)
    requires Truncated(t) && RawText(m) && s == Run(START, t) && Shaped(s)
    requires Resting(s) && HealingPoint(s, m).value == Num("1")
    requires Run(s, HealingPoint(s, m).quote) == State(InString(Key, Opened(s)), s.stack)
    requires IsClosing(Closing(Elements(s.stack))) && [] + m == m
    ensures var p := HealingPoint(s, m);
      Parse(t + (p.quote + m) + RestOf(p, Closing(Elements(s.stack)))) == Some(Plug(p.stack, p.value))
  {
    var p, k := HealingPoint(s, m), Closing(Elements(s.stack));
    ClosingIgnoresKeys(s.stack, p.stack);
    CloseAll(p.stack, p.value);
    KeyText(t, p.quote, m, k, Opened(s), s.stack);
  }

  lemma ValuePointParses(t: string, m: string, s: State)
    requires Truncated(t) && RawText(m) && s == Run(START, t) && Shaped(s)
    requires Resting(s) && HealingPoint(s, m).value != Num("1")
    requires Run(s, HealingPoint(s, m).quote) == State(InString(Val, Opened(s)), s.stack)
    requires IsClosing(Closing(Elements(s.stack))) && [] + m == m
    ensures var p := HealingPoint(s, m);
      Parse(t + (p.quote + m) + RestOf(p, Closing(Elements(s.stack)))) == Some(Plug(p.stack, p.value))
  {
    var p, k := HealingPoint(s, m), Closing(Elements(s.stack));
    CloseAll(p.stack, p.value);
    ValueText(t, p.quote, m, k, Opened(s), s.stack);
  }

  lemma HealsChoice(t: string, stack: seq<Element>, m: string, c: Choice, j: Json)
    requires stack != [] && Choose(t, stack, m) == c && c.Chosen? && Parse(c.text) == Some(j)
    ensures Heal(t, stack, m) == Healed(j, m, c.dumpMarker, |t|)
  {
  }

  lemma HealsOnScalar(t: string, m: string)
    requires Truncated(t) && OnScalar(t) && RawText(m)
    ensures Truncated(Kept(t)) && Elements(Finish(Run(START, t)).stack) != []
    ensures Heal(t, Elements(Finish(Run(START, t)).stack), m) == HealedAs(t, m)
  {
    var els := Elements(Finish(Run(START, t)).stack);
    ScalarChooses(t, m);
    ScalarKept(t);
    var u := Kept(t);
    PointParses(u, m);
    var p := HealingPoint(Run(START, u), m);
    HealsChoice(t, els, m, Chosen(u + ("\"" + m) + ("\"" + Closing(els)), "\"" + m, true), Plug(p.stack, p.value));
  }

  lemma HealsOffScalar(t: string, m: string)
    requires Truncated(t) && !OnScalar(t) && !OnCode(t) && RawText(m)
    ensures Elements(Finish(Run(START, t)).stack) != []
    ensures Heal(t, Elements(Finish(Run(START, t)).stack), m) == HealedAs(t, m)
  {
    var s := Run(START, t);
    ChoosesPoint(t, m);
    PointParses(t, m);
    var p := HealingPoint(s, m);
    var k := Closing(Elements(s.stack));
    HealsChoice(t, Elements(s.stack), m, Insertion(t, p.quote + m, RestOf(p, k)), Plug(p.stack, p.value));
  }

  /** Healing a truncated text that does not stop inside a `\u` escape never throws: it puts the marker at the
      point its state names. */
  lemma HealsTruncated(t: string, m: string)
    requires Truncated(t) && !OnCode(t) && RawText(m) && m != []
    ensures Truncated(Kept(t)) && ParseOrHeal(t, m) == HealedAs(t, m)
  {
    LocateTruncated(t);
    assert t[..|t|] == t;
    if OnScalar(t) {
      HealsOnScalar(t, m);
    } else {
      HealsOffScalar(t, m);
    }
  }

  // The dump of what healing gives

  lemma PlugArrText(a: string, items: seq<Json>, v: Json, k: string)
    ensures a + ("[" + DumpedItems(items)) + Dump(v) + ("]" + k) == a + Dump(Arr(items + [v])) + k
  {
    DumpItemsSnoc(items, v);
    var d, e := DumpedItems(items), Dump(v);
    Shuffle(a, "[", d, e, "]", k);
  }

  lemma Shuffle(a: string, o: string, d: string, e: string, c: string, k: string)
    ensures a + (o + d) + e + (c + k) == a + (o + (d + e) + c) + k
  {
  }

  lemma PlugObjText(a: string, members: seq<Member>, key: string, v: Json, k: string)
    ensures a + ("{" + DumpedMembers(members) + DumpStr(key) + ":") + Dump(v) + ("}" + k)
         == a + Dump(Obj(members + [Member(key, v)])) + k
  {
    DumpMembersSnoc(members, Member(key, v));
    ShuffleMember(a, "{", DumpedMembers(members), DumpStr(key), ":", Dump(v), "}", k);
  }

  lemma ShuffleMember(a: string, o: string, d: string, e: string, c: string, v: string, z: string, k: string)
    ensures a + (o + d + e + c) + v + (z + k) == a + (o + (d + e + c + v) + z) + k
  {
    assert o + (d + e + c + v) + z == (o + d + e + c) + v + z;
    Assoc(a, o + d + e + c, v);
    Assoc(a, o + d + e + c + v, z);
    Assoc(a + (o + d + e + c + v), z, k);
  }

  /** The dump of a plugged value is the text of the open containers, the value, and the closing. */
  lemma {:induction false} PlugText(stack: Stack, v: Json)
    requires Awaiting(stack) && Fresh(stack)
    ensures Dump(Plug(stack, v)) == AwaitText(stack) + Dump(v) + Closing(Elements(stack))
    decreases stack
  {
    match stack
    case Bottom => assert [] + Dump(v) + [] == Dump(v);
    case Push(ArrFrame(items), below) =>
      ClosingPush(stack.top, below);
      PlugText(below, Arr(items + [v]));
      PlugArrText(AwaitText(below), items, v, Closing(Elements(below)));
    case Push(ObjFrame(members, Some(k)), below) =>
      ClosingPush(stack.top, below);
      InsertFresh(members, k, v);
      PlugText(below, Obj(members + [Member(k, v)]));
      PlugObjText(AwaitText(below), members, k, v, Closing(Elements(below)));
  }

  lemma KeyStrShows(x: string, m: string)
    requires PlainMarker(m)
    ensures Contains(DumpStr(x + m), m)
  {
    DumpTextConcat(x, m);
    DumpTextPlain(m);
    assert OccursAt(m, m, 0);
    ContainsSuffix(DumpText(x), m, m);
    ContainsMid("\"", DumpText(x + m), "\"", m);
  }

  /** A key holding the marker shows in the dump of its object. */
  lemma {:induction false} KeyShows(members: seq<Member>, x: string, m: string)
    requires HasKey(members, x + m) && PlainMarker(m)
    ensures Contains(DumpMembers(members), m)
  {
    var n := |members| - 1;
    var front, last := members[..n], members[n];
    var d, key, v := DumpedMembers(front), DumpStr(last.key), Dump(last.value);
    if last.key == x + m {
      KeyStrShows(x, m);
      ContainsSuffix(d, key, m);
    } else {
      var i :| 0 <= i < |members| && members[i].key == x + m;
      assert front[i].key == x + m;
      KeyShows(front, x, m);
      ContainsPrefix(DumpMembers(front), ",", m);
      ContainsPrefix(d, key, m);
    }
    ContainsPrefix(d + key, ":", m);
    ContainsPrefix(d + key + ":", v, m);
  }

  /** A key holding the marker is new to the open object when the text so far is free of it. */
  lemma MarkerKeyFresh(s: State, x: string, m: string)
    requires Shaped(s) && !s.mode.Failed? && s.stack.Push? && s.stack.top.ObjFrame? && s.stack.top.pending.None?
    requires PlainMarker(m) && !Contains(StateText(s), m) && Resting(s)
    ensures !HasKey(s.stack.top.members, x + m)
  {
    var members, a := s.stack.top.members, AwaitText(s.stack.below);
    if HasKey(members, x + m) {
      KeyShows(members, x, m);
      MembersShow(a, DumpMembers(members), m);
      assert Contains(AwaitText(s.stack), m);
      OpenStringShows(AwaitText(s.stack), s.mode, m);
    }
  }

  lemma MembersShow(a: string, d: string, m: string)
    requires Contains(d, m)
    ensures Contains(a + ("{" + d), m) && Contains(a + ("{" + (d + ",")), m)
  {
    ContainsSuffix("{", d, m);
    ContainsSuffix(a, "{" + d, m);
    ContainsPrefix(d, ",", m);
    ContainsSuffix("{", d + ",", m);
    ContainsSuffix(a, "{" + (d + ","), m);
  }

  lemma OpenStringShows(a: string, mode: Mode, m: string)
    requires Contains(a, m)
    ensures mode.InString? ==> Contains(a + "\"" + DumpText(mode.text), m)
    ensures mode.InEscape? ==> Contains(a + "\"" + DumpText(mode.text) + "\\", m)
  {
    ContainsPrefix(a, "\"", m);
    if mode.InString? {
      ContainsPrefix(a + "\"", DumpText(mode.text), m);
    } else if mode.InEscape? {
      ContainsPrefix(a + "\"", DumpText(mode.text), m);
      ContainsPrefix(a + "\"" + DumpText(mode.text), "\\", m);
    }
  }

  lemma KeyPointFresh(s: State, m: string)
    requires Shaped(s) && Fresh(s.stack) && s.stack.Push? && Resting(s) && !s.mode.Failed?
    requires PlainMarker(m) && !Contains(StateText(s), m) && HealingPoint(s, m).value == Num("1")
    ensures Awaiting(HealingPoint(s, m).stack) && Fresh(HealingPoint(s, m).stack)
  {
    var x := match s.mode case InString(_, x) => x case InEscape(_, x) => x + "\\" case _ => [];
    assert [] + m == m;
    MarkerKeyFresh(s, x, m);
  }

  /** The text of the open containers, with the point's value, starts with what was read and the marker. */
  lemma PointText(s: State, m: string) returns (post: string)
    requires Shaped(s) && Fresh(s.stack) && s.stack.Push? && Resting(s) && !s.mode.Failed?
    requires PlainMarker(m) && !Contains(StateText(s), m)
    ensures var p := HealingPoint(s, m);
      && Awaiting(p.stack) && Fresh(p.stack)
      && AwaitText(p.stack) + Dump(p.value) == StateText(s) + (p.quote + m) + post
  {
    var p := HealingPoint(s, m);
    if p.value == Num("1") {
      post := "\":1";
      KeyPointFresh(s, m);
      KeyPointText(s, m);
    } else {
      post := "\"";
      ValuePointFresh(s, m);
      ValuePointText(s, m);
    }
  }

  lemma ValuePointFresh(s: State, m: string)
    requires Shaped(s) && Fresh(s.stack) && s.stack.Push? && Resting(s) && !s.mode.Failed?
    requires HealingPoint(s, m).value != Num("1")
    ensures Awaiting(HealingPoint(s, m).stack) && Fresh(HealingPoint(s, m).stack)
  {
  }

  lemma DumpBackslash()
    ensures DumpText("\\") == "\\\\"
  {
    assert "\\"[..0] == [];
    assert DumpText("\\") == DumpText([]) + DumpChar('\\');
  }

  lemma EscapedMarker(x: string, m: string)
    requires PlainMarker(m)
    ensures DumpText(x + m) == DumpText(x) + m
    ensures DumpText(x + "\\" + m) == DumpText(x) + "\\\\" + m
  {
    DumpTextPlain(m);
    DumpTextConcat(x, m);
    DumpTextConcat(x + "\\", m);
    DumpTextConcat(x, "\\");
    DumpBackslash();
  }

  lemma ColonPointText(s: State, m: string)
    requires Shaped(s) && Fresh(s.stack) && s.mode.Colon? && PlainMarker(m)
    ensures AwaitText(s.stack) + Dump(Str(m)) == StateText(s) + (":\"" + m) + "\""
  {
    ColonText(s);
    ColonPoint(AwaitText(s.stack), StateText(s), m);
  }

  lemma ColonPoint(a: string, t: string, m: string)
    requires a == t + ":" && PlainMarker(m)
    ensures a + Dump(Str(m)) == t + (":\"" + m) + "\""
  {
    DumpTextPlain(m);
    ColonGroup2(t, ":", "\"", m);
    QuotePairs(m);
  }

  lemma ColonGroup2(t: string, c: string, q: string, m: string)
    ensures t + c + (q + m + q) == t + (c + q + m) + q
  {
  }

  lemma QuotePairs(m: string)
    ensures ":\"" + m == ":" + "\"" + m
    ensures ",\"" + m == "," + ("\"" + m)
  {
  }

  lemma StringPointText(s: State, m: string)
    requires Shaped(s) && s.mode.InString? && PlainMarker(m)
    ensures AwaitText(s.stack) + Dump(Str(s.mode.text + m)) == StateText(s) + ([] + m) + "\""
  {
    EscapedMarker(s.mode.text, m);
    StringInserted(AwaitText(s.stack), DumpText(s.mode.text), m, DumpText(s.mode.text + m));
  }

  lemma StringInserted(a: string, d: string, m: string, e: string)
    requires e == d + m
    ensures a + ("\"" + e + "\"") == a + "\"" + d + ([] + m) + "\""
  {
    Quoted(a, "\"", d, m);
    assert [] + m == m;
  }

  lemma EscapePointText(s: State, m: string)
    requires Shaped(s) && s.mode.InEscape? && PlainMarker(m)
    ensures AwaitText(s.stack) + Dump(Str(s.mode.text + "\\" + m)) == StateText(s) + ("\\" + m) + "\""
  {
    EscapedMarker(s.mode.text, m);
    assert "\\\\" == "\\" + "\\";
    Quoted2(AwaitText(s.stack), "\"", DumpText(s.mode.text), "\\", m);
  }

  lemma AfterArrayText(s: State)
    requires Shaped(s) && s.mode.After? && s.stack.top.ArrFrame?
    ensures StateText(s) == AwaitText(s.stack.below) + ("[" + DumpItems(s.stack.top.items))
    ensures AwaitText(s.stack) == AwaitText(s.stack.below) + ("[" + (DumpItems(s.stack.top.items) + ","))
  {
  }

  lemma CommaQuote()
    ensures ",\"" == "," + "\""
  {
  }

  lemma DumpPlainStr(m: string)
    requires PlainMarker(m)
    ensures Dump(Str(m)) == "\"" + m + "\""
  {
    DumpTextPlain(m);
  }

  lemma AfterPointText(s: State, m: string)
    requires Shaped(s) && s.mode.After? && s.stack.top.ArrFrame? && PlainMarker(m)
    ensures AwaitText(s.stack) + Dump(Str(m)) == StateText(s) + (",\"" + m) + "\""
  {
    AfterArrayText(s);
    DumpPlainStr(m);
    CommaQuote();
    AfterGlue(AwaitText(s.stack), StateText(s), Dump(Str(m)), ",\"",
              AwaitText(s.stack.below), "[", DumpItems(s.stack.top.items), ",", "\"", m);
  }

  lemma AfterGlue(w: string, st: string, d: string, cq: string,
                  a: string, o: string, items: string, c: string, q: string, m: string)
    requires w == a + (o + (items + c)) && st == a + (o + items) && d == q + m + q && cq == c + q
    ensures w + d == st + (cq + m) + q
  {
    AfterGroup(a, o, items, c, q, m);
    Assoc(c, q, m);
  }

  lemma OpenPointText(a: string, m: string)
    requires PlainMarker(m)
    ensures a + Dump(Str(m)) == a + ("\"" + m) + "\""
  {
    DumpTextPlain(m);
    Assoc2(a, [], "\"", m, "\"");
  }

  lemma ValuePointText(s: State, m: string)
    requires Shaped(s) && Fresh(s.stack) && s.stack.Push? && Resting(s) && !s.mode.Failed?
    requires PlainMarker(m) && HealingPoint(s, m).value != Num("1")
    ensures var p := HealingPoint(s, m);
      AwaitText(p.stack) + Dump(p.value) == StateText(s) + (p.quote + m) + "\""
  {
    match s.mode
    case Colon => ColonPointText(s, m);
    case InString(_, _) => StringPointText(s, m);
    case InEscape(_, _) => EscapePointText(s, m);
    case After => AfterPointText(s, m);
    case _ => OpenPointText(AwaitText(s.stack), m);
  }

  lemma Assoc2(a: string, c: string, q: string, m: string, z: string)
    ensures a + c + (q + m + z) == a + (c + (q + m)) + z
  {
  }

  lemma Quoted(a: string, q: string, x: string, m: string)
    ensures a + (q + (x + m) + q) == a + q + x + m + q
  {
  }

  lemma Quoted2(a: string, q: string, x: string, b: string, m: string)
    ensures a + (q + (x + (b + b) + m) + q) == a + q + x + b + (b + m) + q
  {
  }

  lemma AfterGroup(a: string, o: string, d: string, c: string, q: string, m: string)
    ensures a + (o + (d + c)) + (q + m + q) == a + (o + d) + (c + (q + m)) + q
  {
  }

  lemma KeyTail()
    ensures "\":1" == "\"" + ":" + "1"
  {
  }

  /** The text of the object at the top, with `k` put before a value `1`. */
  lemma WithKeyText(stack: Stack, k: string)
    requires AwaitingKey(stack)
    ensures AwaitText(WithKey(stack, k)) + Dump(Num("1"))
         == AwaitText(stack.below) + ("{" + DumpedMembers(stack.top.members) + ("\"" + DumpText(k) + "\"") + ":") + "1"
  {
  }

  lemma StringKeyText(s: State, m: string)
    requires Shaped(s) && s.mode.InString? && AwaitingKey(s.stack) && PlainMarker(m)
    ensures AwaitText(WithKey(s.stack, s.mode.text + m)) + Dump(Num("1")) == StateText(s) + ([] + m) + "\":1"
  {
    var x := s.mode.text;
    EscapedMarker(x, m);
    WithKeyText(s.stack, x + m);
    KeyTail();
    assert [] + m == m;
    KeyGroup(AwaitText(s.stack.below), "{", DumpedMembers(s.stack.top.members), "\"", DumpText(x), m);
  }

  lemma EscapeKeyText(s: State, m: string)
    requires Shaped(s) && s.mode.InEscape? && AwaitingKey(s.stack) && PlainMarker(m)
    ensures AwaitText(WithKey(s.stack, s.mode.text + "\\" + m)) + Dump(Num("1")) == StateText(s) + ("\\" + m) + "\":1"
  {
    var x := s.mode.text;
    EscapedMarker(x, m);
    WithKeyText(s.stack, x + "\\" + m);
    KeyTail();
    assert "\\\\" == "\\" + "\\";
    KeyGroup2(AwaitText(s.stack.below), "{", DumpedMembers(s.stack.top.members), "\"", DumpText(x), "\\", m);
  }

  lemma AfterObjectText(s: State)
    requires Shaped(s) && s.mode.After? && s.stack.top.ObjFrame?
    ensures AwaitingKey(s.stack)
    ensures StateText(s) == AwaitText(s.stack.below) + ("{" + DumpMembers(s.stack.top.members))
    ensures DumpedMembers(s.stack.top.members) == DumpMembers(s.stack.top.members) + ","
  {
  }

  lemma AfterKeyText(s: State, m: string)
    requires Shaped(s) && s.mode.After? && s.stack.top.ObjFrame? && PlainMarker(m)
    ensures AwaitText(WithKey(s.stack, m)) + Dump(Num("1")) == StateText(s) + (",\"" + m) + "\":1"
  {
    AfterObjectText(s);
    DumpTextPlain(m);
    KeyTail();
    WithKeyText(s.stack, m);
    CommaQuote();
    AfterKeyGlue(AwaitText(WithKey(s.stack, m)) + Dump(Num("1")), StateText(s), ",\"", "\":1",
                 AwaitText(s.stack.below), "{", DumpMembers(s.stack.top.members), ",", "\"", m);
  }

  lemma AfterKeyGlue(w: string, st: string, cq: string, tail: string,
                     a: string, o: string, e: string, c: string, q: string, m: string)
    requires w == a + (o + (e + c) + (q + m + q) + ":") + "1" && st == a + (o + e)
    requires cq == c + q && tail == q + ":" + "1"
    ensures w == st + (cq + m) + tail
  {
    AfterKeyGroup(a, o, e, c, q, m);
    Assoc(c, q, m);
  }

  lemma KeyPlaceState(s: State)
    requires Shaped(s) && (s.mode.KeyOnly? || s.mode.KeyOrClose?)
    ensures AwaitingKey(s.stack)
    ensures StateText(s) == AwaitText(s.stack.below) + ("{" + DumpedMembers(s.stack.top.members))
  {
  }

  lemma KeyPlaceText(s: State, m: string)
    requires Shaped(s) && (s.mode.KeyOnly? || s.mode.KeyOrClose?) && PlainMarker(m)
    ensures AwaitText(WithKey(s.stack, m)) + Dump(Num("1")) == StateText(s) + ("\"" + m) + "\":1"
  {
    KeyPlaceState(s);
    DumpTextPlain(m);
    KeyTail();
    WithKeyText(s.stack, m);
    KeyPlaceGlue(AwaitText(WithKey(s.stack, m)) + Dump(Num("1")), StateText(s), "\":1",
                 AwaitText(s.stack.below), "{", DumpedMembers(s.stack.top.members), "\"", m);
  }

  lemma KeyPlaceGlue(w: string, st: string, tail: string, a: string, o: string, e: string, q: string, m: string)
    requires w == a + (o + e + (q + m + q) + ":") + "1" && st == a + (o + e) && tail == q + ":" + "1"
    ensures w == st + (q + m) + tail
  {
    KeyGroup0(a, o, e, q, m);
  }

  lemma KeyPointText(s: State, m: string)
    requires Shaped(s) && s.stack.Push? && Resting(s) && !s.mode.Failed?
    requires PlainMarker(m) && HealingPoint(s, m).value == Num("1")
    ensures var p := HealingPoint(s, m);
      AwaitText(p.stack) + Dump(p.value) == StateText(s) + (p.quote + m) + "\":1"
  {
    match s.mode
    case InString(_, _) => StringKeyText(s, m);
    case InEscape(_, _) => EscapeKeyText(s, m);
    case After => AfterKeyText(s, m);
    case KeyOnly => KeyPlaceText(s, m);
    case KeyOrClose => KeyPlaceText(s, m);
    case _ =>
  }

  lemma KeyGroup(a: string, o: string, d: string, q: string, x: string, m: string)
    ensures a + (o + d + (q + (x + m) + q) + ":") + "1" == a + (o + d) + q + x + m + (q + ":" + "1")
  {
  }

  lemma KeyGroup2(a: string, o: string, d: string, q: string, x: string, b: string, m: string)
    ensures a + (o + d + (q + (x + (b + b) + m) + q) + ":") + "1" == a + (o + d) + q + x + b + (b + m) + (q + ":" + "1")
  {
  }

  lemma KeyGroup0(a: string, o: string, d: string, q: string, m: string)
    ensures a + (o + d + (q + m + q) + ":") + "1" == a + (o + d) + (q + m) + (q + ":" + "1")
  {
  }

  lemma AfterKeyGroup(a: string, o: string, e: string, c: string, q: string, m: string)
    ensures a + (o + (e + c) + (q + m + q) + ":") + "1" == a + (o + e) + (c + (q + m)) + (q + ":" + "1")
  {
  }

  // The round trip

  /** Healing `t` succeeds, and its dump, cut at the first place of its marker, is `kept`. */
  ghost predicate CutsBackTo(t: string, m: string, kept: string) {
    var r := ParseOrHeal(t, m);
    && r.Healed? && r.marker == m && r.consumed == |t|
    && Find(Dump(r.json), r.dumpMarker, 0) == Some(|kept|)
    && CutAt(Dump(r.json), r.dumpMarker) == kept
  }

  lemma KeptPrefix(t: string)
    requires Truncated(t)
    ensures exists v :: t == Kept(t) + v
  {
    if OnScalar(t) {
      ScalarKept(t);
      UpToLastPrefix(t, OPENERS);
    } else {
      assert t == Kept(t) + [];
    }
  }

  /** A state that waits for a value, or stops on no scalar, inside a container. */
  predicate Settled(s: State) { Resting(s) && s.stack.Push? && Shaped(s) }

  lemma SettledTruncated(t: string)
    requires Settled(Run(START, t)) && !Run(START, t).mode.Failed?
    ensures Truncated(t)
  {
  }

  lemma UnfinishedOnly(t: string)
    requires Truncated(t) && !OnScalar(t) && !OnCode(t)
    ensures Settled(Run(START, t))
  {
    RunShaped(START, t);
  }

  lemma KeptMode(t: string)
    requires Truncated(t) && !OnCode(t)
    ensures Truncated(Kept(t)) && Settled(Run(START, Kept(t)))
  {
    if OnScalar(t) {
      ScalarKept(t);
      RunShaped(START, Kept(t));
      SettledTruncated(Kept(t));
    } else {
      UnfinishedOnly(t);
    }
  }

  lemma StartText(t: string)
    requires Viable(t) && CleanRun(START, t)
    ensures var s := Run(START, t); Shaped(s) && Fresh(s.stack) && StateText(s) == Squeeze(START, t)
  {
    RunText(START, t);
    assert [] + Squeeze(START, t) == Squeeze(START, t);
  }

  /** The text that healing keeps is a clean beginning of the text, and its state's own text. */
  lemma KeptText(t: string)
    requires Truncated(t) && CleanRun(START, t) && !OnCode(t)
    ensures CleanRun(START, Kept(t))
    ensures exists rest :: Squeeze(START, t) == Squeeze(START, Kept(t)) + rest
    ensures var s := Run(START, Kept(t));
      Settled(s) && Fresh(s.stack) && StateText(s) == Squeeze(START, Kept(t))
  {
    KeptMode(t);
    KeptPrefix(t);
    var v :| t == Kept(t) + v;
    CleanConcat(START, Kept(t), v);
    StartText(Kept(t));
  }

  lemma {:induction false} UpToLastPrefix(t: string, cs: set<char>)
    requires UpToLast(t, cs).Some?
    ensures exists v :: t == UpToLast(t, cs).value + v
  {
    var n := |t| - 1;
    if t[n] in cs {
      assert t == t + [];
    } else {
      UpToLastPrefix(t[..n], cs);
      var v :| t[..n] == UpToLast(t[..n], cs).value + v;
      assert t == UpToLast(t, cs).value + (v + [t[n]]);
    }
  }

  lemma PointIsFound(d: string, a: string, p: Point, m: string, post: string)
    requires d == a + (p.quote + m) + post && PlainMarker(m) && !Contains(a, m)
    requires p.quote in {[], "\"", ",\"", ":\"", "\\"} && (p.quote == [] ==> Unbordered(m))
    ensures Find(d, p.quote + m, 0) == Some(|a|) && CutAt(d, p.quote + m) == a
  {
    if p.quote == [] {
      assert [] + m == m;
      FindGlued(a, m, post);
    } else {
      FindQuoted(a, p.quote, m, post);
    }
    assert d[..|a|] == a;
  }

  /** Cutting the dump of the marker plugged in at its point gives the text of the state. */
  lemma PointCuts(s: State, m: string)
    requires Shaped(s) && Fresh(s.stack) && s.stack.Push? && Resting(s) && !s.mode.Failed?
    requires PlainMarker(m) && Unbordered(m) && !Contains(StateText(s), m)
    ensures var p := HealingPoint(s, m);
      var d := Dump(Plug(p.stack, p.value));
      Find(d, p.quote + m, 0) == Some(|StateText(s)|) && CutAt(d, p.quote + m) == StateText(s)
  {
    var p := HealingPoint(s, m);
    var post := PointText(s, m);
    PlugText(p.stack, p.value);
    var k := Closing(Elements(p.stack));
    Assoc(StateText(s) + (p.quote + m), post, k);
    PointIsFound(Dump(Plug(p.stack, p.value)), StateText(s), p, m, post + k);
  }

  /** Healing brings truncated text back, up to insignificant whitespace: for any text that stops
      inside a container but in no `\u` escape, written as a dump writes it, and any plain, unbordered
      marker absent from it, the healed value's dump cut at the marker is the text, or the text before
      the scalar it stops on. */
  lemma HealingRoundTrip(t: string, m: string)
    requires Truncated(t) && CleanRun(START, t) && !OnCode(t)
    requires PlainMarker(m) && Unbordered(m) && !Contains(Squeeze(START, t), m)
    ensures CutsBackTo(t, m, Squeeze(START, Kept(t)))
  {
    HealsTruncated(t, m);
    KeptText(t);
    var kept := Squeeze(START, Kept(t));
    var rest :| Squeeze(START, t) == kept + rest;
    if Contains(kept, m) { ContainsPrefix(kept, rest, m); }
    PointCuts(Run(START, Kept(t)), m);
  }

  lemma {:induction false} SqueezeShorter(s: State, t: string)
    ensures |Squeeze(s, t)| <= |t|
    ensures |Squeeze(s, t)| == |t| ==> Squeeze(s, t) == t
    decreases |t|
  {
    if t != [] {
      var n := Step(s, t[0]);
      SqueezeShorter(n, t[1..]);
      SqueezeOnce(s, t[0], t[1..], Squeeze(n, t[1..]));
    }
  }

  lemma SqueezeOnce(s: State, c: char, rest: string, q: string)
    requires q == Squeeze(Step(s, c), rest)
    ensures Squeeze(s, [c] + rest) == (if Skipped(s, c) then q else [c] + q)
  {
    assert ([c] + rest)[1..] == rest;
    if Skipped(s, c) { assert [] + q == q; }
  }

  predicate InsideOrDone(s: State) { s.stack.Push? || s.mode.Done? || s.mode.Failed? }

  lemma StepInside(s: State, c: char)
    requires InsideOrDone(s)
    ensures InsideOrDone(Step(s, c))
  {
  }

  lemma {:induction false} RunInside(s: State, t: string)
    requires InsideOrDone(s)
    ensures InsideOrDone(Run(s, t))
    decreases |t|
  {
    if t != [] {
      StepInside(s, t[0]);
      RunInside(Step(s, t[0]), t[1..]);
    }
  }

  lemma StartsInside(j: Json, t: string)
    requires IsContainer(j) && t != [] && t[0] == Dump(j)[0]
    ensures InsideOrDone(Run(START, t))
  {
    RunInside(Step(START, t[0]), t[1..]);
  }

  lemma FinishInside(s: State)
    requires Shaped(s) && s.stack.Push?
    ensures Finish(s).stack.Push?
  {
  }

  /** Nothing but whitespace follows a whole document. */
  lemma NothingFollows(s: State, t: string)
    requires s.mode.Done? && t != [] && !Run(s, t).mode.Failed?
    ensures |Squeeze(s, t)| < |t|
  {
    if Step(s, t[0]).mode.Failed? { RunFailed(Step(s, t[0]), t[1..]); }
    SqueezeShorter(Step(s, t[0]), t[1..]);
  }

  /** Every non-empty proper prefix of the dump of an object or array stops inside a container. */
  lemma DumpPrefix(j: Json, n: nat)
    requires IsContainer(j) && WellFormed(j) && 0 < n < |Dump(j)|
    ensures var t := Dump(j)[..n];
      Truncated(t) && CleanRun(START, t) && Squeeze(START, t) == t && Squeeze(START, Kept(t)) == Kept(t)
  {
    var d := Dump(j);
    var t, rest := d[..n], d[n..];
    assert d == t + rest;
    ReadDump(START, j);
    CleanConcat(START, t, rest);
    RunConcat(START, t, rest);
    SqueezeShorter(START, t);
    SqueezeShorter(Run(START, t), rest);
    assert Squeeze(START, t) == (t + rest)[..|Squeeze(START, t)|];
    assert Squeeze(Run(START, t), rest) == rest;
    if Run(START, t).mode.Failed? { RunFailed(Run(START, t), rest); }
    StartsInside(j, t);
    if Run(START, t).mode.Done? { NothingFollows(Run(START, t), rest); }
    RunShaped(START, t);
    FinishInside(Run(START, t));
    if !OnCode(t) { KeptText(t); }
    var u := Kept(t);
    KeptPrefix(t);
    var v :| t == u + v;
    CleanConcat(START, u, v);
    SqueezeShorter(START, u);
    SqueezeShorter(Run(START, u), v);
    assert Squeeze(START, u) == (u + v)[..|u|];
  }

  /** The round trip on every prefix of every document that does not stop inside a `\u` escape: cutting
      the healed value's dump at the marker gives exactly the prefix, cut back to its last `:`, `[` or `,`
      when it stops on a scalar. */
  lemma TruncatedDumpRoundTrip(j: Json, n: nat, m: string)
    requires IsContainer(j) && WellFormed(j) && 0 < n < |Dump(j)| && !OnCode(Dump(j)[..n])
    requires PlainMarker(m) && Unbordered(m) && !Contains(Dump(j)[..n], m)
    ensures CutsBackTo(Dump(j)[..n], m, Kept(Dump(j)[..n]))
  {
    DumpPrefix(j, n);
    HealingRoundTrip(Dump(j)[..n], m);
  }

  // The marker must be unbordered

  /** The array of one string `y`, cut just behind the string's text. */
  function OpenString(y: string): string { "[\"" + y }

  lemma DumpOneString(y: string)
    requires forall i :: 0 <= i < |y| ==> IsRaw(y[i])
    ensures Dump(Arr([Str(y)])) == OpenString(y) + "\"]"
  {
    DumpTextPlain(y);
    assert DumpItems([Str(y)]) == DumpedItems([]) + Dump(Str(y)) by { assert [Str(y)][..0] == []; }
    assert DumpItems([Str(y)]) == Dump(Str(y)) by { assert [] + Dump(Str(y)) == Dump(Str(y)); }
    OneStringGroup("[", "\"", y, "]");
    assert "[\"" == "[" + "\"" && "\"]" == "\"" + "]";
  }

  lemma OneStringGroup(o: string, q: string, y: string, c: string)
    ensures o + (q + y + q) + c == o + q + y + (q + c)
  {
  }

  lemma OpenStringIsCut(y: string)
    requires forall i :: 0 <= i < |y| ==> IsRaw(y[i])
    ensures var j := Arr([Str(y)]);
      WellFormed(j) && 2 + |y| < |Dump(j)| && Dump(j)[..2 + |y|] == OpenString(y)
    ensures Run(START, OpenString(y)) == State(InString(Val, y), Push(ArrFrame([]), Bottom))
  {
    DumpOneString(y);
    OpenStringRuns(y);
  }

  lemma OpenStringRuns(y: string)
    requires forall i :: 0 <= i < |y| ==> IsRaw(y[i])
    ensures Run(START, OpenString(y)) == State(InString(Val, y), Push(ArrFrame([]), Bottom))
  {
    RunConcat(START, "[\"", y);
    Run2(START, '[', '"');
    assert "[\"" == ['[', '"'];
    ReadMarker(Val, [], Push(ArrFrame([]), Bottom), y);
    assert [] + y == y;
  }

  lemma PlugOneString(v: Json)
    ensures Plug(Push(ArrFrame([]), Bottom), v) == Arr([v])
  {
    assert [] + [v] == [v];
  }

  lemma OpenStringHeals(y: string, m: string)
    requires PlainMarker(m) && forall i :: 0 <= i < |y| ==> IsRaw(y[i])
    ensures ParseOrHeal(OpenString(y), m) == Healed(Arr([Str(y + m)]), m, m, 2 + |y|)
    ensures Kept(OpenString(y)) == OpenString(y)
    ensures Dump(Arr([Str(y + m)])) == OpenString(y) + m + "\"]"
  {
    OpenStringIsCut(y);
    HealsTruncated(OpenString(y), m);
    assert [] + m == m;
    PlugOneString(Str(y + m));
    RunShaped(START, OpenString(y));
    assert Kept(OpenString(y)) == OpenString(y);
    assert HealingPoint(Run(START, OpenString(y)), m) == Point(Push(ArrFrame([]), Bottom), Str(y + m), []);
    DumpOneString(y + m);
    Assoc("[\"", y, m);
  }

  /** A marker is not in the text of an open string shorter than it. */
  lemma TooShort(y: string, m: string)
    requires PlainMarker(m) && 1 < |m| && |y| < |m|
    ensures !Contains(OpenString(y), m)
  {
    forall i: nat ensures !OccursAt(OpenString(y), m, i) {
      if OccursAt(OpenString(y), m, i) { OccursCovers(OpenString(y), m, i, 1); }
    }
  }

  /** A marker with a border is found too early when the text ends in the marker's beginning. */
  lemma BorderedMarker(m: string, b: nat)
    requires PlainMarker(m) && 0 < b < |m| && m[..b] == m[|m| - b..]
    ensures var y := m[..|m| - b];
      var j, n := Arr([Str(y)]), 2 + |y|;
      && WellFormed(j) && n < |Dump(j)| && !OnCode(Dump(j)[..n]) && !Contains(Dump(j)[..n], m)
      && !CutsBackTo(Dump(j)[..n], m, Kept(Dump(j)[..n]))
  {
    var y := m[..|m| - b];
    OpenStringIsCut(y);
    OpenStringHeals(y, m);
    TooShort(y, m);
    FoundEarly(m, b, y);
  }

  lemma FoundEarly(m: string, b: nat, y: string)
    requires 0 < b < |m| && m[..b] == m[|m| - b..] && y == m[..|m| - b]
    ensures OccursAt(OpenString(y) + m + "\"]", m, 2)
  {
    assert y + m == m + m[b..] by {
      assert m == y + m[|m| - b..] && m == m[..b] + m[b..];
      Assoc(y, m[..b], m[b..]);
    }
    OccursBehind("[\"", y + m, m, m[b..], "\"]");
    Assoc("[\"", y, m);
  }

  lemma OccursBehind(a: string, w: string, m: string, rest: string, b: string)
    requires w == m + rest
    ensures OccursAt(a + w + b, m, |a|)
  {
    assert (a + w + b)[|a|..|a| + |m|] == m;
  }

  /** Every prefix of every document that the marker is absent from, but those that stop inside a `\u` escape, is
      brought back. */
  ghost predicate RoundTrips(m: string) {
    forall j, n :: IsContainer(j) && WellFormed(j) && 0 < n < |Dump(j)| && !OnCode(Dump(j)[..n])
                   && !Contains(Dump(j)[..n], m)
      ==> CutsBackTo(Dump(j)[..n], m, Kept(Dump(j)[..n]))
  }

  /** Exactly the unbordered markers do so. */
  lemma UnborderedMarkersRoundTrip(m: string)
    requires PlainMarker(m)
    ensures RoundTrips(m) <==> Unbordered(m)
  {
    if Unbordered(m) {
      forall j, n | IsContainer(j) && WellFormed(j) && 0 < n < |Dump(j)| && !OnCode(Dump(j)[..n])
                    && !Contains(Dump(j)[..n], m)
        ensures CutsBackTo(Dump(j)[..n], m, Kept(Dump(j)[..n]))
      {
        TruncatedDumpRoundTrip(j, n, m);
      }
    } else {
      var b :| 0 < b < |m| && m[..b] == m[|m| - b..];
      BorderedMarker(m, b);
    }
  }
}
