/** Healing text with an error in it: what is healed, and exactly when healing throws. */
module JsonErrors {
  import opened Text
  import opened JsonText
  import opened JsonReader
  import opened JsonShape
  import opened JsonDumped
  import opened JsonLocator
  import opened JsonPartial
  import opened JsonProbes
  import opened JsonHealing
  import opened JsonRoundTrip

  // Where the error is

  lemma {:induction false} FirstBadRuns(s: State, t: string)
    requires !s.mode.Failed?
    ensures !Run(s, t[..FirstBad(s, t)]).mode.Failed?
    decreases |t|
  {
    if t != [] && !Step(s, t[0]).mode.Failed? {
      FirstBadRuns(Step(s, t[0]), t[1..]);
      var n := FirstBad(Step(s, t[0]), t[1..]);
      assert t[..1 + n] == [t[0]] + t[1..][..n];
      RunCons(s, t[0], t[1..][..n]);
    }
  }

  lemma FrontFinished(t: string)
    requires Viable(t) && Elements(Finish(Run(START, t)).stack) != []
    ensures Truncated(t)
  {
  }

  /** What the text in front of the first bad character leaves open is on the handler's stack. */
  lemma Located0(t: string)
    requires Locate(t).foundError && Locate(t).stack != []
    ensures Truncated(t[..FirstBad(START, t)])
    ensures Locate(t).stack == Elements(Finish(Run(START, t[..FirstBad(START, t)])).stack)
    ensures FirstBad(START, t) <= Locate(t).position <= |t|
  {
    FirstBadRuns(START, t);
    FrontFinished(t[..FirstBad(START, t)]);
  }

  /** The error is reported behind the first character that cannot go on: inside an unexpected token. */
  predicate InsideToken(t: string) { FirstBad(START, t) < Locate(t).position }

  /** The error, or the end of the text, is inside a token or inside a `\u` escape. */
  predicate CutOff(t: string) { InsideToken(t) || OnCode(t[..FirstBad(START, t)]) }

  lemma NotViable(t: string, n: nat)
    requires FirstBad(START, t) < n <= |t|
    ensures !Viable(t[..n])
  {
    if Viable(t[..n]) {
      FirstBadViable(START, t[..n]);
      FirstBadOfPrefix(START, t, n);
    }
  }

  lemma {:induction false} FirstBadOfPrefix(s: State, t: string, n: nat)
    requires n <= |t| && FirstBad(s, t[..n]) == n
    ensures FirstBad(s, t) >= n
    decreases n
  {
    if n > 0 {
      assert t[..n][0] == t[0] && t[..n][1..] == t[1..][..n - 1];
      FirstBadOfPrefix(Step(s, t[0]), t[1..], n - 1);
    }
  }

  // What the cascade does behind an error

  lemma HopelessStays(t: string, w: string)
    requires !Viable(t)
    ensures !Viable(t + w) && !CanParse(t + w)
  {
    RunConcat(START, t, w);
    RunFailed(Run(START, t), w);
  }

  /** The characters behind which the cascade looks for a place, for the innermost open element. */
  function CutSet(stack: seq<Element>): set<char>
    requires stack != []
  {
    if stack[|stack| - 1].kind == ARRAY then {'[', ','} else {':'}
  }

  lemma {:induction false} SpacesHaveNoOpener(t: string, cs: set<char>)
    requires LastNonSpace(t).None? && cs <= OPENERS
    ensures UpToLast(t, cs).None?
  {
    if t != [] { SpacesHaveNoOpener(t[..|t| - 1], cs); }
  }

  predicate NoneParses(t: string, k: string) {
    && !CanParse(t + k) && !CanParse(t + "1" + k) && !CanParse(t + ": 1" + k) && !CanParse(t + "\"" + k)
    && !CanParse(t + "\\\"" + k) && !CanParse(t + ", 1" + k) && !CanParse(t + "\"\": 1" + k)
    && !CanParse(t + ",\"\": 1" + k) && !CanParse(t + "\": 1" + k) && !CanParse(t + "\\\": 1" + k)
  }

  lemma NoProbe(t: string, k: string)
    requires !Viable(t)
    ensures NoneParses(t, k)
  {
    Regroup3(t, k);
    HopelessStays(t, k);
    HopelessStays(t, "1" + k);
    HopelessStays(t, ": 1" + k);
    HopelessStays(t, "\"" + k);
    HopelessStays(t, "\\\"" + k);
    HopelessStays(t, ", 1" + k);
    HopelessStays(t, "\"\": 1" + k);
    HopelessStays(t, ",\"\": 1" + k);
    HopelessStays(t, "\": 1" + k);
    HopelessStays(t, "\\\": 1" + k);
  }

  /** Nothing that a probe starts with goes on inside a `\u` escape and out of its string. */
  lemma NoProbeInCode(t: string, k: string)
    requires OnCode(t) && IsClosing(k)
    ensures NoneParses(t, k)
  {
    var s := Run(START, t);
    ProbeTexts(t, k);
    RejectsInString(s, k);
    ProbeOne(s, k);
    ProbeColonOne(s, k);
    ProbeQuote(s, k);
    ProbeEscapedQuote(s, k);
    ProbeNextItem(s, k);
    ProbeMember(s, k);
    ProbeNextMember(s, k);
    ProbeKeyQuote(s, k);
    ProbeKeyEscape(s, k);
  }

  /** No probe succeeds, so the text is cut back. */
  lemma CutsBack(t: string, stack: seq<Element>, m: string)
    requires (!Viable(t) || OnCode(t)) && stack != []
    ensures Choose(t, stack, m) == CutBack(t, CutSet(stack), m, Closing(stack))
  {
    ClosingIsClosing(stack);
    if OnCode(t) { NoProbeInCode(t, Closing(stack)); } else { NoProbe(t, Closing(stack)); }
    if LastNonSpace(t).None? { SpacesHaveNoOpener(t, CutSet(stack)); }
  }

  // What the cut-back text is worth

  lemma DoneTakesNothing(v: Json, k: string)
    requires IsClosing(k)
    ensures Accepts(State(Done(v), Bottom), k) <==> k == []
  {
    if k != [] { RejectsFailed(Step(State(Done(v), Bottom), k[0]), k[1..]); }
  }

  lemma WrongBracket(f: Frame, below: Stack, k: string)
    requires IsClosing(k) && (k == [] || k[0] != Bracket(f)[0])
    ensures !Accepts(State(After, Push(f, below)), k)
  {
    if k != [] { RejectsFailed(Step(State(After, Push(f, below)), k[0]), k[1..]); }
  }

  /** Brackets close exactly the containers they are the closing of. */
  lemma {:induction false} ClosesExactly(stack: Stack, v: Json, k: string)
    requires Awaiting(stack) && IsClosing(k)
    ensures Accepts(Complete(stack, v), k) <==> k == Closing(Elements(stack))
    decreases stack
  {
    if stack.Bottom? {
      DoneTakesNothing(v, k);
    } else {
      ClosesPushed(stack, stack.below, Complete(stack, v).stack.top, k);
    }
  }

  lemma HeadMatches(b: string, k: string, rest: string)
    requires |b| == 1
    ensures k == b + rest <==> k != [] && k[0] == b[0] && k[1..] == rest
    ensures k != [] && k[0] == b[0] ==> k == b + k[1..]
  {
  }

  lemma {:induction false} ClosesPushed(stack: Stack, below: Stack, f: Frame, k: string)
    requires Awaiting(stack) && stack.Push? && below == stack.below
    requires f.ArrFrame? == stack.top.ArrFrame? && IsClosing(k)
    ensures Accepts(State(After, Push(f, below)), k) <==> k == Closing(Elements(stack))
    decreases stack, 0
  {
    ClosingPush(stack.top, below);
    HeadMatches(Bracket(f), k, Closing(Elements(below)));
    if k != [] && k[0] == Bracket(f)[0] {
      CloseTop(f, below, k[1..]);
      ClosesExactly(below, FrameValue(f), k[1..]);
    } else {
      WrongBracket(f, below, k);
    }
  }

  /** A marker that does not go on behind a string that its quote happens to end. */
  predicate Firm(m: string) { RawText(m) && m != [] && m[0] !in {' ', ',', ':', ']', '}'} }

  /** The text stops where a value may stand, with the same containers open as on the stack. */
  predicate Resumes(b: string, stack: seq<Element>) {
    var s := Run(START, b);
    (s.mode.Value? || s.mode.ValueOrClose?) && Closing(Elements(s.stack)) == Closing(stack)
  }

  lemma {:induction false} UpToLastEnds(t: string, cs: set<char>)
    requires UpToLast(t, cs).Some?
    ensures var b := UpToLast(t, cs).value; b != [] && b[|b| - 1] in cs && b <= t
  {
    if t[|t| - 1] !in cs {
      UpToLastEnds(t[..|t| - 1], cs);
      assert t[..|t| - 1] <= t;
    }
  }

  lemma OpenerMode(s: State, c: char)
    requires Shaped(s) && LastFits(s, Some(c)) && c in OPENERS
    ensures s.mode.Value? || s.mode.ValueOrClose? || s.mode.KeyOnly? || s.mode.InString? || s.mode.Failed?
  {
    if s.mode.InNumber? { NumberChar(s.mode.digits); }
    if s.mode.InLiteral? { LiteralChar(s.mode.lit, s.mode.matched - 1); }
  }

  /** Behind an opener either a value is expected, or a key, or a string goes on. */
  lemma OpenerModes(b: string)
    requires b != [] && b[|b| - 1] in OPENERS
    ensures var s := Run(START, b);
      Shaped(s) && (s.mode.Value? || s.mode.ValueOrClose? || s.mode.KeyOnly? || s.mode.InString? || s.mode.Failed?)
  {
    RunFits(b);
    assert LastNonSpace(b) == Some(b[|b| - 1]);
    OpenerMode(Run(START, b), b[|b| - 1]);
  }

  /** A quote that ends a string leaves the marker with nowhere to go. */
  lemma FirmFails(s: State, m: string, rest: string)
    requires Shaped(s) && s.mode.InString? && Firm(m)
    ensures !Accepts(s, ("\"" + m) + rest)
  {
    var q := Step(s, '"');
    var n := Step(q, m[0]);
    StepShaped(s, '"');
    assert n.mode.Failed?;
    assert ("\"" + m) + rest == ['"', m[0]] + (m[1..] + rest);
    Ends2(s, '"', m[0], m[1..] + rest);
    RejectsFailed(n, m[1..] + rest);
  }

  lemma KeyPlaceFails(b: string, m: string, k: string)
    requires Run(START, b).mode.KeyOnly? && RawText(m) && IsClosing(k)
    ensures !CanParse(b + ("\"" + m) + ("\"" + k))
  {
    var s := Run(START, b);
    QuoteLeads(s);
    Insert1(b, "\"", m, "\"" + k, Key, [], s.stack);
    assert [] + m == m;
    var x := State(InString(Key, m), s.stack);
    assert "\"" + k == ['"'] + k;
    EndsCons(x, '"', k);
    if Step(x, '"').mode.Colon? { ClosesNothing(Step(x, '"'), k); } else { RejectsFailed(Step(x, '"'), k); }
  }

  /** The text built behind a cut parses exactly when the cut text resumes in the containers that are closed. */
  lemma CutParses(b: string, stack: seq<Element>, m: string)
    requires b != [] && b[|b| - 1] in OPENERS && Firm(m)
    ensures CanParse(b + ("\"" + m) + ("\"" + Closing(stack))) <==> Resumes(b, stack)
  {
    var s, k := Run(START, b), Closing(stack);
    ClosingIsClosing(stack);
    OpenerModes(b);
    if s.mode.Value? || s.mode.ValueOrClose? {
      QuoteLeads(s);
      ValueText(b, "\"", m, k, [], s.stack);
      assert [] + m == m;
      ClosesExactly(s.stack, Str(m), k);
    } else if s.mode.KeyOnly? {
      KeyPlaceFails(b, m, k);
    } else {
      ParseEnds(b, ("\"" + m) + ("\"" + k));
      Assoc(b, "\"" + m, "\"" + k);
      if s.mode.InString? {
        FirmFails(s, m, "\"" + k);
      } else {
        RejectsFailed(s, ("\"" + m) + ("\"" + k));
      }
    }
  }

  // What healing comes down to

  /** The text that healing builds on: up to the error, without a scalar it stops on; where the error is
      inside a token or a `\u` escape, up to the last opener in front of the reported position. */
  function Basis(t: string): Option<string>
    requires Locate(t).stack != []
  {
    if CutOff(t) then UpToLast(t[..Locate(t).position], CutSet(Locate(t).stack))
    else Some(Kept(t[..FirstBad(START, t)]))
  }

  /** Healing has a place for the marker. */
  predicate Heals(t: string)
    requires Locate(t).stack != []
  {
    CutOff(t) ==> Basis(t).Some? && Resumes(Basis(t).value, Locate(t).stack)
  }

  /** The marker put at the point of the text that healing builds on, and all containers closed. */
  function HealedOn(b: string, m: string, consumed: nat): Outcome
    requires Viable(b)
  {
    RunShaped(START, b);
    var p := HealingPoint(Run(START, b), m);
    Healed(Plug(p.stack, p.value), m, p.quote + m, consumed)
  }

  lemma CutSetOpens(stack: seq<Element>)
    requires stack != []
    ensures CutSet(stack) <= OPENERS
  {
  }

  lemma NoneGoesOn(t: string)
    requires Locate(t).foundError && CutOff(t)
    ensures !Viable(t[..Locate(t).position]) || OnCode(t[..Locate(t).position])
    ensures !CanParse(t[..Locate(t).position])
  {
    var u := t[..Locate(t).position];
    if InsideToken(t) {
      NotViable(t, Locate(t).position);
      HopelessStays(u, []);
      assert u + [] == u;
    }
  }

  /** Text with an error inside a token or a `\u` escape, cut back: healed exactly when there is a place that
      resumes. */
  lemma HealsCutOff(t: string, m: string)
    requires Firm(m) && Locate(t).foundError && Locate(t).stack != [] && CutOff(t)
    ensures ParseOrHeal(t, m) == Heal(t[..Locate(t).position], Locate(t).stack, m)
    ensures Heals(t) ==>
            Truncated(Basis(t).value) && ParseOrHeal(t, m) == HealedOn(Basis(t).value, m, Locate(t).position)
    ensures !Heals(t) ==> ParseOrHeal(t, m) == Throws
  {
    NoneGoesOn(t);
    CutHeals(t[..Locate(t).position], Locate(t).stack, m);
  }

  /** Healing text that no probe helps with. */
  lemma CutHeals(u: string, stack: seq<Element>, m: string)
    requires Firm(m) && stack != [] && (!Viable(u) || OnCode(u))
    ensures var b := UpToLast(u, CutSet(stack));
      if b.Some? && Resumes(b.value, stack)
      then Truncated(b.value) && Heal(u, stack, m) == HealedOn(b.value, m, |u|)
      else Heal(u, stack, m) == Throws
  {
    CutsBack(u, stack, m);
    var b := UpToLast(u, CutSet(stack));
    if b.Some? {
      UpToLastEnds(u, CutSet(stack));
      CutSetOpens(stack);
      PlaceHeals(u, stack, m, b.value);
    } else {
      HealsNothing(u, stack, m, Lost);
    }
  }

  lemma PlaceHeals(u: string, stack: seq<Element>, m: string, b: string)
    requires Firm(m) && stack != [] && b != [] && b[|b| - 1] in OPENERS
    requires Choose(u, stack, m) == Chosen(b + ("\"" + m) + ("\"" + Closing(stack)), "\"" + m, true)
    ensures if Resumes(b, stack) then Truncated(b) && Heal(u, stack, m) == HealedOn(b, m, |u|)
            else Heal(u, stack, m) == Throws
  {
    CutParses(b, stack, m);
    if Resumes(b, stack) {
      CutResumes(u, stack, m, b);
    } else {
      HealsNothing(u, stack, m, Choose(u, stack, m));
    }
  }

  /** Behind an opener some container is open. */
  lemma ResumesInside(b: string, stack: seq<Element>)
    requires Resumes(b, stack) && b != [] && b[|b| - 1] in OPENERS
    ensures Truncated(b)
  {
    RunFits(b);
    assert LastNonSpace(b) == Some(b[|b| - 1]);
  }

  lemma CutResumes(u: string, stack: seq<Element>, m: string, b: string)
    requires RawText(m) && stack != [] && Resumes(b, stack) && b != [] && b[|b| - 1] in OPENERS
    requires Choose(u, stack, m) == Chosen(b + ("\"" + m) + ("\"" + Closing(stack)), "\"" + m, true)
    ensures Truncated(b) && Heal(u, stack, m) == HealedOn(b, m, |u|)
  {
    ResumedParses(b, stack, m);
    ResumesInside(b, stack);
    var j := Plug(Run(START, b).stack, Str(m));
    HealsChoice(u, stack, m, Chosen(b + ("\"" + m) + ("\"" + Closing(stack)), "\"" + m, true), j);
  }

  lemma HealsNothing(u: string, stack: seq<Element>, m: string, c: Choice)
    requires stack != [] && Choose(u, stack, m) == c && (c.Chosen? ==> Parse(c.text).None?)
    ensures Heal(u, stack, m) == Throws
  {
  }

  /** What the cut-back text parses to is the marker plugged in where a value is expected. */
  lemma ResumedParses(b: string, stack: seq<Element>, m: string)
    requires RawText(m) && Resumes(b, stack)
    ensures Shaped(Run(START, b)) && HealingPoint(Run(START, b), m) == Point(Run(START, b).stack, Str(m), "\"")
    ensures Parse(b + ("\"" + m) + ("\"" + Closing(stack))) == Some(Plug(Run(START, b).stack, Str(m)))
  {
    var s := Run(START, b);
    RunShaped(START, b);
    QuoteLeads(s);
    ValueText(b, "\"", m, Closing(stack), [], s.stack);
    assert [] + m == m;
    CloseAll(s.stack, Str(m));
  }

  /** Other text with an error at a character, or at its end, heals as the text in front of the error. */
  lemma HealsInFront(t: string, m: string)
    requires RawText(m) && m != [] && Locate(t).foundError && Locate(t).stack != [] && !CutOff(t)
    ensures Truncated(Basis(t).value) && ParseOrHeal(t, m) == HealedOn(Basis(t).value, m, Locate(t).position)
  {
    Located0(t);
    var u := t[..FirstBad(START, t)];
    LocateTruncated(u);
    HealsTruncated(u, m);
    assert u[..|u|] == u;
    SameOutcome(t, u, m);
  }

  /** What is kept and what is open settle what healing does. */
  lemma SameOutcome(t: string, u: string, m: string)
    requires Locate(t).foundError && Locate(u) == Locate(t) && t[..Locate(t).position] == u[..Locate(u).position]
    ensures ParseOrHeal(t, m) == ParseOrHeal(u, m)
  {
  }

  /**
   * What healing does with any text that stops or errs inside a container: it throws exactly where that is
   * inside an unexpected token or a `\u` escape and cutting back in front of the reported position finds no
   * place for a value in the same open containers; otherwise the marker goes where the text that is
   * kept calls for it.
   */
  lemma HealsExactly(t: string, m: string)
    requires Firm(m) && Locate(t).foundError && Locate(t).stack != []
    ensures ParseOrHeal(t, m).Healed? <==> Heals(t)
    ensures ParseOrHeal(t, m).Throws? <==> !Heals(t)
    ensures Heals(t) ==>
            Truncated(Basis(t).value) && ParseOrHeal(t, m) == HealedOn(Basis(t).value, m, Locate(t).position)
  {
    if CutOff(t) {
      HealsCutOff(t, m);
    } else {
      HealsInFront(t, m);
    }
  }

  /** With no container open, text is either parsed up to its error or refused: nothing is thrown. */
  lemma NothingOpen(t: string, m: string)
    requires !Locate(t).foundError || Locate(t).stack == []
    ensures ParseOrHeal(t, m).Parsed? || ParseOrHeal(t, m).NotJson?
  {
    if !Locate(t).foundError { assert t[..|t|] == t; }
  }

  // What the basis is

  lemma BasisIsPrefix(t: string)
    requires Locate(t).stack != [] && Basis(t).Some?
    ensures Basis(t).value <= t
  {
    var u := t[..FirstBad(START, t)];
    if CutOff(t) {
      UpToLastEnds(t[..Locate(t).position], CutSet(Locate(t).stack));
    } else if UpToLast(u, OPENERS).Some? {
      UpToLastEnds(u, OPENERS);
    }
  }

  /** Healing builds on text that stops on no scalar and in no escape. */
  lemma BasisSettled(t: string)
    requires Locate(t).foundError && Locate(t).stack != [] && Heals(t)
    ensures !OnScalar(Basis(t).value) && !OnCode(Basis(t).value)
  {
    if !CutOff(t) {
      Located0(t);
      var u := t[..FirstBad(START, t)];
      if OnScalar(u) { ScalarKept(u); }
    }
  }

  const BAD_TOKEN := "[1\"a,\""   // an array with a string where a comma should be

  lemma BadTokenFails(v: string)
    ensures Run(START, "[1\"" + v).mode.Failed?
  {
    var s2 := State(InNumber("1"), Push(ArrFrame([]), Bottom));
    Run2(START, '[', '1');
    assert Step(s2, '"').mode.Failed? by { StepFinish(s2, '"'); }
    RunSnoc(START, ['[', '1'], '"');
    assert ['[', '1'] + ['"'] == "[1\"";
    RunConcat(START, "[1\"", v);
    RunFailed(Run(START, "[1\""), v);
  }

  lemma BadTokenEnd()
    ensures TokenEnd(START, BAD_TOKEN, 2) == 5
  {
    var t := BAD_TOKEN;
    var q1, q2 := State(InString(Val, []), Bottom), State(InString(Val, "a"), Bottom);
    var q3 := State(InString(Val, "a,"), Bottom);
    assert [] + ['a'] == "a" && "a" + [','] == "a,";
    assert Step(START, t[2]) == q1 && Step(q1, t[3]) == q2 && Step(q2, t[4]) == q3;
    assert Step(q3, t[5]).mode.Done?;
    assert TokenEnd(q3, t, 5) == 5;
    assert TokenEnd(q2, t, 4) == 5;
    assert TokenEnd(q1, t, 3) == 5;
  }

  lemma BadTokenLocated()
    ensures Locate(BAD_TOKEN) == Located(true, 5, [Element(ARRAY, [])])
  {
    var t := BAD_TOKEN;
    var s1, s2 := State(ValueOrClose, Push(ArrFrame([]), Bottom)), State(InNumber("1"), Push(ArrFrame([]), Bottom));
    assert Step(START, '[') == s1 && Step(s1, '1') == s2;
    assert Step(s2, '"').mode.Failed? by { StepFinish(s2, '"'); }
    assert t[1..] == ['1', '"', 'a', ',', '"'] && t[1..][1..] == ['"', 'a', ',', '"'];
    assert FirstBad(START, t) == 2;
    assert t[..2] == ['[', '1'];
    Run2(START, '[', '1');
    BadTokenEnd();
    assert Elements(Finish(s2).stack) == [] + [Element(ARRAY, [])];
  }

  lemma BadTokenNeverParses(w: string)
    ensures !CanParse("[1\"a," + w)
  {
    BadTokenFails("a," + w);
    Assoc("[1\"", "a,", w);
    assert "[1\"" + "a," == "[1\"a,";
  }

  /** No probe helps, and the cut-back finds the comma inside the unexpected string. */
  lemma BadTokenChoice(t: string, k: string, m: string)
    requires t != [] && t[|t| - 1] == ',' && forall w :: !CanParse(t + w)
    ensures ChooseInArray(t, ',', k, m) == Chosen(t + ("\"" + m) + ("\"" + k), "\"" + m, true)
    ensures !CanParse(t + ("\"" + m) + ("\"" + k))
  {
    Regroup3(t, k);
    assert !CanParse(t + ("1" + k)) && !CanParse(t + ("\"" + k)) && !CanParse(t + (", 1" + k));
    Assoc(t, "\"" + m, "\"" + k);
    assert !CanParse(t + (("\"" + m) + ("\"" + k)));
  }

  /** At an unexpected token the text is cut inside the token, and healing can throw. */
  lemma UnexpectedTokenThrows()
    ensures ParseOrHeal(BAD_TOKEN, "7") == Throws
  {
    BadTokenLocated();
    var str := "[1\"a,";
    assert BAD_TOKEN[..5] == str;
    forall w ensures !CanParse(str + w) { BadTokenNeverParses(w); }
    assert str + [] == str;
    BadTokenChoice(str, Closing([Element(ARRAY, [])]), "7");
  }

  // Text cut inside an escape

  const OPEN_STRING: string := ['[', '"', 'a', ',']
  const CUT_ESCAPE := OPEN_STRING + ['\\', 'u', '0']   // an array whose string is cut inside a `\u` escape

  lemma Run4(s: State, a: char, b: char, c: char, d: char)
    ensures Run(s, [a, b, c, d]) == Step(Step(Step(Step(s, a), b), c), d)
  {
    Run2(s, a, b);
    Run2(Step(Step(s, a), b), c, d);
    RunConcat(s, [a, b], [c, d]);
    assert [a, b] + [c, d] == [a, b, c, d];
  }

  lemma OpenStringStops()
    ensures Run(START, OPEN_STRING) == State(InString(Val, ['a', ',']), Push(ArrFrame([]), Bottom))
  {
    Run4(START, '[', '"', 'a', ',');
    assert [] + ['a'] == ['a'] && ['a'] + [','] == ['a', ','];
  }

  lemma EscapeStops(s: State)
    requires s.mode.InString?
    ensures Run(s, ['\\', 'u', '0']) == State(InUnicode(s.mode.role, s.mode.text, Hex(None, [0])), s.stack)
  {
    CodeStarts(s);
    RunSnoc(s, ['\\', 'u'], '0');
    assert ['\\', 'u'] + ['0'] == ['\\', 'u', '0'];
    CodeDigit(Run(s, ['\\', 'u']));
  }

  lemma CodeStarts(s: State)
    requires s.mode.InString?
    ensures Run(s, ['\\', 'u']) == State(InUnicode(s.mode.role, s.mode.text, Hex(None, [])), s.stack)
  {
    Run2(s, '\\', 'u');
    assert Step(s, '\\') == State(InEscape(s.mode.role, s.mode.text), s.stack);
  }

  lemma CodeDigit(s: State)
    requires s.mode.InUnicode? && s.mode.code == Hex(None, [])
    ensures Step(s, '0') == State(InUnicode(s.mode.role, s.mode.text, Hex(None, [0])), s.stack)
  {
    assert HexDigit('0') == 0 && [] + [HexDigit('0')] == [0];
  }

  lemma CutEscapeStops()
    ensures Run(START, CUT_ESCAPE) == State(InUnicode(Val, ['a', ','], Hex(None, [0])), Push(ArrFrame([]), Bottom))
  {
    OpenStringStops();
    EscapeStops(Run(START, OPEN_STRING));
    RunConcat(START, OPEN_STRING, ['\\', 'u', '0']);
  }

  /** A string cut inside a `\u` escape is cut back to a comma of its own, and healing throws, whatever the marker. */
  lemma CutEscapeThrows(m: string)
    requires Firm(m)
    ensures ParseOrHeal(CUT_ESCAPE, m) == Throws
  {
    var t := CUT_ESCAPE;
    CutEscapeStops();
    LocateTruncated(t);
    FirstBadViable(START, t);
    WholeText(t);
    CutEscapeCut();
    HealsCutOff(t, m);
  }

  lemma CutEscapeCut()
    requires Locate(CUT_ESCAPE).position == |CUT_ESCAPE| && CutOff(CUT_ESCAPE)
    requires Locate(CUT_ESCAPE).stack == Elements(Push(ArrFrame([]), Bottom))
    ensures Locate(CUT_ESCAPE).stack != [] && !Heals(CUT_ESCAPE)
  {
    OneArray();
    CutSetOf(Locate(CUT_ESCAPE).stack);
    WholeText(CUT_ESCAPE);
    CutEscapeBack();
    OpenStringStops();
  }

  lemma OneArray()
    ensures Elements(Push(ArrFrame([]), Bottom)) == [] + [Element(ARRAY, [])]
  {
    assert Elements(Bottom) == [];
  }

  lemma CutSetOf(stack: seq<Element>)
    requires stack == [] + [Element(ARRAY, [])]
    ensures CutSet(stack) == {'[', ','}
  {
  }

  lemma CutEscapeBack()
    ensures UpToLast(CUT_ESCAPE, {'[', ','}) == Some(OPEN_STRING)
  {
    assert CUT_ESCAPE[..4] == OPEN_STRING;
    CutBackTo(CUT_ESCAPE, 4, {'[', ','});
  }

  lemma WholeText(t: string)
    ensures t[..|t|] == t
  {
  }

  lemma {:induction false} CutBackTo(t: string, n: nat, cs: set<char>)
    requires 0 < n <= |t| && t[n - 1] in cs && forall i :: n <= i < |t| ==> t[i] !in cs
    ensures UpToLast(t, cs) == Some(t[..n])
    decreases |t|
  {
    if n < |t| {
      CutBackTo(t[..|t| - 1], n, cs);
      assert t[..|t| - 1][..n] == t[..n];
    } else {
      assert t[..n] == t;
    }
  }

  /** What healing builds on where a text is cut back to a place for a value: the dump is cut there. */
  lemma CutBackIsShort(b: string, t: string, m: string)
    requires Viable(b) && CleanRun(START, b) && Resumes(b, Locate(t).stack) && Truncated(b) && |b| < |t|
    requires PlainMarker(m) && !Contains(Squeeze(START, b), m) && ParseOrHeal(t, m) == HealedOn(b, m, |t|)
    ensures var r := ParseOrHeal(t, m); CutAt(Dump(r.json), r.dumpMarker) == Squeeze(START, b)
    ensures |Squeeze(START, b)| < |t|
  {
    var s := Run(START, b);
    StartText(b);
    SqueezeShorter(START, b);
    var p := HealingPoint(s, m);
    var post := PointText(s, m);
    PlugText(p.stack, p.value);
    var k := Closing(Elements(p.stack));
    Assoc(StateText(s) + (p.quote + m), post, k);
    PointIsFound(Dump(Plug(p.stack, p.value)), StateText(s), p, m, post + k);
  }

  lemma LocatedInCode(t: string)
    requires Truncated(t) && OnCode(t)
    ensures Locate(t).foundError && Locate(t).stack != [] && CutOff(t) && Locate(t).position == |t| && Kept(t) == t
  {
    LocateTruncated(t);
    FirstBadViable(START, t);
    WholeText(t);
  }

  lemma BasisIsShort(t: string, b: string)
    requires OnCode(t) && b <= t && Resumes(b, Locate(t).stack)
    ensures |b| < |t|
  {
    WholePrefix(b, t);
  }

  lemma WholePrefix(b: string, t: string)
    requires b <= t
    ensures |b| < |t| || b == t
  {
    if |b| == |t| { assert b == t[..|b|] == t; }
  }

  lemma CleanFront(b: string, t: string, m: string)
    requires b <= t && Viable(t) && CleanRun(START, t) && Squeeze(START, t) == t && !Contains(t, m)
    ensures Viable(b) && CleanRun(START, b) && !Contains(Squeeze(START, b), m)
  {
    var v := t[|b|..];
    assert t == b + v;
    CleanConcat(START, b, v);
    ViablePrefix(b, v);
    FreePrefix(Squeeze(START, b), Squeeze(Run(START, b), v), m);
  }

  /** Clean text that stops inside a `\u` escape is not brought back: what healing gives, if anything, is shorter. */
  lemma EscapeIsLost(t: string, m: string)
    requires Truncated(t) && CleanRun(START, t) && Squeeze(START, t) == t && OnCode(t)
    requires PlainMarker(m) && Firm(m) && !Contains(t, m)
    ensures !CutsBackTo(t, m, Kept(t))
  {
    LocatedInCode(t);
    HealsCutOff(t, m);
    if Heals(t) {
      var b := Basis(t).value;
      BasisIsPrefix(t);
      CleanFront(b, t, m);
      BasisIsShort(t, b);
      CutBackIsShort(b, t, m);
    }
  }

  /** A prefix of a document is brought back exactly when it does not stop inside a `\u` escape. */
  lemma BroughtBackExactly(j: Json, n: nat, m: string)
    requires IsContainer(j) && WellFormed(j) && 0 < n < |Dump(j)|
    requires PlainMarker(m) && Firm(m) && Unbordered(m) && !Contains(Dump(j)[..n], m)
    ensures CutsBackTo(Dump(j)[..n], m, Kept(Dump(j)[..n])) <==> !OnCode(Dump(j)[..n])
  {
    DumpPrefix(j, n);
    if OnCode(Dump(j)[..n]) { EscapeIsLost(Dump(j)[..n], m); } else { TruncatedDumpRoundTrip(j, n, m); }
  }
}
