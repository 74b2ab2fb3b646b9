/** What each healing probe reveals about the reader's state, and why the text built after a
    successful probe is always valid JSON. */
module JsonProbes {
  import opened Text
  import opened JsonText
  import opened JsonReader
  import opened JsonShape
  import opened JsonPartial

  /** The document completed by reading `t` from `s`, if it is one. */
  function Ends(s: State, t: string): Option<Json> {
    var n := Finish(Run(s, t));
    if n.mode.Done? then Some(n.mode.value) else None
  }

  predicate Accepts(s: State, t: string) { Ends(s, t).Some? }

  /** Only closing brackets. */
  predicate IsClosing(k: string) { forall i :: 0 <= i < |k| ==> k[i] == '}' || k[i] == ']' }

  lemma ParseEnds(a: string, b: string)
    ensures Parse(a + b) == Ends(Run(START, a), b)
  {
    RunConcat(START, a, b);
  }

  lemma EndsConcat(s: State, a: string, b: string)
    ensures Ends(s, a + b) == Ends(Run(s, a), b)
  {
    RunConcat(s, a, b);
  }

  lemma EndsCons(s: State, c: char, t: string)
    ensures Ends(s, [c] + t) == Ends(Step(s, c), t)
  {
    RunCons(s, c, t);
  }

  lemma Run2(s: State, a: char, b: char)
    ensures Run(s, [a, b]) == Step(Step(s, a), b)
  {
    RunSnoc(s, [a], b);
    RunSnoc(s, [], a);
    assert [a, b] == [a] + [b] && [a] == [] + [a];
  }

  lemma Ends2(s: State, a: char, b: char, t: string)
    ensures Ends(s, [a, b] + t) == Ends(Step(Step(s, a), b), t)
  {
    Run2(s, a, b);
    EndsConcat(s, [a, b], t);
  }

  lemma Ends3(s: State, a: char, b: char, c: char, t: string)
    ensures Ends(s, [a, b, c] + t) == Ends(Step(Step(Step(s, a), b), c), t)
  {
    assert [a, b, c] + t == [a, b] + ([c] + t);
    Ends2(s, a, b, [c] + t);
    EndsCons(Step(Step(s, a), b), c, t);
  }

  lemma RejectsFailed(s: State, t: string)
    requires s.mode.Failed?
    ensures !Accepts(s, t)
  {
    RunFailed(s, t);
  }

  /** Inside a string nothing but a quote gets out. */
  lemma {:induction false} RejectsInString(s: State, t: string)
    requires (s.mode.InString? || s.mode.InUnicode?) && forall i :: 0 <= i < |t| ==> t[i] != '"' && t[i] != '\\'
    ensures !Accepts(s, t)
    decreases |t|
  {
    if t != [] {
      var n := Step(s, t[0]);
      if n.mode.Failed? {
        RunFailed(n, t[1..]);
      } else {
        RejectsInString(n, t[1..]);
      }
    }
  }

  // Acceptance does not depend on the values read

  predicate SameFrame(f: Frame, g: Frame) {
    if f.ArrFrame? then g.ArrFrame? else g.ObjFrame? && f.pending.Some? == g.pending.Some?
  }

  predicate SameStack(s: Stack, t: Stack) {
    if s.Bottom? then t.Bottom? else t.Push? && SameFrame(s.top, t.top) && SameStack(s.below, t.below)
  }

  predicate SameMode(m: Mode, n: Mode) {
    match m
    case InString(r, _) => n.InString? && n.role == r
    case InEscape(r, _) => n.InEscape? && n.role == r
    case InUnicode(r, _, code) => n.InUnicode? && n.role == r && n.code == code
    case Done(_) => n.Done?
    case _ => m == n
  }

  predicate Similar(s: State, t: State) { SameMode(s.mode, t.mode) && SameStack(s.stack, t.stack) }

  lemma SimilarComplete(s: Stack, t: Stack, v: Json, w: Json)
    requires SameStack(s, t)
    ensures Similar(Complete(s, v), Complete(t, w))
  {
  }

  lemma SimilarAfter(s: Stack, t: Stack, c: char)
    requires SameStack(s, t)
    ensures Similar(AfterValue(s, c), AfterValue(t, c))
  {
    if s.Push? {
      if s.top.ArrFrame? {
        SimilarComplete(s.below, t.below, Arr(s.top.items), Arr(t.top.items));
      } else {
        SimilarComplete(s.below, t.below, Obj(s.top.members), Obj(t.top.members));
      }
    }
  }

  lemma SimilarFinish(s: State, t: State)
    requires Similar(s, t)
    ensures Similar(Finish(s), Finish(t))
  {
    if s.mode.InNumber? { SimilarComplete(s.stack, t.stack, Num(s.mode.digits), Num(t.mode.digits)); }
  }

  lemma SimilarAdvance(s: State, t: State, c: char)
    requires Similar(s, t)
    ensures Similar(Advance(s, c), Advance(t, c))
  {
    match s.mode
    case InString(role, text) =>
      if role == Val { SimilarComplete(s.stack, t.stack, Str(text), Str(t.mode.text)); }
    case InLiteral(lit, _) => SimilarComplete(s.stack, t.stack, LiteralValue(lit), LiteralValue(lit));
    case ValueOrClose => SimilarAfter(s.stack, t.stack, c);
    case KeyOrClose => SimilarAfter(s.stack, t.stack, c);
    case After => SimilarAfter(s.stack, t.stack, c);
    case _ =>
  }

  lemma SimilarStep(s: State, t: State, c: char)
    requires Similar(s, t)
    ensures Similar(Step(s, c), Step(t, c))
  {
    SimilarFinish(s, t);
    SimilarAdvance(Finish(s), Finish(t), c);
  }

  lemma {:induction false} SimilarEnds(s: State, t: State, k: string)
    requires Similar(s, t)
    ensures Accepts(s, k) == Accepts(t, k)
    decreases |k|
  {
    SimilarFinish(s, t);
    if k != [] {
      SimilarStep(s, t, k[0]);
      SimilarEnds(Step(s, k[0]), Step(t, k[0]), k[1..]);
    }
  }

  lemma CompleteEnds(stack: Stack, v: Json, w: Json, k: string)
    ensures Accepts(Complete(stack, v), k) == Accepts(Complete(stack, w), k)
  {
    SameStackRefl(stack);
    SimilarComplete(stack, stack, v, w);
    SimilarEnds(Complete(stack, v), Complete(stack, w), k);
  }

  lemma {:induction false} SameStackRefl(stack: Stack)
    ensures SameStack(stack, stack)
  {
    if stack.Push? { SameStackRefl(stack.below); }
  }

  /** A number ends where the closing starts. */
  lemma NumberThenClose(stack: Stack, k: string)
    requires IsClosing(k)
    ensures Ends(State(InNumber("1"), stack), k) == Ends(Complete(stack, Num("1")), k)
  {
    if k != [] { StepFinish(State(InNumber("1"), stack), k[0]); }
  }

  // What each probe accepts

  /** The object at the top with a key put before its next value. */
  function WithKey(stack: Stack, k: string): Stack
    requires stack.Push? && stack.top.ObjFrame?
  {
    Push(stack.top.(pending := Some(k)), stack.below)
  }

  lemma ColonOne(stack: Stack, k: string)
    requires IsClosing(k)
    ensures Ends(State(Colon, stack), ": 1" + k) == Ends(Complete(stack, Num("1")), k)
  {
    Ends3(State(Colon, stack), ':', ' ', '1', k);
    assert ": 1" == [':', ' ', '1'];
    NumberThenClose(stack, k);
  }

  lemma RejectsColon(s: State, k: string)
    requires Step(s, ':').mode.Failed?
    ensures !Accepts(s, ": 1" + k)
  {
    assert ": 1" + k == [':'] + (" 1" + k);
    EndsCons(s, ':', " 1" + k);
    RejectsFailed(Step(s, ':'), " 1" + k);
  }

  lemma QuotedRest(s: State, c: char, rest: string)
    ensures Ends(s, [c] + rest) == Ends(Step(s, c), rest)
    ensures Step(s, c).mode.Failed? ==> !Accepts(s, [c] + rest)
    ensures Step(s, c).mode.InString? && (forall i :: 0 <= i < |rest| ==> rest[i] != '"' && rest[i] != '\\')
      ==> !Accepts(s, [c] + rest)
  {
    EndsCons(s, c, rest);
    if Step(s, c).mode.Failed? {
      RejectsFailed(Step(s, c), rest);
    } else if Step(s, c).mode.InString? && forall i :: 0 <= i < |rest| ==> rest[i] != '"' && rest[i] != '\\' {
      RejectsInString(Step(s, c), rest);
    }
  }

  lemma ProbeOne(s: State, k: string)
    requires Shaped(s) && IsClosing(k) && !s.mode.InNumber?
    ensures Accepts(s, "1" + k) <==>
      (s.mode.Value? || s.mode.ValueOrClose?) && Accepts(Complete(s.stack, Num("1")), k)
  {
    QuotedRest(s, '1', k);
    assert "1" == ['1'];
    if s.mode.InUnicode? && !Step(s, '1').mode.Failed? { RejectsInString(Step(s, '1'), k); }
    if s.mode.Value? || s.mode.ValueOrClose? { NumberThenClose(s.stack, k); }
  }

  lemma ProbeColonOne(s: State, k: string)
    requires Shaped(s) && IsClosing(k)
    ensures Accepts(s, ": 1" + k) <==> s.mode.Colon? && Accepts(Complete(s.stack, Num("1")), k)
  {
    if s.mode.Colon? {
      ColonOne(s.stack, k);
    } else if s.mode.InString? {
      RejectsInString(s, ": 1" + k);
    } else {
      RejectsColon(s, k);
    }
  }

  lemma ClosesNothing(s: State, k: string)
    requires (s.mode.Colon? || s.mode.KeyOnly?) && IsClosing(k)
    ensures !Accepts(s, k)
  {
    if k != [] { RejectsFailed(Step(s, k[0]), k[1..]); }
  }

  lemma ProbeQuote(s: State, k: string)
    requires Shaped(s) && IsClosing(k)
    ensures Accepts(s, "\"" + k) <==>
      s.mode.InString? && s.mode.role == Val && Accepts(Complete(s.stack, Str(s.mode.text)), k)
  {
    QuotedRest(s, '"', k);
    assert "\"" == ['"'];
    if s.mode.InString? && s.mode.role == Key { ClosesNothing(Step(s, '"'), k); }
  }

  lemma ProbeEscapedQuote(s: State, k: string)
    requires Shaped(s) && IsClosing(k)
    ensures Accepts(s, "\\\"" + k) <==>
      s.mode.InEscape? && s.mode.role == Val && Accepts(Complete(s.stack, Str(s.mode.text + "\\")), k)
  {
    assert "\\\"" + k == ['\\'] + ("\"" + k);
    QuotedRest(s, '\\', "\"" + k);
    if !Step(s, '\\').mode.Failed? {
      StepShaped(s, '\\');
      ProbeQuote(Step(s, '\\'), k);
    }
  }

  /** Outside strings a comma is taken only after a value. */
  lemma CommaStep(s: State)
    requires Shaped(s) && !s.mode.InString?
    ensures var f := Finish(s);
      Step(s, ',') == if !f.mode.After? then FAILED
                      else State(if f.stack.top.ArrFrame? then Value else KeyOnly, f.stack)
  {
    FinishShaped(s);
    if s.mode.InNumber? { StepFinish(s, ','); }
  }

  lemma ProbeNextItem(s: State, k: string)
    requires Shaped(s) && IsClosing(k)
    ensures Accepts(s, ", 1" + k) <==>
      Finish(s).mode.After? && Finish(s).stack.top.ArrFrame? && Accepts(Complete(Finish(s).stack, Num("1")), k)
  {
    if s.mode.InString? {
      RejectsInString(s, ", 1" + k);
    } else {
      FinishShaped(s);
      CommaStep(s);
      var n := Step(s, ',');
      assert ", 1" == [',', ' ', '1'];
      Ends3(s, ',', ' ', '1', k);
      if n.mode.Value? {
        NumberThenClose(n.stack, k);
      } else {
        assert Step(Step(n, ' '), '1').mode.Failed?;
        RejectsFailed(Step(Step(n, ' '), '1'), k);
      }
    }
  }

  /** The probe for a whole member, where a key may come. */
  lemma MemberProbe(s: State, k: string)
    requires (s.mode.KeyOrClose? || s.mode.KeyOnly?) && AwaitingKey(s.stack) && IsClosing(k)
    ensures Ends(s, "\"\": 1" + k) == Ends(Complete(WithKey(s.stack, []), Num("1")), k)
  {
    assert "\"\": 1" + k == ['"', '"'] + (": 1" + k);
    Ends2(s, '"', '"', ": 1" + k);
    ColonOne(WithKey(s.stack, []), k);
  }

  /** Two quotes in a row are an empty string, or end one and fail. */
  lemma TwoQuotes(s: State)
    requires Shaped(s) && !s.mode.InEscape? && !s.mode.KeyOrClose? && !s.mode.KeyOnly?
    ensures var n := Step(Step(s, '"'), '"'); n.mode.Failed? || n.mode.After? || n.mode.Done?
  {
    var q := Step(s, '"');
    StepShaped(s, '"');
    if s.mode.InNumber? {
      StepFinish(s, '"');
    } else if s.mode.InString? {
      assert Step(q, '"').mode.Failed?;
    } else if s.mode.Value? || s.mode.ValueOrClose? {
      assert Step(q, '"') == Complete(s.stack, Str([]));
    }
  }

  lemma ProbeMember(s: State, k: string)
    requires Shaped(s) && IsClosing(k) && !s.mode.InEscape?
    ensures Accepts(s, "\"\": 1" + k) <==>
      (s.mode.KeyOrClose? || s.mode.KeyOnly?) && Accepts(Complete(WithKey(s.stack, []), Num("1")), k)
  {
    if s.mode.KeyOrClose? || s.mode.KeyOnly? {
      MemberProbe(s, k);
    } else {
      NoMember(s, k);
    }
  }

  lemma NoMember(s: State, k: string)
    requires Shaped(s) && !s.mode.InEscape? && !s.mode.KeyOrClose? && !s.mode.KeyOnly?
    ensures !Accepts(s, "\"\": 1" + k)
  {
    var n := Step(Step(s, '"'), '"');
    TwoQuotes(s);
    ColonFails(n);
    RejectsColon(n, k);
    MemberProbeEnds(s, k);
  }

  lemma ColonFails(s: State)
    requires s.mode.Failed? || s.mode.After? || s.mode.Done?
    ensures Step(s, ':').mode.Failed?
  {
  }

  lemma MemberProbeEnds(s: State, k: string)
    ensures Accepts(s, "\"\": 1" + k) == Accepts(Step(Step(s, '"'), '"'), ": 1" + k)
  {
    MemberProbeText(k);
    Ends2(s, '"', '"', ": 1" + k);
  }

  lemma MemberProbeText(k: string)
    ensures "\"\": 1" + k == ['"', '"'] + (": 1" + k)
  {
  }

  lemma ProbeNextMember(s: State, k: string)
    requires Shaped(s) && IsClosing(k)
    ensures Accepts(s, ",\"\": 1" + k) <==>
      Finish(s).mode.After? && Finish(s).stack.top.ObjFrame?
      && Accepts(Complete(WithKey(Finish(s).stack, []), Num("1")), k)
  {
    assert ",\"\": 1" + k == [','] + ("\"\": 1" + k);
    QuotedRest(s, ',', "\"\": 1" + k);
    FinishShaped(s);
    StepFinish(s, ',');
    StepShaped(s, ',');
    var n := Step(s, ',');
    if !n.mode.Failed? { ProbeMember(n, k); }
  }

  lemma ProbeKeyQuote(s: State, k: string)
    requires Shaped(s) && IsClosing(k)
    ensures Accepts(s, "\": 1" + k) <==>
      s.mode.InString? && s.mode.role == Key && Accepts(Complete(WithKey(s.stack, s.mode.text), Num("1")), k)
  {
    KeyQuoteText(k);
    assert forall i :: 0 <= i < |k| ==> k[i] in {']', '}'};
    KeyQuoteStep(s, ": 1" + k);
    if s.mode.InString? {
      StepShaped(s, '"');
      ProbeColonOne(Step(s, '"'), k);
    }
  }

  lemma KeyQuoteStep(s: State, rest: string)
    requires Shaped(s) && forall i :: 0 <= i < |rest| ==> rest[i] != '"' && rest[i] != '\\'
    ensures Accepts(s, ['"'] + rest) <==> s.mode.InString? && Accepts(Step(s, '"'), rest)
  {
    QuotedRest(s, '"', rest);
  }

  lemma KeyQuoteText(k: string)
    ensures "\": 1" + k == ['"'] + (": 1" + k)
  {
  }

  lemma ProbeKeyEscape(s: State, k: string)
    requires Shaped(s) && IsClosing(k)
    ensures Accepts(s, "\\\": 1" + k) <==>
      s.mode.InEscape? && s.mode.role == Key && Accepts(Complete(WithKey(s.stack, s.mode.text + "\\"), Num("1")), k)
  {
    assert "\\\": 1" + k == ['\\'] + ("\": 1" + k);
    QuotedRest(s, '\\', "\": 1" + k);
    if !Step(s, '\\').mode.Failed? {
      StepShaped(s, '\\');
      ProbeKeyQuote(Step(s, '\\'), k);
    }
  }

  // The last character other than whitespace

  predicate EndsValue(c: char) { c in {'}', ']', '"', 'e', 'l'} || IsDigit(c) }

  /** How the last such character goes with the state. */
  predicate LastFits(s: State, last: Option<char>) {
    match s.mode
    case Value =>
      last == if s.stack.Bottom? then None else if s.stack.top.ArrFrame? then Some(',') else Some(':')
    case ValueOrClose => last == Some('[')
    case KeyOrClose => last == Some('{')
    case KeyOnly => last == Some(',')
    case Colon => last == Some('"')
    case InNumber(d) => d != [] && last == Some(d[|d| - 1])
    case InLiteral(lit, n) => 0 < n < |LiteralText(lit)| && last == Some(LiteralText(lit)[n - 1])
    case InEscape(_, _) => last == Some('\\')
    case After => last.Some? && EndsValue(last.value)
    case Done(_) => last.Some? && EndsValue(last.value)
    case InUnicode(_, _, _) => last.Some? && (IsHex(last.value) || last.value == 'u' || last.value == '\\')
    case InString(_, _) => true
    case Failed => true
  }

  lemma CompleteFits(stack: Stack, v: Json, c: char)
    requires EndsValue(c)
    ensures LastFits(Complete(stack, v), Some(c))
  {
  }

  lemma NumberEndsInDigit(d: string)
    requires IsNumber(d)
    ensures d != [] && IsDigit(d[|d| - 1])
  {
  }

  lemma FinishFits(s: State, last: Option<char>)
    requires Shaped(s) && LastFits(s, last)
    ensures LastFits(Finish(s), last)
  {
    if s.mode.InNumber? && IsNumber(s.mode.digits) {
      NumberEndsInDigit(s.mode.digits);
      CompleteFits(s.stack, Num(s.mode.digits), last.value);
    }
  }

  lemma AdvanceFits(s: State, last: Option<char>, c: char)
    requires Shaped(s) && LastFits(s, last) && !s.mode.InNumber?
    ensures LastFits(Advance(s, c), if IsSpace(c) then last else Some(c))
  {
    match s.mode
    case InString(role, text) => if c == '"' && role == Val { CompleteFits(s.stack, Str(text), c); }
    case InLiteral(lit, n) =>
      if n + 1 == |LiteralText(lit)| && c == LiteralText(lit)[n] { CompleteFits(s.stack, LiteralValue(lit), c); }
    case Value => StartFits(s.stack, c);
    case ValueOrClose =>
      if c == ']' { AfterFits(s.stack, c); } else { StartFits(s.stack, c); }
    case KeyOrClose => if c == '}' { AfterFits(s.stack, c); }
    case After => AfterFits(s.stack, c);
    case _ =>
  }

  lemma StartFits(stack: Stack, c: char)
    ensures LastFits(StartValue(stack, c), Some(c))
  {
  }

  lemma AfterFits(stack: Stack, c: char)
    ensures LastFits(AfterValue(stack, c), Some(c))
  {
    match stack
    case Bottom =>
    case Push(ArrFrame(items), below) => if c == ']' { CompleteFits(below, Arr(items), c); }
    case Push(ObjFrame(members, _), below) => if c == '}' { CompleteFits(below, Obj(members), c); }
  }

  lemma StepFits(s: State, last: Option<char>, c: char)
    requires Shaped(s) && LastFits(s, last)
    ensures LastFits(Step(s, c), if IsSpace(c) then last else Some(c))
  {
    if s.mode.InNumber? && NumStep(NumRun(s.mode.digits), c) != Bad {
    } else if s.mode.InNumber? && !IsNumber(s.mode.digits) {
    } else {
      FinishShaped(s);
      FinishFits(s, last);
      AdvanceFits(Finish(s), last, c);
    }
  }

  lemma {:induction false} RunFits(t: string)
    ensures Shaped(Run(START, t)) && LastFits(Run(START, t), LastNonSpace(t))
  {
    RunShaped(START, t);
    if t != [] {
      var n := |t| - 1;
      assert t == t[..n] + [t[n]];
      RunFits(t[..n]);
      RunSnoc(START, t[..n], t[n]);
      StepFits(Run(START, t[..n]), LastNonSpace(t[..n]), t[n]);
    }
  }
}
