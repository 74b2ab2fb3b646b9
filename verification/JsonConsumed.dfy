/** How much of a text is taken for JSON, and where the parser puts an error. */
module JsonConsumed {
  import opened Text
  import opened JsonText
  import opened JsonReader
  import opened JsonShape
  import opened JsonDumped
  import opened JsonLocator
  import opened JsonPartial
  import opened JsonRoundTrip
  import opened JsonErrors

  // How much is taken

  lemma ParsedViable(t: string)
    requires Parse(t).Some?
    ensures Viable(t)
  {
  }

  /** Text behind which the reader rejects a character is no beginning of JSON beyond it. */
  lemma NoLongerFront(t: string, n: nat, k: nat)
    requires n < k <= |t| && FirstBad(START, t) <= n
    ensures Parse(t[..k]).None?
  {
    NotViable(t, k);
    if Parse(t[..k]).Some? { ParsedViable(t[..k]); }
  }

  lemma ViableFront(t: string, n: nat)
    requires n <= |t| && Viable(t[..n])
    ensures n <= FirstBad(START, t)
  {
    FirstBadViable(START, t[..n]);
    FirstBadOfPrefix(START, t, n);
  }

  /** The whole text is JSON exactly when the reader finds no error in it. */
  lemma NoErrorIffParses(t: string)
    ensures Parse(t).Some? <==> !Locate(t).foundError
  {
    var i := FirstBad(START, t);
    if i == |t| {
      assert t[..i] == t;
    } else {
      NotViable(t, |t|);
      assert t[..|t|] == t;
      if Parse(t).Some? { ParsedViable(t); }
    }
  }

  /** Whatever is parsed is JSON of the text, and no more of the text is: it is taken with the whitespace behind it. */
  lemma ParsedIsLongest(t: string, m: string)
    requires ParseOrHeal(t, m).Parsed?
    ensures var r := ParseOrHeal(t, m);
      && r.consumed <= |t| && Parse(t[..r.consumed]) == Some(r.json)
      && forall k: nat :: r.consumed < k <= |t| ==> Parse(t[..k]).None?
  {
    var r := ParseOrHeal(t, m);
    assert t[..|t|] == t;
    if Locate(t).foundError {
      ParsedViable(t[..r.consumed]);
      ViableFront(t, r.consumed);
      forall k: nat | r.consumed < k <= |t| ensures Parse(t[..k]).None? { NoLongerFront(t, r.consumed, k); }
    }
  }

  /** Text that is JSON as a whole is taken as a whole. */
  lemma WholeIsTaken(t: string, m: string)
    requires Parse(t).Some?
    ensures ParseOrHeal(t, m) == Parsed(Parse(t).value, |t|)
  {
    NoErrorIffParses(t);
  }

  /** Where the reader stops. */
  lemma BadBehind(a: string, c: char, rest: string)
    requires Viable(a) && Step(Run(START, a), c).mode.Failed?
    ensures var t := a + [c] + rest; FirstBad(START, t) == |a| && t[..|a|] == a && t[|a|] == c
  {
    var t := a + [c] + rest;
    assert t[..|a|] == a && t[..|a| + 1] == a + [c];
    ViableFront(t, |a|);
    RunSnoc(START, a, c);
    if FirstBad(START, t) > |a| { StillViable(t, |a| + 1); }
  }

  lemma DocumentDone(d: string)
    requires Parse(d).Some?
    ensures Viable(d) && Finish(Run(START, d)).mode.Done? && Finish(Run(START, d)).stack == Bottom
  {
    RunShaped(START, d);
    FinishShaped(Run(START, d));
  }

  lemma StillViable(t: string, n: nat)
    requires n <= FirstBad(START, t)
    ensures Viable(t[..n])
  {
    FirstBadRuns(START, t);
    var u := t[..FirstBad(START, t)];
    assert u == t[..n] + u[n..];
    ViablePrefix(t[..n], u[n..]);
  }

  /**
   * A document and a character that cannot go on behind it, whatever follows: the document is taken, up to that
   * character, if and only if it is not the beginning of a longer token; else nothing is.
   */
  lemma DocumentThenMore(d: string, c: char, rest: string, m: string)
    requires Parse(d).Some? && Step(Run(START, d), c).mode.Failed?
    ensures var t := d + [c] + rest;
      ParseOrHeal(t, m) == if OpensToken(c) && TokenEnd(START, t, |d|) > |d| then NotJson
                           else Parsed(Parse(d).value, |d|)
  {
    var t := d + [c] + rest;
    DocumentDone(d);
    BadBehind(d, c, rest);
    var n := Locate(t).position;
    if n > |d| {
      NoLongerFront(t, |d|, n);
      assert Elements(Bottom) == [];
    }
  }

  /** With an empty marker nothing is healed, and nothing thrown. */
  lemma NothingHealsEmpty(t: string)
    ensures ParseOrHeal(t, []).Parsed? || ParseOrHeal(t, []).NotJson?
  {
    NoErrorIffParses(t);
  }

  /** Text that is no JSON and in which no container is open at the error is refused, whatever the marker. */
  lemma RefusedIff(t: string, m: string)
    ensures ParseOrHeal(t, m).NotJson? <==>
      && Locate(t).foundError && Parse(t[..Locate(t).position]).None? && (m == [] || Locate(t).stack == [])
  {
    NoErrorIffParses(t);
  }

  // Where an error is put

  /** The reader goes through w and stays inside one token. */
  predicate Inside(s: State, w: string)
    decreases |w|
  {
    w != [] ==> Goes(s, w[0]) && Inside(Step(s, w[0]), w[1..])
  }

  /** The token goes on behind the character. */
  predicate Goes(s: State, c: char) {
    && !Step(s, c).mode.Failed? && !Step(s, c).mode.Done?
    && (s.mode.InNumber? ==> NumStep(NumRun(s.mode.digits), c) != Bad)
  }

  lemma TokenEndStep(s: State, t: string, i: nat)
    requires i < |t| && Goes(s, t[i])
    ensures TokenEnd(s, t, i) == TokenEnd(Step(s, t[i]), t, i + 1)
  {
  }

  lemma SliceStep(t: string, i: nat, w: string)
    requires w != [] && i + |w| <= |t| && t[i..i + |w|] == w
    ensures t[i] == w[0] && t[i + 1..i + 1 + |w[1..]|] == w[1..]
  {
    assert t[i..i + |w|][0] == t[i] && t[i..i + |w|][1..] == t[i + 1..i + |w|];
  }

  lemma {:induction false} TokenEndFrom(s: State, t: string, i: nat, w: string)
    requires Inside(s, w) && i + |w| <= |t| && t[i..i + |w|] == w
    ensures TokenEnd(s, t, i) == TokenEnd(Run(s, w), t, i + |w|)
    decreases |w|
  {
    if w != [] {
      SliceStep(t, i, w);
      TokenEndStep(s, t, i);
      TokenEndFrom(Step(s, w[0]), t, i + 1, w[1..]);
    }
  }

  lemma Within(a: string, w: string, rest: string, n: nat)
    requires n <= |w|
    ensures (a + w + rest)[|a|..|a| + n] == w[..n]
  {
  }

  /** Inside a string or a literal read on its own. */
  predicate InToken(s: State) {
    && s.stack == Bottom
    && match s.mode
       case InString(role, _) => role == Val
       case InEscape(role, _) => role == Val
       case InUnicode(role, _, _) => role == Val
       case InLiteral(_, _) => true
       case _ => false
  }

  lemma TokenStep(s: State, c: char)
    requires InToken(s) && !Step(s, c).mode.Failed?
    ensures Step(s, c).mode.Done? || InToken(Step(s, c))
  {
  }

  lemma {:induction false} InsideFront(s: State, front: string, c: char)
    requires InToken(s) && Finish(Run(s, front + [c])).mode.Done? && Squeeze(s, front + [c]) == front + [c]
    ensures Inside(s, front) && InToken(Run(s, front)) && Step(Run(s, front), c).mode.Done?
    decreases |front|
  {
    var w := front + [c];
    var next := Step(s, w[0]);
    if next.mode.Failed? { RunFailed(next, w[1..]); }
    TailSqueezed(w, Squeeze(next, w[1..]));
    TokenStep(s, w[0]);
    if front == [] {
      assert w[1..] == [];
    } else {
      assert w[1..] == front[1..] + [c];
      if next.mode.Done? { NothingFollows(next, w[1..]); }
      InsideFront(next, front[1..], c);
    }
  }

  lemma StartsToken(v: Json)
    requires v.Str? || v.Null? || v.Bool?
    ensures |Dump(v)| > 1 && InToken(Step(START, Dump(v)[0])) && !Skipped(START, Dump(v)[0])
  {
  }

  /** A string or a literal as a dump writes it. */
  lemma WrittenToken(v: Json)
    requires v.Str? || v.Null? || v.Bool?
    ensures var w := Dump(v); var n := |w| - 1;
      n > 0 && Inside(START, w[..n]) && InToken(Run(START, w[..n])) && Step(Run(START, w[..n]), w[n]).mode.Done?
  {
    ReadDump(START, v);
    StartsToken(v);
    WholeToken(Dump(v));
  }

  lemma WholeToken(w: string)
    requires |w| > 1 && InToken(Step(START, w[0])) && !Skipped(START, w[0])
    requires Finish(Run(START, w)).mode.Done? && Squeeze(START, w) == w
    ensures var n := |w| - 1;
      Inside(START, w[..n]) && InToken(Run(START, w[..n])) && Step(Run(START, w[..n]), w[n]).mode.Done?
  {
    var n := |w| - 1;
    Ends3(w);
    TailSqueezed(w, Squeeze(Step(START, w[0]), w[1..]));
    InsideFront(Step(START, w[0]), w[1..n], w[n]);
    FrontFrom(w[0], w[1..n], w[..n]);
  }

  lemma Ends3(w: string)
    requires |w| > 1
    ensures var n := |w| - 1; w[1..] == w[1..n] + [w[n]] && w[..n] == [w[0]] + w[1..n]
  {
  }

  lemma FrontFrom(c: char, mid: string, front: string)
    requires front == [c] + mid && InToken(Step(START, c)) && Inside(Step(START, c), mid)
    ensures Inside(START, front) && Run(START, front) == Run(Step(START, c), mid)
  {
    assert front[0] == c && front[1..] == mid;
  }

  lemma TailSqueezed(w: string, q: string)
    requires w != [] && [w[0]] + q == w
    ensures q == w[1..]
  {
    assert q == ([w[0]] + q)[1..];
  }

  lemma {:induction false} NumRunFront(a: string, b: string)
    requires NumRun(a + b) != Bad && a != []
    ensures NumRun(a) != Bad
    decreases |b|
  {
    if b == [] {
      assert a + b == a;
    } else {
      var n := |b| - 1;
      assert a + b == (a + b[..n]) + [b[n]];
      NumRunSnoc(a + b[..n], b[n]);
      NumRunFront(a, b[..n]);
    }
  }

  lemma {:induction false} InsideNumber(d: string, w: string)
    requires d != [] && NumRun(d + w) != Bad
    ensures Inside(State(InNumber(d), Bottom), w)
    ensures Run(State(InNumber(d), Bottom), w) == State(InNumber(d + w), Bottom)
    decreases |w|
  {
    if w == [] {
      assert d + w == d;
    } else {
      assert d + w == (d + [w[0]]) + w[1..];
      NumRunFront(d + [w[0]], w[1..]);
      NumRunSnoc(d, w[0]);
      InsideNumber(d + [w[0]], w[1..]);
    }
  }

  /** A number, and what does not go on with it. */
  lemma NumberEnd(a: string, w: string, rest: string)
    requires IsNumber(w) && (rest != [] ==> NumStep(NumRun(w), rest[0]) == Bad)
    ensures TokenEnd(START, a + w + rest, |a|) == |a| + |w| - 1
  {
    WholeNumber(w);
    Within(a, w, rest, |w|);
    TokenEndFrom(START, a + w + rest, |a|, w);
    assert rest != [] ==> (a + w + rest)[|a| + |w|] == rest[0];
  }

  lemma WholeNumber(w: string)
    requires IsNumber(w)
    ensures Inside(START, w) && Run(START, w) == State(InNumber(w), Bottom)
  {
    var d := [w[0]];
    assert w == d + w[1..];
    NumRunFront(d, w[1..]);
    InsideNumber(d, w[1..]);
    NumberStarts(w[0]);
    RunCons(START, w[0], w[1..]);
  }

  lemma NumberStarts(c: char)
    requires NumRun([c]) != Bad
    ensures Goes(START, c) && Step(START, c) == State(InNumber([c]), Bottom)
  {
  }

  lemma WrittenEnd(a: string, v: Json, rest: string)
    requires v.Str? || v.Null? || v.Bool?
    ensures TokenEnd(START, a + Dump(v) + rest, |a|) == |a| + |Dump(v)| - 1
  {
    WrittenToken(v);
    DoneEnd(a, Dump(v), rest);
  }

  lemma DoneEnd(a: string, w: string, rest: string)
    requires var n := |w| - 1;
      n > 0 && Inside(START, w[..n]) && InToken(Run(START, w[..n])) && Step(Run(START, w[..n]), w[n]).mode.Done?
    ensures TokenEnd(START, a + w + rest, |a|) == |a| + |w| - 1
  {
    var n, t := |w| - 1, a + w + rest;
    Within(a, w, rest, n);
    TokenEndFrom(START, t, |a|, w[..n]);
    assert t[|a| + n] == w[n];
  }

  /**
   * An unexpected string, literal or number between tokens is reported at its last character; any other character
   * that cannot go on is reported where it is.
   */
  lemma ErrorPosition(a: string, v: Json, rest: string)
    requires Viable(a) && BetweenTokens(Finish(Run(START, a)).mode)
    requires v.Str? || v.Null? || v.Bool? || (v.Num? && IsNumber(v.text))
    requires v.Num? && rest != [] ==> NumStep(NumRun(v.text), rest[0]) == Bad
    requires Step(Run(START, a), Dump(v)[0]).mode.Failed?
    ensures Locate(a + Dump(v) + rest) ==
      Located(true, |a| + |Dump(v)| - 1, Elements(Finish(Run(START, a)).stack))
  {
    TokenHead(v);
    BadToken(a, Dump(v), rest);
    if v.Num? { NumberEnd(a, v.text, rest); } else { WrittenEnd(a, v, rest); }
    LocatedAt(a + Dump(v) + rest, a);
  }

  lemma LocatedAt(t: string, a: string)
    requires FirstBad(START, t) == |a| < |t| && t[..|a|] == a
    requires BetweenTokens(Finish(Run(START, a)).mode) && OpensToken(t[|a|])
    ensures Locate(t) == Located(true, TokenEnd(START, t, |a|), Elements(Finish(Run(START, a)).stack))
  {
  }

  lemma TokenHead(v: Json)
    requires v.Str? || v.Null? || v.Bool? || (v.Num? && IsNumber(v.text))
    ensures Dump(v) != [] && OpensToken(Dump(v)[0])
  {
    if v.Num? {
      assert v.text == [v.text[0]] + v.text[1..];
      NumRunFront([v.text[0]], v.text[1..]);
    }
  }

  lemma BadToken(a: string, w: string, rest: string)
    requires Viable(a) && w != [] && Step(Run(START, a), w[0]).mode.Failed?
    ensures var t := a + w + rest; FirstBad(START, t) == |a| && t[..|a|] == a && t[|a|] == w[0]
  {
    HeadGlue(a, w, rest);
    BadBehind(a, w[0], w[1..] + rest);
  }

  lemma HeadGlue(a: string, w: string, rest: string)
    requires w != []
    ensures a + [w[0]] + (w[1..] + rest) == a + w + rest
  {
    assert w == [w[0]] + w[1..];
  }

  lemma CharPosition(a: string, c: char, rest: string)
    requires Viable(a) && Step(Run(START, a), c).mode.Failed?
    requires !BetweenTokens(Finish(Run(START, a)).mode) || !OpensToken(c)
    ensures Locate(a + [c] + rest) == Located(true, |a|, Elements(Finish(Run(START, a)).stack))
  {
    BadBehind(a, c, rest);
  }

  /** A document and a string, a literal or a number behind it: a token of more than one character refuses both. */
  lemma DocumentThenToken(d: string, v: Json, rest: string, m: string)
    requires v.Str? || v.Null? || v.Bool? || (v.Num? && IsNumber(v.text))
    requires Parse(d).Some? && Step(Run(START, d), Dump(v)[0]).mode.Failed?
    requires v.Num? && rest != [] ==> NumStep(NumRun(v.text), rest[0]) == Bad
    ensures ParseOrHeal(d + Dump(v) + rest, m) == if |Dump(v)| > 1 then NotJson else Parsed(Parse(d).value, |d|)
  {
    var w := Dump(v);
    TokenHead(v);
    HeadGlue(d, w, rest);
    DocumentThenMore(d, w[0], w[1..] + rest, m);
    if v.Num? { NumberEnd(d, v.text, rest); } else { WrittenEnd(d, v, rest); }
  }
}
