/** The message behind the reasoning: where the cursor stops, and what of the text went where. */
module ChatAnswers {
  import opened Text
  import opened CommonStrings
  import opened ChatReasoning
  import opened ChatParser

  /** Reasoning that went where the syntax says, and nothing else but the cursor moved. */
  predicate Told(
    syntax: Syntax, p: Progress, q: Progress, reasoning: string, closed: bool, start: string, end: string)
  {
    if AllSpaces(reasoning) then q.content == p.content && q.reasoning == p.reasoning
    else if !syntax.reasoningInContent then q.content == p.content && q.reasoning == p.reasoning + Strip(reasoning)
    else
      && q.reasoning == p.reasoning
      && q.content == p.content + Opening(syntax, start) + Strip(reasoning) + if closed then Ending(syntax, end) else ""
  }

  /** It makes no difference where the cursor was. */
  lemma MovedTold(syntax: Syntax, p: Progress, at: nat, q: Progress, reasoning: string, closed: bool, start: string,
                  end: string)
    ensures Told(syntax, p.(pos := at), q, reasoning, closed, start, end)
        <==> Told(syntax, p, q, reasoning, closed, start, end)
  {
  }

  /** The tags that inlined reasoning stands between. */
  function Opening(syntax: Syntax, start: string): string {
    if syntax.reasoningFormat == FORMAT_DEEPSEEK then "<think>" else start
  }

  function Ending(syntax: Syntax, end: string): string {
    if syntax.reasoningFormat == FORMAT_DEEPSEEK then "</think>" else end
  }

  lemma HandledIsTold(syntax: Syntax, p: Progress, reasoning: string, closed: bool, start: string, end: string, at: nat)
    ensures Told(syntax, p, HandleReasoning(syntax, p, reasoning, closed, start, end).(pos := at), reasoning, closed,
                 start, end)
  {
    NothingLeft(reasoning);
  }

  lemma NothingLeft(s: string)
    ensures Strip(s) == [] <==> AllSpaces(s)
  {
    var a, b := StripIs(s);
    if Strip(s) != [] { MiddleFirst(s, a, Strip(s), b); }
  }

  lemma MiddleFirst(s: string, a: string, m: string, b: string)
    requires s == a + m + b && m != []
    ensures |a| < |s| && s[|a|] == m[0]
  {
  }

  // Where the tag is

  /** The first occurrence of the tag, behind anything and in front of anything. */
  lemma TagFound(s: string, a: string, w: string, b: string, n: nat, tag: string)
    requires s == a + w + b && |w| == n + |tag| && Find(w, tag, 0) == Some(n)
    ensures Find(s, tag, |a|) == Some(|a| + n)
  {
    TagInside(s, a, w, b, tag, n);
    forall k: nat | |a| <= k < |a| + n ensures !OccursAt(s, tag, k) { TagInside(s, a, w, b, tag, k - |a|); }
  }

  lemma TagInside(s: string, a: string, w: string, b: string, tag: string, k: nat)
    requires s == a + w + b && k + |tag| <= |w|
    ensures OccursAt(s, tag, |a| + k) <==> OccursAt(w, tag, k)
  {
    assert s[|a| + k..|a| + k + |tag|] == w[k..k + |tag|];
  }

  lemma LiteralFound(s: string, a: string, w: string, b: string, n: nat, tag: string, isPartial: bool)
    requires s == a + w + b && |w| == n + |tag| && Find(w, tag, 0) == Some(n)
    ensures FindLiteral(s, |a|, isPartial, tag) == Some(Found(w[..n], |a| + n + |tag|))
  {
    TagFound(s, a, w, b, n, tag);
    LiteralAt(s, |a|, tag, |a| + n, isPartial);
    MiddleIs(s, a, w, b, n);
  }

  lemma LiteralAt(s: string, pos: nat, tag: string, n: nat, isPartial: bool)
    requires pos <= |s| && Find(s, tag, pos) == Some(n)
    ensures pos <= n <= |s| && FindLiteral(s, pos, isPartial, tag) == Some(Found(s[pos..n], n + |tag|))
  {
  }

  lemma MiddleIs(s: string, a: string, w: string, b: string, n: nat)
    requires s == a + w + b && n <= |w|
    ensures s[|a|..|a| + n] == w[..n]
  {
  }

  lemma SpacesSkipped(a: string, spaces: string, rest: string)
    requires AllSpaces(spaces) && (rest != "" ==> !IsCSpace(rest[0]))
    ensures var s := a + spaces + rest; SkipSpaces(s, |a|) == |s| - |rest| && s[|s| - |rest|..] == rest
  {
    var s := a + spaces + rest;
    forall i | |a| <= i < |a| + |spaces| ensures IsCSpace(s[i]) { assert s[i] == spaces[i - |a|]; }
    SkipIs(s, |a|, |a| + |spaces|);
  }

  // Reasoning, its closing tag and the answer

  lemma TakenToTag(syntax: Syntax, a: string, r: string, spaces: string, rest: string, isPartial: bool, p: Progress,
                   start: string, end: string)
    requires p.pos == |a| && Find(r + end, end, 0) == Some(|r|)
    requires AllSpaces(spaces) && (rest != "" ==> !IsCSpace(rest[0]))
    ensures var s := a + (r + end) + (spaces + rest);
      var q := TakeReasoning(syntax, s, isPartial, p, start, end);
      s[q.pos..] == rest && q.pos == |s| - |rest| && Told(syntax, p, q, r, true, start, end)
  {
    LiteralFound(a + (r + end) + (spaces + rest), a, r + end, spaces + rest, |r|, end, isPartial);
    assert (r + end)[..|r|] == r;
    SpacesSkipped(a + (r + end), spaces, rest);
    Assoc(a + (r + end), spaces, rest);
    HandledIsTold(syntax, p, r, true, start, end, |a + (r + end) + spaces|);
  }

  /** The start tag, where the syntax does not force the reasoning open. */
  function StartTag(syntax: Syntax, start: string): string { if syntax.thinkingForcedOpen then "" else start }

  lemma TagConsumed(syntax: Syntax, a: string, b: string, isPartial: bool, p: Progress, start: string, end: string)
    requires !syntax.reasoningFormat.FORMAT_NONE? && p.pos == |a|
    ensures var s, from := a + StartTag(syntax, start) + b, |a + StartTag(syntax, start)|;
      ParseReasoning(syntax, s, isPartial, p, start, end)
      == Some(TakeReasoning(syntax, s, isPartial, p.(pos := from), start, end))
  {
    var s := a + StartTag(syntax, start) + b;
    assert s[|a|..] == StartTag(syntax, start) + b;
  }

  /**
   * Behind reasoning in which the closing tag does not begin, the tag, and spaces, the cursor stops at the answer:
   * all of it is still to be parsed, and the reasoning has gone where the syntax says.
   */
  lemma ReasoningThenAnswer(syntax: Syntax, a: string, r: string, spaces: string, rest: string, isPartial: bool,
                            p: Progress, start: string, end: string)
    requires !syntax.reasoningFormat.FORMAT_NONE? && p.pos == |a| && Find(r + end, end, 0) == Some(|r|)
    requires AllSpaces(spaces) && (rest != "" ==> !IsCSpace(rest[0]))
    ensures var s := a + StartTag(syntax, start) + ((r + end) + (spaces + rest));
      var q := ParseReasoning(syntax, s, isPartial, p, start, end);
      q.Some? && s[q.value.pos..] == rest && q.value.pos == |s| - |rest|
      && Told(syntax, p, q.value, r, true, start, end)
  {
    var b := a + StartTag(syntax, start);
    TagConsumed(syntax, a, (r + end) + (spaces + rest), isPartial, p, start, end);
    TakenToTag(syntax, b, r, spaces, rest, isPartial, p.(pos := |b|), start, end);
    Assoc(b, r + end, spaces + rest);
    var q := ParseReasoning(syntax, b + ((r + end) + (spaces + rest)), isPartial, p, start, end).value;
    MovedTold(syntax, p, |b|, q, r, true, start, end);
  }

  // No closing tag

  lemma NotFound(a: string, r: string, tag: string)
    requires Find(r, tag, 0).None?
    ensures Find(a + r, tag, |a|).None?
  {
    var f := Find(a + r, tag, |a|);
    if f.Some? {
      assert (a + r)[f.value..f.value + |tag|] == r[f.value - |a|..f.value - |a| + |tag|];
      assert OccursAt(r, tag, f.value - |a|);
    }
  }

  /** Where what is held back of an unfinished text begins: at its longest ending that begins the closing tag. */
  ghost predicate HeldAt(a: string, r: string, isPartial: bool, end: string, k: nat) {
    && k <= |r|
    && if isPartial && PartialStop(a + r, end).Some? && PartialStop(a + r, end).value >= |a|
       then StopsAt(a + r, end, |a| + k) && k < |r| && forall i: nat :: i < |a| + k ==> !StopsAt(a + r, end, i)
       else k == |r|
  }

  lemma TakenToEnd(syntax: Syntax, a: string, r: string, isPartial: bool, p: Progress, start: string, end: string)
    returns (k: nat)
    requires p.pos == |a| && Find(r, end, 0).None?
    ensures var q := TakeReasoning(syntax, a + r, isPartial, p, start, end);
      q.pos == |a + r| && HeldAt(a, r, isPartial, end, k)
      && Told(syntax, p, q, r[..k], k < |r| || !isPartial, start, end)
  {
    NotFound(a, r, end);
    var f := FindLiteral(a + r, |a|, isPartial, end);
    if f.Some? {
      k := PartialStop(a + r, end).value - |a|;
      assert (a + r)[|a|..|a| + k] == r[..k];
      EndSkipped(a + r);
      HandledIsTold(syntax, p, r[..k], true, start, end, |a + r|);
    } else {
      k := |r|;
      assert (a + r)[|a|..] == r == r[..k];
      HandledIsTold(syntax, p, r, !isPartial, start, end, |a + r|);
    }
  }

  lemma EndSkipped(s: string)
    ensures SkipSpaces(s, |s|) == |s|
  {
  }

  /**
   * Without the closing tag the cursor is at the end and all the text is reasoning, but for an ending held back
   * from text that is still arriving because it may become the tag.
   */
  lemma ReasoningUnfinished(syntax: Syntax, a: string, r: string, isPartial: bool, p: Progress, start: string,
                            end: string) returns (k: nat)
    requires !syntax.reasoningFormat.FORMAT_NONE? && p.pos == |a| && Find(r, end, 0).None?
    ensures var s := a + StartTag(syntax, start) + r;
      var q := ParseReasoning(syntax, s, isPartial, p, start, end);
      q.Some? && q.value.pos == |s| && HeldAt(a + StartTag(syntax, start), r, isPartial, end, k)
      && Told(syntax, p, q.value, r[..k], k < |r| || !isPartial, start, end)
  {
    var b := a + StartTag(syntax, start);
    TagConsumed(syntax, a, r, isPartial, p, start, end);
    k := TakenToEnd(syntax, b, r, isPartial, p.(pos := |b|), start, end);
  }

  /** There is no reasoning exactly where none is asked for or the start tag is not at the cursor. */
  lemma NoReasoning(syntax: Syntax, input: string, isPartial: bool, p: Progress, start: string, end: string)
    requires p.pos <= |input|
    ensures ParseReasoning(syntax, input, isPartial, p, start, end).None? <==>
      syntax.reasoningFormat == FORMAT_NONE || (!syntax.thinkingForcedOpen && !(start <= input[p.pos..]))
  {
  }
}
