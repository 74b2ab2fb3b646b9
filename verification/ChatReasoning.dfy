/** Extracting reasoning from text that may still be arriving: what may be the start of the closing
    tag is held back, so that the extracted reasoning only ever grows. */
module ChatReasoning {
  import opened Text
  import opened CommonStrings

  datatype Found = Found(prelude: string, end: nat)

  /** `try_find_literal`: the text before the literal, or, while input is still arriving, before the
      longest ending that may become the literal. */
  function FindLiteral(input: string, pos: nat, isPartial: bool, literal: string): (r: Option<Found>)
    requires pos <= |input|
    ensures r.Some? ==> pos <= r.value.end <= |input| && r.value.prelude <= input[pos..]
  {
    var idx := Find(input, literal, pos);
    if idx.Some? then Some(Found(input[pos..idx.value], idx.value + |literal|))
    else if isPartial then
      var stop := PartialStop(input, literal);
      if stop.Some? && stop.value >= pos then Some(Found(input[pos..stop.value], |input|)) else None
    else None
  }

  /** The text taken as reasoning when it starts at `pos`: up to the closing tag, or all the rest. */
  function RawReasoning(input: string, pos: nat, isPartial: bool, endThink: string): string
    requires pos <= |input|
  {
    match FindLiteral(input, pos, isPartial, endThink)
    case Some(f) => f.prelude
    case None => input[pos..]
  }

  /** The reasoning content extracted from an input. */
  function Reasoning(input: string, pos: nat, isPartial: bool, endThink: string): string
    requires pos <= |input|
  {
    Strip(RawReasoning(input, pos, isPartial, endThink))
  }

  /** What is held back does not reach behind the start of the reasoning. */
  predicate HoldsBackInside(input: string, pos: nat, endThink: string) {
    var stop := PartialStop(input, endThink);
    stop.Some? ==> stop.value >= pos
  }

  /** A complete occurrence in a text is still the first one in any extension of it. */
  lemma FindExtends(x: string, y: string, pat: string, pos: nat)
    requires Find(x, pat, pos).Some?
    ensures Find(x + y, pat, pos) == Find(x, pat, pos)
  {
    var i := Find(x, pat, pos).value;
    OccursInPrefix(x, y, pat, i);
    forall k: nat | pos <= k < i ensures !OccursAt(x + y, pat, k) {
      OccursInPrefix(x, y, pat, k);
    }
  }

  /** An occurrence that starts in `x` but ends beyond it makes the end of `x` a partial stop. */
  lemma StraddlingStops(x: string, y: string, pat: string, i: nat)
    requires OccursAt(x + y, pat, i) && i < |x| < i + |pat|
    ensures StopsAt(x, pat, i)
  {
    assert (x + y)[i..i + |pat|][..|x| - i] == x[i..];
  }

  /** A partial stop of an extension that starts in `x` is one of `x`. */
  lemma StopShrinks(x: string, y: string, pat: string, i: nat)
    requires StopsAt(x + y, pat, i) && i < |x|
    ensures StopsAt(x, pat, i)
  {
    assert (x + y)[i..] == x[i..] + y;
  }

  lemma SliceExtends(x: string, y: string, pos: nat, a: nat, b: nat)
    requires pos <= a <= |x| && a <= b <= |x + y|
    ensures x[pos..a] <= (x + y)[pos..b]
  {
    assert (x + y)[pos..b][..a - pos] == x[pos..a];
  }

  /** Where the reasoning of an extension is cut: behind the shorter input, or at a stop of it. */
  lemma LaterCut(x: string, y: string, pos: nat, isPartial: bool, endThink: string) returns (k: nat)
    requires pos <= |x| && Find(x, endThink, pos).None?
    ensures pos <= k <= |x + y| && RawReasoning(x + y, pos, isPartial, endThink) == (x + y)[pos..k]
    ensures k < |x| ==> StopsAt(x, endThink, k)
  {
    var whole, stop := Find(x + y, endThink, pos), PartialStop(x + y, endThink);
    if whole.Some? {
      k := whole.value;
      if k + |endThink| <= |x| {
        OccursInPrefix(x, y, endThink, k);
      } else if k < |x| {
        StraddlingStops(x, y, endThink, k);
      }
    } else if isPartial && stop.Some? && stop.value >= pos {
      k := stop.value;
      if k < |x| { StopShrinks(x, y, endThink, k); }
    } else {
      k := |x + y|;
      assert (x + y)[pos..] == (x + y)[pos..k];
    }
  }

  /** An ending that begins the closing tag can still become it, and is then cut off. */
  lemma StopCompletes(x: string, pos: nat, endThink: string, i: nat) returns (k: nat)
    requires pos <= i && StopsAt(x, endThink, i)
    ensures pos <= k <= i && RawReasoning(x + endThink[|x| - i..], pos, false, endThink) == x[pos..k]
  {
    var y := endThink[|x| - i..];
    assert endThink == x[i..] + y;
    assert OccursAt(x + y, endThink, i);
    k := Find(x + y, endThink, pos).value;
    assert (x + y)[pos..k] == x[pos..k];
  }

  /** Raw reasoning is not cut before what the shorter input gave. */
  lemma RawReasoningGrows(x: string, y: string, pos: nat, isPartial: bool, endThink: string)
    requires pos <= |x| && (Find(x, endThink, pos).Some? || HoldsBackInside(x, pos, endThink))
    ensures RawReasoning(x, pos, true, endThink) <= RawReasoning(x + y, pos, isPartial, endThink)
  {
    if Find(x, endThink, pos).Some? {
      var k := Find(x, endThink, pos).value;
      FindExtends(x, y, endThink, pos);
      assert (x + y)[pos..k] == x[pos..k];
    } else {
      var stop := PartialStop(x, endThink);
      var cut := if stop.Some? then stop.value else |x|;
      assert RawReasoning(x, pos, true, endThink) == x[pos..cut];
      var k := LaterCut(x, y, pos, isPartial, endThink);
      SliceExtends(x, y, pos, cut, k);
    }
  }

  /** No continuation, partial or final, takes back any of the reasoning extracted so far. */
  ghost predicate NeverTakenBack(x: string, pos: nat, endThink: string)
    requires pos <= |x|
  {
    forall y: string, isPartial :: Reasoning(x, pos, true, endThink) <= Reasoning(x + y, pos, isPartial, endThink)
  }

  /** An ending of the reasoning that begins the closing tag and is not all spaces. */
  ghost predicate Tempting(x: string, pos: nat, endThink: string, i: nat) {
    pos <= i && StopsAt(x, endThink, i) && !AllSpaces(x[i..])
  }

  /** With the held-back ending inside the reasoning, or the whole closing tag in it, it only grows. */
  lemma HeldBackGrows(x: string, pos: nat, endThink: string)
    requires pos <= |x| && (Find(x, endThink, pos).Some? || HoldsBackInside(x, pos, endThink))
    ensures NeverTakenBack(x, pos, endThink)
  {
    forall y: string, isPartial
      ensures Reasoning(x, pos, true, endThink) <= Reasoning(x + y, pos, isPartial, endThink)
    {
      RawReasoningGrows(x, y, pos, isPartial, endThink);
      var a, b := RawReasoning(x, pos, true, endThink), RawReasoning(x + y, pos, isPartial, endThink);
      StripMonotone(a, b[|a|..]);
      assert b == a + b[|a|..];
    }
  }

  /** Nothing is held back and nothing that could be cut off would be missed. */
  lemma UntemptedGrows(x: string, pos: nat, endThink: string)
    requires pos <= |x| && Find(x, endThink, pos).None? && !HoldsBackInside(x, pos, endThink)
    requires forall i: nat :: !Tempting(x, pos, endThink, i)
    ensures NeverTakenBack(x, pos, endThink)
  {
    forall y: string, isPartial
      ensures Reasoning(x, pos, true, endThink) <= Reasoning(x + y, pos, isPartial, endThink)
    {
      var k := LaterCut(x, y, pos, isPartial, endThink);
      if k < |x| {
        assert !Tempting(x, pos, endThink, k);
        StripLoses(x[pos..k], x[k..]);
        assert x[pos..] == x[pos..k] + x[k..] && (x + y)[pos..k] == x[pos..k];
      } else {
        StripMonotone(x[pos..], y[..k - |x|]);
        assert (x + y)[pos..k] == x[pos..] + y[..k - |x|];
      }
    }
  }

  lemma TemptedIsTakenBack(x: string, pos: nat, endThink: string, i: nat)
    requires pos <= |x| && Find(x, endThink, pos).None? && !HoldsBackInside(x, pos, endThink)
    requires Tempting(x, pos, endThink, i)
    ensures !NeverTakenBack(x, pos, endThink)
  {
    var k := StopCompletes(x, pos, endThink, i);
    var y := endThink[|x| - i..];
    CutLoses(x, pos, k, i);
    assert RawReasoning(x, pos, true, endThink) == x[pos..];
    assert !(Reasoning(x, pos, true, endThink) <= Reasoning(x + y, pos, false, endThink));
  }

  /** Cutting something off that is not all spaces loses some of it. */
  lemma CutLoses(x: string, pos: nat, k: nat, i: nat)
    requires pos <= k <= i <= |x| && !AllSpaces(x[i..])
    ensures !(Strip(x[pos..]) <= Strip(x[pos..k]))
  {
    assert x[pos..] == x[pos..k] + x[k..];
    assert x[i..] == x[k..][i - k..];
    StripLoses(x[pos..k], x[k..]);
  }

  /**
   * Streaming reasoning is monotone: what was extracted from a partial input is a prefix of what is
   * extracted from any extension of it, partial or final. It is so exactly when the closing tag is
   * there, or the longest ending that may become it starts inside the reasoning, or every shorter such
   * ending inside the reasoning is all spaces.
   */
  lemma ReasoningGrows(x: string, pos: nat, endThink: string)
    requires pos <= |x|
    ensures NeverTakenBack(x, pos, endThink) <==>
      || Find(x, endThink, pos).Some?
      || HoldsBackInside(x, pos, endThink)
      || forall i: nat :: !Tempting(x, pos, endThink, i)
  {
    if Find(x, endThink, pos).Some? || HoldsBackInside(x, pos, endThink) {
      HeldBackGrows(x, pos, endThink);
    } else if i: nat :| Tempting(x, pos, endThink, i) {
      TemptedIsTakenBack(x, pos, endThink, i);
    } else {
      UntemptedGrows(x, pos, endThink);
    }
  }

  // The two tags

  /** The start tag ends as the closing tag begins, and that beginning is followed, in the closing tag,
      by another beginning of it that is not all spaces. */
  ghost predicate TagsClash(startThink: string, endThink: string) {
    exists a: nat, c: nat, n: nat :: Clashes(startThink, endThink, a, c, n)
  }

  ghost predicate Clashes(startThink: string, endThink: string, a: nat, c: nat, n: nat) {
    && 0 < a <= c && c + n <= |endThink|
    && EndsWith(startThink, endThink[..a])
    && OccursAt(endThink, endThink[..n], c) && !AllSpaces(endThink[..n])
  }

  /** Clashing tags: the reasoning that shows it is what follows the first beginning in the closing tag. */
  lemma ClashTakesBack(startThink: string, endThink: string, a: nat, c: nat, n: nat)
    requires Clashes(startThink, endThink, a, c, n)
    ensures !NeverTakenBack(startThink + endThink[a..c + n], |startThink|, endThink)
  {
    var p, r := |startThink|, endThink[a..c + n];
    var x := startThink + r;
    var j, i := p - a, p + c - a;
    assert x[j..] == endThink[..c + n];
    assert StopsAt(x, endThink, j);
    assert x[i..] == endThink[c..c + n] == endThink[..n];
    assert Tempting(x, p, endThink, i);
    assert Find(x, endThink, p).None?;
    TemptedIsTakenBack(x, p, endThink, i);
  }

  /** Reasoning that can be taken back shows a clash. */
  lemma TakenBackClashes(startThink: string, r: string, endThink: string, i: nat)
    requires var x := startThink + r;
      !HoldsBackInside(x, |startThink|, endThink) && Tempting(x, |startThink|, endThink, i)
    ensures TagsClash(startThink, endThink)
  {
    var x, p := startThink + r, |startThink|;
    var j := PartialStop(x, endThink).value;
    var a, c, n := p - j, i - j, |x| - i;
    EndingRepeats(x, endThink, j, i);
    assert startThink[j..] == x[j..][..a] == endThink[..a];
    assert Clashes(startThink, endThink, a, c, n);
  }

  /** Two endings that both begin a tag: the shorter one is in it twice. */
  lemma EndingRepeats(x: string, tag: string, j: nat, i: nat)
    requires j <= i && StopsAt(x, tag, j) && StopsAt(x, tag, i)
    ensures x[j..] == tag[..|x| - j] && x[i..] == tag[..|x| - i] && OccursAt(tag, x[i..], i - j)
  {
    assert x[i..] == x[j..][i - j..] == tag[i - j..|x| - j];
  }

  /** Behind a start tag, reasoning only grows, whatever it is, exactly when the tags do not clash. */
  lemma TaggedReasoningGrows(startThink: string, endThink: string)
    ensures (forall r: string :: NeverTakenBack(startThink + r, |startThink|, endThink))
      <==> !TagsClash(startThink, endThink)
  {
    if a: nat, c: nat, n: nat :| Clashes(startThink, endThink, a, c, n) {
      ClashTakesBack(startThink, endThink, a, c, n);
    }
    forall r: string | !NeverTakenBack(startThink + r, |startThink|, endThink) ensures TagsClash(startThink, endThink) {
      var x := startThink + r;
      ReasoningGrows(x, |startThink|, endThink);
      var i: nat :| Tempting(x, |startThink|, endThink, i);
      TakenBackClashes(startThink, r, endThink, i);
    }
  }

  /** With thinking forced open, reasoning starts at the beginning and nothing else is needed. */
  lemma ForcedOpenReasoningGrows(x: string, endThink: string)
    ensures NeverTakenBack(x, 0, endThink)
  {
    HeldBackGrows(x, 0, endThink);
  }

  lemma ClashRepeats(startThink: string, endThink: string, a: nat, c: nat, n: nat)
    requires Clashes(startThink, endThink, a, c, n)
    ensures 0 < c < |endThink| && endThink[c] == endThink[0]
  {
    assert endThink[c..c + n][0] == endThink[..n][0];
  }

  /** The usual tags do not clash, nor do tags that overlap in a character the closing tag has once. */
  lemma UsualTagsDoNotClash()
    ensures !TagsClash("<think>", "</think>") && !TagsClash("x<", "</t>")
  {
    forall s: string, e: string, a: nat, c: nat, n: nat | Clashes(s, e, a, c, n)
      ensures 0 < c < |e| && e[c] == e[0]
    {
      ClashRepeats(s, e, a, c, n);
    }
  }

  /** With overlapping tags reasoning can be taken back: the longest ending reaches into the start
      tag, so nothing is held back. */
  lemma OverlappingTagsTakeBack()
    ensures var start, end := "xa", "aab";
      Reasoning(start + "a", 2, true, end) == "a" && Reasoning(start + "aab", 2, false, end) == ""
  {
    var x, end := "xaa", "aab";
    assert x[1..] == "aa" && "aa" <= end;
    assert x[0] != end[0];
    assert StopsAt(x, end, 1) && !StopsAt(x, end, 0);
    assert PartialStop(x, end) == Some(1);
    assert Find(x, end, 2).None?;
    assert x[2..] == "a";
    assert "xa" + "a" == x;
    var z := "xaaab";
    assert z[2..5] == end && OccursAt(z, end, 2);
    assert Find(z, end, 2) == Some(2);
    assert "xa" + "aab" == z;
    assert z[2..2] == "";
  }
}
