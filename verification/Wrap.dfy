/** Breaking text into lines of limited length, as many words to a line as fit. */
module Wrap {
  import opened Text
  import opened CommonStrings

  // Words

  /** There is no space from p to q, and one at q. */
  predicate WordTo(s: string, p: nat, q: nat) {
    p <= q <= |s| && (q < |s| ==> IsCSpace(s[q])) && forall i :: p <= i < q ==> !IsCSpace(s[i])
  }

  lemma {:induction false} WordEnds(s: string, p: nat)
    requires p <= |s|
    ensures exists q: nat :: WordTo(s, p, q)
    decreases |s| - p
  {
    if p < |s| && !IsCSpace(s[p]) {
      WordEnds(s, p + 1);
      var q: nat :| WordTo(s, p + 1, q);
      assert WordTo(s, p, q);
    } else {
      assert WordTo(s, p, p);
    }
  }

  function WordEnd(s: string, p: nat): (q: nat)
    requires p <= |s|
    ensures p <= q <= |s| && (q < |s| ==> IsCSpace(s[q])) && forall i :: p <= i < q ==> !IsCSpace(s[i])
  {
    WordEnds(s, p);
    var q: nat :| WordTo(s, p, q);
    q
  }

  /** The words from p on: the longest stretches without a space. */
  function WordsFrom(s: string, p: nat): seq<string>
    requires p <= |s|
    decreases |s| - p
  {
    var a := SkipSpaces(s, p);
    if a == |s| then [] else [s[a..WordEnd(s, a)]] + WordsFrom(s, WordEnd(s, a))
  }

  predicate IsWord(w: string) { w != [] && forall i :: 0 <= i < |w| ==> !IsCSpace(w[i]) }

  predicate AllWords(ws: seq<string>) { forall i :: 0 <= i < |ws| ==> IsWord(ws[i]) }

  lemma {:induction false} WordsAreWords(s: string, p: nat)
    requires p <= |s|
    ensures AllWords(WordsFrom(s, p))
    decreases |s| - p
  {
    var a := SkipSpaces(s, p);
    if a < |s| { WordsAreWords(s, WordEnd(s, a)); }
  }

  lemma WordEndIs(s: string, p: nat, q: nat)
    requires WordTo(s, p, q)
    ensures WordEnd(s, p) == q
  {
  }

  /** The first word, and the ones behind it. */
  lemma WordAt(s: string, p: nat, a: nat, b: nat)
    requires SpacesTo(s, p, a) && a < |s| && WordTo(s, a, b)
    ensures a < b && WordsFrom(s, p) == [s[a..b]] + WordsFrom(s, b)
  {
    SkipIs(s, p, a);
    WordEndIs(s, a, b);
  }

  lemma OneWord(s: string, p: nat, e: nat, w: string)
    requires p <= e <= |s| && s[p..e] == w && IsWord(w) && (e < |s| ==> IsCSpace(s[e]))
    ensures WordsFrom(s, p) == [w] + WordsFrom(s, e)
  {
    assert forall i :: p <= i < e ==> s[i] == w[i - p];
    WordAt(s, p, p, e);
  }

  lemma OneSpace(s: string, p: nat)
    requires p < |s| && IsCSpace(s[p])
    ensures WordsFrom(s, p) == WordsFrom(s, p + 1)
  {
  }

  lemma Sliced(pre: string, w: string, rest: string)
    ensures (pre + (w + rest))[|pre|..|pre| + |w|] == w
    ensures |pre + (w + rest)| == |pre| + |w| + |rest|
    ensures rest != [] ==> (pre + (w + rest))[|pre| + |w|] == rest[0]
  {
  }

  /** Words with a space between them are read back as they were. */
  lemma {:induction false} WordsOfJoined(pre: string, ws: seq<string>)
    requires AllWords(ws)
    ensures WordsFrom(pre + Join(ws, " "), |pre|) == ws
    decreases |ws|
  {
    if |ws| == 1 {
      var s := pre + Join(ws, " ");
      Sliced(pre, ws[0], "");
      assert s == pre + (ws[0] + "");
      OneWord(s, |pre|, |s|, ws[0]);
    } else if |ws| > 1 {
      ManyJoined(pre, ws, Join(ws[1..], " "));
    }
  }

  lemma JoinedText(pre: string, ws: seq<string>, rest: string)
    requires |ws| > 1 && rest == Join(ws[1..], " ")
    ensures pre + Join(ws, " ") == (pre + ws[0] + " ") + rest == pre + (ws[0] + (" " + rest))
  {
    Reassociate(pre, ws[0], " ", rest);
  }

  lemma {:induction false} ManyJoined(pre: string, ws: seq<string>, rest: string)
    requires AllWords(ws) && |ws| > 1 && rest == Join(ws[1..], " ")
    ensures WordsFrom(pre + Join(ws, " "), |pre|) == ws
    decreases |ws|, 0
  {
    JoinedText(pre, ws, rest);
    FirstOfJoined(pre + Join(ws, " "), pre, ws[0], rest);
    WordsOfJoined(pre + ws[0] + " ", ws[1..]);
    assert ws == [ws[0]] + ws[1..];
  }

  lemma JoinedAt(s: string, pre: string, w: string, rest: string)
    requires s == pre + (w + (" " + rest))
    ensures s == (pre + w + " ") + rest && |pre + w + " "| == |pre| + |w| + 1 && |pre| + |w| < |s|
    ensures s[|pre|..|pre| + |w|] == w && s[|pre| + |w|] == ' '
  {
    Reassociate(pre, w, " ", rest);
    Sliced(pre, w, " " + rest);
  }

  lemma FirstOfJoined(s: string, pre: string, w: string, rest: string)
    requires IsWord(w) && s == pre + (w + (" " + rest))
    ensures s == (pre + w + " ") + rest && WordsFrom(s, |pre|) == [w] + WordsFrom(s, |pre + w + " "|)
  {
    JoinedAt(s, pre, w, rest);
    WordAndBlank(s, |pre|, w);
  }

  lemma WordAndBlank(s: string, p: nat, w: string)
    requires p + |w| < |s| && s[p..p + |w|] == w && IsWord(w) && s[p + |w|] == ' '
    ensures WordsFrom(s, p) == [w] + WordsFrom(s, p + |w| + 1)
  {
    OneWord(s, p, p + |w|, w);
    OneSpace(s, p + |w|);
  }

  lemma Reassociate(a: string, b: string, c: string, d: string)
    ensures a + (b + c + d) == (a + b + c) + d == a + (b + (c + d))
  {
  }

  // Filling lines

  /** The length of words k to e on one line. */
  function Width(words: seq<string>, k: nat, e: nat): nat
    requires k <= e <= |words|
  {
    |Join(words[k..e], " ")|
  }

  lemma WidthSnoc(words: seq<string>, k: nat, e: nat)
    requires k < e < |words|
    ensures Width(words, k, e + 1) == Width(words, k, e) + 1 + |words[e]|
  {
    assert words[k..e + 1] == words[k..e] + [words[e]];
    JoinSnoc(words[k..e], words[e], " ");
  }

  /** Fewer words are no wider. */
  lemma {:induction false} WidthMonotone(words: seq<string>, k: nat, j: nat, d: nat, e: nat)
    requires k <= j < d <= e <= |words|
    ensures Width(words, j, d) <= Width(words, k, e)
    decreases e - d + j - k
  {
    if d < e {
      WidthMonotone(words, k, j, d, e - 1);
      WidthSnoc(words, k, e - 1);
    } else if k < j {
      WidthMonotone(words, k + 1, j, d, e);
      assert words[k..e][1..] == words[k + 1..e];
    }
  }

  predicate Fits(words: seq<string>, k: nat, e: nat, max: nat)
    requires k <= e <= |words|
  {
    k < e && (e == k + 1 || Width(words, k, e) <= max)
  }

  /** Where the line that holds words k to i ends. */
  function Extend(words: seq<string>, k: nat, i: nat, max: nat): (e: nat)
    requires k < i <= |words|
    ensures i <= e <= |words|
    decreases |words| - i
  {
    if i < |words| && Width(words, k, i) + 1 + |words[i]| <= max then Extend(words, k, i + 1, max) else i
  }

  function Next(words: seq<string>, k: nat, max: nat): (e: nat)
    requires k < |words|
    ensures k < e <= |words|
  {
    Extend(words, k, k + 1, max)
  }

  /** The words from k on, line by line. */
  function Groups(words: seq<string>, k: nat, max: nat): seq<seq<string>>
    requires k <= |words|
    decreases |words| - k
  {
    if k == |words| then []
    else [words[k..Next(words, k, max)]] + Groups(words, Next(words, k, max), max)
  }

  function JoinEach(groups: seq<seq<string>>): seq<string> {
    if groups == [] then [] else [Join(groups[0], " ")] + JoinEach(groups[1..])
  }

  function Wrapped(line: string, max: nat): seq<string> {
    if |line| <= max then [line] else JoinEach(Groups(WordsFrom(line, 0), 0, max))
  }

  lemma {:induction false} ExtendFits(words: seq<string>, k: nat, i: nat, max: nat)
    requires k < i <= |words| && Fits(words, k, i, max)
    ensures Fits(words, k, Extend(words, k, i, max), max)
    ensures var e := Extend(words, k, i, max); e < |words| ==> !Fits(words, k, e + 1, max)
    decreases |words| - i
  {
    if i < |words| {
      WidthSnoc(words, k, i);
      if Width(words, k, i) + 1 + |words[i]| <= max { ExtendFits(words, k, i + 1, max); }
    }
  }

  lemma NextIsLargest(words: seq<string>, k: nat, e: nat, max: nat)
    requires k < e <= |words|
    ensures Fits(words, k, e, max) ==> e <= Next(words, k, max)
    ensures Fits(words, k, Next(words, k, max), max)
  {
    ExtendFits(words, k, k + 1, max);
    var n := Next(words, k, max);
    if n < e { WidthMonotone(words, k, k, n + 1, e); }
  }

  lemma NextMonotone(words: seq<string>, k: nat, j: nat, max: nat)
    requires k <= j < |words|
    ensures Next(words, k, max) <= Next(words, j, max)
  {
    var e := Next(words, k, max);
    NextIsLargest(words, k, e, max);
    if e > j + 1 {
      WidthMonotone(words, k, j, e, e);
      NextIsLargest(words, j, e, max);
    }
  }

  lemma {:induction false} CountMonotone(words: seq<string>, k: nat, j: nat, max: nat)
    requires k <= j <= |words|
    ensures |Groups(words, j, max)| <= |Groups(words, k, max)|
    decreases |words| - k
  {
    if j < |words| {
      NextMonotone(words, k, j, max);
      CountMonotone(words, Next(words, k, max), Next(words, j, max), max);
    }
  }

  // What the lines hold

  function Flat(groups: seq<seq<string>>): seq<string> {
    if groups == [] then [] else groups[0] + Flat(groups[1..])
  }

  /** One word, or words that fit together. */
  predicate GroupOk(group: seq<string>, max: nat) {
    group != [] && (|group| == 1 || |Join(group, " ")| <= max)
  }

  predicate GroupsOk(groups: seq<seq<string>>, max: nat) {
    forall i :: 0 <= i < |groups| ==> GroupOk(groups[i], max)
  }

  /** The lines hold the words in order, and each is within the limit or a single word. */
  lemma {:induction false} GroupsKeepWords(words: seq<string>, k: nat, max: nat)
    requires k <= |words|
    ensures Flat(Groups(words, k, max)) == words[k..]
    ensures GroupsOk(Groups(words, k, max), max)
    decreases |words| - k
  {
    if k < |words| {
      var e := Next(words, k, max);
      NextIsLargest(words, k, e, max);
      GroupsKeepWords(words, e, max);
      var g := Groups(words, k, max);
      assert g[1..] == Groups(words, e, max);
      assert words[k..] == words[k..e] + words[e..];
    }
  }

  /** No other way to put the words on such lines, in order, takes fewer lines. */
  lemma {:induction false} FewestLines(words: seq<string>, k: nat, max: nat, other: seq<seq<string>>)
    requires k <= |words| && Flat(other) == words[k..] && GroupsOk(other, max)
    ensures |Groups(words, k, max)| <= |other|
    decreases |words| - k
  {
    if k < |words| {
      assert other != [];
      var first := other[0];
      var j := k + |first|;
      assert words[k..][..|first|] == first;
      assert words[k..j] == first && words[j..] == words[k..][|first|..] == Flat(other[1..]);
      NextIsLargest(words, k, j, max);
      FewestLines(words, j, max, other[1..]);
      CountMonotone(words, j, Next(words, k, max), max);
    }
  }

  lemma {:induction false} JoinEachAt(groups: seq<seq<string>>)
    ensures |JoinEach(groups)| == |groups|
    ensures forall i :: 0 <= i < |groups| ==> JoinEach(groups)[i] == Join(groups[i], " ")
  {
    if groups != [] { JoinEachAt(groups[1..]); }
  }

  /** The words of all the lines, read back from the lines themselves. */
  function WordsOfLines(lines: seq<string>): seq<string> {
    if lines == [] then [] else WordsFrom(lines[0], 0) + WordsOfLines(lines[1..])
  }

  lemma {:induction false} WordsOfJoinEach(groups: seq<seq<string>>)
    requires AllWords(Flat(groups))
    ensures WordsOfLines(JoinEach(groups)) == Flat(groups)
  {
    if groups != [] {
      var first, rest := groups[0], Flat(groups[1..]);
      assert forall i :: 0 <= i < |first| ==> first[i] == (first + rest)[i];
      assert forall i :: 0 <= i < |rest| ==> rest[i] == (first + rest)[|first| + i];
      WordsOfJoined("", first);
      assert "" + Join(first, " ") == Join(first, " ");
      WordsOfJoinEach(groups[1..]);
      assert JoinEach(groups)[1..] == JoinEach(groups[1..]);
    }
  }

  /** A line over the limit keeps its words; each line made of it is within the limit or one word. */
  lemma WrappedKeepsWords(line: string, max: nat)
    ensures WordsOfLines(Wrapped(line, max)) == WordsFrom(line, 0)
    ensures forall i :: 0 <= i < |Wrapped(line, max)| ==>
              |Wrapped(line, max)[i]| <= max || |WordsFrom(Wrapped(line, max)[i], 0)| == 1
  {
    var words := WordsFrom(line, 0);
    var groups := Groups(words, 0, max);
    WordsAreWords(line, 0);
    if |line| <= max {
      assert [line][1..] == [] && words + [] == words;
    } else {
      GroupsKeepWords(words, 0, max);
      assert words[0..] == words;
      WordsOfJoinEach(groups);
      JoinEachAt(groups);
      forall i | 0 <= i < |groups| ensures |Join(groups[i], " ")| <= max || |WordsFrom(Join(groups[i], " "), 0)| == 1 {
        if |groups[i]| == 1 { OneWordLine(words, groups, i, max); }
      }
    }
  }

  lemma {:induction false} GroupWords(groups: seq<seq<string>>, i: nat)
    requires i < |groups| && AllWords(Flat(groups))
    ensures AllWords(groups[i])
  {
    var first, rest := groups[0], Flat(groups[1..]);
    assert forall i :: 0 <= i < |first| ==> first[i] == (first + rest)[i];
    assert forall i :: 0 <= i < |rest| ==> rest[i] == (first + rest)[|first| + i];
    if i > 0 { GroupWords(groups[1..], i - 1); }
  }

  lemma OneWordLine(words: seq<string>, groups: seq<seq<string>>, i: nat, max: nat)
    requires AllWords(words) && Flat(groups) == words && i < |groups| && |groups[i]| == 1
    ensures |WordsFrom(Join(groups[i], " "), 0)| == 1
  {
    GroupWords(groups, i);
    WordsOfJoined("", groups[i]);
    assert "" + Join(groups[i], " ") == Join(groups[i], " ");
  }

  /** Wrapping takes no more lines than any other way to put the same words on such lines. */
  lemma WrappedIsShortest(line: string, max: nat, other: seq<seq<string>>)
    requires |line| > max && Flat(other) == WordsFrom(line, 0) && GroupsOk(other, max)
    ensures |Wrapped(line, max)| <= |other|
  {
    var words := WordsFrom(line, 0);
    assert words[0..] == words;
    FewestLines(words, 0, max, other);
    JoinEachAt(Groups(words, 0, max));
  }

  // The program

  /** What std::getline gives one after the other: no last empty line. */
  function LinesFrom(s: string, p: nat): seq<string>
    requires p <= |s|
    decreases |s| - p
  {
    var end := Find(s, "\n", p);
    if p == |s| then []
    else if end.None? then [s[p..]]
    else [s[p..end.value]] + LinesFrom(s, end.value + 1)
  }

  function WrappedAll(lines: seq<string>, max: nat): seq<string> {
    if lines == [] then [] else Wrapped(lines[0], max) + WrappedAll(lines[1..], max)
  }

  /** The loop over the words from i on, with `current` on the line. */
  function Filled(words: seq<string>, i: nat, current: string, max: nat): seq<string>
    requires i <= |words|
    decreases |words| - i
  {
    if i == |words| then (if current != "" then [current] else [])
    else if |current| + (if current != "" then 1 else 0) + |words[i]| > max then
      (if current != "" then [current] else []) + Filled(words, i + 1, words[i], max)
    else Filled(words, i + 1, current + (if current != "" then " " else "") + words[i], max)
  }

  /** The line that holds words k to i, filled up, and the lines after it. */
  function Pending(words: seq<string>, k: nat, i: nat, max: nat): seq<string>
    requires k < i <= |words|
  {
    [Join(words[k..Extend(words, k, i, max)], " ")] + JoinEach(Groups(words, Extend(words, k, i, max), max))
  }

  lemma JoinEachGroups(words: seq<string>, k: nat, max: nat)
    requires k < |words|
    ensures JoinEach(Groups(words, k, max)) == Pending(words, k, k + 1, max)
  {
    var g := Groups(words, k, max);
    assert g[1..] == Groups(words, Next(words, k, max), max);
  }

  lemma JoinNotEmpty(words: seq<string>, k: nat, i: nat)
    requires k < i <= |words| && AllWords(words)
    ensures Join(words[k..i], " ") != ""
    ensures i < |words| ==> Join(words[k..i + 1], " ") == Join(words[k..i], " ") + " " + words[i]
    ensures Join([words[k]], " ") == words[k] && words[k..k + 1] == [words[k]]
  {
    assert words[k..i][0] == words[k];
    if i < |words| {
      assert words[k..i + 1] == words[k..i] + [words[i]];
      JoinSnoc(words[k..i], words[i], " ");
    }
  }

  /** One step of the loop with a word already on the line. */
  lemma FilledStep(words: seq<string>, k: nat, i: nat, max: nat)
    requires k < i < |words| && AllWords(words)
    ensures var line := Join(words[k..i], " ");
      Filled(words, i, line, max)
       == if Width(words, k, i) + 1 + |words[i]| > max
          then [line] + Filled(words, i + 1, Join(words[i..i + 1], " "), max)
          else Filled(words, i + 1, Join(words[k..i + 1], " "), max)
  {
    JoinNotEmpty(words, k, i);
    JoinNotEmpty(words, i, i + 1);
  }

  lemma FilledLast(words: seq<string>, k: nat, max: nat)
    requires k < |words| && AllWords(words)
    ensures Filled(words, |words|, Join(words[k..|words|], " "), max) == Pending(words, k, |words|, max)
  {
    JoinNotEmpty(words, k, |words|);
    assert JoinEach(Groups(words, |words|, max)) == [];
  }

  lemma {:induction false} FilledIsPending(words: seq<string>, k: nat, i: nat, max: nat)
    requires k < i <= |words| && AllWords(words)
    ensures Filled(words, i, Join(words[k..i], " "), max) == Pending(words, k, i, max)
    decreases |words| - i
  {
    if i == |words| {
      FilledLast(words, k, max);
    } else {
      FilledStep(words, k, i, max);
      if Width(words, k, i) + 1 + |words[i]| > max {
        FilledIsPending(words, i, i + 1, max);
        JoinEachGroups(words, i, max);
      } else {
        FilledIsPending(words, k, i + 1, max);
      }
    }
  }

  /** The loop puts as many words on each line as fit. */
  lemma FilledIsGreedy(words: seq<string>, max: nat)
    requires AllWords(words)
    ensures Filled(words, 0, "", max) == JoinEach(Groups(words, 0, max))
  {
    if words != [] {
      JoinNotEmpty(words, 0, 1);
      FilledIsPending(words, 0, 1, max);
      JoinEachGroups(words, 0, max);
      assert "" + "" + words[0] == words[0];
    }
  }

  method AddLine(result: seq<string>, l: string, max: nat) returns (r: seq<string>)
    ensures r == result + Wrapped(l, max)
  {
    if |l| <= max {
      return result + [l];
    }
    r := result;
    var current := "";
    var p := 0;
    ghost var words := WordsFrom(l, 0);
    ghost var i := 0;
    WordsAreWords(l, 0);
    FilledIsGreedy(words, max);
    while SkipSpaces(l, p) < |l|
      invariant p <= |l| && i <= |words| && WordsFrom(l, p) == words[i..]
      invariant r + Filled(words, i, current, max) == result + Filled(words, 0, "", max)
      decreases |l| - p
    {
      p := SkipSpaces(l, p);
      var e := WordEnd(l, p);
      var word := l[p..e];
      p := e;
      assert word == words[i..][0] == words[i] && words[i..][1..] == words[i + 1..];
      if |current| + (if current != "" then 1 else 0) + |word| > max {
        PushCurrent(r, if current != "" then [current] else [], Filled(words, i + 1, word, max));
        if current != "" {
          r := r + [current];
        }
        current := word;
      } else {
        current := current + (if current != "" then " " else "") + word;
      }
      i := i + 1;
    }
    assert words[i..] == [];
    if current != "" {
      r := r + [current];
    }
  }

  lemma PushCurrent(r: seq<string>, current: seq<string>, rest: seq<string>)
    ensures r + (current + rest) == (r + current) + rest && r + [] == r
  {
  }

  lemma FirstLine(s: string, p: nat, line: string, next: nat)
    requires p < |s|
    requires line == if Find(s, "\n", p).None? then s[p..] else s[p..Find(s, "\n", p).value]
    requires next == if Find(s, "\n", p).None? then |s| else Find(s, "\n", p).value + 1
    ensures p < next <= |s| && LinesFrom(s, p) == [line] + LinesFrom(s, next)
  {
    if Find(s, "\n", p).None? { assert LinesFrom(s, next) == []; }
  }

  lemma WrappedFirst(line: string, lines: seq<string>, max: nat)
    ensures WrappedAll([line] + lines, max) == Wrapped(line, max) + WrappedAll(lines, max)
  {
    assert ([line] + lines)[1..] == lines;
  }

  method BreakStrIntoLines(input: string, max: nat) returns (result: seq<string>)
    ensures result == WrappedAll(LinesFrom(input, 0), max)
  {
    result := [];
    var p := 0;
    ghost var target := WrappedAll(LinesFrom(input, 0), max);
    while p < |input|
      invariant p <= |input|
      invariant result + WrappedAll(LinesFrom(input, p), max) == target
      decreases |input| - p
    {
      var end := Find(input, "\n", p);
      var line := if end.None? then input[p..] else input[p..end.value];
      var next := if end.None? then |input| else end.value + 1;
      FirstLine(input, p, line, next);
      WrappedFirst(line, LinesFrom(input, next), max);
      PushLines(result, Wrapped(line, max), WrappedAll(LinesFrom(input, next), max));
      result := AddLine(result, line, max);
      p := next;
    }
  }

  lemma PushLines(a: seq<string>, b: seq<string>, c: seq<string>)
    ensures a + (b + c) == a + b + c
  {
  }

  /** Every line given back is within the limit or a single word. */
  lemma {:induction false} LinesWithinLimit(lines: seq<string>, max: nat, i: nat)
    requires i < |WrappedAll(lines, max)|
    ensures |WrappedAll(lines, max)[i]| <= max || |WordsFrom(WrappedAll(lines, max)[i], 0)| == 1
  {
    var first := Wrapped(lines[0], max);
    WrappedKeepsWords(lines[0], max);
    if i >= |first| { LinesWithinLimit(lines[1..], max, i - |first|); }
  }

  // The whole text

  /** The lines, each with its line end. */
  function Ended(lines: seq<string>): string { if lines == [] then "" else lines[0] + "\n" + Ended(lines[1..]) }

  /** The lines are the text cut at its line ends, the last one of which may be missing. */
  lemma {:induction false} LinesAre(s: string, p: nat)
    requires p <= |s|
    ensures Ended(LinesFrom(s, p)) == s[p..] + if p < |s| && s[|s| - 1] != '\n' then "\n" else ""
    ensures forall i :: 0 <= i < |LinesFrom(s, p)| ==> '\n' !in LinesFrom(s, p)[i]
    decreases |s| - p
  {
    if p < |s| {
      var end := Find(s, "\n", p);
      NoLineEnd(s, p);
      if end.Some? {
        LinesAre(s, end.value + 1);
        CutAtLineEnd(s, p, end.value);
      } else {
        assert LinesFrom(s, p) == [s[p..]] && [s[p..]][1..] == [];
        assert s[p..][|s| - p - 1] == s[|s| - 1];
      }
    } else {
      assert s[p..] == "";
    }
  }

  lemma NoLineEnd(s: string, p: nat)
    requires p < |s|
    ensures var end := Find(s, "\n", p);
      '\n' !in s[p..if end.Some? then end.value else |s|] && (end.Some? ==> s[end.value] == '\n')
      && (end.None? ==> s[p..] == s[p..|s|])
  {
    var end := Find(s, "\n", p);
    var e := if end.Some? then end.value else |s|;
    forall i | p <= i < e ensures s[i] != '\n' {
      if s[i] == '\n' { assert s[i..i + 1] == "\n" && OccursAt(s, "\n", i); }
    }
    forall i | 0 <= i < |s[p..e]| ensures s[p..e][i] != '\n' { assert s[p..e][i] == s[p + i]; }
    if end.Some? { assert s[e..e + 1][0] == s[e]; }
  }

  lemma CutAtLineEnd(s: string, p: nat, e: nat)
    requires p <= e < |s| && s[e] == '\n'
    ensures s[p..e] + "\n" + s[e + 1..] == s[p..]
    ensures e + 1 == |s| ==> s[|s| - 1] == '\n'
  {
  }

  /** Spaces and words of a stretch are where they are in the text. */
  lemma StretchSpaces(s: string, w: string, p: nat, e: nat, k: nat, a: nat)
    requires p + k <= e <= |s| && w == s[p..e] && SpacesTo(w, k, a) && a < |w|
    ensures SpacesTo(s, p + k, p + a)
  {
    forall i | p + k <= i < p + a ensures IsCSpace(s[i]) { assert s[i] == w[i - p]; }
    assert s[p + a] == w[a];
  }

  lemma StretchWord(s: string, w: string, p: nat, e: nat, a: nat, b: nat)
    requires p + a < e <= |s| && w == s[p..e] && (e < |s| ==> IsCSpace(s[e])) && WordTo(w, a, b)
    ensures WordTo(s, p + a, p + b) && s[p + a..p + b] == w[a..b]
  {
    forall i | p + a <= i < p + b ensures !IsCSpace(s[i]) { assert s[i] == w[i - p]; }
    if b < |w| { assert s[p + b] == w[b]; }
    SliceOfSlice(s, w, p, e, a, b);
  }

  lemma SliceOfSlice(s: string, w: string, p: nat, e: nat, a: nat, b: nat)
    requires p <= e <= |s| && w == s[p..e] && a <= b <= |w|
    ensures s[p + a..p + b] == w[a..b]
  {
    forall i | 0 <= i < b - a ensures s[p + a..p + b][i] == w[a..b][i] { assert w[a + i] == s[p + a + i]; }
  }

  /** Spaces up to a position make no difference. */
  lemma SpacesSkipped(s: string, p: nat, e: nat)
    requires p <= e <= |s| && forall i :: p <= i < e ==> IsCSpace(s[i])
    ensures WordsFrom(s, p) == WordsFrom(s, e)
  {
    SkipIs(s, p, SkipSpaces(s, e));
  }

  /** The words of a stretch that ends at a space or at the end, and those behind it. */
  lemma {:induction false} StretchWords(s: string, w: string, p: nat, e: nat, k: nat)
    requires p + k <= e <= |s| && w == s[p..e] && (e < |s| ==> IsCSpace(s[e]))
    ensures WordsFrom(s, p + k) == WordsFrom(w, k) + WordsFrom(s, e)
    decreases e - p - k
  {
    var a := SkipSpaces(w, k);
    if a == |w| {
      NoWordStretch(s, w, p, e, k);
    } else {
      var b := WordEnd(w, a);
      assert a < b;
      StretchWords(s, w, p, e, b);
      NextWordStretch(s, w, p, e, k, a, b);
    }
  }

  lemma NoWordStretch(s: string, w: string, p: nat, e: nat, k: nat)
    requires p + k <= e <= |s| && w == s[p..e] && SpacesTo(w, k, |w|)
    ensures WordsFrom(s, p + k) == WordsFrom(w, k) + WordsFrom(s, e)
  {
    forall i | p + k <= i < e ensures IsCSpace(s[i]) { assert s[i] == w[i - p]; }
    SpacesSkipped(s, p + k, e);
    SkipIs(w, k, |w|);
  }

  lemma NextWordStretch(s: string, w: string, p: nat, e: nat, k: nat, a: nat, b: nat)
    requires p + k <= e <= |s| && w == s[p..e] && (e < |s| ==> IsCSpace(s[e]))
    requires SpacesTo(w, k, a) && a < |w| && WordTo(w, a, b)
    requires WordsFrom(s, p + b) == WordsFrom(w, b) + WordsFrom(s, e)
    ensures WordsFrom(s, p + k) == WordsFrom(w, k) + WordsFrom(s, e)
  {
    NextInText(s, w, p, e, k, a, b);
    WordAt(w, k, a, b);
    OneMoreWord(w[a..b], WordsFrom(w, k), WordsFrom(s, p + k), WordsFrom(w, b), WordsFrom(s, p + b), WordsFrom(s, e));
  }

  lemma NextInText(s: string, w: string, p: nat, e: nat, k: nat, a: nat, b: nat)
    requires p + k <= e <= |s| && w == s[p..e] && (e < |s| ==> IsCSpace(s[e]))
    requires SpacesTo(w, k, a) && a < |w| && WordTo(w, a, b)
    ensures WordsFrom(s, p + k) == [w[a..b]] + WordsFrom(s, p + b)
  {
    StretchSpaces(s, w, p, e, k, a);
    StretchWord(s, w, p, e, a, b);
    WordAt(s, p + k, p + a, p + b);
  }

  lemma OneMoreWord(word: string, all: seq<string>, long: seq<string>, rest: seq<string>, more: seq<string>,
                    behind: seq<string>)
    requires all == [word] + rest && long == [word] + more && more == rest + behind
    ensures long == all + behind
  {
  }

  lemma {:induction false} LinesHoldWords(s: string, p: nat)
    requires p <= |s|
    ensures WordsOfLines(LinesFrom(s, p)) == WordsFrom(s, p)
    decreases |s| - p
  {
    if p == |s| {
      NoWords(s);
    } else if Find(s, "\n", p).Some? {
      NoLineEnd(s, p);
      LinesHoldWords(s, Find(s, "\n", p).value + 1);
      NextLineWords(s, p);
    } else {
      LinesCut(s, p);
      LastLineWords(s, p);
    }
  }

  lemma NextLineWords(s: string, p: nat)
    requires p < |s| && Find(s, "\n", p).Some? && Find(s, "\n", p).value < |s|
    requires var e := Find(s, "\n", p).value; WordsOfLines(LinesFrom(s, e + 1)) == WordsFrom(s, e + 1)
    ensures WordsOfLines(LinesFrom(s, p)) == WordsFrom(s, p)
  {
    LinesCut(s, p);
    NoLineEnd(s, p);
    FirstLineWords(s, p, Find(s, "\n", p).value, LinesFrom(s, Find(s, "\n", p).value + 1));
  }

  lemma LinesCut(s: string, p: nat)
    requires p < |s|
    ensures var end := Find(s, "\n", p);
      if end.None? then LinesFrom(s, p) == [s[p..]]
      else p <= end.value < |s| && LinesFrom(s, p) == [s[p..end.value]] + LinesFrom(s, end.value + 1)
  {
  }

  lemma FirstLineWords(s: string, p: nat, e: nat, lines: seq<string>)
    requires p <= e < |s| && s[e] == '\n' && WordsOfLines(lines) == WordsFrom(s, e + 1)
    ensures WordsOfLines([s[p..e]] + lines) == WordsFrom(s, p)
  {
    StretchWords(s, s[p..e], p, e, 0);
    OneSpace(s, e);
    FirstWords(s[p..e], lines, [s[p..e]] + lines);
  }

  lemma LastLineWords(s: string, p: nat)
    requires p < |s|
    ensures WordsOfLines([s[p..]]) == WordsFrom(s, p)
  {
    StretchWords(s, s[p..|s|], p, |s|, 0);
    NoWords(s);
    assert s[p..] == s[p..|s|] && [s[p..]][1..] == [];
  }

  lemma FirstWords(line: string, lines: seq<string>, all: seq<string>)
    requires all == [line] + lines
    ensures WordsOfLines(all) == WordsFrom(line, 0) + WordsOfLines(lines)
  {
    assert all[1..] == lines;
  }

  lemma NoWords(s: string)
    ensures WordsFrom(s, |s|) == []
  {
  }

  lemma {:induction false} WordsOfLinesConcat(a: seq<string>, b: seq<string>)
    ensures WordsOfLines(a + b) == WordsOfLines(a) + WordsOfLines(b)
  {
    if a == [] {
      assert a + b == b;
    } else {
      assert (a + b)[1..] == a[1..] + b;
      WordsOfLinesConcat(a[1..], b);
    }
  }

  lemma {:induction false} AllKeepWords(lines: seq<string>, max: nat)
    ensures WordsOfLines(WrappedAll(lines, max)) == WordsOfLines(lines)
  {
    if lines != [] {
      WrappedKeepsWords(lines[0], max);
      AllKeepWords(lines[1..], max);
      WordsOfLinesConcat(Wrapped(lines[0], max), WrappedAll(lines[1..], max));
    }
  }

  /** The whole of it: the words of the text, in order, are the words of the lines given back. */
  lemma TextKeepsWords(input: string, max: nat)
    ensures WordsOfLines(WrappedAll(LinesFrom(input, 0), max)) == WordsFrom(input, 0)
  {
    AllKeepWords(LinesFrom(input, 0), max);
    LinesHoldWords(input, 0);
  }

  /** Lines within the limit are given back as they are, blanks and all. */
  lemma {:induction false} ShortLinesStay(lines: seq<string>, max: nat)
    requires forall i :: 0 <= i < |lines| ==> |lines[i]| <= max
    ensures WrappedAll(lines, max) == lines
  {
    if lines != [] {
      ShortLinesStay(lines[1..], max);
      assert lines == [lines[0]] + lines[1..];
    }
  }
}
