/** The string helpers of the common library: strip, partial stops, split, join, replace. */
module CommonStrings {
  import opened Text

  // Strip

  function StripLeft(s: string): string {
    if s != [] && IsCSpace(s[0]) then StripLeft(s[1..]) else s
  }

  function StripRight(s: string): string {
    if s != [] && IsCSpace(s[|s| - 1]) then StripRight(s[..|s| - 1]) else s
  }

  function Strip(s: string): string { StripRight(StripLeft(s)) }

  lemma LeftSpaceGoes(s: string, a: nat)
    requires a < |s| && IsCSpace(s[a])
    ensures StripLeft(s[a..]) == StripLeft(s[a + 1..])
  {
    assert s[a..][1..] == s[a + 1..];
  }

  lemma RightSpaceGoes(s: string, a: nat, b: nat)
    requires a < b <= |s| && IsCSpace(s[b - 1])
    ensures StripRight(s[a..b]) == StripRight(s[a..b - 1])
  {
    assert s[a..b][..b - a - 1] == s[a..b - 1];
  }

  method StringStrip(s: string) returns (r: string)
    ensures r == Strip(s)
  {
    var start, end := 0, |s|;
    assert s[0..] == s;
    while start < end && IsCSpace(s[start])
      invariant 0 <= start <= end == |s| && StripLeft(s[start..]) == StripLeft(s)
    {
      LeftSpaceGoes(s, start);
      start := start + 1;
    }
    assert s[start..] == StripLeft(s);
    assert s[start..end] == s[start..];
    while end > start && IsCSpace(s[end - 1])
      invariant start <= end <= |s| && StripRight(s[start..end]) == Strip(s)
    {
      RightSpaceGoes(s, start, end);
      end := end - 1;
    }
    r := s[start..end];
  }

  lemma {:induction false} StripLeftPrefix(a: string, b: string)
    ensures StripLeft(a) != [] ==> StripLeft(a + b) == StripLeft(a) + b
    ensures StripLeft(a) == [] ==> StripLeft(a + b) == StripLeft(b)
  {
    if a == [] {
      assert a + b == b;
    } else if IsCSpace(a[0]) {
      assert (a + b)[1..] == a[1..] + b;
      StripLeftPrefix(a[1..], b);
    }
  }

  lemma {:induction false} StripRightPrefix(a: string, b: string)
    ensures StripRight(a) <= StripRight(a + b)
  {
    if b == [] {
      assert a + b == a;
    } else {
      var n := |b| - 1;
      assert (a + b)[..|a + b| - 1] == a + b[..n];
      StripRightPrefix(a, b[..n]);
      StripRightIsPrefix(a + b);
      if !IsCSpace(b[n]) { StripRightIsPrefix(a); }
    }
  }

  lemma {:induction false} StripRightIsPrefix(s: string)
    ensures StripRight(s) <= s
  {
    if s != [] && IsCSpace(s[|s| - 1]) { StripRightIsPrefix(s[..|s| - 1]); }
  }

  predicate AllSpaces(s: string) { forall i :: 0 <= i < |s| ==> IsCSpace(s[i]) }

  lemma {:induction false} StripLeftIs(s: string) returns (a: string)
    ensures s == a + StripLeft(s) && AllSpaces(a)
    ensures StripLeft(s) != [] ==> !IsCSpace(StripLeft(s)[0])
  {
    a := [];
    if s != [] && IsCSpace(s[0]) {
      a := StripLeftIs(s[1..]);
      a := [s[0]] + a;
    }
  }

  lemma {:induction false} StripRightIs(s: string) returns (b: string)
    ensures s == StripRight(s) + b && AllSpaces(b)
    ensures StripRight(s) != [] ==> !IsCSpace(StripRight(s)[|StripRight(s)| - 1]) && StripRight(s)[0] == s[0]
  {
    b := [];
    if s != [] && IsCSpace(s[|s| - 1]) {
      b := StripRightIs(s[..|s| - 1]);
      b := b + [s[|s| - 1]];
    }
  }

  /** Stripping takes spaces from both ends and leaves none there. */
  lemma StripIs(s: string) returns (a: string, b: string)
    ensures s == a + Strip(s) + b && AllSpaces(a) && AllSpaces(b)
    ensures Strip(s) != [] ==> !IsCSpace(Strip(s)[0]) && !IsCSpace(Strip(s)[|Strip(s)| - 1])
  {
    a := StripLeftIs(s);
    b := StripRightIs(StripLeft(s));
  }

  /** Stripping a longer text gives a longer text. */
  lemma StripMonotone(a: string, b: string)
    ensures Strip(a) <= Strip(a + b)
  {
    StripLeftPrefix(a, b);
    if StripLeft(a) != [] { StripRightPrefix(StripLeft(a), b); }
  }

  lemma {:induction false} StripRightSpaces(a: string, b: string)
    requires AllSpaces(b)
    ensures StripRight(a + b) == StripRight(a)
  {
    if b == [] {
      assert a + b == a;
    } else {
      var n := |b| - 1;
      assert (a + b)[..|a + b| - 1] == a + b[..n];
      StripRightSpaces(a, b[..n]);
    }
  }

  lemma {:induction false} StripLeftSpaces(b: string)
    requires AllSpaces(b)
    ensures StripLeft(b) == []
  {
    if b != [] { StripLeftSpaces(b[1..]); }
  }

  /** Text behind is lost in stripping exactly when it is all spaces. */
  lemma StripLoses(a: string, b: string)
    ensures Strip(a + b) <= Strip(a) <==> AllSpaces(b)
  {
    if AllSpaces(b) {
      StripLeftPrefix(a, b);
      if StripLeft(a) != [] { StripRightSpaces(StripLeft(a), b); } else { StripLeftSpaces(b); }
    } else {
      var i :| 0 <= i < |b| && !IsCSpace(b[i]);
      var u, v := StripIs(a + b);
      var u', v' := StripIs(a);
      assert (a + b)[|a| + i] == b[i];
      assert |u| <= |a| + i < |u| + |Strip(a + b)|;
      if Strip(a) != [] {
        assert (a + b)[|u'|] == Strip(a)[0];
        assert |u| <= |u'|;
      }
    }
  }

  // Partial stops

  /** The text from `i` on is a non-empty beginning of the stop word. */
  ghost predicate StopsAt(s: string, stop: string, i: nat) {
    i < |s| && s[i..] <= stop
  }

  /** Where the longest suffix of the text that begins the stop word starts. */
  method StringFindPartialStop(s: string, stop: string) returns (r: Option<nat>)
    ensures r.Some? ==> StopsAt(s, stop, r.value) && forall k: nat :: k < r.value ==> !StopsAt(s, stop, k)
    ensures r.None? ==> forall k: nat :: !StopsAt(s, stop, k)
    ensures r == PartialStop(s, stop)
  {
    r := None;
    if s != [] && stop != [] {
      var last := s[|s| - 1];
      var i: int := |stop| - 1;
      while i >= 0
        invariant -1 <= i < |stop|
        invariant forall k: nat :: k < |s| - i - 1 ==> !StopsAt(s, stop, k)
      {
        if stop[i] == last && EndsWith(s, stop[..i + 1]) {
          r := Some(|s| - i - 1);
          assert s[|s| - i - 1..] == stop[..i + 1];
          PartialStopUnique(s, stop, r);
          return;
        }
        forall k: nat | k < |s| - i ensures !StopsAt(s, stop, k) {
          if k == |s| - i - 1 { StopIsEnding(s, stop, k, i); }
        }
        i := i - 1;
      }
    }
    PartialStopUnique(s, stop, r);
  }

  lemma StopIsEnding(s: string, stop: string, k: nat, i: nat)
    requires i < |stop| && s != [] && k == |s| - i - 1
    ensures StopsAt(s, stop, k) ==> stop[i] == s[|s| - 1] && EndsWith(s, stop[..i + 1])
  {
    if StopsAt(s, stop, k) {
      assert s[k..] == stop[..i + 1];
      assert s[|s| - 1] == s[k..][i];
    }
  }

  /** The longest such suffix, by trying every start. */
  function PartialStop(s: string, stop: string): (r: Option<nat>)
    ensures r.Some? ==> StopsAt(s, stop, r.value) && forall k: nat :: k < r.value ==> !StopsAt(s, stop, k)
    ensures r.None? ==> forall k: nat :: !StopsAt(s, stop, k)
  {
    PartialStopFrom(s, stop, 0)
  }

  function PartialStopFrom(s: string, stop: string, i: nat): (r: Option<nat>)
    ensures r.Some? ==> i <= r.value && StopsAt(s, stop, r.value)
                        && forall k: nat :: i <= k < r.value ==> !StopsAt(s, stop, k)
    ensures r.None? ==> forall k: nat :: i <= k ==> !StopsAt(s, stop, k)
    decreases |s| - i
  {
    if i >= |s| then None else if s[i..] <= stop then Some(i) else PartialStopFrom(s, stop, i + 1)
  }

  lemma PartialStopUnique(s: string, stop: string, r: Option<nat>)
    requires r.Some? ==> StopsAt(s, stop, r.value) && forall k: nat :: k < r.value ==> !StopsAt(s, stop, k)
    requires r.None? ==> forall k: nat :: !StopsAt(s, stop, k)
    ensures r == PartialStop(s, stop)
  {
    var p := PartialStop(s, stop);
    if p.Some? { assert StopsAt(s, stop, p.value); }
    if r.Some? { assert StopsAt(s, stop, r.value); }
  }

  // Split, join and replace

  function Join(parts: seq<string>, separator: string): string {
    if parts == [] then []
    else if |parts| == 1 then parts[0]
    else parts[0] + separator + Join(parts[1..], separator)
  }

  /** The parts of `s` from `from` on, between the leftmost delimiters that do not overlap. */
  function SplitFrom(s: string, delimiter: string, from: nat): (r: seq<string>)
    requires delimiter != [] && from <= |s|
    ensures r != []
    decreases |s| - from
  {
    var end := Find(s, delimiter, from);
    if end.None? then [s[from..]]
    else [s[from..end.value]] + SplitFrom(s, delimiter, end.value + |delimiter|)
  }

  function Split(s: string, delimiter: string): seq<string>
    requires delimiter != []
  {
    SplitFrom(s, delimiter, 0)
  }

  method StringJoin(values: seq<string>, separator: string) returns (r: string)
    ensures r == Join(values, separator)
  {
    r := "";
    for i := 0 to |values|
      invariant r == Join(values[..i], separator)
    {
      assert values[..i + 1] == values[..i] + [values[i]];
      JoinSnoc(values[..i], values[i], separator);
      if i > 0 {
        r := r + separator;
      }
      r := r + values[i];
    }
    assert values[..|values|] == values;
  }

  lemma {:induction false} JoinSnoc(parts: seq<string>, p: string, separator: string)
    ensures Join(parts + [p], separator) == if parts == [] then p else Join(parts, separator) + separator + p
  {
    if |parts| > 1 {
      assert (parts + [p])[1..] == parts[1..] + [p];
      JoinSnoc(parts[1..], p, separator);
      JoinRegroup(parts[0], separator, Join(parts[1..], separator), p);
    } else if |parts| == 1 {
      assert (parts + [p])[1..] == [p];
    }
  }

  lemma JoinRegroup(a: string, d: string, j: string, p: string)
    ensures a + d + (j + d + p) == a + d + j + d + p
  {
  }

  lemma AppendPart(parts: seq<string>, part: string, rest: seq<string>)
    ensures parts + ([part] + rest) == (parts + [part]) + rest
  {
  }

  method StringSplit(s: string, delimiter: string) returns (parts: seq<string>)
    requires delimiter != []
    ensures parts == Split(s, delimiter)
  {
    parts := [];
    var start := 0;
    var end := Find(s, delimiter, 0);
    while end.Some?
      invariant start <= |s| && end == Find(s, delimiter, start)
      invariant parts + SplitFrom(s, delimiter, start) == Split(s, delimiter)
      decreases |s| - start
    {
      ghost var rest := SplitFrom(s, delimiter, end.value + |delimiter|);
      AppendPart(parts, s[start..end.value], rest);
      parts := parts + [s[start..end.value]];
      start := end.value + |delimiter|;
      end := Find(s, delimiter, start);
    }
    parts := parts + [s[start..]];
  }

  /** The text from `from` on with every leftmost occurrence replaced. */
  function ReplacedFrom(s: string, search: string, replace: string, from: nat): string
    requires search != [] && from <= |s|
    decreases |s| - from
  {
    var p := Find(s, search, from);
    if p.None? then s[from..]
    else s[from..p.value] + (replace + ReplacedFrom(s, search, replace, p.value + |search|))
  }

  lemma JoinCons(part: string, rest: seq<string>, separator: string)
    requires rest != []
    ensures Join([part] + rest, separator) == part + separator + Join(rest, separator)
  {
    assert ([part] + rest)[1..] == rest;
  }

  lemma SplitCons(s: string, search: string, from: nat, p: nat)
    requires search != [] && from <= p && p + |search| <= |s| && Find(s, search, from) == Some(p)
    ensures SplitFrom(s, search, from) == [s[from..p]] + SplitFrom(s, search, p + |search|)
  {
  }

  lemma SplitNext(s: string, search: string, replace: string, from: nat, p: nat)
    requires search != [] && from <= p && p + |search| <= |s| && Find(s, search, from) == Some(p)
    ensures Join(SplitFrom(s, search, from), replace)
         == s[from..p] + replace + Join(SplitFrom(s, search, p + |search|), replace)
  {
    SplitCons(s, search, from, p);
    JoinCons(s[from..p], SplitFrom(s, search, p + |search|), replace);
  }

  /** Replacing is splitting and joining with the replacement. */
  lemma {:induction false} ReplacedIsJoined(s: string, search: string, replace: string, from: nat)
    requires search != [] && from <= |s|
    ensures ReplacedFrom(s, search, replace, from) == Join(SplitFrom(s, search, from), replace)
    decreases |s| - from
  {
    var p := Find(s, search, from);
    if p.Some? {
      ReplacedIsJoined(s, search, replace, p.value + |search|);
      ReplacedStep(s, search, replace, from, p.value);
    }
  }

  lemma ReplacedCons(s: string, search: string, replace: string, from: nat, p: nat)
    requires search != [] && from <= p && p + |search| <= |s| && Find(s, search, from) == Some(p)
    ensures ReplacedFrom(s, search, replace, from)
         == s[from..p] + (replace + ReplacedFrom(s, search, replace, p + |search|))
  {
  }

  lemma ReplacedStep(s: string, search: string, replace: string, from: nat, p: nat)
    requires search != [] && from <= p && p + |search| <= |s| && Find(s, search, from) == Some(p)
    requires ReplacedFrom(s, search, replace, p + |search|) == Join(SplitFrom(s, search, p + |search|), replace)
    ensures ReplacedFrom(s, search, replace, from) == Join(SplitFrom(s, search, from), replace)
  {
    SplitNext(s, search, replace, from, p);
    ReplacedCons(s, search, replace, from, p);
    Assoc(s[from..p], replace, ReplacedFrom(s, search, replace, p + |search|));
  }

  method StringReplaceAll(s: string, search: string, replace: string) returns (r: string)
    ensures r == if search == [] then s else Join(Split(s, search), replace)
  {
    if search == [] { return s; }
    var builder, lastPos := "", 0;
    var pos := Find(s, search, 0);
    ghost var rest := ReplacedFrom(s, search, replace, 0);
    ghost var target := rest;
    while pos.Some?
      invariant lastPos <= |s| && pos == Find(s, search, lastPos)
      invariant rest == ReplacedFrom(s, search, replace, lastPos) && builder + rest == target
      decreases |s| - lastPos
    {
      var at := pos.value;
      ReplacedCons(s, search, replace, lastPos, at);
      rest := ReplacedFrom(s, search, replace, at + |search|);
      AppendRegroup(builder, s[lastPos..at], replace, rest);
      builder := builder + s[lastPos..at];
      builder := builder + replace;
      lastPos := at + |search|;
      pos := Find(s, search, lastPos);
    }
    ReplacedEnd(s, search, replace, lastPos);
    r := builder + s[lastPos..];
    ReplacedIsJoined(s, search, replace, 0);
  }

  lemma ReplacedEnd(s: string, search: string, replace: string, from: nat)
    requires search != [] && from <= |s| && Find(s, search, from).None?
    ensures ReplacedFrom(s, search, replace, from) == s[from..]
  {
  }

  lemma AppendRegroup(a: string, b: string, c: string, d: string)
    ensures a + (b + (c + d)) == a + b + c + d
  {
  }

  /** Joining the parts with the delimiter gives the text back. */
  lemma {:induction false} JoinSplitFrom(s: string, delimiter: string, from: nat)
    requires delimiter != [] && from <= |s|
    ensures Join(SplitFrom(s, delimiter, from), delimiter) == s[from..]
    decreases |s| - from
  {
    var end := Find(s, delimiter, from);
    if end.Some? {
      var p := end.value;
      SplitNext(s, delimiter, delimiter, from, p);
      JoinSplitFrom(s, delimiter, p + |delimiter|);
      DelimiterCut(s, delimiter, from, p);
    }
  }

  lemma DelimiterCut(s: string, d: string, a: nat, p: nat)
    requires a <= p && OccursAt(s, d, p)
    ensures s[a..p + |d|] == s[a..p] + d && s[a..] == s[a..p] + d + s[p + |d|..]
  {
    assert s[p..p + |d|] == d;
    assert s[a..p + |d|] == s[a..p] + s[p..p + |d|] && s[a..] == s[a..p + |d|] + s[p + |d|..];
  }

  lemma JoinSplit(s: string, delimiter: string)
    requires delimiter != []
    ensures Join(Split(s, delimiter), delimiter) == s
  {
    JoinSplitFrom(s, delimiter, 0);
  }

  /** No part has the delimiter in it, and none but the last can start one at its end:
      the parts are cut at the leftmost delimiters. */
  lemma {:induction false} SplitPartsFree(s: string, delimiter: string, from: nat, i: nat)
    requires delimiter != [] && from <= |s| && i < |SplitFrom(s, delimiter, from)|
    ensures var parts := SplitFrom(s, delimiter, from);
      && !Contains(parts[i], delimiter)
      && (i + 1 < |parts| ==> Find(parts[i] + delimiter, delimiter, 0) == Some(|parts[i]|))
    decreases |s| - from
  {
    var end := Find(s, delimiter, from);
    if end.None? {
      TailFree(s, delimiter, from);
    } else {
      SplitCons(s, delimiter, from, end.value);
      if i == 0 {
        PartFree(s, delimiter, from, end.value);
      } else {
        SplitPartsFree(s, delimiter, end.value + |delimiter|, i - 1);
        ConsAt(s[from..end.value], SplitFrom(s, delimiter, end.value + |delimiter|), i);
      }
    }
  }

  lemma ConsAt(part: string, rest: seq<string>, i: nat)
    requires 0 < i <= |rest|
    ensures ([part] + rest)[i] == rest[i - 1]
  {
  }

  lemma TailFree(s: string, d: string, from: nat)
    requires from <= |s| && Find(s, d, from).None?
    ensures !Contains(s[from..], d)
  {
    assert s == s[..from] + s[from..];
    forall k: nat ensures !OccursAt(s[from..], d, k) { OccursShift(s[..from], s[from..], d, k); }
  }

  lemma PartFree(s: string, d: string, from: nat, p: nat)
    requires d != [] && from <= |s| && Find(s, d, from) == Some(p)
    ensures !Contains(s[from..p], d) && Find(s[from..p] + d, d, 0) == Some(p - from)
  {
    var w := s[from..p] + d;
    DelimiterCut(s, d, from, p);
    assert w == s[from..p + |d|];
    forall k: nat | k < p - from ensures !OccursAt(w, d, k) {
      if k + |d| <= |w| {
        assert w[k..k + |d|] == s[from + k..from + k + |d|];
        assert !OccursAt(s, d, from + k);
      }
    }
    assert OccursAt(w, d, p - from);
    FreeBefore(s[from..p], d);
  }

  lemma FreeBefore(a: string, d: string)
    requires d != [] && forall k: nat | k < |a| :: !OccursAt(a + d, d, k)
    ensures !Contains(a, d)
  {
    forall k: nat ensures !OccursAt(a, d, k) {
      if OccursAt(a, d, k) { OccursInPrefix(a, d, d, k); }
    }
  }
}
