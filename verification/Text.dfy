/** Searching in character sequences, as `std::string::find` does it. */
module Text {

  datatype Option<+T> = None | Some(value: T)

  /** `std::isspace` in the C locale. */
  predicate IsCSpace(c: char) { c == ' ' || '\t' <= c <= '\r' }

  /** There are spaces from p to q, and none at q. */
  predicate SpacesTo(s: string, p: nat, q: nat) {
    p <= q <= |s| && (q < |s| ==> !IsCSpace(s[q])) && forall i :: p <= i < q ==> IsCSpace(s[i])
  }

  lemma {:induction false} SpacesEnd(s: string, p: nat)
    requires p <= |s|
    ensures exists q: nat :: SpacesTo(s, p, q)
    decreases |s| - p
  {
    if p < |s| && IsCSpace(s[p]) {
      SpacesEnd(s, p + 1);
      var q: nat :| SpacesTo(s, p + 1, q);
      assert SpacesTo(s, p, q);
    } else {
      assert SpacesTo(s, p, p);
    }
  }

  /** The first position from p on that is no space. */
  function SkipSpaces(s: string, p: nat): (q: nat)
    requires p <= |s|
    ensures p <= q <= |s| && (q < |s| ==> !IsCSpace(s[q])) && forall i :: p <= i < q ==> IsCSpace(s[i])
  {
    SpacesEnd(s, p);
    var q: nat :| SpacesTo(s, p, q);
    q
  }

  lemma SkipIs(s: string, p: nat, q: nat)
    requires SpacesTo(s, p, q)
    ensures SkipSpaces(s, p) == q
  {
  }

  lemma Assoc(a: string, b: string, c: string)
    ensures a + (b + c) == a + b + c
  {
  }

  predicate EndsWith(s: string, suffix: string) {
    |s| >= |suffix| && s[|s| - |suffix|..] == suffix
  }

  ghost predicate OccursAt<T>(s: seq<T>, pat: seq<T>, i: nat) {
    i + |pat| <= |s| && s[i..i + |pat|] == pat
  }

  ghost predicate Contains<T>(s: seq<T>, pat: seq<T>) {
    exists i: nat :: OccursAt(s, pat, i)
  }

  predicate Matches(s: string, pat: string, i: nat) {
    i + |pat| <= |s| && s[i..i + |pat|] == pat
  }

  /** The first occurrence at or after `from`. */
  predicate FirstMatch(s: string, pat: string, from: nat, i: nat) {
    from <= i && Matches(s, pat, i) && forall k: nat :: from <= k < i ==> !Matches(s, pat, k)
  }

  lemma {:induction false} SomeFirstMatch(s: string, pat: string, from: nat, i: nat)
    requires from <= i <= |s| && Matches(s, pat, i)
    ensures exists first: nat :: first <= |s| && FirstMatch(s, pat, from, first)
    decreases i
  {
    if k: nat :| from <= k < i && Matches(s, pat, k) {
      SomeFirstMatch(s, pat, from, k);
    } else {
      assert FirstMatch(s, pat, from, i);
    }
  }

  lemma FirstOccurs(s: string, pat: string, from: nat, i: nat)
    requires FirstMatch(s, pat, from, i)
    ensures OccursAt(s, pat, i) && forall k: nat :: from <= k < i ==> !OccursAt(s, pat, k)
  {
    forall k: nat | from <= k < i ensures !OccursAt(s, pat, k) { assert !Matches(s, pat, k); }
  }

  lemma NoMatch(s: string, pat: string, from: nat)
    requires !exists i: nat :: i <= |s| && FirstMatch(s, pat, from, i)
    ensures forall k: nat :: from <= k ==> !OccursAt(s, pat, k)
  {
    forall k: nat | from <= k ensures !OccursAt(s, pat, k) {
      if Matches(s, pat, k) { SomeFirstMatch(s, pat, from, k); }
    }
  }

  /** The index of the first occurrence of `pat` at or after `from`. */
  function Find(s: string, pat: string, from: nat): (r: Option<nat>)
    ensures r.Some? ==> from <= r.value && OccursAt(s, pat, r.value)
                        && forall k: nat :: from <= k < r.value ==> !OccursAt(s, pat, k)
    ensures r.None? ==> forall k: nat :: from <= k ==> !OccursAt(s, pat, k)
  {
    if exists i: nat :: i <= |s| && FirstMatch(s, pat, from, i) then
      var i: nat :| i <= |s| && FirstMatch(s, pat, from, i);
      FirstOccurs(s, pat, from, i);
      Some(i)
    else
      NoMatch(s, pat, from);
      None
  }

  /** `s` up to the first occurrence of `pat`; all of `s` when there is none. */
  function CutAt(s: string, pat: string): string {
    var i := Find(s, pat, 0);
    if i.Some? then s[..i.value] else s
  }

  /** No proper non-empty prefix of `m` is also a suffix of it. */
  ghost predicate Unbordered(m: string) {
    forall k :: 0 < k < |m| ==> m[..k] != m[|m| - k..]
  }

  lemma FindIs(s: string, pat: string, n: nat)
    requires OccursAt(s, pat, n) && forall k: nat :: k < n ==> !OccursAt(s, pat, k)
    ensures Find(s, pat, 0) == Some(n)
  {
  }

  lemma OccursShift<T>(a: seq<T>, b: seq<T>, pat: seq<T>, i: nat)
    ensures OccursAt(b, pat, i) <==> OccursAt(a + b, pat, |a| + i)
  {
    if i + |pat| <= |b| {
      assert (a + b)[|a| + i..|a| + i + |pat|] == b[i..i + |pat|];
    }
  }

  lemma OccursInPrefix<T>(a: seq<T>, b: seq<T>, pat: seq<T>, i: nat)
    requires i + |pat| <= |a|
    ensures OccursAt(a, pat, i) <==> OccursAt(a + b, pat, i)
  {
    assert (a + b)[i..i + |pat|] == a[i..i + |pat|];
  }

  /** Every character of an occurrence belongs to the pattern. */
  lemma OccursCovers<T>(s: seq<T>, pat: seq<T>, i: nat, k: nat)
    requires OccursAt(s, pat, i) && i <= k < i + |pat|
    ensures s[k] in pat
  {
    assert s[i..i + |pat|][k - i] == s[k];
  }

  lemma ContainsMid<T>(a: seq<T>, b: seq<T>, c: seq<T>, pat: seq<T>)
    requires Contains(b, pat)
    ensures Contains(a + b + c, pat)
  {
    var i: nat :| OccursAt(b, pat, i);
    OccursShift(a, b, pat, i);
    OccursInPrefix(a + b, c, pat, |a| + i);
    assert OccursAt(a + b + c, pat, |a| + i);
  }

  /** A pattern cannot straddle a character it does not have. */
  lemma ContainsSplit<T>(a: seq<T>, c: T, b: seq<T>, pat: seq<T>)
    requires pat != [] && c !in pat
    requires Contains(a + [c] + b, pat)
    ensures Contains(a, pat) || Contains(b, pat)
  {
    var s := a + [c] + b;
    var i: nat :| OccursAt(s, pat, i);
    if i + |pat| <= |a| {
      assert s == a + ([c] + b);
      OccursInPrefix(a, [c] + b, pat, i);
    } else if |a| < i {
      OccursShift(a + [c], b, pat, i - |a| - 1);
    } else {
      OccursCovers(s, pat, i, |a|);
      assert false;
    }
  }

  lemma ContainsPrefix<T>(a: seq<T>, b: seq<T>, pat: seq<T>)
    requires Contains(a, pat)
    ensures Contains(a + b, pat)
  {
    var i: nat :| OccursAt(a, pat, i);
    OccursInPrefix(a, b, pat, i);
  }

  lemma ContainsSuffix<T>(a: seq<T>, b: seq<T>, pat: seq<T>)
    requires Contains(b, pat)
    ensures Contains(a + b, pat)
  {
    var i: nat :| OccursAt(b, pat, i);
    OccursShift(a, b, pat, i);
  }

  lemma FreePrefix<T>(a: seq<T>, b: seq<T>, pat: seq<T>)
    requires !Contains(a + b, pat)
    ensures !Contains(a, pat)
  {
    if Contains(a, pat) { ContainsPrefix(a, b, pat); }
  }

  lemma FreeSuffix<T>(a: seq<T>, b: seq<T>, pat: seq<T>)
    requires !Contains(a + b, pat)
    ensures !Contains(b, pat)
  {
    if Contains(b, pat) { ContainsSuffix(a, b, pat); }
  }

  /** An occurrence of `q + m` before its marked place reveals `m` in the text or in `q`. */
  lemma EarlyQuoted(pre: string, q: string, m: string, post: string, k: nat)
    requires q != [] && m != [] && k < |pre| && OccursAt(pre + (q + m) + post, q + m, k)
    ensures Contains(pre, m) || exists c :: c in q && c in m
  {
    var s := pre + (q + m) + post;
    assert s[k + |q|..k + |q| + |m|] == s[k..k + |q| + |m|][|q|..];
    assert OccursAt(s, m, k + |q|);
    if k + |q| + |m| <= |pre| {
      assert s == pre + ((q + m) + post);
      OccursInPrefix(pre, (q + m) + post, m, k + |q|);
    } else {
      var p := if k + |q| <= |pre| then |pre| else k + |q|;
      OccursCovers(s, m, k + |q|, p);
      assert s[p] == q[p - |pre|];
    }
  }

  /** A marker `q + m` is first found where it was put, when its leading part `q`
      shares no character with `m` and `m` is absent from the text before it. */
  lemma FindQuoted(pre: string, q: string, m: string, post: string)
    requires q != [] && m != [] && !Contains(pre, m)
    requires forall c :: c in q ==> c !in m
    ensures Find(pre + (q + m) + post, q + m, 0) == Some(|pre|)
  {
    assert OccursAt(pre + (q + m) + post, q + m, |pre|);
    forall k: nat | k < |pre| ensures !OccursAt(pre + (q + m) + post, q + m, k) {
      if OccursAt(pre + (q + m) + post, q + m, k) { EarlyQuoted(pre, q, m, post, k); }
    }
  }

  /** An occurrence of a glued marker before its place overlaps it by a border. */
  lemma EarlyGlued(pre: string, m: string, post: string, k: nat)
    requires m != [] && k < |pre| && OccursAt(pre + m + post, m, k)
    ensures Contains(pre, m) || (|pre| < k + |m| && m[..k + |m| - |pre|] == m[|pre| - k..])
  {
    var s := pre + m + post;
    if k + |m| <= |pre| {
      assert s == pre + (m + post);
      OccursInPrefix(pre, m + post, m, k);
    } else {
      assert m[|pre| - k..] == s[k..k + |m|][|pre| - k..] == s[|pre|..k + |m|];
    }
  }

  /** A bare marker is first found where it was glued on, when it is unbordered. */
  lemma FindGlued(pre: string, m: string, post: string)
    requires m != [] && !Contains(pre, m) && Unbordered(m)
    ensures Find(pre + m + post, m, 0) == Some(|pre|)
  {
    assert OccursAt(pre + m + post, m, |pre|);
    forall k: nat | k < |pre| ensures !OccursAt(pre + m + post, m, k) {
      if OccursAt(pre + m + post, m, k) { EarlyGlued(pre, m, post, k); }
    }
  }
}
