/** The longest block of tokens that two sequences share, by dynamic programming in two rows. */
module Lcs {

  /** The block of `len` tokens that ends before position i of one sequence and before j of the other. */
  ghost predicate CommonBlock<T>(a: seq<T>, b: seq<T>, i: nat, j: nat, len: nat) {
    len <= i <= |a| && len <= j <= |b| && a[i - len..i] == b[j - len..j]
  }

  /** The length of the longest block that ends at both positions. */
  function Suffix<T(==)>(a: seq<T>, b: seq<T>, i: nat, j: nat): nat
    requires i <= |a| && j <= |b|
  {
    if i == 0 || j == 0 || a[i - 1] != b[j - 1] then 0 else Suffix(a, b, i - 1, j - 1) + 1
  }

  lemma {:induction false} SuffixIsLongest<T>(a: seq<T>, b: seq<T>, i: nat, j: nat)
    requires i <= |a| && j <= |b|
    ensures CommonBlock(a, b, i, j, Suffix(a, b, i, j))
    ensures forall len: nat :: CommonBlock(a, b, i, j, len) ==> len <= Suffix(a, b, i, j)
  {
    if i > 0 && j > 0 {
      if a[i - 1] == b[j - 1] {
        var k := Suffix(a, b, i - 1, j - 1);
        SuffixIsLongest(a, b, i - 1, j - 1);
        assert a[i - (k + 1)..i] == a[i - 1 - k..i - 1] + [a[i - 1]];
        assert b[j - (k + 1)..j] == b[j - 1 - k..j - 1] + [b[j - 1]];
        forall len: nat | CommonBlock(a, b, i, j, len) ensures len <= k + 1 {
          if len > 0 { BlockShortened(a, b, i, j, len); }
        }
      } else {
        forall len: nat | CommonBlock(a, b, i, j, len) ensures len == 0 {
          if len > 0 { LastAgree(a, b, i, j, len); }
        }
      }
    }
  }

  lemma LastAgree<T>(a: seq<T>, b: seq<T>, i: nat, j: nat, len: nat)
    requires CommonBlock(a, b, i, j, len) && len > 0
    ensures a[i - 1] == b[j - 1]
  {
    assert a[i - len..i][len - 1] == b[j - len..j][len - 1];
  }

  lemma BlockShortened<T>(a: seq<T>, b: seq<T>, i: nat, j: nat, len: nat)
    requires CommonBlock(a, b, i, j, len) && len > 0
    ensures CommonBlock(a, b, i - 1, j - 1, len - 1)
  {
    assert a[i - len..i - 1] == a[i - len..i][..len - 1] && b[j - len..j - 1] == b[j - len..j][..len - 1];
  }

  /** Whether (i, j) comes no later than row r up to column c, in the order the rows are filled. */
  predicate Seen(i: nat, j: nat, r: nat, c: nat) { i < r || (i == r && j <= c) }

  /** `max` is the length of some block seen so far, and of no shorter one. */
  ghost predicate LongestSeen<T>(a: seq<T>, b: seq<T>, r: nat, c: nat, max: nat) {
    && (max == 0 || exists i: nat, j: nat :: i <= |a| && j <= |b| && Suffix(a, b, i, j) == max)
    && (forall i: nat, j: nat :: i <= |a| && j <= |b| && Seen(i, j, r, c) ==> Suffix(a, b, i, j) <= max)
  }

  method CommonLcs<T(==, 0)>(a: seq<T>, b: seq<T>) returns (max: nat)
    ensures exists i: nat, j: nat :: CommonBlock(a, b, i, j, max)
    ensures forall i: nat, j: nat, len: nat :: CommonBlock(a, b, i, j, len) ==> len <= max
  {
    if a == [] || b == [] {
      assert CommonBlock(a, b, 0, 0, 0);
      return 0;
    }
    max := 0;
    var prev := new nat[|b| + 1](_ => 0);
    var curr := new nat[|b| + 1](_ => 0);
    for i := 1 to |a| + 1
      invariant prev.Length == curr.Length == |b| + 1 && prev != curr
      invariant forall j :: 0 <= j <= |b| ==> prev[j] == Suffix(a, b, i - 1, j)
      invariant curr[0] == 0
      invariant LongestSeen(a, b, i - 1, |b|, max)
    {
      for j := 1 to |b| + 1
        invariant forall k :: 0 <= k < j ==> curr[k] == Suffix(a, b, i, k)
        invariant forall k :: 0 <= k <= |b| ==> prev[k] == Suffix(a, b, i - 1, k)
        invariant LongestSeen(a, b, i, j - 1, max)
      {
        if a[i - 1] == b[j - 1] {
          if i == 1 || j == 1 {
            curr[j] := 1;
          } else {
            curr[j] := prev[j - 1] + 1;
          }
          if curr[j] > max {
            max := curr[j];
          }
        } else {
          curr[j] := 0;
        }
        assert curr[j] == Suffix(a, b, i, j);
      }
      forall j | 0 <= j <= |b| {
        prev[j] := curr[j];
      }
    }
    forall i: nat, j: nat, len: nat | CommonBlock(a, b, i, j, len) ensures len <= max {
      SuffixIsLongest(a, b, i, j);
    }
    if max == 0 {
      assert CommonBlock(a, b, 0, 0, 0);
    } else {
      var i: nat, j: nat :| i <= |a| && j <= |b| && Suffix(a, b, i, j) == max;
      SuffixIsLongest(a, b, i, j);
    }
  }

  /** Whether s is what is left of a when some tokens are dropped. */
  predicate Subsequence<T(==)>(s: seq<T>, a: seq<T>)
    decreases a
  {
    s == [] || (a != [] && Subsequence(if s[0] == a[0] then s[1..] else s, a[1..]))
  }

  /** A block is not a subsequence: two sequences with a common subsequence of two tokens and no common
      block of two. */
  lemma BlocksAreNotSubsequences()
    ensures Subsequence([1, 3], [1, 2, 3]) && Subsequence([1, 3], [1, 3])
    ensures forall i: nat, j: nat, len: nat :: CommonBlock([1, 2, 3], [1, 3], i, j, len) ==> len <= 1
  {
    var a, b: seq<int> := [1, 2, 3], [1, 3];
    assert a[1..] == [2, 3] && [2, 3][1..] == [3] && b[1..] == [3] && [3][1..] == [];
    assert Subsequence([3], [3]) && Subsequence([3], [2, 3]);
    forall i: nat, j: nat, len: nat | CommonBlock(a, b, i, j, len) ensures len <= 1 {
      ShortBlock(a, b, i, j, len);
    }
  }

  lemma ShortBlock(a: seq<int>, b: seq<int>, i: nat, j: nat, len: nat)
    requires |a| == 3 && |b| == 2 && b[1] != a[0] && b[1] != a[1] && b[0] != a[1]
    requires CommonBlock(a, b, i, j, len)
    ensures len <= 1
  {
    if len >= 2 {
      BlockShortened(a, b, i, j, len);
      LastAgree(a, b, i - 1, j - 1, len - 1);
      LastAgree(a, b, i, j, len);
    }
  }
}
