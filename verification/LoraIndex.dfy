/** Indexing the factors indexes the product, when both matrix axes stay. */
module LoraIndex {
  import opened Tensors
  import opened Lora

  function Whole(n: nat): (r: seq<Index>)
    ensures |r| == n && forall i :: 0 <= i < n ==> r[i] == ALL
  {
    seq(n, i => ALL)
  }

  /** A leading axis of A answers to any position of B's: what it has is repeated. */
  predicate Broadcastable(l: Lora)
    requires Valid(l)
  {
    forall i :: 0 <= i < |Leading(l)| ==> Leading(l)[i] == 1 || Leading(l)[i] == Front(l)[i]
  }

  // A position or a slice alone

  function LoraItem(l: Lora, i: int): Result<Lora>
    requires Valid(l)
  {
    var n := Depth(l);
    if n <= 2 then Err(NotImplemented)
    else
      var A :- TensorIndex(l.A, [At(i)] + Whole(n - 1));
      var B :- TensorIndex(l.B, [At(i)] + Whole(n - 1));
      MakeLora(A, B)
  }

  function LoraSlice(l: Lora, s: Index): Result<Lora>
    requires Valid(l) && s.Slice?
  {
    var n := Depth(l);
    var B := TensorIndex(l.B, [s] + Whole(n - 1));
    if n <= 2 then
      if B.Err? then Err(B.failure) else MakeLora(l.A, B.value)
    else
      var A :- TensorIndex(l.A, [s] + Whole(n - 1));
      if B.Err? then Err(B.failure) else MakeLora(A, B.value)
  }

  // A tuple of positions and slices

  /** The code puts as many whole slices for an ellipsis as there are other indices. */
  function Expanded(ix: seq<Index>, slices: nat): seq<Index> {
    if ix == [] then []
    else (if ix[0].Ellipsis? then Whole(slices) else [ix[0]]) + Expanded(ix[1..], slices)
  }

  function Padded(ix: seq<Index>, n: nat): seq<Index> {
    if |ix| < n then ix + Whole(n - |ix|) else ix
  }

  /** The indices as the code completes them, one for every axis unless there are too many. */
  function OnePerAxis(ix: seq<Index>, n: nat): seq<Index>
    requires ix != []
  {
    Padded(Expanded(ix, |ix| - 1), n)
  }

  /** What an ellipsis between other indices means: the axes they leave, whole. */
  function Meant(before: seq<Index>, after: seq<Index>, n: nat): seq<Index>
    requires |before| + |after| <= n
  {
    before + Whole(n - |before| - |after|) + after
  }

  /** A leading position wraps to what A has; a leading slice is left to B. */
  function LeadingA(A: seq<nat>, ix: seq<Index>): (r: seq<Index>)
    requires |A| == |ix|
    ensures |r| == |ix|
  {
    seq(|ix|, i requires 0 <= i < |ix| => if ix[i].At? && A[i] != 0 then At(ix[i].i % A[i]) else ALL)
  }

  /** With one index for every axis: the row's is for B alone, the column's for A alone. */
  function LoraFull(l: Lora, ix: seq<Index>): Result<Lora>
    requires Valid(l) && |ix| == Depth(l)
  {
    var n := |ix|;
    var lead := ix[..n - 2];
    if exists i :: 0 <= i < n - 2 && lead[i].At? && Leading(l)[i] == 0 then Err(ZeroDivision)
    else
      var A :- TensorIndex(l.A, LeadingA(Leading(l), lead) + [ALL, ix[n - 1]]);
      var B :- TensorIndex(l.B, lead + [ix[n - 2], ALL]);
      MakeLora(A, B)
  }

  function LoraTuple(l: Lora, ix: seq<Index>): Result<Lora>
    requires Valid(l)
    decreases |ix|
  {
    if ix == [] then Err(AssertionFailed)
    else if ix[|ix| - 1].Ellipsis? then LoraTuple(l, ix[..|ix| - 1])
    else
      var full := OnePerAxis(ix, Depth(l));
      if |full| > Depth(l) then Err(IndexOutOfRange) else LoraFull(l, full)
  }

  /** The position picked on a leading axis of A: the one that is picked of B's, or the only one. */
  lemma LeadingPicks(A: seq<nat>, ix: seq<Index>, i: nat, n: nat)
    requires |A| == |ix| && i < |ix| && ix[i].At? && 0 <= n + ix[i].i && ix[i].i < n && (A[i] == 1 || A[i] == n)
    ensures var x := LeadingA(A, ix)[i];
      x.At? && 0 <= Axis(x.i, A[i]) < A[i] && Axis(x.i, A[i]) == if A[i] == 1 then 0 else Axis(ix[i].i, n)
  {
    RemainderOf(ix[i].i, n);
  }

  /** The remainder of a position is what it is counted from the front. */
  lemma RemainderOf(j: int, n: int)
    requires n > 0 && 0 <= n + j && j < n
    ensures j % n == if j < 0 then j + n else j
  {
    if j < 0 { assert j == (0 - 1) * n + (j + n); }
  }

  // What indexing leaves of a shape

  function Slices(ix: seq<Index>): nat {
    if ix == [] then 0 else (if ix[0].At? then 0 else 1) + Slices(ix[1..])
  }

  lemma {:induction false} IndexedLength(shape: seq<nat>, ix: seq<Index>)
    requires Indexable(shape, ix)
    ensures |Indexed(shape, ix)| == Slices(ix)
  {
    if ix != [] {
      TailIndexable(shape, ix);
      IndexedLength(shape[1..], ix[1..]);
    }
  }

  lemma {:induction false} SlicesConcat(x: seq<Index>, y: seq<Index>)
    ensures Slices(x + y) == Slices(x) + Slices(y)
  {
    if x == [] {
      assert x + y == y;
    } else {
      assert (x + y)[1..] == x[1..] + y;
      SlicesConcat(x[1..], y);
    }
  }

  lemma {:induction false} WholeSource(shape: seq<nat>, ix: seq<Index>, idx: seq<nat>)
    requires |ix| == |shape| == |idx| && forall i :: 0 <= i < |ix| ==> ix[i] == ALL
    ensures Indexable(shape, ix) && Indexed(shape, ix) == shape
    ensures Source(shape, ix, idx) == idx
  {
    if ix != [] {
      WholeSource(shape[1..], ix[1..], idx[1..]);
      AllIsWhole(shape[0], idx[0]);
      TailIndexable(shape, ix);
      assert idx == [idx[0]] + idx[1..] && shape == [shape[0]] + shape[1..];
    }
  }

  lemma {:induction false} LeadingOfOnes(ones: seq<nat>, ix: seq<Index>)
    requires |ones| == |ix| && forall i :: 0 <= i < |ones| ==> ones[i] == 1
    requires forall i :: 0 <= i < |ix| ==> !ix[i].Ellipsis?
    ensures Indexable(ones, LeadingA(ones, ix)) && Slices(LeadingA(ones, ix)) == Slices(ix)
    ensures Indexed(ones, LeadingA(ones, ix)) == Ones(Slices(ix))
    ensures Source(ones, LeadingA(ones, ix), Zeros(Slices(ix))) == Zeros(|ix|)
  {
    if ix != [] {
      var y := LeadingA(ones, ix);
      assert y[1..] == LeadingA(ones[1..], ix[1..]);
      LeadingOfOnes(ones[1..], ix[1..]);
      AllIsWhole(1, 0);
      OneMore(Slices(ix[1..]));
      OneMore(|ix| - 1);
    } else {
      assert Ones(0) == [] && Zeros(0) == [];
    }
  }

  lemma OneMore(n: nat)
    ensures Zeros(n + 1)[1..] == Zeros(n) && [1] + Ones(n) == Ones(n + 1) && [0] + Zeros(n) == Zeros(n + 1)
  {
  }

  lemma PairSource(r: nat, d: nat, x: Index, y: Index, a: nat, b: nat)
    requires x.Slice? && y.Slice?
    ensures Indexable([r, d], [x, y]) && Indexed([r, d], [x, y]) == [SliceLength(x, r), SliceLength(y, d)]
    ensures Source([r, d], [x, y], [a, b]) == [SliceAt(x, r, a), SliceAt(y, d, b)]
  {
    assert [r, d][1..] == [d] && [x, y][1..] == [y] && [a, b][1..] == [b];
    assert [d][1..] == [] && [y][1..] == [] && [b][1..] == [];
    assert Indexed([d], [y]) == [SliceLength(y, d)];
    assert Source([d], [y], [b]) == [SliceAt(y, d, b)];
  }

  lemma MatrixSource(lead: seq<nat>, r: nat, d: nat, ix: seq<Index>, x: Index, y: Index, u: seq<nat>, a: nat, b: nat)
    requires Indexable(lead, ix) && x.Slice? && y.Slice? && |u| == Slices(ix)
    ensures Indexable(lead + [r, d], ix + [x, y])
    ensures Indexed(lead + [r, d], ix + [x, y]) == Indexed(lead, ix) + [SliceLength(x, r), SliceLength(y, d)]
    ensures |u| == |Indexed(lead, ix)|
    ensures Source(lead + [r, d], ix + [x, y], u + [a, b])
         == Source(lead, ix, u) + [SliceAt(x, r, a), SliceAt(y, d, b)]
  {
    IndexedLength(lead, ix);
    PairSource(r, d, x, y, a, b);
    SourceConcat(lead, [r, d], ix, [x, y], u, [a, b]);
  }
}
