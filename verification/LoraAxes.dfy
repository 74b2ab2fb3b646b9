/** Permuting the axes of the factors permutes the axes of the product. */
module LoraAxes {
  import opened Tensors
  import opened Lora

  // Permutations

  function AxesOf(dims: seq<int>, rank: nat): set<int> {
    if dims == [] then {} else {Axis(dims[0], rank)} + AxesOf(dims[1..], rank)
  }

  lemma {:induction false} AxesOfDistinct(dims: seq<int>, rank: nat)
    requires forall i, j :: 0 <= i < j < |dims| ==> Axis(dims[i], rank) != Axis(dims[j], rank)
    ensures |AxesOf(dims, rank)| == |dims|
    ensures forall d :: d in AxesOf(dims, rank) <==> exists k :: 0 <= k < |dims| && Axis(dims[k], rank) == d
  {
    if dims != [] {
      AxesOfDistinct(dims[1..], rank);
      assert forall k :: 0 < k < |dims| ==> dims[k] == dims[1..][k - 1];
      forall d ensures d in AxesOf(dims, rank) <==> exists k :: 0 <= k < |dims| && Axis(dims[k], rank) == d {
        if d in AxesOf(dims[1..], rank) {
          var k :| 0 <= k < |dims[1..]| && Axis(dims[1..][k], rank) == d;
          assert Axis(dims[k + 1], rank) == d;
        }
      }
    }
  }

  lemma {:induction false} SubsetSize(a: set<int>, n: nat)
    requires forall d :: d in a ==> 0 <= d < n
    ensures |a| <= n
  {
    if n > 0 {
      SubsetSize(a - {n - 1}, n - 1);
    } else {
      assert forall d :: d !in a;
      assert a == {};
    }
  }

  /** As many distinct axes as there are leave none out. */
  lemma EveryAxisPlaced(dims: seq<int>, rank: nat, d: nat)
    requires IsPermutation(dims, rank) && d < rank
    ensures PlaceOf(dims, rank, d) < rank && Axis(dims[PlaceOf(dims, rank, d)], rank) == d
  {
    AxesOfDistinct(dims, rank);
    var a := AxesOf(dims, rank);
    if d !in a {
      Moved(a, rank, d);
    }
  }

  lemma Moved(a: set<int>, n: nat, d: nat)
    requires d < n && d !in a && forall x :: x in a ==> 0 <= x < n
    ensures |a| < n
  {
    SubsetSize(a + {d}, n);
  }

  // Permute

  /** Axes counted from the back. */
  function Backward(dims: seq<int>, rank: nat): (r: seq<int>)
    ensures |r| == |dims|
  {
    seq(|dims|, i requires 0 <= i < |dims| => if dims[i] >= 0 then dims[i] - rank else dims[i])
  }

  function LoraPermute(l: Lora, dims: seq<int>): Result<Lora>
    requires Valid(l)
  {
    var n := Depth(l);
    var ds := Backward(dims, n);
    var last := |ds| - 1;
    if ds == [] then Err(IndexOutOfRange)
    else if ds[last] == -1 then
      if !LeadingOnes(l) then Err(AssertionFailed)
      else
        var B :- TensorPermute(l.B, ds);
        MakeLora(l.A, B)
    else if n != 2 || ds[last] != -2 then Err(NotImplemented)
    else if last == 0 then Err(IndexOutOfRange)
    else if ds[last - 1] == -1 then
      var A :- TensorPermute(l.B, ds);
      var B :- TensorPermute(l.A, ds);
      MakeLora(A, B)
    else Err(NotImplemented)
  }

  predicate KeepsLast(dims: seq<int>, rank: nat) {
    IsPermutation(dims, rank) && rank > 0 && Axis(dims[rank - 1], rank) == rank - 1
  }

  /** The other axes move among themselves. */
  lemma LastKept(dims: seq<int>, n: nat, row: seq<nat>, c: nat)
    requires KeepsLast(dims, n) && |row| == n - 1
    ensures Unpermute(dims, n, row + [c]) == Unpermute(dims, n, row + [0])[..n - 1] + [c]
  {
    forall d: nat | d < n
      ensures d < n - 1 ==> PlaceOf(dims, n, d) < n - 1
      ensures d == n - 1 ==> PlaceOf(dims, n, d) == n - 1
    {
      EveryAxisPlaced(dims, n, d);
    }
  }

  lemma KeptEntry(l: Lora, m: Lora, dims: seq<int>, row: seq<nat>, col: nat)
    requires Valid(l) && LeadingOnes(l) && KeepsLast(dims, Depth(l)) && |row| == |Front(l)|
    requires m.A == l.A && m.B == Permuted(l.B, dims)
    ensures Valid(m) && LeadingOnes(m) && |Front(m)| == |row|
    ensures Entry(m, row, col) == Permuted(Product(l), dims).at(row + [col])
  {
    var n := Depth(l);
    var from := Unpermute(dims, n, row + [0])[..n - 1];
    var z := Zeros(|row| - 1);
    assert Leading(m) == Leading(l);
    EntryOnes(m, row, col);
    EntryOnes(l, from, col);
    forall k: nat | k < Rank(l) ensures Term(m, row, z, col, k) == Term(l, from, z, col, k) {
      LastKept(dims, n, row, k);
    }
    DotAgrees(m, row, z, col, l, from, z, col, Rank(l));
    LastKept(dims, n, row, col);
    ProductAt(l, from, col);
  }

  lemma KeptShape(l: Lora, m: Lora, dims: seq<int>)
    requires Valid(l) && KeepsLast(dims, Depth(l))
    requires m.A == l.A && m.B == Permuted(l.B, dims)
    ensures Valid(m) && Leading(m) == Leading(l)
    ensures Permuted(Product(l), dims).shape == Front(m) + [Last(l)] == Shape(m)
  {
    var n := Depth(l);
    forall i | 0 <= i < n - 1 ensures Axis(dims[i], n) < n - 1 {
      assert Axis(dims[i], n) != Axis(dims[n - 1], n);
    }
  }

  lemma SwappedAt(dims: seq<int>, x: nat, y: nat)
    requires dims == [-1, -2]
    ensures IsPermutation(dims, 2) && Unpermute(dims, 2, [x, y]) == [y, x]
  {
    assert PlaceOf(dims, 2, 0) == 1 && PlaceOf(dims, 2, 1) == 0;
  }

  /** The transpose of a product is the product of the transposes the other way round. */
  lemma SwappedEntry(l: Lora, m: Lora, dims: seq<int>, row: nat, col: nat)
    requires Valid(l) && Depth(l) == 2 && dims == [-1, -2] && IsPermutation(dims, 2)
    requires m.A == Permuted(l.B, dims) && m.B == Permuted(l.A, dims)
    ensures Valid(m) && Depth(m) == 2 && Permuted(Product(l), dims).shape == Shape(m)
    ensures Entry(m, [row], col) == Permuted(Product(l), dims).at([row] + [col])
  {
    EntryOnes(m, [row], col);
    EntryOnes(l, [col], row);
    forall k: nat | k < Rank(l) ensures Term(m, [row], [], col, k) == Term(l, [col], [], row, k) {
      SwappedAt(dims, k, col);
      SwappedAt(dims, row, k);
      SwappedTerm(l, m, row, col, k);
    }
    assert Zeros(0) == [];
    DotAgrees(m, [row], [], col, l, [col], [], row, Rank(l));
    SwappedAt(dims, row, col);
    ProductAt(l, [col], row);
    assert [row] + [col] == [row, col] && [col] + [row] == [col, row];
  }

  lemma SwappedTerm(l: Lora, m: Lora, row: nat, col: nat, k: nat)
    requires m.A.at([k, col]) == l.B.at([col, k]) && m.B.at([row, k]) == l.A.at([k, row])
    ensures Term(m, [row], [], col, k) == Term(l, [col], [], row, k)
  {
    assert [row] + [k] == [row, k] && [col] + [k] == [col, k];
    assert [] + [k, col] == [k, col] && [] + [k, row] == [k, row];
  }

  /**
   * Permuting the factors permutes the product: with the last axis fixed only B is permuted, and a
   * matrix is transposed by swapping the transposed factors.
   */
  lemma PermuteCommutes(l: Lora, dims: seq<int>)
    requires Valid(l) && LoraPermute(l, dims).Ok?
    ensures LeadingOnes(l) && Valid(LoraPermute(l, dims).value) && LeadingOnes(LoraPermute(l, dims).value)
    ensures TensorPermute(Product(l), Backward(dims, Depth(l))).Ok?
    ensures Same(Product(LoraPermute(l, dims).value),
                 TensorPermute(Product(l), Backward(dims, Depth(l))).value)
  {
    var ds := Backward(dims, Depth(l));
    var m := LoraPermute(l, dims).value;
    if ds[|ds| - 1] == -1 {
      KeptSame(l, m, ds);
    } else {
      assert ds == [-1, -2];
      SwappedSame(l, m, ds);
    }
  }

  lemma KeptSame(l: Lora, m: Lora, ds: seq<int>)
    requires Valid(l) && LeadingOnes(l) && KeepsLast(ds, Depth(l)) && m.A == l.A && m.B == Permuted(l.B, ds)
    ensures Valid(m) && LeadingOnes(m) && Same(Product(m), Permuted(Product(l), ds))
  {
    var p := Permuted(Product(l), ds);
    KeptShape(l, m, ds);
    forall row, col: nat | InRange(Front(m), row) && col < Last(m)
      ensures Product(m).at(row + [col]) == p.at(row + [col])
    {
      KeptEntry(l, m, ds, row, col);
      ProductAt(m, row, col);
    }
    SameByEntries(Product(m), p, Front(m), Last(m));
  }

  lemma SwappedSame(l: Lora, m: Lora, ds: seq<int>)
    requires Valid(l) && Depth(l) == 2 && ds == [-1, -2] && IsPermutation(ds, 2)
    requires m.A == Permuted(l.B, ds) && m.B == Permuted(l.A, ds)
    ensures Valid(m) && LeadingOnes(m) && Same(Product(m), Permuted(Product(l), ds))
  {
    var p := Permuted(Product(l), ds);
    SwappedEntry(l, m, ds, 0, 0);
    forall row, col: nat | InRange(Front(m), row) && col < Last(m)
      ensures Product(m).at(row + [col]) == p.at(row + [col])
    {
      assert row == [row[0]];
      SwappedEntry(l, m, ds, row[0], col);
      ProductAt(m, row, col);
    }
    SameByEntries(Product(m), p, Front(m), Last(m));
  }

  /** What is accepted, A's leading axes being of length one: the last axis fixed, or a matrix transposed. */
  lemma PermuteAccepts(l: Lora, dims: seq<int>)
    requires Valid(l) && LeadingOnes(l)
    ensures LoraPermute(l, dims).Ok? ==> IsPermutation(Backward(dims, Depth(l)), Depth(l))
    ensures IsPermutation(dims, Depth(l)) ==>
              (LoraPermute(l, dims).Ok? <==> Depth(l) == 2 || Axis(dims[Depth(l) - 1], Depth(l)) == Depth(l) - 1)
  {
    var n := Depth(l);
    var ds := Backward(dims, n);
    if IsPermutation(dims, n) {
      assert Axis(dims[n - 2], n) != Axis(dims[n - 1], n);
      BackwardSame(l.B, dims);
      BackwardSame(l.A, dims);
      KeptOrSwapped(l, dims, ds);
    }
  }

  lemma KeptOrSwapped(l: Lora, dims: seq<int>, ds: seq<int>)
    requires Valid(l) && LeadingOnes(l) && IsPermutation(dims, Depth(l)) && ds == Backward(dims, Depth(l))
    requires IsPermutation(ds, Depth(l))
    ensures LoraPermute(l, dims).Ok? <==> Depth(l) == 2 || Axis(dims[Depth(l) - 1], Depth(l)) == Depth(l) - 1
  {
    var n := Depth(l);
    assert ds[n - 1] == Axis(dims[n - 1], n) - n && ds[n - 2] == Axis(dims[n - 2], n) - n;
    assert Axis(dims[n - 2], n) != Axis(dims[n - 1], n);
    if ds[n - 1] == -1 {
      assert Permuted(l.B, ds).shape[n - 1] == Rank(l);
    } else if n == 2 {
      assert ds == [-1, -2];
    }
  }

  /** Axes counted from the back are the same axes. */
  lemma BackwardSame(t: Tensor, dims: seq<int>)
    requires IsPermutation(dims, |t.shape|)
    ensures IsPermutation(Backward(dims, |t.shape|), |t.shape|)
    ensures Same(Permuted(t, dims), Permuted(t, Backward(dims, |t.shape|)))
  {
    var n := |t.shape|;
    var ds := Backward(dims, n);
    assert forall i :: 0 <= i < n ==> Axis(ds[i], n) == Axis(dims[i], n);
    forall d: nat | d < n ensures PlaceOf(ds, n, d) == PlaceOf(dims, n, d) {
      EveryAxisPlaced(dims, n, d);
      EveryAxisPlaced(ds, n, d);
    }
    forall idx | InRange(Permuted(t, dims).shape, idx) ensures Permuted(t, dims).at(idx) == Permuted(t, ds).at(idx) {
      assert Unpermute(dims, n, idx) == Unpermute(ds, n, idx);
    }
  }

  // Transpose

  function Swapped(n: nat, a: nat, b: nat): (r: seq<int>)
    requires a < n && b < n
    ensures |r| == n
  {
    seq(n, i => if i == a then b else if i == b then a else i)
  }

  function LoraTranspose(l: Lora, dim0: int, dim1: int): Result<Lora>
    requires Valid(l)
  {
    var n := Depth(l);
    var a, b := Axis(dim0, n), Axis(dim1, n);
    if 0 <= a < n && 0 <= b < n then LoraPermute(l, Swapped(n, a, b)) else Err(IndexOutOfRange)
  }

  /** Swapping two axes: never the last with another, except in a matrix. */
  lemma TransposeCommutes(l: Lora, dim0: int, dim1: int)
    requires Valid(l) && LeadingOnes(l)
    requires 0 <= Axis(dim0, Depth(l)) < Depth(l) && 0 <= Axis(dim1, Depth(l)) < Depth(l)
    ensures LoraTranspose(l, dim0, dim1).Ok? <==>
            || Depth(l) == 2
            || Axis(dim0, Depth(l)) == Axis(dim1, Depth(l))
            || (Axis(dim0, Depth(l)) != Depth(l) - 1 && Axis(dim1, Depth(l)) != Depth(l) - 1)
    ensures IsPermutation(Swapped(Depth(l), Axis(dim0, Depth(l)), Axis(dim1, Depth(l))), Depth(l))
    ensures LoraTranspose(l, dim0, dim1).Ok? ==>
            && Valid(LoraTranspose(l, dim0, dim1).value)
            && LeadingOnes(LoraTranspose(l, dim0, dim1).value)
            && Same(Product(LoraTranspose(l, dim0, dim1).value),
                    Permuted(Product(l), Swapped(Depth(l), Axis(dim0, Depth(l)), Axis(dim1, Depth(l)))))
  {
    var n := Depth(l);
    var dims := Swapped(n, Axis(dim0, n), Axis(dim1, n));
    SwappedPermutes(n, Axis(dim0, n), Axis(dim1, n));
    BackwardSame(Product(l), dims);
    PermuteAccepts(l, dims);
    if LoraPermute(l, dims).Ok? { PermuteCommutes(l, dims); }
  }

  lemma SwappedPermutes(n: nat, a: nat, b: nat)
    requires a < n && b < n
    ensures IsPermutation(Swapped(n, a, b), n)
    ensures Axis(Swapped(n, a, b)[n - 1], n) == n - 1 <==> a == b || (a != n - 1 && b != n - 1)
  {
  }
}
