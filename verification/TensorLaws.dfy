/** What the operations on tensors mean, entry by entry. */
module TensorLaws {
  import opened Tensors
  import opened LoraAxes

  // Reshaping and permuting

  /** Entries at the same row-major position are the same entry. */
  lemma ReshapedAt(t: Tensor, shape: seq<nat>, idx: seq<nat>, from: seq<nat>)
    requires InRange(shape, idx) && InRange(t.shape, from) && Flatten(shape, idx) == Flatten(t.shape, from)
    ensures Reshaped(t, shape).at(idx) == t.at(from)
  {
    FlattenBounds(t.shape, from);
  }

  /** An axis, a negative one counted from the back. */
  function FromFront(d: int, rank: nat): int { if d >= 0 then d else rank + d }

  /** Axis i of the result is axis dims[i] of the tensor. */
  lemma PermutedAt(t: Tensor, dims: seq<int>, idx: seq<nat>, from: seq<nat>)
    requires IsPermutation(dims, |t.shape|) && |idx| == |from| == |t.shape|
    requires forall i :: 0 <= i < |dims| ==> 0 <= FromFront(dims[i], |dims|) < |dims|
    requires forall i :: 0 <= i < |dims| ==> idx[i] == from[FromFront(dims[i], |dims|)]
    ensures Permuted(t, dims).at(idx) == t.at(from)
    ensures |Permuted(t, dims).shape| == |dims|
    ensures forall i :: 0 <= i < |dims| ==> Permuted(t, dims).shape[i] == t.shape[FromFront(dims[i], |dims|)]
  {
    var rank := |t.shape|;
    var u := Unpermute(dims, rank, idx);
    forall d: nat | d < rank ensures u[d] == from[d] {
      EveryAxisPlaced(dims, rank, d);
      var i := PlaceOf(dims, rank, d);
      assert Axis(dims[i], rank) == FromFront(dims[i], rank) == d;
    }
    assert u == from;
  }

  // Slices

  /** A bound counted from the front: a negative one counts from the back. */
  function Place(p: int, n: nat): int { if p >= 0 then p else n + p }

  /** Neither end of the slice leaves the position out. */
  predicate Between(s: Index, n: nat, x: int)
    requires s.Slice?
  {
    && 0 <= x < n
    && (s.start.To? ==> Place(s.start.position, n) <= x)
    && (s.stop.To? ==> x < Place(s.stop.position, n))
  }

  lemma BetweenIs(s: Index, n: nat, x: int)
    requires s.Slice?
    ensures Between(s, n, x) <==> Clamped(s.start, n, 0) <= x < Clamped(s.stop, n, n)
  {
  }

  /** A slice picks the first position between its ends, and from there every step-th one, as long as it is between
      them, in order. */
  lemma SlicePicks(s: Index, n: nat, j: nat)
    requires s.Slice?
    ensures SliceAt(s, n, j + 1) == SliceAt(s, n, j) + s.step
    ensures j < SliceLength(s, n) <==> Between(s, n, SliceAt(s, n, j))
    ensures SliceLength(s, n) > 0 <==> exists x: nat :: Between(s, n, x)
    ensures forall x: nat :: Between(s, n, x) ==> SliceAt(s, n, 0) <= x
  {
    var lo, hi := Clamped(s.start, n, 0), Clamped(s.stop, n, n);
    BetweenIs(s, n, SliceAt(s, n, j));
    Stepped(lo, hi, s.step, j);
    NextStep(lo, s.step, j);
    forall x: nat ensures Between(s, n, x) <==> lo <= x < hi { BetweenIs(s, n, x); }
    if lo < hi { assert Between(s, n, lo); }
  }

  lemma NextStep(lo: nat, step: nat, j: nat)
    ensures lo + (j + 1) * step == lo + j * step + step && lo <= lo + j * step
  {
  }

  /** How many steps there are from lo below hi. */
  lemma Stepped(lo: nat, hi: nat, step: nat, j: nat)
    requires step > 0
    ensures lo < hi ==> (j < (hi - lo + step - 1) / step <==> lo + j * step < hi)
    ensures lo < hi ==> (hi - lo + step - 1) / step > 0
    ensures lo >= hi ==> !(lo + j * step < hi)
  {
    if lo < hi {
      var k := (hi - lo + step - 1) / step;
      Ceiling(hi - lo, step, k);
      if j < k { MulBelow(j, k - 1, step); } else { MulBelow(k, j, step); }
    }
  }

  lemma Ceiling(d: nat, step: nat, k: nat)
    requires d > 0 && step > 0 && k == (d + step - 1) / step
    ensures k > 0 && (k - 1) * step < d <= k * step
  {
    DivModUnique(k, step, (d + step - 1) % step);
    assert d + step - 1 == k * step + (d + step - 1) % step;
  }

  lemma MulBelow(a: nat, b: nat, step: nat)
    requires a <= b
    ensures a * step <= b * step
  {
  }

  /** A single position: in range from the front or from the back, and then that entry. */
  lemma PositionPicks(t: Tensor, i: int)
    requires |t.shape| == 1
    ensures TensorIndex(t, [At(i)]).Ok? <==> -t.shape[0] <= i < t.shape[0]
    ensures TensorIndex(t, [At(i)]).Ok? ==>
              var r := TensorIndex(t, [At(i)]).value;
              r.shape == [] && r.at([]) == t.at([Place(i, t.shape[0])])
  {
    var n := t.shape[0];
    assert t.shape == [n] && t.shape[1..] == [] && [At(i)][1..] == [];
    assert Indexable([], []) && Indexed([], []) == [] && Source([], [], []) == [];
    if 0 <= Axis(i, n) < n { assert Source([n], [At(i)], []) == [Place(i, n)]; }
  }

  /** A slice of the only axis: the positions it picks. */
  lemma SlicePicked(t: Tensor, s: Index, j: nat)
    requires |t.shape| == 1 && s.Slice? && j < SliceLength(s, t.shape[0])
    ensures TensorIndex(t, [s]).Ok?
    ensures TensorIndex(t, [s]).value.shape == [SliceLength(s, t.shape[0])]
    ensures TensorIndex(t, [s]).value.at([j]) == t.at([SliceAt(s, t.shape[0], j)])
  {
    var n := t.shape[0];
    assert t.shape == [n] && t.shape[1..] == [] && [s][1..] == [] && [j][1..] == [];
    assert Indexable([], []) && Indexed([], []) == [] && Source([], [], []) == [];
    assert Source([n], [s], [j]) == [SliceAt(s, n, j)];
  }

  // Laying tensors end to end

  /** Row j of piece t is below all the rows of the pieces in front of it. */
  lemma {:induction false} PieceAt(ts: seq<Tensor>, t: nat, j: nat, rest: seq<nat>)
    requires forall i :: 0 <= i < |ts| ==> ts[i].shape != []
    requires t < |ts| && j < ts[t].shape[0]
    ensures Rows(ts[..t]) + j < Rows(ts) && Piece(ts, Rows(ts[..t]) + j, rest) == ts[t].at([j] + rest)
    decreases |ts|
  {
    if t == 0 {
      assert ts[..0] == [];
    } else {
      assert ts[..t][0] == ts[0] && ts[..t][1..] == ts[1..][..t - 1];
      PieceAt(ts[1..], t - 1, j, rest);
    }
  }

  /** The total length is the sum of the lengths. */
  lemma {:induction false} RowsAdd(ts: seq<Tensor>, u: Tensor)
    requires u.shape != [] && forall i :: 0 <= i < |ts| ==> ts[i].shape != []
    ensures Rows(ts + [u]) == Rows(ts) + u.shape[0] && Rows([]) == 0
  {
    if ts == [] {
      assert [] + [u] == [u] && [u][1..] == [];
    } else {
      assert (ts + [u])[1..] == ts[1..] + [u];
      RowsAdd(ts[1..], u);
    }
  }

  /** The rows in front of a piece. */
  function Above(ts: seq<Tensor>, t: nat): nat
    requires Catenable(ts) && t <= |ts|
  {
    Rows(ts[..t])
  }

  lemma CatEntries(ts: seq<Tensor>, t: nat, j: nat, rest: seq<nat>)
    requires Catenable(ts) && t < |ts| && j < ts[t].shape[0]
    ensures TensorCat(ts).Ok? && TensorCat(ts).value.at([Above(ts, t) + j] + rest) == ts[t].at([j] + rest)
  {
    PieceAt(ts, t, j, rest);
    CatEntry(ts, Above(ts, t) + j, rest);
  }

  lemma CatEntry(ts: seq<Tensor>, i: nat, rest: seq<nat>)
    requires Catenable(ts)
    ensures TensorCat(ts).Ok? && TensorCat(ts).value.shape == [Rows(ts)] + ts[0].shape[1..]
    ensures TensorCat(ts).value.at([i] + rest) == Piece(ts, i, rest)
  {
    assert ([i] + rest)[1..] == rest;
  }

  lemma StackEntries(ts: seq<Tensor>, i: nat, idx: seq<nat>)
    requires i < |ts| && forall k :: 0 <= k < |ts| ==> ts[k].shape == ts[0].shape
    ensures TensorStack(ts).Ok? && TensorStack(ts).value.shape == [|ts|] + ts[0].shape
    ensures TensorStack(ts).value.at([i] + idx) == ts[i].at(idx)
  {
    assert ([i] + idx)[1..] == idx;
  }
}
