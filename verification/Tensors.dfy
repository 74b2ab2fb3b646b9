/** Tensors as shapes with entries, and the shape operations the weight converters use. */
module Tensors {

  datatype Failure = NotImplemented | AssertionFailed | ShapeMismatch | ZeroDivision | IndexOutOfRange | KeyMissing

  datatype Result<+T> = Ok(value: T) | Err(failure: Failure) {
    predicate IsFailure() { Err? }
    function PropagateFailure<U>(): Result<U>
      requires Err?
    {
      Err(failure)
    }
    function Extract(): T
      requires Ok?
    {
      value
    }
  }

  /** Entries outside the shape are of no interest. */
  datatype Tensor = Tensor(shape: seq<nat>, at: seq<nat> -> real)

  predicate InRange(shape: seq<nat>, idx: seq<nat>) {
    |idx| == |shape| && forall i :: 0 <= i < |idx| ==> idx[i] < shape[i]
  }

  /** The same shape and the same entries. */
  ghost predicate Same(a: Tensor, b: Tensor) {
    a.shape == b.shape && forall idx :: InRange(a.shape, idx) ==> a.at(idx) == b.at(idx)
  }

  function Prod(shape: seq<nat>): nat {
    if shape == [] then 1 else Prod(shape[..|shape| - 1]) * shape[|shape| - 1]
  }

  // Row-major order

  /** The position of an entry in row-major order. */
  function Flatten(shape: seq<nat>, idx: seq<nat>): nat
    requires |idx| == |shape|
  {
    if shape == [] then 0
    else var n := |shape| - 1; Flatten(shape[..n], idx[..n]) * shape[n] + idx[n]
  }

  /** The entry at a row-major position. */
  function Unflatten(shape: seq<nat>, p: nat): (idx: seq<nat>)
    ensures |idx| == |shape|
  {
    if shape == [] then []
    else
      var n := |shape| - 1;
      var d := if shape[n] == 0 then 1 else shape[n];
      Unflatten(shape[..n], p / d) + [p % d]
  }

  lemma MulMono(a: nat, b: nat, d: nat)
    requires a <= b
    ensures a * d <= b * d
  {
  }

  lemma DivModUnique(q: nat, d: nat, r: nat)
    requires r < d
    ensures (q * d + r) / d == q && (q * d + r) % d == r
  {
    var p := q * d + r;
    var e := p / d;
    assert p == e * d + p % d;
    assert (e + 1) * d == e * d + d && (q + 1) * d == q * d + d;
    if e < q {
      MulMono(e + 1, q, d);
    } else if q < e {
      MulMono(q + 1, e, d);
    }
  }

  lemma BelowProduct(q: nat, a: nat, d: nat, r: nat)
    requires q < a && r < d
    ensures q * d + r < a * d
  {
    assert (q + 1) * d <= a * d;
  }

  lemma {:induction false} FlattenBounds(shape: seq<nat>, idx: seq<nat>)
    requires InRange(shape, idx)
    ensures Flatten(shape, idx) < Prod(shape)
    ensures Unflatten(shape, Flatten(shape, idx)) == idx
  {
    if shape != [] {
      var n := |shape| - 1;
      var f := Flatten(shape[..n], idx[..n]);
      FlattenBounds(shape[..n], idx[..n]);
      BelowProduct(f, Prod(shape[..n]), shape[n], idx[n]);
      DivModUnique(f, shape[n], idx[n]);
    }
  }

  lemma FactorPositive(a: nat, d: nat)
    requires a * d > 0
    ensures d > 0
  {
  }

  lemma {:induction false} UnflattenBounds(shape: seq<nat>, p: nat)
    requires p < Prod(shape)
    ensures InRange(shape, Unflatten(shape, p)) && Flatten(shape, Unflatten(shape, p)) == p
  {
    if shape != [] {
      var n := |shape| - 1;
      var d := shape[n];
      FactorPositive(Prod(shape[..n]), d);
      DivBelow(p, Prod(shape[..n]), d);
      UnflattenBounds(shape[..n], p / d);
      var u := Unflatten(shape[..n], p / d);
      assert (u + [p % d])[..n] == u;
    }
  }

  lemma DivBelow(p: nat, a: nat, d: nat)
    requires d > 0 && p < a * d
    ensures p / d < a && p / d * d + p % d == p
  {
    if a <= p / d { MulMono(a, p / d, d); }
  }

  /** The last axis is the innermost: what is in front of it has its own position. */
  lemma FlattenSnoc(shape: seq<nat>, n: nat, idx: seq<nat>, j: nat)
    requires |idx| == |shape|
    ensures Flatten(shape + [n], idx + [j]) == Flatten(shape, idx) * n + j
    ensures Prod(shape + [n]) == Prod(shape) * n
  {
    assert (shape + [n])[..|shape|] == shape && (idx + [j])[..|idx|] == idx;
  }

  lemma UnflattenSnoc(shape: seq<nat>, n: nat, p: nat, j: nat)
    requires j < n
    ensures Unflatten(shape + [n], p * n + j) == Unflatten(shape, p) + [j]
  {
    assert (shape + [n])[..|shape|] == shape;
    DivModUnique(p, n, j);
  }

  lemma {:induction false} FlattenConcat(a: seq<nat>, b: seq<nat>, x: seq<nat>, y: seq<nat>)
    requires |x| == |a| && |y| == |b|
    ensures Flatten(a + b, x + y) == Flatten(a, x) * Prod(b) + Flatten(b, y)
    ensures Prod(a + b) == Prod(a) * Prod(b)
  {
    if b == [] {
      assert a + b == a && x + y == x;
    } else {
      var n := |b| - 1;
      assert a + b == (a + b[..n]) + [b[n]] && x + y == (x + y[..n]) + [y[n]];
      FlattenConcat(a, b[..n], x, y[..n]);
      FlattenSnoc(a + b[..n], b[n], x + y[..n], y[n]);
      Distribute(Flatten(a, x), Prod(b[..n]), Flatten(b[..n], y[..n]), b[n]);
      Distribute(Prod(a), Prod(b[..n]), 0, b[n]);
    }
  }

  lemma Distribute(p: nat, q: nat, r: nat, d: nat)
    ensures (p * q + r) * d == p * (q * d) + r * d
  {
  }

  // Reshaping

  predicate AllNat(shape: seq<int>) { forall i :: 0 <= i < |shape| ==> shape[i] >= 0 }

  function ToNat(shape: seq<int>): (r: seq<nat>)
    requires AllNat(shape)
    ensures |r| == |shape| && forall i :: 0 <= i < |r| ==> r[i] == shape[i]
  {
    seq(|shape|, i requires 0 <= i < |shape| => shape[i] as nat)
  }

  /** The same entries in row-major order under another shape. */
  function Reshaped(t: Tensor, shape: seq<nat>): Tensor {
    Tensor(shape, idx => if |idx| == |shape| then t.at(Unflatten(t.shape, Flatten(shape, idx))) else 0.0)
  }

  function TensorReshape(t: Tensor, shape: seq<int>): Result<Tensor> {
    if AllNat(shape) && Prod(ToNat(shape)) == Prod(t.shape) then Ok(Reshaped(t, ToNat(shape)))
    else Err(ShapeMismatch)
  }

  lemma ReshapedSame(a: Tensor, b: Tensor, shape: seq<nat>)
    requires Same(a, b) && Prod(shape) == Prod(a.shape)
    ensures Same(Reshaped(a, shape), Reshaped(b, shape))
  {
    forall idx | InRange(shape, idx) ensures Reshaped(a, shape).at(idx) == Reshaped(b, shape).at(idx) {
      FlattenBounds(shape, idx);
      UnflattenBounds(a.shape, Flatten(shape, idx));
    }
  }

  // Permuting axes

  /** Axes counted from the front, negative ones having been counted from the back. */
  function Axis(d: int, rank: nat): int { if d < 0 then d + rank else d }

  predicate IsPermutation(dims: seq<int>, rank: nat) {
    && |dims| == rank
    && (forall i :: 0 <= i < rank ==> 0 <= Axis(dims[i], rank) < rank)
    && (forall i, j :: 0 <= i < j < rank ==> Axis(dims[i], rank) != Axis(dims[j], rank))
  }

  /** Where an axis of the original went. */
  function PlaceOf(dims: seq<int>, rank: nat, d: nat): (i: nat)
    ensures dims == [] ==> i == 0
    ensures dims != [] ==> i < |dims|
    ensures (exists k :: 0 <= k < |dims| && Axis(dims[k], rank) == d) ==> i < |dims| && Axis(dims[i], rank) == d
  {
    if dims == [] || Axis(dims[0], rank) == d || |dims| == 1 then 0
    else
      assert forall k :: 0 < k < |dims| ==> dims[k] == dims[1..][k - 1];
      1 + PlaceOf(dims[1..], rank, d)
  }

  /** The entry of the original that an entry of the permuted tensor comes from. */
  function Unpermute(dims: seq<int>, rank: nat, idx: seq<nat>): (r: seq<nat>)
    requires |dims| == |idx| == rank
    ensures |r| == rank
  {
    seq(rank, d requires 0 <= d < rank => idx[PlaceOf(dims, rank, d)])
  }

  function Permuted(t: Tensor, dims: seq<int>): Tensor
    requires IsPermutation(dims, |t.shape|)
  {
    var rank := |t.shape|;
    Tensor(seq(rank, i requires 0 <= i < rank => t.shape[Axis(dims[i], rank)]),
           idx => if |idx| == rank then t.at(Unpermute(dims, rank, idx)) else 0.0)
  }

  function TensorPermute(t: Tensor, dims: seq<int>): Result<Tensor> {
    if IsPermutation(dims, |t.shape|) then Ok(Permuted(t, dims)) else Err(ShapeMismatch)
  }

  // Comparing, stacking and concatenating

  /** Whether two tensors have the same size and elements, decided element by element. */
  predicate TensorEqual(a: Tensor, b: Tensor) {
    && a.shape == b.shape
    && forall p: nat :: p < Prod(a.shape) ==> a.at(Unflatten(a.shape, p)) == b.at(Unflatten(a.shape, p))
  }

  lemma TensorEqualIsSame(a: Tensor, b: Tensor)
    ensures TensorEqual(a, b) <==> Same(a, b)
  {
    if TensorEqual(a, b) {
      forall idx | InRange(a.shape, idx) ensures a.at(idx) == b.at(idx) {
        FlattenBounds(a.shape, idx);
      }
    }
    if Same(a, b) {
      forall p: nat | p < Prod(a.shape) ensures a.at(Unflatten(a.shape, p)) == b.at(Unflatten(a.shape, p)) {
        UnflattenBounds(a.shape, p);
      }
    }
  }

  /** Tensors of one shape, one after the other along a new first axis. */
  function TensorStack(ts: seq<Tensor>): Result<Tensor> {
    if ts == [] || exists i :: 0 <= i < |ts| && ts[i].shape != ts[0].shape then Err(ShapeMismatch)
    else Ok(Tensor([|ts|] + ts[0].shape,
                   idx => if |idx| > 0 && idx[0] < |ts| then ts[idx[0]].at(idx[1..]) else 0.0))
  }

  /** The total length of the first axes. */
  function Rows(ts: seq<Tensor>): nat
    requires forall i :: 0 <= i < |ts| ==> ts[i].shape != []
  {
    if ts == [] then 0 else ts[0].shape[0] + Rows(ts[1..])
  }

  /** The entry at row i below the first axes laid end to end. */
  function Piece(ts: seq<Tensor>, i: nat, rest: seq<nat>): real
    requires forall i :: 0 <= i < |ts| ==> ts[i].shape != []
  {
    if ts == [] then 0.0
    else if i < ts[0].shape[0] then ts[0].at([i] + rest)
    else Piece(ts[1..], i - ts[0].shape[0], rest)
  }

  /** Tensors that agree on every axis but the first, laid end to end along the first. */
  predicate Catenable(ts: seq<Tensor>) {
    && ts != []
    && (forall i :: 0 <= i < |ts| ==> ts[i].shape != [])
    && (forall i :: 0 <= i < |ts| ==> ts[i].shape[1..] == ts[0].shape[1..])
  }

  function TensorCat(ts: seq<Tensor>): Result<Tensor> {
    if !Catenable(ts) then Err(ShapeMismatch)
    else Ok(Tensor([Rows(ts)] + ts[0].shape[1..],
                   idx => if |idx| > 0 then Piece(ts, idx[0], idx[1..]) else 0.0))
  }

  // Indexing

  /** One position of an axis, which goes, or a slice of it, which stays. */
  datatype Index = At(i: int) | Slice(start: Bound, stop: Bound, step: pos) | Ellipsis

  datatype Bound = Open | To(position: int)

  type pos = x: int | 1 <= x witness 1

  const ALL := Slice(Open, Open, 1)

  /** A slice bound on an axis of length n: negative ones count from the back, and both ends clamp. */
  function Clamped(b: Bound, n: nat, open: nat): (r: nat)
    requires open <= n
    ensures r <= n
  {
    match b
    case Open => open
    case To(p) =>
      var q := if p < 0 then p + n else p;
      if q < 0 then 0 else if q > n then n else q
  }

  function SliceLength(s: Index, n: nat): nat
    requires s.Slice?
  {
    var lo, hi := Clamped(s.start, n, 0), Clamped(s.stop, n, n);
    if lo < hi then (hi - lo + s.step - 1) / s.step else 0
  }

  function SliceAt(s: Index, n: nat, j: nat): nat
    requires s.Slice?
  {
    Clamped(s.start, n, 0) + j * s.step
  }

  lemma AllIsWhole(n: nat, j: nat)
    ensures SliceLength(ALL, n) == n && SliceAt(ALL, n, j) == j
  {
  }

  predicate Indexable(shape: seq<nat>, ix: seq<Index>) {
    && |ix| == |shape|
    && forall i :: 0 <= i < |ix| ==> ix[i].Slice? || (ix[i].At? && 0 <= Axis(ix[i].i, shape[i]) < shape[i])
  }

  /** The shape that indexing leaves. */
  function Indexed(shape: seq<nat>, ix: seq<Index>): seq<nat>
    requires Indexable(shape, ix)
  {
    if ix == [] then []
    else (if ix[0].At? then [] else [SliceLength(ix[0], shape[0])]) + Indexed(shape[1..], ix[1..])
  }

  /** The position that one index picks on its axis, given what is left of the entry's own index. */
  function Picked(i: Index, n: nat, idx: seq<nat>): nat
    requires !i.At? ==> i.Slice? && idx != []
    requires i.At? ==> 0 <= Axis(i.i, n) < n
  {
    if i.At? then Axis(i.i, n) else SliceAt(i, n, idx[0])
  }

  function Unpicked(i: Index, idx: seq<nat>): seq<nat>
    requires !i.At? ==> idx != []
  {
    if i.At? then idx else idx[1..]
  }

  /** Where an entry of the indexed tensor comes from. */
  function Source(shape: seq<nat>, ix: seq<Index>, idx: seq<nat>): (r: seq<nat>)
    requires Indexable(shape, ix) && |idx| == |Indexed(shape, ix)|
    ensures |r| == |shape|
  {
    if ix == [] then []
    else [Picked(ix[0], shape[0], idx)] + Source(shape[1..], ix[1..], Unpicked(ix[0], idx))
  }

  function TensorIndex(t: Tensor, ix: seq<Index>): Result<Tensor> {
    if Indexable(t.shape, ix) then
      Ok(Tensor(Indexed(t.shape, ix),
                idx => if |idx| == |Indexed(t.shape, ix)| then t.at(Source(t.shape, ix, idx)) else 0.0))
    else Err(IndexOutOfRange)
  }

  lemma IndexableConcat(a: seq<nat>, b: seq<nat>, x: seq<Index>, y: seq<Index>)
    requires |a| == |x| && |b| == |y|
    ensures Indexable(a + b, x + y) <==> Indexable(a, x) && Indexable(b, y)
  {
    if Indexable(a + b, x + y) {
      forall i | 0 <= i < |x| ensures x[i].Slice? || (x[i].At? && 0 <= Axis(x[i].i, a[i]) < a[i]) {
        assert (a + b)[i] == a[i] && (x + y)[i] == x[i];
      }
      forall i | 0 <= i < |y| ensures y[i].Slice? || (y[i].At? && 0 <= Axis(y[i].i, b[i]) < b[i]) {
        assert (a + b)[|a| + i] == b[i] && (x + y)[|a| + i] == y[i];
      }
    }
  }

  lemma TailIndexable(a: seq<nat>, x: seq<Index>)
    requires Indexable(a, x) && x != []
    ensures Indexable(a[1..], x[1..])
  {
    IndexableConcat([a[0]], a[1..], [x[0]], x[1..]);
    assert [a[0]] + a[1..] == a && [x[0]] + x[1..] == x;
  }

  lemma {:induction false} IndexedConcat(a: seq<nat>, b: seq<nat>, x: seq<Index>, y: seq<Index>)
    requires Indexable(a, x) && Indexable(b, y)
    ensures Indexable(a + b, x + y)
    ensures Indexed(a + b, x + y) == Indexed(a, x) + Indexed(b, y)
  {
    IndexableConcat(a, b, x, y);
    if x == [] {
      assert a + b == b && x + y == y;
    } else {
      TailIndexable(a, x);
      assert (a + b)[1..] == a[1..] + b && (x + y)[1..] == x[1..] + y;
      IndexedConcat(a[1..], b, x[1..], y);
    }
  }

  lemma ConsConcat(h: nat, s: seq<nat>, t: seq<nat>)
    ensures [h] + (s + t) == ([h] + s) + t
  {
  }

  lemma {:induction false} SourceConcat(a: seq<nat>, b: seq<nat>, x: seq<Index>, y: seq<Index>,
                                        u: seq<nat>, v: seq<nat>)
    requires Indexable(a, x) && Indexable(b, y) && |u| == |Indexed(a, x)| && |v| == |Indexed(b, y)|
    ensures Indexable(a + b, x + y) && Indexed(a + b, x + y) == Indexed(a, x) + Indexed(b, y)
    ensures Source(a + b, x + y, u + v) == Source(a, x, u) + Source(b, y, v)
    decreases |x|, 1
  {
    IndexedConcat(a, b, x, y);
    if x == [] {
      assert a + b == b && x + y == y && u + v == v;
    } else {
      SourceConcatStep(a, b, x, y, u, v);
    }
  }

  lemma PickedFirst(i: Index, n: nat, u: seq<nat>, v: seq<nat>)
    requires !i.At? ==> i.Slice? && u != []
    requires i.At? ==> 0 <= Axis(i.i, n) < n
    ensures Picked(i, n, u + v) == Picked(i, n, u) && Unpicked(i, u + v) == Unpicked(i, u) + v
  {
  }

  /** The first index settles the first place; the others settle the rest. */
  lemma SourceStep(a: seq<nat>, x: seq<Index>, u: seq<nat>, h: nat, c: seq<nat>, z: seq<Index>, w: seq<nat>)
    requires Indexable(a, x) && |u| == |Indexed(a, x)| && x != []
    requires h == Picked(x[0], a[0], u) && c == a[1..] && z == x[1..] && w == Unpicked(x[0], u)
    ensures Indexable(c, z) && |w| == |Indexed(c, z)|
    ensures Source(a, x, u) == [h] + Source(c, z, w)
  {
    TailIndexable(a, x);
  }

  lemma HeadTail<T>(a: seq<T>, b: seq<T>)
    requires a != []
    ensures (a + b)[0] == a[0] && (a + b)[1..] == a[1..] + b
  {
  }

  lemma SourceSteps(a: seq<nat>, b: seq<nat>, x: seq<Index>, y: seq<Index>, u: seq<nat>, v: seq<nat>,
                    h: nat, c: seq<nat>, z: seq<Index>, w: seq<nat>)
    requires Indexable(a, x) && |u| == |Indexed(a, x)| && x != []
    requires h == Picked(x[0], a[0], u) && c == a[1..] && z == x[1..] && w == Unpicked(x[0], u)
    requires |a| == |x| && Indexable(a + b, x + y) && |u + v| == |Indexed(a + b, x + y)|
    ensures Indexable(c + b, z + y) && |w + v| == |Indexed(c + b, z + y)|
    ensures Source(a + b, x + y, u + v) == [h] + Source(c + b, z + y, w + v)
  {
    PickedFirst(x[0], a[0], u, v);
    HeadTail(a, b);
    HeadTail(x, y);
    SourceStep(a + b, x + y, u + v, h, c + b, z + y, w + v);
  }

  lemma {:induction false} SourceConcatStep(a: seq<nat>, b: seq<nat>, x: seq<Index>, y: seq<Index>,
                                            u: seq<nat>, v: seq<nat>)
    requires Indexable(a, x) && Indexable(b, y) && |u| == |Indexed(a, x)| && |v| == |Indexed(b, y)|
    requires x != []
    requires Indexable(a + b, x + y) && Indexed(a + b, x + y) == Indexed(a, x) + Indexed(b, y)
    ensures Source(a + b, x + y, u + v) == Source(a, x, u) + Source(b, y, v)
    decreases |x|, 0
  {
    var h, c, z, w := Picked(x[0], a[0], u), a[1..], x[1..], Unpicked(x[0], u);
    SourceStep(a, x, u, h, c, z, w);
    SourceSteps(a, b, x, y, u, v, h, c, z, w);
    SourceConcat(c, b, z, y, w, v);
    ConsConcat(h, Source(c, z, w), Source(b, y, v));
  }
}
