/** The re-layout of attention heads, on a weight and on its low-rank factors. */
module HeadPermute {
  import opened Tensors
  import opened Lora
  import opened LoraReshaping
  import opened LoraAxes
  import opened Text

  function ChosenHeads(nHead: nat, nHeadKv: Option<nat>): nat {
    if nHeadKv.Some? && nHead != nHeadKv.value then nHeadKv.value else nHead
  }

  /** Each head's rows as two halves: heads, halves and positions in a half, then the other axes. */
  function Halved(shape: seq<nat>, heads: nat): seq<nat>
    requires shape != [] && heads > 0
  {
    [heads, 2, shape[0] / heads / 2] + shape[1..]
  }

  function Permute(t: Tensor, nHead: nat, nHeadKv: Option<nat>): Result<Tensor> {
    var heads := ChosenHeads(nHead, nHeadKv);
    if t.shape == [] then Err(IndexOutOfRange)
    else if heads == 0 then Err(ZeroDivision)
    else
      var halved :- TensorReshape(t, Halved(t.shape, heads));
      var swapped :- TensorPermute(halved, Swapped(|halved.shape|, 1, 2));
      TensorReshape(swapped, t.shape)
  }

  function PermuteLora(l: Lora, nHead: nat, nHeadKv: Option<nat>): Result<Lora>
    requires Valid(l)
  {
    var heads := ChosenHeads(nHead, nHeadKv);
    if heads == 0 then Err(ZeroDivision)
    else
      var halved :- LoraReshape(l, Halved(Shape(l), heads));
      if !Valid(halved) then Err(AssertionFailed)
      else
        var swapped :- LoraTranspose(halved, 1, 2);
        if !Valid(swapped) then Err(AssertionFailed)
        else LoraReshape(swapped, Shape(l))
  }

  // The row that a row comes from

  /** Position p of half s of head h, with m positions to a half, before the permutation. */
  function HalvesRow(m: nat, h: nat, s: nat, p: nat): nat { h * (2 * m) + s * m + p }

  /** Where it is afterwards: the halves interleaved. */
  function InterleavedRow(m: nat, h: nat, s: nat, p: nat): nat { h * (2 * m) + 2 * p + s }

  function Quotient(a: nat, d: nat): nat
    requires d > 0
  {
    a / d
  }

  function Remainder(a: nat, d: nat): (r: nat)
    requires d > 0
    ensures r < d
  {
    a % d
  }

  /** The row that row i of the result comes from. */
  function FromRow(m: nat, i: nat): nat
    requires m > 0
  {
    var r := Remainder(i, 2 * m);
    HalvesRow(m, Quotient(i, 2 * m), r % 2, r / 2)
  }

  /** The row of the result that row i goes to. */
  function ToRow(m: nat, i: nat): nat
    requires m > 0
  {
    var r := Remainder(i, 2 * m);
    InterleavedRow(m, Quotient(i, 2 * m), Quotient(r, m), Remainder(r, m))
  }

  lemma Within(m: nat, s: nat, p: nat)
    requires s < 2 && p < m
    ensures s * m + p < 2 * m && Quotient(s * m + p, m) == s && Remainder(s * m + p, m) == p
    ensures (2 * p + s) < 2 * m && (2 * p + s) / 2 == p && (2 * p + s) % 2 == s
  {
    DivModUnique(s, m, p);
    if s == 0 { assert s * m == 0; } else { assert s * m == m; }
  }

  lemma Parts(h: nat, d: nat, r: nat)
    requires r < d
    ensures Quotient(h * d + r, d) == h && Remainder(h * d + r, d) == r
  {
    DivModUnique(h, d, r);
  }

  /** The permutation takes the halves of each head to their interleaving, and no two rows to one. */
  lemma RowsMove(m: nat, h: nat, s: nat, p: nat)
    requires s < 2 && p < m
    ensures FromRow(m, InterleavedRow(m, h, s, p)) == HalvesRow(m, h, s, p)
    ensures ToRow(m, HalvesRow(m, h, s, p)) == InterleavedRow(m, h, s, p)
  {
    Within(m, s, p);
    Parts(h, 2 * m, s * m + p);
    Parts(h, 2 * m, 2 * p + s);
    assert HalvesRow(m, h, s, p) == h * (2 * m) + (s * m + p);
    assert InterleavedRow(m, h, s, p) == h * (2 * m) + (2 * p + s);
  }

  lemma HalvesOf(m: nat, r: nat)
    requires r < 2 * m
    ensures r % 2 < 2 && r / 2 < m && r == 2 * (r / 2) + r % 2
  {
  }

  lemma RowBounds(heads: nat, d: nat, i: nat)
    requires d > 0 && i < heads * d
    ensures Quotient(i, d) < heads && i == Quotient(i, d) * d + Remainder(i, d)
  {
    DivBelow(i, heads, d);
  }

  lemma RowBelow(m: nat, heads: nat, h: nat, s: nat, p: nat)
    requires h < heads && s < 2 && p < m
    ensures HalvesRow(m, h, s, p) < heads * (2 * m) && InterleavedRow(m, h, s, p) < heads * (2 * m)
  {
    Within(m, s, p);
    BelowProduct(h, heads, 2 * m, s * m + p);
    BelowProduct(h, heads, 2 * m, 2 * p + s);
  }

  lemma ThereAndBack(m: nat, heads: nat, i: nat)
    requires m > 0 && i < heads * (2 * m)
    ensures FromRow(m, i) < heads * (2 * m) && ToRow(m, FromRow(m, i)) == i
  {
    var h, r := Quotient(i, 2 * m), Remainder(i, 2 * m);
    RowBounds(heads, 2 * m, i);
    HalvesOf(m, r);
    RowsMove(m, h, r % 2, r / 2);
    RowBelow(m, heads, h, r % 2, r / 2);
  }

  lemma BackAndThere(m: nat, heads: nat, i: nat)
    requires m > 0 && i < heads * (2 * m)
    ensures ToRow(m, i) < heads * (2 * m) && FromRow(m, ToRow(m, i)) == i
  {
    var h, r := Quotient(i, 2 * m), Remainder(i, 2 * m);
    RowBounds(heads, 2 * m, i);
    RowBounds(2, m, r);
    RowsMove(m, h, Quotient(r, m), Remainder(r, m));
    RowBelow(m, heads, h, Quotient(r, m), Remainder(r, m));
  }

  /** The two are inverse to each other, head by head. */
  lemma RowsInverse(m: nat, heads: nat, i: nat)
    requires m > 0 && i < heads * (2 * m)
    ensures FromRow(m, i) < heads * (2 * m) && ToRow(m, FromRow(m, i)) == i
    ensures ToRow(m, i) < heads * (2 * m) && FromRow(m, ToRow(m, i)) == i
  {
    ThereAndBack(m, heads, i);
    BackAndThere(m, heads, i);
  }

  // The tensor

  lemma ThreeAxes(a: nat, b: nat, c: nat, x: nat, y: nat, z: nat)
    ensures Prod([a, b, c]) == a * b * c && Flatten([a, b, c], [x, y, z]) == (x * b + y) * c + z
  {
    FlattenSnoc([], a, [], x);
    FlattenSnoc([a], b, [x], y);
    FlattenSnoc([a, b], c, [x, y], z);
    assert [] + [a] == [a] && [a] + [b] == [a, b] && [a, b] + [c] == [a, b, c];
    assert [] + [x] == [x] && [x] + [y] == [x, y] && [x, y] + [z] == [x, y, z];
  }

  lemma OneAxis(a: nat, x: nat)
    ensures Prod([a]) == a && Flatten([a], [x]) == x
  {
    FlattenSnoc([], a, [], x);
    assert [] + [a] == [a] && [] + [x] == [x];
  }

  lemma SamePlace(a: seq<nat>, x: seq<nat>, b: seq<nat>, y: seq<nat>)
    requires InRange(a, x) && InRange(b, y) && Flatten(a, x) == Flatten(b, y)
    ensures Unflatten(a, Flatten(b, y)) == x
  {
    FlattenBounds(a, x);
  }

  lemma SplitFlat(a: nat, b: nat, c: nat, w: seq<nat>, x: nat, y: nat, z: nat, i: nat, rest: seq<nat>)
    requires i == (x * b + y) * c + z && |rest| == |w|
    ensures Flatten([a * b * c] + w, [i] + rest) == Flatten([a, b, c] + w, [x, y, z] + rest)
  {
    ThreeAxes(a, b, c, x, y, z);
    OneAxis(a * b * c, i);
    FlattenConcat([a, b, c], w, [x, y, z], rest);
    FlattenConcat([a * b * c], w, [i], rest);
  }

  /** A row split in three, and the same row whole, are at the same row-major position. */
  lemma SplitRow(a: nat, b: nat, c: nat, w: seq<nat>, x: nat, y: nat, z: nat, i: nat, rest: seq<nat>)
    requires x < a && y < b && z < c && i == (x * b + y) * c + z && InRange(w, rest)
    ensures i < a * b * c
    ensures Unflatten([a, b, c] + w, Flatten([a * b * c] + w, [i] + rest)) == [x, y, z] + rest
    ensures Unflatten([a * b * c] + w, Flatten([a, b, c] + w, [x, y, z] + rest)) == [i] + rest
  {
    BelowProduct(x, a, b, y);
    BelowProduct(x * b + y, a * b, c, z);
    SplitFlat(a, b, c, w, x, y, z, i, rest);
    SamePlace([a, b, c] + w, [x, y, z] + rest, [a * b * c] + w, [i] + rest);
    SamePlace([a * b * c] + w, [i] + rest, [a, b, c] + w, [x, y, z] + rest);
  }

  lemma SwappedPlaces(n: nat, d: nat)
    requires n >= 3 && d < n
    ensures IsPermutation(Swapped(n, 1, 2), n)
    ensures PlaceOf(Swapped(n, 1, 2), n, d) == if d == 1 then 2 else if d == 2 then 1 else d
  {
    EveryAxisPlaced(Swapped(n, 1, 2), n, d);
  }

  lemma UnpermuteSwapped(n: nat, x: nat, y: nat, z: nat, rest: seq<nat>)
    requires n == |rest| + 3
    ensures IsPermutation(Swapped(n, 1, 2), n)
    ensures Unpermute(Swapped(n, 1, 2), n, [x, y, z] + rest) == [x, z, y] + rest
  {
    var idx := [x, y, z] + rest;
    var u := Unpermute(Swapped(n, 1, 2), n, idx);
    SwappedPlaces(n, 0);
    forall d: nat | d < n ensures u[d] == ([x, z, y] + rest)[d] { SwappedPlaces(n, d); }
  }

  /** The shapes on the way, for a number of rows that the heads divide evenly. */
  lemma PermuteShapes(t: Tensor, heads: nat, m: nat)
    requires heads > 0 && t.shape != [] && t.shape[0] == heads * 2 * m
    ensures t.shape[0] / heads / 2 == m
    ensures t.shape == [heads * 2 * m] + t.shape[1..] && Halved(t.shape, heads) == [heads, 2, m] + t.shape[1..]
    ensures Prod(Halved(t.shape, heads)) == Prod(t.shape) == Prod([heads, m, 2] + t.shape[1..])
  {
    EvenSplit(heads, m);
    var w := t.shape[1..];
    ThreeAxes(heads, 2, m, 0, 0, 0);
    ThreeAxes(heads, m, 2, 0, 0, 0);
    OneAxis(heads * 2 * m, 0);
    FlattenConcat([heads, 2, m], w, [0, 0, 0], Zeros(|w|));
    FlattenConcat([heads, m, 2], w, [0, 0, 0], Zeros(|w|));
    FlattenConcat([heads * 2 * m], w, [0], Zeros(|w|));
    Commuted(heads, m);
  }

  lemma EvenSplit(heads: nat, m: nat)
    requires heads > 0
    ensures heads * 2 * m / heads / 2 == m
  {
    DivModUnique(2 * m, heads, 0);
    assert heads * 2 * m == 2 * m * heads + 0;
  }

  lemma Commuted(heads: nat, m: nat)
    ensures heads * 2 * m == heads * m * 2
  {
  }

  lemma NatShape(s: seq<nat>)
    ensures AllNat(s) && ToNat(s) == s
  {
  }

  /** What the three steps make. */
  function PermutedHeads(t: Tensor, heads: nat): Tensor
    requires heads > 0 && t.shape != []
  {
    var halved := Reshaped(t, Halved(t.shape, heads));
    SwappedPlaces(|halved.shape|, 0);
    Reshaped(Permuted(halved, Swapped(|halved.shape|, 1, 2)), t.shape)
  }

  lemma PermuteOk(t: Tensor, nHead: nat, nHeadKv: Option<nat>, heads: nat, m: nat)
    requires heads == ChosenHeads(nHead, nHeadKv) && heads > 0 && t.shape != [] && t.shape[0] == heads * 2 * m
    ensures Permute(t, nHead, nHeadKv) == Ok(PermutedHeads(t, heads))
  {
    PermuteShapes(t, heads, m);
    NatShape(t.shape);
    NatShape(Halved(t.shape, heads));
    SwappedPlaces(|t.shape| + 2, 0);
    assert Permuted(Reshaped(t, Halved(t.shape, heads)), Swapped(|t.shape| + 2, 1, 2)).shape
        == [heads, m, 2] + t.shape[1..];
  }

  /** The number of key-value heads decides where there is one, else that of the query heads. */
  lemma KeyValueHeadsDecide(t: Tensor, nHead: nat, heads: nat, m: nat)
    requires heads > 0 && t.shape != [] && t.shape[0] == heads * 2 * m
    ensures Permute(t, nHead, Some(heads)) == Ok(PermutedHeads(t, heads))
    ensures Permute(t, heads, None) == Ok(PermutedHeads(t, heads))
  {
    PermuteOk(t, nHead, Some(heads), heads, m);
    PermuteOk(t, heads, None, heads, m);
  }

  /** The head, half and position that row i of the result comes from. */
  lemma RowParts(heads: nat, m: nat, i: nat) returns (h: nat, s: nat, p: nat)
    requires m > 0 && i < heads * (2 * m)
    ensures h < heads && s < 2 && p < m
    ensures i == (h * m + p) * 2 + s && FromRow(m, i) == (h * 2 + s) * m + p
  {
    RowBounds(heads, 2 * m, i);
    var r := Remainder(i, 2 * m);
    HalvesOf(m, r);
    h, s, p := Quotient(i, 2 * m), r % 2, r / 2;
    Regroup(heads, m, h, s, p);
  }

  lemma PermutedParts(t: Tensor, w: seq<nat>, heads: nat, m: nat, h: nat, s: nat, p: nat, i: nat, j: nat,
                      rest: seq<nat>)
    requires t.shape == [heads * 2 * m] + w && InRange(w, rest)
    requires h < heads && s < 2 && p < m && i == (h * m + p) * 2 + s && j == (h * 2 + s) * m + p
    requires IsPermutation(Swapped(|w| + 3, 1, 2), |w| + 3)
    ensures Reshaped(Permuted(Reshaped(t, [heads, 2, m] + w), Swapped(|w| + 3, 1, 2)), t.shape).at([i] + rest)
         == t.at([j] + rest)
  {
    var halved := Reshaped(t, [heads, 2, m] + w);
    var swapped := Permuted(halved, Swapped(|w| + 3, 1, 2));
    assert swapped.shape == [heads, m, 2] + w;
    Commuted(heads, m);
    SplitRow(heads, m, 2, w, h, p, s, i, rest);
    SplitRow(heads, 2, m, w, h, s, p, j, rest);
    SwappedEntry3(halved, swapped, w, h, p, s, rest);
  }

  /** Row i of the result is row FromRow(i) of the weight. */
  lemma PermutesRows(t: Tensor, heads: nat, m: nat, i: nat, rest: seq<nat>)
    requires heads > 0 && t.shape != [] && t.shape[0] == heads * 2 * m
    requires i < t.shape[0] && InRange(t.shape[1..], rest)
    ensures m > 0 && PermutedHeads(t, heads).at([i] + rest) == t.at([FromRow(m, i)] + rest)
  {
    PermuteShapes(t, heads, m);
    FactorPositive(heads * 2, m);
    SwappedPlaces(|t.shape| + 2, 0);
    Regroup(heads, m, 0, 0, 0);
    var h, s, p := RowParts(heads, m, i);
    PermutedParts(t, t.shape[1..], heads, m, h, s, p, i, FromRow(m, i), rest);
  }

  lemma SwappedEntry3(halved: Tensor, swapped: Tensor, w: seq<nat>, x: nat, y: nat, z: nat, rest: seq<nat>)
    requires |halved.shape| == |w| + 3 && |rest| == |w| && IsPermutation(Swapped(|w| + 3, 1, 2), |w| + 3)
    requires swapped == Permuted(halved, Swapped(|w| + 3, 1, 2))
    ensures swapped.at([x, y, z] + rest) == halved.at([x, z, y] + rest)
  {
    UnpermuteSwapped(|w| + 3, x, y, z, rest);
  }

  lemma Regroup(heads: nat, m: nat, h: nat, s: nat, p: nat)
    ensures heads * (2 * m) == heads * 2 * m == heads * m * 2
    ensures h * (2 * m) + (2 * p + s) == (h * m + p) * 2 + s
    ensures HalvesRow(m, h, s, p) == (h * 2 + s) * m + p
  {
  }

  /** A row count that the heads do not divide into halves is refused, unless the tensor is empty. */
  lemma UnevenRowsRefused(t: Tensor, nHead: nat, nHeadKv: Option<nat>)
    requires t.shape != [] && ChosenHeads(nHead, nHeadKv) > 0 && Prod(t.shape[1..]) > 0
    ensures Permute(t, nHead, nHeadKv).Ok? <==>
            exists m: nat :: t.shape[0] == ChosenHeads(nHead, nHeadKv) * 2 * m
  {
    var heads := ChosenHeads(nHead, nHeadKv);
    if m: nat :| t.shape[0] == heads * 2 * m {
      PermuteOk(t, nHead, nHeadKv, heads, m);
    }
    if Permute(t, nHead, nHeadKv).Ok? {
      NatShape(Halved(t.shape, heads));
      HalvedRows(t.shape, heads, t.shape[0] / heads / 2);
    }
  }

  /** As many entries as halves of heads, in rows that are not empty: the rows divide into them. */
  lemma HalvedRows(shape: seq<nat>, heads: nat, m: nat)
    requires shape != [] && Prod(shape[1..]) > 0 && Prod([heads, 2, m] + shape[1..]) == Prod(shape)
    ensures shape[0] == heads * 2 * m
  {
    var w := shape[1..];
    ThreeAxes(heads, 2, m, 0, 0, 0);
    OneAxis(shape[0], 0);
    FlattenConcat([heads, 2, m], w, [0, 0, 0], Zeros(|w|));
    FlattenConcat([shape[0]], w, [0], Zeros(|w|));
    assert shape == [shape[0]] + w;
    Cancel(heads * 2 * m, shape[0], Prod(w));
  }

  // The factors

  lemma PermutedSame(a: Tensor, b: Tensor, dims: seq<int>)
    requires Same(a, b) && IsPermutation(dims, |a.shape|)
    ensures Same(Permuted(a, dims), Permuted(b, dims))
  {
    var n := |a.shape|;
    forall idx | InRange(Permuted(a, dims).shape, idx)
      ensures Permuted(a, dims).at(idx) == Permuted(b, dims).at(idx)
    {
      var u := Unpermute(dims, n, idx);
      forall d: nat | d < n ensures u[d] < a.shape[d] {
        EveryAxisPlaced(dims, n, d);
        assert idx[PlaceOf(dims, n, d)] < Permuted(a, dims).shape[PlaceOf(dims, n, d)];
      }
      assert InRange(a.shape, u);
    }
  }

  lemma InferNothing(n: nat, shape: seq<nat>)
    ensures Infer(n, shape) == Ok(shape)
  {
  }

  /** Each reshape of the factors is the reshape of the product to the same shape. */
  lemma ReshapeStep(l: Lora, shape: seq<nat>, m: Lora)
    requires Valid(l) && LeadingOnes(l) && Rank(l) > 0 && LoraReshape(l, shape) == Ok(m)
    ensures Valid(m) && LeadingOnes(m) && Rank(m) == Rank(l)
    ensures Prod(shape) == Prod(Shape(l)) && TensorReshape(Product(l), shape) == Ok(Reshaped(Product(l), shape))
    ensures Same(Product(m), Reshaped(Product(l), shape))
  {
    InferNothing(Prod(Shape(l)), shape);
    ReshapeCommutes(l, shape);
    NatShape(shape);
    var front := ReshapeResult(l, shape);
    ReshapedShape(l, m, front);
  }

  lemma SwapStep(l: Lora, m: Lora)
    requires Valid(l) && LeadingOnes(l) && Depth(l) > 2 && LoraTranspose(l, 1, 2) == Ok(m)
    ensures Valid(m) && LeadingOnes(m) && Rank(m) == Rank(l)
    ensures IsPermutation(Swapped(Depth(l), 1, 2), Depth(l))
    ensures Same(Product(m), Permuted(Product(l), Swapped(Depth(l), 1, 2)))
  {
    TransposeCommutes(l, 1, 2);
    SwapResult(l, m);
  }

  /** Swapping two inner axes swaps those of B. */
  lemma SwapResult(l: Lora, m: Lora)
    requires Valid(l) && LeadingOnes(l) && Depth(l) > 2 && LoraTranspose(l, 1, 2) == Ok(m)
    ensures Depth(l) > 3 && m.A == l.A && Valid(m) && Rank(m) == Rank(l)
    ensures IsPermutation(Swapped(Depth(l), 1, 2), Depth(l))
    ensures Same(m.B, Permuted(l.B, Swapped(Depth(l), 1, 2)))
  {
    var n := Depth(l);
    TransposeCommutes(l, 1, 2);
    var dims := Swapped(n, 1, 2);
    BackwardSame(l.B, dims);
    assert dims[n - 1] == n - 1 && Backward(dims, n)[n - 1] == -1;
    PermutedShape(l.B, Backward(dims, n), n - 1);
  }

  lemma PermutedShape(t: Tensor, dims: seq<int>, i: nat)
    requires IsPermutation(dims, |t.shape|) && i < |t.shape| && dims[i] == i - |t.shape|
    ensures |Permuted(t, dims).shape| == |t.shape| && Permuted(t, dims).shape[i] == t.shape[i]
  {
  }

  /** Whenever the factors can be permuted so can the product, and it is the product of what they become. */
  lemma PermuteCommutes(l: Lora, nHead: nat, nHeadKv: Option<nat>)
    requires Valid(l) && LeadingOnes(l) && Rank(l) > 0
    requires PermuteLora(l, nHead, nHeadKv).Ok?
    ensures Permute(Product(l), nHead, nHeadKv).Ok? && Valid(PermuteLora(l, nHead, nHeadKv).value)
    ensures Same(Product(PermuteLora(l, nHead, nHeadKv).value), Permute(Product(l), nHead, nHeadKv).value)
  {
    var s1 := Halved(Shape(l), ChosenHeads(nHead, nHeadKv));
    var a := LoraReshape(l, s1).value;
    ReshapeStep(l, s1, a);
    var b := LoraTranspose(a, 1, 2).value;
    SwapStep(a, b);
    var c := LoraReshape(b, Shape(l)).value;
    var q := ThreeSteps(l, s1, a, b, c);
    PermuteSteps(Product(l), nHead, nHeadKv, Reshaped(Product(l), s1), q);
    PermuteLoraSteps(l, nHead, nHeadKv, a, b, c);
  }

  /** What the three steps make of the product. */
  lemma ThreeSteps(l: Lora, s1: seq<nat>, a: Lora, b: Lora, c: Lora) returns (q: Tensor)
    requires Valid(l) && LeadingOnes(l) && Rank(l) > 0 && |s1| > 3 && LoraReshape(l, s1) == Ok(a)
    requires Valid(a) && LoraTranspose(a, 1, 2) == Ok(b) && Valid(b) && LoraReshape(b, Shape(l)) == Ok(c)
    ensures TensorReshape(Product(l), s1) == Ok(Reshaped(Product(l), s1))
    ensures IsPermutation(Swapped(|s1|, 1, 2), |s1|)
    ensures q == Permuted(Reshaped(Product(l), s1), Swapped(|s1|, 1, 2)) && Prod(q.shape) == Prod(Shape(l))
    ensures Valid(c) && Same(Product(c), Reshaped(q, Shape(l)))
  {
    ReshapeStep(l, s1, a);
    SwapStep(a, b);
    ReshapeStep(b, Shape(l), c);
    var p := Reshaped(Product(l), s1);
    q := Permuted(p, Swapped(|s1|, 1, 2));
    PermutedSame(Product(a), p, Swapped(|s1|, 1, 2));
    ReshapedSame(Product(b), q, Shape(l));
  }

  lemma PermuteSteps(t: Tensor, nHead: nat, nHeadKv: Option<nat>, p: Tensor, q: Tensor)
    requires ChosenHeads(nHead, nHeadKv) > 0 && t.shape != []
    requires TensorReshape(t, Halved(t.shape, ChosenHeads(nHead, nHeadKv))) == Ok(p)
    requires IsPermutation(Swapped(|p.shape|, 1, 2), |p.shape|) && q == Permuted(p, Swapped(|p.shape|, 1, 2))
    requires Prod(t.shape) == Prod(q.shape)
    ensures Permute(t, nHead, nHeadKv) == Ok(Reshaped(q, t.shape))
  {
    NatShape(t.shape);
  }

  /** Splitting a tensor's axes and joining them again gives it back. */
  lemma ReshapedBack(t: Tensor, shape: seq<nat>)
    requires Prod(shape) == Prod(t.shape)
    ensures Same(Reshaped(Reshaped(t, shape), t.shape), t)
  {
    var u := Reshaped(Reshaped(t, shape), t.shape);
    forall idx | InRange(t.shape, idx) ensures u.at(idx) == t.at(idx) {
      FlattenBounds(t.shape, idx);
      UnflattenBounds(shape, Flatten(t.shape, idx));
    }
  }

  /** What reshaping to a shape with the last axis kept does to each factor. */
  lemma FactorsReshaped(l: Lora, shape: seq<nat>, front: seq<nat>) returns (m: Lora)
    requires Valid(l) && LeadingOnes(l) && Rank(l) > 0
    requires shape == front + [Last(l)] && front != [] && Prod(front) == Prod(Front(l))
    ensures LoraReshape(l, shape) == Ok(m)
    ensures m.A == Reshaped(l.A, Ones(|front| - 1) + [Rank(l), Last(l)]) && m.B == Reshaped(l.B, front + [Rank(l)])
    ensures Valid(m) && LeadingOnes(m) && Rank(m) == Rank(l) && Last(m) == Last(l) && Front(m) == front
  {
    InferNothing(Prod(Shape(l)), shape);
    ReshapeOk(l, shape, shape, front);
    var f := ReshapeResult(l, shape);
    NatShape(shape);
    assert f + [Last(l)] == shape;
    assert f == shape[..|f|] == front;
    m := LoraReshape(l, shape).value;
    ReshapedShape(l, m, front);
  }

  lemma SwappedFactors(a: Lora, heads: nat, m: nat, w: seq<nat>) returns (b: Lora)
    requires Valid(a) && LeadingOnes(a) && Front(a) == [heads, 2, m] + w
    ensures LoraTranspose(a, 1, 2) == Ok(b)
    ensures Valid(b) && LeadingOnes(b) && Rank(b) == Rank(a) && Last(b) == Last(a) && b.A == a.A
    ensures Front(b) == [heads, m, 2] + w
    ensures IsPermutation(Swapped(Depth(a), 1, 2), Depth(a))
    ensures Same(b.B, Permuted(a.B, Swapped(Depth(a), 1, 2)))
  {
    TransposeCommutes(a, 1, 2);
    b := LoraTranspose(a, 1, 2).value;
    SwapResult(a, b);
    SwappedFront(a, b, heads, m, w);
  }

  lemma PermuteLoraSteps(l: Lora, nHead: nat, nHeadKv: Option<nat>, a: Lora, b: Lora, c: Lora)
    requires Valid(l) && ChosenHeads(nHead, nHeadKv) > 0
    requires LoraReshape(l, Halved(Shape(l), ChosenHeads(nHead, nHeadKv))) == Ok(a) && Valid(a)
    requires LoraTranspose(a, 1, 2) == Ok(b) && Valid(b) && LoraReshape(b, Shape(l)) == Ok(c)
    ensures PermuteLora(l, nHead, nHeadKv) == Ok(c)
  {
  }

  /**
   * On low-rank factors the permutation moves B's rows alone: A is what it was, and B is B permuted.
   */
  lemma OnlyRowsMove(l: Lora, nHead: nat, nHeadKv: Option<nat>, m: nat)
    requires Valid(l) && LeadingOnes(l) && Rank(l) > 0 && ChosenHeads(nHead, nHeadKv) > 0
    requires Front(l)[0] == ChosenHeads(nHead, nHeadKv) * 2 * m
    ensures PermuteLora(l, nHead, nHeadKv).Ok?
    ensures Same(PermuteLora(l, nHead, nHeadKv).value.A, l.A)
    ensures Same(PermuteLora(l, nHead, nHeadKv).value.B, PermutedHeads(l.B, ChosenHeads(nHead, nHeadKv)))
  {
    var heads := ChosenHeads(nHead, nHeadKv);
    var f1 := [heads, 2, m] + Front(l)[1..];
    FrontHalved(l, heads, m, f1);
    var a := FactorsReshaped(l, Halved(Shape(l), heads), f1);
    var b := SwappedFactors(a, heads, m, Front(l)[1..]);
    var c := FactorsReshaped(b, Shape(l), Front(l));
    PermuteLoraSteps(l, nHead, nHeadKv, a, b, c);
    AGoesBack(l, a, c, f1);
    ShapeA(l);
    BIsPermuted(l, a, b, c, heads, m);
  }

  /** So it is with low-rank factors. */
  lemma KeyValueHeadsDecideLora(l: Lora, nHead: nat, heads: nat, m: nat)
    requires Valid(l) && LeadingOnes(l) && Rank(l) > 0 && heads > 0 && Front(l)[0] == heads * 2 * m
    ensures PermuteLora(l, nHead, Some(heads)).Ok? && PermuteLora(l, heads, None) == PermuteLora(l, nHead, Some(heads))
    ensures Same(PermuteLora(l, nHead, Some(heads)).value.A, l.A)
    ensures Same(PermuteLora(l, nHead, Some(heads)).value.B, PermutedHeads(l.B, heads))
  {
    OnlyRowsMove(l, nHead, Some(heads), m);
    OnlyRowsMove(l, heads, None, m);
  }

  lemma FrontHalved(l: Lora, heads: nat, m: nat, f1: seq<nat>)
    requires Valid(l) && heads > 0 && Front(l)[0] == heads * 2 * m && f1 == [heads, 2, m] + Front(l)[1..]
    ensures Halved(Shape(l), heads) == f1 + [Last(l)] && Halved(l.B.shape, heads) == f1 + [Rank(l)]
    ensures Prod(f1) == Prod(Front(l)) == Prod([heads, m, 2] + Front(l)[1..])
  {
    EvenSplit(heads, m);
    assert Shape(l)[1..] == Front(l)[1..] + [Last(l)] && l.B.shape[1..] == Front(l)[1..] + [Rank(l)];
    PermuteShapes(Tensor(Front(l), idx => 0.0), heads, m);
  }

  lemma SwappedFront(a: Lora, b: Lora, heads: nat, m: nat, w: seq<nat>)
    requires Valid(a) && Valid(b) && Front(a) == [heads, 2, m] + w
    requires IsPermutation(Swapped(Depth(a), 1, 2), Depth(a))
    requires b.B.shape == Permuted(a.B, Swapped(Depth(a), 1, 2)).shape
    ensures Front(b) == [heads, m, 2] + w
  {
    assert a.B.shape == [heads, 2, m] + w + [Rank(a)];
  }

  lemma AGoesBack(l: Lora, a: Lora, c: Lora, f1: seq<nat>)
    requires Valid(l) && LeadingOnes(l) && |f1| >= 1
    requires a.A == Reshaped(l.A, Ones(|f1| - 1) + [Rank(l), Last(l)])
    requires c.A == Reshaped(a.A, Ones(|Front(l)| - 1) + [Rank(l), Last(l)])
    ensures Same(c.A, l.A)
  {
    MatrixPosition(Ones(|f1| - 1), Rank(l), Last(l), 0, 0);
    MatrixPosition(Leading(l), Rank(l), Last(l), 0, 0);
    assert Leading(l) == Ones(|Front(l)| - 1);
    ShapeA(l);
    ReshapedBack(l.A, Ones(|f1| - 1) + [Rank(l), Last(l)]);
  }

  lemma BIsPermuted(l: Lora, a: Lora, b: Lora, c: Lora, heads: nat, m: nat)
    requires Valid(l) && heads > 0 && Front(l)[0] == heads * 2 * m
    requires a.B == Reshaped(l.B, Halved(l.B.shape, heads))
    requires IsPermutation(Swapped(|a.B.shape|, 1, 2), |a.B.shape|)
    requires Same(b.B, Permuted(a.B, Swapped(|a.B.shape|, 1, 2)))
    requires c.B == Reshaped(b.B, l.B.shape)
    ensures Same(c.B, PermutedHeads(l.B, heads))
  {
    PermuteShapes(l.B, heads, m);
    var swapped := Permuted(a.B, Swapped(|a.B.shape|, 1, 2));
    assert swapped.shape == [heads, m, 2] + l.B.shape[1..];
    ReshapedSame(b.B, swapped, l.B.shape);
  }
}
