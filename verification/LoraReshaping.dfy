/** Reshaping and permuting the factors does to the product what it says. */
module LoraReshaping {
  import opened Tensors
  import opened Lora

  // Reshape

  /** The product of the dimensions that are given outright. */
  function Given(shape: seq<int>): int {
    if shape == [] then 1
    else Given(shape[..|shape| - 1]) * (if shape[|shape| - 1] == -1 then 1 else shape[|shape| - 1])
  }

  /** Puts a length for -1 that accounts for all the elements. */
  function Infer(elements: nat, shape: seq<int>): (r: Result<seq<int>>)
    ensures r.Ok? ==> |r.value| == |shape|
  {
    if forall i :: 0 <= i < |shape| ==> shape[i] != -1 then Ok(shape)
    else
      var given := Given(shape);
      if given == 0 then Err(ZeroDivision)
      else if elements % given != 0 then Err(AssertionFailed)
      else Ok(seq(|shape|, i requires 0 <= i < |shape| => if shape[i] == -1 then elements / given else shape[i]))
  }

  /** The place of the one -1, with the lengths in front of it and behind. */
  lemma {:induction false} GivenSplit(a: seq<int>, b: seq<int>)
    ensures Given(a + [-1] + b) == Given(a) * Given(b) && Given(a + [-1]) == Given(a)
    decreases |b|
  {
    assert (a + [-1])[..|a|] == a;
    if b == [] {
      assert a + [-1] + b == a + [-1];
    } else {
      var n := |b| - 1;
      assert (a + [-1] + b)[..|a| + 1 + n] == a + [-1] + b[..n];
      GivenSplit(a, b[..n]);
      MulAssoc(Given(a), Given(b[..n]), if b[n] == -1 then 1 else b[n]);
    }
  }

  lemma MulAssoc(a: int, b: int, c: int)
    ensures (a * b) * c == a * (b * c)
  {
  }

  /** The product of lengths, none of them left open. */
  function Multiplied(shape: seq<int>): int {
    if shape == [] then 1 else Multiplied(shape[..|shape| - 1]) * shape[|shape| - 1]
  }

  predicate NoneOpen(shape: seq<int>) { forall i :: 0 <= i < |shape| ==> shape[i] != -1 }

  lemma {:induction false} GivenAll(shape: seq<int>)
    requires NoneOpen(shape)
    ensures Given(shape) == Multiplied(shape)
  {
    if shape != [] { GivenAll(shape[..|shape| - 1]); }
  }

  lemma {:induction false} ProductSplit(a: seq<int>, q: int, b: seq<int>)
    ensures Multiplied(a + [q] + b) == Multiplied(a) * q * Multiplied(b)
    decreases |b|
  {
    if b == [] {
      assert a + [q] + b == a + [q] && (a + [q])[..|a|] == a;
    } else {
      var n := |b| - 1;
      assert (a + [q] + b)[..|a| + 1 + n] == a + [q] + b[..n];
      ProductSplit(a, q, b[..n]);
      MulAssoc(Multiplied(a) * q, Multiplied(b[..n]), b[n]);
    }
  }

  /** One length left open: it is the one that makes up all the elements, and the others stay. It is refused where
      there is none, or where the others leave nothing to share out. */
  lemma InferredLength(elements: nat, a: seq<int>, b: seq<int>)
    requires NoneOpen(a) && NoneOpen(b)
    ensures var r := Infer(elements, a + [-1] + b);
      && (r.Ok? <==>
            Multiplied(a) * Multiplied(b) != 0 && exists q: int :: Multiplied(a) * q * Multiplied(b) == elements)
      && (r.Ok? ==> exists q: int :: r.value == a + [q] + b && Multiplied(r.value) == elements)
  {
    var shape := a + [-1] + b;
    var g := Multiplied(a) * Multiplied(b);
    GivenSplit(a, b);
    GivenAll(a);
    GivenAll(b);
    assert shape[|a|] == -1;
    if g != 0 {
      if q: int :| Multiplied(a) * q * Multiplied(b) == elements {
        Divides(elements, g, q, Multiplied(a), Multiplied(b));
      }
      if elements % g == 0 {
        var q := elements / g;
        Divided(elements, g, Multiplied(a), Multiplied(b));
        ProductSplit(a, q, b);
        assert Infer(elements, shape).value == a + [q] + b;
      }
    }
  }

  lemma Divides(elements: nat, g: int, q: int, x: int, y: int)
    requires g != 0 && g == x * y && x * q * y == elements
    ensures elements % g == 0
  {
    Commuted3(x, q, y);
    var d, r := elements / g, elements % g;
    assert elements == g * d + r && 0 <= r < if g > 0 then g else -g;
    Distributed(g, q, d);
    SmallMultiple(g, q - d, r);
  }

  lemma Commuted3(x: int, q: int, y: int)
    ensures x * q * y == (x * y) * q
  {
  }

  lemma Distributed(g: int, q: int, d: int)
    ensures g * (q - d) == g * q - g * d
  {
  }

  /** A multiple of g nearer to zero than g is zero. */
  lemma SmallMultiple(g: int, k: int, r: int)
    requires g != 0 && g * k == r && 0 <= r < if g > 0 then g else -g
    ensures r == 0
  {
    if k > 0 {
      Farther(g, k);
    } else if k < 0 {
      Farther(-g, -k);
    }
  }

  lemma Farther(g: int, k: int)
    requires k > 0
    ensures g > 0 ==> g * k >= g
    ensures g < 0 ==> g * k <= g
  {
  }

  lemma Divided(elements: nat, g: int, x: int, y: int)
    requires g != 0 && g == x * y && elements % g == 0
    ensures x * (elements / g) * y == elements
  {
    assert elements == g * (elements / g);
  }

  function LoraReshape(l: Lora, shape: seq<int>): Result<Lora>
    requires Valid(l)
  {
    if |shape| < 2 then Err(NotImplemented)
    else
      var s :- Infer(Prod(Shape(l)), shape);
      var n := |s| - 1;
      if s[n] != Last(l) then Err(NotImplemented)
      else
        var A :- TensorReshape(l.A, Ones(n - 1) + [Rank(l), Last(l)]);
        var B :- TensorReshape(l.B, s[..n] + [Rank(l)]);
        MakeLora(A, B)
  }

  lemma {:induction false} ProdOnes(shape: seq<nat>)
    requires forall i :: 0 <= i < |shape| ==> shape[i] == 1
    ensures Prod(shape) == 1 && Flatten(shape, Zeros(|shape|)) == 0
  {
    if shape != [] {
      ProdOnes(shape[..|shape| - 1]);
      assert Zeros(|shape|)[..|shape| - 1] == Zeros(|shape| - 1);
    }
  }

  /** A's matrix sits at the same row-major positions however many leading axes of length one there are. */
  lemma MatrixPosition(ones: seq<nat>, r: nat, d: nat, k: nat, j: nat)
    requires forall i :: 0 <= i < |ones| ==> ones[i] == 1
    ensures Flatten(ones + [r, d], Zeros(|ones|) + [k, j]) == k * d + j
    ensures Prod(ones + [r, d]) == r * d
  {
    var z := Zeros(|ones|);
    ProdOnes(ones);
    FlattenSnoc(ones, r, z, k);
    FlattenSnoc(ones + [r], d, z + [k], j);
    assert ones + [r, d] == (ones + [r]) + [d] && z + [k, j] == (z + [k]) + [j];
  }

  lemma TwoMore(a: seq<nat>, x: nat, y: nat)
    ensures a + [x, y] == (a + [x]) + [y]
  {
  }

  lemma MatrixAt(ones: seq<nat>, r: nat, d: nat, k: nat, j: nat)
    requires forall i :: 0 <= i < |ones| ==> ones[i] == 1
    requires k < r && j < d
    ensures Unflatten(ones + [r, d], k * d + j) == Zeros(|ones|) + [k, j]
  {
    UnflattenOnes(ones, r, k);
    UnflattenSnoc(ones + [r], d, k, j);
    TwoMore(ones, r, d);
    TwoMore(Zeros(|ones|), k, j);
  }

  lemma UnflattenOnes(ones: seq<nat>, r: nat, k: nat)
    requires forall i :: 0 <= i < |ones| ==> ones[i] == 1
    requires k < r
    ensures Unflatten(ones + [r], k) == Zeros(|ones|) + [k]
  {
    ProdOnes(ones);
    FlattenBounds(ones, Zeros(|ones|));
    UnflattenSnoc(ones, r, 0, k);
  }

  lemma ShapeA(l: Lora)
    requires Valid(l)
    ensures l.A.shape == Leading(l) + [Rank(l), Last(l)] && l.B.shape == Front(l) + [Rank(l)]
  {
  }

  /** Reshaping A to one leading axis more or less moves nothing. */
  lemma ReshapedA(l: Lora, n: nat, k: nat, j: nat)
    requires Valid(l) && LeadingOnes(l) && k < Rank(l) && j < Last(l)
    ensures Reshaped(l.A, Ones(n) + [Rank(l), Last(l)]).at(Zeros(n) + [k, j]) == l.A.at(Zeros(Depth(l) - 2) + [k, j])
  {
    ShapeA(l);
    MatrixPosition(Ones(n), Rank(l), Last(l), k, j);
    MatrixAt(Leading(l), Rank(l), Last(l), k, j);
  }

  /** Reshaping the last axis but one and those before it, with the last axis kept. */
  lemma ReshapedLastKept(t: Tensor, rows: seq<nat>, d: nat, front: seq<nat>, row: seq<nat>, j: nat)
    requires t.shape == rows + [d] && |row| == |front| && j < d
    ensures Reshaped(t, front + [d]).at(row + [j]) == t.at(Unflatten(rows, Flatten(front, row)) + [j])
  {
    FlattenSnoc(front, d, row, j);
    UnflattenSnoc(rows, d, Flatten(front, row), j);
  }

  lemma ReshapedB(l: Lora, front: seq<nat>, row: seq<nat>, k: nat)
    requires Valid(l) && k < Rank(l) && |row| == |front|
    ensures Reshaped(l.B, front + [Rank(l)]).at(row + [k])
         == l.B.at(Unflatten(Front(l), Flatten(front, row)) + [k])
  {
    ShapeA(l);
    ReshapedLastKept(l.B, Front(l), Rank(l), front, row, k);
  }

  lemma ReshapedEntry(l: Lora, m: Lora, front: seq<nat>, row: seq<nat>, j: nat)
    requires Valid(l) && LeadingOnes(l) && j < Last(l)
    requires |front| >= 1 && |row| == |front|
    requires m.A == Reshaped(l.A, Ones(|front| - 1) + [Rank(l), Last(l)])
    requires m.B == Reshaped(l.B, front + [Rank(l)])
    ensures Valid(m) && Front(m) == front
    ensures Entry(m, row, j) == Entry(l, Unflatten(Front(l), Flatten(front, row)), j)
  {
    ReshapedShape(l, m, front);
    var from := Unflatten(Front(l), Flatten(front, row));
    var z, z' := Zeros(|row| - 1), Zeros(Depth(l) - 2);
    forall k: nat | k < Rank(l) ensures m.B.at(row + [k]) == l.B.at(from + [k]) {
      ReshapedB(l, front, row, k);
    }
    forall k: nat | k < Rank(l) ensures m.A.at(z + [k, j]) == l.A.at(z' + [k, j]) {
      ReshapedA(l, |front| - 1, k, j);
    }
    EntryFrom(m, row, j, l, from, j, z, z');
  }

  lemma ReshapedShape(l: Lora, m: Lora, front: seq<nat>)
    requires Valid(l) && |front| >= 1
    requires m.A.shape == Ones(|front| - 1) + [Rank(l), Last(l)] && m.B.shape == front + [Rank(l)]
    ensures Valid(m) && LeadingOnes(m) && Rank(m) == Rank(l) && Last(m) == Last(l) && Front(m) == front
  {
  }

  lemma ToNatSnoc(s: seq<int>, d: nat)
    ensures AllNat(s + [d]) <==> AllNat(s)
    ensures AllNat(s) ==> ToNat(s + [d]) == ToNat(s) + [d]
  {
    if AllNat(s + [d]) { assert forall i :: 0 <= i < |s| ==> s[i] == (s + [d])[i]; }
  }

  lemma ToNatOnes(n: nat, r: nat, d: nat)
    ensures AllNat(Ones(n) + [r, d]) && ToNat(Ones(n) + [r, d]) == Ones(n) + [r, d]
  {
  }

  /** What a successful reshape returns. */
  lemma ReshapeResult(l: Lora, shape: seq<int>) returns (front: seq<nat>)
    requires Valid(l) && Rank(l) > 0
    requires LoraReshape(l, shape).Ok?
    ensures Infer(Prod(Shape(l)), shape).Ok? && |front| >= 1
    ensures TensorReshape(Product(l), Infer(Prod(Shape(l)), shape).value).Ok?
    ensures TensorReshape(Product(l), Infer(Prod(Shape(l)), shape).value).value
         == Reshaped(Product(l), front + [Last(l)])
    ensures LoraReshape(l, shape).value.A == Reshaped(l.A, Ones(|front| - 1) + [Rank(l), Last(l)])
    ensures LoraReshape(l, shape).value.B == Reshaped(l.B, front + [Rank(l)])
  {
    var s := Infer(Prod(Shape(l)), shape).value;
    var n := |s| - 1;
    ToNatSnoc(s[..n], Rank(l));
    ToNatSnoc(s[..n], Last(l));
    assert s == s[..n] + [Last(l)];
    front := ToNat(s[..n]);
    ToNatOnes(n - 1, Rank(l), Last(l));
    SameSize(l, front);
  }

  lemma ReshapedProduct(l: Lora, m: Lora, front: seq<nat>, p: Tensor)
    requires Valid(l) && LeadingOnes(l) && |front| >= 1
    requires m.A == Reshaped(l.A, Ones(|front| - 1) + [Rank(l), Last(l)])
    requires m.B == Reshaped(l.B, front + [Rank(l)])
    requires p == Reshaped(Product(l), front + [Last(l)])
    ensures Valid(m) && LeadingOnes(m) && Same(Product(m), p)
  {
    ReshapedShape(l, m, front);
    var d := Last(l);
    forall row, col: nat | InRange(front, row) && col < d
      ensures Product(m).at(row + [col]) == p.at(row + [col])
    {
      ReshapedEntry(l, m, front, row, col);
      ProductAt(m, row, col);
      ReshapedLastKept(Product(l), Front(l), d, front, row, col);
      ProductAt(l, Unflatten(Front(l), Flatten(front, row)), col);
    }
    SameByEntries(Product(m), p, front, d);
  }

  /**
   * Reshaping the factors reshapes the product: A's leading axes being of length one and the rank not
   * being zero, whatever shape is accepted, with or without a -1 in it.
   */
  lemma ReshapeCommutes(l: Lora, shape: seq<int>)
    requires Valid(l) && LeadingOnes(l) && Rank(l) > 0
    requires LoraReshape(l, shape).Ok?
    ensures Infer(Prod(Shape(l)), shape).Ok?
    ensures TensorReshape(Product(l), Infer(Prod(Shape(l)), shape).value).Ok?
    ensures Valid(LoraReshape(l, shape).value) && LeadingOnes(LoraReshape(l, shape).value)
    ensures Same(Product(LoraReshape(l, shape).value),
                 TensorReshape(Product(l), Infer(Prod(Shape(l)), shape).value).value)
  {
    var front := ReshapeResult(l, shape);
    ReshapedProduct(l, LoraReshape(l, shape).value, front, Reshaped(Product(l), front + [Last(l)]));
  }

  /** B keeps its size exactly when its rows keep their number, and then the product keeps its size too. */
  lemma SameSize(l: Lora, front: seq<nat>)
    requires Valid(l) && Rank(l) > 0
    ensures Prod(front + [Rank(l)]) == Prod(l.B.shape) <==> Prod(front) == Prod(Front(l))
    ensures Prod(front) == Prod(Front(l)) ==> Prod(front + [Last(l)]) == Prod(Shape(l))
    ensures Last(l) > 0 && Prod(front + [Last(l)]) == Prod(Shape(l)) ==> Prod(front) == Prod(Front(l))
  {
    ShapeA(l);
    FlattenSnoc(front, Rank(l), Zeros(|front|), 0);
    FlattenSnoc(Front(l), Rank(l), Zeros(|Front(l)|), 0);
    FlattenSnoc(front, Last(l), Zeros(|front|), 0);
    FlattenSnoc(Front(l), Last(l), Zeros(|Front(l)|), 0);
    Cancel(Prod(front), Prod(Front(l)), Rank(l));
    if Last(l) > 0 { Cancel(Prod(front), Prod(Front(l)), Last(l)); }
  }

  lemma Cancel(a: nat, b: nat, c: nat)
    requires c > 0
    ensures a * c == b * c <==> a == b
  {
  }

  /** A shape with the same number of rows and the last axis kept is accepted. */
  lemma ReshapeOk(l: Lora, shape: seq<int>, s: seq<int>, front: seq<nat>)
    requires Valid(l) && LeadingOnes(l)
    requires |shape| >= 2 && Infer(Prod(Shape(l)), shape) == Ok(s)
    requires s == front + [Last(l)] && Prod(front + [Rank(l)]) == Prod(l.B.shape)
    ensures LoraReshape(l, shape).Ok?
    ensures LoraReshape(l, shape).value.B.shape == front + [Rank(l)] && Valid(LoraReshape(l, shape).value)
  {
    var n := |front|;
    assert s[..n] == front;
    assert AllNat(s[..n]) && ToNat(s[..n]) == front;
    ToNatSnoc(s[..n], Rank(l));
    ShapeA(l);
    MatrixPosition(Leading(l), Rank(l), Last(l), 0, 0);
    MatrixPosition(Ones(n - 1), Rank(l), Last(l), 0, 0);
    ToNatOnes(n - 1, Rank(l), Last(l));
  }

  /** What is accepted: exactly the reshapes of the product that keep its last axis and leave a matrix. */
  lemma ReshapeAccepts(l: Lora, shape: seq<int>)
    requires Valid(l) && LeadingOnes(l) && Rank(l) > 0 && Last(l) > 0
    ensures LoraReshape(l, shape).Ok? <==>
            && |shape| >= 2
            && Infer(Prod(Shape(l)), shape).Ok?
            && Infer(Prod(Shape(l)), shape).value[|shape| - 1] == Last(l)
            && TensorReshape(Product(l), Infer(Prod(Shape(l)), shape).value).Ok?
  {
    if && |shape| >= 2 && Infer(Prod(Shape(l)), shape).Ok?
       && Infer(Prod(Shape(l)), shape).value[|shape| - 1] == Last(l)
       && TensorReshape(Product(l), Infer(Prod(Shape(l)), shape).value).Ok?
    {
      var s := Infer(Prod(Shape(l)), shape).value;
      var n := |s| - 1;
      assert s == s[..n] + [Last(l)];
      ToNatSnoc(s[..n], Last(l));
      var front := ToNat(s[..n]);
      SameSize(l, front);
      ReshapeOk(l, shape, s, front);
    }
    if LoraReshape(l, shape).Ok? { ReshapeCommutes(l, shape); }
  }

  /**
   * With rank zero neither factor has elements, so every shape with the last axis kept is accepted,
   * whether or not the product has that many elements.
   */
  lemma RankZeroAcceptsAll(l: Lora, front: seq<nat>)
    requires Valid(l) && LeadingOnes(l) && Rank(l) == 0 && front != []
    ensures LoraReshape(l, front + [Last(l)]).Ok?
    ensures Front(LoraReshape(l, front + [Last(l)]).value) == front
  {
    var shape: seq<int> := front + [Last(l)];
    assert Infer(Prod(Shape(l)), shape) == Ok(shape);
    ShapeA(l);
    FlattenSnoc(front, 0, Zeros(|front|), 0);
    FlattenSnoc(Front(l), 0, Zeros(|Front(l)|), 0);
    ReshapeOk(l, shape, shape, front);
  }

  lemma RankZeroProduct(l: Lora, idx: seq<nat>)
    requires Valid(l) && Rank(l) == 0
    ensures Product(l).at(idx) == 0.0
  {
  }

  lemma RankZeroResult(l: Lora, shape: seq<int>) returns (front: seq<nat>)
    requires Valid(l) && LeadingOnes(l) && Rank(l) == 0 && LoraReshape(l, shape).Ok?
    ensures Infer(Prod(Shape(l)), shape).Ok?
    ensures var s := Infer(Prod(Shape(l)), shape).value; AllNat(s) && ToNat(s) == front + [Last(l)]
    ensures var m := LoraReshape(l, shape).value;
      Valid(m) && Rank(m) == 0 && Shape(m) == front + [Last(l)]
  {
    var s := Infer(Prod(Shape(l)), shape).value;
    var n := |s| - 1;
    ToNatSnoc(s[..n], 0);
    ToNatSnoc(s[..n], Last(l));
    assert s == s[..n] + [Last(l)];
    front := ToNat(s[..n]);
    ToNatOnes(n - 1, 0, Last(l));
    ReshapedShape(l, LoraReshape(l, shape).value, front);
  }

  /** Such a reshape is right exactly when the product does have that many elements: all of them are zero. */
  lemma RankZeroReshapes(l: Lora, shape: seq<int>)
    requires Valid(l) && LeadingOnes(l) && Rank(l) == 0 && LoraReshape(l, shape).Ok?
    ensures Infer(Prod(Shape(l)), shape).Ok? && Valid(LoraReshape(l, shape).value)
    ensures var m, p := LoraReshape(l, shape).value, TensorReshape(Product(l), Infer(Prod(Shape(l)), shape).value);
      (p.Ok? && Same(Product(m), p.value)) <==> Prod(Shape(m)) == Prod(Shape(l))
  {
    var front := RankZeroResult(l, shape);
    var m := LoraReshape(l, shape).value;
    var p := Reshaped(Product(l), front + [Last(l)]);
    forall idx ensures Product(m).at(idx) == 0.0 == p.at(idx) {
      RankZeroProduct(m, idx);
      if |idx| == |p.shape| { RankZeroProduct(l, Unflatten(Shape(l), Flatten(p.shape, idx))); }
    }
  }
}
