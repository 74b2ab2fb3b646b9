/** The first axis of a low-rank matrix: positions and slices of it, stacking and concatenation along it. */
module LoraBatches {
  import opened Tensors
  import opened Lora
  import opened LoraIndex

  // Indexing the first axis alone

  lemma FirstSource(shape: seq<nat>, x: Index, idx: seq<nat>)
    requires shape != [] && !x.Ellipsis?
    requires x.At? ==> 0 <= Axis(x.i, shape[0]) < shape[0]
    requires |idx| == |shape| - if x.At? then 1 else 0
    ensures Indexable(shape, [x] + Whole(|shape| - 1))
    ensures Indexed(shape, [x] + Whole(|shape| - 1))
         == (if x.At? then [] else [SliceLength(x, shape[0])]) + shape[1..]
    ensures Source(shape, [x] + Whole(|shape| - 1), idx) == [Picked(x, shape[0], idx)] + Unpicked(x, idx)
  {
    var ix := [x] + Whole(|shape| - 1);
    assert ix[0] == x && ix[1..] == Whole(|shape| - 1);
    WholeSource(shape[1..], ix[1..], Unpicked(x, idx));
    IndexableConcat([shape[0]], shape[1..], [x], ix[1..]);
    assert [shape[0]] + shape[1..] == shape;
  }

  lemma FirstOutOfRange(shape: seq<nat>, i: int)
    requires shape != []
    ensures Indexable(shape, [At(i)] + Whole(|shape| - 1)) <==> 0 <= Axis(i, shape[0]) < shape[0]
  {
    var ix := [At(i)] + Whole(|shape| - 1);
    assert ix[0] == At(i) && forall j :: 0 < j < |ix| ==> ix[j] == ALL;
  }

  /** An entry whose factors are found behind one more first index each. */
  lemma EntryBehind(m: Lora, row: seq<nat>, col: nat, l: Lora, row': seq<nat>, a: nat)
    requires Valid(l) && Valid(m) && Rank(l) == Rank(m)
    requires |row| == |Front(m)| && |row'| == |Front(l)| && Depth(l) > 2
    requires a == Broadcast(Leading(l), row'[..|row'| - 1])[0]
    requires |Leading(m)| == |Leading(l)| - 1 && |row| == |row'| - 1
    requires Broadcast(Leading(l), row'[..|row'| - 1])[1..] == Broadcast(Leading(m), row[..|row| - 1])
    requires forall k: nat :: k < Rank(l) ==> m.B.at(row + [k]) == l.B.at(row' + [k])
    requires forall z, k: nat :: |z| == Depth(l) - 3 ==> m.A.at(z + [k, col]) == l.A.at([a] + z + [k, col])
    ensures Entry(m, row, col) == Entry(l, row', col)
  {
    var z, z' := Broadcast(Leading(m), row[..|row| - 1]), Broadcast(Leading(l), row'[..|row'| - 1]);
    assert z' == [a] + z;
    forall k: nat | k < Rank(l) ensures Term(m, row, z, col, k) == Term(l, row', z', col, k) {
      assert m.B.at(row + [k]) == l.B.at(row' + [k]);
      assert m.A.at(z + [k, col]) == l.A.at([a] + z + [k, col]);
    }
    DotAgrees(m, row, z, col, l, row', z', col, Rank(l));
  }

  predicate ItemInRange(l: Lora, i: int)
    requires Valid(l) && Depth(l) > 2
  {
    0 <= Axis(i, Leading(l)[0]) < Leading(l)[0] && 0 <= Axis(i, Front(l)[0]) < Front(l)[0]
  }

  lemma TensorItem(t: Tensor, i: int)
    requires t.shape != []
    ensures var r := TensorIndex(t, [At(i)] + Whole(|t.shape| - 1));
            && (r.Ok? <==> 0 <= Axis(i, t.shape[0]) < t.shape[0])
            && (r.Ok? ==> r.value.shape == t.shape[1..])
  {
    FirstOutOfRange(t.shape, i);
    if 0 <= Axis(i, t.shape[0]) < t.shape[0] { FirstSource(t.shape, At(i), Zeros(|t.shape| - 1)); }
  }

  /** Factors with the first axis gone. */
  lemma FirstGone(l: Lora, A: Tensor, B: Tensor)
    requires Valid(l) && Depth(l) > 2 && A.shape == l.A.shape[1..] && B.shape == l.B.shape[1..]
    ensures MakeLora(A, B) == Ok(Lora(A, B)) && Valid(Lora(A, B))
    ensures Leading(Lora(A, B)) == Leading(l)[1..] && Front(Lora(A, B)) == Front(l)[1..]
    ensures Rank(Lora(A, B)) == Rank(l) && Last(Lora(A, B)) == Last(l)
  {
  }

  lemma ItemShapes(l: Lora, i: int)
    requires Valid(l) && Depth(l) > 2
    ensures LoraItem(l, i).Ok? <==> ItemInRange(l, i)
    ensures LoraItem(l, i).Ok? ==>
            && Valid(LoraItem(l, i).value)
            && Leading(LoraItem(l, i).value) == Leading(l)[1..]
            && Front(LoraItem(l, i).value) == Front(l)[1..]
            && Rank(LoraItem(l, i).value) == Rank(l) && Last(LoraItem(l, i).value) == Last(l)
  {
    TensorItem(l.A, i);
    TensorItem(l.B, i);
    var A := TensorIndex(l.A, [At(i)] + Whole(Depth(l) - 1));
    var B := TensorIndex(l.B, [At(i)] + Whole(Depth(l) - 1));
    if A.Ok? && B.Ok? { FirstGone(l, A.value, B.value); }
  }

  lemma ItemEntry(l: Lora, i: int, m: Lora, row: seq<nat>, col: nat)
    requires Valid(l) && Depth(l) > 2 && Broadcastable(l) && LoraItem(l, i) == Ok(m)
    requires Valid(m) && |row| == |Front(m)|
    ensures ItemInRange(l, i) && |row| == |Front(l)| - 1
    ensures Entry(m, row, col) == Entry(l, [Axis(i, Front(l)[0]) as nat] + row, col)
  {
    ItemShapes(l, i);
    var row' := [Axis(i, Front(l)[0]) as nat] + row;
    var a: nat := Axis(i, Leading(l)[0]);
    assert row'[..|row'| - 1] == [row'[0]] + row[..|row| - 1];
    forall k: nat | k < Rank(l) ensures m.B.at(row + [k]) == l.B.at(row' + [k]) {
      ItemAt(l.B, i, m.B, row, [k]);
    }
    forall z, k: nat | |z| == Depth(l) - 3 ensures m.A.at(z + [k, col]) == l.A.at([a] + z + [k, col]) {
      ItemAt(l.A, i, m.A, z, [k, col]);
    }
    EntryBehind(m, row, col, l, row', a);
  }

  lemma ItemAt(t: Tensor, i: int, u: Tensor, x: seq<nat>, y: seq<nat>)
    requires t.shape != [] && TensorIndex(t, [At(i)] + Whole(|t.shape| - 1)) == Ok(u)
    requires 0 <= Axis(i, t.shape[0]) < t.shape[0] && |x| + |y| == |t.shape| - 1
    ensures u.at(x + y) == t.at([Axis(i, t.shape[0]) as nat] + x + y)
  {
    FirstSource(t.shape, At(i), x + y);
    var a: nat := Axis(i, t.shape[0]);
    assert [a] + x + y == [a] + (x + y);
  }

  /**
   * One position of the first axis: accepted where both factors have it, and then what the product has
   * there. Where A's first axis is of length one, that is position 0, also counted as -1, alone.
   */
  lemma ItemCommutes(l: Lora, i: int)
    requires Valid(l) && Depth(l) > 2 && Broadcastable(l)
    ensures LoraItem(l, i).Ok? <==> ItemInRange(l, i)
    ensures LoraItem(l, i).Ok? ==>
            && TensorIndex(Product(l), [At(i)] + Whole(Depth(l) - 1)).Ok?
            && Valid(LoraItem(l, i).value)
            && Same(Product(LoraItem(l, i).value), TensorIndex(Product(l), [At(i)] + Whole(Depth(l) - 1)).value)
  {
    ItemShapes(l, i);
    if LoraItem(l, i).Ok? {
      var m := LoraItem(l, i).value;
      FirstOutOfRange(Shape(l), i);
      var Q := TensorIndex(Product(l), [At(i)] + Whole(Depth(l) - 1)).value;
      FirstSource(Shape(l), At(i), Zeros(Depth(l) - 1));
      assert Shape(m) == Shape(l)[1..];
      forall row, col: nat | InRange(Front(m), row) && col < Last(m)
        ensures Product(m).at(row + [col]) == Q.at(row + [col])
      {
        ItemEntry(l, i, m, row, col);
        ProductAt(m, row, col);
        FirstSource(Shape(l), At(i), row + [col]);
        var first: nat := Axis(i, Front(l)[0]);
        ProductAt(l, [first] + row, col);
        assert [first] + (row + [col]) == [first] + row + [col];
      }
      SameByEntries(Product(m), Q, Front(m), Last(m));
    }
  }

  // A slice of the first axis alone

  lemma TensorSlice(t: Tensor, s: Index)
    requires t.shape != [] && s.Slice?
    ensures TensorIndex(t, [s] + Whole(|t.shape| - 1)).Ok?
    ensures TensorIndex(t, [s] + Whole(|t.shape| - 1)).value.shape == [SliceLength(s, t.shape[0])] + t.shape[1..]
  {
    FirstSource(t.shape, s, Zeros(|t.shape|));
  }

  /** Factors with another length of the first axis. */
  lemma FirstSliced(l: Lora, A: Tensor, B: Tensor, a: nat, b: nat)
    requires Valid(l) && B.shape == [b] + l.B.shape[1..]
    requires if Depth(l) > 2 then A.shape == [a] + l.A.shape[1..] else A == l.A
    ensures MakeLora(A, B) == Ok(Lora(A, B)) && Valid(Lora(A, B))
    ensures Front(Lora(A, B)) == [b] + Front(l)[1..]
    ensures Rank(Lora(A, B)) == Rank(l) && Last(Lora(A, B)) == Last(l)
    ensures Leading(Lora(A, B)) == if Depth(l) > 2 then [a] + Leading(l)[1..] else []
  {
  }

  lemma SliceShapes(l: Lora, s: Index)
    requires Valid(l) && LeadingOnes(l) && s.Slice?
    ensures LoraSlice(l, s).Ok? && Valid(LoraSlice(l, s).value)
    ensures Front(LoraSlice(l, s).value) == [SliceLength(s, Front(l)[0])] + Front(l)[1..]
    ensures Rank(LoraSlice(l, s).value) == Rank(l) && Last(LoraSlice(l, s).value) == Last(l)
    ensures Depth(l) > 2 ==> Leading(LoraSlice(l, s).value) == [SliceLength(s, 1)] + Leading(l)[1..]
    ensures Depth(l) == 2 ==> Leading(LoraSlice(l, s).value) == []
  {
    TensorSlice(l.A, s);
    TensorSlice(l.B, s);
    var A := if Depth(l) > 2 then TensorIndex(l.A, [s] + Whole(Depth(l) - 1)).value else l.A;
    var B := TensorIndex(l.B, [s] + Whole(Depth(l) - 1)).value;
    if Depth(l) > 2 { assert l.A.shape[0] == Leading(l)[0] == 1; }
    SliceMade(l, s, A, B);
    FirstSliced(l, A, B, SliceLength(s, 1), SliceLength(s, Front(l)[0]));
  }

  lemma SliceMade(l: Lora, s: Index, A: Tensor, B: Tensor)
    requires Valid(l) && s.Slice?
    requires TensorIndex(l.B, [s] + Whole(Depth(l) - 1)) == Ok(B)
    requires if Depth(l) > 2 then TensorIndex(l.A, [s] + Whole(Depth(l) - 1)) == Ok(A) else A == l.A
    ensures LoraSlice(l, s) == MakeLora(A, B)
  {
  }

  /** A slice of a single position has that position or nothing. */
  lemma SliceOfOne(s: Index)
    requires s.Slice?
    ensures SliceLength(s, 1) <= 1
    ensures SliceLength(s, 1) == 1 ==> SliceAt(s, 1, 0) == 0
  {
    var lo, hi := Clamped(s.start, 1, 0), Clamped(s.stop, 1, 1);
    if lo < hi {
      DivModUnique(1, s.step, 0);
    }
  }

  lemma SliceEntry(l: Lora, s: Index, m: Lora, row: seq<nat>, col: nat)
    requires Valid(l) && LeadingOnes(l) && s.Slice? && LoraSlice(l, s) == Ok(m)
    requires Valid(m) && LeadingOnes(m) && |row| == |Front(m)|
    ensures |row| == |Front(l)|
    ensures Entry(m, row, col) == Entry(l, [SliceAt(s, Front(l)[0], row[0])] + row[1..], col)
  {
    SliceShapes(l, s);
    SliceOfOne(s);
    var row' := [SliceAt(s, Front(l)[0], row[0])] + row[1..];
    var z := Zeros(|row| - 1);
    forall k: nat | k < Rank(l) ensures m.B.at(row + [k]) == l.B.at(row' + [k]) {
      SlicedB(l, s, m, row, k);
    }
    forall k: nat | k < Rank(l) ensures m.A.at(z + [k, col]) == l.A.at(z + [k, col]) {
      SlicedA(l, s, m, z, k, col);
    }
    EntryFrom(m, row, col, l, row', col, z, z);
  }

  lemma SlicedB(l: Lora, s: Index, m: Lora, row: seq<nat>, k: nat)
    requires Valid(l) && s.Slice? && LoraSlice(l, s) == Ok(m) && |row| == |Front(l)|
    ensures m.B.at(row + [k]) == l.B.at([SliceAt(s, Front(l)[0], row[0])] + row[1..] + [k])
  {
    FirstSource(l.B.shape, s, row + [k]);
    var j := SliceAt(s, Front(l)[0], row[0]);
    assert (row + [k])[1..] == row[1..] + [k] && [j] + row[1..] + [k] == [j] + (row[1..] + [k]);
  }

  lemma SlicedA(l: Lora, s: Index, m: Lora, z: seq<nat>, k: nat, col: nat)
    requires Valid(l) && LeadingOnes(l) && s.Slice? && LoraSlice(l, s) == Ok(m)
    requires Valid(m) && LeadingOnes(m) && z == Zeros(Depth(l) - 2)
    ensures m.A.at(z + [k, col]) == l.A.at(z + [k, col])
  {
    if Depth(l) > 2 {
      SliceShapes(l, s);
      assert Leading(m)[0] == 1;
      SliceOfOne(s);
      SlicedFirst(l.A, s, m.A, z + [k, col]);
    }
  }

  /** The single position of an axis, sliced, is the same position. */
  lemma SlicedFirst(t: Tensor, s: Index, u: Tensor, idx: seq<nat>)
    requires t.shape != [] && s.Slice? && TensorIndex(t, [s] + Whole(|t.shape| - 1)) == Ok(u)
    requires |idx| == |t.shape| && idx[0] == 0 && SliceAt(s, t.shape[0], 0) == 0
    ensures u.at(idx) == t.at(idx)
  {
    FirstSource(t.shape, s, idx);
    assert [0] + idx[1..] == idx;
  }

  /**
   * A slice of the first axis, A's leading axes being of length one: a matrix always slices like its
   * product. With more axes the slice is taken of A's single position too, so the factors still fit
   * together exactly when the slice has that position or nothing is left of B; then it commutes.
   */
  lemma SliceCommutes(l: Lora, s: Index)
    requires Valid(l) && LeadingOnes(l) && s.Slice?
    ensures LoraSlice(l, s).Ok? && Valid(LoraSlice(l, s).value)
    ensures Broadcastable(LoraSlice(l, s).value) <==>
            Depth(l) == 2 || SliceLength(s, 1) == 1 || SliceLength(s, Front(l)[0]) == 0
    ensures TensorIndex(Product(l), [s] + Whole(Depth(l) - 1)).Ok?
    ensures Broadcastable(LoraSlice(l, s).value) ==>
            Same(Product(LoraSlice(l, s).value), TensorIndex(Product(l), [s] + Whole(Depth(l) - 1)).value)
  {
    SliceShapes(l, s);
    SliceOfOne(s);
    var m := LoraSlice(l, s).value;
    TensorSlice(Product(l), s);
    SliceFits(l, s, m);
    if Broadcastable(m) { SliceRows(l, s, m, TensorIndex(Product(l), [s] + Whole(Depth(l) - 1)).value); }
  }

  lemma SliceFits(l: Lora, s: Index, m: Lora)
    requires Valid(l) && LeadingOnes(l) && s.Slice? && LoraSlice(l, s) == Ok(m)
    ensures Valid(m)
    ensures Broadcastable(m) <==> Depth(l) == 2 || SliceLength(s, 1) == 1 || SliceLength(s, Front(l)[0]) == 0
    ensures Broadcastable(m) ==> Front(m)[0] == 0 || LeadingOnes(m)
  {
    SliceShapes(l, s);
    SliceOfOne(s);
    if Depth(l) > 2 {
      assert Leading(m)[0] == SliceLength(s, 1) && Front(m)[0] == SliceLength(s, Front(l)[0]);
      assert forall i :: 0 < i < |Leading(m)| ==> Leading(m)[i] == Leading(l)[i] == 1;
    }
  }

  lemma SliceRows(l: Lora, s: Index, m: Lora, Q: Tensor)
    requires Valid(l) && LeadingOnes(l) && s.Slice? && LoraSlice(l, s) == Ok(m)
    requires TensorIndex(Product(l), [s] + Whole(Depth(l) - 1)) == Ok(Q)
    requires Valid(m) && Broadcastable(m)
    ensures Same(Product(m), Q)
  {
    SliceFits(l, s, m);
    SlicedShape(l, s, m, Q);
    forall row, col: nat | InRange(Front(m), row) && col < Last(m)
      ensures Product(m).at(row + [col]) == Q.at(row + [col])
    {
      assert row[0] < Front(m)[0];
      SliceAtRow(l, s, m, Q, row, col);
    }
    SameByEntries(Product(m), Q, Front(m), Last(m));
  }

  lemma SlicedShape(l: Lora, s: Index, m: Lora, Q: Tensor)
    requires Valid(l) && LeadingOnes(l) && s.Slice? && LoraSlice(l, s) == Ok(m)
    requires TensorIndex(Product(l), [s] + Whole(Depth(l) - 1)) == Ok(Q)
    ensures Valid(m) && Front(m) != [] && Q.shape == Shape(m)
  {
    SliceShapes(l, s);
    TensorSlice(Product(l), s);
    TailWithLast(SliceLength(s, Front(l)[0]), Front(l), Last(l));
  }

  lemma TailWithLast(n: nat, front: seq<nat>, last: nat)
    requires front != []
    ensures ([n] + front[1..]) + [last] == [n] + (front + [last])[1..]
  {
  }

  lemma SliceAtRow(l: Lora, s: Index, m: Lora, Q: Tensor, row: seq<nat>, col: nat)
    requires Valid(l) && LeadingOnes(l) && s.Slice? && LoraSlice(l, s) == Ok(m)
    requires TensorIndex(Product(l), [s] + Whole(Depth(l) - 1)) == Ok(Q)
    requires Valid(m) && LeadingOnes(m) && |row| == |Front(m)|
    ensures Product(m).at(row + [col]) == Q.at(row + [col])
  {
    SliceEntry(l, s, m, row, col);
    ProductAt(m, row, col);
    SlicedProduct(l, s, Q, row, col);
  }

  lemma SlicedProduct(l: Lora, s: Index, Q: Tensor, row: seq<nat>, col: nat)
    requires Valid(l) && s.Slice? && |row| == |Front(l)|
    requires TensorIndex(Product(l), [s] + Whole(Depth(l) - 1)) == Ok(Q)
    ensures Q.at(row + [col]) == Entry(l, [SliceAt(s, Front(l)[0], row[0])] + row[1..], col)
  {
    FirstSource(Shape(l), s, row + [col]);
    var first := SliceAt(s, Front(l)[0], row[0]);
    ProductAt(l, [first] + row[1..], col);
    assert (row + [col])[1..] == row[1..] + [col];
    assert [first] + (row[1..] + [col]) == [first] + row[1..] + [col];
  }

  // Stack

  function As(ls: seq<Lora>): (r: seq<Tensor>)
    ensures |r| == |ls|
  {
    seq(|ls|, i requires 0 <= i < |ls| => ls[i].A)
  }

  function Bs(ls: seq<Lora>): (r: seq<Tensor>)
    ensures |r| == |ls|
  {
    seq(|ls|, i requires 0 <= i < |ls| => ls[i].B)
  }

  function Products(ls: seq<Lora>): (r: seq<Tensor>)
    requires forall i :: 0 <= i < |ls| ==> Valid(ls[i])
    ensures |r| == |ls|
  {
    seq(|ls|, i requires 0 <= i < |ls| => Product(ls[i]))
  }

  function LoraStack(ls: seq<Lora>, dim: int): Result<Lora> {
    if dim != 0 then Err(AssertionFailed)
    else
      var A :- TensorStack(As(ls));
      var B :- TensorStack(Bs(ls));
      MakeLora(A, B)
  }

  lemma StackShapes(ls: seq<Lora>, m: Lora)
    requires forall i :: 0 <= i < |ls| ==> Valid(ls[i])
    requires LoraStack(ls, 0) == Ok(m)
    ensures |ls| > 0 && Valid(m)
    ensures forall i :: 0 <= i < |ls| ==>
              && Front(ls[i]) == Front(ls[0]) && Last(ls[i]) == Last(ls[0]) && Rank(ls[i]) == Rank(ls[0])
              && Leading(ls[i]) == Leading(ls[0])
    ensures Front(m) == [|ls|] + Front(ls[0]) && Leading(m) == [|ls|] + Leading(ls[0])
    ensures Rank(m) == Rank(ls[0]) && Last(m) == Last(ls[0])
  {
    forall i | 0 <= i < |ls| ensures ls[i].A.shape == ls[0].A.shape && ls[i].B.shape == ls[0].B.shape {
      assert As(ls)[i].shape == As(ls)[0].shape && Bs(ls)[i].shape == Bs(ls)[0].shape;
    }
  }

  lemma StackEntry(ls: seq<Lora>, m: Lora, i: nat, row: seq<nat>, col: nat)
    requires forall i :: 0 <= i < |ls| ==> Valid(ls[i])
    requires LoraStack(ls, 0) == Ok(m) && i < |ls| && |row| == |Front(ls[i])|
    ensures Valid(m) && |Front(m)| == |row| + 1 && Entry(m, [i] + row, col) == Entry(ls[i], row, col)
  {
    StackShapes(ls, m);
    var l := ls[i];
    var z := Broadcast(Leading(l), row[..|row| - 1]);
    var z' := Broadcast(Leading(m), ([i] + row)[..|row|]);
    assert ([i] + row)[..|row|] == [i] + row[..|row| - 1];
    assert z' == [i] + z;
    forall k: nat | k < Rank(l) ensures Term(m, [i] + row, z', col, k) == Term(l, row, z, col, k) {
      assert ([i] + row + [k])[1..] == row + [k] && (z' + [k, col])[1..] == z + [k, col];
    }
    DotAgrees(m, [i] + row, z', col, l, row, z, col, Rank(l));
  }

  lemma StackShape(ls: seq<Lora>, m: Lora)
    requires forall i :: 0 <= i < |ls| ==> Valid(ls[i])
    requires LoraStack(ls, 0) == Ok(m)
    ensures Valid(m) && TensorStack(Products(ls)).Ok? && TensorStack(Products(ls)).value.shape == Shape(m)
  {
    StackShapes(ls, m);
    assert forall i :: 0 <= i < |ls| ==> Products(ls)[i].shape == Shape(ls[i]) == Shape(ls[0]);
  }

  /** Stacking the factors on axis 0 stacks the products, whatever A's leading axes are. */
  lemma StackCommutes(ls: seq<Lora>, dim: int)
    requires forall i :: 0 <= i < |ls| ==> Valid(ls[i])
    requires LoraStack(ls, dim).Ok?
    ensures dim == 0 && Valid(LoraStack(ls, dim).value) && TensorStack(Products(ls)).Ok?
    ensures Same(Product(LoraStack(ls, dim).value), TensorStack(Products(ls)).value)
    ensures (forall i :: 0 <= i < |ls| ==> Broadcastable(ls[i])) ==> Broadcastable(LoraStack(ls, dim).value)
  {
    var m := LoraStack(ls, dim).value;
    StackShape(ls, m);
    StackRows(ls, m, TensorStack(Products(ls)).value);
    StackFits(ls, m);
  }

  lemma StackRows(ls: seq<Lora>, m: Lora, Q: Tensor)
    requires forall i :: 0 <= i < |ls| ==> Valid(ls[i])
    requires LoraStack(ls, 0) == Ok(m) && TensorStack(Products(ls)) == Ok(Q)
    requires Valid(m) && Q.shape == Shape(m)
    ensures Same(Product(m), Q)
  {
    StackShapes(ls, m);
    forall row, col: nat | InRange(Front(m), row) && col < Last(m)
      ensures Product(m).at(row + [col]) == Q.at(row + [col])
    {
      StackedRow(ls, m, Q, row, col);
    }
    SameByEntries(Product(m), Q, Front(m), Last(m));
  }

  lemma StackedRow(ls: seq<Lora>, m: Lora, Q: Tensor, row: seq<nat>, col: nat)
    requires forall i :: 0 <= i < |ls| ==> Valid(ls[i])
    requires LoraStack(ls, 0) == Ok(m) && TensorStack(Products(ls)) == Ok(Q)
    requires Valid(m) && InRange(Front(m), row)
    ensures Product(m).at(row + [col]) == Q.at(row + [col])
  {
    StackShapes(ls, m);
    assert row[0] < |ls| && row == [row[0]] + row[1..];
    StackedAt(ls, m, Q, row[0], row[1..], col);
  }

  lemma StackAt(ts: seq<Tensor>, Q: Tensor, i: nat, idx: seq<nat>)
    requires TensorStack(ts) == Ok(Q) && i < |ts|
    ensures Q.at([i] + idx) == ts[i].at(idx)
  {
    assert ([i] + idx)[1..] == idx;
  }

  lemma StackedAt(ls: seq<Lora>, m: Lora, Q: Tensor, i: nat, row: seq<nat>, col: nat)
    requires forall i :: 0 <= i < |ls| ==> Valid(ls[i])
    requires LoraStack(ls, 0) == Ok(m) && TensorStack(Products(ls)) == Ok(Q)
    requires i < |ls| && |row| == |Front(ls[i])|
    ensures Valid(m) && Product(m).at([i] + row + [col]) == Q.at([i] + row + [col])
  {
    StackEntry(ls, m, i, row, col);
    ProductAt(m, [i] + row, col);
    ProductAt(ls[i], row, col);
    StackAt(Products(ls), Q, i, row + [col]);
    assert [i] + row + [col] == [i] + (row + [col]);
  }

  lemma StackFits(ls: seq<Lora>, m: Lora)
    requires forall i :: 0 <= i < |ls| ==> Valid(ls[i])
    requires LoraStack(ls, 0) == Ok(m)
    ensures Valid(m) && ((forall i :: 0 <= i < |ls| ==> Broadcastable(ls[i])) ==> Broadcastable(m))
  {
    StackShapes(ls, m);
    if forall i :: 0 <= i < |ls| ==> Broadcastable(ls[i]) {
      assert Broadcastable(ls[0]);
    }
  }

  // Concatenation

  function LoraCat(ls: seq<Lora>, dim: int): Result<Lora>
    requires forall i :: 0 <= i < |ls| ==> Valid(ls[i])
  {
    if dim != 0 then Err(AssertionFailed)
    else if ls == [] then Err(IndexOutOfRange)
    else if Depth(ls[0]) > 2 then
      var A :- TensorCat(As(ls));
      var B :- TensorCat(Bs(ls));
      MakeLora(A, B)
    else if forall i :: 0 < i < |ls| ==> TensorEqual(ls[0].A, ls[i].A) then
      var B :- TensorCat(Bs(ls));
      MakeLora(ls[0].A, B)
    else Err(NotImplemented)
  }

  lemma CatShapes(ls: seq<Lora>)
    requires forall i :: 0 <= i < |ls| ==> Valid(ls[i])
    requires LoraCat(ls, 0).Ok? && Depth(ls[0]) == 2
    ensures ls != [] && Catenable(Bs(ls)) && Valid(LoraCat(ls, 0).value)
    ensures forall i :: 0 <= i < |ls| ==>
              Depth(ls[i]) == 2 && Rank(ls[i]) == Rank(ls[0]) && Last(ls[i]) == Last(ls[0]) && Same(ls[i].A, ls[0].A)
    ensures Catenable(Products(ls))
  {
    forall i | 0 <= i < |ls|
      ensures Depth(ls[i]) == 2 && Rank(ls[i]) == Rank(ls[0]) && Last(ls[i]) == Last(ls[0]) && Same(ls[i].A, ls[0].A)
    {
      TensorEqualIsSame(ls[0].A, ls[i].A);
      assert Bs(ls)[i].shape[1..] == Bs(ls)[0].shape[1..];
      assert Bs(ls)[i].shape[1..][0] == Bs(ls)[0].shape[1..][0];
    }
    forall i | 0 <= i < |ls| ensures Products(ls)[i].shape[1..] == [Last(ls[0])] {
    }
  }

  /** Two lists of tensors with the same first axes. */
  predicate RowsMatch(ts: seq<Tensor>, us: seq<Tensor>) {
    && |ts| == |us|
    && forall i :: 0 <= i < |ts| ==> ts[i].shape != [] && us[i].shape != [] && ts[i].shape[0] == us[i].shape[0]
  }

  lemma {:induction false} RowsAlike(ts: seq<Tensor>, us: seq<Tensor>)
    requires RowsMatch(ts, us)
    ensures Rows(ts) == Rows(us)
  {
    if ts != [] { RowsAlike(ts[1..], us[1..]); }
  }

  /** Which of the pieces a row of the concatenation lies in. */
  function PieceOf(ts: seq<Tensor>, i: nat): (t: nat)
    requires forall i :: 0 <= i < |ts| ==> ts[i].shape != []
    requires i < Rows(ts)
    ensures t < |ts|
  {
    if i < ts[0].shape[0] then 0 else 1 + PieceOf(ts[1..], i - ts[0].shape[0])
  }

  /** Row i of the concatenation is row j of piece t. */
  ghost predicate LiesIn(ts: seq<Tensor>, i: nat, t: nat, j: nat)
    requires forall i :: 0 <= i < |ts| ==> ts[i].shape != []
  {
    t < |ts| && forall rest: seq<nat> :: Piece(ts, i, rest) == ts[t].at([j] + rest)
  }

  /** A row of the concatenation lies in one of the pieces, in the same one for both lists. */
  lemma {:induction false} PiecesAlike(ts: seq<Tensor>, us: seq<Tensor>, i: nat) returns (t: nat, j: nat)
    requires RowsMatch(ts, us) && i < Rows(ts)
    ensures t == PieceOf(ts, i) < |ts| && j < ts[t].shape[0]
    ensures LiesIn(ts, i, t, j) && LiesIn(us, i, t, j)
  {
    if i < ts[0].shape[0] {
      t, j := 0, i;
    } else {
      t, j := PiecesAlike(ts[1..], us[1..], i - ts[0].shape[0]);
      t := t + 1;
    }
  }

  lemma CatShape(ls: seq<Lora>, m: Lora, Q: Tensor)
    requires forall i :: 0 <= i < |ls| ==> Valid(ls[i])
    requires LoraCat(ls, 0) == Ok(m) && Depth(ls[0]) == 2 && TensorCat(Products(ls)) == Ok(Q)
    ensures Valid(m) && Catenable(Bs(ls)) && RowsMatch(Bs(ls), Products(ls))
    ensures Front(m) == [Rows(Bs(ls))] && Rank(m) == Rank(ls[0]) && Last(m) == Last(ls[0]) && Shape(m) == Q.shape
  {
    CatShapes(ls);
    assert RowsMatch(Bs(ls), Products(ls));
    RowsAlike(Bs(ls), Products(ls));
  }

  lemma CatAt(ls: seq<Lora>, m: Lora, Q: Tensor, i: nat, col: nat)
    requires forall i :: 0 <= i < |ls| ==> Valid(ls[i])
    requires LoraCat(ls, 0) == Ok(m) && Depth(ls[0]) == 2 && TensorCat(Products(ls)) == Ok(Q)
    requires Valid(m) && i < Front(m)[0] && col < Last(m)
    ensures |Front(m)| == 1 && Product(m).at([i] + [col]) == Q.at([i] + [col])
  {
    CatShapes(ls);
    CatShape(ls, m, Q);
    var t, j := PiecesAlike(Bs(ls), Products(ls), i);
    ProductAt(ls[t], [j], col);
    CatEntry(ls, m, i, col, t, j);
    ProductAt(m, [i], col);
    assert ([i] + [col])[1..] == [col];
  }

  /** Concatenating matrices that share A: the B's are concatenated, and so are the products. */
  lemma CatCommutes(ls: seq<Lora>, dim: int)
    requires forall i :: 0 <= i < |ls| ==> Valid(ls[i])
    requires LoraCat(ls, dim).Ok? && Depth(ls[0]) == 2
    ensures dim == 0 && Valid(LoraCat(ls, dim).value) && TensorCat(Products(ls)).Ok?
    ensures Same(Product(LoraCat(ls, dim).value), TensorCat(Products(ls)).value)
  {
    CatShapes(ls);
    var m := LoraCat(ls, dim).value;
    var Q := TensorCat(Products(ls)).value;
    CatShape(ls, m, Q);
    forall row, col: nat | InRange(Front(m), row) && col < Last(m)
      ensures Product(m).at(row + [col]) == Q.at(row + [col])
    {
      assert row == [row[0]];
      CatAt(ls, m, Q, row[0], col);
    }
    SameByEntries(Product(m), Q, Front(m), Last(m));
  }

  lemma CatRow(ts: seq<Tensor>, Q: Tensor, i: nat, rest: seq<nat>)
    requires TensorCat(ts) == Ok(Q)
    ensures Catenable(ts) && Q.at([i] + rest) == Piece(ts, i, rest)
  {
    assert ([i] + rest)[1..] == rest;
  }

  lemma CatEntry(ls: seq<Lora>, m: Lora, i: nat, col: nat, t: nat, j: nat)
    requires t < |ls| && Valid(m) && Valid(ls[t]) && Depth(m) == 2 && Depth(ls[t]) == 2
    requires Same(ls[t].A, m.A) && Rank(m) == Rank(ls[t]) && col < Last(m)
    requires Catenable(Bs(ls)) && TensorCat(Bs(ls)) == Ok(m.B)
    requires forall k: nat :: k < Rank(m) ==> Piece(Bs(ls), i, [k]) == ls[t].B.at([j] + [k])
    ensures Entry(m, [i], col) == Entry(ls[t], [j], col)
  {
    var z: seq<nat> := [];
    assert Zeros(0) == z;
    forall k: nat | k < Rank(m) ensures m.B.at([i] + [k]) == ls[t].B.at([j] + [k]) {
      CatRow(Bs(ls), m.B, i, [k]);
    }
    forall k: nat | k < Rank(m) ensures m.A.at(z + [k, col]) == ls[t].A.at(z + [k, col]) {
      SharedA(m, ls[t], k, col);
    }
    EntryFrom(m, [i], col, ls[t], [j], col, z, z);
  }

  lemma SharedA(m: Lora, l: Lora, k: nat, col: nat)
    requires Valid(m) && Depth(m) == 2 && Same(l.A, m.A) && k < Rank(m) && col < Last(m)
    ensures m.A.at([] + [k, col]) == l.A.at([] + [k, col])
  {
    assert [] + [k, col] == [k, col] && InRange(m.A.shape, [k, col]);
  }

  /** The second of two positions sliced off: nothing is left of A, where the product has that position. */
  lemma SecondPositionMisfits(a: seq<nat> -> real, b: seq<nat> -> real)
    ensures var l, s := Lora(Tensor([1, 1, 1], a), Tensor([2, 1, 1], b)), Slice(To(1), Open, 1);
      && LoraSlice(l, s).Ok? && Valid(LoraSlice(l, s).value) && !Broadcastable(LoraSlice(l, s).value)
      && TensorIndex(Product(l), [s] + Whole(2)).Ok?
      && TensorIndex(Product(l), [s] + Whole(2)).value.shape == [1, 1, 1]
  {
    var l, s := Lora(Tensor([1, 1, 1], a), Tensor([2, 1, 1], b)), Slice(To(1), Open, 1);
    assert SliceLength(s, 1) == 0 && SliceLength(s, 2) == 1;
    assert Leading(l) == [1] && Front(l)[0] == 2 && Shape(l) == [2, 1, 1];
    SliceCommutes(l, s);
    TensorSlice(Product(l), s);
  }
}
