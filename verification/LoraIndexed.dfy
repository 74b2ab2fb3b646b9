/** When indexing the factors means indexing the product. */
module LoraIndexed {
  import opened Tensors
  import opened Lora
  import opened LoraIndex

  predicate NoEllipsis(ix: seq<Index>) { forall i :: 0 <= i < |ix| ==> !ix[i].Ellipsis? }

  predicate Fits(n: nat, i: Index) { i.Slice? || (i.At? && 0 <= Axis(i.i, n) < n) }

  lemma TwoFit(r: nat, d: nat, x: Index, y: Index)
    ensures Indexable([r, d], [x, y]) <==> Fits(r, x) && Fits(d, y)
  {
    if Indexable([r, d], [x, y]) {
      assert [x, y][0] == x && [x, y][1] == y && [r, d][0] == r && [r, d][1] == d;
    }
  }

  /** The shapes and the indices of a low-rank matrix, axis by axis. */
  ghost predicate Split(l: Lora, ix: seq<Index>, ones: seq<nat>, q: seq<nat>, R: nat, r: nat, d: nat,
                        lead: seq<Index>, x: Index, y: Index) {
    && |ones| == |q| == |lead|
    && (forall i :: 0 <= i < |ones| ==> ones[i] == 1)
    && NoEllipsis(lead)
    && l.A.shape == ones + [r, d] && l.B.shape == q + [R, r] && ix == lead + [x, y]
  }

  lemma SplitShapes(l: Lora, ix: seq<Index>, ones: seq<nat>, q: seq<nat>, R: nat, r: nat, d: nat,
                    lead: seq<Index>, x: Index, y: Index)
    requires Split(l, ix, ones, q, R, r, d, lead, x, y)
    ensures Valid(l) && LeadingOnes(l) && Leading(l) == ones && Front(l) == q + [R] && Rank(l) == r && Last(l) == d
    ensures Shape(l) == q + [R, d] && Depth(l) == |ix|
  {
  }

  /** The factors are in range for their indices exactly when the product is for all of them. */
  lemma IndexableTogether(ones: seq<nat>, q: seq<nat>, R: nat, r: nat, d: nat, lead: seq<Index>, x: Index, y: Index)
    requires |ones| == |q| == |lead| && NoEllipsis(lead) && forall i :: 0 <= i < |ones| ==> ones[i] == 1
    ensures Indexable(q + [R, d], lead + [x, y]) <==>
            && Indexable(ones + [r, d], LeadingA(ones, lead) + [ALL, y])
            && Indexable(q + [R, r], lead + [x, ALL])
    ensures Indexable(q + [R, d], lead + [x, y]) <==> Indexable(q, lead) && Fits(R, x) && Fits(d, y)
  {
    LeadingOfOnes(ones, lead);
    IndexableConcat(ones, [r, d], LeadingA(ones, lead), [ALL, y]);
    IndexableConcat(q, [R, r], lead, [x, ALL]);
    IndexableConcat(q, [R, d], lead, [x, y]);
    TwoFit(r, d, ALL, y);
    TwoFit(R, r, x, ALL);
    TwoFit(R, d, x, y);
  }

  lemma IndexedA(A: Tensor, ones: seq<nat>, r: nat, d: nat, lead: seq<Index>, y: Index, B: Tensor, k: nat, b: nat)
    requires |ones| == |lead| && NoEllipsis(lead) && y.Slice? && forall i :: 0 <= i < |ones| ==> ones[i] == 1
    requires A.shape == ones + [r, d]
    requires TensorIndex(A, LeadingA(ones, lead) + [ALL, y]) == Ok(B)
    ensures B.shape == Ones(Slices(lead)) + [r, SliceLength(y, d)]
    ensures B.at(Zeros(Slices(lead)) + [k, b]) == A.at(Zeros(|lead|) + [k, SliceAt(y, d, b)])
  {
    LeadingOfOnes(ones, lead);
    MatrixSource(ones, r, d, LeadingA(ones, lead), ALL, y, Zeros(Slices(lead)), k, b);
    AllIsWhole(r, k);
  }

  lemma IndexedB(A: Tensor, q: seq<nat>, R: nat, r: nat, lead: seq<Index>, x: Index, B: Tensor,
                 u: seq<nat>, a: nat, k: nat)
    requires Indexable(q, lead) && x.Slice? && |u| == Slices(lead)
    requires A.shape == q + [R, r]
    requires TensorIndex(A, lead + [x, ALL]) == Ok(B)
    ensures |u| == |Indexed(q, lead)| && B.shape == Indexed(q, lead) + [SliceLength(x, R), r]
    ensures B.at(u + [a] + [k]) == A.at(Source(q, lead, u) + [SliceAt(x, R, a)] + [k])
  {
    MatrixSource(q, R, r, lead, x, ALL, u, a, k);
    AllIsWhole(r, k);
    assert u + [a] + [k] == u + [a, k];
    var s := Source(q, lead, u);
    assert s + [SliceAt(x, R, a)] + [k] == s + [SliceAt(x, R, a), k];
  }

  lemma IndexedProduct(P: Tensor, q: seq<nat>, R: nat, d: nat, lead: seq<Index>, x: Index, y: Index, Q: Tensor,
                       u: seq<nat>, a: nat, b: nat)
    requires Indexable(q, lead) && x.Slice? && y.Slice? && |u| == Slices(lead)
    requires P.shape == q + [R, d]
    requires TensorIndex(P, lead + [x, y]) == Ok(Q)
    ensures |u| == |Indexed(q, lead)| && Q.shape == Indexed(q, lead) + [SliceLength(x, R), SliceLength(y, d)]
    ensures Q.at(u + [a] + [b]) == P.at(Source(q, lead, u) + [SliceAt(x, R, a)] + [SliceAt(y, d, b)])
  {
    MatrixSource(q, R, d, lead, x, y, u, a, b);
    assert u + [a] + [b] == u + [a, b];
    var s := Source(q, lead, u);
    assert s + [SliceAt(x, R, a)] + [SliceAt(y, d, b)] == s + [SliceAt(x, R, a), SliceAt(y, d, b)];
  }

  /** Shapes after indexing both factors. */
  lemma IndexedShapes(l: Lora, ix: seq<Index>, ones: seq<nat>, q: seq<nat>, R: nat, r: nat, d: nat,
                      lead: seq<Index>, x: Index, y: Index, m: Lora)
    requires Split(l, ix, ones, q, R, r, d, lead, x, y) && Indexable(q, lead) && x.Slice? && y.Slice?
    requires m.A.shape == Ones(Slices(lead)) + [r, SliceLength(y, d)]
    requires m.B.shape == Indexed(q, lead) + [SliceLength(x, R), r]
    ensures |Indexed(q, lead)| == Slices(lead)
    ensures Valid(m) && LeadingOnes(m) && Rank(m) == r && Front(m) == Indexed(q, lead) + [SliceLength(x, R)]
    ensures Shape(m) == Indexed(q, lead) + [SliceLength(x, R), SliceLength(y, d)]
  {
    IndexedLength(q, lead);
  }

  /** The entry that indexing B by the row's indices and A by the column's picks out. */
  lemma IndexedEntry(l: Lora, ix: seq<Index>, ones: seq<nat>, q: seq<nat>, R: nat, r: nat, d: nat,
                     lead: seq<Index>, x: Index, y: Index, m: Lora, Q: Tensor, u: seq<nat>, a: nat, b: nat)
    requires Split(l, ix, ones, q, R, r, d, lead, x, y) && Indexable(q, lead) && x.Slice? && y.Slice?
    requires TensorIndex(l.A, LeadingA(ones, lead) + [ALL, y]) == Ok(m.A)
    requires TensorIndex(l.B, lead + [x, ALL]) == Ok(m.B)
    requires Valid(l) && TensorIndex(Product(l), lead + [x, y]) == Ok(Q)
    requires |u| == Slices(lead)
    ensures Valid(m) && LeadingOnes(m) && |Front(m)| == |u| + 1 && Shape(m) == Q.shape
    ensures Entry(m, u + [a], b) == Q.at(u + [a] + [b])
  {
    SplitShapes(l, ix, ones, q, R, r, d, lead, x, y);
    IndexedA(l.A, ones, r, d, lead, y, m.A, 0, b);
    IndexedB(l.B, q, R, r, lead, x, m.B, u, a, 0);
    IndexedProduct(Product(l), q, R, d, lead, x, y, Q, u, a, b);
    IndexedShapes(l, ix, ones, q, R, r, d, lead, x, y, m);
    var from, col := Source(q, lead, u) + [SliceAt(x, R, a)], SliceAt(y, d, b);
    var z, z' := Zeros(|u|), Zeros(|lead|);
    forall k: nat | k < r ensures m.B.at(u + [a] + [k]) == l.B.at(from + [k]) {
      IndexedB(l.B, q, R, r, lead, x, m.B, u, a, k);
    }
    forall k: nat | k < r ensures m.A.at(z + [k, b]) == l.A.at(z' + [k, col]) {
      IndexedA(l.A, ones, r, d, lead, y, m.A, k, b);
    }
    EntryFrom(m, u + [a], b, l, from, col, z, z');
    ProductAt(l, from, col);
  }

  lemma Splits(l: Lora, ix: seq<Index>)
    requires Valid(l) && LeadingOnes(l) && |ix| == Depth(l) && NoEllipsis(ix)
    ensures Split(l, ix, Leading(l), Front(l)[..|ix| - 2], Front(l)[|ix| - 2], Rank(l), Last(l),
                  ix[..|ix| - 2], ix[|ix| - 2], ix[|ix| - 1])
    ensures |Leading(l)| == |ix| - 2 && forall i :: 0 <= i < |ix| - 2 ==> Leading(l)[i] != 0
  {
  }

  /** The same indices are in range for both factors together and for the product. */
  lemma FullRange(l: Lora, ix: seq<Index>)
    requires Valid(l) && LeadingOnes(l) && |ix| == Depth(l) && NoEllipsis(ix)
    ensures Indexable(Shape(l), ix) <==>
            && TensorIndex(l.A, LeadingA(Leading(l), ix[..|ix| - 2]) + [ALL, ix[|ix| - 1]]).Ok?
            && TensorIndex(l.B, ix[..|ix| - 2] + [ix[|ix| - 2], ALL]).Ok?
    ensures !Indexable(Shape(l), ix) ==> LoraFull(l, ix).Err?
  {
    var n := |ix|;
    Splits(l, ix);
    var q, R := Front(l)[..n - 2], Front(l)[n - 2];
    SplitShapes(l, ix, Leading(l), q, R, Rank(l), Last(l), ix[..n - 2], ix[n - 2], ix[n - 1]);
    IndexableTogether(Leading(l), q, R, Rank(l), Last(l), ix[..n - 2], ix[n - 2], ix[n - 1]);
  }

  lemma FullResult(l: Lora, ix: seq<Index>, m: Lora)
    requires Valid(l) && LeadingOnes(l) && |ix| == Depth(l) && NoEllipsis(ix)
    requires TensorIndex(l.A, LeadingA(Leading(l), ix[..|ix| - 2]) + [ALL, ix[|ix| - 1]]) == Ok(m.A)
    requires TensorIndex(l.B, ix[..|ix| - 2] + [ix[|ix| - 2], ALL]) == Ok(m.B)
    requires Valid(m)
    ensures LoraFull(l, ix) == Ok(m)
  {
  }

  lemma FitsSplit(l: Lora, ix: seq<Index>)
    requires Valid(l) && LeadingOnes(l) && |ix| == Depth(l) && NoEllipsis(ix) && Indexable(Shape(l), ix)
    ensures Indexable(Front(l)[..|ix| - 2], ix[..|ix| - 2])
  {
    var n := |ix|;
    IndexableConcat(Front(l)[..n - 2], [Front(l)[n - 2], Last(l)], ix[..n - 2], [ix[n - 2], ix[n - 1]]);
    assert Shape(l) == Front(l)[..n - 2] + [Front(l)[n - 2], Last(l)] && ix == ix[..n - 2] + [ix[n - 2], ix[n - 1]];
  }

  /** Both matrix axes sliced: indexing the factors indexes the product. */
  lemma SlicesCommute(l: Lora, ix: seq<Index>)
    requires Valid(l) && LeadingOnes(l) && |ix| == Depth(l) && NoEllipsis(ix) && Indexable(Shape(l), ix)
    requires ix[|ix| - 2].Slice? && ix[|ix| - 1].Slice?
    ensures LoraFull(l, ix).Ok? && Valid(LoraFull(l, ix).value) && LeadingOnes(LoraFull(l, ix).value)
    ensures Same(Product(LoraFull(l, ix).value), TensorIndex(Product(l), ix).value)
  {
    var n := |ix|;
    var lead, x, y := ix[..n - 2], ix[n - 2], ix[n - 1];
    var ones, q, R, r, d := Leading(l), Front(l)[..n - 2], Front(l)[n - 2], Rank(l), Last(l);
    FullRange(l, ix);
    Splits(l, ix);
    FitsSplit(l, ix);
    var m := Lora(TensorIndex(l.A, LeadingA(ones, lead) + [ALL, y]).value, TensorIndex(l.B, lead + [x, ALL]).value);
    var Q := TensorIndex(Product(l), ix).value;
    IndexedSame(l, ix, ones, q, R, r, d, lead, x, y, m, Q);
    FullResult(l, ix, m);
  }

  lemma IndexedSame(l: Lora, ix: seq<Index>, ones: seq<nat>, q: seq<nat>, R: nat, r: nat, d: nat,
                    lead: seq<Index>, x: Index, y: Index, m: Lora, Q: Tensor)
    requires Split(l, ix, ones, q, R, r, d, lead, x, y) && Indexable(q, lead) && x.Slice? && y.Slice?
    requires TensorIndex(l.A, LeadingA(ones, lead) + [ALL, y]) == Ok(m.A)
    requires TensorIndex(l.B, lead + [x, ALL]) == Ok(m.B)
    requires Valid(l) && TensorIndex(Product(l), lead + [x, y]) == Ok(Q)
    ensures Valid(m) && LeadingOnes(m) && Same(Product(m), Q)
  {
    var p := Slices(lead);
    IndexedEntry(l, ix, ones, q, R, r, d, lead, x, y, m, Q, Zeros(p), 0, 0);
    forall row, col: nat | InRange(Front(m), row) && col < Last(m)
      ensures Product(m).at(row + [col]) == Q.at(row + [col])
    {
      assert row == row[..p] + [row[p]];
      IndexedEntry(l, ix, ones, q, R, r, d, lead, x, y, m, Q, row[..p], row[p], col);
      ProductAt(m, row, col);
    }
    SameByEntries(Product(m), Q, Front(m), Last(m));
  }

  lemma IndexedRank(t: Tensor, lead: seq<Index>, x: Index, y: Index, u: Tensor)
    requires TensorIndex(t, lead + [x, y]) == Ok(u)
    ensures |u.shape| == Slices(lead) + (if x.At? then 0 else 1) + (if y.At? then 0 else 1)
  {
    IndexedLength(t.shape, lead + [x, y]);
    SlicesConcat(lead, [x, y]);
    SlicesOfTwo(x, y);
  }

  /** A single position on a matrix axis: refused, or the result has an axis too many. */
  lemma PositionsMisfit(l: Lora, ix: seq<Index>)
    requires Valid(l) && LeadingOnes(l) && |ix| == Depth(l) && NoEllipsis(ix) && Indexable(Shape(l), ix)
    requires ix[|ix| - 2].At? || ix[|ix| - 1].At?
    ensures LoraFull(l, ix).Ok? ==>
            && Valid(LoraFull(l, ix).value)
            && |Shape(LoraFull(l, ix).value)| == |TensorIndex(Product(l), ix).value.shape| + 1
  {
    var n := |ix|;
    var lead, x, y := ix[..n - 2], ix[n - 2], ix[n - 1];
    FullRange(l, ix);
    Splits(l, ix);
    LeadingOfOnes(Leading(l), lead);
    var A := TensorIndex(l.A, LeadingA(Leading(l), lead) + [ALL, y]).value;
    var B := TensorIndex(l.B, lead + [x, ALL]).value;
    IndexedRank(l.A, LeadingA(Leading(l), lead), ALL, y, A);
    IndexedRank(l.B, lead, x, ALL, B);
    IndexedRank(Product(l), lead, x, y, TensorIndex(Product(l), ix).value);
    if LoraFull(l, ix).Ok? { FullMade(l, ix, A, B); }
  }

  lemma FullMade(l: Lora, ix: seq<Index>, A: Tensor, B: Tensor)
    requires Valid(l) && |ix| == Depth(l) && LoraFull(l, ix).Ok?
    requires TensorIndex(l.A, LeadingA(Leading(l), ix[..|ix| - 2]) + [ALL, ix[|ix| - 1]]) == Ok(A)
    requires TensorIndex(l.B, ix[..|ix| - 2] + [ix[|ix| - 2], ALL]) == Ok(B)
    ensures LoraFull(l, ix) == MakeLora(A, B) && Valid(LoraFull(l, ix).value)
    ensures |A.shape| == |B.shape| == |Shape(LoraFull(l, ix).value)|
  {
  }

  lemma SlicesOfTwo(x: Index, y: Index)
    ensures Slices([x, y]) == (if x.At? then 0 else 1) + (if y.At? then 0 else 1)
  {
    assert [x, y][1..] == [y] && [y][1..] == [];
    assert Slices([]) == 0 && Slices([y]) == if y.At? then 0 else 1;
  }

  /**
   * Indexing the factors with one index for every axis, A's leading axes being of length one: the
   * result is the indexed product exactly when neither matrix axis is indexed by a single position.
   */
  lemma IndexCommutes(l: Lora, ix: seq<Index>)
    requires Valid(l) && LeadingOnes(l) && |ix| == Depth(l) && NoEllipsis(ix)
    ensures !Indexable(Shape(l), ix) ==> LoraFull(l, ix).Err?
    ensures LoraFull(l, ix).Ok? ==> Valid(LoraFull(l, ix).value)
    ensures Indexable(Shape(l), ix) ==>
              ((LoraFull(l, ix).Ok? && Same(Product(LoraFull(l, ix).value), TensorIndex(Product(l), ix).value))
               <==> ix[|ix| - 2].Slice? && ix[|ix| - 1].Slice?)
  {
    FullRange(l, ix);
    if Indexable(Shape(l), ix) {
      if ix[|ix| - 2].Slice? && ix[|ix| - 1].Slice? {
        SlicesCommute(l, ix);
      } else {
        PositionsMisfit(l, ix);
      }
    }
  }

  // Fewer indices than axes, and the ellipsis

  lemma {:induction false} ExpandedConcat(x: seq<Index>, y: seq<Index>, k: nat)
    ensures Expanded(x + y, k) == Expanded(x, k) + Expanded(y, k)
  {
    if x == [] {
      assert x + y == y;
    } else {
      assert (x + y)[1..] == x[1..] + y;
      ExpandedConcat(x[1..], y, k);
    }
  }

  lemma {:induction false} ExpandedPlain(x: seq<Index>, k: nat)
    requires NoEllipsis(x)
    ensures Expanded(x, k) == x
  {
    if x != [] {
      ExpandedPlain(x[1..], k);
      assert x == [x[0]] + x[1..];
    }
  }

  lemma PlainPadded(ix: seq<Index>, n: nat)
    requires ix != [] && NoEllipsis(ix) && |ix| <= n
    ensures OnePerAxis(ix, n) == ix + Whole(n - |ix|)
  {
    ExpandedPlain(ix, |ix| - 1);
    assert ix + Whole(0) == ix;
  }

  lemma TrailingDropped(l: Lora, ix: seq<Index>)
    requires Valid(l)
    ensures LoraTuple(l, ix + [Ellipsis]) == LoraTuple(l, ix)
  {
    assert (ix + [Ellipsis])[..|ix|] == ix;
  }

  /** Indices at the front, with or without a trailing ellipsis, leave the other axes whole. */
  lemma FrontIndices(l: Lora, ix: seq<Index>)
    requires Valid(l) && ix != [] && NoEllipsis(ix) && |ix| <= Depth(l)
    ensures LoraTuple(l, ix) == LoraTuple(l, ix + [Ellipsis]) == LoraFull(l, ix + Whole(Depth(l) - |ix|))
  {
    PlainPadded(ix, Depth(l));
    TrailingDropped(l, ix);
  }

  /** The two pick the same of an axis, whatever its length. */
  ghost predicate Alike(x: Index, y: Index) {
    x == y || (x.Slice? && y.Slice? && forall n: nat :: PicksAlike(x, y, n))
  }

  ghost predicate PicksAlike(x: Index, y: Index, n: nat)
    requires x.Slice? && y.Slice?
  {
    && SliceLength(x, n) == SliceLength(y, n)
    && forall j :: 0 <= j < SliceLength(x, n) ==> SliceAt(x, n, j) == SliceAt(y, n, j)
  }

  ghost predicate AllAlike(x: seq<Index>, y: seq<Index>) {
    |x| == |y| && forall i :: 0 <= i < |x| ==> Alike(x[i], y[i])
  }

  /** The slices that keep an axis whole: `:` and `0:`, with step one. */
  predicate WholeSlice(i: Index) { i.Slice? && i.step == 1 && i.stop == Open && i.start in {Open, To(0)} }

  /** No others do so whatever the length of the axis. */
  lemma WholeSliceIs(i: Index)
    ensures Alike(i, ALL) <==> WholeSlice(i)
  {
    if WholeSlice(i) {
      forall n: nat ensures PicksAlike(i, ALL, n) { assert SliceLength(i, n) == n; }
    } else if i.Slice? {
      if i.step > 1 {
        SparseMisses(i);
      } else if i.start !in {Open, To(0)} {
        StartMisses(i);
      } else {
        StopMisses(i);
      }
    }
  }

  lemma SparseMisses(i: Index)
    requires i.Slice? && i.step > 1
    ensures !PicksAlike(i, ALL, 2)
  {
    assert SliceLength(ALL, 2) == 2;
    assert SliceAt(i, 2, 1) >= 2;
  }

  lemma StartMisses(i: Index)
    requires i.Slice? && i.step == 1 && i.start !in {Open, To(0)}
    ensures exists n: nat :: !PicksAlike(i, ALL, n)
  {
    var n := if i.start.position > 0 then 1 else 1 - i.start.position;
    assert SliceLength(ALL, n) == n && SliceLength(i, n) < n;
    assert !PicksAlike(i, ALL, n);
  }

  lemma StopMisses(i: Index)
    requires i.Slice? && i.step == 1 && i.start in {Open, To(0)} && i.stop != Open
    ensures exists n: nat :: !PicksAlike(i, ALL, n)
  {
    var n := if i.stop.position >= 0 then i.stop.position + 1 else 1;
    assert SliceLength(ALL, n) == n && SliceLength(i, n) < n;
    assert !PicksAlike(i, ALL, n);
  }

  lemma AlikeSame(x: Index, y: Index, z: Index)
    requires Alike(x, y)
    ensures Alike(y, x) && (Alike(y, z) ==> Alike(x, z))
  {
    if x != y {
      forall n: nat ensures PicksAlike(y, x, n) { assert PicksAlike(x, y, n); }
      if y != z && Alike(y, z) {
        forall n: nat ensures PicksAlike(x, z, n) { assert PicksAlike(x, y, n) && PicksAlike(y, z, n); }
      }
    }
  }

  /** Alike indices give the same tensor, or both none. */
  lemma AlikeIndices(t: Tensor, x: seq<Index>, y: seq<Index>)
    requires AllAlike(x, y)
    ensures TensorIndex(t, x).Ok? <==> TensorIndex(t, y).Ok?
    ensures TensorIndex(t, x).Ok? ==> Same(TensorIndex(t, x).value, TensorIndex(t, y).value)
  {
    if Indexable(t.shape, x) {
      AlikeShapes(t.shape, x, y);
      forall idx | InRange(Indexed(t.shape, x), idx)
        ensures Source(t.shape, x, idx) == Source(t.shape, y, idx)
      {
        AlikeSources(t.shape, x, y, idx);
      }
    }
  }

  lemma AlikeTail(x: seq<Index>, y: seq<Index>)
    requires AllAlike(x, y) && x != []
    ensures AllAlike(x[1..], y[1..]) && Alike(x[0], y[0])
  {
    assert forall i :: 0 <= i < |x| - 1 ==> x[1..][i] == x[i + 1] && y[1..][i] == y[i + 1];
  }

  lemma {:induction false} AlikeShapes(shape: seq<nat>, x: seq<Index>, y: seq<Index>)
    requires AllAlike(x, y) && Indexable(shape, x)
    ensures Indexable(shape, y) && Indexed(shape, x) == Indexed(shape, y)
  {
    assert forall i :: 0 <= i < |x| ==> Alike(x[i], y[i]);
    if x != [] {
      AlikeTail(x, y);
      TailIndexable(shape, x);
      AlikeShapes(shape[1..], x[1..], y[1..]);
      if x[0] != y[0] { assert PicksAlike(x[0], y[0], shape[0]); }
    }
  }

  lemma {:induction false} AlikeSources(shape: seq<nat>, x: seq<Index>, y: seq<Index>, idx: seq<nat>)
    requires AllAlike(x, y) && Indexable(shape, x) && Indexable(shape, y) && Indexed(shape, x) == Indexed(shape, y)
    requires InRange(Indexed(shape, x), idx)
    ensures Source(shape, x, idx) == Source(shape, y, idx)
  {
    if x != [] {
      AlikeTail(x, y);
      TailIndexable(shape, x);
      AlikeShapes(shape[1..], x[1..], y[1..]);
      RestInRange(shape, x, idx);
      AlikeSources(shape[1..], x[1..], y[1..], Unpicked(x[0], idx));
      if x[0] != y[0] { assert PicksAlike(x[0], y[0], shape[0]); }
    }
  }

  lemma RestInRange(shape: seq<nat>, x: seq<Index>, idx: seq<nat>)
    requires Indexable(shape, x) && x != [] && InRange(Indexed(shape, x), idx)
    ensures Indexable(shape[1..], x[1..]) && InRange(Indexed(shape[1..], x[1..]), Unpicked(x[0], idx))
    ensures x[0].Slice? ==> idx[0] < SliceLength(x[0], shape[0])
  {
    TailIndexable(shape, x);
    if x[0].At? {
      assert Indexed(shape, x) == Indexed(shape[1..], x[1..]);
    } else {
      assert Indexed(shape, x) == [SliceLength(x[0], shape[0])] + Indexed(shape[1..], x[1..]);
      assert forall i :: 0 <= i < |idx| - 1 ==> idx[1..][i] == idx[i + 1];
    }
  }

  /**
   * An ellipsis in front of other indices stands for as many axes as the others number, whatever is
   * missing being made up at the end: every axis gets an index that picks what the one meant for it picks
   * exactly when the two numbers are half the axes each, or when there is room left and the indices
   * after the ellipsis take their axes whole.
   */
  lemma EllipsisExpansion(ix: seq<Index>, before: seq<Index>, after: seq<Index>, n: nat)
    requires ix == before + [Ellipsis] + after && NoEllipsis(before) && NoEllipsis(after) && after != []
    requires |ix| - 1 <= n
    ensures AllAlike(OnePerAxis(ix, n), Meant(before, after, n))
       <==> n == 2 * (|ix| - 1) || (n > 2 * (|ix| - 1) && forall i :: 0 <= i < |after| ==> WholeSlice(after[i]))
  {
    var k := |ix| - 1;
    ExpandedBetween(ix, before, after, k);
    MadeUpAtTheEnd(before, after, k, n, Expanded(ix, k), Meant(before, after, n));
  }

  lemma ExpandedBetween(ix: seq<Index>, before: seq<Index>, after: seq<Index>, k: nat)
    requires ix == before + [Ellipsis] + after && NoEllipsis(before) && NoEllipsis(after)
    ensures Expanded(ix, k) == before + Whole(k) + after
  {
    ExpandedEllipsis(before, after, k);
  }

  lemma ExpandedEllipsis(before: seq<Index>, after: seq<Index>, k: nat)
    requires NoEllipsis(before) && NoEllipsis(after)
    ensures Expanded(before + [Ellipsis] + after, k) == before + Whole(k) + after
  {
    ExpandedPlain(before, k);
    ExpandedPlain(after, k);
    ExpandedConcat(before + [Ellipsis], after, k);
    ExpandedConcat(before, [Ellipsis], k);
    OneExpanded(k);
  }

  lemma OneExpanded(k: nat)
    ensures Expanded([Ellipsis], k) == Whole(k)
  {
    assert [Ellipsis][1..] == [] && Whole(k) + [] == Whole(k);
  }

  lemma MadeUpAtTheEnd(before: seq<Index>, after: seq<Index>, k: nat, n: nat, e: seq<Index>, wanted: seq<Index>)
    requires k == |before| + |after| <= n && after != []
    requires e == before + Whole(k) + after && wanted == before + Whole(n - k) + after
    ensures AllAlike(Padded(e, n), wanted)
       <==> n == 2 * k || (n > 2 * k && forall i :: 0 <= i < |after| ==> WholeSlice(after[i]))
  {
    if n > 2 * k {
      var j := n - 2 * k;
      assert wanted == before + Whole(k) + (Whole(j) + after);
      assert e + Whole(j) == before + Whole(k) + (after + Whole(j));
      SamePrefix(before + Whole(k), after + Whole(j), Whole(j) + after);
      if AllAlike(after + Whole(j), Whole(j) + after) {
        forall i | 0 <= i < |after| ensures WholeSlice(after[i]) { Shifted(after, j, i); }
      } else if forall i :: 0 <= i < |after| ==> WholeSlice(after[i]) {
        WholeAfter(after, j);
      }
    }
  }

  lemma SamePrefix(p: seq<Index>, a: seq<Index>, b: seq<Index>)
    ensures AllAlike(p + a, p + b) <==> AllAlike(a, b)
  {
    if AllAlike(p + a, p + b) {
      forall i | 0 <= i < |a| ensures Alike(a[i], b[i]) {
        assert a[i] == (p + a)[|p| + i] && b[i] == (p + b)[|p| + i];
      }
    }
  }

  lemma WholeAfter(after: seq<Index>, j: nat)
    requires forall i :: 0 <= i < |after| ==> WholeSlice(after[i])
    ensures AllAlike(after + Whole(j), Whole(j) + after)
  {
    var x, y := after + Whole(j), Whole(j) + after;
    forall i | 0 <= i < |x| ensures Alike(x[i], y[i]) {
      WholeSliceIs(x[i]);
      WholeSliceIs(y[i]);
      AlikeSame(y[i], ALL, ALL);
      AlikeSame(x[i], ALL, y[i]);
    }
  }

  /** Indices that whole slices may be moved past are whole slices themselves. */
  lemma {:induction false} Shifted(after: seq<Index>, j: nat, i: nat)
    requires j > 0 && AllAlike(after + Whole(j), Whole(j) + after) && i < |after|
    ensures WholeSlice(after[i])
    decreases i
  {
    var x, y := after + Whole(j), Whole(j) + after;
    assert Alike(x[i], y[i]) && x[i] == after[i];
    if i >= j {
      assert y[i] == after[i - j];
      Shifted(after, j, i - j);
      WholeSliceIs(after[i - j]);
    }
    AlikeSame(x[i], y[i], ALL);
    WholeSliceIs(after[i]);
  }

  /** Position 0 on both matrix axes of a product with the axes [2, 1, 1]: what comes back has the axes
      [2, 1], where the indexed product has [2]. */
  lemma BothPositionsMisfit(l: Lora)
    requires l.A.shape == [1, 1, 1] && l.B.shape == [2, 1, 1]
    ensures Valid(l) && LoraFull(l, [ALL, At(0), At(0)]).Ok? && Valid(LoraFull(l, [ALL, At(0), At(0)]).value)
    ensures Shape(LoraFull(l, [ALL, At(0), At(0)]).value) == [2, 1]
    ensures TensorIndex(Product(l), [ALL, At(0), At(0)]).Ok?
    ensures TensorIndex(Product(l), [ALL, At(0), At(0)]).value.shape == [2]
  {
    assert Shape(l) == [2, 1, 1] && Leading(l) == [1];
    ThreeOfTensor(l.A, 1, 1, 1, ALL, ALL, At(0));
    ThreeOfTensor(l.B, 2, 1, 1, ALL, At(0), ALL);
    ThreeOfTensor(Product(l), 2, 1, 1, ALL, At(0), At(0));
    LeftAll(1);
    LeftAll(2);
    assert [1] + ([1] + []) == [1, 1] && [2] + ([] + [1]) == [2, 1] && [2] + ([] + []) == [2];
    OnePosition(l, [ALL, At(0), At(0)]);
  }

  lemma LeftAll(n: nat)
    ensures Left(ALL, n) == [n]
  {
    AllIsWhole(n, 0);
  }

  lemma ThreeOfTensor(t: Tensor, a: nat, b: nat, c: nat, x: Index, y: Index, z: Index)
    requires t.shape == [a, b, c] && Fits(a, x) && Fits(b, y) && Fits(c, z)
    ensures TensorIndex(t, [x, y, z]).Ok?
    ensures TensorIndex(t, [x, y, z]).value.shape == Left(x, a) + (Left(y, b) + Left(z, c))
  {
    ThreeIndexed(a, b, c, x, y, z);
  }

  lemma OnePosition(l: Lora, ix: seq<Index>)
    requires Valid(l) && Leading(l) == [1] && ix == [ALL, At(0), At(0)]
    requires TensorIndex(l.A, [ALL, ALL, At(0)]).Ok? && TensorIndex(l.A, [ALL, ALL, At(0)]).value.shape == [1, 1]
    requires TensorIndex(l.B, [ALL, At(0), ALL]).Ok? && TensorIndex(l.B, [ALL, At(0), ALL]).value.shape == [2, 1]
    ensures LoraFull(l, ix).Ok? && Valid(LoraFull(l, ix).value) && Shape(LoraFull(l, ix).value) == [2, 1]
  {
    assert ix[..1] == [ALL] && LeadingA([1], [ALL]) == [ALL];
    assert [ALL] + [ALL, At(0)] == [ALL, ALL, At(0)] && [ALL] + [At(0), ALL] == [ALL, At(0), ALL];
  }

  lemma ThreeIndexed(a: nat, b: nat, c: nat, x: Index, y: Index, z: Index)
    requires Fits(a, x) && Fits(b, y) && Fits(c, z)
    ensures Indexable([a, b, c], [x, y, z])
    ensures Indexed([a, b, c], [x, y, z]) == Left(x, a) + (Left(y, b) + Left(z, c))
  {
    assert [a, b, c][1..] == [b, c] && [x, y, z][1..] == [y, z] && [b, c][1..] == [c] && [y, z][1..] == [z];
    assert [c][1..] == [] && [z][1..] == [];
    assert Indexed([c], [z]) == Left(z, c);
    assert Indexed([b, c], [y, z]) == Left(y, b) + Left(z, c);
  }

  /** What one index leaves of its axis. */
  function Left(i: Index, n: nat): seq<nat>
    requires Fits(n, i)
  {
    if i.At? then [] else [SliceLength(i, n)]
  }

  /** An ellipsis between two positions on five axes: the second one ends up on the fourth axis. */
  lemma InnerEllipsisMisplaced()
    ensures OnePerAxis([At(0), Ellipsis, At(1)], 5) == [At(0), ALL, ALL, At(1), ALL]
    ensures Meant([At(0)], [At(1)], 5) == [At(0), ALL, ALL, ALL, At(1)]
  {
    var ix := [At(0), Ellipsis, At(1)];
    assert ix == [At(0)] + [Ellipsis] + [At(1)];
    ExpandedBetween(ix, [At(0)], [At(1)], 2);
    assert Whole(2) == [ALL, ALL] && Whole(1) == [ALL] && Whole(3) == [ALL, ALL, ALL];
  }
}
