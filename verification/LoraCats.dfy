/** Concatenating batches of low-rank matrices: both factors are concatenated along the first axis. */
module LoraCats {
  import opened Tensors
  import opened Lora
  import opened LoraIndex
  import opened LoraBatches

  /** Matrices with more than two axes that agree but for the length of B's first one. */
  predicate Batches(ls: seq<Lora>) {
    && ls != [] && ls[0].B.shape != []
    && forall i :: 0 <= i < |ls| ==>
         && Valid(ls[i]) && LeadingOnes(ls[i]) && Depth(ls[i]) > 2
         && ls[i].A.shape == ls[0].A.shape && ls[i].B.shape[1..] == ls[0].B.shape[1..]
  }

  lemma CatIsBatches(ls: seq<Lora>)
    requires forall i :: 0 <= i < |ls| ==> Valid(ls[i]) && LeadingOnes(ls[i])
    requires LoraCat(ls, 0).Ok? && Depth(ls[0]) > 2
    ensures Batches(ls)
  {
    forall i | 0 <= i < |ls| ensures ls[i].A.shape == ls[0].A.shape && ls[i].B.shape[1..] == ls[0].B.shape[1..] {
      SameTail(As(ls)[0].shape, As(ls)[i].shape);
      assert Bs(ls)[i].shape[1..] == Bs(ls)[0].shape[1..];
      assert Leading(ls[i])[0] == Leading(ls[0])[0] == 1;
    }
  }

  /** The pieces differ in the length of B's first axis alone. */
  lemma PieceShape(ls: seq<Lora>, t: nat)
    requires Batches(ls) && t < |ls|
    ensures Depth(ls[t]) == Depth(ls[0]) && Rank(ls[t]) == Rank(ls[0]) && Last(ls[t]) == Last(ls[0])
    ensures Front(ls[t])[1..] == Front(ls[0])[1..] && Leading(ls[t]) == Leading(ls[0])
  {
    var n := Depth(ls[0]) - 2;
    assert |ls[t].B.shape[1..]| == |ls[0].B.shape[1..]|;
    assert ls[t].B.shape[1..][n] == ls[0].B.shape[1..][n];
    assert Front(ls[t])[1..] == ls[t].B.shape[1..][..n] && Front(ls[0])[1..] == ls[0].B.shape[1..][..n];
  }

  lemma SameTail(a: seq<nat>, b: seq<nat>)
    requires a != [] && b != []
    ensures a == [a[0]] + a[1..] && b == [b[0]] + b[1..]
  {
  }

  lemma {:induction false} RowsOfOnes(ts: seq<Tensor>)
    requires forall i :: 0 <= i < |ts| ==> ts[i].shape != [] && ts[i].shape[0] == 1
    ensures Rows(ts) == |ts|
  {
    if ts != [] { RowsOfOnes(ts[1..]); }
  }

  lemma {:induction false} PieceOfOnes(ts: seq<Tensor>, i: nat)
    requires forall i :: 0 <= i < |ts| ==> ts[i].shape != [] && ts[i].shape[0] == 1
    requires i < |ts|
    ensures i < Rows(ts) && PieceOf(ts, i) == i
    ensures forall rest: seq<nat> :: Piece(ts, i, rest) == ts[i].at([0] + rest)
  {
    RowsOfOnes(ts);
    if i > 0 { PieceOfOnes(ts[1..], i - 1); }
  }

  lemma FirstOfAs(ls: seq<Lora>)
    requires Batches(ls)
    ensures forall i :: 0 <= i < |ls| ==> As(ls)[i].shape != [] && As(ls)[i].shape[0] == 1
  {
    forall i | 0 <= i < |ls| ensures As(ls)[i].shape != [] && As(ls)[i].shape[0] == 1 {
      assert Leading(ls[i])[0] == 1;
    }
  }

  /** What the concatenated factors look like. */
  lemma CatFactors(ls: seq<Lora>)
    requires Batches(ls)
    ensures Catenable(As(ls)) && Catenable(Bs(ls)) && Rows(As(ls)) == |ls|
    ensures LoraCat(ls, 0).Ok? && Valid(LoraCat(ls, 0).value)
    ensures var m := LoraCat(ls, 0).value;
      && TensorCat(As(ls)) == Ok(m.A) && TensorCat(Bs(ls)) == Ok(m.B)
      && Front(m) == [Rows(Bs(ls))] + Front(ls[0])[1..] && Leading(m) == [|ls|] + Leading(ls[0])[1..]
      && Rank(m) == Rank(ls[0]) && Last(m) == Last(ls[0])
  {
    FirstOfAs(ls);
    RowsOfOnes(As(ls));
    var A, B := TensorCat(As(ls)).value, TensorCat(Bs(ls)).value;
    assert A.shape == [|ls|] + ls[0].A.shape[1..] && B.shape == [Rows(Bs(ls))] + ls[0].B.shape[1..];
    CatMade(ls, A, B);
  }

  lemma CatMade(ls: seq<Lora>, A: Tensor, B: Tensor)
    requires Batches(ls) && TensorCat(As(ls)) == Ok(A) && TensorCat(Bs(ls)) == Ok(B)
    requires A.shape == [|ls|] + ls[0].A.shape[1..] && B.shape == [Rows(Bs(ls))] + ls[0].B.shape[1..]
    ensures LoraCat(ls, 0) == MakeLora(A, B) == Ok(Lora(A, B)) && Valid(Lora(A, B))
    ensures Front(Lora(A, B)) == [Rows(Bs(ls))] + Front(ls[0])[1..]
    ensures Leading(Lora(A, B)) == [|ls|] + Leading(ls[0])[1..]
    ensures Rank(Lora(A, B)) == Rank(ls[0]) && Last(Lora(A, B)) == Last(ls[0])
  {
    FirstReplaced(ls[0].A.shape, A.shape, |ls|, Depth(ls[0]) - 2);
    FirstReplaced(ls[0].B.shape, B.shape, Rows(Bs(ls)), Depth(ls[0]) - 1);
    MadeOf(ls[0], A, B);
  }

  lemma FirstReplaced(a: seq<nat>, b: seq<nat>, n: nat, k: nat)
    requires a != [] && b == [n] + a[1..] && 0 < k <= |a|
    ensures |b| == |a| && b[..k] == [n] + a[..k][1..] && forall i :: 0 < i < |a| ==> b[i] == a[i]
  {
  }

  lemma MadeOf(l: Lora, A: Tensor, B: Tensor)
    requires Valid(l) && Depth(l) > 2 && |A.shape| == |B.shape| == Depth(l)
    requires forall i :: 0 < i < Depth(l) ==> A.shape[i] == l.A.shape[i] && B.shape[i] == l.B.shape[i]
    ensures MakeLora(A, B) == Ok(Lora(A, B)) && Valid(Lora(A, B))
    ensures Rank(Lora(A, B)) == Rank(l) && Last(Lora(A, B)) == Last(l)
  {
  }

  /** The products can be concatenated too, into the shape of the concatenation. */
  lemma CatProducts(ls: seq<Lora>)
    requires Batches(ls)
    ensures RowsMatch(Bs(ls), Products(ls)) && Catenable(Products(ls)) && Rows(Bs(ls)) == Rows(Products(ls))
    ensures LoraCat(ls, 0).Ok? && Valid(LoraCat(ls, 0).value)
    ensures TensorCat(Products(ls)).Ok? && TensorCat(Products(ls)).value.shape == Shape(LoraCat(ls, 0).value)
  {
    CatFactors(ls);
    forall i | 0 <= i < |ls| ensures Products(ls)[i].shape[1..] == Front(ls[0])[1..] + [Last(ls[0])] {
      PieceShape(ls, i);
      ShapeTail(Front(ls[i]), Last(ls[i]));
    }
    ProductsMatch(ls);
    RowsAlike(Bs(ls), Products(ls));
    ShapeHead(Rows(Bs(ls)), Front(ls[0])[1..], Last(ls[0]));
  }

  lemma ProductsMatch(ls: seq<Lora>)
    requires Batches(ls)
    ensures RowsMatch(Bs(ls), Products(ls))
  {
  }

  lemma ShapeTail(front: seq<nat>, last: nat)
    requires front != []
    ensures (front + [last])[1..] == front[1..] + [last]
  {
  }

  lemma ShapeHead(n: nat, rest: seq<nat>, last: nat)
    ensures ([n] + rest) + [last] == [n] + (rest + [last])
  {
  }

  /** One piece's B with another one's A. */
  function Mixed(ls: seq<Lora>, a: nat, t: nat): Lora
    requires a < |ls| && t < |ls|
  {
    Lora(ls[a].A, ls[t].B)
  }

  /** Which piece's A a row of the concatenation is multiplied with: a single one serves all rows. */
  function PartnerOf(ls: seq<Lora>, i: nat): nat { if |ls| == 1 then 0 else i }

  lemma MixShape(ls: seq<Lora>, a: nat, t: nat)
    requires Batches(ls) && a < |ls| && t < |ls|
    ensures var mix := Mixed(ls, a, t);
      && Valid(mix) && LeadingOnes(mix) && Depth(mix) == Depth(ls[0])
      && Rank(mix) == Rank(ls[0]) && |Front(mix)| == Depth(ls[0]) - 1
  {
    PieceShape(ls, a);
    PieceShape(ls, t);
    assert Leading(Mixed(ls, a, t)) == Leading(ls[a]);
  }

  /** The first of A's positions serves all rows when there is no other. */
  lemma CatBroadcast(n: nat, ones: seq<nat>, i: nat, rest: seq<nat>)
    requires |rest| == |ones| && (n == 1 || i < n) && forall k :: 0 <= k < |ones| ==> ones[k] == 1
    ensures Broadcast([n] + ones, [i] + rest) == [if n == 1 then 0 else i] + Zeros(|ones|)
  {
  }

  lemma MixTerms(ls: seq<Lora>, m: Lora, i: nat, j: nat, rest: seq<nat>, col: nat, a: nat, t: nat, k: nat)
    requires Batches(ls) && a < |ls| && t < |ls| && |rest| == Depth(ls[0]) - 2
    requires TensorCat(As(ls)) == Ok(m.A) && TensorCat(Bs(ls)) == Ok(m.B) && Catenable(Bs(ls))
    requires Piece(Bs(ls), i, rest + [k]) == ls[t].B.at([j] + (rest + [k]))
    ensures Term(m, [i] + rest, [a] + Zeros(|rest| - 1), col, k)
         == Term(Mixed(ls, a, t), [j] + rest, Zeros(|rest|), col, k)
  {
    MixRow(Bs(ls), m.B, i, j, rest, t, k);
    CatColumn(ls, m.A, a, |rest|, k, col);
    TermFrom(m, [i] + rest, [a] + Zeros(|rest| - 1), col, Mixed(ls, a, t), [j] + rest, Zeros(|rest|), col, k);
  }

  lemma MixRow(ts: seq<Tensor>, Q: Tensor, i: nat, j: nat, rest: seq<nat>, t: nat, k: nat)
    requires TensorCat(ts) == Ok(Q) && Catenable(ts) && t < |ts|
    requires Piece(ts, i, rest + [k]) == ts[t].at([j] + (rest + [k]))
    ensures Q.at([i] + rest + [k]) == ts[t].at([j] + rest + [k])
  {
    CatRow(ts, Q, i, rest + [k]);
    ShapeHead(i, rest, k);
    ShapeHead(j, rest, k);
  }

  /** A row is made of the B it lies in and the A that has its number. */
  lemma CatMixes(ls: seq<Lora>, i: nat, j: nat, rest: seq<nat>, col: nat)
    requires Batches(ls) && i < Rows(Bs(ls)) && (|ls| == 1 || i < |ls|) && |rest| == Depth(ls[0]) - 2
    requires LiesIn(Bs(ls), i, PieceOf(Bs(ls), i), j)
    ensures var mix := Mixed(ls, PartnerOf(ls, i), PieceOf(Bs(ls), i));
      && LoraCat(ls, 0).Ok? && Valid(LoraCat(ls, 0).value) && Valid(mix)
      && |Front(LoraCat(ls, 0).value)| == |Front(mix)| == |rest| + 1
      && Product(LoraCat(ls, 0).value).at([i] + rest + [col]) == Entry(mix, [j] + rest, col)
  {
    CatFactors(ls);
    var m, a, t := LoraCat(ls, 0).value, PartnerOf(ls, i), PieceOf(Bs(ls), i);
    MixEntry(ls, m, i, j, rest, col, a, t);
    ProductAt(m, [i] + rest, col);
  }

  lemma MixEntry(ls: seq<Lora>, m: Lora, i: nat, j: nat, rest: seq<nat>, col: nat, a: nat, t: nat)
    requires Batches(ls) && a == PartnerOf(ls, i) < |ls| && t < |ls| && |rest| == Depth(ls[0]) - 2 && Valid(m)
    requires Leading(m) == [|ls|] + Leading(ls[0])[1..] && |Front(m)| == |rest| + 1 && Rank(m) == Rank(ls[0])
    requires TensorCat(As(ls)) == Ok(m.A) && TensorCat(Bs(ls)) == Ok(m.B) && Catenable(Bs(ls))
    requires LiesIn(Bs(ls), i, t, j)
    ensures Valid(Mixed(ls, a, t)) && |Front(Mixed(ls, a, t))| == |rest| + 1
    ensures Entry(m, [i] + rest, col) == Entry(Mixed(ls, a, t), [j] + rest, col)
  {
    MixShape(ls, a, t);
    FirstDot(ls[0], m, |ls|, i, rest, col, a);
    MixDots(ls, m, i, j, rest, col, a, t);
    MixedEntry(Mixed(ls, a, t), j, rest, col);
  }

  lemma FirstDot(l: Lora, m: Lora, n: nat, i: nat, rest: seq<nat>, col: nat, a: nat)
    requires Valid(l) && LeadingOnes(l) && Depth(l) > 2 && Valid(m) && Leading(m) == [n] + Leading(l)[1..]
    requires |rest| == Depth(l) - 2 == |Front(m)| - 1 && a == (if n == 1 then 0 else i) < n
    ensures Entry(m, [i] + rest, col) == Dot(m, [i] + rest, [a] + Zeros(|rest| - 1), col, Rank(m))
  {
    var ones := Leading(l)[1..];
    assert forall k :: 0 <= k < |ones| ==> ones[k] == Leading(l)[k + 1] == 1;
    CatDot(m, n, ones, i, rest, col, a);
  }

  lemma MixedEntry(mix: Lora, j: nat, rest: seq<nat>, col: nat)
    requires Valid(mix) && LeadingOnes(mix) && |Front(mix)| == |rest| + 1
    ensures Entry(mix, [j] + rest, col) == Dot(mix, [j] + rest, Zeros(|rest|), col, Rank(mix))
  {
    EntryOnes(mix, [j] + rest, col);
  }

  lemma CatDot(m: Lora, n: nat, ones: seq<nat>, i: nat, rest: seq<nat>, col: nat, a: nat)
    requires Valid(m) && Leading(m) == [n] + ones && |rest| == |ones| + 1 == |Front(m)| - 1
    requires a == (if n == 1 then 0 else i) < n && forall k :: 0 <= k < |ones| ==> ones[k] == 1
    ensures Entry(m, [i] + rest, col) == Dot(m, [i] + rest, [a] + Zeros(|rest| - 1), col, Rank(m))
  {
    assert ([i] + rest)[..|rest|] == [i] + rest[..|ones|];
    CatBroadcast(n, ones, i, rest[..|ones|]);
  }

  lemma MixDots(ls: seq<Lora>, m: Lora, i: nat, j: nat, rest: seq<nat>, col: nat, a: nat, t: nat)
    requires Batches(ls) && a < |ls| && t < |ls| && |rest| == Depth(ls[0]) - 2 && Valid(m)
    requires TensorCat(As(ls)) == Ok(m.A) && TensorCat(Bs(ls)) == Ok(m.B) && Catenable(Bs(ls))
    requires LiesIn(Bs(ls), i, t, j)
    ensures Dot(m, [i] + rest, [a] + Zeros(|rest| - 1), col, Rank(m))
         == Dot(Mixed(ls, a, t), [j] + rest, Zeros(|rest|), col, Rank(m))
  {
    var z, z' := [a] + Zeros(|rest| - 1), Zeros(|rest|);
    forall k: nat | k < Rank(m)
      ensures Term(m, [i] + rest, z, col, k) == Term(Mixed(ls, a, t), [j] + rest, z', col, k)
    {
      assert Piece(Bs(ls), i, rest + [k]) == Bs(ls)[t].at([j] + (rest + [k]));
      MixTerms(ls, m, i, j, rest, col, a, t, k);
    }
    DotAgrees(m, [i] + rest, z, col, Mixed(ls, a, t), [j] + rest, z', col, Rank(m));
  }

  lemma CatColumn(ls: seq<Lora>, A: Tensor, a: nat, n: nat, k: nat, col: nat)
    requires Batches(ls) && TensorCat(As(ls)) == Ok(A) && a < |ls| && n == Depth(ls[0]) - 2
    ensures A.at([a] + Zeros(n - 1) + [k, col]) == ls[a].A.at(Zeros(n) + [k, col])
  {
    var rest := Zeros(n - 1) + [k, col];
    FirstOfAs(ls);
    PieceOfOnes(As(ls), a);
    CatRow(As(ls), A, a, rest);
    ZerosFirst(n, a, [k, col]);
  }

  lemma ZerosFirst(n: nat, a: nat, y: seq<nat>)
    requires n > 0
    ensures [a] + Zeros(n - 1) + y == [a] + (Zeros(n - 1) + y) && Zeros(n) + y == [0] + (Zeros(n - 1) + y)
  {
  }

  /** The same row of the concatenated products comes from one piece alone. */
  lemma CatKeeps(ls: seq<Lora>, i: nat, j: nat, rest: seq<nat>, col: nat)
    requires Batches(ls) && i < Rows(Bs(ls)) && |rest| == Depth(ls[0]) - 2
    requires LiesIn(Products(ls), i, PieceOf(Bs(ls), i), j)
    ensures var l := ls[PieceOf(Bs(ls), i)];
      && TensorCat(Products(ls)).Ok? && |Front(l)| == |[j] + rest|
      && TensorCat(Products(ls)).value.at([i] + rest + [col]) == Entry(l, [j] + rest, col)
  {
    var l := ls[PieceOf(Bs(ls), i)];
    CatProducts(ls);
    PieceShape(ls, PieceOf(Bs(ls), i));
    ProductsRow(ls, TensorCat(Products(ls)).value, i, j, rest, col, PieceOf(Bs(ls), i));
    ProductAt(l, [j] + rest, col);
  }

  lemma ProductsRow(ls: seq<Lora>, Q: Tensor, i: nat, j: nat, rest: seq<nat>, col: nat, t: nat)
    requires Batches(ls) && TensorCat(Products(ls)) == Ok(Q) && t < |ls| && Catenable(Products(ls))
    requires Piece(Products(ls), i, rest + [col]) == Products(ls)[t].at([j] + (rest + [col]))
    ensures Q.at([i] + rest + [col]) == Product(ls[t]).at([j] + rest + [col])
  {
    CatRow(Products(ls), Q, i, rest + [col]);
    ShapeHead(i, rest, col);
    ShapeHead(j, rest, col);
  }

  // When the concatenation is right

  /** Concatenating the factors concatenates the products. */
  ghost predicate CatsRight(ls: seq<Lora>) {
    && (forall i :: 0 <= i < |ls| ==> Valid(ls[i]))
    && LoraCat(ls, 0).Ok? && Valid(LoraCat(ls, 0).value) && Broadcastable(LoraCat(ls, 0).value)
    && TensorCat(Products(ls)).Ok?
    && Same(Product(LoraCat(ls, 0).value), TensorCat(Products(ls)).value)
  }

  /** The same shapes, with any entries. */
  predicate Alike(ls: seq<Lora>, ks: seq<Lora>) {
    && |ls| == |ks|
    && forall i :: 0 <= i < |ls| ==> ks[i].A.shape == ls[i].A.shape && ks[i].B.shape == ls[i].B.shape
  }

  /** Every piece has one position. */
  predicate OneEach(ls: seq<Lora>)
    requires Batches(ls)
  {
    forall i :: 0 <= i < |ls| ==> Front(ls[i])[0] == 1
  }

  /** There is nothing in the product, or nothing to sum in its entries. */
  predicate Hollow(l: Lora)
    requires Valid(l)
  {
    Rank(l) == 0 || Last(l) == 0 || exists i :: 0 < i < |Front(l)| && Front(l)[i] == 0
  }

  lemma CatFits(ls: seq<Lora>)
    requires Batches(ls)
    ensures LoraCat(ls, 0).Ok? && Valid(LoraCat(ls, 0).value) && Catenable(Bs(ls))
    ensures Broadcastable(LoraCat(ls, 0).value) <==> |ls| == 1 || Rows(Bs(ls)) == |ls|
  {
    CatFactors(ls);
    var m := LoraCat(ls, 0).value;
    assert Leading(m)[0] == |ls| && Front(m)[0] == Rows(Bs(ls));
    assert forall i :: 0 < i < |Leading(m)| ==> Leading(m)[i] == Leading(ls[0])[i] == 1;
  }

  lemma AlikeBatches(ls: seq<Lora>, ks: seq<Lora>)
    requires Batches(ls) && Alike(ls, ks)
    ensures Batches(ks) && RowsMatch(Bs(ls), Bs(ks)) && Rows(Bs(ks)) == Rows(Bs(ls))
  {
    forall i | 0 <= i < |ks| ensures Valid(ks[i]) && LeadingOnes(ks[i]) && Depth(ks[i]) == Depth(ls[i]) {
      assert Leading(ks[i]) == Leading(ls[i]);
    }
    RowsAlike(Bs(ls), Bs(ks));
  }

  /** With every row's own A the concatenation is right. */
  lemma OwnPartners(ls: seq<Lora>)
    requires Batches(ls) && (|ls| == 1 || OneEach(ls))
    ensures CatsRight(ls)
  {
    if |ls| > 1 { RowsOfOnes(Bs(ls)); }
    CatFits(ls);
    CatFactors(ls);
    CatProducts(ls);
    var m, Q := LoraCat(ls, 0).value, TensorCat(Products(ls)).value;
    forall row, col: nat | InRange(Front(m), row) && col < Last(m)
      ensures Product(m).at(row + [col]) == Q.at(row + [col])
    {
      OwnEntry(ls, m, row, col);
    }
    SameByEntries(Product(m), Q, Front(m), Last(m));
  }

  lemma OwnEntry(ls: seq<Lora>, m: Lora, row: seq<nat>, col: nat)
    requires Batches(ls) && (|ls| == 1 || OneEach(ls)) && LoraCat(ls, 0) == Ok(m)
    requires Valid(m) && InRange(Front(m), row) && col < Last(m)
    ensures TensorCat(Products(ls)).Ok?
    ensures Product(m).at(row + [col]) == TensorCat(Products(ls)).value.at(row + [col])
  {
    CatFactors(ls);
    RowSplits(Rows(Bs(ls)), Front(ls[0])[1..], row);
    OwnPartner(ls, row[0], row[1..], col);
  }

  lemma RowSplits(n: nat, rest: seq<nat>, row: seq<nat>)
    requires InRange([n] + rest, row)
    ensures row != [] && row[0] < n && row == [row[0]] + row[1..] && InRange(rest, row[1..])
  {
    assert forall i :: 0 <= i < |rest| ==> rest[i] == ([n] + rest)[i + 1] && row[1..][i] == row[i + 1];
  }

  lemma OwnPartner(ls: seq<Lora>, i: nat, rest: seq<nat>, col: nat)
    requires Batches(ls) && (|ls| == 1 || OneEach(ls)) && i < Rows(Bs(ls)) && |rest| == Depth(ls[0]) - 2
    ensures LoraCat(ls, 0).Ok? && Valid(LoraCat(ls, 0).value) && TensorCat(Products(ls)).Ok?
    ensures Product(LoraCat(ls, 0).value).at([i] + rest + [col])
         == TensorCat(Products(ls)).value.at([i] + rest + [col])
  {
    CatProducts(ls);
    if |ls| > 1 {
      RowsOfOnes(Bs(ls));
      PieceOfOnes(Bs(ls), i);
    }
    var t, j := PiecesAlike(Bs(ls), Products(ls), i);
    assert Mixed(ls, PartnerOf(ls, i), t) == ls[t];
    CatMixes(ls, i, j, rest, col);
    CatKeeps(ls, i, j, rest, col);
  }

  lemma {:induction false} DotConst(l: Lora, row: seq<nat>, leading: seq<nat>, col: nat, rank: nat, c: real)
    requires forall k: nat :: k < rank ==> Term(l, row, leading, col, k) == c
    ensures Dot(l, row, leading, col, rank) == rank as real * c
  {
    if rank > 0 { DotConst(l, row, leading, col, rank - 1, c); }
  }

  /** With nothing in it the concatenation is right where it fits together. */
  lemma HollowIsRight(ls: seq<Lora>)
    requires Batches(ls) && Hollow(ls[0]) && Rows(Bs(ls)) == |ls|
    ensures CatsRight(ls)
  {
    CatFits(ls);
    CatFactors(ls);
    CatProducts(ls);
    var m, Q := LoraCat(ls, 0).value, TensorCat(Products(ls)).value;
    forall row, col: nat | InRange(Front(m), row) && col < Last(m)
      ensures Product(m).at(row + [col]) == Q.at(row + [col])
    {
      HollowEntry(ls, m, row, col);
    }
    SameByEntries(Product(m), Q, Front(m), Last(m));
  }

  lemma HollowEntry(ls: seq<Lora>, m: Lora, row: seq<nat>, col: nat)
    requires Batches(ls) && Hollow(ls[0]) && Rows(Bs(ls)) == |ls| && LoraCat(ls, 0) == Ok(m)
    requires Valid(m) && InRange(Front(m), row) && col < Last(m)
    ensures TensorCat(Products(ls)).Ok?
    ensures Product(m).at(row + [col]) == TensorCat(Products(ls)).value.at(row + [col])
  {
    CatFactors(ls);
    RowSplits(Rows(Bs(ls)), Front(ls[0])[1..], row);
    RowsOfHollow(ls[0], row[1..], col);
    NothingSummed(ls, row[0], row[1..], col);
  }

  lemma RowsOfHollow(l: Lora, rest: seq<nat>, col: nat)
    requires Valid(l) && Hollow(l) && InRange(Front(l)[1..], rest) && col < Last(l)
    ensures Rank(l) == 0
  {
    assert forall i :: 0 < i < |Front(l)| ==> rest[i - 1] < Front(l)[1..][i - 1] == Front(l)[i];
  }

  lemma NothingSummed(ls: seq<Lora>, i: nat, rest: seq<nat>, col: nat)
    requires Batches(ls) && i < Rows(Bs(ls)) == |ls| && |rest| == Depth(ls[0]) - 2 && Rank(ls[0]) == 0
    ensures LoraCat(ls, 0).Ok? && Valid(LoraCat(ls, 0).value) && TensorCat(Products(ls)).Ok?
    ensures Product(LoraCat(ls, 0).value).at([i] + rest + [col])
         == TensorCat(Products(ls)).value.at([i] + rest + [col])
  {
    CatProducts(ls);
    var t, j := PiecesAlike(Bs(ls), Products(ls), i);
    CatMixes(ls, i, j, rest, col);
    CatKeeps(ls, i, j, rest, col);
    PieceShape(ls, t);
    MixShape(ls, PartnerOf(ls, i), t);
  }

  // When it can be wrong

  /** As many rows as pieces, but not one each: some row lies in a piece with another number. */
  lemma {:induction false} MisplacedRow(ts: seq<Tensor>) returns (i: nat)
    requires forall i :: 0 <= i < |ts| ==> ts[i].shape != []
    requires Rows(ts) == |ts| && exists k :: 0 <= k < |ts| && ts[k].shape[0] != 1
    ensures i < |ts| && PieceOf(ts, i) != i
  {
    if ts[0].shape[0] == 1 {
      var k :| 0 <= k < |ts| && ts[k].shape[0] != 1;
      assert ts[1..][k - 1].shape[0] != 1;
      i := MisplacedRow(ts[1..]);
      i := i + 1;
    } else if ts[0].shape[0] == 0 {
      i := 0;
    } else {
      i := 1;
    }
  }

  /** Ones everywhere, but zeros in the A of piece i. */
  function Probe(ls: seq<Lora>, i: nat): (ks: seq<Lora>)
    ensures Alike(ls, ks)
  {
    seq(|ls|, s requires 0 <= s < |ls| =>
      Lora(Tensor(ls[s].A.shape, _ => if s == i then 0.0 else 1.0), Tensor(ls[s].B.shape, _ => 1.0)))
  }

  /** A row that is multiplied with another piece's A is wrong for some entries. */
  lemma WrongPartner(ls: seq<Lora>, i: nat)
    requires Batches(ls) && |ls| > 1 && Rows(Bs(ls)) == |ls| && !Hollow(ls[0])
    requires i < |ls| && PieceOf(Bs(ls), i) != i
    ensures !CatsRight(Probe(ls, i))
  {
    var ks := Probe(ls, i);
    AlikeBatches(ls, ks);
    PieceOfAlike(Bs(ls), Bs(ks), i);
    CatProducts(ks);
    var t, j := PiecesAlike(Bs(ks), Products(ks), i);
    var rest := Zeros(Depth(ls[0]) - 2);
    CatMixes(ks, i, j, rest, 0);
    CatKeeps(ks, i, j, rest, 0);
    ProbeEntries(ls, ks, i, t, [j] + rest);
    ProbeInRange(ls, ks, i);
    EntryDiffers(Product(LoraCat(ks, 0).value), TensorCat(Products(ks)).value, [i] + rest + [0]);
  }

  lemma EntryDiffers(a: Tensor, b: Tensor, idx: seq<nat>)
    requires InRange(a.shape, idx) && a.at(idx) != b.at(idx)
    ensures !Same(a, b)
  {
  }

  lemma ProbeInRange(ls: seq<Lora>, ks: seq<Lora>, i: nat)
    requires Batches(ls) && Batches(ks) && Alike(ls, ks) && !Hollow(ls[0]) && i < Rows(Bs(ks))
    ensures LoraCat(ks, 0).Ok? && Valid(LoraCat(ks, 0).value)
    ensures InRange(Product(LoraCat(ks, 0).value).shape, [i] + Zeros(Depth(ls[0]) - 2) + [0])
  {
    CatFactors(ks);
    assert Front(ks[0]) == Front(ls[0]) && Last(ks[0]) == Last(ls[0]);
    RestPositive(ls[0]);
    FirstEntries(Rows(Bs(ks)), Front(ls[0])[1..], Last(ls[0]), i);
  }

  lemma RestPositive(l: Lora)
    requires Valid(l) && !Hollow(l)
    ensures forall n :: 0 <= n < |Front(l)[1..]| ==> Front(l)[1..][n] > 0
  {
    assert forall n :: 0 <= n < |Front(l)[1..]| ==> Front(l)[1..][n] == Front(l)[n + 1];
  }

  lemma FirstEntries(n: nat, rest: seq<nat>, d: nat, i: nat)
    requires i < n && d > 0 && forall k :: 0 <= k < |rest| ==> rest[k] > 0
    ensures InRange([n] + rest + [d], [i] + Zeros(|rest|) + [0])
  {
  }

  lemma {:induction false} PieceOfAlike(ts: seq<Tensor>, us: seq<Tensor>, i: nat)
    requires RowsMatch(ts, us) && i < Rows(ts) && Rows(us) == Rows(ts)
    ensures PieceOf(us, i) == PieceOf(ts, i)
  {
    if i >= ts[0].shape[0] { PieceOfAlike(ts[1..], us[1..], i - ts[0].shape[0]); }
  }

  lemma ProbeEntries(ls: seq<Lora>, ks: seq<Lora>, i: nat, t: nat, row: seq<nat>)
    requires Batches(ls) && ks == Probe(ls, i) && i < |ls| && t < |ls| && t != i
    requires |row| == Depth(ls[0]) - 1 && Rank(ls[0]) > 0
    ensures Batches(ks) && Valid(Mixed(ks, i, t)) && |Front(ks[t])| == |row| == |Front(Mixed(ks, i, t))|
    ensures Entry(Mixed(ks, i, t), row, 0) != Entry(ks[t], row, 0)
  {
    AlikeBatches(ls, ks);
    var mix, z := Mixed(ks, i, t), Zeros(|row| - 1);
    assert Depth(ks[0]) == Depth(ls[0]) && Rank(ks[0]) == Rank(ls[0]);
    PieceShape(ks, t);
    MixShape(ks, i, t);
    EntryOnes(mix, row, 0);
    EntryOnes(ks[t], row, 0);
    DotConst(mix, row, z, 0, Rank(ks[t]), 0.0);
    DotConst(ks[t], row, z, 0, Rank(ks[t]), 1.0);
  }

  /**
   * With more axes both factors are concatenated. A's then has one position for each piece and B's one
   * for each position of each piece, so the factors fit together only where these numbers agree. Even
   * then the product is the concatenation of the products, whatever the entries, only where there is
   * one piece or every piece has one position, or where there is nothing to multiply.
   */
  lemma CatOfBatches(ls: seq<Lora>, dim: int)
    requires forall i :: 0 <= i < |ls| ==> Valid(ls[i]) && LeadingOnes(ls[i])
    requires LoraCat(ls, dim).Ok? && Depth(ls[0]) > 2
    ensures Batches(ls) && Valid(LoraCat(ls, dim).value) && Catenable(Bs(ls))
    ensures Broadcastable(LoraCat(ls, dim).value) <==> |ls| == 1 || Rows(Bs(ls)) == |ls|
    ensures (forall ks :: Alike(ls, ks) ==> CatsRight(ks))
      <==> |ls| == 1 || OneEach(ls) || (Hollow(ls[0]) && Rows(Bs(ls)) == |ls|)
  {
    CatIsBatches(ls);
    CatFits(ls);
    if |ls| == 1 || OneEach(ls) || (Hollow(ls[0]) && Rows(Bs(ls)) == |ls|) {
      forall ks | Alike(ls, ks) ensures CatsRight(ks) {
        AlikeIsRight(ls, ks);
      }
    } else if Rows(Bs(ls)) == |ls| {
      var k :| 0 <= k < |ls| && Front(ls[k])[0] != 1;
      assert Bs(ls)[k].shape[0] != 1;
      var i := MisplacedRow(Bs(ls));
      WrongPartner(ls, i);
      assert Alike(ls, Probe(ls, i));
    } else {
      assert Alike(ls, ls) && !CatsRight(ls);
    }
  }

  lemma AlikeIsRight(ls: seq<Lora>, ks: seq<Lora>)
    requires Batches(ls) && Alike(ls, ks)
    requires |ls| == 1 || OneEach(ls) || (Hollow(ls[0]) && Rows(Bs(ls)) == |ls|)
    ensures CatsRight(ks)
  {
    AlikeBatches(ls, ks);
    if |ls| == 1 || OneEach(ls) {
      OwnPartners(ks);
    } else {
      assert Front(ks[0]) == Front(ls[0]);
      HollowIsRight(ks);
    }
  }

  /** Two pieces with no position and with two: the factors fit together, and entries can be wrong. */
  lemma UnevenPiecesMix(ls: seq<Lora>)
    requires |ls| == 2 && ls[0].A.shape == [1, 1, 1] && ls[0].B.shape == [0, 1, 1]
    requires ls[1].A.shape == [1, 1, 1] && ls[1].B.shape == [2, 1, 1]
    ensures Batches(ls) && LoraCat(ls, 0).Ok? && Valid(LoraCat(ls, 0).value)
    ensures Broadcastable(LoraCat(ls, 0).value)
    ensures PieceOf(Bs(ls), 0) == 1 && !CatsRight(Probe(ls, 0))
  {
    assert Leading(ls[0]) == [1] && Leading(ls[1]) == [1];
    TwoRows(Bs(ls));
    CatFits(ls);
    WrongPartner(ls, 0);
  }

  lemma TwoRows(ts: seq<Tensor>)
    requires |ts| == 2 && ts[0].shape == [0, 1, 1] && ts[1].shape == [2, 1, 1]
    ensures Rows(ts) == 2 && PieceOf(ts, 0) == 1
  {
    assert ts[1..] == [ts[1]] && Rows([]) == 0 && [ts[1]][1..] == [];
    assert Rows([ts[1]]) == 2;
  }
}
