/** A low-rank matrix kept as its two factors, and shape operations that never multiply them out. */
module Lora {
  import opened Tensors

  /** A weight B * A: A holds the rank by the row size, B the column size by the rank. */
  datatype Lora = Lora(A: Tensor, B: Tensor)

  function MakeLora(A: Tensor, B: Tensor): Result<Lora> {
    var n := |A.shape|;
    if n != |B.shape| then Err(AssertionFailed)
    else if n < 2 then Err(IndexOutOfRange)
    else if A.shape[n - 2] != B.shape[n - 1] then Err(AssertionFailed)
    else Ok(Lora(A, B))
  }

  predicate Valid(l: Lora) {
    var n := |l.A.shape|;
    n == |l.B.shape| && 2 <= n && l.A.shape[n - 2] == l.B.shape[n - 1]
  }

  /** How many axes. */
  function Depth(l: Lora): nat { |l.B.shape| }

  function Rank(l: Lora): nat
    requires Valid(l)
  {
    l.B.shape[Depth(l) - 1]
  }

  /** The shape of all but the last axis, which B holds. */
  function Front(l: Lora): seq<nat>
    requires Valid(l)
  {
    l.B.shape[..Depth(l) - 1]
  }

  /** The length of the last axis, which A holds. */
  function Last(l: Lora): nat
    requires Valid(l)
  {
    l.A.shape[Depth(l) - 1]
  }

  /** A's axes in front of the matrix. */
  function Leading(l: Lora): seq<nat>
    requires Valid(l)
  {
    l.A.shape[..Depth(l) - 2]
  }

  function Shape(l: Lora): seq<nat>
    requires Valid(l)
  {
    Front(l) + [Last(l)]
  }

  predicate LeadingOnes(l: Lora)
    requires Valid(l)
  {
    forall i :: 0 <= i < |Leading(l)| ==> Leading(l)[i] == 1
  }

  // The matrix that the factors stand for

  /** Matrix multiplication repeats a leading axis of length one as often as the other factor needs. */
  function Broadcast(leading: seq<nat>, idx: seq<nat>): (r: seq<nat>)
    requires |idx| == |leading|
    ensures |r| == |leading|
  {
    seq(|leading|, i requires 0 <= i < |leading| => if leading[i] == 1 then 0 else idx[i])
  }

  function Term(l: Lora, row: seq<nat>, leading: seq<nat>, col: nat, k: nat): real {
    l.B.at(row + [k]) * l.A.at(leading + [k, col])
  }

  function Dot(l: Lora, row: seq<nat>, leading: seq<nat>, col: nat, rank: nat): real {
    if rank == 0 then 0.0 else Dot(l, row, leading, col, rank - 1) + Term(l, row, leading, col, rank - 1)
  }

  /** One entry of B * A. */
  function Entry(l: Lora, row: seq<nat>, col: nat): real
    requires Valid(l) && |row| == |Front(l)|
  {
    Dot(l, row, Broadcast(Leading(l), row[..|row| - 1]), col, Rank(l))
  }

  /** B * A, multiplied out. */
  function Product(l: Lora): Tensor
    requires Valid(l)
  {
    var n := |Front(l)|;
    Tensor(Shape(l), idx => if |idx| == n + 1 then Entry(l, idx[..n], idx[n]) else 0.0)
  }

  lemma TermFrom(l: Lora, row: seq<nat>, leading: seq<nat>, col: nat,
                 m: Lora, row': seq<nat>, leading': seq<nat>, col': nat, k: nat)
    requires l.B.at(row + [k]) == m.B.at(row' + [k]) && l.A.at(leading + [k, col]) == m.A.at(leading' + [k, col'])
    ensures Term(l, row, leading, col, k) == Term(m, row', leading', col', k)
  {
  }

  lemma {:induction false} DotAgrees(l: Lora, row: seq<nat>, leading: seq<nat>, col: nat,
                                     m: Lora, row': seq<nat>, leading': seq<nat>, col': nat, rank: nat)
    requires forall k: nat :: k < rank ==> Term(l, row, leading, col, k) == Term(m, row', leading', col', k)
    ensures Dot(l, row, leading, col, rank) == Dot(m, row', leading', col', rank)
  {
    if rank > 0 { DotAgrees(l, row, leading, col, m, row', leading', col', rank - 1); }
  }

  lemma ProductAt(l: Lora, row: seq<nat>, col: nat)
    requires Valid(l) && |row| == |Front(l)|
    ensures Product(l).at(row + [col]) == Entry(l, row, col)
  {
    assert (row + [col])[..|row|] == row;
  }

  function Zeros(n: nat): (r: seq<nat>) { seq(n, i => 0) }

  function Ones(n: nat): (r: seq<nat>) { seq(n, i => 1) }

  lemma BroadcastOnes(l: Lora, idx: seq<nat>)
    requires Valid(l) && LeadingOnes(l) && |idx| == |Leading(l)|
    ensures Broadcast(Leading(l), idx) == Zeros(|idx|)
  {
  }

  /** With A's leading axes of length one, an entry reads A at zero there. */
  lemma EntryOnes(l: Lora, row: seq<nat>, col: nat)
    requires Valid(l) && LeadingOnes(l) && |row| == |Front(l)|
    ensures Entry(l, row, col) == Dot(l, row, Zeros(|row| - 1), col, Rank(l))
  {
    BroadcastOnes(l, row[..|row| - 1]);
  }

  /** Factors that agree along one row and one column have the same entry there. */
  lemma EntryFrom(l: Lora, row: seq<nat>, col: nat, m: Lora, row': seq<nat>, col': nat, z: seq<nat>, z': seq<nat>)
    requires Valid(l) && LeadingOnes(l) && |row| == |Front(l)| && z == Zeros(|row| - 1)
    requires Valid(m) && LeadingOnes(m) && |row'| == |Front(m)| && z' == Zeros(|row'| - 1)
    requires Rank(l) == Rank(m)
    requires forall k: nat :: k < Rank(l) ==> l.B.at(row + [k]) == m.B.at(row' + [k])
    requires forall k: nat :: k < Rank(l) ==> l.A.at(z + [k, col]) == m.A.at(z' + [k, col'])
    ensures Entry(l, row, col) == Entry(m, row', col')
  {
    EntryOnes(l, row, col);
    EntryOnes(m, row', col');
    DotAgrees(l, row, z, col, m, row', z', col', Rank(l));
  }

  /** Two tensors with the same shape that agree row by row and column by column. */
  lemma SameByEntries(a: Tensor, b: Tensor, front: seq<nat>, d: nat)
    requires a.shape == b.shape == front + [d]
    requires forall row, col: nat :: InRange(front, row) && col < d ==> a.at(row + [col]) == b.at(row + [col])
    ensures Same(a, b)
  {
    forall idx | InRange(a.shape, idx) ensures a.at(idx) == b.at(idx) {
      var n := |front|;
      assert forall i :: 0 <= i < n ==> a.shape[i] == front[i];
      assert a.shape[n] == d && InRange(front, idx[..n]);
      assert a.at(idx[..n] + [idx[n]]) == b.at(idx[..n] + [idx[n]]);
      assert idx == idx[..n] + [idx[n]];
    }
  }

  // What the product is

  /** With rank one an entry is the product of two. */
  lemma RankOneEntry(l: Lora, row: seq<nat>, col: nat)
    requires Valid(l) && LeadingOnes(l) && Rank(l) == 1 && |row| == |Front(l)|
    ensures Product(l).at(row + [col]) == l.B.at(row + [0]) * l.A.at(Zeros(|row| - 1) + [0, col])
  {
    ProductAt(l, row, col);
    EntryOnes(l, row, col);
    var z := Zeros(|row| - 1);
    assert Dot(l, row, z, col, 1) == Dot(l, row, z, col, 0) + Term(l, row, z, col, 0);
  }

  lemma {:induction false} DotPicks(l: Lora, row: seq<nat>, z: seq<nat>, col: nat, rank: nat, one: nat)
    requires forall k: nat :: k < rank && k != one ==> Term(l, row, z, col, k) == 0.0
    ensures Dot(l, row, z, col, rank) == if one < rank then Term(l, row, z, col, one) else 0.0
  {
    if rank > 0 { DotPicks(l, row, z, col, rank - 1, one); }
  }

  /** Multiplied by the identity from the right B stays what it is. */
  lemma IdentityRight(l: Lora, row: seq<nat>, col: nat)
    requires Valid(l) && LeadingOnes(l) && Rank(l) == Last(l) && |row| == |Front(l)| && col < Last(l)
    requires forall k: nat :: k < Rank(l) ==>
               l.A.at(Zeros(|row| - 1) + [k, col]) == if k == col then 1.0 else 0.0
    ensures Product(l).at(row + [col]) == l.B.at(row + [col])
  {
    ProductAt(l, row, col);
    EntryOnes(l, row, col);
    DotPicks(l, row, Zeros(|row| - 1), col, Rank(l), col);
  }

  /** Multiplied by the identity from the left A stays what it is. */
  lemma IdentityLeft(l: Lora, i: nat, col: nat)
    requires Valid(l) && Depth(l) == 2 && Rank(l) == Front(l)[0] && i < Rank(l)
    requires forall k: nat :: k < Rank(l) ==> l.B.at([i] + [k]) == if k == i then 1.0 else 0.0
    ensures Product(l).at([i] + [col]) == l.A.at([i, col])
  {
    ProductAt(l, [i], col);
    EntryOnes(l, [i], col);
    assert Zeros(0) + [i, col] == [i, col];
    DotPicks(l, [i], Zeros(0), col, Rank(l), i);
  }
}
