/** What the merging gives over a whole run, whatever order the experts arrive in. */
module ExpertRuns {
  import opened Tensors
  import opened Experts

  datatype Arrival = Arrival(bid: nat, xid: nat, w: nat, data: Tensor)

  predicate SameKey(a: Arrival, b: Arrival) { a.bid == b.bid && a.xid == b.xid && a.w == b.w }

  /** Weights of the experts there are, no weight of an expert twice, one shape for a weight of a block. */
  ghost predicate Expected(arrivals: seq<Arrival>, blocks: nat, n: nat) {
    && (forall i :: 0 <= i < |arrivals| ==> arrivals[i].bid < blocks && arrivals[i].xid < n && arrivals[i].w < 3)
    && (forall i, j :: 0 <= i < j < |arrivals| ==> !SameKey(arrivals[i], arrivals[j]))
    && (forall i, j :: 0 <= i < |arrivals| && 0 <= j < |arrivals| ==> OneShape(arrivals[i], arrivals[j]))
  }

  ghost predicate OneShape(a: Arrival, b: Arrival) {
    a.bid == b.bid && a.w == b.w ==> a.data.shape == b.data.shape
  }

  /** A result, with the block it belongs to. */
  datatype Emitted = Emitted(bid: nat, output: Output)

  function Tagged(bid: nat, outputs: seq<Output>): seq<Emitted> {
    seq(|outputs|, i requires 0 <= i < |outputs| => Emitted(bid, outputs[i]))
  }

  /** All arrivals one after the other, from empty dictionaries. */
  function Run(arrivals: seq<Arrival>, blocks: nat, n: nat): Result<(seq<Parts>, seq<Emitted>)>
    requires forall i :: 0 <= i < |arrivals| ==> arrivals[i].w < 3
  {
    if arrivals == [] then Ok((seq(blocks, i => map[]), []))
    else
      var k := |arrivals| - 1;
      var a := arrivals[k];
      var before :- Run(arrivals[..k], blocks, n);
      var after :- Arrive(before.0, n, a.bid, ExpertName(a.bid, a.xid, a.w), a.data);
      Ok((after.0, before.1 + Tagged(a.bid, after.1)))
  }

  function OutputsOf(emitted: seq<Emitted>, bid: nat): seq<Output> {
    if emitted == [] then []
    else
      var k := |emitted| - 1;
      OutputsOf(emitted[..k], bid) + if emitted[k].bid == bid then [emitted[k].output] else []
  }

  /** Everything that has arrived for a block. */
  function PartsOf(arrivals: seq<Arrival>, bid: nat): Parts
    requires forall i :: 0 <= i < |arrivals| ==> arrivals[i].w < 3
  {
    if arrivals == [] then map[]
    else
      var k := |arrivals| - 1;
      var a := arrivals[k];
      var before := PartsOf(arrivals[..k], bid);
      if a.bid == bid then before[ExpertName(bid, a.xid, a.w) := a.data] else before
  }

  // The names of a block

  function NamesFrom(bid: nat, w: nat, xid: nat, n: nat): set<string>
    requires w < 3
    decreases n - xid
  {
    if xid >= n then {} else {ExpertName(bid, xid, w)} + NamesFrom(bid, w, xid + 1, n)
  }

  function AllNames(bid: nat, n: nat): set<string> {
    NamesFrom(bid, 0, 0, n) + NamesFrom(bid, 1, 0, n) + NamesFrom(bid, 2, 0, n)
  }

  lemma {:induction false} InNamesFrom(bid: nat, w: nat, xid: nat, n: nat, name: string)
    requires w < 3
    ensures name in NamesFrom(bid, w, xid, n) <==> exists x: nat :: xid <= x < n && name == ExpertName(bid, x, w)
    decreases n - xid
  {
    if xid < n { InNamesFrom(bid, w, xid + 1, n, name); }
  }

  lemma {:induction false} CountNames(bid: nat, w: nat, xid: nat, n: nat)
    requires w < 3 && xid <= n
    ensures |NamesFrom(bid, w, xid, n)| == n - xid
    decreases n - xid
  {
    if xid < n {
      CountNames(bid, w, xid + 1, n);
      var first := ExpertName(bid, xid, w);
      InNamesFrom(bid, w, xid + 1, n, first);
      forall x: nat | xid + 1 <= x < n ensures first != ExpertName(bid, x, w) {
        if first == ExpertName(bid, x, w) { NamesApart(bid, xid, w, x, w); }
      }
    }
  }

  lemma WeightsDisjoint(bid: nat, w: nat, v: nat, n: nat)
    requires w < 3 && v < 3 && w != v
    ensures NamesFrom(bid, w, 0, n) !! NamesFrom(bid, v, 0, n)
  {
    forall name | name in NamesFrom(bid, w, 0, n) ensures name !in NamesFrom(bid, v, 0, n) {
      InNamesFrom(bid, w, 0, n, name);
      InNamesFrom(bid, v, 0, n, name);
      var x: nat :| 0 <= x < n && name == ExpertName(bid, x, w);
      forall y: nat | y < n ensures name != ExpertName(bid, y, v) {
        if name == ExpertName(bid, y, v) { NamesApart(bid, x, w, y, v); }
      }
    }
  }

  lemma CountAllNames(bid: nat, n: nat)
    ensures |AllNames(bid, n)| == n * 3
  {
    CountNames(bid, 0, 0, n);
    CountNames(bid, 1, 0, n);
    CountNames(bid, 2, 0, n);
    WeightsDisjoint(bid, 0, 1, n);
    WeightsDisjoint(bid, 0, 2, n);
    WeightsDisjoint(bid, 1, 2, n);
    var both := NamesFrom(bid, 0, 0, n) + NamesFrom(bid, 1, 0, n);
    assert both !! NamesFrom(bid, 2, 0, n);
  }

  lemma InAllNames(bid: nat, n: nat, x: nat, w: nat)
    requires w < 3 && x < n
    ensures ExpertName(bid, x, w) in AllNames(bid, n)
  {
    InNamesFrom(bid, w, 0, n, ExpertName(bid, x, w));
  }

  // Merging a complete block

  /** One weight of every expert, in the experts' order. */
  function Datas(parts: Parts, bid: nat, w: nat, xid: nat, n: nat): (r: seq<Tensor>)
    requires w < 3 && xid <= n && NamesFrom(bid, w, xid, n) <= parts.Keys
    ensures |r| == n - xid
    decreases n - xid
  {
    if xid == n then [] else [parts[ExpertName(bid, xid, w)]] + Datas(parts, bid, w, xid + 1, n)
  }

  lemma {:induction false} DatasAt(parts: Parts, bid: nat, w: nat, xid: nat, n: nat, x: nat)
    requires w < 3 && xid <= x < n && NamesFrom(bid, w, xid, n) <= parts.Keys
    ensures ExpertName(bid, x, w) in parts
    ensures Datas(parts, bid, w, xid, n)[x - xid] == parts[ExpertName(bid, x, w)]
    decreases n - xid
  {
    if x > xid { DatasAt(parts, bid, w, xid + 1, n, x); }
  }

  /** Names taken out do not change the data under the others. */
  lemma {:induction false} DatasKept(parts: Parts, other: Parts, bid: nat, w: nat, xid: nat, n: nat)
    requires w < 3 && xid <= n && NamesFrom(bid, w, xid, n) <= parts.Keys && NamesFrom(bid, w, xid, n) <= other.Keys
    requires forall name :: name in NamesFrom(bid, w, xid, n) ==> parts[name] == other[name]
    ensures Datas(parts, bid, w, xid, n) == Datas(other, bid, w, xid, n)
    decreases n - xid
  {
    if xid < n { DatasKept(parts, other, bid, w, xid + 1, n); }
  }

  lemma {:induction false} TakesAll(parts: Parts, bid: nat, w: nat, xid: nat, n: nat, datas: seq<Tensor>)
    requires w < 3 && xid <= n && NamesFrom(bid, w, xid, n) <= parts.Keys
    ensures Take(parts, bid, w, xid, n, datas)
         == Ok((datas + Datas(parts, bid, w, xid, n), parts - NamesFrom(bid, w, xid, n)))
    decreases n - xid
  {
    if xid == n {
      assert datas + [] == datas && parts - {} == parts;
    } else {
      var name := ExpertName(bid, xid, w);
      var rest := parts - {name};
      var more := NamesFrom(bid, w, xid + 1, n);
      FirstNotLater(bid, w, xid, n);
      TakesAll(rest, bid, w, xid + 1, n, datas + [parts[name]]);
      DatasKept(rest, parts, bid, w, xid + 1, n);
      assert rest - more == parts - ({name} + more);
      assert datas + [parts[name]] + Datas(parts, bid, w, xid + 1, n) == datas + Datas(parts, bid, w, xid, n);
    }
  }

  lemma FirstNotLater(bid: nat, w: nat, xid: nat, n: nat)
    requires w < 3 && xid < n
    ensures ExpertName(bid, xid, w) !in NamesFrom(bid, w, xid + 1, n)
  {
    var name := ExpertName(bid, xid, w);
    InNamesFrom(bid, w, xid + 1, n, name);
    forall x: nat | xid + 1 <= x < n ensures name != ExpertName(bid, x, w) {
      if name == ExpertName(bid, x, w) { NamesApart(bid, xid, w, x, w); }
    }
  }

  ghost predicate Stackable(parts: Parts, bid: nat, n: nat) {
    && AllNames(bid, n) <= parts.Keys
    && (forall w: nat :: w < 3 ==> WeightStackable(parts, bid, n, w))
  }

  predicate WeightStackable(parts: Parts, bid: nat, n: nat, w: nat)
    requires w < 3
  {
    NamesFrom(bid, w, 0, n) <= parts.Keys && TensorStack(Datas(parts, bid, w, 0, n)).Ok?
  }

  /** The experts' tensors for one weight, in one tensor. */
  ghost function Merged(parts: Parts, bid: nat, n: nat, w: nat): Output
    requires w < 3 && Stackable(parts, bid, n)
  {
    assert WeightStackable(parts, bid, n, w);
    Output(MergedName(bid, w), TensorStack(Datas(parts, bid, w, 0, n)).value)
  }

  ghost function MergedOutputs(parts: Parts, bid: nat, n: nat): seq<Output>
    requires Stackable(parts, bid, n)
  {
    [Merged(parts, bid, n, 0), Merged(parts, bid, n, 1), Merged(parts, bid, n, 2)]
  }

  lemma MergeStep(parts: Parts, left: Parts, bid: nat, n: nat, w: nat, outputs: seq<Output>)
    requires w < 3 && Stackable(parts, bid, n) && NamesFrom(bid, w, 0, n) <= left.Keys
    requires forall name :: name in left ==> name in parts && left[name] == parts[name]
    ensures Merge(left, bid, w, n, outputs)
         == Merge(left - NamesFrom(bid, w, 0, n), bid, w + 1, n, outputs + [Merged(parts, bid, n, w)])
  {
    TakesAll(left, bid, w, 0, n, []);
    DatasKept(left, parts, bid, w, 0, n);
    assert [] + Datas(left, bid, w, 0, n) == Datas(parts, bid, w, 0, n);
    assert WeightStackable(parts, bid, n, w);
  }

  /** A complete block gives its three merged weights and leaves nothing behind. */
  lemma MergesBlock(parts: Parts, bid: nat, n: nat)
    requires parts.Keys == AllNames(bid, n) && Stackable(parts, bid, n)
    ensures Merge(parts, bid, 0, n, []) == Ok((MergedOutputs(parts, bid, n), map[]))
  {
    var n0, n1, n2 := NamesFrom(bid, 0, 0, n), NamesFrom(bid, 1, 0, n), NamesFrom(bid, 2, 0, n);
    WeightsDisjoint(bid, 0, 1, n);
    WeightsDisjoint(bid, 0, 2, n);
    WeightsDisjoint(bid, 1, 2, n);
    var p1 := parts - n0;
    var p2 := p1 - n1;
    ThreeParts(parts, n0, n1, n2);
    MergeStep(parts, parts, bid, n, 0, []);
    MergeStep(parts, p1, bid, n, 1, [Merged(parts, bid, n, 0)]);
    MergeStep(parts, p2, bid, n, 2, [Merged(parts, bid, n, 0)] + [Merged(parts, bid, n, 1)]);
    ThreeOutputs(Merged(parts, bid, n, 0), Merged(parts, bid, n, 1), Merged(parts, bid, n, 2));
  }

  lemma ThreeParts(parts: Parts, a: set<string>, b: set<string>, c: set<string>)
    requires parts.Keys == a + b + c && a !! b && a !! c && b !! c
    ensures (parts - a).Keys == b + c && (parts - a - b).Keys == c && parts - a - b - c == map[]
  {
  }

  lemma ThreeOutputs(a: Output, b: Output, c: Output)
    ensures [] + [a] == [a] && [a] + [b] + [c] == [a, b, c]
  {
  }

  // What has arrived

  lemma {:induction false} PartsOfNames(arrivals: seq<Arrival>, bid: nat, blocks: nat, n: nat)
    requires Expected(arrivals, blocks, n)
    ensures PartsOf(arrivals, bid).Keys <= AllNames(bid, n)
  {
    if arrivals != [] {
      var k := |arrivals| - 1;
      PartsOfNames(arrivals[..k], bid, blocks, n);
      InAllNames(bid, n, arrivals[k].xid, arrivals[k].w);
    }
  }

  ghost predicate Named(a: Arrival, bid: nat, name: string) {
    a.w < 3 && a.bid == bid && name == ExpertName(bid, a.xid, a.w)
  }

  /** What has arrived for a block is under its name, and nothing else is. */
  lemma {:induction false} PartsOfHas(arrivals: seq<Arrival>, bid: nat, blocks: nat, n: nat, name: string)
    requires Expected(arrivals, blocks, n)
    ensures name in PartsOf(arrivals, bid) <==> exists i :: 0 <= i < |arrivals| && Named(arrivals[i], bid, name)
  {
    if arrivals != [] {
      var k := |arrivals| - 1;
      PartsOfHas(arrivals[..k], bid, blocks, n, name);
      assert forall i :: 0 <= i < k ==> arrivals[..k][i] == arrivals[i];
      if Named(arrivals[k], bid, name) {
        assert name in PartsOf(arrivals, bid);
      } else {
        assert name in PartsOf(arrivals, bid) <==> name in PartsOf(arrivals[..k], bid);
      }
    }
  }

  lemma {:induction false} PartsOfData(arrivals: seq<Arrival>, blocks: nat, n: nat, i: nat)
    requires Expected(arrivals, blocks, n) && i < |arrivals|
    ensures var a := arrivals[i];
            var name := ExpertName(a.bid, a.xid, a.w);
            name in PartsOf(arrivals, a.bid) && PartsOf(arrivals, a.bid)[name] == a.data
  {
    var k := |arrivals| - 1;
    var a, last := arrivals[i], arrivals[k];
    if i < k {
      PartsOfData(arrivals[..k], blocks, n, i);
      assert !SameKey(a, last);
      if a.bid == last.bid && ExpertName(a.bid, a.xid, a.w) == ExpertName(a.bid, last.xid, last.w) {
        NamesApart(a.bid, a.xid, a.w, last.xid, last.w);
      }
    }
  }

  lemma NewName(arrivals: seq<Arrival>, blocks: nat, n: nat)
    requires Expected(arrivals, blocks, n) && arrivals != []
    ensures var a := arrivals[|arrivals| - 1];
            ExpertName(a.bid, a.xid, a.w) !in PartsOf(arrivals[..|arrivals| - 1], a.bid)
  {
    var k := |arrivals| - 1;
    var a := arrivals[k];
    var name := ExpertName(a.bid, a.xid, a.w);
    PartsOfHas(arrivals[..k], a.bid, blocks, n, name);
    forall i | 0 <= i < k && arrivals[..k][i].bid == a.bid
      ensures !Named(arrivals[..k][i], a.bid, name)
    {
      assert !SameKey(arrivals[i], a);
      if name == ExpertName(a.bid, arrivals[i].xid, arrivals[i].w) {
        NamesApart(a.bid, a.xid, a.w, arrivals[i].xid, arrivals[i].w);
      }
    }
  }

  /** All the experts' weights of a block have arrived. */
  predicate Complete(arrivals: seq<Arrival>, bid: nat, n: nat)
    requires forall i :: 0 <= i < |arrivals| ==> arrivals[i].w < 3
  {
    |PartsOf(arrivals, bid)| == n * 3
  }

  lemma SubsetFull(a: set<string>, b: set<string>)
    requires a <= b && |a| == |b|
    ensures a == b
  {
    if x :| x in b && x !in a { SubsetSize(a + {x}, b); }
  }

  lemma {:induction false} SubsetSize(a: set<string>, b: set<string>)
    requires a <= b
    ensures |a| <= |b|
  {
    if x :| x in a { SubsetSize(a - {x}, b - {x}); }
  }

  lemma CompleteNames(arrivals: seq<Arrival>, bid: nat, blocks: nat, n: nat)
    requires Expected(arrivals, blocks, n)
    ensures |PartsOf(arrivals, bid)| <= n * 3
    ensures Complete(arrivals, bid, n) <==> PartsOf(arrivals, bid).Keys == AllNames(bid, n)
  {
    var parts := PartsOf(arrivals, bid);
    PartsOfNames(arrivals, bid, blocks, n);
    CountAllNames(bid, n);
    SubsetSize(parts.Keys, AllNames(bid, n));
    assert |parts| == |parts.Keys|;
    if |parts.Keys| == n * 3 { SubsetFull(parts.Keys, AllNames(bid, n)); }
  }

  /** The arrival that a tensor in the dictionary came with. */
  lemma ArrivalOf(arrivals: seq<Arrival>, bid: nat, blocks: nat, n: nat, x: nat, w: nat) returns (i: nat)
    requires Expected(arrivals, blocks, n) && w < 3 && ExpertName(bid, x, w) in PartsOf(arrivals, bid)
    ensures i < |arrivals| && SameKey(arrivals[i], Arrival(bid, x, w, arrivals[i].data))
    ensures PartsOf(arrivals, bid)[ExpertName(bid, x, w)] == arrivals[i].data
  {
    PartsOfHas(arrivals, bid, blocks, n, ExpertName(bid, x, w));
    i :| 0 <= i < |arrivals| && Named(arrivals[i], bid, ExpertName(bid, x, w));
    NamesApart(bid, x, w, arrivals[i].xid, arrivals[i].w);
    PartsOfData(arrivals, blocks, n, i);
  }

  lemma CompleteStackable(arrivals: seq<Arrival>, bid: nat, blocks: nat, n: nat)
    requires Expected(arrivals, blocks, n) && n > 0 && Complete(arrivals, bid, n)
    ensures PartsOf(arrivals, bid).Keys == AllNames(bid, n) && Stackable(PartsOf(arrivals, bid), bid, n)
  {
    CompleteNames(arrivals, bid, blocks, n);
    var parts := PartsOf(arrivals, bid);
    forall w: nat | w < 3 ensures WeightStackable(parts, bid, n, w) {
      var datas := Datas(parts, bid, w, 0, n);
      forall x: nat | x < n ensures datas[x].shape == datas[0].shape {
        DatasAt(parts, bid, w, 0, n, 0);
        DatasAt(parts, bid, w, 0, n, x);
        var i := ArrivalOf(arrivals, bid, blocks, n, x, w);
        var j := ArrivalOf(arrivals, bid, blocks, n, 0, w);
        assert OneShape(arrivals[i], arrivals[j]);
      }
    }
  }

  lemma {:induction false} OutputsOfTagged(before: seq<Emitted>, bid: nat, outputs: seq<Output>, b: nat)
    ensures OutputsOf(before + Tagged(bid, outputs), b) == OutputsOf(before, b) + if bid == b then outputs else []
  {
    if outputs == [] {
      assert before + Tagged(bid, outputs) == before;
    } else {
      var k := |outputs| - 1;
      OutputsOfTagged(before, bid, outputs[..k], b);
      TaggedSnoc(before, bid, outputs[..k], outputs[k]);
      OutputsSnoc(before + Tagged(bid, outputs[..k]), Emitted(bid, outputs[k]), b);
      assert outputs == outputs[..k] + [outputs[k]];
    }
  }

  lemma TaggedSnoc(before: seq<Emitted>, bid: nat, outputs: seq<Output>, last: Output)
    ensures before + Tagged(bid, outputs + [last]) == (before + Tagged(bid, outputs)) + [Emitted(bid, last)]
  {
    assert Tagged(bid, outputs + [last]) == Tagged(bid, outputs) + [Emitted(bid, last)];
  }

  lemma OutputsSnoc(emitted: seq<Emitted>, e: Emitted, b: nat)
    ensures OutputsOf(emitted + [e], b) == OutputsOf(emitted, b) + if e.bid == b then [e.output] else []
  {
    assert (emitted + [e])[..|emitted|] == emitted;
  }

  /** A block's dictionary and what it has given, after any run. */
  ghost predicate Settled(arrivals: seq<Arrival>, bid: nat, n: nat, parts: Parts, outputs: seq<Output>)
    requires forall i :: 0 <= i < |arrivals| ==> arrivals[i].w < 3
  {
    if Complete(arrivals, bid, n) then
      parts == map[] && Stackable(PartsOf(arrivals, bid), bid, n)
      && outputs == MergedOutputs(PartsOf(arrivals, bid), bid, n)
    else parts == PartsOf(arrivals, bid) && outputs == []
  }

  /**
   * Whatever the order, every block that is complete has given each of its three weights once and holds
   * nothing, and every other block holds what arrived for it and has given nothing.
   */
  lemma {:induction false} RunSettles(arrivals: seq<Arrival>, blocks: nat, n: nat)
    requires Expected(arrivals, blocks, n) && n > 0
    ensures Run(arrivals, blocks, n).Ok? && |Run(arrivals, blocks, n).value.0| == blocks
    ensures forall b: nat :: b < blocks ==>
              Settled(arrivals, b, n, Run(arrivals, blocks, n).value.0[b],
                      OutputsOf(Run(arrivals, blocks, n).value.1, b))
  {
    if arrivals != [] {
      var k := |arrivals| - 1;
      RunSettles(arrivals[..k], blocks, n);
      var before := Run(arrivals[..k], blocks, n).value;
      var a := arrivals[k];
      OthersStay(arrivals, blocks, n, a.bid, before.0[a.bid], OutputsOf(before.1, a.bid));
      OneArrives(arrivals, blocks, n, before.0, a);
      var after := Arrive(before.0, n, a.bid, ExpertName(a.bid, a.xid, a.w), a.data).value;
      forall b: nat | b < blocks
        ensures Settled(arrivals, b, n, after.0[b], OutputsOf(before.1 + Tagged(a.bid, after.1), b))
      {
        OutputsOfTagged(before.1, a.bid, after.1, b);
        OthersStay(arrivals, blocks, n, b, before.0[b], OutputsOf(before.1, b));
      }
    }
  }

  lemma OthersStay(arrivals: seq<Arrival>, blocks: nat, n: nat, b: nat, parts: Parts, outputs: seq<Output>)
    requires Expected(arrivals, blocks, n) && arrivals != [] && b < blocks
    requires Settled(arrivals[..|arrivals| - 1], b, n, parts, outputs)
    ensures b != arrivals[|arrivals| - 1].bid ==> Settled(arrivals, b, n, parts, outputs)
    ensures b == arrivals[|arrivals| - 1].bid ==> outputs == [] && parts == PartsOf(arrivals[..|arrivals| - 1], b)
  {
    NewName(arrivals, blocks, n);
    CompleteNames(arrivals, b, blocks, n);
  }

  lemma OneArrives(arrivals: seq<Arrival>, blocks: nat, n: nat, all: seq<Parts>, a: Arrival)
    requires Expected(arrivals, blocks, n) && n > 0 && arrivals != [] && a == arrivals[|arrivals| - 1]
    requires a.bid < |all| && all[a.bid] == PartsOf(arrivals[..|arrivals| - 1], a.bid)
    ensures Arrive(all, n, a.bid, ExpertName(a.bid, a.xid, a.w), a.data).Ok?
    ensures var r := Arrive(all, n, a.bid, ExpertName(a.bid, a.xid, a.w), a.data).value;
              && |r.0| == |all|
              && (forall b: nat :: b < |all| && b != a.bid ==> r.0[b] == all[b])
              && Settled(arrivals, a.bid, n, r.0[a.bid], r.1)
  {
    NewName(arrivals, blocks, n);
    CompleteNames(arrivals, a.bid, blocks, n);
    var now := all[a.bid][ExpertName(a.bid, a.xid, a.w) := a.data];
    assert now == PartsOf(arrivals, a.bid);
    if Complete(arrivals, a.bid, n) {
      CompleteStackable(arrivals, a.bid, blocks, n);
      MergesBlock(now, a.bid, n);
    }
  }

  // What that means

  /** Slice xid of a merged weight is the tensor that expert xid sent. */
  lemma SlicesAreExperts(arrivals: seq<Arrival>, blocks: nat, n: nat, i: nat, idx: seq<nat>)
    requires Expected(arrivals, blocks, n) && n > 0 && i < |arrivals| && Complete(arrivals, arrivals[i].bid, n)
    ensures Run(arrivals, blocks, n).Ok?
    ensures var a := arrivals[i];
            var outputs := OutputsOf(Run(arrivals, blocks, n).value.1, a.bid);
            && |outputs| == 3
            && outputs[a.w].name == MergedName(a.bid, a.w)
            && outputs[a.w].data.shape == [n] + a.data.shape
            && outputs[a.w].data.at([a.xid] + idx) == a.data.at(idx)
  {
    RunSettles(arrivals, blocks, n);
    var a := arrivals[i];
    var parts := PartsOf(arrivals, a.bid);
    CompleteStackable(arrivals, a.bid, blocks, n);
    assert WeightStackable(parts, a.bid, n, a.w);
    DatasAt(parts, a.bid, a.w, 0, n, a.xid);
    PartsOfData(arrivals, blocks, n, i);
    var datas := Datas(parts, a.bid, a.w, 0, n);
    assert datas[a.xid] == a.data && datas[a.xid].shape == datas[0].shape;
    assert ([a.xid] + idx)[1..] == idx;
    assert MergedOutputs(parts, a.bid, n)[a.w] == Merged(parts, a.bid, n, a.w);
  }

  /** The same arrivals in another order. */
  ghost predicate Rearranged(a: seq<Arrival>, b: seq<Arrival>) {
    && (forall i :: 0 <= i < |a| ==> a[i] in b)
    && (forall i :: 0 <= i < |b| ==> b[i] in a)
  }

  lemma PartsIncluded(a: seq<Arrival>, b: seq<Arrival>, bid: nat, blocks: nat, n: nat, name: string)
    requires Expected(a, blocks, n) && Expected(b, blocks, n) && Rearranged(a, b)
    requires name in PartsOf(a, bid)
    ensures name in PartsOf(b, bid) && PartsOf(a, bid)[name] == PartsOf(b, bid)[name]
  {
    PartsOfHas(a, bid, blocks, n, name);
    var i :| 0 <= i < |a| && Named(a[i], bid, name);
    PartsOfData(a, blocks, n, i);
    var j :| 0 <= j < |b| && b[j] == a[i];
    PartsOfData(b, blocks, n, j);
  }

  /** The order of arrival makes no difference: not to any block's results, and not to what is left. */
  lemma OrderIrrelevant(a: seq<Arrival>, b: seq<Arrival>, blocks: nat, n: nat)
    requires Expected(a, blocks, n) && Expected(b, blocks, n) && n > 0 && Rearranged(a, b)
    ensures Run(a, blocks, n).Ok? && Run(b, blocks, n).Ok?
    ensures Run(a, blocks, n).value.0 == Run(b, blocks, n).value.0
    ensures forall bid: nat :: bid < blocks ==>
              OutputsOf(Run(a, blocks, n).value.1, bid) == OutputsOf(Run(b, blocks, n).value.1, bid)
  {
    RunSettles(a, blocks, n);
    RunSettles(b, blocks, n);
    forall bid: nat | bid < blocks ensures PartsOf(a, bid) == PartsOf(b, bid) {
      forall name | name in PartsOf(a, bid) { PartsIncluded(a, b, bid, blocks, n, name); }
      forall name | name in PartsOf(b, bid) { PartsIncluded(b, a, bid, blocks, n, name); }
    }
  }

  /** Some but not all of a block's experts' weights have arrived. */
  ghost predicate Partial(arrivals: seq<Arrival>, bid: nat, n: nat) {
    && (exists i :: 0 <= i < |arrivals| && arrivals[i].bid == bid)
    && (exists x: nat, w: nat :: Missing(arrivals, bid, n, x, w))
  }

  ghost predicate Missing(arrivals: seq<Arrival>, bid: nat, n: nat, x: nat, w: nat) {
    && x < n && w < 3
    && forall i :: 0 <= i < |arrivals| ==> !(arrivals[i].bid == bid && arrivals[i].xid == x && arrivals[i].w == w)
  }

  lemma {:induction false} MissingFrom(arrivals: seq<Arrival>, bid: nat, blocks: nat, n: nat, x: nat, w: nat)
    requires Expected(arrivals, blocks, n) && x < n && w < 3
    ensures Missing(arrivals, bid, n, x, w) <==> ExpertName(bid, x, w) !in PartsOf(arrivals, bid)
  {
    if ExpertName(bid, x, w) in PartsOf(arrivals, bid) {
      var i := ArrivalOf(arrivals, bid, blocks, n, x, w);
    } else if i :| 0 <= i < |arrivals| && arrivals[i].bid == bid && arrivals[i].xid == x && arrivals[i].w == w {
      PartsOfData(arrivals, blocks, n, i);
    }
  }

  lemma PartialIffHeld(arrivals: seq<Arrival>, bid: nat, blocks: nat, n: nat)
    requires Expected(arrivals, blocks, n) && n > 0
    ensures Partial(arrivals, bid, n) <==> PartsOf(arrivals, bid) != map[] && !Complete(arrivals, bid, n)
  {
    var parts := PartsOf(arrivals, bid);
    CompleteNames(arrivals, bid, blocks, n);
    if i :| 0 <= i < |arrivals| && arrivals[i].bid == bid { PartsOfData(arrivals, blocks, n, i); }
    if name :| name in parts { PartsOfHas(arrivals, bid, blocks, n, name); }
    if x: nat, w: nat :| Missing(arrivals, bid, n, x, w) {
      MissingFrom(arrivals, bid, blocks, n, x, w);
      InAllNames(bid, n, x, w);
    }
    if !Complete(arrivals, bid, n) {
      PartsOfNames(arrivals, bid, blocks, n);
      var name :| name in AllNames(bid, n) && name !in parts;
      InNamesFrom(bid, 0, 0, n, name);
      InNamesFrom(bid, 1, 0, n, name);
      InNamesFrom(bid, 2, 0, n, name);
      var x: nat, w: nat :| x < n && w < 3 && name == ExpertName(bid, x, w);
      MissingFrom(arrivals, bid, blocks, n, x, w);
    }
  }

  /** The final check finds something left over exactly when some block got some but not all of its experts. */
  lemma LeftOverIffPartial(arrivals: seq<Arrival>, blocks: nat, n: nat)
    requires Expected(arrivals, blocks, n) && n > 0
    ensures Run(arrivals, blocks, n).Ok? && |Run(arrivals, blocks, n).value.0| == blocks
    ensures (exists b: nat :: b < blocks && Run(arrivals, blocks, n).value.0[b] != map[])
       <==> (exists b: nat :: b < blocks && Partial(arrivals, b, n))
  {
    RunSettles(arrivals, blocks, n);
    forall b: nat | b < blocks
      ensures Run(arrivals, blocks, n).value.0[b] != map[] <==> Partial(arrivals, b, n)
    {
      PartialIffHeld(arrivals, b, blocks, n);
    }
  }

  // Names that are not expected

  lemma {:induction false} TakeNeeds(parts: Parts, bid: nat, w: nat, xid: nat, n: nat, datas: seq<Tensor>)
    requires w < 3 && xid <= n && Take(parts, bid, w, xid, n, datas).Ok?
    ensures NamesFrom(bid, w, xid, n) <= parts.Keys
    ensures Take(parts, bid, w, xid, n, datas).value.1.Keys <= parts.Keys
    decreases n - xid
  {
    if xid < n {
      var name := ExpertName(bid, xid, w);
      TakeNeeds(parts - {name}, bid, w, xid + 1, n, datas + [parts[name]]);
    }
  }

  lemma {:induction false} MergeNeeds(parts: Parts, bid: nat, w: nat, n: nat, outputs: seq<Output>)
    requires w <= 3 && Merge(parts, bid, w, n, outputs).Ok?
    ensures forall v: nat :: w <= v < 3 ==> NamesFrom(bid, v, 0, n) <= parts.Keys
    decreases 3 - w
  {
    if w < 3 {
      TakeNeeds(parts, bid, w, 0, n, []);
      var taken := Take(parts, bid, w, 0, n, []).value;
      MergeNeeds(taken.1, bid, w + 1, n,
                 outputs + [Output(MergedName(bid, w), TensorStack(taken.0).value)]);
    }
  }

  /** The count alone starts the merging, so a full count with an expert missing is an error. */
  lemma FullCountMustBeExpected(all: seq<Parts>, n: nat, bid: nat, name: string, data: Tensor)
    requires bid < |all| && |all[bid][name := data]| >= n * 3
    ensures Arrive(all, n, bid, name, data).Ok? ==> AllNames(bid, n) <= all[bid].Keys + {name}
  {
    if Arrive(all, n, bid, name, data).Ok? { MergeNeeds(all[bid][name := data], bid, 0, n, []); }
  }
}
