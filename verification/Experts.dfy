/** Merging the experts of each block, which arrive one tensor at a time in any order. */
module Experts {
  import opened Tensors
  import opened Text

  // Names

  function Digit(d: nat): char
    requires d < 10
  {
    (48 + d) as char
  }

  function Decimal(n: nat): (s: string)
    ensures s != [] && forall i :: 0 <= i < |s| ==> '0' <= s[i] <= '9'
  {
    if n < 10 then [Digit(n)] else Decimal(n / 10) + [Digit(n % 10)]
  }

  lemma {:induction false} DecimalInjective(a: nat, b: nat)
    requires Decimal(a) == Decimal(b)
    ensures a == b
  {
    assert Decimal(a)[|Decimal(a)| - 1] == Digit(a % 10) && Decimal(b)[|Decimal(b)| - 1] == Digit(b % 10);
    if a >= 10 && b >= 10 {
      assert Decimal(a)[..|Decimal(a)| - 1] == Decimal(a / 10) && Decimal(b)[..|Decimal(b)| - 1] == Decimal(b / 10);
      DecimalInjective(a / 10, b / 10);
    }
  }

  /** The number that digits say. */
  function Said(s: string): int { if s == "" then 0 else Said(s[..|s| - 1]) * 10 + (s[|s| - 1] as int - '0' as int) }

  lemma {:induction false} DecimalIs(n: nat)
    ensures Said(Decimal(n)) == n && (Decimal(n)[0] == '0' ==> n == 0)
  {
    var s := Decimal(n);
    if n >= 10 {
      DecimalIs(n / 10);
      assert s[..|s| - 1] == Decimal(n / 10);
    } else {
      assert s[..0] == "";
    }
  }

  const MARK := "block_sparse_moe.experts"

  /** The three weights of an expert. */
  function WeightName(w: nat): string
    requires w < 3
  {
    if w == 0 then "w1" else if w == 1 then "w2" else "w3"
  }

  function ExpertName(bid: nat, xid: nat, w: nat): string
    requires w < 3
  {
    "model.layers." + Decimal(bid) + "." + MARK + "." + Decimal(xid) + "." + WeightName(w) + ".weight"
  }

  function MergedName(bid: nat, w: nat): string
    requires w < 3
  {
    "layers." + Decimal(bid) + ".feed_forward.experts." + WeightName(w) + ".weight"
  }

  const WEIGHTS: seq<string> := ["w1", "w2", "w3"]

  /** A weight and the weights merged from it have the same name at the end. */
  lemma WeightsNamed(bid: nat, xid: nat, w: nat)
    requires w < 3
    ensures EndsWith(ExpertName(bid, xid, w), WEIGHTS[w] + ".weight")
    ensures EndsWith(MergedName(bid, w), WEIGHTS[w] + ".weight")
  {
    assert WEIGHTS[w] == WeightName(w);
    EndsTail("model.layers." + Decimal(bid) + "." + MARK + "." + Decimal(xid) + ".", WeightName(w), ".weight");
    EndsTail("layers." + Decimal(bid) + ".feed_forward.experts.", WeightName(w), ".weight");
  }

  /** How the names begin. */
  lemma NamesBegin(bid: nat, xid: nat, w: nat)
    requires w < 3
    ensures "model.layers." <= ExpertName(bid, xid, w) && "layers." <= MergedName(bid, w)
  {
  }

  lemma EndsTail(front: string, w: string, tail: string)
    ensures EndsWith(front + w + tail, w + tail)
  {
    assert front + w + tail == front + (w + tail);
  }

  /** A merged weight's name tells the block and the weight. */
  lemma MergedApart(a: nat, w: nat, b: nat, v: nat)
    requires w < 3 && v < 3 && MergedName(a, w) == MergedName(b, v)
    ensures a == b && w == v
  {
    var mid := "feed_forward.experts.";
    assert ".feed_forward.experts." == "." + mid;
    MergedGroup(Decimal(a), mid, WeightName(w), ".weight");
    MergedGroup(Decimal(b), mid, WeightName(v), ".weight");
    SamePart("layers.", Decimal(a) + ['.'] + (mid + WeightName(w) + ".weight"),
             Decimal(b) + ['.'] + (mid + WeightName(v) + ".weight"));
    FirstDot(Decimal(a), Decimal(b), mid + WeightName(w) + ".weight", mid + WeightName(v) + ".weight");
    DecimalInjective(a, b);
    SameMiddle(mid, w, v);
  }

  lemma SameMiddle(mid: string, w: nat, v: nat)
    requires w < 3 && v < 3 && mid + WeightName(w) + ".weight" == mid + WeightName(v) + ".weight"
    ensures w == v
  {
    MidGroup(mid, WeightName(w), ".weight");
    MidGroup(mid, WeightName(v), ".weight");
    SamePart(mid, WeightName(w) + ".weight", WeightName(v) + ".weight");
    SameWeight(w, v, ".weight");
  }

  lemma MergedGroup(d: string, mid: string, w: string, s: string)
    ensures "layers." + d + ("." + mid) + w + s == "layers." + (d + ['.'] + (mid + w + s))
  {
  }

  lemma MidGroup(mid: string, w: string, s: string)
    ensures mid + w + s == mid + (w + s)
  {
  }

  lemma FirstDot(a: string, b: string, s: string, t: string)
    requires forall i :: 0 <= i < |a| ==> a[i] != '.'
    requires forall i :: 0 <= i < |b| ==> b[i] != '.'
    requires a + ['.'] + s == b + ['.'] + t
    ensures a == b && s == t
  {
    var u := a + ['.'] + s;
    assert u[|a|] == '.' && u[|b|] == '.';
    assert |a| == |b|;
    assert u[..|a|] == a && u[..|b|] == b && u[|a| + 1..] == s && u[|b| + 1..] == t;
  }

  lemma Regrouped(p: string, x: string, w: string, s: string)
    ensures p + x + "." + w + s == p + (x + ['.'] + (w + s))
  {
  }

  lemma SamePart(p: string, a: string, b: string)
    requires p + a == p + b
    ensures a == b
  {
    assert (p + a)[|p|..] == a && (p + b)[|p|..] == b;
  }

  lemma SameWeight(w: nat, v: nat, s: string)
    requires w < 3 && v < 3 && WeightName(w) + s == WeightName(v) + s
    ensures w == v
  {
    assert (WeightName(w) + s)[1] == WeightName(w)[1] && (WeightName(v) + s)[1] == WeightName(v)[1];
  }

  /** The names within a block tell the experts and their weights apart. */
  lemma NamesApart(bid: nat, xid: nat, w: nat, yid: nat, v: nat)
    requires w < 3 && v < 3 && ExpertName(bid, xid, w) == ExpertName(bid, yid, v)
    ensures xid == yid && w == v
  {
    var p := "model.layers." + Decimal(bid) + "." + MARK + ".";
    Regrouped(p, Decimal(xid), WeightName(w), ".weight");
    Regrouped(p, Decimal(yid), WeightName(v), ".weight");
    SamePart(p, Decimal(xid) + ['.'] + (WeightName(w) + ".weight"), Decimal(yid) + ['.'] + (WeightName(v) + ".weight"));
    FirstDot(Decimal(xid), Decimal(yid), WeightName(w) + ".weight", WeightName(v) + ".weight");
    DecimalInjective(xid, yid);
    SameWeight(w, v, ".weight");
  }

  lemma MarkWithin(p: string, s: string)
    ensures Find(p + MARK + s, MARK, 0).Some?
  {
    var name := p + MARK + s;
    assert name[|p|..|p| + |MARK|] == MARK;
    assert OccursAt(name, MARK, |p|);
  }

  /** Every expert's name is recognised as one. */
  lemma ExpertNamesRecognised(bid: nat, xid: nat, w: nat)
    requires w < 3
    ensures Find(ExpertName(bid, xid, w), MARK, 0).Some?
  {
    var p, s := "model.layers." + Decimal(bid) + ".", "." + Decimal(xid) + "." + WeightName(w) + ".weight";
    MarkWithin(p, s);
    Regrouped3(p, MARK, ".", Decimal(xid), ".", WeightName(w), ".weight");
  }

  lemma Regrouped3(p: string, m: string, a: string, b: string, c: string, d: string, e: string)
    ensures p + m + a + b + c + d + e == p + m + (a + b + c + d + e)
  {
  }

  // One block's dictionary

  type Parts = map<string, Tensor>

  datatype Output = Output(name: string, data: Tensor)

  /** Takes one weight of every expert out of the dictionary, in the experts' order. */
  function Take(parts: Parts, bid: nat, w: nat, xid: nat, n: nat, datas: seq<Tensor>): Result<(seq<Tensor>, Parts)>
    requires w < 3 && xid <= n
    decreases n - xid
  {
    if xid == n then Ok((datas, parts))
    else
      var name := ExpertName(bid, xid, w);
      if name !in parts then Err(KeyMissing)
      else Take(parts - {name}, bid, w, xid + 1, n, datas + [parts[name]])
  }

  /** Merges the weights from w on. */
  function Merge(parts: Parts, bid: nat, w: nat, n: nat, outputs: seq<Output>): Result<(seq<Output>, Parts)>
    requires w <= 3
    decreases 3 - w
  {
    if w == 3 then Ok((outputs, parts))
    else
      var taken :- Take(parts, bid, w, 0, n, []);
      var merged :- TensorStack(taken.0);
      Merge(taken.1, bid, w + 1, n, outputs + [Output(MergedName(bid, w), merged)])
  }

  /** What is left in the dictionary, also where a name is missing. */
  function TakeLeaves(parts: Parts, bid: nat, w: nat, xid: nat, n: nat): Parts
    requires w < 3 && xid <= n
    decreases n - xid
  {
    if xid == n || ExpertName(bid, xid, w) !in parts then parts
    else TakeLeaves(parts - {ExpertName(bid, xid, w)}, bid, w, xid + 1, n)
  }

  /** What merging leaves in the dictionary, also where it breaks off. */
  function MergeLeaves(parts: Parts, bid: nat, w: nat, n: nat): Parts
    requires w <= 3
    decreases 3 - w
  {
    if w == 3 then parts
    else
      var taken, left := Take(parts, bid, w, 0, n, []), TakeLeaves(parts, bid, w, 0, n);
      if taken.Err? || TensorStack(taken.value.0).Err? then left else MergeLeaves(left, bid, w + 1, n)
  }

  /** One tensor arrives for a block. */
  function Arrive(all: seq<Parts>, n: nat, bid: nat, name: string, data: Tensor): Result<(seq<Parts>, seq<Output>)> {
    if bid >= |all| then Err(IndexOutOfRange)
    else
      var parts := all[bid][name := data];
      if |parts| >= n * 3 then
        var merged :- Merge(parts, bid, 0, n, []);
        Ok((all[bid := merged.1], merged.0))
      else Ok((all[bid := parts], []))
  }

  /** The dictionaries after an arrival, also after one that ends in an error. */
  function ArriveLeaves(all: seq<Parts>, n: nat, bid: nat, name: string, data: Tensor): seq<Parts> {
    if bid >= |all| then all
    else
      var parts := all[bid][name := data];
      all[bid := if |parts| >= n * 3 then MergeLeaves(parts, bid, 0, n) else parts]
  }

  lemma {:induction false} TakeLeft(parts: Parts, bid: nat, w: nat, xid: nat, n: nat, datas: seq<Tensor>)
    requires w < 3 && xid <= n && Take(parts, bid, w, xid, n, datas).Ok?
    ensures Take(parts, bid, w, xid, n, datas).value.1 == TakeLeaves(parts, bid, w, xid, n)
    decreases n - xid
  {
    if xid < n {
      var name := ExpertName(bid, xid, w);
      TakeLeft(parts - {name}, bid, w, xid + 1, n, datas + [parts[name]]);
    }
  }

  lemma {:induction false} MergeLeft(parts: Parts, bid: nat, w: nat, n: nat, outputs: seq<Output>)
    requires w <= 3 && Merge(parts, bid, w, n, outputs).Ok?
    ensures Merge(parts, bid, w, n, outputs).value.1 == MergeLeaves(parts, bid, w, n)
    decreases 3 - w
  {
    if w < 3 {
      var taken := Take(parts, bid, w, 0, n, []).value;
      TakeLeft(parts, bid, w, 0, n, []);
      MergeLeft(taken.1, bid, w + 1, n, outputs + [Output(MergedName(bid, w), TensorStack(taken.0).value)]);
    }
  }

  /** An arrival without an error gives back the dictionaries it leaves. */
  lemma ArriveLeft(all: seq<Parts>, n: nat, bid: nat, name: string, data: Tensor)
    requires Arrive(all, n, bid, name, data).Ok?
    ensures Arrive(all, n, bid, name, data).value.0 == ArriveLeaves(all, n, bid, name, data)
  {
    var parts := all[bid][name := data];
    if |parts| >= n * 3 { MergeLeft(parts, bid, 0, n, []); }
  }

  class ExpertMerger {
    var experts: Option<seq<Parts>>
    const blockCount: nat
    const nExperts: nat

    constructor (blockCount: nat, nExperts: nat)
      ensures this.blockCount == blockCount && this.nExperts == nExperts && experts == None
    {
      this.blockCount, this.nExperts, experts := blockCount, nExperts, None;
    }

    /** The dictionaries, one for each block, which are made when the first expert arrives. */
    function Blocks(): seq<Parts>
      reads this
    {
      if experts.Some? then experts.value else seq(blockCount, i => map[])
    }

    method ModifyTensors(data: Tensor, name: string, bid: Option<nat>) returns (r: Result<seq<Output>>)
      modifies this
      ensures Find(name, MARK, 0).None? ==> r == Ok([Output(name, data)]) && experts == old(experts)
      ensures Find(name, MARK, 0).Some? && bid.None? ==> r == Err(AssertionFailed) && experts == old(experts)
      ensures Find(name, MARK, 0).Some? && bid.Some? ==>
                var arrived := Arrive(old(Blocks()), nExperts, bid.value, name, data);
                (r.Ok? <==> arrived.Ok?) &&
                (r.Err? ==> r.failure == arrived.failure) &&
                (r.Ok? ==> r.value == arrived.value.1 && Blocks() == arrived.value.0) &&
                experts.Some? && Blocks() == ArriveLeaves(old(Blocks()), nExperts, bid.value, name, data)
    {
      if Find(name, MARK, 0).None? {
        return Ok([Output(name, data)]);
      }
      if bid.None? {
        return Err(AssertionFailed);
      }
      var all := Blocks();
      var n := nExperts;
      ghost var arrived := Arrive(all, n, bid.value, name, data);
      experts := Some(all);
      if bid.value >= |all| {
        return Err(IndexOutOfRange);
      }
      var b := bid.value;
      var parts := all[b][name := data];
      experts := Some(all[b := parts]);
      if |parts| < n * 3 {
        return Ok([]);
      }
      var outputs := [];
      var w := 0;
      ghost var merged, left := Merge(parts, b, 0, n, []), MergeLeaves(parts, b, 0, n);
      while w < 3
        invariant 0 <= w <= 3
        invariant Merge(parts, b, w, n, outputs) == merged && MergeLeaves(parts, b, w, n) == left
        invariant experts == Some(all[b := parts])
      {
        var datas := [];
        var xid := 0;
        ghost var taken, rest := Take(parts, b, w, 0, n, []), TakeLeaves(parts, b, w, 0, n);
        while xid < n
          invariant 0 <= xid <= n
          invariant Take(parts, b, w, xid, n, datas) == taken && TakeLeaves(parts, b, w, xid, n) == rest
          invariant experts == Some(all[b := parts])
        {
          var ename := ExpertName(b, xid, w);
          if ename !in parts {
            return Err(KeyMissing);
          }
          datas := datas + [parts[ename]];
          parts := parts - {ename};
          experts := Some(all[b := parts]);
          xid := xid + 1;
        }
        var stacked := TensorStack(datas);
        if stacked.Err? {
          return Err(stacked.failure);
        }
        outputs := outputs + [Output(MergedName(b, w), stacked.value)];
        w := w + 1;
      }
      return Ok(outputs);
    }

    /** The names left over once every tensor has been given: an error where there is one. */
    method CheckProcessed() returns (ok: bool)
      ensures ok <==> forall i :: 0 <= i < |Blocks()| ==> Blocks()[i] == map[]
    {
      ok := true;
      if experts.None? {
        assert forall i :: 0 <= i < |Blocks()| ==> Blocks()[i] == map[];
      } else {
        assert Blocks() == experts.value;
        var i := 0;
        while i < |experts.value|
          invariant 0 <= i <= |experts.value|
          invariant ok <==> forall j :: 0 <= j < i ==> Blocks()[j] == map[]
        {
          var parts := experts.value[i];
          assert |parts| == 0 <==> parts == map[];
          if |parts| > 0 { ok := false; }
          i := i + 1;
        }
      }
    }
  }
}
