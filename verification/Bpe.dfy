/** Byte-pair encoding with ranked merges, as used to recover a tokenizer's merges from its ranks. */
module Bpe {
  import opened Text

  type Bytes = seq<bv8>

  type Ranks = map<Bytes, int>

  // The loop as a function

  /** The rank of the i-th part joined with the next. */
  function PairRank(ranks: Ranks, parts: seq<Bytes>, i: nat): Option<int>
    requires i + 1 < |parts|
  {
    var pair := parts[i] + parts[i + 1];
    if pair in ranks then Some(ranks[pair]) else None
  }

  /** The first of the pairs before `upTo` with the lowest rank. */
  function Best(ranks: Ranks, parts: seq<Bytes>, upTo: nat): (r: Option<nat>)
    requires upTo == 0 || upTo < |parts|
    ensures r.Some? ==> r.value < upTo && PairRank(ranks, parts, r.value).Some?
  {
    if upTo == 0 then None
    else
      var before := Best(ranks, parts, upTo - 1);
      var rank := PairRank(ranks, parts, upTo - 1);
      if rank.Some? && (before.None? || rank.value < PairRank(ranks, parts, before.value).value)
      then Some(upTo - 1) else before
  }

  function BestPair(ranks: Ranks, parts: seq<Bytes>): (r: Option<nat>)
    ensures r.Some? ==> r.value + 1 < |parts| && PairRank(ranks, parts, r.value).Some?
  {
    Best(ranks, parts, if parts == [] then 0 else |parts| - 1)
  }

  predicate Stops(ranks: Ranks, parts: seq<Bytes>, maxRank: Option<int>) {
    var best := BestPair(ranks, parts);
    best.None? || (maxRank.Some? && PairRank(ranks, parts, best.value).value >= maxRank.value)
  }

  function Joined(parts: seq<Bytes>, i: nat): (r: seq<Bytes>)
    requires i + 1 < |parts|
    ensures |r| == |parts| - 1
  {
    parts[..i] + [parts[i] + parts[i + 1]] + parts[i + 2..]
  }

  /** Joins the best pair as long as there is one of low enough rank. */
  function Encoded(ranks: Ranks, parts: seq<Bytes>, maxRank: Option<int>): seq<Bytes>
    decreases |parts|
  {
    if Stops(ranks, parts, maxRank) then parts
    else Encoded(ranks, Joined(parts, BestPair(ranks, parts).value), maxRank)
  }

  function SingleBytes(token: Bytes): seq<Bytes> {
    seq(|token|, i requires 0 <= i < |token| => [token[i]])
  }

  // What the choice of a pair means

  lemma {:induction false} BestIsLowest(ranks: Ranks, parts: seq<Bytes>, upTo: nat)
    requires upTo == 0 || upTo < |parts|
    ensures Best(ranks, parts, upTo).None? ==> forall i: nat :: i < upTo ==> PairRank(ranks, parts, i).None?
    ensures Best(ranks, parts, upTo).Some? ==>
              var b := Best(ranks, parts, upTo).value;
              && (forall i: nat :: i < upTo && PairRank(ranks, parts, i).Some? ==>
                    PairRank(ranks, parts, b).value <= PairRank(ranks, parts, i).value)
              && (forall i: nat :: i < b && PairRank(ranks, parts, i).Some? ==>
                    PairRank(ranks, parts, b).value < PairRank(ranks, parts, i).value)
  {
    if upTo > 0 { BestIsLowest(ranks, parts, upTo - 1); }
  }

  lemma {:induction false} BestUnique(ranks: Ranks, parts: seq<Bytes>, upTo: nat, b: nat)
    requires b < upTo < |parts| && PairRank(ranks, parts, b).Some?
    requires forall i: nat :: i < upTo && PairRank(ranks, parts, i).Some? ==>
               PairRank(ranks, parts, b).value <= PairRank(ranks, parts, i).value
    requires forall i: nat :: i < b && PairRank(ranks, parts, i).Some? ==>
               PairRank(ranks, parts, b).value < PairRank(ranks, parts, i).value
    ensures Best(ranks, parts, upTo) == Some(b)
  {
    BestIsLowest(ranks, parts, upTo);
  }

  // The result

  function Concat(parts: seq<Bytes>): Bytes {
    if parts == [] then [] else parts[0] + Concat(parts[1..])
  }

  lemma {:induction false} ConcatJoined(parts: seq<Bytes>, i: nat)
    requires i + 1 < |parts|
    ensures Concat(Joined(parts, i)) == Concat(parts)
  {
    var j := Joined(parts, i);
    if i == 0 {
      assert j[0] == parts[0] + parts[1] && j[1..] == parts[2..];
      assert parts[1..][0] == parts[1] && parts[1..][1..] == parts[2..];
      assert parts[0] + parts[1] + Concat(parts[2..]) == parts[0] + (parts[1] + Concat(parts[2..]));
    } else {
      assert j[0] == parts[0] && j[1..] == Joined(parts[1..], i - 1);
      ConcatJoined(parts[1..], i - 1);
    }
  }

  lemma {:induction false} ConcatSingle(token: Bytes)
    ensures Concat(SingleBytes(token)) == token
  {
    if token != [] {
      assert SingleBytes(token)[1..] == SingleBytes(token[1..]);
      ConcatSingle(token[1..]);
    }
  }

  predicate Allowed(ranks: Ranks, part: Bytes, maxRank: Option<int>) {
    part in ranks && (maxRank.Some? ==> ranks[part] < maxRank.value)
  }

  /** Every part is a byte, or was joined because its rank allowed it. */
  predicate PartsAllowed(ranks: Ranks, parts: seq<Bytes>, maxRank: Option<int>) {
    forall i :: 0 <= i < |parts| ==> |parts[i]| == 1 || (|parts[i]| > 1 && Allowed(ranks, parts[i], maxRank))
  }

  lemma JoinedAllowed(ranks: Ranks, parts: seq<Bytes>, maxRank: Option<int>)
    requires PartsAllowed(ranks, parts, maxRank) && !Stops(ranks, parts, maxRank)
    ensures PartsAllowed(ranks, Joined(parts, BestPair(ranks, parts).value), maxRank)
  {
    var b := BestPair(ranks, parts).value;
    var j := Joined(parts, b);
    assert |parts[b]| >= 1 && |parts[b + 1]| >= 1;
    forall i | 0 <= i < |j| ensures |j[i]| == 1 || (|j[i]| > 1 && Allowed(ranks, j[i], maxRank)) {
      assert j[i] == if i < b then parts[i] else if i == b then parts[b] + parts[b + 1] else parts[i + 1];
    }
  }

  /** What the loop leaves, from any parts: the same bytes, in parts that are bytes or allowed joins, and no
      more to join. */
  lemma {:induction false} EncodedIs(ranks: Ranks, parts: seq<Bytes>, maxRank: Option<int>)
    requires PartsAllowed(ranks, parts, maxRank)
    ensures Concat(Encoded(ranks, parts, maxRank)) == Concat(parts)
    ensures PartsAllowed(ranks, Encoded(ranks, parts, maxRank), maxRank)
    ensures forall i :: 0 <= i < |Encoded(ranks, parts, maxRank)| - 1 ==>
              !Allowed(ranks, Encoded(ranks, parts, maxRank)[i] + Encoded(ranks, parts, maxRank)[i + 1], maxRank)
    decreases |parts|
  {
    if Stops(ranks, parts, maxRank) {
      if |parts| > 1 { NothingToJoin(ranks, parts, maxRank); }
    } else {
      var b := BestPair(ranks, parts).value;
      ConcatJoined(parts, b);
      JoinedAllowed(ranks, parts, maxRank);
      EncodedIs(ranks, Joined(parts, b), maxRank);
    }
  }

  lemma NothingToJoin(ranks: Ranks, parts: seq<Bytes>, maxRank: Option<int>)
    requires |parts| > 1 && Stops(ranks, parts, maxRank)
    ensures forall i :: 0 <= i < |parts| - 1 ==> !Allowed(ranks, parts[i] + parts[i + 1], maxRank)
  {
    BestIsLowest(ranks, parts, |parts| - 1);
    forall i | 0 <= i < |parts| - 1 ensures !Allowed(ranks, parts[i] + parts[i + 1], maxRank) {
      var rank := PairRank(ranks, parts, i);
    }
  }

  // The order of the joins

  /** The pair may be joined, none has a lower rank and none in front of it the same. */
  ghost predicate FirstLowest(ranks: Ranks, parts: seq<Bytes>, maxRank: Option<int>, b: nat) {
    && b + 1 < |parts| && Allowed(ranks, parts[b] + parts[b + 1], maxRank)
    && forall i :: 0 <= i < |parts| - 1 && parts[i] + parts[i + 1] in ranks ==>
         if i < b then ranks[parts[b] + parts[b + 1]] < ranks[parts[i] + parts[i + 1]]
         else ranks[parts[b] + parts[b + 1]] <= ranks[parts[i] + parts[i + 1]]
  }

  /** The first pair of lowest rank is joined before anything else. */
  lemma LowestIsJoined(ranks: Ranks, parts: seq<Bytes>, maxRank: Option<int>, b: nat)
    requires FirstLowest(ranks, parts, maxRank, b)
    ensures Encoded(ranks, parts, maxRank)
         == Encoded(ranks, parts[..b] + [parts[b] + parts[b + 1]] + parts[b + 2..], maxRank)
  {
    forall i: nat | i < |parts| - 1 && PairRank(ranks, parts, i).Some?
      ensures var low := PairRank(ranks, parts, b).value;
        low <= PairRank(ranks, parts, i).value && (i < b ==> low < PairRank(ranks, parts, i).value)
    {
      assert parts[i] + parts[i + 1] in ranks;
    }
    BestUnique(ranks, parts, |parts| - 1, b);
  }

  /** Where no pair may be joined the parts stay. */
  lemma NothingIsJoined(ranks: Ranks, parts: seq<Bytes>, maxRank: Option<int>)
    requires forall i :: 0 <= i < |parts| - 1 ==> !Allowed(ranks, parts[i] + parts[i + 1], maxRank)
    ensures Encoded(ranks, parts, maxRank) == parts
  {
    var best := BestPair(ranks, parts);
    if best.Some? { assert !Allowed(ranks, parts[best.value] + parts[best.value + 1], maxRank); }
  }

  /** A cut of the joined parts is one of the parts. */
  lemma JoinedCut(parts: seq<Bytes>, b: nat, i: nat)
    requires b + 1 < |parts| && i < |parts|
    ensures Concat(Joined(parts, b)[..i]) == Concat(parts[..if i <= b then i else i + 1])
  {
    var j := Joined(parts, b);
    if i <= b {
      assert j[..i] == parts[..i];
    } else {
      assert j[..i] == Joined(parts[..i + 1], b);
      ConcatJoined(parts[..i + 1], b);
    }
  }

  /** Every cut of the result is one of the parts it was made of. */
  lemma {:induction false} EncodedCut(ranks: Ranks, parts: seq<Bytes>, maxRank: Option<int>, i: nat) returns (j: nat)
    requires i <= |Encoded(ranks, parts, maxRank)|
    ensures j <= |parts| && Concat(Encoded(ranks, parts, maxRank)[..i]) == Concat(parts[..j])
    decreases |parts|
  {
    if Stops(ranks, parts, maxRank) {
      j := i;
    } else {
      var b := BestPair(ranks, parts).value;
      j := EncodedCut(ranks, Joined(parts, b), maxRank, i);
      JoinedCut(parts, b, j);
      j := if j <= b then j else j + 1;
    }
  }

  lemma {:induction false} ConcatLonger(parts: seq<Bytes>, i: nat, j: nat)
    requires i <= j <= |parts| && forall k :: 0 <= k < |parts| ==> parts[k] != []
    ensures |Concat(parts[..i])| <= |Concat(parts[..j])| && (i < j ==> |Concat(parts[..i])| < |Concat(parts[..j])|)
    decreases j - i
  {
    if i < j {
      ConcatLonger(parts, i, j - 1);
      ConcatSnoc(parts[..j - 1], parts[j - 1]);
      assert parts[..j] == parts[..j - 1] + [parts[j - 1]];
    }
  }

  lemma {:induction false} ConcatSnoc(parts: seq<Bytes>, last: Bytes)
    ensures Concat(parts + [last]) == Concat(parts) + last
  {
    if parts == [] {
      assert [] + [last] == [last] && [last][1..] == [] && last + [] == last;
    } else {
      assert (parts + [last])[1..] == parts[1..] + [last];
      ConcatSnoc(parts[1..], last);
    }
  }

  /** No cut of the result falls between the two parts of the first pair of lowest rank. */
  lemma LowestNotCut(ranks: Ranks, parts: seq<Bytes>, maxRank: Option<int>, b: nat, i: nat)
    requires FirstLowest(ranks, parts, maxRank, b) && forall k :: 0 <= k < |parts| ==> parts[k] != []
    requires i <= |Encoded(ranks, parts, maxRank)|
    ensures |Concat(Encoded(ranks, parts, maxRank)[..i])| != |Concat(parts[..b + 1])|
  {
    LowestIsJoined(ranks, parts, maxRank, b);
    var k := EncodedCut(ranks, Joined(parts, b), maxRank, i);
    JoinedCut(parts, b, k);
    var j := if k <= b then k else k + 1;
    if j < b + 1 { ConcatLonger(parts, j, b + 1); } else { ConcatLonger(parts, b + 1, j); }
  }

  lemma {:induction false} SinglesFront(token: Bytes, i: nat)
    requires i <= |token|
    ensures Concat(SingleBytes(token)[..i]) == token[..i]
  {
    assert SingleBytes(token)[..i] == SingleBytes(token[..i]);
    ConcatSingle(token[..i]);
  }

  /** Two bytes of the token. */
  function Two(token: Bytes, i: nat): Bytes
    requires i + 1 < |token|
  {
    token[i..i + 2]
  }

  /** Bytes next to each other that may be joined, of the lowest rank of all such and the first of that rank. */
  ghost predicate FirstLowestBytes(ranks: Ranks, token: Bytes, maxRank: Option<int>, b: nat) {
    && b + 1 < |token| && Allowed(ranks, Two(token, b), maxRank)
    && forall i: nat :: i < |token| - 1 && Two(token, i) in ranks ==>
         if i < b then ranks[Two(token, b)] < ranks[Two(token, i)] else ranks[Two(token, b)] <= ranks[Two(token, i)]
  }

  lemma BytesNotCut(ranks: Ranks, token: Bytes, maxRank: Option<int>, b: nat, i: nat)
    requires FirstLowestBytes(ranks, token, maxRank, b) && i <= |Encoded(ranks, SingleBytes(token), maxRank)|
    ensures |Concat(Encoded(ranks, SingleBytes(token), maxRank)[..i])| != b + 1
  {
    var parts := SingleBytes(token);
    forall k | 0 <= k < |parts| - 1 ensures parts[k] + parts[k + 1] == Two(token, k) {
      assert [token[k]] + [token[k + 1]] == token[k..k + 2];
    }
    assert parts[b] + parts[b + 1] == Two(token, b);
    LowestNotCut(ranks, parts, maxRank, b, i);
    SinglesFront(token, b + 1);
  }

  /** The first pair of bytes of lowest rank is in one part. */
  ghost predicate KeepsLowest(ranks: Ranks, token: Bytes, maxRank: Option<int>, parts: seq<Bytes>) {
    forall b: nat, i: nat :: FirstLowestBytes(ranks, token, maxRank, b) && i <= |parts| ==>
      |Concat(parts[..i])| != b + 1
  }

  lemma EncodedKeepsLowest(ranks: Ranks, token: Bytes, maxRank: Option<int>)
    ensures KeepsLowest(ranks, token, maxRank, Encoded(ranks, SingleBytes(token), maxRank))
  {
    var parts := Encoded(ranks, SingleBytes(token), maxRank);
    forall b: nat, i: nat | FirstLowestBytes(ranks, token, maxRank, b) && i <= |parts|
      ensures |Concat(parts[..i])| != b + 1
    {
      BytesNotCut(ranks, token, maxRank, b, i);
    }
  }

  /** With the token's own rank as the limit, a token of two bytes or more stays in two parts or more. */
  lemma OwnRankSplits(ranks: Ranks, token: Bytes)
    requires |token| >= 2 && token in ranks
    ensures |Encoded(ranks, SingleBytes(token), Some(ranks[token]))| >= 2
  {
    var maxRank := Some(ranks[token]);
    var parts := Encoded(ranks, SingleBytes(token), maxRank);
    EncodedIs(ranks, SingleBytes(token), maxRank);
    ConcatSingle(token);
    ConcatOne(parts);
  }

  lemma ConcatOne(parts: seq<Bytes>)
    ensures parts == [] ==> Concat(parts) == []
    ensures |parts| == 1 ==> Concat(parts) == parts[0]
  {
    if |parts| == 1 { assert Concat(parts[1..]) == []; }
  }

  // The limit as a smaller dictionary

  function Below(ranks: Ranks, maxRank: int): Ranks {
    map part | part in ranks && ranks[part] < maxRank :: ranks[part]
  }

  lemma BestBelow(ranks: Ranks, parts: seq<Bytes>, maxRank: int)
    ensures Stops(Below(ranks, maxRank), parts, None) <==> Stops(ranks, parts, Some(maxRank))
    ensures !Stops(ranks, parts, Some(maxRank)) ==> BestPair(Below(ranks, maxRank), parts) == BestPair(ranks, parts)
  {
    if |parts| > 1 {
      var low, upTo := Below(ranks, maxRank), |parts| - 1;
      BestIsLowest(ranks, parts, upTo);
      BestIsLowest(low, parts, upTo);
      forall i: nat | i < upTo
        ensures PairRank(low, parts, i) ==
                if PairRank(ranks, parts, i).Some? && PairRank(ranks, parts, i).value < maxRank
                then PairRank(ranks, parts, i) else None
      {
      }
      if !Stops(ranks, parts, Some(maxRank)) { BestUnique(low, parts, upTo, BestPair(ranks, parts).value); }
    }
  }

  /** A limit on the rank is as good as a dictionary with nothing at or above it. */
  lemma {:induction false} LimitIsRestriction(ranks: Ranks, parts: seq<Bytes>, maxRank: int)
    ensures Encoded(ranks, parts, Some(maxRank)) == Encoded(Below(ranks, maxRank), parts, None)
    decreases |parts|
  {
    BestBelow(ranks, parts, maxRank);
    if !Stops(ranks, parts, Some(maxRank)) {
      LimitIsRestriction(ranks, Joined(parts, BestPair(ranks, parts).value), maxRank);
    }
  }

  // The loop

  method Encode(ranks: Ranks, token: Bytes, maxRank: Option<int>) returns (parts: seq<Bytes>)
    ensures parts == Encoded(ranks, SingleBytes(token), maxRank)
    ensures Concat(parts) == token
    ensures PartsAllowed(ranks, parts, maxRank)
    ensures forall i :: 0 <= i < |parts| - 1 ==> !Allowed(ranks, parts[i] + parts[i + 1], maxRank)
    ensures KeepsLowest(ranks, token, maxRank, parts)
  {
    parts := SingleBytes(token);
    ghost var target := Encoded(ranks, parts, maxRank);
    while true
      invariant Encoded(ranks, parts, maxRank) == target
      decreases |parts|
    {
      var minIdx: Option<nat> := None;
      var minRank: Option<int> := None;
      var n := if parts == [] then 0 else |parts| - 1;
      for i := 0 to n
        invariant minIdx == Best(ranks, parts, i)
        invariant minRank == if minIdx.Some? then PairRank(ranks, parts, minIdx.value) else None
      {
        var pair := parts[i] + parts[i + 1];
        if pair in ranks && (minRank.None? || ranks[pair] < minRank.value) {
          minIdx := Some(i);
          minRank := Some(ranks[pair]);
        }
      }
      assert minIdx == BestPair(ranks, parts);
      if minRank.None? || (maxRank.Some? && minRank.value >= maxRank.value) {
        break;
      }
      var m := minIdx.value;
      ghost var joined := Joined(parts, m);
      parts := parts[..m] + [parts[m] + parts[m + 1]] + parts[m + 2..];
      assert parts == joined;
    }
    ConcatSingle(token);
    EncodedIs(ranks, SingleBytes(token), maxRank);
    EncodedKeepsLowest(ranks, token, maxRank);
  }
}
