/** The clean-up pass on anything that healing produced, repeated keys included: where a key is repeated its
    first member takes the value, so that the marker need not be the last thing in document order. */
module ChatMarked {
  import opened Text
  import opened JsonText
  import opened JsonReader
  import opened JsonShape
  import opened JsonLocator
  import opened JsonPartial
  import opened JsonHealing
  import opened JsonRoundTrip
  import opened JsonErrors
  import opened ChatCleanup
  import opened ChatCleanupResult
  import opened ChatDecoded
  import opened ChatHealing

  /** The marker is in one place below, and every container around it shows the dump marker in its dump. */
  ghost predicate MarkedOnce(j: Json, m: string, dm: string)
    decreases j, 0
  {
    match j
    case Arr(items) =>
      && MarkedDump(j, m, dm) && items != []
      && Clear(Arr(items[..|items| - 1]), m) && MarkedValue(items[|items| - 1], m, dm)
    case Obj(members) => MarkedDump(j, m, dm) && exists n: nat :: MarkedMember(members, n, m, dm)
    case _ => false
  }

  ghost predicate MarkedValue(j: Json, m: string, dm: string)
    decreases j, 1
  {
    match j
    case Str(s) => Has(s, m)
    case _ => MarkedOnce(j, m, dm)
  }

  /** Member n holds the marker, in its key or below, and no other member does. */
  ghost predicate MarkedMember(members: seq<Member>, n: nat, m: string, dm: string)
    decreases members, 0
  {
    && n < |members|
    && (forall i :: 0 <= i < |members| && i != n ==> !Shows(members[i].key, m) && Clear(members[i].value, m))
    && (Has(members[n].key, m) || MarkedValue(members[n].value, m, dm))
  }

  // The pass

  /** The flag is raised and nothing of the marker is left. */
  predicate Unmarks(w: Pass, m: string) { w.Ran? ==> w.found && Free(w.result, m) }

  lemma FreeMembersWalk(c: Context, members: seq<Member>, acc: seq<Member>, path: Path, f: bool)
    requires HealedContext(c) && Clear(Obj(members), c.marker) && Free(Obj(acc), c.marker)
    ensures var w := WalkMembers(c, members, acc, path, f);
      w.Ran? ==> w.found == f && w.path == path && Free(w.result, c.marker)
  {
    ClearIsFree(Obj(members), c.marker);
    FreeWalkMembers(c, members, acc, path, f, false);
    CleanFreeMembers(c, members, acc, path, false);
  }

  lemma FreeValueWalk(c: Context, j: Json, path: Path, f: bool)
    requires HealedContext(c) && Clear(j, c.marker)
    ensures var w := Walk(c, j, path, f); w.Ran? ==> w.found == f && w.path == path && Free(w.result, c.marker)
  {
    ClearIsFree(j, c.marker);
    FreeWalk(c, j, path, f);
    CleanFree(c, j, path);
  }

  lemma TailMarked(members: seq<Member>, n: nat, m: string, dm: string)
    requires MarkedMember(members, n, m, dm) && DigitMarker(m)
    ensures n > 0 ==> !Shows(members[0].key, m) && Clear(members[0].value, m)
    ensures n > 0 ==> !Has(members[0].key, m) && Free(members[0].value, m) && MarkedMember(members[1..], n - 1, m, dm)
    ensures n == 0 ==> Clear(Obj(members[1..]), m)
  {
    if n > 0 {
      if Has(members[0].key, m) { HeldShows(members[0].key, m); }
      ClearIsFree(members[0].value, m);
    }
    assert forall i :: 0 <= i < |members| - 1 ==> members[1..][i] == members[i + 1];
  }

  /** Whatever the paths, the pass raises the flag and leaves no key, string or number with the marker. */
  lemma {:induction false} WalkUnmarks(c: Context, j: Json, path: Path, f: bool)
    requires HealedContext(c) && MarkedOnce(j, c.marker, c.dumpMarker)
    ensures Unmarks(Walk(c, j, path, f), c.marker)
    decreases j, 1
  {
    if path in c.argsPaths {
      HasContains(Dump(j)[..Find(Dump(j), c.dumpMarker, 0).value], c.marker);
      NoDigitFree([], c.marker);
    } else if path !in c.contentPaths {
      match j
      case Obj(members) =>
        var n: nat :| MarkedMember(members, n, c.marker, c.dumpMarker);
        MembersUnmark(c, members, n, [], path, f);
      case Arr(items) => ItemsUnmark(c, items, [], path, f);
    }
  }

  lemma {:induction false} MembersUnmark(c: Context, members: seq<Member>, n: nat, acc: seq<Member>, path: Path,
                                         f: bool)
    requires HealedContext(c) && MarkedMember(members, n, c.marker, c.dumpMarker) && Free(Obj(acc), c.marker)
    ensures Unmarks(WalkMembers(c, members, acc, path, f), c.marker)
    decreases members, 0
  {
    var Member(k, v) := members[0];
    TailMarked(members, n, c.marker, c.dumpMarker);
    if n > 0 {
      if v.Str? {
        FreeInsert(acc, k, v, c.marker);
        MembersUnmark(c, members[1..], n - 1, Insert(acc, k, v), path, f);
      } else {
        FreeValueWalk(c, v, path + [k], f);
        var r := Walk(c, v, path + [k], f);
        if r.Ran? {
          FreeInsert(acc, k, r.result, c.marker);
          MembersUnmark(c, members[1..], n - 1, Insert(acc, k, r.result), Pop(r.path), r.found);
        }
      }
    } else if !Has(k, c.marker) {
      if v.Str? {
        if path + [k] in c.contentPaths && c.rawMarker == c.dumpMarker {
          ContentUnmarks(c, v.s, path + [k]);
          FreeInsert(acc, k, Walk(c, v, path + [k], true).result, c.marker);
        }
      } else {
        WalkUnmarks(c, v, path + [k], f);
        var r := Walk(c, v, path + [k], f);
        if r.Ran? {
          FreeInsert(acc, k, r.result, c.marker);
          FreeMembersWalk(c, members[1..], Insert(acc, k, r.result), Pop(r.path), r.found);
        }
      }
    }
  }

  lemma ContentUnmarks(c: Context, s: string, path: Path)
    requires HealedContext(c) && c.rawMarker == c.dumpMarker && path in c.contentPaths
    ensures var w := Walk(c, Str(s), path, true); w.Ran? && w.found && Free(w.result, c.marker)
  {
    CutAtFree(s, c.marker);
    CutAtFree(Dump(Str(s)), c.marker);
    NoDigitFree([], c.marker);
  }

  lemma {:induction false} ItemsUnmark(c: Context, items: seq<Json>, acc: seq<Json>, path: Path, f: bool)
    requires HealedContext(c) && items != [] && Free(Arr(acc), c.marker)
    requires Clear(Arr(items[..|items| - 1]), c.marker)
    requires MarkedValue(items[|items| - 1], c.marker, c.dumpMarker)
    ensures Unmarks(WalkItems(c, items, acc, path, f), c.marker)
    decreases items, 0
  {
    var front := items[..|items| - 1];
    if |items| == 1 {
      assert items[1..] == [];
      if !items[0].Str? {
        WalkUnmarks(c, items[0], path, f);
        var r := Walk(c, items[0], path, f);
        if r.Ran? { FreeAppend(acc, r.result, c.marker); }
      }
    } else {
      ClearItems(front, c.marker);
      assert front[0] == items[0] && front[1..] == items[1..][..|items| - 2];
      ClearIsFree(items[0], c.marker);
      FreeValueWalk(c, items[0], path, f);
      var r := Walk(c, items[0], path, f);
      if r.Ran? {
        FreeAppend(acc, r.result, c.marker);
        ItemsUnmark(c, items[1..], acc + [r.result], path, r.found);
      }
    }
  }

  // The same for the pass as it is meant

  lemma {:induction false} CleanUnmarks(c: Context, j: Json, path: Path)
    requires HealedContext(c) && MarkedOnce(j, c.marker, c.dumpMarker)
    ensures var r := CleanAt(c, j, path); r.Good? ==> r.found && Free(r.result, c.marker)
    decreases j, 1
  {
    if path in c.argsPaths {
      HasContains(Dump(j)[..Find(Dump(j), c.dumpMarker, 0).value], c.marker);
      NoDigitFree([], c.marker);
    } else if path !in c.contentPaths {
      match j
      case Obj(members) =>
        var n: nat :| MarkedMember(members, n, c.marker, c.dumpMarker);
        MembersCleaned(c, members, n, [], path);
      case Arr(items) => ItemsCleaned(c, items, [], path);
    }
  }

  lemma {:induction false} MembersCleaned(c: Context, members: seq<Member>, n: nat, acc: seq<Member>, path: Path)
    requires HealedContext(c) && MarkedMember(members, n, c.marker, c.dumpMarker) && Free(Obj(acc), c.marker)
    ensures var r := CleanMembers(c, members, acc, path, false); r.Good? ==> r.found && Free(r.result, c.marker)
    decreases members, 0
  {
    var Member(k, v) := members[0];
    TailMarked(members, n, c.marker, c.dumpMarker);
    if n > 0 {
      if v.Str? {
        FreeInsert(acc, k, v, c.marker);
        MembersCleaned(c, members[1..], n - 1, Insert(acc, k, v), path);
      } else {
        CleanFree(c, v, path + [k]);
        var r := CleanAt(c, v, path + [k]);
        if r.Good? {
          FreeInsert(acc, k, r.result, c.marker);
          MembersCleaned(c, members[1..], n - 1, Insert(acc, k, r.result), path);
        }
      }
    } else if Has(k, c.marker) || (v.Str? && !(path + [k] in c.contentPaths && c.rawMarker == c.dumpMarker)) {
      CleanFreeMembers(c, members[1..], acc, path, true);
    } else {
      if v.Str? { ContentCleaned(c, v.s, path + [k]); } else { CleanUnmarks(c, v, path + [k]); }
      var r := CleanAt(c, v, path + [k]);
      if r.Good? {
        FreeInsert(acc, k, r.result, c.marker);
        CleanFreeMembers(c, members[1..], Insert(acc, k, r.result), path, true);
      }
    }
  }

  /** A healed string is cut before the marker, as content or as argument text. */
  lemma ContentCleaned(c: Context, s: string, path: Path)
    requires HealedContext(c) && c.rawMarker == c.dumpMarker && path in c.contentPaths
    ensures var r := CleanAt(c, Str(s), path); r.Good? && Free(r.result, c.marker)
  {
    CutAtFree(s, c.marker);
    CutAtFree(Dump(Str(s)), c.marker);
    NoDigitFree([], c.marker);
  }

  lemma {:induction false} ItemsCleaned(c: Context, items: seq<Json>, acc: seq<Json>, path: Path)
    requires HealedContext(c) && items != [] && Free(Arr(acc), c.marker)
    requires Clear(Arr(items[..|items| - 1]), c.marker)
    requires MarkedValue(items[|items| - 1], c.marker, c.dumpMarker)
    ensures var r := CleanItems(c, items, acc, path, false); r.Good? ==> r.found && Free(r.result, c.marker)
    decreases items, 0
  {
    var front := items[..|items| - 1];
    if |items| == 1 {
      assert items[1..] == [];
      if items[0].Str? {
        assert CleanItems(c, items, acc, path, false) == CleanItems(c, [], acc, path, true);
      } else {
        CleanUnmarks(c, items[0], path);
        var r := CleanAt(c, items[0], path);
        if r.Good? {
          FreeAppend(acc, r.result, c.marker);
          assert CleanItems(c, items, acc, path, false) == CleanItems(c, [], acc + [r.result], path, true);
        }
      }
    } else {
      ClearItems(front, c.marker);
      assert front[0] == items[0] && front[1..] == items[1..][..|items| - 2];
      ClearIsFree(items[0], c.marker);
      CleanFree(c, items[0], path);
      var r := CleanAt(c, items[0], path);
      if r.Good? {
        FreeAppend(acc, r.result, c.marker);
        ItemsCleaned(c, items[1..], acc + [r.result], path);
      }
    }
  }

  // Dumps with more members behind the marked one

  lemma {:induction false} DumpExtends(front: seq<Member>, rest: seq<Member>)
    requires front != []
    ensures DumpMembers(front) <= DumpMembers(front + rest)
  {
    if rest == [] {
      assert front + rest == front;
    } else {
      var n := |rest| - 1;
      DumpExtends(front, rest[..n]);
      assert (front + rest)[..|front + rest| - 1] == front + rest[..n];
      PrefixGrows(DumpMembers(front), DumpMembers(front + rest[..n]), ",", DumpStr(rest[n].key), Dump(rest[n].value));
    }
  }

  lemma PrefixGrows(a: string, b: string, c: string, k: string, v: string)
    requires a <= b
    ensures a <= b + c + k + ":" + v
  {
  }

  lemma MarkedExtends(d: string, e: string, m: string, dm: string)
    requires d <= e && DigitMarker(m) && EndsWith(dm, m) && MarkedText("{" + d + "}", m, dm)
    ensures MarkedText("{" + e + "}", m, dm)
  {
    var s, t := "{" + d + "}", "{" + e + "}";
    var i := Find(s, dm, 0).value;
    FoundBeforeBrace(d, m, dm, i);
    assert t == ("{" + d) + (e[|d|..] + "}") && s == ("{" + d) + "}";
    OccursInPrefix("{" + d, "}", dm, i);
    OccursInPrefix("{" + d, e[|d|..] + "}", dm, i);
    forall k: nat | k < i ensures !OccursAt(t, dm, k) {
      OccursInPrefix("{" + d, "}", dm, k);
      OccursInPrefix("{" + d, e[|d|..] + "}", dm, k);
    }
    FindIs(t, dm, i);
    assert s[..i] == t[..i];
  }

  lemma FoundBeforeBrace(d: string, m: string, dm: string, i: nat)
    requires DigitMarker(m) && EndsWith(dm, m) && OccursAt("{" + d + "}", dm, i)
    ensures i + |dm| <= |"{" + d|
  {
    var s := "{" + d + "}";
    assert dm[|dm| - 1] == dm[|dm| - |m|..][|m| - 1] == m[|m| - 1];
    assert s[i + |dm| - 1] == s[i..i + |dm|][|dm| - 1];
  }

  lemma MoreMembers(front: seq<Member>, rest: seq<Member>, m: string, dm: string)
    requires front != [] && DigitMarker(m) && EndsWith(dm, m) && MarkedDump(Obj(front), m, dm)
    ensures MarkedDump(Obj(front + rest), m, dm)
  {
    DumpExtends(front, rest);
    MarkedExtends(DumpMembers(front), DumpMembers(front + rest), m, dm);
  }

  // What healing gives

  /** Where a key first is, or would be put. */
  function Place(members: seq<Member>, k: string): (n: nat)
    ensures n <= |members|
  {
    if members == [] || members[0].key == k then 0 else 1 + Place(members[1..], k)
  }

  /** The members behind the first one with a key; none when the key is new. */
  function Behind(members: seq<Member>, k: string): seq<Member> {
    var n := Place(members, k);
    if n < |members| then members[n + 1..] else []
  }

  /** A member is put where its key first is, or at the end. */
  lemma {:induction false} InsertPlaced(members: seq<Member>, k: string, v: Json)
    ensures var n, rest := Place(members, k), Behind(members, k);
      && !HasKey(members[..n], k) && Insert(members, k, v) == members[..n] + [Member(k, v)] + rest
      && forall i :: 0 <= i < |rest| ==> rest[i] in members
  {
    if members != [] && members[0].key != k {
      var n := Place(members[1..], k);
      InsertPlaced(members[1..], k, v);
      ConsPlaced(members[0], members[1..], n, k, v, Behind(members[1..], k));
      assert members == [members[0]] + members[1..];
    }
  }

  lemma ConsPlaced(first: Member, members: seq<Member>, n: nat, k: string, v: Json, rest: seq<Member>)
    requires n <= |members| && first.key != k && !HasKey(members[..n], k)
    ensures [first] + (members[..n] + [Member(k, v)] + rest) == ([first] + members)[..n + 1] + [Member(k, v)] + rest
    ensures !HasKey(([first] + members)[..n + 1], k)
  {
    assert ([first] + members)[..n + 1] == [first] + members[..n];
    forall i | 0 <= i < n + 1 ensures ([first] + members[..n])[i].key != k {
      if i > 0 { assert members[..n][i - 1].key != k; }
    }
  }

  /** A member put among members free of the marker is the one that is marked. */
  lemma InsertMarked(members: seq<Member>, k: string, v: Json, n: nat, rest: seq<Member>, m: string, dm: string)
    requires Clear(Obj(members), m) && n <= |members| && (forall i :: 0 <= i < |rest| ==> rest[i] in members)
    requires Has(k, m) || MarkedValue(v, m, dm)
    ensures MarkedMember(members[..n] + [Member(k, v)] + rest, n, m, dm)
  {
    var all := members[..n] + [Member(k, v)] + rest;
    forall i | 0 <= i < |all| && i != n ensures !Shows(all[i].key, m) && Clear(all[i].value, m) {
      if i < n {
        assert all[i] == members[i];
      } else {
        assert all[i] == rest[i - n - 1];
      }
    }
  }

  /** A container around a marked one. */
  lemma WrapOnce(f: Frame, v: Json, m: string, dm: string)
    requires f.ObjFrame? ==> f.pending.Some? && !Shows(f.pending.value, m) && Clear(Obj(f.members), m)
    requires f.ArrFrame? ==> Clear(Arr(f.items), m)
    requires IsContainer(v) && MarkedOnce(v, m, dm) && DigitMarker(m) && EndsWith(dm, m)
    requires forall i :: 0 <= i < |dm| ==> dm[i] != '[' && dm[i] != '{'
    ensures IsContainer(ChatHealing.Wrap(f, v)) && MarkedOnce(ChatHealing.Wrap(f, v), m, dm)
  {
    match f
    case ArrFrame(items) =>
      WrapArrDump(items, v, m, dm);
      assert (items + [v])[..|items|] == items;
    case ObjFrame(members, Some(k)) =>
      var n, rest := Place(members, k), Behind(members, k);
      InsertPlaced(members, k, v);
      assert Clear(Obj(members[..n]), m);
      WrapObjDump(members[..n], k, v, m, dm);
      MoreMembers(members[..n] + [Member(k, v)], rest, m, dm);
      InsertMarked(members, k, v, n, rest, m, dm);
  }

  lemma {:induction false} PlugOnce(stack: Stack, v: Json, m: string, dm: string)
    requires Awaiting(stack) && ClearStack(stack, m)
    requires IsContainer(v) && MarkedOnce(v, m, dm) && DigitMarker(m) && EndsWith(dm, m)
    requires forall i :: 0 <= i < |dm| ==> dm[i] != '[' && dm[i] != '{'
    ensures MarkedOnce(Plug(stack, v), m, dm)
    decreases stack
  {
    if stack.Push? {
      WrapOnce(stack.top, v, m, dm);
      PlugPush(stack.top, stack.below, v);
      PlugOnce(stack.below, ChatHealing.Wrap(stack.top, v), m, dm);
    }
  }

  /** The state with only its innermost container open, and of that the members in front of n. */
  function Trimmed(s: State, n: nat): State
    requires s.stack.Push? && (s.stack.top.ObjFrame? ==> n <= |s.stack.top.members|)
  {
    State(s.mode, Push(if s.stack.top.ArrFrame? then s.stack.top
                       else ObjFrame(s.stack.top.members[..n], s.stack.top.pending), Bottom))
  }

  /** The members in front of n with the pending one behind them, as if the key were new. */
  lemma FrontMarked(s: State, m: string, n: nat)
    requires Settled(s) && ClearState(s, m) && !s.mode.Failed? && DigitMarker(m)
    requires s.stack.top.ObjFrame? && s.stack.top.pending.Some?
    requires n <= |s.stack.top.members| && !HasKey(s.stack.top.members[..n], s.stack.top.pending.value)
    ensures var p, front := HealingPoint(s, m), s.stack.top.members[..n];
      p.stack == s.stack && p.value.Str?
      && MarkedDump(Obj(front + [Member(s.stack.top.pending.value, p.value)]), m, p.quote + m)
  {
    var front, s1 := s.stack.top.members[..n], Trimmed(s, n);
    assert Clear(Obj(front), m);
    TrimmedPoint(s, n, m);
    FreeStateText(s1, m);
    LocalMarked(s1, m);
    InsertFresh(front, s.stack.top.pending.value, HealingPoint(s, m).value);
  }

  /** An object that waits for the value of its pending key. */
  lemma PendingOnce(s: State, m: string)
    requires Settled(s) && ClearState(s, m) && !s.mode.Failed? && DigitMarker(m)
    requires s.stack.top.ObjFrame? && s.stack.top.pending.Some?
    ensures var p := HealingPoint(s, m);
      && p.stack == s.stack && IsContainer(ChatHealing.Wrap(p.stack.top, p.value))
      && MarkedOnce(ChatHealing.Wrap(p.stack.top, p.value), m, p.quote + m)
  {
    var p := HealingPoint(s, m);
    var members, k := s.stack.top.members, s.stack.top.pending.value;
    var n, rest := Place(members, k), Behind(members, k);
    InsertPlaced(members, k, p.value);
    FrontMarked(s, m, n);
    PointHas(s, m);
    QuotedMarkerOf(s, m);
    MoreMembers(members[..n] + [Member(k, p.value)], rest, m, p.quote + m);
    InsertMarked(members, k, p.value, n, rest, m, p.quote + m);
  }

  lemma QuotedMarkerOf(s: State, m: string)
    requires Shaped(s) && DigitMarker(m)
    ensures var dm := HealingPoint(s, m).quote + m;
      EndsWith(dm, m) && forall i :: 0 <= i < |dm| ==> dm[i] != '[' && dm[i] != '{'
  {
    QuoteKinds(s, m);
    QuotedMarkerEnds(HealingPoint(s, m).quote, m);
  }

  lemma TrimmedPoint(s: State, n: nat, m: string)
    requires Settled(s) && !s.mode.Failed? && s.stack.top.ObjFrame? && s.stack.top.pending.Some?
    requires n <= |s.stack.top.members| && !HasKey(s.stack.top.members[..n], s.stack.top.pending.value)
    ensures Settled(Trimmed(s, n)) && Fresh(Trimmed(s, n).stack) && Local(Trimmed(s, n)) == Trimmed(s, n)
    ensures var p, q := HealingPoint(s, m), HealingPoint(Trimmed(s, n), m);
      && p.stack == s.stack && q.stack == Trimmed(s, n).stack && p.value == q.value && p.quote == q.quote
      && p.value.Str?
  {
    assert Awaiting(Trimmed(s, n).stack.below) && Fresh(Bottom);
  }

  /** An array, or an object that waits for a key: here nothing is repeated. */
  lemma OtherOnce(s: State, m: string)
    requires Settled(s) && ClearState(s, m) && !s.mode.Failed? && DigitMarker(m)
    requires s.stack.top.ObjFrame? ==> s.stack.top.pending.None?
    ensures var p := HealingPoint(s, m);
      && p.stack.Push? && p.stack.below == s.stack.below && IsContainer(ChatHealing.Wrap(p.stack.top, p.value))
      && MarkedOnce(ChatHealing.Wrap(p.stack.top, p.value), m, p.quote + m)
  {
    var s1 := Local(s);
    LocalSettled(s, m);
    FreeStateText(s1, m);
    LocalMarked(s1, m);
    PointHas(s, m);
    if HealingPoint(s, m).value == Num("1") { DigitsArePlain(m); PointKeyFresh(s1, m); }
    LastIsOnce(HealingPoint(s, m), m, HealingPoint(s, m).quote + m);
  }

  lemma LocalSettled(s: State, m: string)
    requires Settled(s) && ClearState(s, m) && !s.mode.Failed?
    requires s.stack.top.ObjFrame? ==> s.stack.top.pending.None?
    ensures Settled(Local(s)) && ClearState(Local(s), m) && Fresh(Local(s).stack) && Local(Local(s)) == Local(s)
    ensures var p, q := HealingPoint(s, m), HealingPoint(Local(s), m);
      && p.stack.Push? && p.stack.below == s.stack.below && q.stack == Push(p.stack.top, Bottom)
      && p.value == q.value && p.quote == q.quote
  {
    assert Awaiting(Local(s).stack.below) && Fresh(Bottom);
  }

  /** Behind values that are clear, a string or a new key with the marker is the one thing marked. */
  lemma LastIsOnce(p: Point, m: string, dm: string)
    requires p.stack.Push? && MarkedDump(ChatHealing.Wrap(p.stack.top, p.value), m, dm)
    requires p.stack.top.ArrFrame? ==> Clear(Arr(p.stack.top.items), m) && p.value.Str? && Has(p.value.s, m)
    requires p.stack.top.ObjFrame? ==>
      (Clear(Obj(p.stack.top.members), m) && p.stack.top.pending.Some?
       && Has(p.stack.top.pending.value, m) && !HasKey(p.stack.top.members, p.stack.top.pending.value))
    ensures MarkedOnce(ChatHealing.Wrap(p.stack.top, p.value), m, dm)
  {
    match p.stack.top
    case ArrFrame(items) => assert (items + [p.value])[..|items|] == items;
    case ObjFrame(members, pending) =>
      InsertFresh(members, pending.value, p.value);
      InsertMarked(members, pending.value, p.value, |members|, [], m, dm);
      assert members[..|members|] == members;
      var all := Insert(members, pending.value, p.value);
      assert all == members + [Member(pending.value, p.value)] + [];
  }

  /** Nothing decoded of the text that healing builds on holds the marker, as a dump writes it. */
  predicate ClearBasis(t: string, m: string) {
    Locate(t).stack != [] && Basis(t).Some? ==> ClearState(Run(START, Basis(t).value), m)
  }

  /** The marker put at the point of text that nothing marked is decoded from. */
  lemma BasisOnce(b: string, m: string)
    requires Truncated(b) && !OnScalar(b) && !OnCode(b) && DigitMarker(m) && ClearState(Run(START, b), m)
    ensures var r := HealedOn(b, m, 0); MarkedOnce(r.json, m, r.dumpMarker) && EndsWith(r.dumpMarker, m)
  {
    var s := Run(START, b);
    RunShaped(START, b);
    var p := HealingPoint(s, m);
    if s.stack.top.ObjFrame? && s.stack.top.pending.Some? { PendingOnce(s, m); } else { OtherOnce(s, m); }
    QuotedMarkerOf(s, m);
    BelowAwaits(s);
    PlugPush(p.stack.top, s.stack.below, p.value);
    PlugOnce(s.stack.below, ChatHealing.Wrap(p.stack.top, p.value), m, p.quote + m);
  }

  /** What healing gives marks one place, and every container around it shows the healing marker in its
      dump, free of the raw marker before it: for every text that heals and decodes to nothing marked. */
  lemma HealedIsMarkedOnce(t: string, m: string)
    requires DigitMarker(m) && ParseOrHeal(t, m).Healed? && ClearBasis(t, m)
    ensures var r := ParseOrHeal(t, m); MarkedOnce(r.json, m, r.dumpMarker) && EndsWith(r.dumpMarker, m)
  {
    DigitsAreFirm(m);
    HealsExactly(t, m);
    BasisSettled(t);
    BasisOnce(Basis(t).value, m);
  }

  /** Cleaning whatever healing gave raises the flag and leaves no key, string or number with the marker. */
  lemma HealedUnmarks(t: string, m: string, args: seq<Path>, contents: seq<Path>)
    requires DigitMarker(m) && ParseOrHeal(t, m).Healed? && ClearBasis(t, m)
    ensures var r := ParseOrHeal(t, m);
      Unmarks(Walk(Context(m, true, m, r.dumpMarker, args, contents), r.json, [], false), m)
  {
    HealedIsMarkedOnce(t, m);
    var r := ParseOrHeal(t, m);
    WalkUnmarks(Context(m, true, m, r.dumpMarker, args, contents), r.json, [], false);
  }

  /** Without `\u` escapes it is enough that the text is free of the marker. */
  lemma ClearFromRaw(t: string, m: string)
    requires DigitMarker(m) && !Contains(t, m) && NoCodes(t)
    ensures ClearBasis(t, m)
  {
    if Locate(t).stack != [] && Basis(t).Some? {
      var b := Basis(t).value;
      BasisIsPrefix(t);
      assert t == b + t[|b|..];
      FreePrefix(b, t[|b|..], m);
      forall n: nat | n <= |b| ensures !OnCode(b[..n]) { assert b[..n] == t[..n]; }
      RunClear(b, m);
    }
  }
}
