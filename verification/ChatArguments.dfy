/** What consuming JSON makes of arguments and of content. */
module ChatArguments {
  import opened Text
  import opened JsonText
  import opened JsonReader
  import opened JsonDumped
  import opened ChatCleanup
  import opened ChatPaths
  import opened ChatFlag

  // Whatever is parsed has distinct keys and proper numbers

  predicate WellStack(stack: Stack) {
    stack.Push? ==>
      && WellStack(stack.below)
      && match stack.top
         case ArrFrame(items) => WellFormed(Arr(items))
         case ObjFrame(members, _) => WellFormed(Obj(members))
  }

  predicate WellState(s: State) { WellStack(s.stack) && (s.mode.Done? ==> WellFormed(s.mode.value)) }

  lemma WellMembers(members: seq<Member>)
    ensures WellFormed(Obj(members)) <==>
      Distinct(members) && forall i :: 0 <= i < |members| ==> WellFormed(members[i].value)
  {
    if WellFormed(Obj(members)) {
      forall i, j | 0 <= i < j < |members| ensures members[i].key != members[j].key {
        assert !HasKey(members[..j], members[j].key) && members[..j][i] == members[i];
      }
    }
  }

  lemma InsertWell(members: seq<Member>, k: string, v: Json)
    requires WellFormed(Obj(members)) && WellFormed(v)
    ensures WellFormed(Obj(Insert(members, k, v)))
  {
    WellMembers(members);
    InsertDistinct(members, k, v);
    InsertValues(members, k, v);
    WellMembers(Insert(members, k, v));
  }

  lemma {:induction false} InsertValues(members: seq<Member>, k: string, v: Json)
    requires WellFormed(v) && forall i :: 0 <= i < |members| ==> WellFormed(members[i].value)
    ensures forall i :: 0 <= i < |Insert(members, k, v)| ==> WellFormed(Insert(members, k, v)[i].value)
  {
    if members != [] && members[0].key != k {
      assert forall i :: 0 <= i < |members| - 1 ==> members[1..][i] == members[i + 1];
      InsertValues(members[1..], k, v);
    }
  }

  lemma CompleteWell(stack: Stack, v: Json)
    requires WellStack(stack) && WellFormed(v)
    ensures WellState(Complete(stack, v))
  {
    match stack
    case Push(ObjFrame(members, Some(k)), below) => InsertWell(members, k, v);
    case _ =>
  }

  lemma AfterWell(stack: Stack, c: char)
    requires WellStack(stack)
    ensures WellState(AfterValue(stack, c))
  {
    match stack
    case Push(ArrFrame(items), below) => CompleteWell(below, Arr(items));
    case Push(ObjFrame(members, _), below) => CompleteWell(below, Obj(members));
    case _ =>
  }

  lemma AdvanceWell(s: State, c: char)
    requires WellState(s)
    ensures WellState(Advance(s, c))
  {
    match s.mode
    case InString(_, x) => CompleteWell(s.stack, Str(x));
    case InLiteral(lit, _) => CompleteWell(s.stack, LiteralValue(lit));
    case _ => AfterWell(s.stack, c);
  }

  lemma FinishWell(s: State)
    requires WellState(s)
    ensures WellState(Finish(s))
  {
    if s.mode.InNumber? && IsNumber(s.mode.digits) { CompleteWell(s.stack, Num(s.mode.digits)); }
  }

  lemma {:induction false} RunWell(s: State, t: string)
    requires WellState(s)
    ensures WellState(Run(s, t))
    decreases |t|
  {
    if t != [] {
      FinishWell(s);
      AdvanceWell(Finish(s), t[0]);
      RunWell(Step(s, t[0]), t[1..]);
    }
  }

  lemma ParsedIsWell(t: string)
    requires Parse(t).Some?
    ensures WellFormed(Parse(t).value)
  {
    RunWell(START, t);
    FinishWell(Run(START, t));
  }

  // JSON that was not healed

  /** r is j with every subtree at an argument path, but for the string of a member, as text that parses back to it. */
  predicate Shown(j: Json, r: Json, path: Path, args: seq<Path>)
    decreases j, 1
  {
    if path in args then r == Str(Dump(j)) && Parse(Dump(j)) == Some(j)
    else
      match j
      case Obj(members) =>
        r.Obj? && |r.members| == |members| && forall i :: 0 <= i < |members| ==>
          && r.members[i].key == members[i].key
          && if members[i].value.Str? then r.members[i].value == members[i].value
             else Shown(members[i].value, r.members[i].value, path + [members[i].key], args)
      case Arr(items) =>
        r.Arr? && |r.items| == |items| && forall i :: 0 <= i < |items| ==> Shown(items[i], r.items[i], path, args)
      case _ => r == j
  }

  /** A content path leads to something other than a string, not inside arguments and not dropped. */
  predicate Misplaced(j: Json, path: Path, args: seq<Path>, contents: seq<Path>, m: string)
    decreases j, 1
  {
    && path !in args
    && if path in contents then !j.Str?
       else
         match j
         case Obj(members) =>
           exists i :: 0 <= i < |members| && MisplacedMember(members[i], path, args, contents, m)
         case Arr(items) => exists i :: 0 <= i < |items| && MisplacedItem(items[i], path, args, contents, m)
         case _ => false
  }

  predicate MisplacedMember(x: Member, path: Path, args: seq<Path>, contents: seq<Path>, m: string)
    decreases x, 0
  {
    !Has(x.key, m) && !x.value.Str? && Misplaced(x.value, path + [x.key], args, contents, m)
  }

  predicate MisplacedItem(x: Json, path: Path, args: seq<Path>, contents: seq<Path>, m: string)
    decreases x, 2
  {
    !(x.Str? && Has(x.s, m)) && Misplaced(x, path, args, contents, m)
  }

  /** The pass from some members on. */
  predicate ShownFrom(members: seq<Member>, acc: seq<Member>, r: seq<Member>, path: Path, args: seq<Path>) {
    && |r| == |acc| + |members| && r[..|acc|] == acc
    && forall i :: 0 <= i < |members| ==> ShownAs(members[i], r[|acc| + i], path, args)
  }

  predicate ShownAs(x: Member, y: Member, path: Path, args: seq<Path>) {
    && y.key == x.key
    && if x.value.Str? then y.value == x.value else Shown(x.value, y.value, path + [x.key], args)
  }

  lemma {:induction false} UnhealedShown(c: Context, j: Json, path: Path, f: bool)
    requires c.rawMarker == [] && Untouched(j, c.marker) && WellFormed(j)
    requires !(j.Str? && path in c.contentPaths && path !in c.argsPaths)
    ensures var w := Walk(c, j, path, f);
      && (w.Threw? <==> Misplaced(j, path, c.argsPaths, c.contentPaths, c.marker))
      && (w.Ran? ==> Shown(j, w.result, path, c.argsPaths))
    decreases j, 1
  {
    if path in c.argsPaths {
      ParseDump(j);
    } else if path !in c.contentPaths {
      match j
      case Obj(members) =>
        WellMembers(members);
        UnhealedMembersShown(c, members, [], path, f);
      case Arr(items) => UnhealedItemsShown(c, items, [], path, f);
      case _ =>
    }
  }

  lemma {:induction false} UnhealedMembersShown(c: Context, members: seq<Member>, acc: seq<Member>, path: Path, f: bool)
    requires c.rawMarker == [] && Untouched(Obj(members), c.marker) && Distinct(members) && Apart(acc, members)
    requires forall i :: 0 <= i < |members| ==> WellFormed(members[i].value)
    ensures var w := WalkMembers(c, members, acc, path, f);
      && (w.Threw? <==> MisplacedIn(members, path, c.argsPaths, c.contentPaths, c.marker))
      && (w.Ran? ==> w.result.Obj? && ShownFrom(members, acc, w.result.members, path, c.argsPaths))
    decreases members, 1
  {
    if members != [] {
      var Member(k, v) := members[0];
      UntouchedParts(members, c.marker);
      MisplacedCons(members, path, c.argsPaths, c.contentPaths, c.marker);
      if v.Str? {
        AppendApart(acc, members, v);
        UnhealedMembersShown(c, members[1..], acc + [Member(k, v)], path, f);
        var w := WalkMembers(c, members, acc, path, f);
        if w.Ran? { ShownCons(members, acc, Member(k, v), w.result.members, path, c.argsPaths); }
      } else {
        UnhealedShown(c, v, path + [k], f);
        UnhealedFlag(c, v, path + [k], f);
        assert Pop(path + [k]) == path;
        var r := Walk(c, v, path + [k], f);
        if r.Ran? { RestShown(c, members, acc, r.result, path, f); }
      }
    }
  }

  lemma {:induction false} RestShown(c: Context, members: seq<Member>, acc: seq<Member>, v: Json, path: Path, f: bool)
    requires members != [] && c.rawMarker == [] && Untouched(Obj(members[1..]), c.marker)
    requires Distinct(members) && Apart(acc, members)
    requires ShownAs(members[0], Member(members[0].key, v), path, c.argsPaths)
    requires forall i :: 0 <= i < |members| ==> WellFormed(members[i].value)
    ensures var w := WalkMembers(c, members[1..], Insert(acc, members[0].key, v), path, f);
      && (w.Threw? <==> MisplacedIn(members[1..], path, c.argsPaths, c.contentPaths, c.marker))
      && (w.Ran? ==> w.result.Obj? && ShownFrom(members, acc, w.result.members, path, c.argsPaths))
    decreases members, 0
  {
    var x := Member(members[0].key, v);
    AppendApart(acc, members, v);
    UnhealedMembersShown(c, members[1..], acc + [x], path, f);
    var w := WalkMembers(c, members[1..], acc + [x], path, f);
    if w.Ran? { ShownCons(members, acc, x, w.result.members, path, c.argsPaths); }
  }

  predicate MisplacedIn(members: seq<Member>, path: Path, args: seq<Path>, contents: seq<Path>, m: string) {
    exists i :: 0 <= i < |members| && MisplacedMember(members[i], path, args, contents, m)
  }

  lemma MisplacedCons(members: seq<Member>, path: Path, args: seq<Path>, contents: seq<Path>, m: string)
    requires members != []
    ensures MisplacedIn(members, path, args, contents, m) <==>
      MisplacedMember(members[0], path, args, contents, m) || MisplacedIn(members[1..], path, args, contents, m)
  {
    assert members == [members[0]] + members[1..];
    if MisplacedIn(members[1..], path, args, contents, m) {
      var i :| 0 <= i < |members| - 1 && MisplacedMember(members[1..][i], path, args, contents, m);
      assert members[1..][i] == members[i + 1];
    }
  }

  lemma ShownCons(members: seq<Member>, acc: seq<Member>, x: Member, r: seq<Member>, path: Path, args: seq<Path>)
    requires members != [] && ShownAs(members[0], x, path, args)
    requires ShownFrom(members[1..], acc + [x], r, path, args)
    ensures ShownFrom(members, acc, r, path, args)
  {
    assert r[..|acc|] == r[..|acc| + 1][..|acc|] == acc;
    forall i | 0 <= i < |members| ensures ShownAs(members[i], r[|acc| + i], path, args) {
      if i == 0 {
        assert r[|acc|] == r[..|acc| + 1][|acc|] == x;
      } else {
        assert members[i] == members[1..][i - 1] && r[|acc| + i] == r[|acc + [x]| + (i - 1)];
      }
    }
  }

  lemma {:induction false} UnhealedItemsShown(c: Context, items: seq<Json>, acc: seq<Json>, path: Path, f: bool)
    requires c.rawMarker == [] && Untouched(Arr(items), c.marker) && path !in c.contentPaths && path !in c.argsPaths
    requires forall i :: 0 <= i < |items| ==> WellFormed(items[i])
    ensures var w := WalkItems(c, items, acc, path, f);
      && (w.Threw? <==> exists i :: 0 <= i < |items|
                          && MisplacedItem(items[i], path, c.argsPaths, c.contentPaths, c.marker))
      && (w.Ran? ==>
            && w.result.Arr? && |w.result.items| == |acc| + |items| && w.result.items[..|acc|] == acc
            && forall i :: 0 <= i < |items| ==> Shown(items[i], w.result.items[|acc| + i], path, c.argsPaths))
    decreases items, 0
  {
    if items != [] {
      UntouchedItems(items, c.marker);
      assert items == [items[0]] + items[1..];
      UnhealedShown(c, items[0], path, f);
      UnhealedFlag(c, items[0], path, f);
      var r := Walk(c, items[0], path, f);
      if r.Ran? { UnhealedItemsShown(c, items[1..], acc + [r.result], path, f); }
    }
  }

  // Healed JSON

  /** s is d in front of the first occurrence of the mark, or all of it where there is none. */
  ghost predicate InFront(s: string, d: string, mark: string) {
    if exists i: nat :: OccursAt(d, mark, i) then
      s <= d && OccursAt(d, mark, |s|) && forall i: nat :: i < |s| ==> !OccursAt(d, mark, i)
    else s == d
  }

  /** The text of a healed argument: its dump in front of the dump marker, and nothing for a lone quote. */
  ghost predicate HealedText(s: string, d: string, mark: string) {
    (InFront(s, d, mark) && s != "\"") || (s == "" && InFront("\"", d, mark))
  }

  lemma CutIsInFront(d: string, mark: string)
    ensures InFront(CutAt(d, mark), d, mark)
  {
    var i := Find(d, mark, 0);
    if i.Some? { assert OccursAt(d, mark, i.value); }
  }

  /** The member is left out: its key holds the marker, or its string does and is no content healed inside it. */
  predicate LeftOut(x: Member, c: Context, path: Path) {
    || Has(x.key, c.marker)
    || (x.value.Str? && Has(x.value.s, c.marker)
        && !(path + [x.key] in c.contentPaths && c.rawMarker == c.dumpMarker))
  }

  /** r is healed j with arguments as text, content cut in front of the marker, and what else it is in left out. */
  ghost predicate HealedShown(j: Json, r: Json, c: Context, path: Path)
    decreases j, 1
  {
    if path in c.argsPaths then r.Str? && HealedText(r.s, Dump(j), c.dumpMarker)
    else if path in c.contentPaths then j.Str? && r.Str? && InFront(r.s, j.s, c.rawMarker)
    else
      match j
      case Obj(members) => r.Obj? && HealedMembers(members, r.members, c, path)
      case Arr(items) => r.Arr? && HealedItems(items, r.items, c, path)
      case _ => r == j
  }

  ghost predicate HealedMembers(members: seq<Member>, r: seq<Member>, c: Context, path: Path)
    decreases members, 0
  {
    if members == [] then r == []
    else if LeftOut(members[0], c, path) then HealedMembers(members[1..], r, c, path)
    else
      && r != [] && r[0].key == members[0].key && HealedMembers(members[1..], r[1..], c, path)
      && if members[0].value.Str? && !Has(members[0].value.s, c.marker) then r[0].value == members[0].value
         else HealedShown(members[0].value, r[0].value, c, path + [members[0].key])
  }

  ghost predicate HealedItems(items: seq<Json>, r: seq<Json>, c: Context, path: Path)
    decreases items, 0
  {
    if items == [] then r == []
    else if items[0].Str? && Has(items[0].s, c.marker) then HealedItems(items[1..], r, c, path)
    else r != [] && HealedShown(items[0], r[0], c, path) && HealedItems(items[1..], r[1..], c, path)
  }

  predicate Healing(c: Context) { c.isPartial && c.rawMarker != [] }

  lemma {:induction false} CleanShown(c: Context, j: Json, path: Path)
    requires Healing(c) && WellFormed(j)
    ensures var g := CleanAt(c, j, path);
      && (g.Refused? <==> Misplaced(j, path, c.argsPaths, c.contentPaths, c.marker))
      && (g.Good? ==> HealedShown(j, g.result, c, path))
    decreases j, 1
  {
    if path in c.argsPaths {
      CutIsInFront(Dump(j), c.dumpMarker);
    } else if path in c.contentPaths {
      if j.Str? { CutIsInFront(j.s, c.rawMarker); }
    } else {
      match j
      case Obj(members) =>
        WellMembers(members);
        CleanMembersShown(c, members, [], path, false);
      case Arr(items) => CleanItemsShown(c, items, [], path, false);
      case _ =>
    }
  }

  lemma {:induction false} CleanMembersShown(c: Context, members: seq<Member>, acc: seq<Member>, path: Path, g: bool)
    requires Healing(c) && Distinct(members) && Apart(acc, members)
    requires forall i :: 0 <= i < |members| ==> WellFormed(members[i].value)
    ensures var r := CleanMembers(c, members, acc, path, g);
      && (r.Refused? <==> MisplacedIn(members, path, c.argsPaths, c.contentPaths, c.marker))
      && (r.Good? ==> r.result.Obj? && Added(acc, r.result.members, members, c, path))
    decreases members, 1
  {
    if members != [] {
      var Member(k, v) := members[0];
      MisplacedCons(members, path, c.argsPaths, c.contentPaths, c.marker);
      if LeftOut(members[0], c, path) {
        ApartTail(acc, members);
        CleanMembersShown(c, members[1..], acc, path, true);
      } else if v.Str? && !Has(v.s, c.marker) {
        NextMember(c, members, acc, v, path, g);
      } else {
        CleanShown(c, v, path + [k]);
        var r := CleanAt(c, v, path + [k]);
        if r.Good? { NextMember(c, members, acc, r.result, path, g || v.Str? || r.found); }
      }
    }
  }

  /** What the pass from some members on adds to what it had. */
  ghost predicate Added(acc: seq<Member>, r: seq<Member>, members: seq<Member>, c: Context, path: Path) {
    acc <= r && HealedMembers(members, r[|acc|..], c, path)
  }

  lemma ApartTail(acc: seq<Member>, members: seq<Member>)
    requires members != [] && Distinct(members) && Apart(acc, members)
    ensures Distinct(members[1..]) && Apart(acc, members[1..])
  {
    assert forall i :: 0 <= i < |members| - 1 ==> members[1..][i] == members[i + 1];
  }

  /** The member is kept, with this value, and the pass goes on. */
  lemma {:induction false} NextMember(c: Context, members: seq<Member>, acc: seq<Member>, v: Json, path: Path, g: bool)
    requires Healing(c) && members != [] && Distinct(members) && Apart(acc, members)
    requires forall i :: 0 <= i < |members| ==> WellFormed(members[i].value)
    requires !LeftOut(members[0], c, path)
    requires if members[0].value.Str? && !Has(members[0].value.s, c.marker) then v == members[0].value
             else HealedShown(members[0].value, v, c, path + [members[0].key])
    ensures var r := CleanMembers(c, members[1..], Insert(acc, members[0].key, v), path, g);
      && (r.Refused? <==> MisplacedIn(members[1..], path, c.argsPaths, c.contentPaths, c.marker))
      && (r.Good? ==> r.result.Obj? && Added(acc, r.result.members, members, c, path))
    decreases members, 0
  {
    var x := Member(members[0].key, v);
    AppendApart(acc, members, v);
    CleanMembersShown(c, members[1..], acc + [x], path, g);
    var r := CleanMembers(c, members[1..], acc + [x], path, g);
    if r.Good? { MemberBehind(acc, x, r.result.members); }
  }

  lemma MemberBehind(acc: seq<Member>, x: Member, r: seq<Member>)
    requires acc + [x] <= r
    ensures acc <= r && r[|acc|..] != [] && r[|acc|..][0] == x && r[|acc|..][1..] == r[|acc + [x]|..]
  {
    assert r[|acc|] == r[..|acc| + 1][|acc|] == x && r[..|acc|] == r[..|acc| + 1][..|acc|];
  }

  lemma {:induction false} CleanItemsShown(c: Context, items: seq<Json>, acc: seq<Json>, path: Path, g: bool)
    requires Healing(c) && path !in c.contentPaths && path !in c.argsPaths
    requires forall i :: 0 <= i < |items| ==> WellFormed(items[i])
    ensures var r := CleanItems(c, items, acc, path, g);
      && (r.Refused? <==> MisplacedItems(items, path, c.argsPaths, c.contentPaths, c.marker))
      && (r.Good? ==> r.result.Arr? && acc <= r.result.items && HealedItems(items, r.result.items[|acc|..], c, path))
    decreases items, 0
  {
    if items != [] {
      MisplacedItemsCons(items, path, c.argsPaths, c.contentPaths, c.marker);
      if items[0].Str? && Has(items[0].s, c.marker) {
        CleanItemsShown(c, items[1..], acc, path, true);
      } else {
        CleanShown(c, items[0], path);
        var r := CleanAt(c, items[0], path);
        if r.Good? {
          CleanItemsShown(c, items[1..], acc + [r.result], path, g || r.found);
          var all := CleanItems(c, items, acc, path, g);
          if all.Good? { ItemBehind(acc, r.result, all.result.items); }
        }
      }
    }
  }

  lemma ItemBehind(acc: seq<Json>, x: Json, r: seq<Json>)
    requires acc + [x] <= r
    ensures acc <= r && r[|acc|..] != [] && r[|acc|..][0] == x && r[|acc|..][1..] == r[|acc + [x]|..]
  {
    assert r[|acc|] == r[..|acc| + 1][|acc|] == x && r[..|acc|] == r[..|acc| + 1][..|acc|];
  }

  predicate MisplacedItems(items: seq<Json>, path: Path, args: seq<Path>, contents: seq<Path>, m: string) {
    exists i :: 0 <= i < |items| && MisplacedItem(items[i], path, args, contents, m)
  }

  lemma MisplacedItemsCons(items: seq<Json>, path: Path, args: seq<Path>, contents: seq<Path>, m: string)
    requires items != []
    ensures MisplacedItems(items, path, args, contents, m) <==>
      MisplacedItem(items[0], path, args, contents, m) || MisplacedItems(items[1..], path, args, contents, m)
  {
    assert items == [items[0]] + items[1..];
    if MisplacedItems(items[1..], path, args, contents, m) {
      var i :| 0 <= i < |items| - 1 && MisplacedItem(items[1..][i], path, args, contents, m);
      assert items[1..][i] == items[i + 1];
    }
  }
}
