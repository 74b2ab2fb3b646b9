/** When the clean-up pass, which leaves its path behind where it breaks off, agrees with the pass that carries
    the path down. */
module ChatPaths {
  import opened Text
  import opened JsonText
  import opened JsonReader
  import opened JsonShape
  import opened JsonLocator
  import opened JsonPartial
  import opened JsonProbes
  import opened JsonHealing
  import opened JsonRoundTrip
  import opened JsonErrors
  import opened ChatCleanup
  import opened ChatCleanupResult
  import opened ChatDecoded
  import opened ChatHealing
  import opened ChatMarked

  predicate Others(members: seq<Member>, n: nat, m: string) {
    && n < |members|
    && forall i :: 0 <= i < |members| && i != n ==> !Has(members[i].key, m) && Free(members[i].value, m)
  }

  lemma OthersTail(members: seq<Member>, n: nat, m: string)
    requires Others(members, n, m)
    ensures n > 0 ==> !Has(members[0].key, m) && Free(members[0].value, m) && Others(members[1..], n - 1, m)
    ensures n == 0 ==> Free(Obj(members[1..]), m)
  {
    assert forall i :: 0 <= i < |members| - 1 ==> members[1..][i] == members[i + 1];
  }

  lemma FrontTail(items: seq<Json>, m: string)
    requires |items| > 1 && Free(Arr(items[..|items| - 1]), m)
    ensures Free(items[0], m) && Free(Arr(items[1..][..|items[1..]| - 1]), m)
  {
    var front := items[..|items| - 1];
    FreeItems(front, m);
    assert front[0] == items[0] && front[1..] == items[1..][..|items| - 2];
  }

  // Where the path is left as it was

  /** The marked place is an item or a key: breaking off there pushes nothing. */
  ghost predicate Level(j: Json, m: string)
    decreases j, 1
  {
    match j
    case Arr(items) => items != [] && Free(Arr(items[..|items| - 1]), m) && LevelItem(items[|items| - 1], m)
    case Obj(members) => exists n: nat :: LevelAt(members, n, m)
    case _ => false
  }

  ghost predicate LevelItem(j: Json, m: string)
    decreases j, 2
  {
    (j.Str? && Has(j.s, m)) || Level(j, m)
  }

  ghost predicate LevelAt(members: seq<Member>, n: nat, m: string)
    decreases members, 0
  {
    Others(members, n, m) && if Has(members[n].key, m) then n + 1 == |members| else Level(members[n].value, m)
  }

  lemma {:induction false} LevelWalk(c: Context, j: Json, path: Path, f: bool)
    requires Level(j, c.marker)
    ensures Agrees(Walk(c, j, path, f), CleanAt(c, j, path), f)
    ensures Walk(c, j, path, f).Ran? ==> Walk(c, j, path, f).path == path
    decreases j, 1
  {
    if path !in c.argsPaths && path !in c.contentPaths {
      match j
      case Obj(members) =>
        var n: nat :| LevelAt(members, n, c.marker);
        LevelMembers(c, members, n, [], path, f, false);
      case Arr(items) => LevelItems(c, items, [], path, f, false);
    }
  }

  lemma {:induction false} LevelMembers(c: Context, members: seq<Member>, n: nat, acc: seq<Member>, path: Path,
                                        f: bool, g: bool)
    requires LevelAt(members, n, c.marker) && (g ==> f)
    ensures var w := WalkMembers(c, members, acc, path, f);
      Agrees(w, CleanMembers(c, members, acc, path, g), f) && (w.Ran? ==> w.path == path)
    decreases members, 0
  {
    var Member(k, v) := members[0];
    OthersTail(members, n, c.marker);
    if n > 0 {
      if v.Str? {
        LevelMembers(c, members[1..], n - 1, Insert(acc, k, v), path, f, g);
      } else {
        FreeWalk(c, v, path + [k], f);
        var r, s := Walk(c, v, path + [k], f), CleanAt(c, v, path + [k]);
        if r.Ran? {
          assert Pop(path + [k]) == path;
          LevelMembers(c, members[1..], n - 1, Insert(acc, k, r.result), path, r.found, g || s.found);
        }
      }
    } else if !Has(k, c.marker) {
      LevelWalk(c, v, path + [k], f);
      var r, s := Walk(c, v, path + [k], f), CleanAt(c, v, path + [k]);
      if r.Ran? {
        assert Pop(path + [k]) == path;
        FreeWalkMembers(c, members[1..], Insert(acc, k, r.result), path, r.found, g || s.found);
      }
    } else {
      assert members[1..] == [];
    }
  }

  lemma {:induction false} LevelItems(c: Context, items: seq<Json>, acc: seq<Json>, path: Path, f: bool, g: bool)
    requires items != [] && Free(Arr(items[..|items| - 1]), c.marker) && LevelItem(items[|items| - 1], c.marker)
    requires g ==> f
    ensures var w := WalkItems(c, items, acc, path, f);
      Agrees(w, CleanItems(c, items, acc, path, g), f) && (w.Ran? ==> w.path == path)
    decreases items, 0
  {
    var v := items[0];
    if |items| > 1 {
      FrontTail(items, c.marker);
      FreeWalk(c, v, path, f);
      var r, s := Walk(c, v, path, f), CleanAt(c, v, path);
      if r.Ran? { LevelItems(c, items[1..], acc + [r.result], path, r.found, g || s.found); }
    } else {
      assert items[1..] == [];
      if !v.Str? {
        LevelWalk(c, v, path, f);
        var r, s := Walk(c, v, path, f), CleanAt(c, v, path);
        if r.Ran? {
          assert WalkItems(c, items, acc, path, f) == WalkItems(c, [], acc + [r.result], r.path, r.found);
          assert CleanItems(c, items, acc, path, g) == CleanItems(c, [], acc + [s.result], path, g || s.found);
        }
      }
    }
  }

  // Where a key is left on the path, and nothing minds

  /** The marked place is a member's string: breaking off there leaves its key on the path. It is the last
      member there, and only strings follow in the objects around it. */
  ghost predicate Ahead(j: Json, m: string)
    decreases j, 1
  {
    match j
    case Arr(items) => items != [] && Free(Arr(items[..|items| - 1]), m) && Ahead(items[|items| - 1], m)
    case Obj(members) => exists n: nat :: AheadAt(members, n, m)
    case _ => false
  }

  predicate AllStrings(members: seq<Member>) { forall i :: 0 <= i < |members| ==> members[i].value.Str? }

  ghost predicate AheadAt(members: seq<Member>, n: nat, m: string)
    decreases members, 0
  {
    && Others(members, n, m) && !Has(members[n].key, m)
    && var v := members[n].value;
       if v.Str? then Has(v.s, m) && n + 1 == |members| else Ahead(v, m) && AllStrings(members[n + 1..])
  }

  /** At most one key has been left on the path. */
  predicate LeftOn(path: Path, p: Path) { path <= p && |p| <= |path| + 1 }

  lemma {:induction false} StringsWalk(c: Context, members: seq<Member>, acc: seq<Member>, p: Path, path: Path,
                                       f: bool, g: bool)
    requires Free(Obj(members), c.marker) && AllStrings(members) && (g ==> f)
    ensures var w := WalkMembers(c, members, acc, p, f);
      Agrees(w, CleanMembers(c, members, acc, path, g), f) && (w.Ran? ==> w.path == p)
    decreases members
  {
    if members != [] {
      FreeParts(members, c.marker);
      StringsWalk(c, members[1..], Insert(acc, members[0].key, members[0].value), p, path, f, g);
    }
  }

  lemma {:induction false} AheadWalk(c: Context, j: Json, path: Path, f: bool)
    requires Ahead(j, c.marker)
    ensures Agrees(Walk(c, j, path, f), CleanAt(c, j, path), f)
    ensures Walk(c, j, path, f).Ran? ==> LeftOn(path, Walk(c, j, path, f).path)
    decreases j, 1
  {
    if path !in c.argsPaths && path !in c.contentPaths {
      match j
      case Obj(members) =>
        var n: nat :| AheadAt(members, n, c.marker);
        AheadMembers(c, members, n, [], path, f, false);
      case Arr(items) => AheadItems(c, items, [], path, f, false);
    }
  }

  lemma AheadTail(members: seq<Member>, n: nat, m: string)
    requires AheadAt(members, n, m) && n > 0
    ensures AheadAt(members[1..], n - 1, m)
  {
    OthersTail(members, n, m);
    assert members[1..][n..] == members[n + 1..];
  }

  lemma {:induction false} AheadMembers(c: Context, members: seq<Member>, n: nat, acc: seq<Member>, path: Path,
                                        f: bool, g: bool)
    requires AheadAt(members, n, c.marker) && (g ==> f)
    ensures var w := WalkMembers(c, members, acc, path, f);
      Agrees(w, CleanMembers(c, members, acc, path, g), f) && (w.Ran? ==> LeftOn(path, w.path))
    decreases members, 0
  {
    var Member(k, v) := members[0];
    OthersTail(members, n, c.marker);
    if n > 0 {
      AheadTail(members, n, c.marker);
      if v.Str? {
        AheadMembers(c, members[1..], n - 1, Insert(acc, k, v), path, f, g);
      } else {
        FreeWalk(c, v, path + [k], f);
        var r, s := Walk(c, v, path + [k], f), CleanAt(c, v, path + [k]);
        if r.Ran? {
          assert Pop(path + [k]) == path;
          AheadMembers(c, members[1..], n - 1, Insert(acc, k, r.result), path, r.found, g || s.found);
        }
      }
    } else if v.Str? {
      assert members == [members[0]];
      LastString(c, members[0], acc, path, f, g);
    } else {
      AheadWalk(c, v, path + [k], f);
      var r, s := Walk(c, v, path + [k], f), CleanAt(c, v, path + [k]);
      if r.Ran? {
        assert members[0 + 1..] == members[1..];
        PopLeft(path, k, r.path);
        StringsWalk(c, members[1..], Insert(acc, k, r.result), Pop(r.path), path, r.found, g || s.found);
      }
    }
  }

  lemma PopLeft(path: Path, k: string, p: Path)
    requires LeftOn(path + [k], p)
    ensures LeftOn(path, Pop(p))
  {
    assert p[..|path|] == (path + [k])[..|path|] == path;
  }

  lemma LastString(c: Context, m: Member, acc: seq<Member>, path: Path, f: bool, g: bool)
    requires !Has(m.key, c.marker) && m.value.Str? && Has(m.value.s, c.marker) && (g ==> f)
    ensures var w := WalkMembers(c, [m], acc, path, f);
      Agrees(w, CleanMembers(c, [m], acc, path, g), f) && (w.Ran? ==> LeftOn(path, w.path))
  {
    var Member(k, v) := m;
    assert [m][1..] == [];
    if path + [k] in c.contentPaths && c.rawMarker == c.dumpMarker {
      var r, s := Walk(c, v, path + [k], true), CleanAt(c, v, path + [k]);
      assert s.Good? && r == Ran(s.result, path + [k], true);
      assert CleanMembers(c, [m], acc, path, g) == CleanMembers(c, [], Insert(acc, k, s.result), path, true);
    } else {
      assert CleanMembers(c, [m], acc, path, g) == CleanMembers(c, [], acc, path, true);
    }
  }

  lemma {:induction false} AheadItems(c: Context, items: seq<Json>, acc: seq<Json>, path: Path, f: bool, g: bool)
    requires items != [] && Free(Arr(items[..|items| - 1]), c.marker) && Ahead(items[|items| - 1], c.marker)
    requires g ==> f
    ensures var w := WalkItems(c, items, acc, path, f);
      Agrees(w, CleanItems(c, items, acc, path, g), f) && (w.Ran? ==> LeftOn(path, w.path))
    decreases items, 0
  {
    var v := items[0];
    if |items| > 1 {
      FrontTail(items, c.marker);
      FreeWalk(c, v, path, f);
      var r, s := Walk(c, v, path, f), CleanAt(c, v, path);
      if r.Ran? { AheadItems(c, items[1..], acc + [r.result], path, r.found, g || s.found); }
    } else {
      assert items[1..] == [];
      AheadWalk(c, v, path, f);
      var r, s := Walk(c, v, path, f), CleanAt(c, v, path);
      if r.Ran? {
        assert WalkItems(c, items, acc, path, f) == WalkItems(c, [], acc + [r.result], r.path, r.found);
        assert CleanItems(c, items, acc, path, g) == CleanItems(c, [], acc + [s.result], path, g || s.found);
      }
    }
  }

  // What the passes give when nothing is content

  /** Without content paths nothing is refused. */
  lemma {:induction false} RunsThrough(c: Context, j: Json, path: Path, f: bool)
    requires c.contentPaths == []
    ensures Walk(c, j, path, f).Ran? && CleanAt(c, j, path).Good?
    ensures path !in c.argsPaths && !j.Str? ==> !Walk(c, j, path, f).result.Str? && !CleanAt(c, j, path).result.Str?
    decreases j, 1
  {
    if path !in c.argsPaths {
      match j
      case Obj(members) => MembersRunThrough(c, members, [], path, f, false);
      case Arr(items) => ItemsRunThrough(c, items, [], path, f, false);
      case _ =>
    }
  }

  lemma {:induction false} MembersRunThrough(c: Context, members: seq<Member>, acc: seq<Member>, path: Path,
                                             f: bool, g: bool)
    requires c.contentPaths == []
    ensures var w := WalkMembers(c, members, acc, path, f); w.Ran? && w.result.Obj?
    ensures var s := CleanMembers(c, members, acc, path, g); s.Good? && s.result.Obj?
    decreases members, 0
  {
    if members != [] {
      var Member(k, v) := members[0];
      RunsThrough(c, v, path + [k], f);
      var r, s := Walk(c, v, path + [k], f), CleanAt(c, v, path + [k]);
      var touched := v.Str? && Has(v.s, c.marker);
      var next := if v.Str? then v else r.result;
      MembersRunThrough(c, members[1..], Insert(acc, k, next), if v.Str? then path else Pop(r.path),
                        if v.Str? then f else r.found, g);
      MembersRunThrough(c, members[1..], acc, path, f, true);
      MembersRunThrough(c, members[1..], Insert(acc, k, if v.Str? && !touched then v else s.result), path, f,
                        if v.Str? && !touched then g else g || touched || s.found);
    }
  }

  lemma {:induction false} ItemsRunThrough(c: Context, items: seq<Json>, acc: seq<Json>, path: Path, f: bool, g: bool)
    requires c.contentPaths == []
    ensures var w := WalkItems(c, items, acc, path, f); w.Ran? && w.result.Arr?
    ensures var s := CleanItems(c, items, acc, path, g); s.Good? && s.result.Arr?
    decreases items, 0
  {
    if items != [] {
      RunsThrough(c, items[0], path, f);
      var r, s := Walk(c, items[0], path, f), CleanAt(c, items[0], path);
      ItemsRunThrough(c, items[1..], acc + [r.result], r.path, r.found, g);
      ItemsRunThrough(c, items[1..], acc, path, f, true);
      ItemsRunThrough(c, items[1..], acc + [s.result], path, f, g || s.found);
    }
  }

  predicate Distinct(members: seq<Member>) {
    forall i, j :: 0 <= i < j < |members| ==> members[i].key != members[j].key
  }

  /** No key of one list is in the other. */
  predicate Apart(acc: seq<Member>, members: seq<Member>) {
    forall i, j :: 0 <= i < |acc| && 0 <= j < |members| ==> acc[i].key != members[j].key
  }

  lemma AppendApart(acc: seq<Member>, members: seq<Member>, v: Json)
    requires members != [] && Distinct(members) && Apart(acc, members)
    ensures Distinct(members[1..])
    ensures var k := members[0].key;
      Insert(acc, k, v) == acc + [Member(k, v)] && Apart(acc + [Member(k, v)], members[1..])
  {
    assert !HasKey(acc, members[0].key);
    InsertFresh(acc, members[0].key, v);
    assert forall j :: 0 <= j < |members| - 1 ==> members[1..][j] == members[j + 1];
  }

  /** Both passes take the members in front of the marked one in the same way. */
  lemma {:induction false} FrontSkips(c: Context, members: seq<Member>, n: nat, acc: seq<Member>, path: Path,
                                      f: bool, g: bool)
    returns (acc': seq<Member>, f': bool, g': bool)
    requires c.contentPaths == [] && n <= |members| && Distinct(members) && Apart(acc, members)
    requires forall i :: 0 <= i < n ==> !Has(members[i].key, c.marker) && Free(members[i].value, c.marker)
    ensures |acc'| == |acc| + n && Apart(acc', members[n..]) && Distinct(members[n..])
    ensures WalkMembers(c, members, acc, path, f) == WalkMembers(c, members[n..], acc', path, f')
    ensures CleanMembers(c, members, acc, path, g) == CleanMembers(c, members[n..], acc', path, g')
    decreases n
  {
    if n == 0 {
      acc', f', g' := acc, f, g;
      assert members[0..] == members;
    } else {
      var next, f1, g1 := FirstSkips(c, members, acc, path, f, g);
      AppendApart(acc, members, next);
      assert forall i :: 0 <= i < n - 1 ==> members[1..][i] == members[i + 1];
      acc', f', g' := FrontSkips(c, members[1..], n - 1, acc + [Member(members[0].key, next)], path, f1, g1);
      assert members[1..][n - 1..] == members[n..];
    }
  }

  lemma FirstSkips(c: Context, members: seq<Member>, acc: seq<Member>, path: Path, f: bool, g: bool)
    returns (next: Json, f': bool, g': bool)
    requires c.contentPaths == [] && members != []
    requires !Has(members[0].key, c.marker) && Free(members[0].value, c.marker)
    ensures var rest := Insert(acc, members[0].key, next);
      && WalkMembers(c, members, acc, path, f) == WalkMembers(c, members[1..], rest, path, f')
      && CleanMembers(c, members, acc, path, g) == CleanMembers(c, members[1..], rest, path, g')
  {
    var Member(k, v) := members[0];
    next, f', g' := v, f, g;
    if !v.Str? {
      FreeWalk(c, v, path + [k], f);
      RunsThrough(c, v, path + [k], f);
      var r, s := Walk(c, v, path + [k], f), CleanAt(c, v, path + [k]);
      assert Pop(path + [k]) == path;
      next, f', g' := r.result, r.found, g || s.found;
    }
  }

  /** What becomes of a member's value. */
  function CleanValue(c: Context, v: Json, path: Path): Json {
    if v.Str? then v else match CleanAt(c, v, path) case Good(r, _) => r case Refused => Null
  }

  /** Members free of the marker keep their places. */
  lemma {:induction false} CleanMemberAt(c: Context, members: seq<Member>, acc: seq<Member>, path: Path, g: bool,
                                         i: nat)
    requires c.contentPaths == [] && Free(Obj(members), c.marker) && Distinct(members) && Apart(acc, members)
    requires i < |acc| + |members|
    ensures var r := CleanMembers(c, members, acc, path, g);
      && r.Good? && r.result.Obj? && |r.result.members| == |acc| + |members|
      && r.result.members[i] ==
           if i < |acc| then acc[i]
           else Member(members[i - |acc|].key,
                       CleanValue(c, members[i - |acc|].value, path + [members[i - |acc|].key]))
    decreases members
  {
    if members != [] {
      var Member(k, v) := members[0];
      FreeParts(members, c.marker);
      RunsThrough(c, v, path + [k], false);
      var next := CleanValue(c, v, path + [k]);
      AppendApart(acc, members, next);
      var g' := if v.Str? then g else g || CleanAt(c, v, path + [k]).found;
      assert CleanMembers(c, members, acc, path, g)
          == CleanMembers(c, members[1..], acc + [Member(k, next)], path, g');
      if |members| > 1 || i < |acc| + 1 {
        if members[1..] != [] || i < |acc| + 1 {
          CleanMemberAt(c, members[1..], acc + [Member(k, next)], path, g', i);
        }
      }
    }
  }

  lemma {:induction false} ItemsSkip(c: Context, items: seq<Json>, acc: seq<Json>, path: Path, f: bool, g: bool)
    returns (acc': seq<Json>, f': bool, g': bool)
    requires c.contentPaths == [] && items != [] && Free(Arr(items[..|items| - 1]), c.marker)
    ensures var last := [items[|items| - 1]];
      && WalkItems(c, items, acc, path, f) == WalkItems(c, last, acc', path, f')
      && CleanItems(c, items, acc, path, g) == CleanItems(c, last, acc', path, g')
    decreases items
  {
    if |items| == 1 {
      acc', f', g' := acc, f, g;
      assert items == [items[0]];
    } else {
      FrontTail(items, c.marker);
      FreeWalk(c, items[0], path, f);
      RunsThrough(c, items[0], path, f);
      var r, s := Walk(c, items[0], path, f), CleanAt(c, items[0], path);
      acc', f', g' := ItemsSkip(c, items[1..], acc + [r.result], path, r.found, g || s.found);
    }
  }

  /** The last item, a container with the marker in it. */
  lemma LastItem(c: Context, items: seq<Json>, path: Path, f: bool) returns (f': bool)
    requires c.contentPaths == [] && items != [] && Free(Arr(items[..|items| - 1]), c.marker)
    requires !items[|items| - 1].Str?
    ensures var v := items[|items| - 1];
      var r, s := Walk(c, v, path, f'), CleanAt(c, v, path);
      var w, g := WalkItems(c, items, [], path, f), CleanItems(c, items, [], path, false);
      && r.Ran? && s.Good? && w.Ran? && g.Good? && w.path == r.path
      && (r.result != s.result ==> w.result != g.result)
  {
    var v := items[|items| - 1];
    var acc', f1, g' := ItemsSkip(c, items, [], path, f, false);
    f' := f1;
    RunsThrough(c, v, path, f');
    ItemsRunThrough(c, items, [], path, f, false);
    var r, s := Walk(c, v, path, f'), CleanAt(c, v, path);
    assert [v][1..] == [];
    assert WalkItems(c, [v], acc', path, f') == WalkItems(c, [], acc' + [r.result], r.path, r.found);
    assert CleanItems(c, [v], acc', path, g') == CleanItems(c, [], acc' + [s.result], path, g' || s.found);
    assert (acc' + [r.result])[|acc'|] == r.result && (acc' + [s.result])[|acc'|] == s.result;
  }

  // Where members are dropped

  ghost predicate Differ(w: Pass, g: Clean) { w.Ran? && g.Good? && w.result != g.result }

  /** A marked member whose value comes out differently. */
  lemma DifferAfter(c: Context, members: seq<Member>, acc: seq<Member>, path: Path, f: bool, g: bool)
    requires c.contentPaths == [] && members != [] && Distinct(members) && Apart(acc, members)
    requires !Has(members[0].key, c.marker) && !members[0].value.Str? && Free(Obj(members[1..]), c.marker)
    requires var Member(k, v) := members[0]; Differ(Walk(c, v, path + [k], f), CleanAt(c, v, path + [k]))
    ensures Differ(WalkMembers(c, members, acc, path, f), CleanMembers(c, members, acc, path, g))
  {
    var Member(k, v) := members[0];
    var r, s := Walk(c, v, path + [k], f), CleanAt(c, v, path + [k]);
    var rest := members[1..];
    AppendApart(acc, members, r.result);
    AppendApart(acc, members, s.result);
    FreeWalkMembers(c, rest, acc + [Member(k, r.result)], Pop(r.path), r.found, false);
    CleanMemberAt(c, rest, acc + [Member(k, r.result)], Pop(r.path), false, |acc|);
    CleanMemberAt(c, rest, acc + [Member(k, s.result)], path, g || s.found, |acc|);
  }

  /** The marked place is a member's string with members behind it. */
  ghost predicate Drops(j: Json, m: string)
    decreases j, 1
  {
    match j
    case Arr(items) => items != [] && Free(Arr(items[..|items| - 1]), m) && Drops(items[|items| - 1], m)
    case Obj(members) => exists n: nat :: DropsAt(members, n, m)
    case _ => false
  }

  ghost predicate DropsAt(members: seq<Member>, n: nat, m: string)
    decreases members, 0
  {
    && Distinct(members) && Others(members, n, m) && !Has(members[n].key, m)
    && var v := members[n].value; if v.Str? then Has(v.s, m) && n + 1 < |members| else Drops(v, m)
  }

  lemma Rest(members: seq<Member>, n: nat, m: string)
    requires Others(members, n, m)
    ensures members[n..][0] == members[n] && members[n..][1..] == members[n + 1..] && Free(Obj(members[n + 1..]), m)
  {
    var rest := members[n + 1..];
    forall i | 0 <= i < |rest| ensures !Has(rest[i].key, m) && Free(rest[i].value, m) {
      assert rest[i] == members[n + 1 + i];
    }
  }

  /** Without any paths the passes then differ. */
  lemma {:induction false} DropsWalk(c: Context, j: Json, path: Path, f: bool)
    requires c.argsPaths == [] && c.contentPaths == [] && Drops(j, c.marker)
    ensures Differ(Walk(c, j, path, f), CleanAt(c, j, path))
    decreases j, 1
  {
    RunsThrough(c, j, path, f);
    match j
    case Arr(items) =>
      var v := items[|items| - 1];
      var f' := LastItem(c, items, path, f);
      DropsWalk(c, v, path, f');
    case Obj(members) =>
      var n: nat :| DropsAt(members, n, c.marker);
      DropsMembers(c, members, n, path, f);
  }

  lemma {:induction false} DropsMembers(c: Context, members: seq<Member>, n: nat, path: Path, f: bool)
    requires c.argsPaths == [] && c.contentPaths == [] && DropsAt(members, n, c.marker)
    ensures Differ(WalkMembers(c, members, [], path, f), CleanMembers(c, members, [], path, false))
    decreases members, 0
  {
    var acc, f', g' := FrontSkips(c, members, n, [], path, f, false);
    Rest(members, n, c.marker);
    var here := members[n..];
    var Member(k, v) := members[n];
    if v.Str? {
      AppendApart(acc, here, v);
      assert Apart(acc, here[1..]);
      CleanMemberAt(c, here[1..], acc, path, true, 0);
    } else {
      DropsWalk(c, v, path + [k], f');
      DifferAfter(c, here, acc, path, f', g');
    }
  }

  // Where a key left on the path misleads

  /** The marked place is a member's string, whatever follows. */
  ghost predicate Pushes(j: Json, m: string)
    decreases j, 1
  {
    match j
    case Arr(items) => items != [] && Free(Arr(items[..|items| - 1]), m) && Pushes(items[|items| - 1], m)
    case Obj(members) => exists n: nat :: PushesAt(members, n, m)
    case _ => false
  }

  ghost predicate PushesAt(members: seq<Member>, n: nat, m: string)
    decreases members, 0
  {
    && Distinct(members) && Others(members, n, m) && !Has(members[n].key, m)
    && var v := members[n].value; if v.Str? then Has(v.s, m) else Pushes(v, m)
  }

  /** No argument path goes through a place. */
  predicate NoneUnder(c: Context, path: Path) { forall i :: 0 <= i < |c.argsPaths| ==> !(path <= c.argsPaths[i]) }

  lemma KeyTaken(path: Path, k: string, q: Path)
    ensures path + [k] <= q ==> path <= q
  {
    if path + [k] <= q { assert path == (path + [k])[..|path|] == q[..|path|]; }
  }

  lemma NoneUnderKey(c: Context, path: Path, k: string)
    requires NoneUnder(c, path)
    ensures NoneUnder(c, path + [k]) && path !in c.argsPaths
  {
    forall i | 0 <= i < |c.argsPaths| ensures !(path + [k] <= c.argsPaths[i]) {
      KeyTaken(path, k, c.argsPaths[i]);
    }
  }

  /** Then the pass leaves exactly one key on the path. */
  lemma {:induction false} PushesWalk(c: Context, j: Json, path: Path, f: bool)
    requires c.contentPaths == [] && NoneUnder(c, path) && Pushes(j, c.marker)
    ensures var w := Walk(c, j, path, f); w.Ran? && path <= w.path && |w.path| == |path| + 1
    decreases j, 1
  {
    NoneUnderKey(c, path, "");
    RunsThrough(c, j, path, f);
    match j
    case Arr(items) =>
      var v := items[|items| - 1];
      var f' := LastItem(c, items, path, f);
      PushesWalk(c, v, path, f');
    case Obj(members) =>
      var n: nat :| PushesAt(members, n, c.marker);
      PushesMembers(c, members, n, path, f);
  }

  lemma {:induction false} PushesMembers(c: Context, members: seq<Member>, n: nat, path: Path, f: bool)
    requires c.contentPaths == [] && NoneUnder(c, path) && PushesAt(members, n, c.marker)
    ensures var w := WalkMembers(c, members, [], path, f); w.Ran? && path <= w.path && |w.path| == |path| + 1
    decreases members, 0
  {
    var acc, f', g' := FrontSkips(c, members, n, [], path, f, false);
    Rest(members, n, c.marker);
    var Member(k, v) := members[n];
    if !v.Str? {
      NoneUnderKey(c, path, k);
      PushesWalk(c, v, path + [k], f');
      var r := Walk(c, v, path + [k], f');
      PopOne(path, k, r.path);
      FreeWalkMembers(c, members[n + 1..], Insert(acc, k, r.result), path + [k], r.found, false);
      MembersRunThrough(c, members[n + 1..], Insert(acc, k, r.result), path + [k], r.found, false);
    }
  }

  lemma PopOne(path: Path, k: string, p: Path)
    requires path + [k] <= p && |p| == |path + [k]| + 1
    ensures Pop(p) == path + [k]
  {
  }

  /** Behind a place that leaves a key on the path, a later member's value is no string. */
  ghost predicate Strays(j: Json, m: string, path: Path, target: Path)
    decreases j, 1
  {
    match j
    case Arr(items) => items != [] && Free(Arr(items[..|items| - 1]), m) && Strays(items[|items| - 1], m, path, target)
    case Obj(members) => exists n: nat :: StraysAt(members, n, m, path, target)
    case _ => false
  }

  ghost predicate StraysAt(members: seq<Member>, n: nat, m: string, path: Path, target: Path)
    decreases members, 0
  {
    && Distinct(members) && Others(members, n, m) && !Has(members[n].key, m) && !members[n].value.Str?
    && (Strays(members[n].value, m, path + [members[n].key], target)
        || (Pushes(members[n].value, m) && exists q: nat :: StrayTo(members, n, q, path, target)))
  }

  predicate StrayTo(members: seq<Member>, n: nat, q: nat, path: Path, target: Path) {
    n < q < |members| && !members[q].value.Str? && target == path + [members[q].key]
  }

  /** With that member's path as the one argument path the passes differ. */
  lemma {:induction false} StraysWalk(c: Context, j: Json, path: Path, f: bool, target: Path)
    requires c.argsPaths == [target] && c.contentPaths == [] && Strays(j, c.marker, path, target)
    ensures path < target && Differ(Walk(c, j, path, f), CleanAt(c, j, path))
    decreases j, 1
  {
    RunsThrough(c, j, path, f);
    match j
    case Arr(items) =>
      var v := items[|items| - 1];
      var f' := LastItem(c, items, path, f);
      StraysWalk(c, v, path, f', target);
    case Obj(members) =>
      var n: nat :| StraysAt(members, n, c.marker, path, target);
      StraysMembers(c, members, n, path, f, target);
  }

  lemma {:induction false} StraysMembers(c: Context, members: seq<Member>, n: nat, path: Path, f: bool, target: Path)
    requires c.argsPaths == [target] && c.contentPaths == [] && StraysAt(members, n, c.marker, path, target)
    ensures path < target && Differ(WalkMembers(c, members, [], path, f), CleanMembers(c, members, [], path, false))
    decreases members, 0
  {
    var acc, f', g' := FrontSkips(c, members, n, [], path, f, false);
    Rest(members, n, c.marker);
    var Member(k, v) := members[n];
    if Strays(v, c.marker, path + [k], target) {
      StraysWalk(c, v, path + [k], f', target);
      DifferAfter(c, members[n..], acc, path, f', g');
    } else {
      var q: nat :| StrayTo(members, n, q, path, target);
      assert members[n..][q - n] == members[q];
      StrayHere(c, members[n..], q - n, acc, path, f', g', target);
    }
  }

  lemma StrayHere(c: Context, members: seq<Member>, q: nat, acc: seq<Member>, path: Path, f: bool, g: bool,
                  target: Path)
    requires c.argsPaths == [target] && c.contentPaths == [] && StrayTo(members, 0, q, path, target)
    requires Distinct(members) && Apart(acc, members) && !Has(members[0].key, c.marker) && !members[0].value.Str?
    requires Free(Obj(members[1..]), c.marker) && Pushes(members[0].value, c.marker)
    ensures Differ(WalkMembers(c, members, acc, path, f), CleanMembers(c, members, acc, path, g))
  {
    var Member(k, v) := members[0];
    OtherKey(path, k, members[q].key);
    PushesWalk(c, v, path + [k], f);
    RunsThrough(c, v, path + [k], f);
    var r, s := Walk(c, v, path + [k], f), CleanAt(c, v, path + [k]);
    PopOne(path, k, r.path);
    AppendApart(acc, members, r.result);
    AppendApart(acc, members, s.result);
    assert members[1..][q - 1] == members[q];
    StrayBehind(c, members[1..], q - 1, acc + [Member(k, r.result)], acc + [Member(k, s.result)], path, k, r.found,
                g || s.found);
  }

  /** The members behind, one of them at the argument path, taken with a key too many on the path. */
  lemma StrayBehind(c: Context, rest: seq<Member>, q: nat, acc: seq<Member>, acc2: seq<Member>, path: Path, k: string,
                    f: bool, g: bool)
    requires q < |rest| && c.argsPaths == [path + [rest[q].key]] && c.contentPaths == [] && !rest[q].value.Str?
    requires Free(Obj(rest), c.marker) && Distinct(rest) && Apart(acc, rest) && Apart(acc2, rest) && |acc| == |acc2|
    ensures Differ(WalkMembers(c, rest, acc, path + [k], f), CleanMembers(c, rest, acc2, path, g))
  {
    WalkMemberAt(c, rest, q, acc, path + [k], f);
    CleanMemberAt(c, rest, acc2, path, g, |acc| + q);
    StrayValues(c, rest[q].value, path, k, rest[q].key);
  }

  lemma WalkMemberAt(c: Context, rest: seq<Member>, q: nat, acc: seq<Member>, p: Path, f: bool)
    requires q < |rest| && c.contentPaths == [] && Free(Obj(rest), c.marker) && Distinct(rest) && Apart(acc, rest)
    ensures var w := WalkMembers(c, rest, acc, p, f);
      && w.Ran? && w.result.Obj? && |w.result.members| > |acc| + q
      && w.result.members[|acc| + q] == Member(rest[q].key, CleanValue(c, rest[q].value, p + [rest[q].key]))
  {
    FreeWalkMembers(c, rest, acc, p, f, false);
    CleanMemberAt(c, rest, acc, p, false, |acc| + q);
  }

  /** The value becomes argument text at its path, and stays a container, a number or a literal elsewhere. */
  lemma StrayValues(c: Context, v: Json, path: Path, k: string, key: string)
    requires c.argsPaths == [path + [key]] && c.contentPaths == [] && !v.Str?
    ensures CleanValue(c, v, path + [k] + [key]) != CleanValue(c, v, path + [key])
  {
    RunsThrough(c, v, path + [k] + [key], false);
    assert |path + [k] + [key]| != |path + [key]|;
    assert c.argsPaths[0] == path + [key];
  }

  lemma OtherKey(path: Path, k: string, key: string)
    requires k != key
    ensures !(path + [k] <= path + [key])
  {
    assert (path + [k])[|path|] != (path + [key])[|path|];
  }

  // In the containers that healing left open

  /** No open object has a key twice. */
  predicate DistinctStack(stack: Stack) {
    stack.Push? ==> DistinctStack(stack.below) && (stack.top.ObjFrame? ==> Distinct(stack.top.members))
  }

  lemma InsertDistinct(members: seq<Member>, k: string, v: Json)
    requires Distinct(members)
    ensures Distinct(Insert(members, k, v))
  {
    InsertPlaced(members, k, v);
    var n, rest := Place(members, k), Behind(members, k);
    var all := Insert(members, k, v);
    assert forall i :: 0 <= i < |all| && i != n ==> i < |members| && all[i] == members[i];
    PlaceIs(members, k);
  }

  lemma {:induction false} PlaceIs(members: seq<Member>, k: string)
    ensures var n := Place(members, k); n < |members| ==> members[n].key == k
  {
    if members != [] && members[0].key != k { PlaceIs(members[1..], k); }
  }

  lemma CompleteDistinct(stack: Stack, v: Json)
    requires DistinctStack(stack)
    ensures DistinctStack(Complete(stack, v).stack)
  {
    match stack
    case Push(ObjFrame(members, Some(k)), below) => InsertDistinct(members, k, v);
    case _ =>
  }

  lemma AfterDistinct(stack: Stack, c: char)
    requires DistinctStack(stack)
    ensures DistinctStack(AfterValue(stack, c).stack)
  {
    match stack
    case Push(ArrFrame(items), below) => CompleteDistinct(below, Arr(items));
    case Push(ObjFrame(members, _), below) => CompleteDistinct(below, Obj(members));
    case _ =>
  }

  lemma AdvanceDistinct(s: State, c: char)
    requires DistinctStack(s.stack)
    ensures DistinctStack(Advance(s, c).stack)
  {
    match s.mode
    case InString(_, x) => CompleteDistinct(s.stack, Str(x));
    case InLiteral(lit, _) => CompleteDistinct(s.stack, LiteralValue(lit));
    case _ => AfterDistinct(s.stack, c);
  }

  lemma StepDistinct(s: State, c: char)
    requires DistinctStack(s.stack)
    ensures DistinctStack(Step(s, c).stack)
  {
    if s.mode.InNumber? { CompleteDistinct(s.stack, Num(s.mode.digits)); }
    AdvanceDistinct(Finish(s), c);
  }

  lemma {:induction false} RunDistinct(s: State, t: string)
    requires DistinctStack(s.stack)
    ensures DistinctStack(Run(s, t).stack)
    decreases |t|
  {
    if t != [] {
      StepDistinct(s, t[0]);
      RunDistinct(Step(s, t[0]), t[1..]);
    }
  }

  /** A value put in an open container is the one place that may be marked. */
  lemma WrapPlaced(f: Frame, below: Stack, v: Json, m: string) returns (n: nat)
    requires ClearStack(Push(f, below), m) && DigitMarker(m) && (f.ObjFrame? ==> f.pending.Some?)
    ensures f.ArrFrame? ==> Wrap(f, v) == Arr(f.items + [v]) && Free(Arr((f.items + [v])[..|f.items|]), m)
    ensures f.ObjFrame? ==>
      var all, k := Insert(f.members, f.pending.value, v), f.pending.value;
      && Wrap(f, v) == Obj(all) && Others(all, n, m) && all[n] == Member(k, v) && all[n + 1..] == Behind(f.members, k)
      && !Has(k, m) && (Distinct(f.members) ==> Distinct(all))
  {
    match f
    case ArrFrame(items) =>
      n := |items|;
      assert (items + [v])[..|items|] == items;
      ClearIsFree(Arr(items), m);
    case ObjFrame(members, Some(k)) =>
      n := Place(members, k);
      InsertPlaced(members, k, v);
      ClearIsFree(Obj(members), m);
      OthersPlaced(members, n, Member(k, v), Behind(members, k), m);
      if Distinct(members) { InsertDistinct(members, k, v); }
      if Has(k, m) { HeldShows(k, m); }
  }

  lemma OthersPlaced(members: seq<Member>, n: nat, put: Member, rest: seq<Member>, m: string)
    requires Free(Obj(members), m) && n <= |members| && forall i :: 0 <= i < |rest| ==> rest[i] in members
    ensures var all := members[..n] + [put] + rest; Others(all, n, m) && all[n] == put && all[n + 1..] == rest
  {
    var all := members[..n] + [put] + rest;
    forall i | 0 <= i < |all| && i != n ensures !Has(all[i].key, m) && Free(all[i].value, m) {
      if i < n { assert all[i] == members[i]; } else { assert all[i] == rest[i - n - 1]; }
    }
  }

  lemma {:induction false} PlugLevel(stack: Stack, v: Json, m: string)
    requires Awaiting(stack) && ClearStack(stack, m) && DigitMarker(m) && Level(v, m)
    ensures Level(Plug(stack, v), m)
    decreases stack
  {
    if stack.Push? {
      var n := WrapPlaced(stack.top, stack.below, v, m);
      PlugPush(stack.top, stack.below, v);
      if stack.top.ObjFrame? { assert LevelAt(Insert(stack.top.members, stack.top.pending.value, v), n, m); }
      PlugLevel(stack.below, Wrap(stack.top, v), m);
    }
  }

  /** In every open object only strings are behind the place of the pending key. */
  predicate StringsBehind(stack: Stack) {
    stack.Push? ==> StringsBehind(stack.below) && StringsAfter(stack.top)
  }

  predicate StringsAfter(f: Frame) {
    f.ObjFrame? && f.pending.Some? ==> AllStrings(Behind(f.members, f.pending.value))
  }

  lemma {:induction false} PlugAhead(stack: Stack, v: Json, m: string)
    requires Awaiting(stack) && ClearStack(stack, m) && DigitMarker(m) && Ahead(v, m) && StringsBehind(stack)
    ensures Ahead(Plug(stack, v), m)
    decreases stack
  {
    if stack.Push? {
      var n := WrapPlaced(stack.top, stack.below, v, m);
      PlugPush(stack.top, stack.below, v);
      if stack.top.ObjFrame? { assert AheadAt(Insert(stack.top.members, stack.top.pending.value, v), n, m); }
      PlugAhead(stack.below, Wrap(stack.top, v), m);
    }
  }

  lemma {:induction false} PlugDrops(stack: Stack, v: Json, m: string)
    requires Awaiting(stack) && ClearStack(stack, m) && DigitMarker(m) && Drops(v, m) && DistinctStack(stack)
    ensures Drops(Plug(stack, v), m)
    decreases stack
  {
    if stack.Push? {
      var n := WrapPlaced(stack.top, stack.below, v, m);
      PlugPush(stack.top, stack.below, v);
      if stack.top.ObjFrame? { assert DropsAt(Insert(stack.top.members, stack.top.pending.value, v), n, m); }
      PlugDrops(stack.below, Wrap(stack.top, v), m);
    }
  }

  /** The pending keys, outermost first. */
  function PathOf(stack: Stack): Path {
    match stack
    case Bottom => []
    case Push(ObjFrame(_, Some(k)), below) => PathOf(below) + [k]
    case Push(_, below) => PathOf(below)
  }

  lemma {:induction false} PlugStrays(stack: Stack, v: Json, m: string, target: Path)
    requires Awaiting(stack) && ClearStack(stack, m) && DigitMarker(m) && DistinctStack(stack)
    requires Strays(v, m, PathOf(stack), target)
    ensures Strays(Plug(stack, v), m, [], target)
    decreases stack
  {
    if stack.Push? {
      var n := WrapPlaced(stack.top, stack.below, v, m);
      PlugPush(stack.top, stack.below, v);
      if stack.top.ObjFrame? {
        assert StraysAt(Insert(stack.top.members, stack.top.pending.value, v), n, m, PathOf(stack.below), target);
      }
      PlugStrays(stack.below, Wrap(stack.top, v), m, target);
    }
  }

  /** A member behind the pending key's place is no string: its path leads the pass astray. */
  lemma StrayTop(f: Frame, below: Stack, v: Json, m: string, q: nat)
    requires Awaiting(Push(f, below)) && ClearStack(Push(f, below), m) && DigitMarker(m) && Pushes(v, m)
    requires f.ObjFrame? && Distinct(f.members)
    requires q < |Behind(f.members, f.pending.value)| && !Behind(f.members, f.pending.value)[q].value.Str?
    ensures Strays(Wrap(f, v), m, PathOf(below), PathOf(below) + [Behind(f.members, f.pending.value)[q].key])
  {
    var n := WrapPlaced(f, below, v, m);
    var all, rest := Insert(f.members, f.pending.value, v), Behind(f.members, f.pending.value);
    var target := PathOf(below) + [rest[q].key];
    assert all[n + 1..][q] == all[n + 1 + q];
    assert StrayTo(all, n, n + 1 + q, PathOf(below), target);
    assert StraysAt(all, n, m, PathOf(below), target);
  }

  lemma {:induction false} StrayFound(stack: Stack, v: Json, m: string) returns (target: Path)
    requires Awaiting(stack) && ClearStack(stack, m) && DigitMarker(m) && DistinctStack(stack)
    requires Pushes(v, m) && !StringsBehind(stack)
    ensures Strays(Plug(stack, v), m, [], target)
    decreases stack
  {
    var f, below := stack.top, stack.below;
    PlugPush(f, below, v);
    if StringsAfter(f) {
      var n := WrapPlaced(f, below, v, m);
      if f.ObjFrame? { assert PushesAt(Insert(f.members, f.pending.value, v), n, m); }
      target := StrayFound(below, Wrap(f, v), m);
    } else {
      var rest := Behind(f.members, f.pending.value);
      var q: nat :| q < |rest| && !rest[q].value.Str?;
      StrayTop(f, below, v, m, q);
      target := PathOf(below) + [rest[q].key];
      PlugStrays(below, Wrap(f, v), m, target);
    }
  }

  // For every text that heals

  /** The innermost open container is an array or waits for a key, or its pending key has its place at the end
      and in the objects around only strings are behind the place of the pending key. */
  predicate PathsKept(stack: Stack) {
    stack.Push? && (stack.top.ArrFrame? || stack.top.pending.None?
                    || (Behind(stack.top.members, stack.top.pending.value) == [] && StringsBehind(stack.below)))
  }

  /** The two passes give the same for these paths. */
  predicate PassesAgree(r: Outcome, m: string, args: seq<Path>, contents: seq<Path>)
    requires r.Healed?
  {
    var c := Context(m, true, m, r.dumpMarker, args, contents);
    Agrees(Walk(c, r.json, [], false), CleanAt(c, r.json, []), false)
  }

  /** In an array or at a key. */
  lemma PointLevel(s: State, m: string)
    requires Settled(s) && !s.mode.Failed? && ClearStack(s.stack, m) && DigitMarker(m)
    requires s.stack.top.ObjFrame? ==> s.stack.top.pending.None?
    ensures var p := HealingPoint(s, m); p.stack.Push? && p.stack.below == s.stack.below
                                         && Level(Wrap(p.stack.top, p.value), m)
  {
    var p := HealingPoint(s, m);
    PointHas(s, m);
    if s.stack.top.ArrFrame? {
      var n := WrapPlaced(s.stack.top, s.stack.below, p.value, m);
    } else {
      KeyLevel(s.stack.top.members, p.stack.top.pending.value, p.value, m);
    }
  }

  lemma KeyLevel(members: seq<Member>, k: string, v: Json, m: string)
    requires Clear(Obj(members), m) && DigitMarker(m) && Has(k, m)
    ensures Level(Obj(Insert(members, k, v)), m)
  {
    ClearIsFree(Obj(members), m);
    InsertFresh(members, k, v);
    assert LevelAt(members + [Member(k, v)], |members|, m);
  }

  /** At the value of a pending key. */
  lemma PointPending(s: State, m: string)
    requires Settled(s) && !s.mode.Failed? && ClearStack(s.stack, m) && DistinctStack(s.stack) && DigitMarker(m)
    requires s.stack.top.ObjFrame? && s.stack.top.pending.Some?
    ensures var p := HealingPoint(s, m);
      && p.stack == s.stack && Pushes(Wrap(s.stack.top, p.value), m)
      && if Behind(s.stack.top.members, s.stack.top.pending.value) == [] then Ahead(Wrap(s.stack.top, p.value), m)
         else Drops(Wrap(s.stack.top, p.value), m)
  {
    var p := HealingPoint(s, m);
    PointHas(s, m);
    var n := WrapPlaced(s.stack.top, s.stack.below, p.value, m);
    var all := Insert(s.stack.top.members, s.stack.top.pending.value, p.value);
    assert PushesAt(all, n, m);
    if all[n + 1..] == [] { assert AheadAt(all, n, m); } else { assert DropsAt(all, n, m); }
  }

  lemma KeptAgrees(s: State, r: Outcome, m: string, args: seq<Path>, contents: seq<Path>)
    requires Settled(s) && !s.mode.Failed? && ClearStack(s.stack, m) && DistinctStack(s.stack) && DigitMarker(m)
    requires PathsKept(s.stack)
    requires var p := HealingPoint(s, m); r.Healed? && r.json == Plug(p.stack, p.value)
    ensures PassesAgree(r, m, args, contents)
  {
    var c := Context(m, true, m, r.dumpMarker, args, contents);
    var p := HealingPoint(s, m);
    BelowAwaits(s);
    if s.stack.top.ObjFrame? && s.stack.top.pending.Some? {
      PointPending(s, m);
      PlugPush(s.stack.top, s.stack.below, p.value);
      PlugAhead(s.stack.below, Wrap(s.stack.top, p.value), m);
      AheadWalk(c, r.json, [], false);
    } else {
      PointLevel(s, m);
      PlugPush(p.stack.top, s.stack.below, p.value);
      PlugLevel(s.stack.below, Wrap(p.stack.top, p.value), m);
      LevelWalk(c, r.json, [], false);
    }
  }

  lemma NotKeptDiffers(s: State, r: Outcome, m: string) returns (args: seq<Path>)
    requires Settled(s) && !s.mode.Failed? && ClearStack(s.stack, m) && DistinctStack(s.stack) && DigitMarker(m)
    requires !PathsKept(s.stack)
    requires var p := HealingPoint(s, m); r.Healed? && r.json == Plug(p.stack, p.value)
    ensures !PassesAgree(r, m, args, [])
  {
    var p := HealingPoint(s, m);
    BelowAwaits(s);
    PointPending(s, m);
    var v := Wrap(s.stack.top, p.value);
    PlugPush(s.stack.top, s.stack.below, p.value);
    if Behind(s.stack.top.members, s.stack.top.pending.value) == [] {
      var target := StrayFound(s.stack.below, v, m);
      args := [target];
      StraysWalk(Context(m, true, m, r.dumpMarker, args, []), r.json, [], false, target);
    } else {
      args := [];
      PlugDrops(s.stack.below, v, m);
      DropsWalk(Context(m, true, m, r.dumpMarker, args, []), r.json, [], false);
    }
  }

  /**
   * The pass, which leaves its path as it is where it breaks off, gives what a pass that carries the path down
   * gives, for all argument and content paths, exactly when the text that healing builds on stops in an
   * array or at a key, or at the value of a key with its place at the end of its object and none but
   * strings behind the pending key's place in the objects around it.
   */
  lemma PassesAgreeExactly(t: string, m: string)
    requires DigitMarker(m) && ParseOrHeal(t, m).Healed? && ClearBasis(t, m)
    ensures Locate(t).stack != [] && Basis(t).Some?
    ensures (forall args: seq<Path>, contents: seq<Path> :: PassesAgree(ParseOrHeal(t, m), m, args, contents))
       <==> PathsKept(Run(START, Basis(t).value).stack)
  {
    DigitsAreFirm(m);
    HealsExactly(t, m);
    BasisSettled(t);
    var r, s := ParseOrHeal(t, m), Run(START, Basis(t).value);
    RunShaped(START, Basis(t).value);
    RunDistinct(START, Basis(t).value);
    if PathsKept(s.stack) {
      forall args: seq<Path>, contents: seq<Path> ensures PassesAgree(r, m, args, contents) {
        KeptAgrees(s, r, m, args, contents);
      }
    } else {
      var args := NotKeptDiffers(s, r, m);
    }
  }

  // A text whose repeated key misleads the pass

  /** A one-character key and its colon. */
  lemma ReadKey(members: seq<Member>, below: Stack, k: char)
    requires IsRaw(k)
    ensures var s := State(KeyOnly, Push(ObjFrame(members, None), below));
      Run(s, ['"', k, '"', ':']) == State(Value, Push(ObjFrame(members, Some([k])), below))
    ensures var s := State(KeyOrClose, Push(ObjFrame(members, None), below));
      Run(s, ['"', k, '"', ':']) == State(Value, Push(ObjFrame(members, Some([k])), below))
  {
    ReadKeyFrom(State(KeyOnly, Push(ObjFrame(members, None), below)), members, below, k);
    ReadKeyFrom(State(KeyOrClose, Push(ObjFrame(members, None), below)), members, below, k);
  }

  lemma ReadKeyFrom(s: State, members: seq<Member>, below: Stack, k: char)
    requires IsRaw(k) && (s.mode.KeyOnly? || s.mode.KeyOrClose?) && s.stack == Push(ObjFrame(members, None), below)
    ensures Run(s, ['"', k, '"', ':']) == State(Value, Push(ObjFrame(members, Some([k])), below))
  {
    Run2(s, '"', k);
    assert [] + [k] == [k];
    assert Run(s, ['"', k]) == State(InString(Key, [k]), s.stack);
    ReadKeyEnd(members, below, [k]);
    RunConcat(s, ['"', k], ['"', ':']);
    assert ['"', k] + ['"', ':'] == ['"', k, '"', ':'];
  }

  lemma ReadKeyEnd(members: seq<Member>, below: Stack, k: string)
    ensures Run(State(InString(Key, k), Push(ObjFrame(members, None), below)), ['"', ':'])
         == State(Value, Push(ObjFrame(members, Some(k)), below))
  {
    Run2(State(InString(Key, k), Push(ObjFrame(members, None), below)), '"', ':');
  }

  lemma ReadNull(stack: Stack)
    ensures Run(State(Value, stack), ['n', 'u', 'l', 'l']) == Complete(stack, Null)
  {
    Run2(State(Value, stack), 'n', 'u');
    Run2(State(InLiteral(LNull, 2), stack), 'l', 'l');
    RunConcat(State(Value, stack), ['n', 'u'], ['l', 'l']);
    assert ['n', 'u'] + ['l', 'l'] == ['n', 'u', 'l', 'l'];
  }

  lemma ReadEmpty(stack: Stack)
    ensures Run(State(Value, stack), ['{', '}']) == Complete(stack, Obj([]))
  {
    Run2(State(Value, stack), '{', '}');
  }

  lemma ReadComma(members: seq<Member>, k: string, v: Json, below: Stack)
    requires !HasKey(members, k)
    ensures var s := Complete(Push(ObjFrame(members, Some(k)), below), v);
      Run(s, [',']) == State(KeyOnly, Push(ObjFrame(members + [Member(k, v)], None), below))
  {
    InsertFresh(members, k, v);
    Run1(Complete(Push(ObjFrame(members, Some(k)), below), v), ',');
  }

  const FIRST: string := ['{'] + ['"', 'a', '"', ':'] + ['n', 'u', 'l', 'l'] + [',']
  const SECOND: string := ['"', 'b', '"', ':'] + ['{', '}'] + [',']
  const THIRD: string := ['"', 'a', '"', ':'] + (['{'] + ['"', 'c', '"', ':'])

  /** `{"a":null,"b":{},"a":{"c":` */
  const REPEATED := FIRST + SECOND + THIRD

  const TWICE: Frame := ObjFrame([Member("a", Null), Member("b", Obj([]))], Some("a"))

  lemma ReadOpen(stack: Stack)
    ensures Run(State(Value, stack), ['{']) == State(KeyOrClose, Push(ObjFrame([], None), stack))
  {
    Run1(State(Value, stack), '{');
  }

  /** An opening brace and a key. */
  lemma ReadOpenKey(stack: Stack, k: char)
    requires IsRaw(k)
    ensures Run(State(Value, stack), ['{'] + ['"', k, '"', ':']) == State(Value, Push(ObjFrame([], Some([k])), stack))
  {
    ReadOpen(stack);
    ReadKey([], stack, k);
    RunConcat(State(Value, stack), ['{'], ['"', k, '"', ':']);
  }

  lemma Run3Parts(s: State, a: string, b: string, c: string)
    ensures Run(s, a + b + c) == Run(Run(Run(s, a), b), c)
  {
    RunConcat(s, a, b);
    RunConcat(s, a + b, c);
  }

  lemma ReadFirst(below: Stack)
    ensures Run(State(Value, below), FIRST) == State(KeyOnly, Push(ObjFrame([Member("a", Null)], None), below))
  {
    var s := State(Value, below);
    ReadOpenKey(below, 'a');
    ReadNull(Push(ObjFrame([], Some("a")), below));
    ReadComma([], "a", Null, below);
    Run3Parts(s, ['{'] + ['"', 'a', '"', ':'], ['n', 'u', 'l', 'l'], [',']);
    assert [] + [Member("a", Null)] == [Member("a", Null)];
  }

  lemma ReadSecond(below: Stack)
    ensures var s := State(KeyOnly, Push(ObjFrame([Member("a", Null)], None), below));
      Run(s, SECOND) == State(KeyOnly, Push(TWICE.(pending := None), below))
  {
    var members := [Member("a", Null)];
    var s := State(KeyOnly, Push(ObjFrame(members, None), below));
    ReadKey(members, below, 'b');
    ReadEmpty(Push(ObjFrame(members, Some("b")), below));
    assert "a"[0] != "b"[0];
    ReadComma(members, "b", Obj([]), below);
    Run3Parts(s, ['"', 'b', '"', ':'], ['{', '}'], [',']);
    assert members + [Member("b", Obj([]))] == TWICE.members;
  }

  lemma ReadThird(below: Stack)
    ensures var s := State(KeyOnly, Push(TWICE.(pending := None), below));
      Run(s, THIRD) == State(Value, Push(ObjFrame([], Some("c")), Push(TWICE, below)))
  {
    var s := State(KeyOnly, Push(TWICE.(pending := None), below));
    ReadKey(TWICE.members, below, 'a');
    ReadOpenKey(Push(TWICE, below), 'c');
    RunConcat(s, ['"', 'a', '"', ':'], ['{'] + ['"', 'c', '"', ':']);
  }

  lemma ReadRepeated()
    ensures Run(START, REPEATED) == State(Value, Push(ObjFrame([], Some("c")), Push(TWICE, Bottom)))
  {
    ReadFirst(Bottom);
    ReadSecond(Bottom);
    ReadThird(Bottom);
    Run3Parts(START, FIRST, SECOND, THIRD);
  }

  lemma RepeatedHeals(t: string, m: string)
    requires DigitMarker(m) && Run(START, t) == State(Value, Push(ObjFrame([], Some("c")), Push(TWICE, Bottom)))
    ensures ParseOrHeal(t, m).Healed? && ParseOrHeal(t, m).json == Plug(Run(START, t).stack, Str(m))
  {
    HealsTruncated(t, m);
  }

  lemma TwiceClear(m: string)
    requires DigitMarker(m)
    ensures ClearStack(Push(ObjFrame([], Some("c")), Push(TWICE, Bottom)), m)
  {
    forall k | k in {'a', 'b', 'c'} ensures !Shows([k], m) { LetterClear(k, m); }
    assert Clear(Obj(TWICE.members), m);
  }

  lemma LetterClear(k: char, m: string)
    requires DigitMarker(m) && IsRaw(k) && !IsDigit(k)
    ensures !Shows([k], m)
  {
    DumpTextPlain([k]);
    NoDigitFree([k], m);
    HasContains([k], m);
  }

  lemma TwiceBehind()
    ensures Behind(TWICE.members, "a") == [Member("b", Obj([]))]
  {
    assert Place(TWICE.members, "a") == 0;
  }

  /** The member `"b"` is behind the place of the key that comes twice: with its path as the one argument path
      the pass, whatever the marker, does not find it there. */
  lemma RepeatedKeyMisleads(m: string)
    requires DigitMarker(m)
    ensures ParseOrHeal(REPEATED, m).Healed? && !PassesAgree(ParseOrHeal(REPEATED, m), m, [["b"]], [])
  {
    ReadRepeated();
    RepeatedHeals(REPEATED, m);
    TwiceMisleads(ParseOrHeal(REPEATED, m), m);
  }

  lemma TwiceMisleads(r: Outcome, m: string)
    requires DigitMarker(m) && r.Healed?
    requires r.json == Plug(Push(ObjFrame([], Some("c")), Push(TWICE, Bottom)), Str(m))
    ensures !PassesAgree(r, m, [["b"]], [])
  {
    var inner := Obj(Insert([], "c", Str(m)));
    TwiceClear(m);
    LetterClear('c', m);
    PlugPush(ObjFrame([], Some("c")), Push(TWICE, Bottom), Str(m));
    PlugPush(TWICE, Bottom, inner);
    InnerPushes(m);
    TwiceBehind();
    StrayTop(TWICE, Bottom, inner, m, 0);
    assert PathOf(Bottom) + ["b"] == ["b"];
    StraysWalk(Context(m, true, m, r.dumpMarker, [["b"]], []), r.json, [], false, ["b"]);
  }

  lemma InnerPushes(m: string)
    requires DigitMarker(m)
    ensures Pushes(Obj(Insert([], "c", Str(m))), m)
  {
    LetterClear('c', m);
    if Has("c", m) { HeldShows("c", m); }
    HasSelf([], m);
    assert [] + m == m;
    assert PushesAt([Member("c", Str(m))], 0, m);
  }
}
