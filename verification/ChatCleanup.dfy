/** The clean-up pass over a possibly healed JSON value: subtrees on argument paths become
    (truncated) JSON text, strings on content paths are cut at the marker, and whatever else the
    marker touched is dropped. */
module ChatCleanup {
  import opened Text
  import opened JsonText

  type Path = seq<string>

  /** What the pass knows: the parser's marker, whether it is still receiving input, what healing
      did (both empty when nothing was healed), and the paths. */
  datatype Context = Context(
    marker: string, isPartial: bool,
    rawMarker: string, dumpMarker: string,
    argsPaths: seq<Path>, contentPaths: seq<Path>)

  predicate Has(s: string, m: string) { Find(s, m, 0).Some? }

  // Shared pieces

  /** A subtree as argument text: its dump, cut at the healing marker. */
  function ArgumentText(c: Context, j: Json): string {
    var a := Dump(j);
    if c.isPartial && c.rawMarker != [] then
      var cut := CutAt(a, c.dumpMarker);
      if cut == "\"" then "" else cut
    else a
  }

  predicate ArgumentCut(c: Context, j: Json) {
    c.isPartial && c.rawMarker != [] && Has(Dump(j), c.dumpMarker)
  }

  // The pass as it runs: one path for all, pushed and popped, not popped on an early exit

  datatype Pass = Threw | Ran(result: Json, path: Path, found: bool)

  function Pop(p: Path): Path
    requires p != []
  {
    p[..|p| - 1]
  }

  /** The recursive pass with the path and the flag it leaves behind. */
  function Walk(c: Context, j: Json, path: Path, found: bool): (r: Pass)
    ensures r.Ran? ==> |r.path| >= |path|
    decreases j, 1
  {
    if path in c.argsPaths then Ran(Str(ArgumentText(c, j)), path, found || ArgumentCut(c, j))
    else if path in c.contentPaths then
      if !j.Str? then Threw
      else Ran(Str(CutAt(j.s, c.rawMarker)), path, found || Has(j.s, c.rawMarker))
    else
      match j
      case Obj(members) => WalkMembers(c, members, [], path, found)
      case Arr(items) => WalkItems(c, items, [], path, found)
      case _ => Ran(j, path, found)
  }

  function WalkMembers(c: Context, members: seq<Member>, acc: seq<Member>, path: Path, found: bool): (r: Pass)
    ensures r.Ran? ==> |r.path| >= |path|
    decreases members, 0
  {
    if members == [] then Ran(Obj(acc), path, found)
    else
      var Member(k, v) := members[0];
      if Has(k, c.marker) then Ran(Obj(acc), path, true)
      else if v.Str? && Has(v.s, c.marker) then
        if path + [k] in c.contentPaths && c.rawMarker == c.dumpMarker then
          var r := Walk(c, v, path + [k], true);
          if r.Threw? then Threw else Ran(Obj(Insert(acc, k, r.result)), r.path, r.found)
        else Ran(Obj(acc), path + [k], true)
      else if v.Str? then
        WalkMembers(c, members[1..], Insert(acc, k, v), path, found)
      else
        var r := Walk(c, v, path + [k], found);
        if r.Threw? then Threw
        else WalkMembers(c, members[1..], Insert(acc, k, r.result), Pop(r.path), r.found)
  }

  function WalkItems(c: Context, items: seq<Json>, acc: seq<Json>, path: Path, found: bool): (r: Pass)
    ensures r.Ran? ==> |r.path| >= |path|
    decreases items, 0
  {
    if items == [] then Ran(Arr(acc), path, found)
    else if items[0].Str? && Has(items[0].s, c.marker) then Ran(Arr(acc), path, true)
    else
      var r := Walk(c, items[0], path, found);
      if r.Threw? then Threw else WalkItems(c, items[1..], acc + [r.result], r.path, r.found)
  }

  // The pass as it is meant: every node cleaned at its own path, none skipped

  datatype Clean = Refused | Good(result: Json, found: bool)

  function CleanAt(c: Context, j: Json, path: Path): Clean
    decreases j, 1
  {
    if path in c.argsPaths then Good(Str(ArgumentText(c, j)), ArgumentCut(c, j))
    else if path in c.contentPaths then
      if !j.Str? then Refused else Good(Str(CutAt(j.s, c.rawMarker)), Has(j.s, c.rawMarker))
    else
      match j
      case Obj(members) => CleanMembers(c, members, [], path, false)
      case Arr(items) => CleanItems(c, items, [], path, false)
      case _ => Good(j, false)
  }

  /** Members touched by the marker are dropped, or cut when they are healed content. */
  function CleanMembers(c: Context, members: seq<Member>, acc: seq<Member>, path: Path, found: bool): (r: Clean)
    ensures r.Good? && found ==> r.found
    decreases members, 0
  {
    if members == [] then Good(Obj(acc), found)
    else
      var Member(k, v) := members[0];
      var touched := v.Str? && Has(v.s, c.marker);
      if Has(k, c.marker) || (touched && !(path + [k] in c.contentPaths && c.rawMarker == c.dumpMarker)) then
        CleanMembers(c, members[1..], acc, path, true)
      else if v.Str? && !touched then CleanMembers(c, members[1..], Insert(acc, k, v), path, found)
      else
        var r := CleanAt(c, v, path + [k]);
        if r.Refused? then Refused
        else CleanMembers(c, members[1..], Insert(acc, k, r.result), path, found || touched || r.found)
  }

  /** Strings touched by the marker are dropped. */
  function CleanItems(c: Context, items: seq<Json>, acc: seq<Json>, path: Path, found: bool): (r: Clean)
    ensures r.Good? && found ==> r.found
    decreases items, 0
  {
    if items == [] then Good(Arr(acc), found)
    else if items[0].Str? && Has(items[0].s, c.marker) then CleanItems(c, items[1..], acc, path, true)
    else
      var r := CleanAt(c, items[0], path);
      if r.Refused? then Refused else CleanItems(c, items[1..], acc + [r.result], path, found || r.found)
  }

  // Where the marker may be

  /** No key, string or number holds the marker. */
  predicate Free(j: Json, m: string) {
    match j
    case Str(s) => !Has(s, m)
    case Num(t) => !Has(t, m)
    case Arr(items) => forall i :: 0 <= i < |items| ==> Free(items[i], m)
    case Obj(members) =>
      forall i :: 0 <= i < |members| ==> !Has(members[i].key, m) && Free(members[i].value, m)
    case _ => true
  }

  // Refinement

  /** What the pass leaves agrees with the clean value, the flag joining what was found before. */
  predicate Agrees(r: Pass, g: Clean, found: bool) {
    if r.Threw? then g.Refused? else g.Good? && g.result == r.result && r.found == (found || g.found)
  }

  lemma FreeParts(members: seq<Member>, m: string)
    requires members != [] && Free(Obj(members), m)
    ensures !Has(members[0].key, m) && Free(members[0].value, m) && Free(Obj(members[1..]), m)
  {
    forall i | 0 <= i < |members| - 1 ensures members[1..][i] == members[i + 1] {}
  }

  lemma FreeItems(items: seq<Json>, m: string)
    requires items != [] && Free(Arr(items), m)
    ensures Free(items[0], m) && Free(Arr(items[1..]), m)
  {
    forall i | 0 <= i < |items| - 1 ensures items[1..][i] == items[i + 1] {}
  }

  lemma {:induction false} FreeWalk(c: Context, j: Json, path: Path, found: bool)
    requires Free(j, c.marker)
    ensures Agrees(Walk(c, j, path, found), CleanAt(c, j, path), found)
    ensures Walk(c, j, path, found).Ran? ==> Walk(c, j, path, found).path == path
    decreases j, 1
  {
    if path !in c.argsPaths && path !in c.contentPaths {
      match j
      case Obj(members) => FreeWalkMembers(c, members, [], path, found, false);
      case Arr(items) => FreeWalkItems(c, items, [], path, found, false);
      case _ =>
    }
  }

  lemma {:induction false} FreeWalkMembers(c: Context, members: seq<Member>, acc: seq<Member>, path: Path,
                                           f: bool, g: bool)
    requires Free(Obj(members), c.marker) && (g ==> f)
    ensures var w := WalkMembers(c, members, acc, path, f);
      Agrees(w, CleanMembers(c, members, acc, path, g), f) && (w.Ran? ==> w.path == path)
    decreases members, 0
  {
    if members != [] {
      var Member(k, v) := members[0];
      FreeParts(members, c.marker);
      if v.Str? {
        FreeWalkMembers(c, members[1..], Insert(acc, k, v), path, f, g);
      } else {
        FreeWalk(c, v, path + [k], f);
        var r, s := Walk(c, v, path + [k], f), CleanAt(c, v, path + [k]);
        if r.Ran? {
          assert Pop(path + [k]) == path;
          FreeWalkMembers(c, members[1..], Insert(acc, k, r.result), path, r.found, g || s.found);
        }
      }
    }
  }

  lemma {:induction false} FreeWalkItems(c: Context, items: seq<Json>, acc: seq<Json>, path: Path, f: bool, g: bool)
    requires Free(Arr(items), c.marker) && (g ==> f)
    ensures var w := WalkItems(c, items, acc, path, f);
      Agrees(w, CleanItems(c, items, acc, path, g), f) && (w.Ran? ==> w.path == path)
    decreases items, 0
  {
    if items != [] {
      FreeItems(items, c.marker);
      FreeWalk(c, items[0], path, f);
      var r, s := Walk(c, items[0], path, f), CleanAt(c, items[0], path);
      if r.Ran? { FreeWalkItems(c, items[1..], acc + [r.result], path, r.found, g || s.found); }
    }
  }
}
