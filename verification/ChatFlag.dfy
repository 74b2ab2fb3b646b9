/** When the clean-up pass raises its flag on JSON that was not healed. */
module ChatFlag {
  import opened Text
  import opened JsonText
  import opened ChatCleanup
  import opened ChatPaths

  /** No key, and no string in a container, holds the marker. */
  predicate Untouched(j: Json, m: string) {
    match j
    case Arr(items) =>
      forall i :: 0 <= i < |items| ==> (items[i].Str? ==> !Has(items[i].s, m)) && Untouched(items[i], m)
    case Obj(members) =>
      forall i :: 0 <= i < |members| ==>
        && !Has(members[i].key, m) && (members[i].value.Str? ==> !Has(members[i].value.s, m))
        && Untouched(members[i].value, m)
    case _ => true
  }

  lemma UntouchedParts(members: seq<Member>, m: string)
    requires members != []
    ensures Untouched(Obj(members), m) <==>
      && !Has(members[0].key, m) && (members[0].value.Str? ==> !Has(members[0].value.s, m))
      && Untouched(members[0].value, m) && Untouched(Obj(members[1..]), m)
  {
    assert members == [members[0]] + members[1..];
  }

  lemma UntouchedItems(items: seq<Json>, m: string)
    requires items != []
    ensures Untouched(Arr(items), m) <==>
      (items[0].Str? ==> !Has(items[0].s, m)) && Untouched(items[0], m) && Untouched(Arr(items[1..]), m)
  {
    assert items == [items[0]] + items[1..];
  }

  /** What is free of the marker is untouched by it. */
  lemma {:induction false} FreeUntouched(j: Json, m: string)
    requires Free(j, m)
    ensures Untouched(j, m)
  {
    match j
    case Arr(items) =>
      forall i | 0 <= i < |items| ensures (items[i].Str? ==> !Has(items[i].s, m)) && Untouched(items[i], m) {
        FreeUntouched(items[i], m);
      }
    case Obj(members) =>
      forall i | 0 <= i < |members|
        ensures (members[i].value.Str? ==> !Has(members[i].value.s, m)) && Untouched(members[i].value, m)
      {
        FreeUntouched(members[i].value, m);
      }
    case _ =>
  }

  // Untouched JSON

  /** Cleaning untouched JSON that was not healed raises the flag only for a string that is itself content:
      the empty marker is then found at once. */
  lemma {:induction false} UnhealedFlag(c: Context, j: Json, path: Path, f: bool)
    requires c.rawMarker == [] && Untouched(j, c.marker)
    ensures var w := Walk(c, j, path, f);
      w.Ran? ==> w.path == path && w.found == (f || (j.Str? && path in c.contentPaths && path !in c.argsPaths))
    decreases j, 1
  {
    if path !in c.argsPaths && path !in c.contentPaths {
      match j
      case Obj(members) => UnhealedMembers(c, members, [], path, f);
      case Arr(items) => UnhealedItems(c, items, [], path, f);
      case _ =>
    } else if path !in c.argsPaths && j.Str? {
      assert OccursAt(j.s, [], 0);
    }
  }

  lemma {:induction false} UnhealedMembers(c: Context, members: seq<Member>, acc: seq<Member>, path: Path, f: bool)
    requires c.rawMarker == [] && Untouched(Obj(members), c.marker)
    ensures var w := WalkMembers(c, members, acc, path, f); w.Ran? ==> w.path == path && w.found == f
    decreases members, 0
  {
    if members != [] {
      var Member(k, v) := members[0];
      UntouchedParts(members, c.marker);
      if v.Str? {
        UnhealedMembers(c, members[1..], Insert(acc, k, v), path, f);
      } else {
        UnhealedFlag(c, v, path + [k], f);
        var r := Walk(c, v, path + [k], f);
        assert Pop(path + [k]) == path;
        if r.Ran? { UnhealedMembers(c, members[1..], Insert(acc, k, r.result), path, f); }
      }
    }
  }

  lemma {:induction false} UnhealedItems(c: Context, items: seq<Json>, acc: seq<Json>, path: Path, f: bool)
    requires c.rawMarker == [] && Untouched(Arr(items), c.marker) && path !in c.contentPaths
    ensures var w := WalkItems(c, items, acc, path, f); w.Ran? ==> w.path == path && w.found == f
    decreases items, 0
  {
    if items != [] {
      UntouchedItems(items, c.marker);
      UnhealedFlag(c, items[0], path, f);
      var r := Walk(c, items[0], path, f);
      if r.Ran? { UnhealedItems(c, items[1..], acc + [r.result], path, f); }
    }
  }

  // Anything else

  /** The flag is never taken back. */
  lemma {:induction false} FlagStays(c: Context, j: Json, path: Path)
    ensures var w := Walk(c, j, path, true); w.Ran? ==> w.found
    decreases j, 1
  {
    match j
    case Obj(members) => MembersFlagStays(c, members, [], path);
    case Arr(items) => ItemsFlagStays(c, items, [], path);
    case _ =>
  }

  lemma {:induction false} MembersFlagStays(c: Context, members: seq<Member>, acc: seq<Member>, path: Path)
    ensures var w := WalkMembers(c, members, acc, path, true); w.Ran? ==> w.found
    decreases members, 0
  {
    if members != [] {
      var Member(k, v) := members[0];
      FlagStays(c, v, path + [k]);
      var r := Walk(c, v, path + [k], true);
      if v.Str? {
        MembersFlagStays(c, members[1..], Insert(acc, k, v), path);
      } else if r.Ran? {
        MembersFlagStays(c, members[1..], Insert(acc, k, r.result), Pop(r.path));
      }
    }
  }

  lemma {:induction false} ItemsFlagStays(c: Context, items: seq<Json>, acc: seq<Json>, path: Path)
    ensures var w := WalkItems(c, items, acc, path, true); w.Ran? ==> w.found
    decreases items, 0
  {
    if items != [] {
      FlagStays(c, items[0], path);
      var r := Walk(c, items[0], path, true);
      if r.Ran? { ItemsFlagStays(c, items[1..], acc + [r.result], r.path); }
    }
  }

  /** How many members a value has, at any depth: no path in it is longer. */
  function MemberCount(j: Json): nat
    decreases j, 1
  {
    match j
    case Obj(members) => CountMembers(members)
    case Arr(items) => CountItems(items)
    case _ => 0
  }

  function CountMembers(members: seq<Member>): nat
    decreases members, 0
  {
    if members == [] then 0 else 1 + MemberCount(members[0].value) + CountMembers(members[1..])
  }

  function CountItems(items: seq<Json>): nat
    decreases items, 0
  {
    if items == [] then 0 else MemberCount(items[0]) + CountItems(items[1..])
  }

  /** There is no content, and arguments are deeper than n. */
  predicate OutOfReach(c: Context, n: nat) {
    c.rawMarker == [] && c.contentPaths == [] && forall i :: 0 <= i < |c.argsPaths| ==> n < |c.argsPaths[i]|
  }

  /** Where no path reaches, whatever is touched raises the flag. */
  lemma {:induction false} TouchedFlag(c: Context, j: Json, path: Path, f: bool)
    requires OutOfReach(c, |path| + MemberCount(j)) && !Untouched(j, c.marker)
    ensures var w := Walk(c, j, path, f); w.Ran? && w.found
    decreases j, 1
  {
    match j
    case Obj(members) => TouchedMembers(c, members, [], path, f);
    case Arr(items) => TouchedItems(c, items, [], path, f);
  }

  lemma {:induction false} TouchedMembers(c: Context, members: seq<Member>, acc: seq<Member>, path: Path, f: bool)
    requires OutOfReach(c, |path| + CountMembers(members)) && !Untouched(Obj(members), c.marker)
    ensures var w := WalkMembers(c, members, acc, path, f); w.Ran? && w.found
    decreases members, 0
  {
    MembersRunThrough(c, members, acc, path, f, false);
    var Member(k, v) := members[0];
    UntouchedParts(members, c.marker);
    if v.Str? {
      if !Has(k, c.marker) && !Has(v.s, c.marker) {
        TouchedMembers(c, members[1..], Insert(acc, k, v), path, f);
      }
    } else if !Has(k, c.marker) {
      RunsThrough(c, v, path + [k], f);
      var r := Walk(c, v, path + [k], f);
      if Untouched(v, c.marker) {
        UnhealedFlag(c, v, path + [k], f);
        assert Pop(path + [k]) == path;
        TouchedMembers(c, members[1..], Insert(acc, k, r.result), path, r.found);
      } else {
        TouchedFlag(c, v, path + [k], f);
        MembersFlagStays(c, members[1..], Insert(acc, k, r.result), Pop(r.path));
      }
    }
  }

  lemma {:induction false} TouchedItems(c: Context, items: seq<Json>, acc: seq<Json>, path: Path, f: bool)
    requires OutOfReach(c, |path| + CountItems(items)) && !Untouched(Arr(items), c.marker)
    ensures var w := WalkItems(c, items, acc, path, f); w.Ran? && w.found
    decreases items, 0
  {
    ItemsRunThrough(c, items, acc, path, f, false);
    var v := items[0];
    UntouchedItems(items, c.marker);
    if !(v.Str? && Has(v.s, c.marker)) {
      RunsThrough(c, v, path, f);
      var r := Walk(c, v, path, f);
      if Untouched(v, c.marker) {
        UnhealedFlag(c, v, path, f);
        TouchedItems(c, items[1..], acc + [r.result], path, r.found);
      } else {
        TouchedFlag(c, v, path, f);
        ItemsFlagStays(c, items[1..], acc + [r.result], r.path);
      }
    }
  }
}
