/** What the clean-up pass gives: no trace of the marker, and the flag raised exactly for healed input. */
module ChatCleanupResult {
  import opened Text
  import opened JsonText
  import opened ChatCleanup

  /** The marker the parser draws: the decimal text of a random number. */
  predicate DigitMarker(m: string) { m != [] && forall i :: 0 <= i < |m| ==> IsDigit(m[i]) }

  predicate NoDigit(s: string) { forall i :: 0 <= i < |s| ==> !IsDigit(s[i]) }

  lemma HasContains(s: string, m: string)
    ensures Has(s, m) <==> Contains(s, m)
  {
  }

  lemma CutAtFree(s: string, m: string)
    ensures m != [] ==> !Contains(CutAt(s, m), m)
    ensures !Has(s, m) ==> CutAt(s, m) == s
  {
    var i := Find(s, m, 0);
    if i.Some? {
      forall k: nat ensures m != [] ==> !OccursAt(s[..i.value], m, k) {
        assert s == s[..i.value] + s[i.value..];
        if m != [] && OccursAt(s[..i.value], m, k) { OccursInPrefix(s[..i.value], s[i.value..], m, k); }
      }
    }
  }

  // Joining texts free of the marker

  lemma NoDigitFree(s: string, m: string)
    requires NoDigit(s) && DigitMarker(m)
    ensures !Contains(s, m)
  {
    forall i: nat ensures !OccursAt(s, m, i) {
      if OccursAt(s, m, i) { OccursCovers(s, m, i, i); }
    }
  }

  /** Texts with something other than a digit between them. */
  lemma FreeJoin(a: string, c: char, b: string, m: string)
    requires DigitMarker(m) && !IsDigit(c) && !Contains(a, m) && !Contains(b, m)
    ensures !Contains(a + [c] + b, m)
  {
    if Contains(a + [c] + b, m) { ContainsSplit(a, c, b, m); }
  }

  lemma FreePunctuation(a: string, c: char, m: string)
    requires DigitMarker(m) && !IsDigit(c) && !Contains(a, m)
    ensures !Contains(a + [c], m) && !Contains([c] + a, m)
  {
    NoDigitFree([], m);
    FreeJoin(a, c, [], m);
    FreeJoin([], c, a, m);
    assert a + [c] + [] == a + [c] && [] + [c] + a == [c] + a;
  }

  // Dumps of values free of the marker

  /** A dump of the string holds the marker. */
  predicate Shows(s: string, m: string) { Has(DumpText(s), m) }

  /** No key, string or number holds the marker as a dump writes it. */
  predicate Clear(j: Json, m: string) {
    match j
    case Str(s) => !Shows(s, m)
    case Num(t) => !Has(t, m)
    case Arr(items) => forall i :: 0 <= i < |items| ==> Clear(items[i], m)
    case Obj(members) =>
      forall i :: 0 <= i < |members| ==> !Shows(members[i].key, m) && Clear(members[i].value, m)
    case _ => true
  }

  /** Digits stand for themselves in a dump. */
  lemma HeldShows(s: string, m: string)
    requires DigitMarker(m) && Has(s, m)
    ensures Shows(s, m)
  {
    var i := Find(s, m, 0).value;
    var a, b := s[..i], s[i + |m|..];
    assert s == a + m + b;
    PlainInside(a, m, b);
    assert OccursAt(m, m, 0);
    ContainsMid(DumpText(a), m, DumpText(b), m);
    HasContains(DumpText(s), m);
  }

  lemma PlainInside(a: string, m: string, b: string)
    requires RawText(m)
    ensures DumpText(a + m + b) == DumpText(a) + m + DumpText(b)
  {
    DumpTextConcat(a + m, b);
    DumpTextConcat(a, m);
    DumpTextPlain(m);
  }

  /** What a dump shows to be free of the marker is free of it. */
  lemma {:induction false} ClearIsFree(j: Json, m: string)
    requires DigitMarker(m) && Clear(j, m)
    ensures Free(j, m)
  {
    match j
    case Str(s) => if Has(s, m) { HeldShows(s, m); }
    case Arr(items) =>
      forall i | 0 <= i < |items| ensures Free(items[i], m) { ClearIsFree(items[i], m); }
    case Obj(members) =>
      forall i | 0 <= i < |members| ensures !Has(members[i].key, m) && Free(members[i].value, m) {
        if Has(members[i].key, m) { HeldShows(members[i].key, m); }
        ClearIsFree(members[i].value, m);
      }
    case _ =>
  }

  lemma ClearParts(members: seq<Member>, m: string)
    requires members != [] && Clear(Obj(members), m)
    ensures !Shows(members[0].key, m) && Clear(members[0].value, m) && Clear(Obj(members[1..]), m)
  {
    forall i | 0 <= i < |members| - 1 ensures members[1..][i] == members[i + 1] {}
  }

  lemma ClearItems(items: seq<Json>, m: string)
    requires items != [] && Clear(Arr(items), m)
    ensures Clear(items[0], m) && Clear(Arr(items[1..]), m)
  {
    forall i | 0 <= i < |items| - 1 ensures items[1..][i] == items[i + 1] {}
  }

  lemma FreeStr(s: string, m: string)
    requires DigitMarker(m) && !Shows(s, m)
    ensures !Contains(DumpStr(s), m)
  {
    HasContains(DumpText(s), m);
    FreePunctuation(DumpText(s), '"', m);
    FreePunctuation("\"" + DumpText(s), '"', m);
  }

  lemma {:induction false} FreeDump(j: Json, m: string)
    requires DigitMarker(m) && Clear(j, m)
    ensures !Contains(Dump(j), m)
    decreases j, 1
  {
    match j
    case Null => NoDigitFree("null", m);
    case Bool(b) => NoDigitFree(Dump(j), m);
    case Num(t) => HasContains(t, m);
    case Str(s) => FreeStr(s, m);
    case Arr(items) =>
      FreeDumpItems(items, m);
      FreePunctuation(DumpItems(items), '[', m);
      FreePunctuation("[" + DumpItems(items), ']', m);
    case Obj(members) =>
      FreeDumpMembers(members, m);
      FreePunctuation(DumpMembers(members), '{', m);
      FreePunctuation("{" + DumpMembers(members), '}', m);
  }

  lemma {:induction false} FreeDumpItems(items: seq<Json>, m: string)
    requires DigitMarker(m) && Clear(Arr(items), m)
    ensures !Contains(DumpItems(items), m) && !Contains(DumpedItems(items), m)
    decreases items, 0
  {
    if items == [] {
      NoDigitFree([], m);
    } else {
      var n := |items| - 1;
      var front, last := items[..n], items[n];
      FreeDumpItems(front, m);
      FreeDump(last, m);
      if front == [] {
        assert DumpItems(items) == [] + Dump(last) == Dump(last);
      } else {
        FreeJoin(DumpItems(front), ',', Dump(last), m);
      }
      FreePunctuation(DumpItems(items), ',', m);
    }
  }

  lemma {:induction false} FreeDumpMembers(members: seq<Member>, m: string)
    requires DigitMarker(m) && Clear(Obj(members), m)
    ensures !Contains(DumpMembers(members), m) && !Contains(DumpedMembers(members), m)
    decreases members, 0
  {
    if members == [] {
      NoDigitFree([], m);
    } else {
      var n := |members| - 1;
      var front, last := members[..n], members[n];
      FreeDumpMembers(front, m);
      FreeDump(last.value, m);
      FreeStr(last.key, m);
      var k, v := DumpStr(last.key), Dump(last.value);
      FreeKey(DumpedMembers(front), DumpText(last.key), m);
      FreeJoin(DumpedMembers(front) + k, ':', v, m);
      FreePunctuation(DumpMembers(members), ',', m);
    }
  }

  lemma FreeKey(a: string, t: string, m: string)
    requires DigitMarker(m) && !Contains(a, m) && !Contains("\"" + t + "\"", m)
    ensures !Contains(a + ("\"" + t + "\""), m)
  {
    assert "\"" + t + "\"" == ['"'] + (t + "\"");
    FreeSuffix(['"'], t + "\"", m);
    FreeJoin(a, '"', t + "\"", m);
    assert a + ("\"" + t + "\"") == a + ['"'] + (t + "\"");
  }

  // The result of the pass

  /** In the dump, what comes before the healing marker is free of the raw marker. */
  ghost predicate MarkedDump(j: Json, m: string, dm: string) { MarkedText(Dump(j), m, dm) }

  ghost predicate MarkedText(d: string, m: string, dm: string) {
    var i := Find(d, dm, 0);
    i.Some? && !Contains(d[..i.value], m)
  }

  /** The context of a parser still receiving input whose JSON was healed. */
  predicate HealedContext(c: Context) {
    DigitMarker(c.marker) && c.isPartial && c.rawMarker == c.marker && EndsWith(c.dumpMarker, c.marker)
  }

  lemma FreeInsert(members: seq<Member>, k: string, v: Json, m: string)
    requires Free(Obj(members), m) && !Has(k, m) && Free(v, m)
    ensures Free(Obj(Insert(members, k, v)), m)
  {
    if members != [] && members[0].key != k {
      FreeParts(members, m);
      FreeInsert(members[1..], k, v, m);
      var r := Insert(members[1..], k, v);
      assert Insert(members, k, v) == [members[0]] + r;
      forall i | 0 <= i < |r| + 1 ensures var x := ([members[0]] + r)[i]; !Has(x.key, m) && Free(x.value, m) {
        if i > 0 { assert ([members[0]] + r)[i] == r[i - 1]; }
      }
    }
  }

  lemma FreeAppend(items: seq<Json>, v: Json, m: string)
    requires Free(Arr(items), m) && Free(v, m)
    ensures Free(Arr(items + [v]), m)
  {
  }

  lemma ArgumentFree(c: Context, j: Json)
    requires HealedContext(c) && Clear(j, c.marker)
    ensures !ArgumentCut(c, j) && Free(Str(ArgumentText(c, j)), c.marker)
  {
    var d := Dump(j);
    FreeDump(j, c.marker);
    if Has(d, c.dumpMarker) { DumpMarkerShows(d, c.dumpMarker, c.marker); }
    CutAtFree(d, c.dumpMarker);
    NoDigitFree([], c.marker);
  }

  lemma DumpMarkerShows(d: string, dm: string, m: string)
    requires Has(d, dm) && EndsWith(dm, m)
    ensures Contains(d, m)
  {
    var i := Find(d, dm, 0).value;
    assert d[i..i + |dm|][|dm| - |m|..] == m;
    assert OccursAt(d, m, i + |dm| - |m|);
  }

  /** Cleaning a value free of the marker raises no flag and leaves it free. */
  lemma {:induction false} CleanFree(c: Context, j: Json, path: Path)
    requires HealedContext(c) && Clear(j, c.marker)
    ensures CleanAt(c, j, path).Good? ==>
      !CleanAt(c, j, path).found && Free(CleanAt(c, j, path).result, c.marker)
    decreases j, 1
  {
    if path in c.argsPaths {
      ArgumentFree(c, j);
    } else if path in c.contentPaths {
      if j.Str? {
        ClearIsFree(j, c.marker);
        CutAtFree(j.s, c.marker);
      }
    } else {
      ClearIsFree(j, c.marker);
      match j
      case Obj(members) => CleanFreeMembers(c, members, [], path, false);
      case Arr(items) => CleanFreeItems(c, items, [], path);
      case _ =>
    }
  }

  lemma {:induction false} CleanFreeMembers(c: Context, members: seq<Member>, acc: seq<Member>, path: Path,
                                            g: bool)
    requires HealedContext(c) && Clear(Obj(members), c.marker) && Free(Obj(acc), c.marker)
    ensures var r := CleanMembers(c, members, acc, path, g); r.Good? ==> r.found == g && Free(r.result, c.marker)
    decreases members, 0
  {
    if members != [] {
      var Member(k, v) := members[0];
      ClearParts(members, c.marker);
      ClearIsFree(Obj(members), c.marker);
      if v.Str? {
        FreeInsert(acc, k, v, c.marker);
        CleanFreeMembers(c, members[1..], Insert(acc, k, v), path, g);
      } else {
        CleanFree(c, v, path + [k]);
        var r := CleanAt(c, v, path + [k]);
        if r.Good? {
          FreeInsert(acc, k, r.result, c.marker);
          CleanFreeMembers(c, members[1..], Insert(acc, k, r.result), path, g);
        }
      }
    }
  }

  lemma {:induction false} CleanFreeItems(c: Context, items: seq<Json>, acc: seq<Json>, path: Path)
    requires HealedContext(c) && Clear(Arr(items), c.marker) && Free(Arr(acc), c.marker)
    ensures var r := CleanItems(c, items, acc, path, false); r.Good? ==> !r.found && Free(r.result, c.marker)
    decreases items, 0
  {
    if items != [] {
      ClearItems(items, c.marker);
      ClearIsFree(items[0], c.marker);
      CleanFree(c, items[0], path);
      var r := CleanAt(c, items[0], path);
      if r.Good? {
        FreeAppend(acc, r.result, c.marker);
        CleanFreeItems(c, items[1..], acc + [r.result], path);
      }
    }
  }
}
