/** Where the marker shows in the dump of what healing produced. */
module ChatHealing {
  import opened Text
  import opened JsonText
  import opened JsonReader
  import opened JsonShape
  import opened JsonLocator
  import opened JsonPartial
  import opened JsonHealing
  import opened JsonRoundTrip
  import opened JsonErrors
  import opened ChatCleanup
  import opened ChatCleanupResult

  /** The value of one open container with its last value put in. */
  function Wrap(f: Frame, v: Json): Json {
    match f
    case ArrFrame(items) => Arr(items + [v])
    case ObjFrame(members, Some(k)) => Obj(Insert(members, k, v))
    case ObjFrame(members, None) => Obj(members)
  }

  /** The state as if only its innermost container were open. */
  function Local(s: State): State
    requires s.stack.Push?
  {
    State(s.mode, Push(s.stack.top, Bottom))
  }

  lemma LocalShaped(s: State)
    requires Shaped(s) && s.stack.Push? && Fresh(s.stack)
    ensures Shaped(Local(s)) && Fresh(Local(s).stack)
  {
  }

  /** The text of a state is the text around its innermost container, and the text in it. */
  lemma LocalText(s: State)
    requires Shaped(s) && s.stack.Push? && Fresh(s.stack) && !s.mode.Failed?
    ensures Shaped(Local(s)) && StateText(s) == AwaitText(s.stack.below) + StateText(Local(s))
  {
    LocalShaped(s);
    var a, f := AwaitText(s.stack.below), FrameText(s.stack.top);
    assert AwaitText(Local(s).stack) == [] + f == f;
    match s.mode
    case Colon => LocalColon(a, "{", DumpedMembers(s.stack.top.members), DumpStr(s.stack.top.pending.value));
    case InString(_, t) => Local2(a, f, "\"", DumpText(t), []);
    case InEscape(_, t) => Local2(a, f, "\"", DumpText(t), "\\");
    case InUnicode(_, t, code) => Local2(a, f, "\"", DumpText(t), CodeText(code));
    case InNumber(d) => Assoc(a, f, d);
    case InLiteral(lit, n) => Assoc(a, f, LiteralText(lit)[..n]);
    case After => LocalAfter(a, if s.stack.top.ArrFrame? then "[" + DumpItems(s.stack.top.items)
                                else "{" + DumpMembers(s.stack.top.members));
    case _ =>
  }

  lemma LocalAfter(a: string, f: string)
    ensures a + ([] + f) == a + f
  {
    assert [] + f == f;
  }

  lemma LocalColon(a: string, o: string, d: string, k: string)
    ensures a + o + d + k == a + ([] + o + d + k)
  {
    assert [] + o == o;
  }

  lemma Local2(a: string, f: string, q: string, t: string, e: string)
    ensures a + f + q + t == a + (f + q + t)
    ensures a + f + q + t + e == a + (f + q + t + e)
  {
  }

  /** The point of a state, seen from its innermost container. */
  lemma LocalPoint(s: State, m: string)
    requires Shaped(s) && s.stack.Push? && Fresh(s.stack) && !s.mode.Failed?
    ensures Shaped(Local(s))
    ensures var p, q := HealingPoint(s, m), HealingPoint(Local(s), m);
      q.stack.Push? && q.stack.below == Bottom && p.stack == Push(q.stack.top, s.stack.below)
      && p.value == q.value && p.quote == q.quote
  {
    LocalShaped(s);
  }

  lemma PlugPush(f: Frame, below: Stack, v: Json)
    ensures Plug(Push(f, below), v) == Plug(below, Wrap(f, v))
  {
  }

  /** Where the marker was put, the innermost container's dump shows it, free of it before. */
  lemma LocalMarked(s: State, m: string)
    requires Shaped(s) && s.stack.Push? && Fresh(s.stack) && !s.mode.Failed? && Resting(s)
    requires DigitMarker(m) && !Contains(StateText(s), m)
    ensures Shaped(Local(s))
    ensures var q := HealingPoint(Local(s), m);
      q.stack.Push? && MarkedDump(Wrap(q.stack.top, q.value), m, q.quote + m)
  {
    var l := Local(s);
    LocalText(s);
    LocalShaped(s);
    FreeSuffix(AwaitText(s.stack.below), StateText(l), m);
    LocalPoint(s, m);
    var q := HealingPoint(l, m);
    var post := PointText(l, m);
    PlugText(q.stack, q.value);
    PlugPush(q.stack.top, Bottom, q.value);
    var k := Closing(Elements(q.stack));
    Assoc(StateText(l) + (q.quote + m), post, k);
    QuoteKinds(l, m);
    MarkedAt(Wrap(q.stack.top, q.value), StateText(l), q.quote, m, post + k);
  }

  lemma QuoteKinds(s: State, m: string)
    requires Shaped(s)
    ensures HealingPoint(s, m).quote in {[], "\"", ",\"", ":\"", "\\"}
  {
  }

  lemma MarkedAt(j: Json, pre: string, q: string, m: string, post: string)
    requires Dump(j) == pre + (q + m) + post && DigitMarker(m) && !Contains(pre, m)
    requires q in {[], "\"", ",\"", ":\"", "\\"}
    ensures MarkedDump(j, m, q + m)
  {
    if q == [] {
      assert q + m == m;
      assert OccursAt(Dump(j), m, |pre|);
      CutAtFree(Dump(j), m);
    } else {
      FindQuoted(pre, q, m, post);
      assert Dump(j)[..|pre|] == pre;
    }
  }

  /** A marked text that opens with a bracket stays marked behind text free of the marker. */
  lemma MarkedInside(a: string, d: string, b: string, m: string, dm: string)
    requires MarkedText(d, m, dm) && d != [] && d[0] in {'[', '{'}
    requires DigitMarker(m) && EndsWith(dm, m) && !Contains(a, m)
    requires forall i :: 0 <= i < |dm| ==> dm[i] != '[' && dm[i] != '{'
    ensures MarkedText(a + d + b, m, dm)
  {
    var i := Find(d, dm, 0).value;
    FoundInside(a, d, b, m, dm, i, a + d + b);
    PrefixFreeInside(a, d, i, m);
    PrefixOfJoin(a, d, b, i);
  }

  lemma FoundInside(a: string, d: string, b: string, m: string, dm: string, i: nat, s: string)
    requires s == a + d + b
    requires d != [] && d[0] in {'[', '{'} && Find(d, dm, 0) == Some(i)
    requires EndsWith(dm, m) && !Contains(a, m) && forall i :: 0 <= i < |dm| ==> dm[i] != '[' && dm[i] != '{'
    ensures Find(s, dm, 0) == Some(|a| + i)
  {
    OccursBetween(a, d, b, dm, i);
    NoneEarlier(a, d, b, m, dm, i);
    FindIs(s, dm, |a| + i);
  }

  lemma NoneEarlier(a: string, d: string, b: string, m: string, dm: string, i: nat)
    requires d != [] && d[0] in {'[', '{'} && Find(d, dm, 0) == Some(i)
    requires EndsWith(dm, m) && !Contains(a, m) && forall i :: 0 <= i < |dm| ==> dm[i] != '[' && dm[i] != '{'
    ensures forall k: nat :: k < |a| + i ==> !OccursAt(a + d + b, dm, k)
  {
    forall k: nat | k < |a| + i ensures !OccursAt(a + d + b, dm, k) { NotEarlier(a, d, b, m, dm, i, k); }
  }

  lemma OccursBetween(a: string, d: string, b: string, dm: string, i: nat)
    requires OccursAt(d, dm, i)
    ensures OccursAt(a + d + b, dm, |a| + i)
  {
    OccursShift(a, d, dm, i);
    OccursInPrefix(a + d, b, dm, |a| + i);
  }

  lemma NotEarlier(a: string, d: string, b: string, m: string, dm: string, i: nat, k: nat)
    requires d != [] && d[0] in {'[', '{'} && Find(d, dm, 0) == Some(i) && k < |a| + i
    requires EndsWith(dm, m) && !Contains(a, m) && forall i :: 0 <= i < |dm| ==> dm[i] != '[' && dm[i] != '{'
    ensures !OccursAt(a + d + b, dm, k)
  {
    if OccursAt(a + d + b, dm, k) { EarlierInside(a, d, b, m, dm, i, k); }
  }

  lemma ContainerOpens(j: Json)
    requires IsContainer(j)
    ensures Dump(j) != [] && Dump(j)[0] in {'[', '{'}
  {
  }

  lemma PrefixOfJoin(a: string, d: string, b: string, i: nat)
    requires i <= |d|
    ensures (a + d + b)[..|a| + i] == a + d[..i]
  {
  }

  lemma PrefixFreeInside(a: string, d: string, i: nat, m: string)
    requires i <= |d| && DigitMarker(m) && !Contains(a, m) && !Contains(d[..i], m) && d != [] && !IsDigit(d[0])
    ensures !Contains(a + d[..i], m)
  {
    if i == 0 {
      assert a + d[..i] == a;
    } else {
      assert d[..i] == [d[0]] + d[1..i] && a + d[..i] == a + [d[0]] + d[1..i];
      FreeSuffix([d[0]], d[1..i], m);
      FreeJoin(a, d[0], d[1..i], m);
    }
  }

  lemma EarlierInside(a: string, d: string, b: string, m: string, dm: string, i: nat, k: nat)
    requires OccursAt(a + d + b, dm, k) && k < |a| + i && OccursAt(d, dm, i) && EndsWith(dm, m)
    requires d != [] && d[0] in {'[', '{'} && forall x :: 0 <= x < |dm| ==> dm[x] != '[' && dm[x] != '{'
    ensures Contains(a, m) || exists n: nat :: n < i && OccursAt(d, dm, n)
  {
    var s := a + d + b;
    if |a| <= k {
      assert s[k..k + |dm|] == d[k - |a|..k - |a| + |dm|];
      assert OccursAt(d, dm, k - |a|);
    } else if |a| < k + |dm| {
      OccursCovers(s, dm, k, |a|);
    } else {
      assert s[k..k + |dm|] == a[k..k + |dm|];
      assert OccursAt(a, dm, k);
      assert a[k..k + |dm|][|dm| - |m|..] == m;
      assert OccursAt(a, m, k + |dm| - |m|);
    }
  }

  lemma WrapArrDump(items: seq<Json>, v: Json, m: string, dm: string)
    requires IsContainer(v) && MarkedDump(v, m, dm)
    requires Clear(Arr(items), m) && DigitMarker(m) && EndsWith(dm, m)
    requires forall i :: 0 <= i < |dm| ==> dm[i] != '[' && dm[i] != '{'
    ensures MarkedDump(Arr(items + [v]), m, dm)
  {
    DumpItemsSnoc(items, v);
    FreeDumpItems(items, m);
    FreePunctuation(DumpedItems(items), '[', m);
    WrapGroup("[", DumpedItems(items), Dump(v), "]");
    ContainerOpens(v);
    MarkedInside("[" + DumpedItems(items), Dump(v), "]", m, dm);
  }

  lemma WrapObjDump(members: seq<Member>, k: string, v: Json, m: string, dm: string)
    requires IsContainer(v) && MarkedDump(v, m, dm)
    requires Clear(Obj(members), m) && !Shows(k, m) && DigitMarker(m) && EndsWith(dm, m)
    requires forall i :: 0 <= i < |dm| ==> dm[i] != '[' && dm[i] != '{'
    ensures MarkedDump(Obj(members + [Member(k, v)]), m, dm)
  {
    DumpMembersSnoc(members, Member(k, v));
    var d := DumpedMembers(members);
    FreeDumpMembers(members, m);
    FreeStr(k, m);
    FreePunctuation(d, '{', m);
    FreeKey("{" + d, DumpText(k), m);
    FreePunctuation("{" + d + DumpStr(k), ':', m);
    WrapObjGroup("{", d, DumpStr(k), ":", Dump(v), "}");
    ContainerOpens(v);
    MarkedInside("{" + d + DumpStr(k) + ":", Dump(v), "}", m, dm);
  }

  lemma WrapGroup(o: string, d: string, v: string, c: string)
    ensures o + (d + v) + c == (o + d) + v + c
  {
  }

  lemma WrapObjGroup(o: string, d: string, k: string, c: string, v: string, z: string)
    ensures o + (d + k + c + v) + z == (o + d + k + c) + v + z
  {
  }

  lemma DigitsArePlain(m: string)
    requires DigitMarker(m)
    ensures PlainMarker(m)
  {
  }

  lemma DigitsAreFirm(m: string)
    requires DigitMarker(m)
    ensures Firm(m)
  {
  }

  lemma HasSelf(x: string, m: string)
    ensures Has(x + m, m)
  {
    assert OccursAt(x + m, m, |x|);
  }

  lemma PointKeyFresh(s: State, m: string)
    requires Shaped(s) && s.stack.Push? && !s.mode.Failed? && Resting(s)
    requires PlainMarker(m) && !Contains(StateText(s), m) && HealingPoint(s, m).value == Num("1")
    ensures var p := HealingPoint(s, m); !HasKey(p.stack.top.members, p.stack.top.pending.value)
  {
    var x := match s.mode case InString(_, x) => x case InEscape(_, x) => x + "\\" case _ => [];
    assert [] + m == m;
    MarkerKeyFresh(s, x, m);
  }

  /** The string or the key at the point holds the marker. */
  lemma PointHas(s: State, m: string)
    requires Shaped(s) && s.stack.Push? && !s.mode.Failed? && Resting(s)
    ensures var p := HealingPoint(s, m);
      p.stack.Push? && p.stack.below == s.stack.below &&
      if p.value == Num("1")
      then p.stack.top.ObjFrame? && p.stack.top.pending.Some? && Has(p.stack.top.pending.value, m)
      else p.value.Str? && Has(p.value.s, m)
  {
    var x := match s.mode case InString(_, x) => x case InEscape(_, x) => x + "\\" case _ => [];
    HasSelf(x, m);
    assert [] + m == m;
  }

  lemma QuotedMarkerEnds(q: string, m: string)
    requires q in {[], "\"", ",\"", ":\"", "\\"} && DigitMarker(m)
    ensures EndsWith(q + m, m) && forall i :: 0 <= i < |q + m| ==> (q + m)[i] != '[' && (q + m)[i] != '{'
  {
    assert (q + m)[|q|..] == m;
  }

  lemma BelowAwaits(s: State)
    requires Shaped(s) && s.stack.Push? && !s.mode.Failed?
    ensures Awaiting(s.stack.below)
  {
  }
}
