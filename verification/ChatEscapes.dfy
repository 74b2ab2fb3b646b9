/** Markers spelled with `\u` escapes: concrete inputs that the check of the raw input lets through. */
module ChatEscapes {
  import opened Text
  import opened JsonText
  import opened JsonReader
  import opened JsonShape
  import opened JsonProbes
  import opened JsonPartial
  import opened JsonHealing
  import opened JsonRoundTrip
  import opened JsonErrors
  import opened ChatCleanup
  import opened ChatCleanupResult
  import opened ChatHealing
  import opened ChatPaths
  import opened ChatParser

  const CODED_HEAD: string := ['{'] + ['"', 'a', '"', ':']
  const CODED_TEXT: string := ['"', '1'] + ['\\', 'u', '0', '0', '3', '2'] + ['"', '}']

  /** `{"a":"1\u0032"}` */
  const CODED := CODED_HEAD + CODED_TEXT

  /** A digit written as an escape. */
  lemma ReadCode(role: Role, stack: Stack, x: string, c: char)
    requires IsDigit(c)
    ensures Run(State(InString(role, x), stack), ['\\', 'u', '0', '0', '3', c])
         == State(InString(role, x + [c]), stack)
  {
    var s := State(InString(role, x), stack);
    CodeStarts(s);
    ReadDigits(role, stack, x, c);
    RunConcat(s, ['\\', 'u'], ['0', '0', '3', c]);
    assert ['\\', 'u'] + ['0', '0', '3', c] == ['\\', 'u', '0', '0', '3', c];
  }

  lemma ReadDigits(role: Role, stack: Stack, x: string, c: char)
    requires IsDigit(c)
    ensures Run(State(InUnicode(role, x, Hex(None, [])), stack), ['0', '0', '3', c])
         == State(InString(role, x + [c]), stack)
  {
    Run4(State(InUnicode(role, x, Hex(None, [])), stack), '0', '0', '3', c);
    CodeOfDigit(c);
  }

  lemma CodeOfDigit(c: char)
    requires IsDigit(c)
    ensures Decode(Hex(None, []), '0') == More(Hex(None, [0]))
    ensures Decode(Hex(None, [0]), '0') == More(Hex(None, [0, 0]))
    ensures Decode(Hex(None, [0, 0]), '3') == More(Hex(None, [0, 0, 3]))
    ensures Decode(Hex(None, [0, 0, 3]), c) == Decoded(c)
  {
    assert [] + [HexDigit('0')] == [0] && [0] + [HexDigit('0')] == [0, 0] && [0, 0] + [HexDigit('3')] == [0, 0, 3];
  }

  lemma ReadStart(stack: Stack, c: char)
    requires IsRaw(c)
    ensures Run(State(Value, stack), ['"', c]) == State(InString(Val, [c]), stack)
  {
    Run2(State(Value, stack), '"', c);
    assert [] + [c] == [c];
  }

  lemma ReadEnd(k: string, x: string, below: Stack)
    ensures Run(State(InString(Val, x), Push(ObjFrame([], Some(k)), below)), ['"', '}'])
         == Complete(below, Obj([Member(k, Str(x))]))
  {
    Run2(State(InString(Val, x), Push(ObjFrame([], Some(k)), below)), '"', '}');
  }

  lemma ReadCodedText(k: string, below: Stack)
    ensures Run(State(Value, Push(ObjFrame([], Some(k)), below)), CODED_TEXT)
         == Complete(below, Obj([Member(k, Str(['1', '2']))]))
  {
    var stack := Push(ObjFrame([], Some(k)), below);
    ReadStart(stack, '1');
    ReadCode(Val, stack, ['1'], '2');
    assert ['1'] + ['2'] == ['1', '2'];
    ReadEnd(k, ['1', '2'], below);
    Run3Parts(State(Value, stack), ['"', '1'], ['\\', 'u', '0', '0', '3', '2'], ['"', '}']);
  }

  lemma CodedParses()
    ensures Run(START, CODED) == State(Done(Obj([Member("a", Str("12"))])), Bottom)
  {
    ReadOpenKey(Bottom, 'a');
    ReadCodedText("a", Bottom);
    RunConcat(START, CODED_HEAD, CODED_TEXT);
    assert ['1', '2'] == "12" && ['a'] == "a";
  }

  lemma CodedIsFree()
    ensures !Contains(CODED, "12")
  {
    PairFree(CODED, '1', '2');
    assert ['1', '2'] == "12";
  }

  lemma PairFree(s: string, a: char, b: char)
    requires forall i :: 0 <= i < |s| && s[i] == a ==> i + 1 < |s| && s[i + 1] != b
    ensures !Contains(s, [a, b])
  {
    forall i: nat ensures !OccursAt(s, [a, b], i) {
      if OccursAt(s, [a, b], i) { PairAt(s[i..i + 2], s, i); }
    }
  }

  lemma PairAt(w: string, s: string, i: nat)
    requires i + 2 <= |s| && w == s[i..i + 2]
    ensures w[0] == s[i] && w[1] == s[i + 1]
  {
  }

  /** The check of the raw input does not see a marker written as an escape: the JSON is complete and is parsed,
      yet its member is dropped and the flag raised. */
  lemma CodedMarkerFound(isPartial: bool)
    ensures !Contains(CODED, "12") && ParseOrHeal(CODED, "12") == Parsed(Obj([Member("a", Str("12"))]), |CODED|)
    ensures ConsumeJson(CODED, 0, isPartial, "12", [["x"]], []) == Taken(Obj([]), true, |CODED|)
  {
    CodedIsFree();
    CodedParses();
    WholeParses(CODED, "12");
    assert CODED[0..] == CODED;
    CodedDropped(Context("12", isPartial, [], [], [["x"]], []));
    assert [] !in [["x"]] by { assert [["x"]][0] == ["x"] && |["x"]| == 1; }
  }

  lemma WholeParses(t: string, m: string)
    requires Run(START, t).mode.Done?
    ensures ParseOrHeal(t, m) == Parsed(Run(START, t).mode.value, |t|)
  {
    FirstBadViable(START, t);
    assert t[..|t|] == t;
  }

  lemma CodedDropped(c: Context)
    requires c.marker == "12" && c.argsPaths == [["x"]] && c.contentPaths == []
    ensures Walk(c, Obj([Member("a", Str("12"))]), [], false) == Ran(Obj([]), ["a"], true)
  {
    assert c.argsPaths[0] == ["x"] && |["x"]| == 1;
    assert OccursAt("12", "12", 0);
    assert !OccursAt("a", "12", 0);
    assert [] + ["a"] == ["a"];
  }

  const CODED_KEY: string := ['{', '"', '1'] + ['\\', 'u', '0', '0', '3', '2'] + ['"', ':']

  /** `{"1\u0032":null` */
  const CODED_FIRST := CODED_KEY + ['n', 'u', 'l', 'l']

  lemma ReadKeyStart(stack: Stack)
    ensures Run(State(Value, stack), ['{', '"', '1'])
         == State(InString(Key, ['1']), Push(ObjFrame([], None), stack))
  {
    Run2(State(Value, stack), '{', '"');
    RunSnoc(State(Value, stack), ['{', '"'], '1');
    assert ['{', '"'] + ['1'] == ['{', '"', '1'] && [] + ['1'] == ['1'];
  }

  lemma ReadCodedEnd(stack: Stack, x: string)
    ensures Run(State(InString(Key, x), Push(ObjFrame([], None), stack)), ['"', ':'])
         == State(Value, Push(ObjFrame([], Some(x)), stack))
  {
    Run2(State(InString(Key, x), Push(ObjFrame([], None), stack)), '"', ':');
  }

  lemma ReadCodedKey(stack: Stack)
    ensures Run(State(Value, stack), CODED_KEY) == State(Value, Push(ObjFrame([], Some(['1', '2'])), stack))
  {
    ReadKeyStart(stack);
    ReadCode(Key, Push(ObjFrame([], None), stack), ['1'], '2');
    assert ['1'] + ['2'] == ['1', '2'];
    ReadCodedEnd(stack, ['1', '2']);
    Run3Parts(State(Value, stack), ['{', '"', '1'], ['\\', 'u', '0', '0', '3', '2'], ['"', ':']);
  }

  lemma ReadCodedFirst()
    ensures Run(START, CODED_FIRST) == State(After, Push(ObjFrame([Member(['1', '2'], Null)], None), Bottom))
  {
    ReadCodedKey(Bottom);
    ReadNull(Push(ObjFrame([], Some(['1', '2'])), Bottom));
    RunConcat(START, CODED_KEY, ['n', 'u', 'l', 'l']);
  }

  lemma ReplacesMember(m: string)
    ensures Insert([Member(m, Null)], m, Num("1")) == [Member(m, Num("1"))]
  {
    assert [Member(m, Null)][1..] == [] && [Member(m, Num("1"))] + [] == [Member(m, Num("1"))];
  }

  lemma PointBehind(s: State, m: string)
    requires s == State(After, Push(ObjFrame([Member(m, Null)], None), Bottom))
    ensures Shaped(s)
    ensures HealingPoint(s, m) == Point(Push(ObjFrame([Member(m, Null)], Some(m)), Bottom), Num("1"), ",\"")
    ensures Plug(HealingPoint(s, m).stack, HealingPoint(s, m).value) == Obj([Member(m, Num("1"))])
  {
    ReplacesMember(m);
  }

  /** What stops behind the one member of an object whose key is the marker: the marker takes its place. */
  lemma HealsOverKey(t: string, m: string)
    requires DigitMarker(m) && t != [] && t[|t| - 1] == 'l'
    requires Run(START, t) == State(After, Push(ObjFrame([Member(m, Null)], None), Bottom))
    ensures ParseOrHeal(t, m) == Healed(Obj([Member(m, Num("1"))]), m, ",\"" + m, |t|)
  {
    PointBehind(Run(START, t), m);
    assert Kept(t) == t;
    HealsTruncated(t, m);
  }

  lemma WithoutChar(d: string, c: char, rest: string)
    requires c !in d
    ensures !Contains(d, [c] + rest)
  {
    forall i: nat ensures !OccursAt(d, [c] + rest, i) {
      if OccursAt(d, [c] + rest, i) { OccursCovers(d, [c] + rest, i, i); }
    }
  }

  lemma NoCommaIn(d: string, a: string, m: string, b: string)
    requires d == a + m + b && DigitMarker(m) && ',' !in a && ',' !in b
    ensures ',' !in d
  {
  }

  lemma OneObject(m: string)
    requires DigitMarker(m)
    ensures Dump(Obj([Member(m, Num("1"))])) == "{" + ("\"" + m + "\"" + ":" + "1") + "}"
  {
    OneMember(m);
    DumpTextPlain(m);
  }

  lemma OneEnd()
    ensures "\"" + ":" + "1" + "}" == "\":1}" && "{" + "\"" == "{\""
  {
  }

  /** The dump of the one member. */
  lemma OneDumped(m: string)
    requires DigitMarker(m)
    ensures Dump(Obj([Member(m, Num("1"))])) == "{\"" + m + "\":1}"
  {
    OneObject(m);
    OneEnd();
    OneGlue("{", "\"", m, ":", "1", "}");
  }

  lemma OneGlue(o: string, q: string, m: string, c: string, v: string, z: string)
    ensures o + (q + m + q + c + v) + z == (o + q) + m + (q + c + v + z)
  {
  }

  lemma NoCommaThere(m: string)
    requires DigitMarker(m)
    ensures !Contains("{\"" + m + "\":1}", ",\"" + m)
  {
    NoCommaIn("{\"" + m + "\":1}", "{\"", m, "\":1}");
    WithoutChar("{\"" + m + "\":1}", ',', "\"" + m);
    assert ",\"" + m == [','] + ("\"" + m);
  }

  lemma OneMember(k: string)
    ensures DumpMembers([Member(k, Num("1"))]) == DumpStr(k) + ":" + "1"
  {
    assert [Member(k, Num("1"))][..0] == [];
    assert [] + DumpStr(k) == DumpStr(k);
  }

  /** Argument text without the dump marker is not cut, and the flag not raised. */
  lemma ConsumedWhole(m: string, end: nat)
    requires DigitMarker(m)
    ensures Cleaned(Context(m, true, m, ",\"" + m, [[]], []), Obj([Member(m, Num("1"))]), end)
         == Taken(Str("{\"" + m + "\":1}"), false, end)
  {
    var c, j := Context(m, true, m, ",\"" + m, [[]], []), Obj([Member(m, Num("1"))]);
    OneDumped(m);
    NoCommaThere(m);
    HasContains(Dump(j), c.dumpMarker);
    assert c.argsPaths[0] == [];
    ArgumentWhole(c, j);
  }

  lemma ArgumentWhole(c: Context, j: Json)
    requires [] in c.argsPaths && !Has(Dump(j), c.dumpMarker) && IsContainer(j)
    ensures Walk(c, j, [], false) == Ran(Str(Dump(j)), [], false)
  {
    ContainerOpens(j);
  }

  lemma TakenWhole(t: string, m: string)
    requires DigitMarker(m) && ParseOrHeal(t, m) == Healed(Obj([Member(m, Num("1"))]), m, ",\"" + m, |t|)
    ensures ConsumeJson(t, 0, true, m, [[]], []) == Taken(Str("{\"" + m + "\":1}"), false, |t|)
  {
    assert t[0..] == t;
    ConsumedWhole(m, |t|);
  }

  /** Where the marker is the first key of an object that the text stops in behind a member, written as an escape,
      it is put in that key's place and not behind a comma: healed JSON is then consumed as complete. */
  lemma CodedKeyHidesHealing()
    ensures !Contains(CODED_FIRST, "12") && ParseOrHeal(CODED_FIRST, "12").Healed?
    ensures ConsumeJson(CODED_FIRST, 0, true, "12", [[]], [])
         == Taken(Str("{\"" + "12" + "\":1}"), false, |CODED_FIRST|)
  {
    assert ['1', '2'] == "12";
    PairFree(CODED_FIRST, '1', '2');
    ReadCodedFirst();
    HealsOverKey(CODED_FIRST, "12");
    TakenWhole(CODED_FIRST, "12");
  }
}
