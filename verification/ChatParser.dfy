/** The cursor machine that parses a chat message while it may still be arriving. */
module ChatParser {
  import opened Text
  import opened CommonStrings
  import opened JsonText
  import opened JsonReader
  import opened JsonLocator
  import opened JsonPartial
  import opened JsonRoundTrip
  import opened JsonErrors
  import opened ChatCleanup
  import opened ChatCleanupResult
  import opened ChatDecoded
  import opened ChatHealing
  import opened ChatMarked
  import opened ChatFlag
  import opened ChatReasoning

  // Consuming JSON, as a function

  datatype Consumed =
    | Taken(json: Json, isPartial: bool, end: nat)
    | NotFound          // nothing that could be JSON
    | PartialError      // healed JSON in a message that is complete
    | ContentError      // a content path leads to something other than a string
    | HealError         // healing threw

  /** `try_consume_json_with_dumped_args` as a function of the parser's fields and the paths. */
  function ConsumeJson(
    input: string, pos: nat, isPartial: bool, m: string, args: seq<Path>, contents: seq<Path>): Consumed
    requires pos <= |input|
  {
    match ParseOrHeal(input[pos..], m)
    case NotJson => NotFound
    case Throws => HealError
    case Parsed(j, n) =>
      if args == [] then Taken(j, false, pos + n)
      else if [] in args then Taken(Str(Dump(j)), false, pos + n)
      else Cleaned(Context(m, isPartial, [], [], args, contents), j, pos + n)
    case Healed(j, _, dm, n) =>
      if !isPartial then PartialError
      else Cleaned(Context(m, isPartial, m, dm, args, contents), j, pos + n)
  }

  function Cleaned(c: Context, j: Json, end: nat): Consumed {
    match Walk(c, j, [], false)
    case Threw => ContentError
    case Ran(v, _, found) => Taken(v, found, end)
  }

  // Properties

  /** What is decoded of a text is not touched by the marker: JSON that is parsed holds it in no key and in no
      string of a container, and text that is healed decodes nothing that a dump shows with it. */
  predicate Unmarked(t: string, m: string) {
    match ParseOrHeal(t, m)
    case Parsed(j, _) => Untouched(j, m)
    case Healed(_, _, _, _) => ClearBasis(t, m)
    case _ => true
  }

  lemma RestFree(input: string, pos: nat, m: string)
    requires pos <= |input| && !Contains(input, m)
    ensures !Contains(input[pos..], m)
  {
    assert input == input[..pos] + input[pos..];
    FreeSuffix(input[..pos], input[pos..], m);
  }

  /** Without `\u` escapes the parser's check of its raw input is enough: its marker is not in the input. */
  lemma RawUnmarked(input: string, pos: nat, m: string)
    requires pos <= |input| && DigitMarker(m) && !Contains(input, m) && NoCodes(input[pos..])
    ensures Unmarked(input[pos..], m)
  {
    var t := input[pos..];
    RestFree(input, pos, m);
    ClearFromRaw(t, m);
    if ParseOrHeal(t, m).Parsed? {
      var n := if Locate(t).foundError then Locate(t).position else |t|;
      assert t == t[..n] + t[n..];
      FreePrefix(t[..n], t[n..], m);
      if n == |t| { assert t[..n] == t; }
      forall k: nat | k <= n ensures !OnCode(t[..n][..k]) { assert t[..n][..k] == t[..k]; }
      ParsedUntouched(t[..n], m);
    }
  }

  lemma ParsedUntouched(t: string, m: string)
    requires DigitMarker(m) && !Contains(t, m) && NoCodes(t) && Parse(t).Some?
    ensures Untouched(Parse(t).value, m)
  {
    RunClear(t, m);
    FinishClear(Run(START, t), t, m);
    ClearIsFree(Parse(t).value, m);
    FreeUntouched(Parse(t).value, m);
  }

  /** The partial flag of what is consumed is raised exactly for healed JSON, but for one case: a complete string
      at the top, with the empty path among the content paths and only other paths among the arguments. */
  predicate FlagFits(input: string, pos: nat, isPartial: bool, m: string, args: seq<Path>, contents: seq<Path>)
    requires pos <= |input|
  {
    var t, r := ParseOrHeal(input[pos..], m), ConsumeJson(input, pos, isPartial, m, args, contents);
    r.Taken? ==>
      (r.isPartial
       <==> t.Healed? || (t.Parsed? && t.json.Str? && [] in contents && args != [] && [] !in args))
  }

  /** The flag fits whatever is decoded, when the marker is not in it. */
  lemma PartialExactlyWhenHealed(
    input: string, pos: nat, isPartial: bool, m: string, args: seq<Path>, contents: seq<Path>)
    requires pos <= |input| && DigitMarker(m) && Unmarked(input[pos..], m)
    ensures FlagFits(input, pos, isPartial, m, args, contents)
  {
    var t := ParseOrHeal(input[pos..], m);
    if t.Healed? {
      HealedUnmarks(input[pos..], m, args, contents);
    } else if t.Parsed? {
      UnhealedFlag(Context(m, isPartial, [], [], args, contents), t.json, [], false);
    }
  }

  /** For JSON that is parsed without healing this is exact: the flag fits, for all paths, exactly when the marker
      is in no key and in no string of a container. */
  lemma FlagFitsExactly(input: string, pos: nat, m: string)
    requires pos <= |input| && ParseOrHeal(input[pos..], m).Parsed?
    ensures (forall isPartial: bool, args: seq<Path>, contents: seq<Path> ::
               FlagFits(input, pos, isPartial, m, args, contents))
       <==> Untouched(ParseOrHeal(input[pos..], m).json, m)
  {
    var j := ParseOrHeal(input[pos..], m).json;
    if Untouched(j, m) {
      forall isPartial: bool, args: seq<Path>, contents: seq<Path>
        ensures FlagFits(input, pos, isPartial, m, args, contents)
      {
        UnhealedFlag(Context(m, isPartial, [], [], args, contents), j, [], false);
      }
    } else {
      FlagMisfits(input, pos, m, Deep(MemberCount(j) + 1));
    }
  }

  /** A path of n keys. */
  function Deep(n: nat): (p: Path)
    ensures |p| == n
  {
    seq(n, i => "")
  }

  /** An argument path too long to be met leaves the flag to the marker alone. */
  lemma FlagMisfits(input: string, pos: nat, m: string, target: Path)
    requires pos <= |input| && ParseOrHeal(input[pos..], m).Parsed?
    requires var j := ParseOrHeal(input[pos..], m).json; !Untouched(j, m) && MemberCount(j) < |target|
    ensures var r := ConsumeJson(input, pos, true, m, [target], []); r.Taken? && r.isPartial
    ensures !FlagFits(input, pos, true, m, [target], [])
  {
    var c := Context(m, true, [], [], [target], []);
    assert c.argsPaths[0] == target;
    TouchedFlag(c, ParseOrHeal(input[pos..], m).json, [], false);
  }

  /** No key, string or number of what is consumed from healed JSON holds the marker, and the cursor
      stops where the JSON was cut or went wrong. */
  lemma ConsumedIsUnmarked(input: string, pos: nat, m: string, args: seq<Path>, contents: seq<Path>)
    requires pos <= |input| && DigitMarker(m) && Unmarked(input[pos..], m)
    requires ParseOrHeal(input[pos..], m).Healed?
    ensures var r := ConsumeJson(input, pos, true, m, args, contents);
      r.ContentError?
      || (r.Taken? && r.isPartial && Free(r.json, m) && r.end == pos + Locate(input[pos..]).position)
  {
    HealedUnmarks(input[pos..], m, args, contents);
    DigitsAreFirm(m);
    HealsExactly(input[pos..], m);
  }

  /** The exceptional case on a concrete input: the whole string `"a"` comes back empty and partial. */
  lemma ContentStringAtTopIsLost()
    ensures ConsumeJson("\"a\"", 0, false, "7", [["x"]], [[]]) == Taken(Str(""), true, 3)
  {
    var t := "\"a\"";
    assert t[0..] == t;
    var s1 := State(InString(Val, []), Bottom);
    assert [] + ['a'] == "a";
    var s2 := State(InString(Val, "a"), Bottom);
    assert Step(START, '"') == s1 && Step(s1, 'a') == s2 && Step(s2, '"') == State(Done(Str("a")), Bottom);
    assert t[1..] == ['a', '"'] && t[1..][1..] == ['"'] && ['"'][1..] == [];
    assert Run(START, t) == State(Done(Str("a")), Bottom);
    FirstBadViable(START, t);
    assert t[..3] == t;
    var c := Context("7", false, [], [], [["x"]], [[]]);
    assert [] !in c.argsPaths by { assert c.argsPaths[0] == ["x"] && |["x"]| == 1; }
    assert c.contentPaths[0] == [];
    assert OccursAt("a", [], 0);
  }

  // The pass over healed JSON, with the path it mutates

  lemma MembersFrom(members: seq<Member>, i: nat)
    requires i < |members|
    ensures members[i..] != [] && members[i..][0] == members[i] && members[i..][1..] == members[i + 1..]
  {
  }

  class HealingCleaner {
    const c: Context
    var path: Path
    var found: bool

    constructor (c: Context)
      ensures this.c == c && path == [] && !found
    {
      this.c := c;
      path, found := [], false;
    }

    /** Leaves the path as it is when it breaks off: None stands for the exception. */
    method Clean(j: Json) returns (r: Option<Json>)
      modifies this
      ensures Leaves(Walk(c, j, old(path), old(found)), r)
      decreases j, 1
    {
      if path in c.argsPaths {
        var arguments := DumpArguments(j);
        return Some(Str(arguments));
      }
      if path in c.contentPaths {
        if !j.Str? { return None; }
        var str := j.s;
        var idx := Find(str, c.rawMarker, 0);
        if idx.Some? {
          str := str[..idx.value];
          found := true;
        }
        return Some(Str(str));
      }
      match j
      case Obj(members) => r := CleanObject(members);
      case Arr(items) => r := CleanArray(items);
      case _ => r := Some(j);
    }

    /** What a pass over a value amounts to for this object and the value returned. */
    ghost predicate Leaves(w: Pass, r: Option<Json>)
      reads this
    {
      match w
      case Threw => r == None
      case Ran(v, p, f) => r == Some(v) && path == p && found == f
    }

    method DumpArguments(j: Json) returns (arguments: string)
      modifies this`found
      ensures arguments == ArgumentText(c, j) && found == (old(found) || ArgumentCut(c, j))
    {
      arguments := Dump(j);
      if c.isPartial && c.rawMarker != [] {
        var idx := Find(arguments, c.dumpMarker, 0);
        if idx.Some? {
          arguments := arguments[..idx.value];
          found := true;
        }
        if arguments == "\"" {
          arguments := "";
        }
      }
    }

    method CleanObject(members: seq<Member>) returns (r: Option<Json>)
      modifies this
      ensures Leaves(WalkMembers(c, members, [], old(path), old(found)), r)
      decreases members, 0
    {
      var obj, i := [], 0;
      ghost var target := WalkMembers(c, members, [], path, found);
      assert members[0..] == members;
      while i < |members|
        invariant 0 <= i <= |members|
        invariant WalkMembers(c, members[i..], obj, path, found) == target
      {
        var Member(key, value) := members[i];
        MembersFrom(members, i);
        if Find(key, c.marker, 0).Some? {
          found := true;
          return Some(Obj(obj));
        }
        path := path + [key];
        if value.Str? {
          if Find(value.s, c.marker, 0).Some? {
            found := true;
            if path in c.contentPaths && c.rawMarker == c.dumpMarker {
              var v := Clean(value);
              if v.None? { return None; }
              obj := Insert(obj, key, v.value);
            }
            return Some(Obj(obj));
          }
          obj := Insert(obj, key, value);
        } else {
          var v := Clean(value);
          if v.None? { return None; }
          obj := Insert(obj, key, v.value);
        }
        path := path[..|path| - 1];
        i := i + 1;
      }
      return Some(Obj(obj));
    }

    method CleanArray(items: seq<Json>) returns (r: Option<Json>)
      modifies this
      ensures Leaves(WalkItems(c, items, [], old(path), old(found)), r)
      decreases items, 0
    {
      var arr, i := [], 0;
      ghost var target := WalkItems(c, items, [], path, found);
      assert items[0..] == items;
      while i < |items|
        invariant 0 <= i <= |items|
        invariant WalkItems(c, items[i..], arr, path, found) == target
      {
        var value := items[i];
        assert items[i..][1..] == items[i + 1..] && items[i..][0] == items[i];
        if value.Str? && Find(value.s, c.marker, 0).Some? {
          found := true;
          return Some(Arr(arr));
        }
        var v := Clean(value);
        if v.None? { return None; }
        arr := arr + [v.value];
        i := i + 1;
      }
      return Some(Arr(arr));
    }
  }

  // The message parser

  datatype ReasoningFormat = FORMAT_NONE | FORMAT_AUTO | FORMAT_DEEPSEEK_LEGACY | FORMAT_DEEPSEEK

  datatype Syntax = Syntax(reasoningFormat: ReasoningFormat, reasoningInContent: bool, thinkingForcedOpen: bool)

  /** What parsing moves: the cursor and the message gathered so far. */
  datatype Progress = Progress(pos: nat, content: string, reasoning: string)

  function HandleReasoning(
    syntax: Syntax, p: Progress, reasoning: string, closed: bool, startThink: string, endThink: string): Progress
  {
    var stripped := Strip(reasoning);
    if stripped == [] then p
    else if syntax.reasoningInContent then
      var deepseek := syntax.reasoningFormat.FORMAT_DEEPSEEK?;
      p.(content := p.content + (if deepseek then "<think>" else startThink) + stripped
                    + (if !closed then "" else if deepseek then "</think>" else endThink))
    else p.(reasoning := p.reasoning + stripped)
  }

  /** `try_parse_reasoning`; None when there is no reasoning here. */
  function ParseReasoning(
    syntax: Syntax, input: string, isPartial: bool, p: Progress, startThink: string, endThink: string): Option<Progress>
    requires p.pos <= |input|
  {
    if syntax.reasoningFormat.FORMAT_NONE? then None
    else if !syntax.thinkingForcedOpen && !(startThink <= input[p.pos..]) then None
    else
      var from := if syntax.thinkingForcedOpen then p.pos else p.pos + |startThink|;
      Some(TakeReasoning(syntax, input, isPartial, p.(pos := from), startThink, endThink))
  }

  /** Reasoning from the cursor on, its start tag being behind it. */
  function TakeReasoning(
    syntax: Syntax, input: string, isPartial: bool, p: Progress, startThink: string, endThink: string): Progress
    requires p.pos <= |input|
  {
    match FindLiteral(input, p.pos, isPartial, endThink)
    case Some(f) =>
      var q := HandleReasoning(syntax, p, f.prelude, true, startThink, endThink);
      q.(pos := SkipSpaces(input, f.end))
    case None =>
      var q := HandleReasoning(syntax, p, input[p.pos..], !isPartial, startThink, endThink);
      q.(pos := |input|)
  }

  /** Where the reasoning of a message starts. */
  function ReasoningStart(syntax: Syntax, pos: nat, startThink: string): nat {
    if syntax.thinkingForcedOpen then pos else pos + |startThink|
  }

  /** Reasoning that is not inlined in the content is added to the reasoning content, stripped. */
  lemma ParsedReasoning(
    syntax: Syntax, input: string, isPartial: bool, p: Progress, startThink: string, endThink: string)
    requires p.pos <= |input| && !syntax.reasoningInContent
    requires ParseReasoning(syntax, input, isPartial, p, startThink, endThink).Some?
    ensures var from := ReasoningStart(syntax, p.pos, startThink);
      from <= |input| &&
      var q := ParseReasoning(syntax, input, isPartial, p, startThink, endThink).value;
      q.reasoning == p.reasoning + Reasoning(input, from, isPartial, endThink) && q.content == p.content
  {
    var from := ReasoningStart(syntax, p.pos, startThink);
    if !syntax.thinkingForcedOpen { assert |startThink| <= |input[p.pos..]|; }
    TakenReasoning(syntax, input, isPartial, Progress(from, p.content, p.reasoning), startThink, endThink);
  }

  lemma TakenReasoning(
    syntax: Syntax, input: string, isPartial: bool, p: Progress, startThink: string, endThink: string)
    requires p.pos <= |input| && !syntax.reasoningInContent
    ensures var q := TakeReasoning(syntax, input, isPartial, p, startThink, endThink);
      q.reasoning == p.reasoning + Reasoning(input, p.pos, isPartial, endThink) && q.content == p.content
  {
    assert p.reasoning + [] == p.reasoning;
  }

  lemma FirstReasoning(syntax: Syntax, input: string, isPartial: bool, startThink: string, endThink: string)
    requires !syntax.reasoningInContent && !syntax.reasoningFormat.FORMAT_NONE?
    requires syntax.thinkingForcedOpen || startThink <= input
    ensures var from := ReasoningStart(syntax, 0, startThink);
      var p := ParseReasoning(syntax, input, isPartial, Progress(0, "", ""), startThink, endThink);
      p.Some? && from <= |input| && p.value.reasoning == Reasoning(input, from, isPartial, endThink)
  {
    assert input[0..] == input;
    ParsedReasoning(syntax, input, isPartial, Progress(0, "", ""), startThink, endThink);
  }

  /** The reasoning content gathered from an input; nothing where the start tag is not there. */
  function Gathered(syntax: Syntax, input: string, isPartial: bool, startThink: string, endThink: string): string {
    match ParseReasoning(syntax, input, isPartial, Progress(0, "", ""), startThink, endThink)
    case Some(p) => p.reasoning
    case None => ""
  }

  /** Whatever the message, no continuation takes back any of the reasoning gathered from it. */
  ghost predicate ReasoningOnlyGrows(syntax: Syntax, startThink: string, endThink: string) {
    forall x: string, y: string, isPartial: bool ::
      Gathered(syntax, x, true, startThink, endThink) <= Gathered(syntax, x + y, isPartial, startThink, endThink)
  }

  lemma GatheredIs(syntax: Syntax, x: string, isPartial: bool, startThink: string, endThink: string)
    requires !syntax.reasoningInContent && !syntax.reasoningFormat.FORMAT_NONE?
    ensures Gathered(syntax, x, isPartial, startThink, endThink) ==
      if syntax.thinkingForcedOpen then Reasoning(x, 0, isPartial, endThink)
      else if startThink <= x then Reasoning(x, |startThink|, isPartial, endThink)
      else ""
  {
    assert x[0..] == x;
    if syntax.thinkingForcedOpen || startThink <= x { FirstReasoning(syntax, x, isPartial, startThink, endThink); }
  }

  /** While a message streams in, the reasoning content gathered from it only grows exactly when thinking
      is forced open or the two tags do not clash. */
  lemma StreamedReasoningGrows(syntax: Syntax, startThink: string, endThink: string)
    requires !syntax.reasoningInContent && !syntax.reasoningFormat.FORMAT_NONE?
    ensures ReasoningOnlyGrows(syntax, startThink, endThink)
      <==> syntax.thinkingForcedOpen || !TagsClash(startThink, endThink)
  {
    TaggedReasoningGrows(startThink, endThink);
    if syntax.thinkingForcedOpen || !TagsClash(startThink, endThink) {
      forall x: string, y: string, isPartial: bool
        ensures Gathered(syntax, x, true, startThink, endThink)
             <= Gathered(syntax, x + y, isPartial, startThink, endThink)
      {
        GathersMore(syntax, x, y, isPartial, startThink, endThink);
      }
    } else {
      var r: string :| !NeverTakenBack(startThink + r, |startThink|, endThink);
      TakesBack(syntax, startThink + r, startThink, endThink);
    }
  }

  lemma GathersMore(syntax: Syntax, x: string, y: string, isPartial: bool, startThink: string, endThink: string)
    requires !syntax.reasoningInContent && !syntax.reasoningFormat.FORMAT_NONE?
    requires !syntax.thinkingForcedOpen
      ==> forall r: string :: NeverTakenBack(startThink + r, |startThink|, endThink)
    ensures Gathered(syntax, x, true, startThink, endThink)
         <= Gathered(syntax, x + y, isPartial, startThink, endThink)
  {
    GatheredIs(syntax, x, true, startThink, endThink);
    GatheredIs(syntax, x + y, isPartial, startThink, endThink);
    if syntax.thinkingForcedOpen {
      ForcedOpenReasoningGrows(x, endThink);
    } else if startThink <= x {
      assert x == startThink + x[|startThink|..];
      assert startThink <= x + y;
      assert NeverTakenBack(x, |startThink|, endThink);
    }
  }

  lemma TakesBack(syntax: Syntax, x: string, startThink: string, endThink: string)
    requires !syntax.reasoningInContent && !syntax.reasoningFormat.FORMAT_NONE? && !syntax.thinkingForcedOpen
    requires startThink <= x && !NeverTakenBack(x, |startThink|, endThink)
    ensures !ReasoningOnlyGrows(syntax, startThink, endThink)
  {
    var p := |startThink|;
    var y: string, isPartial :| !(Reasoning(x, p, true, endThink) <= Reasoning(x + y, p, isPartial, endThink));
    assert startThink <= x + y;
    GatheredIs(syntax, x, true, startThink, endThink);
    GatheredIs(syntax, x + y, isPartial, startThink, endThink);
  }

  class ChatMsgParser {
    const input: string
    const isPartial: bool
    const syntax: Syntax
    const healingMarker: string   // a random number that does not occur in the input
    var pos: nat
    var content: string
    var reasoningContent: string

    constructor (input: string, isPartial: bool, syntax: Syntax, id: string)
      requires DigitMarker(id) && !Has(input, id)
      ensures this.input == input && this.isPartial == isPartial && this.syntax == syntax && healingMarker == id
      ensures Now() == Progress(0, "", "")
    {
      this.input, this.isPartial, this.syntax, healingMarker := input, isPartial, syntax, id;
      pos, content, reasoningContent := 0, "", "";
    }

    function Now(): Progress
      reads this
    {
      Progress(pos, content, reasoningContent)
    }

    method AddContent(text: string)
      modifies this`content
      ensures content == old(content) + text
    {
      content := content + text;
    }

    method AddReasoningContent(text: string)
      modifies this`reasoningContent
      ensures reasoningContent == old(reasoningContent) + text
    {
      reasoningContent := reasoningContent + text;
    }

    method ConsumeSpaces() returns (consumed: bool)
      requires pos <= |input|
      modifies this`pos
      ensures pos == SkipSpaces(input, old(pos)) && consumed == (pos != old(pos))
    {
      consumed := false;
      while pos < |input| && IsCSpace(input[pos])
        invariant old(pos) <= pos <= |input|
        invariant SkipSpaces(input, pos) == SkipSpaces(input, old(pos))
        invariant consumed == (pos != old(pos))
        decreases |input| - pos
      {
        pos := pos + 1;
        consumed := true;
      }
    }

    method TryConsumeLiteral(literal: string) returns (r: bool)
      requires pos <= |input|
      modifies this`pos
      ensures r <==> literal <= input[old(pos)..]
      ensures pos == if r then old(pos) + |literal| else old(pos)
    {
      var p, i := pos, 0;
      while i < |literal|
        invariant 0 <= i <= |literal| && p == pos + i <= |input| && pos == old(pos)
        invariant literal[..i] == input[pos..p]
      {
        if p >= |input| { return false; }
        if input[p] != literal[i] {
          assert input[pos..][i] != literal[i];
          return false;
        }
        p := p + 1;
        i := i + 1;
      }
      assert literal[..i] == literal && input[pos..p] == input[pos..][..i];
      pos := p;
      return true;
    }

    method TryFindLiteral(literal: string) returns (r: Option<Found>)
      requires pos <= |input|
      modifies this`pos
      ensures r == FindLiteral(input, old(pos), isPartial, literal)
      ensures pos == if r.Some? then r.value.end else old(pos)
    {
      var idx := Find(input, literal, pos);
      if idx.Some? {
        var res := Found(input[pos..idx.value], idx.value + |literal|);
        pos := res.end;
        return Some(res);
      }
      if isPartial {
        idx := StringFindPartialStop(input, literal);
        if idx.Some? && idx.value >= pos {
          var res := Found(input[pos..idx.value], |input|);
          pos := |input|;
          return Some(res);
        }
      }
      return None;
    }

    method ConsumeRest() returns (rest: string)
      requires pos <= |input|
      modifies this`pos
      ensures rest == input[old(pos)..] && pos == |input|
    {
      rest := input[pos..];
      pos := |input|;
    }

    method Handle(reasoning: string, closed: bool, startThink: string, endThink: string)
      modifies this`content, this`reasoningContent
      ensures Now() == HandleReasoning(syntax, old(Now()), reasoning, closed, startThink, endThink)
    {
      var stripped := StringStrip(reasoning);
      if stripped == "" { return; }
      if syntax.reasoningInContent {
        AddContent(if syntax.reasoningFormat.FORMAT_DEEPSEEK? then "<think>" else startThink);
        AddContent(stripped);
        if closed {
          AddContent(if syntax.reasoningFormat.FORMAT_DEEPSEEK? then "</think>" else endThink);
        }
      } else {
        AddReasoningContent(stripped);
      }
    }

    method TryParseReasoning(startThink: string, endThink: string) returns (r: bool)
      requires pos <= |input|
      modifies this`pos, this`content, this`reasoningContent
      ensures var p := ParseReasoning(syntax, input, isPartial, old(Now()), startThink, endThink);
        r == p.Some? && Now() == if r then p.value else old(Now())
    {
      if syntax.reasoningFormat != FORMAT_NONE {
        var open := syntax.thinkingForcedOpen;
        if !open {
          open := TryConsumeLiteral(startThink);
        }
        if open {
          ghost var here := old(Now()).(pos := pos);
          assert Now() == here;
          ParseOpenReasoning(startThink, endThink);
          assert Now() == TakeReasoning(syntax, input, isPartial, here, startThink, endThink);
          return true;
        }
      }
      return false;
    }

    method ParseOpenReasoning(startThink: string, endThink: string)
      requires pos <= |input|
      modifies this`pos, this`content, this`reasoningContent
      ensures Now() == TakeReasoning(syntax, input, isPartial, old(Now()), startThink, endThink)
    {
      var res := TryFindLiteral(endThink);
      if res.Some? {
        Handle(res.value.prelude, true, startThink, endThink);
        var _ := ConsumeSpaces();
        return;
      }
      var rest := ConsumeRest();
      if rest != "" {
        Handle(rest, !isPartial, startThink, endThink);
      }
    }

    /** The cursor moves to where the JSON ended, even when its content is then refused. */
    method TryConsumeJsonWithDumpedArgs(args: seq<Path>, contents: seq<Path>) returns (r: Consumed)
      requires pos <= |input|
      modifies this`pos
      ensures r == ConsumeJson(input, old(pos), isPartial, healingMarker, args, contents)
      ensures pos == match ParseOrHeal(input[old(pos)..], healingMarker)
                     case Parsed(_, n) => old(pos) + n
                     case Healed(_, _, _, n) => old(pos) + n
                     case _ => old(pos)
      ensures r.Taken? ==> pos == r.end
    {
      var parsed := CommonJsonParse(input[pos..], healingMarker);
      match parsed
      case NotJson => return NotFound;
      case Throws => return HealError;
      case Parsed(j, n) =>
        pos := pos + n;
        if args == [] { return Taken(j, false, pos); }
        if [] in args { return Taken(Str(Dump(j)), false, pos); }
        r := CleanUp(Context(healingMarker, isPartial, [], [], args, contents), j);
      case Healed(j, _, dm, n) =>
        pos := pos + n;
        if !isPartial { return PartialError; }
        r := CleanUp(Context(healingMarker, isPartial, healingMarker, dm, args, contents), j);
    }

    method CleanUp(c: Context, j: Json) returns (r: Consumed)
      ensures r == Cleaned(c, j, pos)
    {
      var cleaner := new HealingCleaner(c);
      var cleaned := cleaner.Clean(j);
      r := if cleaned.None? then ContentError else Taken(cleaned.value, cleaner.found, pos);
    }
  }
}
