/** The SAX handler that finds where a text stops being JSON, and which containers are open there. */
module JsonLocator {
  import opened Text
  import opened JsonText
  import opened JsonReader
  import opened JsonShape

  datatype Kind = OBJECT | KEY | ARRAY

  datatype Element = Element(kind: Kind, key: string)

  datatype Event =
    | Scalar(value: Json)
    | StartObject
    | KeyEvent(key: string)
    | EndObject
    | StartArray
    | EndArray

  // The handler as a function of its stack

  predicate TopIs(stack: seq<Element>, kind: Kind) { stack != [] && stack[|stack| - 1].kind == kind }

  function CloseValue(stack: seq<Element>): seq<Element> {
    if TopIs(stack, KEY) then stack[..|stack| - 1] else stack
  }

  /** The stack after an event; None when one of the handler's assertions fails. */
  function Handle(stack: seq<Element>, e: Event): Option<seq<Element>> {
    match e
    case Scalar(_) => Some(CloseValue(stack))
    case StartObject => Some(stack + [Element(OBJECT, [])])
    case KeyEvent(k) => Some(stack + [Element(KEY, k)])
    case EndObject => if TopIs(stack, OBJECT) then Some(CloseValue(stack[..|stack| - 1])) else None
    case StartArray => Some(stack + [Element(ARRAY, [])])
    case EndArray => if TopIs(stack, ARRAY) then Some(CloseValue(stack[..|stack| - 1])) else None
  }

  function HandleAll(stack: seq<Element>, es: seq<Event>): Option<seq<Element>>
    decreases |es|
  {
    if es == [] then Some(stack)
    else
      var n := Handle(stack, es[0]);
      if n.None? then None else HandleAll(n.value, es[1..])
  }

  // The events of the reader

  function FinishEvents(s: State): seq<Event> {
    if s.mode.InNumber? && IsNumber(s.mode.digits) then [Scalar(Num(s.mode.digits))] else []
  }

  function AdvanceEvents(s: State, c: char): seq<Event> {
    match s.mode
    case InString(role, text) => if c == '"' then [if role == Val then Scalar(Str(text)) else KeyEvent(text)] else []
    case InLiteral(lit, n) => if n + 1 == |LiteralText(lit)| then [Scalar(LiteralValue(lit))] else []
    case Value => OpenEvents(c)
    case ValueOrClose => if c == ']' then [EndArray] else OpenEvents(c)
    case KeyOrClose => if c == '}' then [EndObject] else []
    case After => if c == ']' then [EndArray] else if c == '}' then [EndObject] else []
    case _ => []
  }

  function OpenEvents(c: char): seq<Event> {
    if c == '{' then [StartObject] else if c == '[' then [StartArray] else []
  }

  /** The events one accepted character gives rise to. */
  function StepEvents(s: State, c: char): seq<Event> {
    if s.mode.InNumber? && NumStep(NumRun(s.mode.digits), c) != Bad then []
    else FinishEvents(s) + AdvanceEvents(Finish(s), c)
  }

  function RunEvents(s: State, t: string): seq<Event>
    decreases |t|
  {
    if t == [] then [] else StepEvents(s, t[0]) + RunEvents(Step(s, t[0]), t[1..])
  }

  predicate BetweenTokens(m: Mode) {
    !m.InString? && !m.InEscape? && !m.InUnicode? && !m.InNumber? && !m.InLiteral?
  }

  // The handler's stack lists the open containers of the reader

  /** The handler's view of open containers: bottom first, a pending key above its object. */
  function Elements(stack: Stack): seq<Element> {
    match stack
    case Bottom => []
    case Push(ArrFrame(_), below) => Elements(below) + [Element(ARRAY, [])]
    case Push(ObjFrame(_, None), below) => Elements(below) + [Element(OBJECT, [])]
    case Push(ObjFrame(_, Some(k)), below) => Elements(below) + [Element(OBJECT, [])] + [Element(KEY, k)]
  }

  /** A key sits only directly on its object. */
  predicate KeysOnObjects(stack: seq<Element>) {
    forall i :: 0 <= i < |stack| && stack[i].kind == KEY ==> 0 < i && stack[i - 1].kind == OBJECT
  }

  lemma {:induction false} ElementsKeysOnObjects(stack: Stack)
    ensures KeysOnObjects(Elements(stack))
  {
    if stack.Push? { ElementsKeysOnObjects(stack.below); }
  }

  lemma HandleOne(stack: seq<Element>, e: Event)
    ensures HandleAll(stack, [e]) == Handle(stack, e)
  {
    var n := Handle(stack, e);
    if n.Some? { assert HandleAll(n.value, [e][1..]) == Some(n.value); }
  }

  lemma {:induction false} HandleConcat(stack: seq<Element>, a: seq<Event>, b: seq<Event>)
    ensures HandleAll(stack, a + b)
         == if HandleAll(stack, a).Some? then HandleAll(HandleAll(stack, a).value, b) else None
    decreases |a|
  {
    if a == [] {
      assert a + b == b;
    } else {
      assert (a + b)[1..] == a[1..] + b;
      var n := Handle(stack, a[0]);
      if n.Some? { HandleConcat(n.value, a[1..], b); }
    }
  }

  lemma CloseCompletes(stack: Stack, v: Json)
    requires Awaiting(stack)
    ensures CloseValue(Elements(stack)) == Elements(Complete(stack, v).stack)
  {
    match stack
    case Bottom =>
    case Push(ArrFrame(_), _) =>
    case Push(ObjFrame(_, pending), below) =>
      assert Elements(stack)[..|Elements(stack)| - 1] == Elements(below) + [Element(OBJECT, [])];
  }

  lemma CloseContainer(below: Stack, kind: Kind, v: Json)
    requires Awaiting(below) && kind != KEY
    ensures var st := Elements(below) + [Element(kind, [])];
      TopIs(st, kind) && CloseValue(st[..|st| - 1]) == Elements(Complete(below, v).stack)
  {
    var st := Elements(below) + [Element(kind, [])];
    assert st[..|st| - 1] == Elements(below);
    CloseCompletes(below, v);
  }

  lemma FinishTracks(s: State)
    requires Shaped(s)
    ensures HandleAll(Elements(s.stack), FinishEvents(s)) == Some(Elements(Finish(s).stack))
  {
    if s.mode.InNumber? && IsNumber(s.mode.digits) {
      HandleOne(Elements(s.stack), Scalar(Num(s.mode.digits)));
      CloseCompletes(s.stack, Num(s.mode.digits));
    }
  }

  lemma ArrayEndTracks(below: Stack, items: seq<Json>)
    requires Awaiting(below)
    ensures HandleAll(Elements(Push(ArrFrame(items), below)), [EndArray])
         == Some(Elements(Complete(below, Arr(items)).stack))
  {
    HandleOne(Elements(Push(ArrFrame(items), below)), EndArray);
    CloseContainer(below, ARRAY, Arr(items));
  }

  lemma ObjectEndTracks(below: Stack, members: seq<Member>)
    requires Awaiting(below)
    ensures HandleAll(Elements(Push(ObjFrame(members, None), below)), [EndObject])
         == Some(Elements(Complete(below, Obj(members)).stack))
  {
    HandleOne(Elements(Push(ObjFrame(members, None), below)), EndObject);
    CloseContainer(below, OBJECT, Obj(members));
  }

  lemma AfterTracks(s: State, c: char)
    requires Shaped(s) && s.mode.After? && !IsSpace(c) && !AfterValue(s.stack, c).mode.Failed?
    ensures HandleAll(Elements(s.stack), AdvanceEvents(s, c)) == Some(Elements(AfterValue(s.stack, c).stack))
  {
    var below := s.stack.below;
    if c != ',' {
      if s.stack.top.ArrFrame? {
        ArrayEndTracks(below, s.stack.top.items);
      } else {
        ObjectEndTracks(below, s.stack.top.members);
      }
    }
  }

  lemma EmptyTracks(s: State, c: char)
    requires Shaped(s) && ((s.mode.ValueOrClose? && c == ']') || (s.mode.KeyOrClose? && c == '}'))
    ensures HandleAll(Elements(s.stack), AdvanceEvents(s, c)) == Some(Elements(AfterValue(s.stack, c).stack))
  {
    if s.mode.ValueOrClose? {
      HandleOne(Elements(s.stack), EndArray);
      CloseContainer(s.stack.below, ARRAY, Arr([]));
    } else {
      HandleOne(Elements(s.stack), EndObject);
      CloseContainer(s.stack.below, OBJECT, Obj([]));
    }
  }

  lemma TokenTracks(s: State, c: char)
    requires Shaped(s) && !Advance(s, c).mode.Failed? && !BetweenTokens(s.mode)
    ensures HandleAll(Elements(s.stack), AdvanceEvents(s, c)) == Some(Elements(Advance(s, c).stack))
  {
    var es := AdvanceEvents(s, c);
    if es != [] {
      HandleOne(Elements(s.stack), es[0]);
      assert es == [es[0]];
      if s.mode.InString? && s.mode.role == Val { CloseCompletes(s.stack, Str(s.mode.text)); }
      if s.mode.InLiteral? { CloseCompletes(s.stack, LiteralValue(s.mode.lit)); }
    }
  }

  lemma OpenTracks(stack: Stack, c: char)
    requires !StartValue(stack, c).mode.Failed?
    ensures HandleAll(Elements(stack), OpenEvents(c)) == Some(Elements(StartValue(stack, c).stack))
  {
    if OpenEvents(c) != [] { HandleOne(Elements(stack), OpenEvents(c)[0]); }
  }

  lemma AdvanceTracks(s: State, c: char)
    requires Shaped(s) && !Advance(s, c).mode.Failed?
    ensures HandleAll(Elements(s.stack), AdvanceEvents(s, c)) == Some(Elements(Advance(s, c).stack))
  {
    if !BetweenTokens(s.mode) {
      TokenTracks(s, c);
    } else if IsSpace(c) {
    } else if s.mode.After? {
      AfterTracks(s, c);
    } else if (s.mode.ValueOrClose? && c == ']') || (s.mode.KeyOrClose? && c == '}') {
      EmptyTracks(s, c);
    } else if s.mode.Value? || s.mode.ValueOrClose? {
      OpenTracks(s.stack, c);
    }
  }

  lemma StepTracks(s: State, c: char)
    requires Shaped(s) && !Step(s, c).mode.Failed?
    ensures HandleAll(Elements(s.stack), StepEvents(s, c)) == Some(Elements(Step(s, c).stack))
  {
    if !(s.mode.InNumber? && NumStep(NumRun(s.mode.digits), c) != Bad) {
      FinishShaped(s);
      FinishTracks(s);
      AdvanceTracks(Finish(s), c);
      HandleConcat(Elements(s.stack), FinishEvents(s), AdvanceEvents(Finish(s), c));
    }
  }

  /** Over any text the reader goes along with, no assertion of the handler fails, and its stack
      is exactly the reader's open containers, keys directly on their objects. */
  lemma {:induction false} RunTracks(s: State, t: string)
    requires Shaped(s) && !Run(s, t).mode.Failed?
    ensures HandleAll(Elements(s.stack), RunEvents(s, t)) == Some(Elements(Run(s, t).stack))
    ensures KeysOnObjects(Elements(Run(s, t).stack))
    decreases |t|
  {
    ElementsKeysOnObjects(Run(s, t).stack);
    if t != [] {
      if Step(s, t[0]).mode.Failed? { RunFailed(Step(s, t[0]), t[1..]); }
      StepShaped(s, t[0]);
      StepTracks(s, t[0]);
      RunTracks(Step(s, t[0]), t[1..]);
      HandleConcat(Elements(s.stack), StepEvents(s, t[0]), RunEvents(Step(s, t[0]), t[1..]));
    }
  }

  // Event streams of values

  /** The events a value gives rise to. */
  function ValueEvents(v: Json): seq<Event>
    decreases v, 1
  {
    match v
    case Arr(items) => [StartArray] + ItemEvents(items) + [EndArray]
    case Obj(members) => [StartObject] + MemberEvents(members) + [EndObject]
    case _ => [Scalar(v)]
  }

  function ItemEvents(items: seq<Json>): seq<Event>
    decreases items, 0
  {
    if items == [] then [] else ValueEvents(items[0]) + ItemEvents(items[1..])
  }

  function MemberEvents(members: seq<Member>): seq<Event>
    decreases members, 0
  {
    if members == [] then []
    else [KeyEvent(members[0].key)] + ValueEvents(members[0].value) + MemberEvents(members[1..])
  }

  /** Every event finds the stack it needs: a bracket its container, a key its object. */
  predicate Disciplined(stack: seq<Element>, es: seq<Event>)
    decreases |es|
  {
    es != [] ==>
      && (es[0].KeyEvent? ==> TopIs(stack, OBJECT))
      && Handle(stack, es[0]).Some?
      && Disciplined(Handle(stack, es[0]).value, es[1..])
  }

  lemma {:induction false} DisciplinedConcat(stack: seq<Element>, a: seq<Event>, b: seq<Event>)
    ensures Disciplined(stack, a + b)
       <==> Disciplined(stack, a) && HandleAll(stack, a).Some? && Disciplined(HandleAll(stack, a).value, b)
    decreases |a|
  {
    if a == [] {
      assert a + b == b;
    } else {
      assert (a + b)[1..] == a[1..] + b;
      if Handle(stack, a[0]).Some? { DisciplinedConcat(Handle(stack, a[0]).value, a[1..], b); }
    }
  }

  /** `es` leads from one stack to another, every event finding the stack it needs. */
  ghost predicate Leads(stack: seq<Element>, es: seq<Event>, then_: seq<Element>) {
    Disciplined(stack, es) && HandleAll(stack, es) == Some(then_)
  }

  lemma LeadsOne(stack: seq<Element>, e: Event)
    requires Handle(stack, e).Some? && (e.KeyEvent? ==> TopIs(stack, OBJECT))
    ensures Leads(stack, [e], Handle(stack, e).value)
  {
    HandleOne(stack, e);
    assert [e][1..] == [];
  }

  lemma LeadsThen(stack: seq<Element>, a: seq<Event>, mid: seq<Element>, b: seq<Event>, end: seq<Element>)
    requires Leads(stack, a, mid) && Leads(mid, b, end)
    ensures Leads(stack, a + b, end)
  {
    HandleConcat(stack, a, b);
    DisciplinedConcat(stack, a, b);
  }

  lemma {:induction false} ValueLeads(stack: seq<Element>, v: Json)
    ensures Leads(stack, ValueEvents(v), CloseValue(stack))
    decreases v, 1
  {
    match v
    case Arr(items) =>
      var st := stack + [Element(ARRAY, [])];
      LeadsOne(stack, StartArray);
      ItemsLead(st, items);
      LeadsThen(stack, [StartArray], st, ItemEvents(items), st);
      assert st[..|st| - 1] == stack;
      LeadsOne(st, EndArray);
      LeadsThen(stack, [StartArray] + ItemEvents(items), st, [EndArray], CloseValue(stack));
    case Obj(members) =>
      var st := stack + [Element(OBJECT, [])];
      LeadsOne(stack, StartObject);
      MembersLead(st, members);
      LeadsThen(stack, [StartObject], st, MemberEvents(members), st);
      assert st[..|st| - 1] == stack;
      LeadsOne(st, EndObject);
      LeadsThen(stack, [StartObject] + MemberEvents(members), st, [EndObject], CloseValue(stack));
    case _ => LeadsOne(stack, Scalar(v));
  }

  lemma {:induction false} ItemsLead(stack: seq<Element>, items: seq<Json>)
    requires TopIs(stack, ARRAY)
    ensures Leads(stack, ItemEvents(items), stack)
    decreases items, 0
  {
    if items != [] {
      ValueLeads(stack, items[0]);
      ItemsLead(stack, items[1..]);
      LeadsThen(stack, ValueEvents(items[0]), stack, ItemEvents(items[1..]), stack);
    }
  }

  lemma {:induction false} MembersLead(stack: seq<Element>, members: seq<Member>)
    requires TopIs(stack, OBJECT)
    ensures Leads(stack, MemberEvents(members), stack)
    decreases members, 0
  {
    if members != [] {
      var k := KeyEvent(members[0].key);
      var st := stack + [Element(KEY, k.key)];
      LeadsOne(stack, k);
      assert st[..|st| - 1] == stack;
      ValueLeads(st, members[0].value);
      LeadsThen(stack, [k], st, ValueEvents(members[0].value), stack);
      MembersLead(stack, members[1..]);
      LeadsThen(stack, [k] + ValueEvents(members[0].value), stack, MemberEvents(members[1..]), stack);
    }
  }

  lemma {:induction false} DisciplineKeepsKeys(stack: seq<Element>, es: seq<Event>)
    requires KeysOnObjects(stack) && Disciplined(stack, es)
    ensures HandleAll(stack, es).Some? && KeysOnObjects(HandleAll(stack, es).value)
    decreases |es|
  {
    if es != [] { DisciplineKeepsKeys(Handle(stack, es[0]).value, es[1..]); }
  }

  /** Over every prefix of the event stream of every value, no assertion of the handler fails and
      keys sit directly on objects; over the whole stream the stack comes back empty. */
  lemma StreamPrefix(v: Json, n: nat)
    requires n <= |ValueEvents(v)|
    ensures var st := HandleAll([], ValueEvents(v)[..n]);
      st.Some? && KeysOnObjects(st.value) && (n == |ValueEvents(v)| ==> st.value == [])
  {
    var es := ValueEvents(v);
    ValueLeads([], v);
    assert es == es[..n] + es[n..];
    DisciplinedConcat([], es[..n], es[n..]);
    DisciplineKeepsKeys([], es[..n]);
    if n == |es| { assert es[..n] == es; }
  }

  // Where a text stops being JSON

  /** The index of the first character the reader rejects. */
  function FirstBad(s: State, t: string): (n: nat)
    ensures n <= |t|
    decreases |t|
  {
    if t == [] || Step(s, t[0]).mode.Failed? then 0 else 1 + FirstBad(Step(s, t[0]), t[1..])
  }

  /** The character begins a token longer than itself. */
  predicate OpensToken(c: char) {
    c == '"' || c == 'n' || c == 't' || c == 'f' || NumStart(c) != Bad
  }

  /** The reported position of an unexpected token whose first unread character is at `i`:
      its last character, the scanner's own error, or the end of the text. */
  function TokenEnd(s: State, t: string, i: nat): (n: nat)
    requires i <= |t|
    ensures i - (if s.mode.InNumber? then 1 else 0) <= n <= |t|
    decreases |t| - i
  {
    if s.mode.InNumber? && IsNumber(s.mode.digits) && (i == |t| || NumStep(NumRun(s.mode.digits), t[i]) == Bad) then
      if i > 0 then i - 1 else 0
    else if i == |t| || Step(s, t[i]).mode.Failed? || Step(s, t[i]).mode.Done? then i
    else TokenEnd(Step(s, t[i]), t, i + 1)
  }

  datatype Located = Located(foundError: bool, position: nat, stack: seq<Element>)

  /** What the handler holds after the parser has run over a text. */
  function Locate(t: string): (l: Located)
    ensures l.position <= |t| && (l.foundError ==> FirstBad(START, t) <= l.position)
  {
    var i := FirstBad(START, t);
    var s := Finish(Run(START, t[..i]));
    if i == |t| then Located(!s.mode.Done?, if s.mode.Done? then 0 else |t|, Elements(s.stack))
    else if BetweenTokens(s.mode) && OpensToken(t[i]) then Located(true, TokenEnd(START, t, i), Elements(s.stack))
    else Located(true, i, Elements(s.stack))
  }
}
