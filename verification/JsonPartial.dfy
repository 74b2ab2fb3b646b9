/** `common_json_parse`: parses JSON text and heals it when it was cut short. */
module JsonPartial {
  import opened Text
  import opened JsonText
  import opened JsonReader
  import opened JsonShape
  import opened JsonLocator

  // Choosing how to heal

  datatype Outcome =
    | Parsed(json: Json, consumed: nat)
    | Healed(json: Json, marker: string, dumpMarker: string, consumed: nat)
    | NotJson   // the parser reports failure
    | Throws

  /** The text a branch builds, and the marker that finds the healed place in its dump. */
  datatype Choice = Chosen(text: string, dumpMarker: string, cutBack: bool) | Lost

  predicate CanParse(t: string) { Parse(t).Some? }

  /** What closes the open containers, innermost first; a pending key closes with its object. */
  function Closing(stack: seq<Element>): string {
    if stack == [] then []
    else
      (match stack[|stack| - 1].kind
       case OBJECT => "}"
       case ARRAY => "]"
       case KEY => "") + Closing(stack[..|stack| - 1])
  }

  /** The last character that is not insignificant whitespace. */
  function LastNonSpace(t: string): Option<char> {
    if t == [] then None
    else if IsSpace(t[|t| - 1]) then LastNonSpace(t[..|t| - 1])
    else Some(t[|t| - 1])
  }

  function LastChar(t: string): Option<char> {
    if t == [] then None else Some(t[|t| - 1])
  }

  predicate MaybeNumber(t: string, last: char) {
    !(t != [] && IsCSpace(t[|t| - 1])) && (IsDigit(last) || last in {'.', 'e', 'E', '-'})
  }

  /** The text up to and including the last of `cs`. */
  function UpToLast(t: string, cs: set<char>): Option<string> {
    if t == [] then None
    else if t[|t| - 1] in cs then Some(t)
    else UpToLast(t[..|t| - 1], cs)
  }

  function CutBack(t: string, cs: set<char>, m: string, k: string): Choice {
    var kept := UpToLast(t, cs);
    if kept.None? then Lost else Chosen(kept.value + ("\"" + m) + ("\"" + k), "\"" + m, true)
  }

  function Insertion(t: string, dumpMarker: string, rest: string): Choice {
    Chosen(t + dumpMarker + rest, dumpMarker, false)
  }

  /** The innermost open element is a key: inside an object value. */
  function ChooseInKey(t: string, last: char, k: string, m: string): Choice {
    if last == ':' && CanParse(t + "1" + k) then Insertion(t, "\"" + m, "\"" + k)
    else if CanParse(t + ": 1" + k) then Insertion(t, ":\"" + m, "\"" + k)
    else if last == '{' && CanParse(t + k) then Insertion(t, "\"" + m, "\": 1" + k)
    else if CanParse(t + "\"" + k) then Insertion(t, m, "\"" + k)
    else if LastChar(t) == Some('\\') && CanParse(t + "\\\"" + k) then Insertion(t, "\\" + m, "\"" + k)
    else CutBack(t, {':'}, m, k)
  }

  function ChooseInArray(t: string, last: char, k: string, m: string): Choice {
    if (last == ',' || last == '[') && CanParse(t + "1" + k) then Insertion(t, "\"" + m, "\"" + k)
    else if CanParse(t + "\"" + k) then Insertion(t, m, "\"" + k)
    else if LastChar(t) == Some('\\') && CanParse(t + "\\\"" + k) then Insertion(t, "\\" + m, "\"" + k)
    else if !MaybeNumber(t, last) && CanParse(t + ", 1" + k) then Insertion(t, ",\"" + m, "\"" + k)
    else CutBack(t, {'[', ','}, m, k)
  }

  function ChooseInObject(t: string, last: char, k: string, m: string): Choice {
    if (last == '{' && CanParse(t + k)) || (last == ',' && CanParse(t + "\"\": 1" + k)) then
      Insertion(t, "\"" + m, "\": 1" + k)
    else if !MaybeNumber(t, last) && CanParse(t + ",\"\": 1" + k) then Insertion(t, ",\"" + m, "\": 1" + k)
    else if CanParse(t + "\": 1" + k) then Insertion(t, m, "\": 1" + k)
    else if LastChar(t) == Some('\\') && CanParse(t + "\\\": 1" + k) then Insertion(t, "\\" + m, "\": 1" + k)
    else CutBack(t, {':'}, m, k)
  }

  /** The cascade of probes: which text to parse instead of `t`. */
  function Choose(t: string, stack: seq<Element>, m: string): Choice
    requires stack != []
  {
    var last := LastNonSpace(t);
    if last.None? then Lost
    else
      match stack[|stack| - 1].kind
      case KEY => ChooseInKey(t, last.value, Closing(stack), m)
      case ARRAY => ChooseInArray(t, last.value, Closing(stack), m)
      case OBJECT => ChooseInObject(t, last.value, Closing(stack), m)
  }

  function Heal(t: string, stack: seq<Element>, m: string): Outcome
    requires stack != []
  {
    match Choose(t, stack, m)
    case Lost => Throws
    case Chosen(text, dumpMarker, _) =>
      match Parse(text)
      case None => Throws
      case Some(j) => Healed(j, m, dumpMarker, |t|)
  }

  /** `common_json_parse` as a function of the text and the healing marker. */
  function ParseOrHeal(t: string, m: string): Outcome {
    var l := Locate(t);
    if l.foundError then
      var kept := t[..l.position];
      match Parse(kept)
      case Some(j) => Parsed(j, |kept|)
      case None => if m != [] && l.stack != [] then Heal(kept, l.stack, m) else NotJson
    else
      match Parse(t)
      case Some(j) => Parsed(j, |t|)
      case None => Throws
  }

  // The SAX handler and the parser that drives it

  class JsonErrorLocator {
    var position: nat
    var foundError: bool
    var stack: seq<Element>

    constructor ()
      ensures position == 0 && !foundError && stack == []
    {
      position, foundError, stack := 0, false, [];
    }

    method ParseError(pos: nat)
      requires pos > 0
      modifies this`position, this`foundError
      ensures position == pos - 1 && foundError
    {
      position := pos - 1;
      foundError := true;
    }

    method CloseTopValue()
      modifies this`stack
      ensures stack == CloseValue(old(stack))
    {
      if stack != [] && stack[|stack| - 1].kind == KEY {
        stack := stack[..|stack| - 1];
      }
    }

    /** `null`, `boolean`, `number_*`, `string` and `binary` all do this. */
    method OnScalar(v: Json)
      modifies this`stack
      ensures Some(stack) == Handle(old(stack), Scalar(v))
    {
      CloseTopValue();
    }

    method OnStartObject()
      modifies this`stack
      ensures Some(stack) == Handle(old(stack), StartObject)
    {
      stack := stack + [Element(OBJECT, [])];
    }

    method OnEndObject()
      requires stack != [] && stack[|stack| - 1].kind == OBJECT
      modifies this`stack
      ensures Some(stack) == Handle(old(stack), EndObject)
    {
      stack := stack[..|stack| - 1];
      CloseTopValue();
    }

    method OnKey(key: string)
      modifies this`stack
      ensures Some(stack) == Handle(old(stack), KeyEvent(key))
    {
      stack := stack + [Element(KEY, key)];
    }

    method OnStartArray()
      modifies this`stack
      ensures Some(stack) == Handle(old(stack), StartArray)
    {
      stack := stack + [Element(ARRAY, [])];
    }

    method OnEndArray()
      requires stack != [] && stack[|stack| - 1].kind == ARRAY
      modifies this`stack
      ensures Some(stack) == Handle(old(stack), EndArray)
    {
      stack := stack[..|stack| - 1];
      CloseTopValue();
    }

    method Receive(e: Event)
      requires Handle(stack, e).Some?
      modifies this`stack
      ensures Some(stack) == Handle(old(stack), e)
    {
      match e
      case Scalar(v) => OnScalar(v);
      case StartObject => OnStartObject();
      case EndObject => OnEndObject();
      case KeyEvent(key) => OnKey(key);
      case StartArray => OnStartArray();
      case EndArray => OnEndArray();
    }

    method ReceiveAll(es: seq<Event>)
      requires HandleAll(stack, es).Some?
      modifies this`stack
      ensures Some(stack) == HandleAll(old(stack), es)
    {
      var i := 0;
      assert es[0..] == es;
      while i < |es|
        invariant 0 <= i <= |es|
        invariant HandleAll(stack, es[i..]).Some? && HandleAll(stack, es[i..]) == HandleAll(old(stack), es)
      {
        assert es[i..][1..] == es[i + 1..];
        Receive(es[i]);
        i := i + 1;
      }
    }
  }

  /** `json::sax_parse`: reads the text once, telling the handler what it meets. */
  method SaxParse(t: string, handler: JsonErrorLocator)
    requires handler.stack == [] && !handler.foundError && handler.position == 0
    modifies handler
    ensures Located(handler.foundError, handler.position, handler.stack) == Locate(t)
  {
    var s, i := START, 0;
    assert t[0..] == t && t[..0] == [];
    while i < |t| && !Step(s, t[i]).mode.Failed?
      invariant 0 <= i <= |t| && s == Run(START, t[..i]) && Shaped(s) && !s.mode.Failed?
      invariant FirstBad(START, t) == i + FirstBad(s, t[i..])
      invariant handler.stack == Elements(s.stack) && !handler.foundError && handler.position == 0
    {
      assert t[i..][1..] == t[i + 1..] && t[..i + 1] == t[..i] + [t[i]];
      RunSnoc(START, t[..i], t[i]);
      StepShaped(s, t[i]);
      StepTracks(s, t[i]);
      handler.ReceiveAll(StepEvents(s, t[i]));
      s := Step(s, t[i]);
      i := i + 1;
    }
    assert FirstBad(START, t) == i;
    FinishTracks(s);
    handler.ReceiveAll(FinishEvents(s));
    s := Finish(s);
    if i == |t| {
      if !s.mode.Done? { handler.ParseError(|t| + 1); }
    } else if BetweenTokens(s.mode) && OpensToken(t[i]) {
      handler.ParseError(TokenEnd(START, t, i) + 1);
    } else {
      handler.ParseError(i + 1);
    }
  }

  /** Parses a text into `out`, healing it with the marker when it was cut short. */
  method CommonJsonParse(t: string, m: string) returns (out: Outcome)
    ensures out == ParseOrHeal(t, m)
  {
    var loc := new JsonErrorLocator();
    SaxParse(t, loc);
    if !loc.foundError {
      var j := Parse(t);
      return if j.Some? then Parsed(j.value, |t|) else Throws;
    }
    var str := t[..loc.position];
    var whole := Parse(str);
    if whole.Some? { return Parsed(whole.value, |str|); }
    if m == [] || loc.stack == [] { return NotJson; }
    var stack := loc.stack;
    var lastOpt := LastNonSpace(str);
    if lastOpt.None? { return Throws; }
    var last := lastOpt.value;

    var closing := "";
    var i := |stack|;
    assert stack[..i] == stack;
    while i > 0
      invariant 0 <= i <= |stack|
      invariant closing + Closing(stack[..i]) == Closing(stack)
    {
      var el := stack[i - 1];
      ghost var was := closing;
      assert stack[..i][..i - 1] == stack[..i - 1];
      if el.kind == OBJECT {
        closing := closing + "}";
      } else if el.kind == ARRAY {
        closing := closing + "]";
      }
      i := i - 1;
      Regrouped(was, el.kind, Closing(stack[..i]));
    }
    assert closing == Closing(stack) by { assert closing + [] == closing; }

    var consumed := |str|;
    var dumpMarker := "";
    if stack[|stack| - 1].kind == KEY {
      if last == ':' && CanParse(str + "1" + closing) {
        dumpMarker := "\"" + m;
        str := str + dumpMarker + ("\"" + closing);
      } else if CanParse(str + ": 1" + closing) {
        dumpMarker := ":\"" + m;
        str := str + dumpMarker + ("\"" + closing);
      } else if last == '{' && CanParse(str + closing) {
        dumpMarker := "\"" + m;
        str := str + dumpMarker + ("\": 1" + closing);
      } else if CanParse(str + "\"" + closing) {
        dumpMarker := m;
        str := str + dumpMarker + ("\"" + closing);
      } else if LastChar(str) == Some('\\') && CanParse(str + "\\\"" + closing) {
        dumpMarker := "\\" + m;
        str := str + dumpMarker + ("\"" + closing);
      } else {
        var kept := UpToLast(str, {':'});
        if kept.None? { return Throws; }
        dumpMarker := "\"" + m;
        str := kept.value + dumpMarker + ("\"" + closing);
      }
    } else if stack[|stack| - 1].kind == ARRAY {
      if (last == ',' || last == '[') && CanParse(str + "1" + closing) {
        dumpMarker := "\"" + m;
        str := str + dumpMarker + ("\"" + closing);
      } else if CanParse(str + "\"" + closing) {
        dumpMarker := m;
        str := str + dumpMarker + ("\"" + closing);
      } else if LastChar(str) == Some('\\') && CanParse(str + "\\\"" + closing) {
        dumpMarker := "\\" + m;
        str := str + dumpMarker + ("\"" + closing);
      } else if !MaybeNumber(str, last) && CanParse(str + ", 1" + closing) {
        dumpMarker := ",\"" + m;
        str := str + dumpMarker + ("\"" + closing);
      } else {
        var kept := UpToLast(str, {'[', ','});
        if kept.None? { return Throws; }
        dumpMarker := "\"" + m;
        str := kept.value + dumpMarker + ("\"" + closing);
      }
    } else {
      if (last == '{' && CanParse(str + closing)) || (last == ',' && CanParse(str + "\"\": 1" + closing)) {
        dumpMarker := "\"" + m;
        str := str + dumpMarker + ("\": 1" + closing);
      } else if !MaybeNumber(str, last) && CanParse(str + ",\"\": 1" + closing) {
        dumpMarker := ",\"" + m;
        str := str + dumpMarker + ("\": 1" + closing);
      } else if CanParse(str + "\": 1" + closing) {
        dumpMarker := m;
        str := str + dumpMarker + ("\": 1" + closing);
      } else if LastChar(str) == Some('\\') && CanParse(str + "\\\": 1" + closing) {
        dumpMarker := "\\" + m;
        str := str + dumpMarker + ("\": 1" + closing);
      } else {
        var kept := UpToLast(str, {':'});
        if kept.None? { return Throws; }
        dumpMarker := "\"" + m;
        str := kept.value + dumpMarker + ("\"" + closing);
      }
    }
    var healed := Parse(str);
    return if healed.Some? then Healed(healed.value, m, dumpMarker, consumed) else Throws;
  }

  lemma Regrouped(was: string, kind: Kind, rest: string)
    ensures was + ((match kind case OBJECT => "}" case ARRAY => "]" case KEY => "") + rest)
         == (match kind case OBJECT => was + "}" case ARRAY => was + "]" case KEY => was) + rest
  {
    Assoc(was, match kind case OBJECT => "}" case ARRAY => "]" case KEY => "", rest);
  }
}
