/** A JSON reader that consumes one character at a time: the model of the parser behind
    `json::sax_parse` and `json::parse`. Its state is the open containers, top first, each with
    what has been read of it, and where in the grammar the next character falls. */
module JsonReader {
  import opened Text
  import opened JsonText

  datatype Frame =
    | ArrFrame(items: seq<Json>)
    | ObjFrame(members: seq<Member>, pending: Option<string>)  // pending: a key without its value

  datatype Stack = Bottom | Push(top: Frame, below: Stack)

  datatype Role = Key | Val

  datatype Literal = LNull | LTrue | LFalse

  datatype Mode =
    | Value                                // a value must follow
    | ValueOrClose                         // just after `[`
    | KeyOrClose                           // just after `{`
    | KeyOnly                              // just after `,` in an object
    | Colon                                // just after a key
    | InString(role: Role, text: string)
    | InEscape(role: Role, text: string)   // just after a backslash
    | InUnicode(role: Role, text: string, code: Code)  // inside a `\u` escape
    | InNumber(digits: string)
    | InLiteral(lit: Literal, matched: nat)
    | After                                // a value of the open container was completed
    | Done(value: Json)                    // the whole document was completed
    | Failed

  datatype State = State(mode: Mode, stack: Stack)

  const START := State(Value, Bottom)
  const FAILED := State(Failed, Bottom)

  function LiteralText(l: Literal): string {
    match l
    case LNull => "null"
    case LTrue => "true"
    case LFalse => "false"
  }

  function LiteralValue(l: Literal): Json {
    match l
    case LNull => Null
    case LTrue => Bool(true)
    case LFalse => Bool(false)
  }

  /** Insignificant whitespace of JSON text. */
  predicate IsSpace(c: char) { c == ' ' || c == '\n' || c == '\r' || c == '\t' }

  /** The state after a value has been completed. */
  function Complete(stack: Stack, v: Json): State {
    match stack
    case Bottom => State(Done(v), Bottom)
    case Push(ArrFrame(items), below) => State(After, Push(ArrFrame(items + [v]), below))
    case Push(ObjFrame(members, pending), below) =>
      if pending.None? then FAILED
      else State(After, Push(ObjFrame(Insert(members, pending.value, v), None), below))
  }

  /** A number token ends where a character does not extend it. */
  function Finish(s: State): State {
    if s.mode.InNumber? && IsNumber(s.mode.digits) then Complete(s.stack, Num(s.mode.digits)) else s
  }

  function StartValue(stack: Stack, c: char): State {
    if c == '"' then State(InString(Val, []), stack)
    else if c == '{' then State(KeyOrClose, Push(ObjFrame([], None), stack))
    else if c == '[' then State(ValueOrClose, Push(ArrFrame([]), stack))
    else if c == 'n' then State(InLiteral(LNull, 1), stack)
    else if c == 't' then State(InLiteral(LTrue, 1), stack)
    else if c == 'f' then State(InLiteral(LFalse, 1), stack)
    else if NumStart(c) != Bad then State(InNumber([c]), stack)
    else FAILED
  }

  function EndString(role: Role, text: string, stack: Stack): State {
    if role == Val then Complete(stack, Str(text))
    else if stack.Push? && stack.top.ObjFrame? then
      State(Colon, Push(stack.top.(pending := Some(text)), stack.below))
    else FAILED
  }

  /** A `,` or a closing bracket after a complete value. */
  function AfterValue(stack: Stack, c: char): State {
    match stack
    case Bottom => FAILED
    case Push(ArrFrame(items), below) =>
      if c == ',' then State(Value, stack)
      else if c == ']' then Complete(below, Arr(items))
      else FAILED
    case Push(ObjFrame(members, _), below) =>
      if c == ',' then State(KeyOnly, stack)
      else if c == '}' then Complete(below, Obj(members))
      else FAILED
  }

  /** A character other than whitespace between tokens. */
  function Structural(s: State, c: char): State {
    match s.mode
    case Value => StartValue(s.stack, c)
    case ValueOrClose => if c == ']' then AfterValue(s.stack, c) else StartValue(s.stack, c)
    case KeyOrClose =>
      if c == '}' then AfterValue(s.stack, c)
      else if c == '"' then State(InString(Key, []), s.stack)
      else FAILED
    case KeyOnly => if c == '"' then State(InString(Key, []), s.stack) else FAILED
    case Colon => if c == ':' then State(Value, s.stack) else FAILED
    case After => AfterValue(s.stack, c)
    case _ => FAILED
  }

  /** One character, when no number token is being read. */
  function Advance(s: State, c: char): State {
    match s.mode
    case Failed => FAILED
    case InString(role, text) =>
      if c == '"' then EndString(role, text, s.stack)
      else if c == '\\' then State(InEscape(role, text), s.stack)
      else if IsRaw(c) then State(InString(role, text + [c]), s.stack)
      else FAILED
    case InEscape(role, text) =>
      var u := Unescape(c);
      if c == 'u' then State(InUnicode(role, text, Hex(None, [])), s.stack)
      else if u.Some? then State(InString(role, text + [u.value]), s.stack)
      else FAILED
    case InUnicode(role, text, code) =>
      (match Decode(code, c)
       case More(next) => State(InUnicode(role, text, next), s.stack)
       case Decoded(u) => State(InString(role, text + [u]), s.stack)
       case Broken => FAILED)
    case InLiteral(lit, n) =>
      var w := LiteralText(lit);
      if n < |w| && c == w[n] then
        if n + 1 == |w| then Complete(s.stack, LiteralValue(lit)) else State(InLiteral(lit, n + 1), s.stack)
      else FAILED
    case InNumber(_) => FAILED
    case _ => if IsSpace(c) then s else Structural(s, c)
  }

  function Step(s: State, c: char): State {
    if s.mode.InNumber? && NumStep(NumRun(s.mode.digits), c) != Bad then
      State(InNumber(s.mode.digits + [c]), s.stack)
    else Advance(Finish(s), c)
  }

  function Run(s: State, t: string): State
    decreases |t|
  {
    if t == [] then s else Run(Step(s, t[0]), t[1..])
  }

  /** What `json::parse` makes of a text; None when it throws. */
  function Parse(t: string): Option<Json> {
    var s := Finish(Run(START, t));
    if s.mode.Done? then Some(s.mode.value) else None
  }

  /** The text read so far is the beginning of something the reader could accept. */
  predicate Viable(t: string) { !Run(START, t).mode.Failed? }

  // Running

  lemma {:induction false} RunConcat(s: State, a: string, b: string)
    ensures Run(s, a + b) == Run(Run(s, a), b)
    decreases |a|
  {
    if a == [] {
      assert a + b == b;
    } else {
      assert (a + b)[1..] == a[1..] + b;
      RunConcat(Step(s, a[0]), a[1..], b);
    }
  }

  lemma RunSnoc(s: State, a: string, c: char)
    ensures Run(s, a + [c]) == Step(Run(s, a), c)
  {
    RunConcat(s, a, [c]);
    assert Run(Run(s, a), [c]) == Run(Step(Run(s, a), c), []);
  }

  lemma RunCons(s: State, c: char, t: string)
    ensures Run(s, [c] + t) == Run(Step(s, c), t)
  {
    assert ([c] + t)[1..] == t;
  }

  lemma {:induction false} RunFailed(s: State, t: string)
    requires s.mode.Failed?
    ensures Run(s, t).mode.Failed?
    decreases |t|
  {
    if t != [] { RunFailed(Step(s, t[0]), t[1..]); }
  }

  lemma ViablePrefix(a: string, b: string)
    requires Viable(a + b)
    ensures Viable(a)
  {
    RunConcat(START, a, b);
    if !Viable(a) { RunFailed(Run(START, a), b); }
  }

  /** A completed number is read like any other completed value. */
  lemma StepFinish(s: State, c: char)
    requires !(s.mode.InNumber? && NumStep(NumRun(s.mode.digits), c) != Bad)
    ensures Step(s, c) == Step(Finish(s), c)
  {
    if s.mode.InNumber? && IsNumber(s.mode.digits) {
      assert !Complete(s.stack, Num(s.mode.digits)).mode.InNumber?;
    }
  }
}
