/** JSON values and their compact dump: sections 2 to 7 of RFC 8259.
    A number is its text; an object keeps its members in order, as `ordered_json` does. */
module JsonText {
  import opened Text

  datatype Json =
    | Null
    | Bool(b: bool)
    | Num(text: string)
    | Str(s: string)
    | Arr(items: seq<Json>)
    | Obj(members: seq<Member>)

  datatype Member = Member(key: string, value: Json)

  predicate IsContainer(j: Json) { j.Arr? || j.Obj? }

  // Numbers

  /** Where a number token stands; the states of the scanner's number automaton. */
  datatype NumState = Bad | Minus | Zero | Int | Dot | Frac | Exp | ExpSign | ExpDigits

  predicate IsDigit(c: char) { '0' <= c <= '9' }

  function NumStart(c: char): NumState {
    if c == '-' then Minus else if c == '0' then Zero else if IsDigit(c) then Int else Bad
  }

  function NumStep(n: NumState, c: char): NumState {
    match n
    case Minus => if c == '0' then Zero else if IsDigit(c) then Int else Bad
    case Zero => if c == '.' then Dot else if c == 'e' || c == 'E' then Exp else Bad
    case Int => if IsDigit(c) then Int else if c == '.' then Dot else if c == 'e' || c == 'E' then Exp else Bad
    case Dot => if IsDigit(c) then Frac else Bad
    case Frac => if IsDigit(c) then Frac else if c == 'e' || c == 'E' then Exp else Bad
    case Exp => if c == '+' || c == '-' then ExpSign else if IsDigit(c) then ExpDigits else Bad
    case ExpSign => if IsDigit(c) then ExpDigits else Bad
    case ExpDigits => if IsDigit(c) then ExpDigits else Bad
    case Bad => Bad
  }

  function NumRun(t: string): NumState {
    if t == [] then Bad
    else if |t| == 1 then NumStart(t[0])
    else NumStep(NumRun(t[..|t| - 1]), t[|t| - 1])
  }

  predicate NumComplete(n: NumState) { n in {Zero, Int, Frac, ExpDigits} }

  predicate IsNumber(t: string) { NumComplete(NumRun(t)) }

  // Strings

  const BACKSPACE := '\U{8}'
  const FORMFEED := '\U{C}'

  /** A character that may stand for itself inside a JSON string. */
  predicate IsRaw(c: char) { ' ' <= c && c != '"' && c != '\\' }

  predicate HasShortEscape(c: char) { c in {'"', '\\', BACKSPACE, FORMFEED, '\n', '\r', '\t'} }

  /** The letter written after the backslash. */
  function EscapeLetter(c: char): char
    requires HasShortEscape(c)
  {
    if c == BACKSPACE then 'b' else if c == FORMFEED then 'f' else if c == '\n' then 'n'
    else if c == '\r' then 'r' else if c == '\t' then 't' else c
  }

  /** The character an escape letter stands for. */
  function Unescape(e: char): Option<char> {
    if e == 'b' then Some(BACKSPACE) else if e == 'f' then Some(FORMFEED) else if e == 'n' then Some('\n')
    else if e == 'r' then Some('\r') else if e == 't' then Some('\t')
    else if e == '"' || e == '\\' || e == '/' then Some(e) else None
  }

  // `\u` escapes

  predicate IsHex(c: char) { IsDigit(c) || 'a' <= c <= 'f' || 'A' <= c <= 'F' }

  type nibble = n: nat | n < 16

  function HexDigit(c: char): nibble
    requires IsHex(c)
  {
    if IsDigit(c) then c as nat - '0' as nat
    else if 'a' <= c <= 'f' then c as nat - 'a' as nat + 10
    else c as nat - 'A' as nat + 10
  }

  /** What stands behind `\u`: hexadecimal digits, those read so far, in the second half of a pair when a high
      surrogate is in front; or, behind a high surrogate, the backslash and the letter of that second half. */
  datatype Code = Hex(first: Option<nat>, digits: seq<nibble>) | Backslash(high: nat) | Letter(high: nat)

  datatype Decoding = More(code: Code) | Decoded(c: char) | Broken

  const HIGH_FIRST := 0xD800
  const LOW_FIRST := 0xDC00
  const LOW_BEHIND := 0xE000   // behind the last low surrogate

  /** One more character of an escape. */
  function Decode(code: Code, c: char): Decoding {
    match code
    case Backslash(high) => if c == '\\' then More(Letter(high)) else Broken
    case Letter(high) => if c == 'u' then More(Hex(Some(high), [])) else Broken
    case Hex(first, digits) =>
      if !IsHex(c) then Broken
      else if |digits| == 3 then
        CodePoint(first, ((digits[0] * 16 + digits[1]) * 16 + digits[2]) * 16 + HexDigit(c))
      else More(Hex(first, digits + [HexDigit(c)]))
  }

  /** Four digits are a character or half of a pair. */
  function CodePoint(first: Option<nat>, unit: nat): Decoding
    requires unit < 0x10000
  {
    match first
    case None =>
      if HIGH_FIRST <= unit < LOW_FIRST then More(Backslash(unit))
      else if LOW_FIRST <= unit < LOW_BEHIND then Broken
      else Decoded(unit as char)
    case Some(high) =>
      if HIGH_FIRST <= high < LOW_FIRST && LOW_FIRST <= unit < LOW_BEHIND then
        Decoded((0x10000 + (high - HIGH_FIRST) * 0x400 + (unit - LOW_FIRST)) as char)
      else Broken
  }

  function HexLetter(n: nat): char
    requires n < 16
  {
    if n < 10 then ('0' as nat + n) as char else ('a' as nat + (n - 10)) as char
  }

  /** Hexadecimal digits as a dump writes them. */
  function HexText(digits: seq<nibble>): string {
    if digits == [] then [] else HexText(digits[..|digits| - 1]) + [HexLetter(digits[|digits| - 1])]
  }

  /** Control characters without a short escape are written as `\u` escapes. */
  function DumpChar(c: char): string {
    if HasShortEscape(c) then ['\\', EscapeLetter(c)]
    else if c < ' ' then "\\u00" + [HexLetter(c as nat / 16), HexLetter(c as nat % 16)]
    else [c]
  }

  function DumpText(s: string): string {
    if s == [] then [] else DumpText(s[..|s| - 1]) + DumpChar(s[|s| - 1])
  }

  function DumpStr(s: string): string { "\"" + DumpText(s) + "\"" }

  // Dumping

  function Dump(j: Json): string {
    match j
    case Null => "null"
    case Bool(b) => if b then "true" else "false"
    case Num(t) => t
    case Str(s) => DumpStr(s)
    case Arr(items) => "[" + DumpItems(items) + "]"
    case Obj(members) => "{" + DumpMembers(members) + "}"
  }

  function DumpItems(items: seq<Json>): string
    decreases items, 0
  {
    if items == [] then [] else DumpedItems(items[..|items| - 1]) + Dump(items[|items| - 1])
  }

  /** The items with a comma after each. */
  function DumpedItems(items: seq<Json>): string
    decreases items, 1
  {
    if items == [] then [] else DumpItems(items) + ","
  }

  function DumpMembers(members: seq<Member>): string
    decreases members, 0
  {
    if members == [] then []
    else
      var m := members[|members| - 1];
      DumpedMembers(members[..|members| - 1]) + DumpStr(m.key) + ":" + Dump(m.value)
  }

  /** The members with a comma after each. */
  function DumpedMembers(members: seq<Member>): string
    decreases members, 1
  {
    if members == [] then [] else DumpMembers(members) + ","
  }

  // Objects

  predicate HasKey(members: seq<Member>, k: string) {
    exists i :: 0 <= i < |members| && members[i].key == k
  }

  /** `object[k] = v`: replaces the value of an existing key in place, else appends. */
  function Insert(members: seq<Member>, k: string, v: Json): seq<Member> {
    if members == [] then [Member(k, v)]
    else if members[0].key == k then [Member(k, v)] + members[1..]
    else [members[0]] + Insert(members[1..], k, v)
  }

  lemma {:induction false} InsertFresh(members: seq<Member>, k: string, v: Json)
    requires !HasKey(members, k)
    ensures Insert(members, k, v) == members + [Member(k, v)]
  {
    if members != [] {
      assert members[0].key != k;
      forall i | 0 <= i < |members| - 1 ensures members[1..][i].key != k {
        assert members[1..][i] == members[i + 1];
      }
      InsertFresh(members[1..], k, v);
    }
  }

  /** Numbers are numbers, and no object has a key twice. */
  predicate WellFormed(j: Json) {
    match j
    case Null => true
    case Bool(_) => true
    case Num(t) => IsNumber(t)
    case Str(_) => true
    case Arr(items) => forall i :: 0 <= i < |items| ==> WellFormed(items[i])
    case Obj(members) =>
      forall i :: 0 <= i < |members| ==>
        WellFormed(members[i].value) && !HasKey(members[..i], members[i].key)
  }

  // Markers

  /** Characters that stand for themselves inside a JSON string. */
  predicate RawText(m: string) { forall i :: 0 <= i < |m| ==> IsRaw(m[i]) }

  /** What a healing marker may be made of: nothing that JSON text treats specially. */
  predicate PlainMarker(m: string) {
    m != [] && forall i :: 0 <= i < |m| ==> IsRaw(m[i]) && m[i] != ',' && m[i] != ':'
  }

  lemma DumpTextLast(s: string)
    requires s != []
    ensures DumpText(s) == DumpText(s[..|s| - 1]) + DumpChar(s[|s| - 1])
  {
  }

  lemma {:induction false} DumpTextConcat(a: string, b: string)
    ensures DumpText(a + b) == DumpText(a) + DumpText(b)
  {
    if b == [] {
      assert a + b == a;
    } else {
      var n := |b| - 1;
      assert (a + b)[..|a + b| - 1] == a + b[..n];
      DumpTextConcat(a, b[..n]);
      DumpTextLast(a + b);
      DumpTextLast(b);
      Assoc(DumpText(a), DumpText(b[..n]), DumpChar(b[n]));
    }
  }

  lemma {:induction false} DumpTextPlain(m: string)
    requires forall i :: 0 <= i < |m| ==> IsRaw(m[i])
    ensures DumpText(m) == m
  {
    if m != [] {
      var n := |m| - 1;
      DumpTextPlain(m[..n]);
      RawDump(m[n]);
      DumpTextLast(m);
      assert m == m[..n] + [m[n]];
    }
  }

  lemma RawDump(c: char)
    requires IsRaw(c)
    ensures DumpChar(c) == [c]
  {
  }
}
