/** The reader inverts the printer: a dump is read cleanly, without whitespace, back to its value. */
module JsonDumped {
  import opened Text
  import opened JsonText
  import opened JsonReader
  import opened JsonShape

  /** `t` is read from `s` as a dump is written, and leads to `n` once a pending number is complete. */
  ghost predicate Settles(s: State, t: string, n: State) {
    Finish(Run(s, t)) == n && CleanRun(s, t) && Squeeze(s, t) == t
  }

  /** The same, exactly to `n`. */
  ghost predicate Reads(s: State, t: string, n: State) {
    Run(s, t) == n && CleanRun(s, t) && Squeeze(s, t) == t
  }

  lemma {:induction false} CleanRunConcat(s: State, a: string, b: string)
    ensures CleanRun(s, a + b) <==> CleanRun(s, a) && CleanRun(Run(s, a), b)
    decreases |a|
  {
    if a == [] {
      assert a + b == b;
    } else {
      assert (a + b)[1..] == a[1..] + b;
      CleanRunConcat(Step(s, a[0]), a[1..], b);
    }
  }

  lemma {:induction false} SqueezeConcat(s: State, a: string, b: string)
    ensures Squeeze(s, a + b) == Squeeze(s, a) + Squeeze(Run(s, a), b)
    decreases |a|
  {
    if a == [] {
      assert a + b == b;
    } else {
      var first: string := if Skipped(s, a[0]) then [] else [a[0]];
      var n := Step(s, a[0]);
      assert (a + b)[1..] == a[1..] + b;
      SqueezeConcat(n, a[1..], b);
      Assoc(first, Squeeze(n, a[1..]), Squeeze(Run(s, a), b));
    }
  }

  lemma CleanConcat(s: State, a: string, b: string)
    ensures CleanRun(s, a + b) <==> CleanRun(s, a) && CleanRun(Run(s, a), b)
    ensures Squeeze(s, a + b) == Squeeze(s, a) + Squeeze(Run(s, a), b)
  {
    CleanRunConcat(s, a, b);
    SqueezeConcat(s, a, b);
  }

  lemma ReadsThen(s: State, a: string, m: State, b: string, n: State)
    requires Reads(s, a, m)
    ensures Reads(m, b, n) ==> Reads(s, a + b, n)
    ensures Settles(m, b, n) ==> Settles(s, a + b, n)
  {
    CleanConcat(s, a, b);
    RunConcat(s, a, b);
  }

  lemma ReadsChar(s: State, c: char)
    requires CleanStep(s, c) && !Skipped(s, c)
    ensures Reads(s, [c], Step(s, c))
  {
    RunCons(s, c, []);
    assert [c] + [] == [c];
    assert [c][1..] == [];
  }

  /** A `,` or a closing bracket ends whatever came before it, a number included. */
  lemma SettlesChar(s: State, a: string, m: State, c: char)
    requires Settles(s, a, m) && c in {',', ']', '}'}
    requires !m.mode.InString? && !m.mode.InEscape? && !m.mode.InUnicode?
    ensures Reads(s, a + [c], Step(m, c))
  {
    var r := Run(s, a);
    if r.mode.InNumber? && NumStep(NumRun(r.mode.digits), c) != Bad { assert false; }
    StepFinish(r, c);
    ReadsChar(r, c);
    ReadsThen(s, a, r, [c], Step(r, c));
  }

  lemma {:induction false} ReadText(role: Role, t: string, stack: Stack)
    ensures Reads(State(InString(role, []), stack), DumpText(t), State(InString(role, t), stack))
  {
    var s := State(InString(role, []), stack);
    if t != [] {
      var n := |t| - 1;
      ReadText(role, t[..n], stack);
      var m := State(InString(role, t[..n]), stack);
      assert t[..n] + [t[n]] == t;
      ReadChar(role, t[..n], t[n], stack);
      ReadsThen(s, DumpText(t[..n]), m, DumpChar(t[n]), State(InString(role, t), stack));
    }
  }

  lemma ReadChar(role: Role, t: string, c: char, stack: Stack)
    ensures Reads(State(InString(role, t), stack), DumpChar(c), State(InString(role, t + [c]), stack))
  {
    var s := State(InString(role, t), stack);
    if HasShortEscape(c) {
      var e := EscapeLetter(c);
      ReadsChar(s, '\\');
      var m := State(InEscape(role, t), stack);
      ReadsChar(m, e);
      ReadsThen(s, ['\\'], m, [e], State(InString(role, t + [c]), stack));
      assert DumpChar(c) == ['\\'] + [e];
    } else if c < ' ' {
      ReadControl(role, t, c, stack);
    } else {
      ReadsChar(s, c);
    }
  }

  lemma ReadControl(role: Role, t: string, c: char, stack: Stack)
    requires c < ' ' && !HasShortEscape(c)
    ensures Reads(State(InString(role, t), stack), DumpChar(c), State(InString(role, t + [c]), stack))
  {
    var hi: nibble, lo: nibble := c as nat / 16, c as nat % 16;
    var h := State(InUnicode(role, t, Hex(None, [0, 0])), stack);
    ReadFour(role, t, stack);
    ReadTwo(role, t, hi, lo, c, stack);
    ReadsThen(State(InString(role, t), stack), ['\\', 'u', '0', '0'], h, [HexLetter(hi)] + [HexLetter(lo)],
              State(InString(role, t + [c]), stack));
    assert DumpChar(c) == ['\\', 'u', '0', '0'] + ([HexLetter(hi)] + [HexLetter(lo)]);
  }

  lemma ReadFour(role: Role, t: string, stack: Stack)
    ensures Reads(State(InString(role, t), stack), ['\\', 'u', '0', '0'],
                  State(InUnicode(role, t, Hex(None, [0, 0])), stack))
  {
    var s, e := State(InString(role, t), stack), State(InEscape(role, t), stack);
    var h := State(InUnicode(role, t, Hex(None, [])), stack);
    ReadsChar(s, '\\');
    ReadsChar(e, 'u');
    ReadsThen(s, ['\\'], e, ['u'], h);
    ReadZeros(role, t, stack);
    ReadsThen(s, ['\\'] + ['u'], h, ['0'] + ['0'], State(InUnicode(role, t, Hex(None, [0, 0])), stack));
    assert ['\\'] + ['u'] + (['0'] + ['0']) == ['\\', 'u', '0', '0'];
  }

  lemma ReadZeros(role: Role, t: string, stack: Stack)
    ensures Reads(State(InUnicode(role, t, Hex(None, [])), stack), ['0'] + ['0'],
                  State(InUnicode(role, t, Hex(None, [0, 0])), stack))
  {
    var a := State(InUnicode(role, t, Hex(None, [])), stack);
    ReadHex(role, t, [], 0, stack);
    ReadHex(role, t, [0], 0, stack);
    assert [] + [0 as nibble] == [0] && [0] + [0 as nibble] == [0, 0];
    ReadsThen(a, ['0'], a.(mode := InUnicode(role, t, Hex(None, [0]))), ['0'],
              a.(mode := InUnicode(role, t, Hex(None, [0, 0]))));
  }

  lemma HexBack(d: nibble)
    ensures IsHex(HexLetter(d)) && HexDigit(HexLetter(d)) == d
  {
  }

  lemma ReadHex(role: Role, t: string, digits: seq<nibble>, d: nibble, stack: Stack)
    requires |digits| < 3
    ensures Reads(State(InUnicode(role, t, Hex(None, digits)), stack), [HexLetter(d)],
                  State(InUnicode(role, t, Hex(None, digits + [d])), stack))
  {
    HexBack(d);
    ReadsChar(State(InUnicode(role, t, Hex(None, digits)), stack), HexLetter(d));
  }

  lemma ReadTwo(role: Role, t: string, hi: nibble, lo: nibble, c: char, stack: Stack)
    requires c as nat == hi * 16 + lo && c < ' ' && !HasShortEscape(c)
    ensures Reads(State(InUnicode(role, t, Hex(None, [0, 0])), stack), [HexLetter(hi)] + [HexLetter(lo)],
                  State(InString(role, t + [c]), stack))
  {
    var a := State(InUnicode(role, t, Hex(None, [0, 0])), stack);
    var b := State(InUnicode(role, t, Hex(None, [0, 0, hi])), stack);
    ReadHex(role, t, [0, 0], hi, stack);
    assert [0, 0] + [hi] == [0, 0, hi];
    HexBack(lo);
    ReadsChar(b, HexLetter(lo));
    ReadsThen(a, [HexLetter(hi)], b, [HexLetter(lo)], State(InString(role, t + [c]), stack));
  }

  lemma ReadQuoted(s: State, role: Role, t: string, stack: Stack)
    requires Step(s, '"') == State(InString(role, []), stack) && !s.mode.InString?
    requires role == Key && stack.Push? && stack.top.ObjFrame? ==> !HasKey(stack.top.members, t)
    ensures Reads(s, DumpStr(t), EndString(role, t, stack))
  {
    var a, b := State(InString(role, []), stack), State(InString(role, t), stack);
    ReadsChar(s, '"');
    ReadText(role, t, stack);
    ReadsThen(s, "\"", a, DumpText(t), b);
    ReadsChar(b, '"');
    ReadsThen(s, "\"" + DumpText(t), b, "\"", EndString(role, t, stack));
  }

  lemma {:induction false} ReadNumber(s: State, t: string)
    requires (s.mode.Value? || s.mode.ValueOrClose?) && NumRun(t) != Bad
    ensures Reads(s, t, State(InNumber(t), s.stack))
  {
    var n := |t| - 1;
    assert t[..n] + [t[n]] == t;
    if n == 0 {
      ReadsChar(s, t[0]);
      assert t == [t[0]];
    } else {
      ReadNumber(s, t[..n]);
      var m := State(InNumber(t[..n]), s.stack);
      assert !IsSpace(t[n]);
      ReadsChar(m, t[n]);
      ReadsThen(s, t[..n], m, [t[n]], State(InNumber(t), s.stack));
    }
  }

  lemma {:induction false} ReadLiteral(s: State, lit: Literal, n: nat)
    requires (s.mode.Value? || s.mode.ValueOrClose?) && 0 < n < |LiteralText(lit)|
    ensures Reads(s, LiteralText(lit)[..n], State(InLiteral(lit, n), s.stack))
  {
    var w := LiteralText(lit);
    assert w[..n] == w[..n - 1] + [w[n - 1]];
    if n == 1 {
      ReadsChar(s, w[0]);
    } else {
      ReadLiteral(s, lit, n - 1);
      var m := State(InLiteral(lit, n - 1), s.stack);
      ReadsChar(m, w[n - 1]);
      ReadsThen(s, w[..n - 1], m, [w[n - 1]], State(InLiteral(lit, n), s.stack));
    }
  }

  lemma ReadWholeLiteral(s: State, lit: Literal)
    requires s.mode.Value? || s.mode.ValueOrClose?
    ensures Reads(s, LiteralText(lit), Complete(s.stack, LiteralValue(lit)))
  {
    var w := LiteralText(lit);
    var n := |w| - 1;
    ReadLiteral(s, lit, n);
    var m := State(InLiteral(lit, n), s.stack);
    ReadsChar(m, w[n]);
    ReadsThen(s, w[..n], m, [w[n]], Complete(s.stack, LiteralValue(lit)));
    assert w[..n] + [w[n]] == w;
  }

  lemma {:induction false} ReadItems(items: seq<Json>, below: Stack)
    requires items != [] && forall i :: 0 <= i < |items| ==> WellFormed(items[i])
    ensures Settles(State(ValueOrClose, Push(ArrFrame([]), below)), DumpItems(items),
                    State(After, Push(ArrFrame(items), below)))
    decreases items, 0
  {
    var s, n := State(ValueOrClose, Push(ArrFrame([]), below)), |items| - 1;
    var front, last := items[..n], items[n];
    var m := if front == [] then s else State(Value, Push(ArrFrame(front), below));
    if front == [] {
      assert Reads(s, [], s);
    } else {
      ReadItems(front, below);
      SettlesChar(s, DumpItems(front), State(After, Push(ArrFrame(front), below)), ',');
    }
    ReadDump(m, last);
    assert front + [last] == items;
    ReadsThen(s, DumpedItems(front), m, Dump(last), State(After, Push(ArrFrame(items), below)));
  }

  /** The state before a key, after `members` have been read. */
  function BeforeKey(members: seq<Member>, below: Stack): State {
    State(if members == [] then KeyOrClose else KeyOnly, Push(ObjFrame(members, None), below))
  }

  lemma ReadKey(members: seq<Member>, k: string, below: Stack)
    requires !HasKey(members, k)
    ensures Reads(BeforeKey(members, below), DumpStr(k) + ":", State(Value, Push(ObjFrame(members, Some(k)), below)))
  {
    var m, c := BeforeKey(members, below), State(Colon, Push(ObjFrame(members, Some(k)), below));
    ReadQuoted(m, Key, k, m.stack);
    ReadsChar(c, ':');
    ReadsThen(m, DumpStr(k), c, ":", c.(mode := Value));
  }

  lemma WellFormedFront(members: seq<Member>)
    requires members != [] && WellFormed(Obj(members))
    ensures WellFormed(Obj(members[..|members| - 1]))
  {
    var front := members[..|members| - 1];
    forall i | 0 <= i < |front| ensures front[i] == members[i] && front[..i] == members[..i] {}
  }

  /** From after the front members to after the last one. */
  lemma ReadLastMember(s: State, t: string, front: seq<Member>, last: Member, below: Stack)
    requires Reads(s, t, BeforeKey(front, below)) && !HasKey(front, last.key)
    requires Settles(State(Value, Push(ObjFrame(front, Some(last.key)), below)), Dump(last.value),
                     State(After, Push(ObjFrame(front + [last], None), below)))
    ensures Settles(s, t + DumpStr(last.key) + ":" + Dump(last.value),
                    State(After, Push(ObjFrame(front + [last], None), below)))
  {
    var v := State(Value, Push(ObjFrame(front, Some(last.key)), below));
    ReadKey(front, last.key, below);
    ReadsThen(s, t, BeforeKey(front, below), DumpStr(last.key) + ":", v);
    Assoc(t, DumpStr(last.key), ":");
    ReadsThen(s, t + DumpStr(last.key) + ":", v, Dump(last.value),
              State(After, Push(ObjFrame(front + [last], None), below)));
  }

  lemma {:induction false} ReadMembers(members: seq<Member>, below: Stack)
    requires members != [] && WellFormed(Obj(members))
    ensures Settles(BeforeKey([], below), DumpMembers(members), State(After, Push(ObjFrame(members, None), below)))
    decreases members, 0
  {
    var s, n := BeforeKey([], below), |members| - 1;
    var front, last := members[..n], members[n];
    if front != [] {
      WellFormedFront(members);
      ReadMembers(front, below);
    }
    ReadFront(front, below);
    ReadDump(State(Value, Push(ObjFrame(front, Some(last.key)), below)), last.value);
    InsertFresh(front, last.key, last.value);
    ReadLastMember(s, DumpedMembers(front), front, last, below);
    DumpSplits(members, front, last);
  }

  lemma DumpSplits(members: seq<Member>, front: seq<Member>, last: Member)
    requires members != [] && front == members[..|members| - 1] && last == members[|members| - 1]
    ensures front + [last] == members
    ensures DumpMembers(members) == DumpedMembers(front) + DumpStr(last.key) + ":" + Dump(last.value)
  {
  }

  lemma ReadFront(front: seq<Member>, below: Stack)
    requires front != [] ==>
      Settles(BeforeKey([], below), DumpMembers(front), State(After, Push(ObjFrame(front, None), below)))
    ensures Reads(BeforeKey([], below), DumpedMembers(front), BeforeKey(front, below))
  {
    var s := BeforeKey([], below);
    if front == [] {
      assert Reads(s, [], s);
    } else {
      SettlesChar(s, DumpMembers(front), State(After, Push(ObjFrame(front, None), below)), ',');
    }
  }

  /** Reading a dump where a value is expected completes that value, cleanly. */
  lemma {:induction false} ReadDump(s: State, v: Json)
    requires (s.mode.Value? || s.mode.ValueOrClose?) && WellFormed(v)
    ensures Settles(s, Dump(v), Complete(s.stack, v))
    decreases v, 1
  {
    match v
    case Null => ReadWholeLiteral(s, LNull);
    case Bool(b) => ReadWholeLiteral(s, if b then LTrue else LFalse);
    case Num(t) => ReadNumber(s, t);
    case Str(t) => ReadQuoted(s, Val, t, s.stack);
    case Arr(items) => ReadArr(s, items);
    case Obj(members) => ReadObj(s, members);
  }

  lemma {:induction false} ReadArr(s: State, items: seq<Json>)
    requires (s.mode.Value? || s.mode.ValueOrClose?) && WellFormed(Arr(items))
    ensures Settles(s, Dump(Arr(items)), Complete(s.stack, Arr(items)))
    decreases items, 1
  {
    var a := State(ValueOrClose, Push(ArrFrame([]), s.stack));
    ReadsChar(s, '[');
    if items == [] {
      ReadsChar(a, ']');
      ReadsThen(s, "[", a, "]", Complete(s.stack, Arr(items)));
      assert Dump(Arr(items)) == "[" + "]";
    } else {
      ReadItems(items, s.stack);
      SettlesChar(a, DumpItems(items), State(After, Push(ArrFrame(items), s.stack)), ']');
      ReadsThen(s, "[", a, DumpItems(items) + "]", Complete(s.stack, Arr(items)));
      Assoc("[", DumpItems(items), "]");
    }
  }

  lemma {:induction false} ReadObj(s: State, members: seq<Member>)
    requires (s.mode.Value? || s.mode.ValueOrClose?) && WellFormed(Obj(members))
    ensures Settles(s, Dump(Obj(members)), Complete(s.stack, Obj(members)))
    decreases members, 1
  {
    var a := State(KeyOrClose, Push(ObjFrame([], None), s.stack));
    ReadsChar(s, '{');
    if members == [] {
      ReadsChar(a, '}');
      ReadsThen(s, "{", a, "}", Complete(s.stack, Obj(members)));
      assert Dump(Obj(members)) == "{" + "}";
    } else {
      ReadMembers(members, s.stack);
      SettlesChar(a, DumpMembers(members), State(After, Push(ObjFrame(members, None), s.stack)), '}');
      ReadsThen(s, "{", a, DumpMembers(members) + "}", Complete(s.stack, Obj(members)));
      Assoc("{", DumpMembers(members), "}");
    }
  }

  /** Parsing a dump gives the value back. */
  lemma ParseDump(v: Json)
    requires WellFormed(v)
    ensures Parse(Dump(v)) == Some(v)
  {
    ReadDump(START, v);
  }
}
