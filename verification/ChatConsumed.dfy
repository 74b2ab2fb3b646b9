/** What consuming JSON gives, for every outcome of parsing it. */
module ChatConsumed {
  import opened Text
  import opened JsonText
  import opened JsonReader
  import opened JsonDumped
  import opened JsonLocator
  import opened JsonPartial
  import opened JsonRoundTrip
  import opened JsonErrors
  import opened JsonConsumed
  import opened ChatCleanup
  import opened ChatCleanupResult
  import opened ChatPaths
  import opened ChatFlag
  import opened ChatArguments
  import opened ChatParser

  lemma {:induction false} ShownItself(j: Json, path: Path)
    ensures Shown(j, j, path, [])
  {
    match j
    case Obj(members) =>
      forall i | 0 <= i < |members|
        ensures members[i].value.Str? || Shown(members[i].value, members[i].value, path + [members[i].key], [])
      {
        ShownItself(members[i].value, path + [members[i].key]);
      }
    case Arr(items) =>
      forall i | 0 <= i < |items| ensures Shown(items[i], items[i], path, []) { ShownItself(items[i], path); }
    case _ =>
  }

  /** The paths decide something of JSON that was not healed: there are argument paths, and not the empty one. */
  predicate PathsMatter(args: seq<Path>) { args != [] && [] !in args }

  /**
   * JSON parsed without healing, the marker in no key and no string of a container: the cursor moves behind as much
   * of the input as is JSON; each subtree at an argument path becomes text that parses back to it, and nothing else
   * changes; unless a content path leads to something other than a string.
   */
  lemma UnhealedConsumed(input: string, pos: nat, isPartial: bool, m: string, args: seq<Path>, contents: seq<Path>)
    requires pos <= |input| && ParseOrHeal(input[pos..], m).Parsed? && Untouched(ParseOrHeal(input[pos..], m).json, m)
    requires !(ParseOrHeal(input[pos..], m).json.Str? && [] in contents && PathsMatter(args))
    ensures var t := ParseOrHeal(input[pos..], m);
      var r := ConsumeJson(input, pos, isPartial, m, args, contents);
      if PathsMatter(args) && Misplaced(t.json, [], args, contents, m) then r == ContentError
      else
        && r.Taken? && !r.isPartial && Shown(t.json, r.json, [], args)
        && pos <= r.end <= |input| && Parse(input[pos..r.end]) == Some(t.json)
        && forall k: nat :: r.end < k <= |input| ==> Parse(input[pos..k]).None?
  {
    var t := ParseOrHeal(input[pos..], m);
    TakenIsLongest(input, pos, m);
    ParsedIsWell(input[pos..][..t.consumed]);
    if args == [] {
      ShownItself(t.json, []);
    } else {
      var c := Context(m, isPartial, [], [], args, contents);
      UnhealedFlag(c, t.json, [], false);
      UnhealedShown(c, t.json, [], false);
    }
  }

  lemma TakenIsLongest(input: string, pos: nat, m: string)
    requires pos <= |input| && ParseOrHeal(input[pos..], m).Parsed?
    ensures var t := ParseOrHeal(input[pos..], m);
      && pos + t.consumed <= |input| && input[pos..pos + t.consumed] == input[pos..][..t.consumed]
      && Parse(input[pos..pos + t.consumed]) == Some(t.json)
      && forall k: nat :: pos + t.consumed < k <= |input| ==> Parse(input[pos..k]).None?
  {
    var t := ParseOrHeal(input[pos..], m);
    ParsedIsLongest(input[pos..], m);
    assert input[pos..pos + t.consumed] == input[pos..][..t.consumed];
    forall k: nat | pos + t.consumed < k <= |input| ensures Parse(input[pos..k]).None? {
      assert input[pos..k] == input[pos..][..k - pos];
    }
  }

  /** A string at the very top that is content and no argument comes back empty. */
  lemma TopStringConsumed(input: string, pos: nat, isPartial: bool, m: string, args: seq<Path>, contents: seq<Path>)
    requires pos <= |input| && ParseOrHeal(input[pos..], m).Parsed?
    requires ParseOrHeal(input[pos..], m).json.Str? && [] in contents && PathsMatter(args)
    ensures ConsumeJson(input, pos, isPartial, m, args, contents)
         == Taken(Str(""), true, pos + ParseOrHeal(input[pos..], m).consumed)
  {
    assert OccursAt(ParseOrHeal(input[pos..], m).json.s, [], 0);
  }

  /** Nothing is taken of what is no JSON, of what cannot be healed, and of healed JSON in a complete message. */
  lemma NotConsumed(input: string, pos: nat, isPartial: bool, m: string, args: seq<Path>, contents: seq<Path>)
    requires pos <= |input|
    ensures var t, r := ParseOrHeal(input[pos..], m), ConsumeJson(input, pos, isPartial, m, args, contents);
      && (r == NotFound <==> t == NotJson) && (r == HealError <==> t == Throws)
      && (r == PartialError <==> t.Healed? && !isPartial)
  {
  }

  lemma HealedIsWell(t: string, m: string)
    requires ParseOrHeal(t, m).Healed?
    ensures WellFormed(ParseOrHeal(t, m).json)
  {
    var l := Locate(t);
    var choice := Choose(t[..l.position], l.stack, m);
    ParsedIsWell(choice.text);
  }

  /**
   * Healed JSON, where the two passes agree: each subtree at an argument path becomes its dump in front of the
   * healing marker, healed content is cut in front of it, what else holds the marker is left out, and nothing else
   * changes; unless a content path leads to something other than a string. The cursor stops at the error.
   */
  lemma HealedConsumed(input: string, pos: nat, m: string, args: seq<Path>, contents: seq<Path>)
    requires pos <= |input| && DigitMarker(m) && ParseOrHeal(input[pos..], m).Healed?
    requires Unmarked(input[pos..], m) && Locate(input[pos..]).stack != [] && Basis(input[pos..]).Some?
    requires PathsKept(Run(START, Basis(input[pos..]).value).stack)
    ensures var t := ParseOrHeal(input[pos..], m);
      var r := ConsumeJson(input, pos, true, m, args, contents);
      if Misplaced(t.json, [], args, contents, m) then r == ContentError
      else
        && r.Taken? && r.isPartial && r.end == pos + Locate(input[pos..]).position
        && HealedShown(t.json, r.json, Context(m, true, m, t.dumpMarker, args, contents), [])
  {
    var t := ParseOrHeal(input[pos..], m);
    var c := Context(m, true, m, t.dumpMarker, args, contents);
    PassesAgreeExactly(input[pos..], m);
    assert PassesAgree(t, m, args, contents);
    HealedIsWell(input[pos..], m);
    CleanShown(c, t.json, []);
    ConsumedIsUnmarked(input, pos, m, args, contents);
  }

  /**
   * Arguments that are still arriving: with the whole of the JSON as arguments, what is consumed of a prefix of a
   * document is that prefix itself, up to the scalar it stops on, and partial.
   */
  lemma ArgumentsArrive(j: Json, n: nat, m: string, args: seq<Path>, contents: seq<Path>)
    requires IsContainer(j) && WellFormed(j) && 0 < n < |Dump(j)| && !OnCode(Dump(j)[..n])
    requires DigitMarker(m) && Unbordered(m) && !Contains(Dump(j)[..n], m) && [] in args
    ensures ConsumeJson(Dump(j)[..n], 0, true, m, args, contents) == Taken(Str(Kept(Dump(j)[..n])), true, n)
  {
    var t := Dump(j)[..n];
    TruncatedDumpRoundTrip(j, n, m);
    var r := ParseOrHeal(t, m);
    WholeInput(t);
    KeptOpens(j, n);
    var c := Context(m, true, m, r.dumpMarker, args, contents);
    HealedMarkerIs(t, m);
    HasContains(Dump(r.json), r.dumpMarker);
  }

  lemma WholeInput(t: string)
    ensures t[0..] == t
  {
  }

  lemma HealedMarkerIs(t: string, m: string)
    requires ParseOrHeal(t, m).Healed?
    ensures ParseOrHeal(t, m).marker == m
  {
  }

  /** What is kept of a container's prefix is no lone quote. */
  lemma KeptOpens(j: Json, n: nat)
    requires IsContainer(j) && WellFormed(j) && 0 < n < |Dump(j)| && !OnCode(Dump(j)[..n])
    ensures Kept(Dump(j)[..n]) != "\""
  {
    var t := Dump(j)[..n];
    DumpPrefix(j, n);
    KeptPrefix(t);
    var v :| t == Kept(t) + v;
    assert t[0] == Dump(j)[0];
  }

  /** Complete arguments: the document's own text, the whole of it. */
  lemma ArgumentsComplete(j: Json, rest: string, isPartial: bool, m: string, args: seq<Path>, contents: seq<Path>)
    requires IsContainer(j) && WellFormed(j) && [] in args
    requires rest != "" ==> !IsSpace(rest[0]) && !OpensToken(rest[0])
    ensures ConsumeJson(Dump(j) + rest, 0, isPartial, m, args, contents) == Taken(Str(Dump(j)), false, |Dump(j)|)
  {
    var t := Dump(j) + rest;
    WholeInput(t);
    ParseDump(j);
    if rest == "" {
      assert t == Dump(j);
      WholeIsTaken(t, m);
    } else {
      assert t == Dump(j) + [rest[0]] + rest[1..];
      NothingGoesOn(j, rest[0]);
      DocumentThenMore(Dump(j), rest[0], rest[1..], m);
    }
  }

  lemma NothingGoesOn(j: Json, c: char)
    requires IsContainer(j) && Parse(Dump(j)) == Some(j) && !IsSpace(c)
    ensures Step(Run(START, Dump(j)), c).mode.Failed?
  {
    DocumentDone(Dump(j));
    assert !Run(START, Dump(j)).mode.InNumber?;
  }
}
