/**
  How head lines and `key "value"` lines are written, and the proofs that the
  lock-file grammar reads back what was written.
*/
module LockParserText {
  import opened Wrappers
  import opened Nom
  import opened LockParser

  // ---------------------------------------------------------------------------
  // Splitting at the last `@`

  lemma LastAtIs(s: string, i: nat)
    requires i < |s| && s[i] == '@'
    requires forall j :: i < j < |s| ==> s[j] != '@'
    ensures LastAt(s) == Some(i)
  {
  }

  /** Joining a name and a requirement free of `@` with an `@` is undone by `split_at_last_at`. */
  lemma SplitJoin(name: string, req: string)
    requires '@' !in req
    ensures SplitAtLastAt(name + "@" + req) == (Some(req), Some(name))
  {
    var s := name + "@" + req;
    forall j | |name| < j < |s|
      ensures s[j] != '@'
    {
      assert s[j] == req[j - |name| - 1];
    }
    LastAtIs(s, |name|);
    assert s[..|name|] == name && s[|name| + 1..] == req;
  }

  /** A scoped package keeps its leading `@`: only the last `@` separates the requirement. */
  lemma ScopedSplit()
    ensures SplitAtLastAt("@scope/pkg@^1.2.3") == (Some("^1.2.3"), Some("@scope/pkg"))
  {
    assert "@scope/pkg@^1.2.3" == "@scope/pkg" + "@" + "^1.2.3";
    SplitJoin("@scope/pkg", "^1.2.3");
  }

  // ---------------------------------------------------------------------------
  // Spans of `is_not!`

  lemma {:induction false} StopSpanStops(stop: set<char>, a: string, b: string)
    requires forall i :: 0 <= i < |a| ==> a[i] !in stop
    requires b == [] || b[0] in stop
    ensures StopSpan(stop, a + b) == |a|
  {
    if a != [] {
      assert (a + b)[1..] == a[1..] + b;
      StopSpanStops(stop, a[1..], b);
    }
  }

  /** `is_not!` reads a non-empty run free of `stop` and stops where a stop character (or the end) comes. */
  lemma IsNotStops(stop: set<char>, a: string, b: string)
    requires a != [] && forall i :: 0 <= i < |a| ==> a[i] !in stop
    requires b == [] || b[0] in stop
    ensures IsNot(stop, a + b) == Done(a, b)
  {
    StopSpanStops(stop, a, b);
    assert (a + b)[..|a|] == a && (a + b)[|a|..] == b;
  }

  lemma QuotedReads(stop: set<char>, a: string, b: string)
    requires '"' in stop
    requires a != [] && forall i :: 0 <= i < |a| ==> a[i] !in stop
    ensures Quoted(stop, "\"" + a + "\"" + b) == Done(a, b)
  {
    var s := "\"" + a + "\"" + b;
    assert s == "\"" + (a + ("\"" + b));
    assert Tag("\"", s) == Done("\"", a + ("\"" + b));
    IsNotStops(stop, a, "\"" + b);
    assert Tag("\"", "\"" + b) == Done("\"", b);
  }

  // ---------------------------------------------------------------------------
  // Head lines

  /** The head line is never `Incomplete`, and fails outright only when it is empty. */
  lemma HeadlinePartsFailsOnlyWhenEmpty(s: string)
    ensures HeadlineParts(s).Error? <==> s == []
  {
    if s == [] {
      assert IsNot(SpecStop, s) == Done([], []);
    } else if s[0] !in SpecStop {
      assert IsNot(SpecStop, s).Done? && IsNot(SpecStop, s).value != [];
    } else {
      assert IsNot(SpecStop, s).Error?;
      var q := Quoted(SpecStop, s);
      if q.Done? {
        assert |q.rest| < |s|;
      }
    }
  }

  /** One written specifier: `name@req`, bare or in double quotes. */
  datatype SpecText = SpecText(quoted: bool, name: string, req: string)

  predicate NoStop(s: string) {
    forall i :: 0 <= i < |s| ==> s[i] !in SpecStop
  }

  /**
    A specifier that reads back as written: no `:`, `,` or `"` anywhere, no `@`
    in the requirement, and a name that does not start with whitespace (which a
    separator would swallow) or `#` (which marks a comment line).
  */
  predicate Writable(x: SpecText) {
    && NoStop(x.name) && NoStop(x.req) && '@' !in x.req
    && (x.name == [] || (!IsSpace(x.name[0]) && x.name[0] != '#'))
  }

  function Unquoted(x: SpecText): string {
    x.name + "@" + x.req
  }

  function SpecString(x: SpecText): string {
    if x.quoted then "\"" + Unquoted(x) + "\"" else Unquoted(x)
  }

  /** Specifiers joined by a comma and `gap`. */
  function HeadText(xs: seq<SpecText>, gap: string): string {
    if xs == [] then ""
    else if |xs| == 1 then SpecString(xs[0])
    else SpecString(xs[0]) + "," + gap + HeadText(xs[1..], gap)
  }

  /** What follows a specifier on the head line: the next separator, or the end of the list. */
  function HeadTail(xs: seq<SpecText>, gap: string, after: string): string {
    (if xs == [] then "" else "," + gap + HeadText(xs, gap)) + after
  }

  function SpecOf(x: SpecText): Spec {
    (Some(x.req), Some(x.name))
  }

  function SpecsOf(xs: seq<SpecText>): (specs: seq<Spec>)
    ensures |specs| == |xs|
    ensures forall i :: 0 <= i < |xs| ==> specs[i] == SpecOf(xs[i])
  {
    if xs == [] then [] else [SpecOf(xs[0])] + SpecsOf(xs[1..])
  }

  predicate AllWritable(xs: seq<SpecText>) {
    forall i :: 0 <= i < |xs| ==> Writable(xs[i])
  }

  /** The end of a head line: nothing, or the `:`. */
  predicate EndsHead(after: string) {
    after == [] || after[0] == ':'
  }

  lemma UnquotedNoStop(x: SpecText)
    requires Writable(x)
    ensures Unquoted(x) != [] && NoStop(Unquoted(x))
  {
    var u := Unquoted(x);
    forall i | 0 <= i < |u|
      ensures u[i] !in SpecStop
    {
      if i < |x.name| {
        assert u[i] == x.name[i];
      } else if i > |x.name| {
        assert u[i] == x.req[i - |x.name| - 1];
      }
    }
  }

  lemma SpecStringStart(x: SpecText, rest: string)
    requires Writable(x)
    ensures SpecString(x) + rest != [] && !IsSpace((SpecString(x) + rest)[0]) && (SpecString(x) + rest)[0] != '#'
  {
    if !x.quoted {
      assert (SpecString(x) + rest)[0] == if x.name == [] then '@' else x.name[0];
    }
  }

  /** A written specifier is read back, split into requirement and name. */
  lemma SpecifierReads(x: SpecText, rest: string)
    requires Writable(x)
    requires rest == [] || rest[0] == ',' || rest[0] == ':'
    ensures Specifier(SpecString(x) + rest) == Done(SpecOf(x), rest)
  {
    var u := Unquoted(x);
    UnquotedNoStop(x);
    SplitJoin(x.name, x.req);
    if x.quoted {
      assert SpecString(x) + rest == "\"" + u + "\"" + rest;
      assert IsNot(SpecStop, SpecString(x) + rest).Error?;
      QuotedReads(SpecStop, u, rest);
    } else {
      IsNotStops(SpecStop, u, rest);
    }
  }

  lemma CommaReads(gap: string, u: string)
    requires AllSpace(gap) && u != [] && !IsSpace(u[0])
    ensures SeparatorTag(",", "," + gap + u) == Done(",", u)
  {
    var s := "," + gap + u;
    assert s == "," + (gap + u);
    SpSkips(gap, u);
  }

  /** At the end of a head line no further separator is found. */
  lemma MoreSpecifiersAtEnd(after: string)
    requires EndsHead(after)
    ensures MoreSpecifiers(after) == ([], after)
  {
    assert Sp(after) == after;
    assert !StartsWith(after, ",");
  }

  /** A non-empty head list is its first specifier followed by the rest of the list. */
  lemma SpecRegroup(first: string, gap: string, head: string, after: string)
    ensures first + "," + gap + head + after == first + ("," + gap + head + after)
  {
  }

  lemma HeadTextSplit(xs: seq<SpecText>, gap: string, after: string)
    requires xs != []
    ensures HeadText(xs, gap) + after == SpecString(xs[0]) + HeadTail(xs[1..], gap, after)
  {
    if |xs| == 1 {
      assert xs[1..] == [];
    } else {
      var first, head := SpecString(xs[0]), HeadText(xs[1..], gap);
      assert HeadText(xs, gap) == first + "," + gap + head;
      assert HeadTail(xs[1..], gap, after) == "," + gap + head + after;
      SpecRegroup(first, gap, head, after);
    }
  }

  lemma HeadTailStart(xs: seq<SpecText>, gap: string, after: string)
    requires EndsHead(after)
    ensures var t := HeadTail(xs, gap, after); t == [] || t[0] == ',' || t[0] == ':'
  {
  }

  lemma MoreSpecifiersStep(s: string, u: string, spec: Spec, rest: string, more: seq<Spec>, fin: string)
    requires SeparatorTag(",", s) == Done(",", u)
    requires Complete(Specifier(u)) == Done(spec, rest) && |rest| < |u|
    requires MoreSpecifiers(rest) == (more, fin)
    ensures MoreSpecifiers(s) == ([spec] + more, fin)
  {
  }

  lemma CommaRegroup(gap: string, head: string, after: string)
    ensures "," + gap + head + after == "," + gap + (head + after)
  {
  }

  /** A comma, whitespace and a written specifier are read as that specifier, given how the text after it reads. */
  lemma SeparatorAndSpecifier(s: string, gap: string, x: SpecText, tail: string, more: seq<Spec>, fin: string)
    requires AllSpace(gap) && Writable(x)
    requires s == "," + gap + (SpecString(x) + tail)
    requires tail == [] || tail[0] == ',' || tail[0] == ':'
    requires MoreSpecifiers(tail) == (more, fin)
    ensures MoreSpecifiers(s) == ([SpecOf(x)] + more, fin)
  {
    var u := SpecString(x) + tail;
    SpecStringStart(x, tail);
    CommaReads(gap, u);
    SpecifierReads(x, tail);
    MoreSpecifiersStep(s, u, SpecOf(x), tail, more, fin);
  }

  /** The first separator and specifier of a head tail, given how the rest of the tail reads. */
  lemma MoreSpecifiersFirst(xs: seq<SpecText>, gap: string, after: string, fin: string)
    requires AllSpace(gap) && AllWritable(xs) && xs != [] && EndsHead(after)
    requires MoreSpecifiers(HeadTail(xs[1..], gap, after)) == (SpecsOf(xs[1..]), fin)
    ensures MoreSpecifiers(HeadTail(xs, gap, after)) == (SpecsOf(xs), fin)
  {
    var tail := HeadTail(xs[1..], gap, after);
    assert Writable(xs[0]);
    HeadTextSplit(xs, gap, after);
    assert HeadTail(xs, gap, after) == "," + gap + HeadText(xs, gap) + after;
    CommaRegroup(gap, HeadText(xs, gap), after);
    HeadTailStart(xs[1..], gap, after);
    SeparatorAndSpecifier(HeadTail(xs, gap, after), gap, xs[0], tail, SpecsOf(xs[1..]), fin);
    assert SpecsOf(xs) == [SpecOf(xs[0])] + SpecsOf(xs[1..]);
  }

  lemma {:induction false} MoreSpecifiersText(xs: seq<SpecText>, gap: string, after: string)
    requires AllSpace(gap) && AllWritable(xs) && EndsHead(after)
    ensures MoreSpecifiers(HeadTail(xs, gap, after)) == (SpecsOf(xs), after)
    decreases |xs|
  {
    if xs == [] {
      assert HeadTail(xs, gap, after) == after;
      MoreSpecifiersAtEnd(after);
    } else {
      MoreSpecifiersText(xs[1..], gap, after);
      MoreSpecifiersFirst(xs, gap, after, after);
    }
  }

  lemma HeadlinePartsStep(s: string, spec: Spec, rest: string, more: seq<Spec>, fin: string)
    requires Complete(Specifier(s)) == Done(spec, rest) && |rest| < |s|
    requires MoreSpecifiers(rest) == (more, fin)
    ensures HeadlineParts(s) == Done([spec] + more, fin)
  {
  }

  /**
    `headline_parts` reads back a written head line: one pair per specifier, in
    order, bare or quoted, whatever whitespace follows each comma; the `:` that
    ends the line is left unread.
  */
  lemma HeadlinePartsText(xs: seq<SpecText>, gap: string, after: string)
    requires xs != [] && AllSpace(gap) && AllWritable(xs) && EndsHead(after)
    ensures HeadlineParts(HeadText(xs, gap) + after) == Done(SpecsOf(xs), after)
  {
    var tail := HeadTail(xs[1..], gap, after);
    assert Writable(xs[0]);
    HeadTextSplit(xs, gap, after);
    HeadTailStart(xs[1..], gap, after);
    SpecifierReads(xs[0], tail);
    MoreSpecifiersText(xs[1..], gap, after);
    assert SpecsOf(xs) == [SpecOf(xs[0])] + SpecsOf(xs[1..]);
    HeadlinePartsStep(HeadText(xs, gap) + after, SpecOf(xs[0]), tail, SpecsOf(xs[1..]), after);
  }

  // ---------------------------------------------------------------------------
  // Key/value lines

  predicate NoValueStop(s: string) {
    forall i :: 0 <= i < |s| ==> s[i] !in ValueStop
  }

  lemma TupleValueReads(gap: string, value: string, trail: string)
    requires AllSpace(gap) && AllSpace(trail) && value != [] && NoValueStop(value)
    ensures Quoted(ValueStop, Sp(gap + "\"" + value + "\"" + trail)) == Done(value, trail)
    ensures Sp(trail) == []
  {
    var v := "\"" + value + "\"" + trail;
    assert gap + "\"" + value + "\"" + trail == gap + v;
    SpSkips(gap, v);
    QuotedReads(ValueStop, value, trail);
    assert trail + [] == trail;
    SpSkips(trail, []);
  }

  /** A bare key runs up to the first space and is followed by the quoted value. */
  lemma TupleLineBare(lead: string, key: string, gap: string, value: string, trail: string)
    requires AllSpace(lead) && AllSpace(gap) && AllSpace(trail)
    requires key != [] && !IsSpace(key[0]) && key[0] != '"' && ' ' !in key
    requires gap != [] && gap[0] == ' '
    requires value != [] && NoValueStop(value)
    ensures TupleLine(lead + key + gap + "\"" + value + "\"" + trail) == Done((key, value), [])
  {
    var rest := gap + "\"" + value + "\"" + trail;
    var s := lead + key + gap + "\"" + value + "\"" + trail;
    assert s == lead + (key + rest);
    SpSkips(lead, key + rest);
    assert (key + rest)[0] == key[0];
    assert Quoted(ValueStop, key + rest).Error?;
    forall i | 0 <= i < |key|
      ensures key[i] !in {' '}
    {
      assert key[i] in key;
    }
    IsNotStops({' '}, key, rest);
    TupleValueReads(gap, value, trail);
  }

  /** A quoted key is read without its quotes, and the space before the value is optional. */
  lemma TupleLineQuoted(lead: string, key: string, gap: string, value: string, trail: string)
    requires AllSpace(lead) && AllSpace(gap) && AllSpace(trail)
    requires key != [] && NoValueStop(key)
    requires value != [] && NoValueStop(value)
    ensures TupleLine(lead + "\"" + key + "\"" + gap + "\"" + value + "\"" + trail) == Done((key, value), [])
  {
    var rest := gap + "\"" + value + "\"" + trail;
    var k := "\"" + key + "\"" + rest;
    assert lead + "\"" + key + "\"" + gap + "\"" + value + "\"" + trail == lead + k;
    SpSkips(lead, k);
    QuotedReads(ValueStop, key, rest);
    TupleValueReads(gap, value, trail);
  }

  /** `window-size "0.1.0"` and `"window-size" "0.1.0"` are the same property. */
  lemma WindowSizeBare()
    ensures TupleLine("window-size \"0.1.0\"") == Done(("window-size", "0.1.0"), [])
  {
    var key, value := "window-size", "0.1.0";
    assert "window-size \"0.1.0\"" == [] + key + " " + "\"" + value + "\"" + [];
    assert ' ' !in key by { assert forall i :: 0 <= i < |key| ==> key[i] != ' '; }
    TupleLineBare([], key, " ", value, []);
  }

  lemma WindowSizeQuoted()
    ensures TupleLine("\"window-size\" \"0.1.0\"") == Done(("window-size", "0.1.0"), [])
  {
    var key, value := "window-size", "0.1.0";
    assert "\"window-size\" \"0.1.0\"" == [] + "\"" + key + "\"" + " " + "\"" + value + "\"" + [];
    TupleLineQuoted([], key, " ", value, []);
  }

  /** A line without a value, such as `dependencies:`, runs out of input before its value. */
  lemma TupleLineWithoutValue(lead: string, key: string)
    requires AllSpace(lead)
    requires key != [] && !IsSpace(key[0]) && key[0] != '"' && ' ' !in key
    ensures TupleLine(lead + key) == Incomplete
  {
    SpSkips(lead, key);
    assert Quoted(ValueStop, key).Error?;
    forall i | 0 <= i < |key|
      ensures key[i] !in {' '}
    {
      assert key[i] in key;
    }
    assert key + [] == key;
    IsNotStops({' '}, key, []);
  }
}
