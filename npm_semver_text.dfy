/**
  How bounds, ranges and range lists are written, and the proofs that the
  grammar of module NpmSemver reads back exactly what was written, whitespace
  included. The concrete requirement strings of the repository's own test list
  are instances of these lemmas.
*/
module NpmSemverText {
  import opened Wrappers
  import opened Nom
  import opened NpmSemver

  // ---------------------------------------------------------------------------
  // Writing numbers and operators

  function DigitChar(d: nat): (c: char)
    requires d < 10
    ensures IsDigit(c) && DigitValue(c) == d
  {
    ('0' as int + d) as char
  }

  /** Decimal notation of `n`, without leading zeros. */
  function NatToDigits(n: nat): (s: string)
    ensures |s| > 0 && AllDigits(s)
  {
    if n < 10 then [DigitChar(n)] else NatToDigits(n / 10) + [DigitChar(n % 10)]
  }

  lemma {:induction false} DigitsRoundTrip(n: nat)
    ensures DigitsValue(NatToDigits(n)) == n
  {
    if n >= 10 {
      var s := NatToDigits(n);
      assert s[..|s| - 1] == NatToDigits(n / 10);
      DigitsRoundTrip(n / 10);
    }
  }

  /** Rust's `from_str` reads back every number below 2^64 written in decimal. */
  lemma FromStrReadsDigits(n: u64)
    ensures FromStrU64(NatToDigits(n)) == Some(n)
  {
    DigitsRoundTrip(n);
  }

  /** The canonical prefix of an operator; an exact match is written with no prefix. */
  function OpText(op: Op): string
    requires !op.Wildcard?
  {
    match op
    case Ex => ""
    case Gt => ">"
    case GtEq => ">="
    case Lt => "<"
    case LtEq => "<="
    case Tilde => "~"
    case Compatible => "^"
  }

  /**
    `prefix_to_op` is total over the seven prefixes and the empty prefix, `=`
    and no prefix both mean an exact match, and every other prefix is the
    canonical text of the operator it denotes.
  */
  lemma {:induction false} PrefixToOpInverse(p: string)
    requires p in Prefixes
    ensures PrefixToOp(None) == Ex && PrefixToOp(Some("=")) == Ex
    ensures p != "=" ==> OpText(PrefixToOp(Some(p))) == p
    ensures p != "=" ==> PrefixToOp(Some(p)) != Ex
  {
    assert p == "<=" || p == "<" || p == ">=" || p == ">" || p == "^" || p == "~" || p == "=";
  }

  lemma {:induction false} OpTextInverse(op: Op)
    requires !op.Wildcard?
    ensures op != Ex ==> OpText(op) in Prefixes && PrefixToOp(Some(OpText(op))) == op
    ensures op == Ex ==> OpText(op) == []
  {
  }

  // ---------------------------------------------------------------------------
  // Small facts about whitespace and spans

  lemma SpIdempotent(s: string)
    ensures Sp(Sp(s)) == Sp(s)
  {
  }

  lemma {:induction false} SpanStops(a: string, b: string)
    requires AllAlphanumeric(a)
    requires b == [] || !IsAlphanumeric(b[0])
    ensures AlphanumericSpan(a + b) == |a|
  {
    if a != [] {
      assert (a + b)[1..] == a[1..] + b;
      SpanStops(a[1..], b);
    }
  }

  lemma TakeStops(a: string, b: string)
    requires AllAlphanumeric(a)
    requires b == [] || !IsAlphanumeric(b[0])
    ensures TakeAlphanumeric(a + b) == Done(a, b)
  {
    SpanStops(a, b);
    assert (a + b)[..|a|] == a && (a + b)[|a|..] == b;
  }

  // ---------------------------------------------------------------------------
  // The operator prefix

  /**
    Each prefix is read as itself. The two-character operators are tried first,
    so `<=` is never read as `<` followed by `=`; a one-character `<` or `>` is
    read as itself only when something other than `=` follows it.
  */
  lemma PrefixReads(p: string, x: string)
    requires p in Prefixes
    requires p == "<" || p == ">" ==> x != [] && x[0] != '='
    ensures ParseSemverOp(p + x) == Done(PrefixToOp(Some(p)), x)
  {
    var s := p + x;
    assert s[..|p|] == p;
    assert p == "<=" || p == "<" || p == ">=" || p == ">" || p == "^" || p == "~" || p == "=";
    assert s[0] == p[0];
    if |s| >= 2 {
      assert s[1] == if |p| == 2 then p[1] else x[0];
    }
  }

  /** A lone `<` or `>` could still become `<=` or `>=`: the input ran out. */
  lemma LonePrefixIncomplete()
    ensures ParseSemverOp("<") == Incomplete
    ensures ParseSemverOp(">") == Incomplete
  {
    assert Tag("<=", "<") == Incomplete;
    assert Tag("<=", ">") == Error && Tag("<", ">") == Error && Tag(">=", ">") == Incomplete;
  }

  /** Text starting with anything but an operator character is read as an exact match, consuming nothing. */
  lemma NoPrefixReads(x: string)
    requires x != [] && x[0] !in {'<', '>', '^', '~', '='}
    ensures ParseSemverOp(x) == Done(Ex, x)
  {
    assert ParseSemverPrefix(x) == Error;
  }

  // ---------------------------------------------------------------------------
  // One bound

  function ComponentText(c: Option<string>): string {
    match c
    case Some(text) => "." + text
    case None => ""
  }

  /** A bound that can be written down: no wildcard operator, alphanumeric components, no patch without a minor. */
  predicate WellFormed(v: Semver) {
    && !v.op.Wildcard?
    && (v.minor.None? ==> v.patch.None?)
    && (v.minor.Some? ==> AllAlphanumeric(v.minor.value))
    && (v.patch.Some? ==> AllAlphanumeric(v.patch.value))
  }

  /** `prefix` is a way of writing `op`: the empty prefix or one of the seven that denotes it. */
  predicate WritesOp(prefix: string, op: Op) {
    (prefix == [] && op == Ex) || (prefix in Prefixes && PrefixToOp(Some(prefix)) == op)
  }

  /** A written bound: leading whitespace, operator text, whitespace, then the numbers. */
  datatype BoundText = BoundText(lead: string, prefix: string, gap: string, bound: Semver)

  predicate WellLaidOut(b: BoundText) {
    AllSpace(b.lead) && AllSpace(b.gap) && WritesOp(b.prefix, b.bound.op) && WellFormed(b.bound)
  }

  function Digits(b: BoundText): string {
    NatToDigits(b.bound.major) + ComponentText(b.bound.minor) + ComponentText(b.bound.patch)
  }

  function Text(b: BoundText): string {
    b.lead + b.prefix + b.gap + Digits(b)
  }

  /** What may follow a bound without being read as part of it. */
  predicate EndsBound(t: string) {
    (t == [] || !IsAlphanumeric(t[0])) && !StartsWith(Sp(t), ".")
  }

  /** One component and the text after it: `.` then an alphanumeric run that stops where `rest` begins. */
  lemma FromDotReads(c: string, rest: string)
    requires AllAlphanumeric(c)
    requires rest == [] || !IsAlphanumeric(rest[0])
    ensures FromDot("." + c + rest) == Done(c, rest)
  {
    TakeStops(c, rest);
    assert ("." + c + rest)[1..] == c + rest;
  }

  /** No `.` after the whitespace: `opt!(fromdot)` reads nothing. */
  lemma OptDotNone(t: string)
    requires !StartsWith(Sp(t), ".")
    ensures OptDot(Sp(t)) == (None, Sp(t))
  {
    assert FromDot(Sp(t)).Error?;
  }

  /** A `.` and a component: `opt!(fromdot)` reads the component. */
  lemma OptDotSome(c: string, rest: string)
    requires AllAlphanumeric(c)
    requires rest == [] || !IsAlphanumeric(rest[0])
    ensures OptDot(Sp("." + c + rest)) == (Some(c), rest)
  {
    FromDotReads(c, rest);
    assert Sp("." + c + rest) == "." + c + rest;
  }

  /** The components after the major are read back, and the whitespace after them is skipped. */
  lemma ComponentsRead(v: Semver, t: string) returns (s1: string, s2: string)
    requires WellFormed(v) && EndsBound(t)
    ensures OptDot(Sp(ComponentText(v.minor) + ComponentText(v.patch) + t)) == (v.minor, s1)
    ensures OptDot(Sp(s1)) == (v.patch, s2)
    ensures Sp(s2) == Sp(t)
  {
    SpIdempotent(t);
    if v.minor.None? {
      assert ComponentText(v.minor) + ComponentText(v.patch) + t == t;
      OptDotNone(t);
      OptDotNone(Sp(t));
      s1, s2 := Sp(t), Sp(t);
    } else if v.patch.None? {
      var m := v.minor.value;
      assert ComponentText(v.minor) + ComponentText(v.patch) + t == "." + m + t;
      OptDotSome(m, t);
      OptDotNone(t);
      s1, s2 := t, Sp(t);
    } else {
      var m, p := v.minor.value, v.patch.value;
      var rest := "." + p + t;
      assert ComponentText(v.minor) + ComponentText(v.patch) + t == "." + m + rest;
      OptDotSome(m, rest);
      OptDotSome(p, t);
      s1, s2 := rest, t;
    }
  }

  /** How `semver` proceeds once each of its parts has been read. */
  lemma SemverFromSteps(u: string, op: Op, s1: string, major: u64, s2: string,
                        minor: Option<string>, s3: string, patch: Option<string>, s4: string)
    requires ParseSemverOp(u) == Done(op, s1)
    requires TillDot(Sp(s1)) == Done(major, s2)
    requires OptDot(Sp(s2)) == (minor, s3)
    requires OptDot(Sp(s3)) == (patch, s4)
    ensures SemverFrom(u) == Done(Semver(op, major, minor, patch), Sp(s4))
  {
  }

  /** Whitespace alone in front of a major is read as an exact match. */
  lemma BareOperatorRead(w: string, tail: string)
    requires AllSpace(w) && tail != [] && IsDigit(tail[0])
    ensures ParseSemverOp(Sp(w + tail)) == Done(Ex, tail)
  {
    SpSkips(w, tail);
    NoPrefixReads(tail);
  }

  /** An operator between two runs of whitespace, in front of a major, is read as that operator. */
  lemma PrefixOperatorRead(lead: string, prefix: string, gap: string, tail: string)
    requires AllSpace(lead) && AllSpace(gap) && prefix in Prefixes
    requires tail != [] && IsDigit(tail[0])
    ensures ParseSemverOp(Sp(lead + (prefix + (gap + tail)))) == Done(PrefixToOp(Some(prefix)), gap + tail)
    ensures Sp(gap + tail) == tail
  {
    assert prefix == "<=" || prefix == "<" || prefix == ">=" || prefix == ">" || prefix == "^" || prefix == "~" || prefix == "=";
    SpSkips(lead, prefix + (gap + tail));
    assert (gap + tail)[0] == if gap == [] then tail[0] else gap[0];
    PrefixReads(prefix, gap + tail);
    SpSkips(gap, tail);
  }

  /** The whitespace and operator in front of a major are read as the operator. */
  lemma OperatorRead(b: BoundText, tail: string) returns (x: string)
    requires WellLaidOut(b)
    requires tail != [] && IsDigit(tail[0])
    ensures ParseSemverOp(Sp(b.lead + b.prefix + b.gap + tail)) == Done(b.bound.op, x)
    ensures Sp(x) == tail
  {
    if b.prefix == [] {
      assert b.lead + b.prefix + b.gap + tail == (b.lead + b.gap) + tail;
      BareOperatorRead(b.lead + b.gap, tail);
      x := tail;
    } else {
      assert b.lead + b.prefix + b.gap + tail == b.lead + (b.prefix + (b.gap + tail));
      PrefixOperatorRead(b.lead, b.prefix, b.gap, tail);
      x := b.gap + tail;
    }
  }

  /** The major is read as the number it denotes, stopping where the components begin. */
  lemma MajorRead(n: u64, after: string)
    requires after == [] || !IsAlphanumeric(after[0])
    ensures TillDot(NatToDigits(n) + after) == Done(n, after)
  {
    TakeStops(NatToDigits(n), after);
    FromStrReadsDigits(n);
  }

  /** A major of 2^64 or more overflows `u64::from_str`, so `tilldot` fails outright. */
  lemma MajorOverflows(n: nat, after: string)
    requires n >= U64_LIMIT
    requires after == [] || !IsAlphanumeric(after[0])
    ensures FromStrU64(NatToDigits(n)).None?
    ensures TillDot(NatToDigits(n) + after) == Error
  {
    TakeStops(NatToDigits(n), after);
    DigitsRoundTrip(n);
  }

  /** Without a digit at the front (as after a lone `.`), `tilldot` reads an empty run and fails. */
  lemma MajorMissing(after: string)
    requires after == [] || !IsAlphanumeric(after[0])
    ensures TillDot(after) == Error
  {
    TakeStops([], after);
    assert [] + after == after;
  }

  /** A written bound followed by `t`, cut into operator part, major and the rest. */
  lemma TextSplits(b: BoundText, t: string)
    ensures Text(b) + t == b.lead + b.prefix + b.gap
      + (NatToDigits(b.bound.major) + (ComponentText(b.bound.minor) + ComponentText(b.bound.patch) + t))
  {
  }

  lemma ReadsParts(b: BoundText, t: string, after: string, tail: string, s: string)
    requires WellLaidOut(b) && EndsBound(t)
    requires after == ComponentText(b.bound.minor) + ComponentText(b.bound.patch) + t
    requires tail == NatToDigits(b.bound.major) + after
    requires s == b.lead + b.prefix + b.gap + tail
    ensures ParseSemver(s) == Done(b.bound, Sp(t))
  {
    var v := b.bound;
    var x := OperatorRead(b, tail);
    assert TillDot(Sp(x)) == Done(v.major, after) by {
      assert after == [] || !IsAlphanumeric(after[0]);
      MajorRead(v.major, after);
    }
    var s1, s2 := ComponentsRead(v, t);
    SemverFromSteps(Sp(s), v.op, x, v.major, after, v.minor, s1, v.patch, s2);
  }

  /** `semver` reads back a written bound, whatever whitespace surrounds its operator. */
  lemma ParseSemverText(b: BoundText, t: string)
    requires WellLaidOut(b) && EndsBound(t)
    ensures ParseSemver(Text(b) + t) == Done(b.bound, Sp(t))
  {
    var after := ComponentText(b.bound.minor) + ComponentText(b.bound.patch) + t;
    var tail := NatToDigits(b.bound.major) + after;
    TextSplits(b, t);
    ReadsParts(b, t, after, tail, Text(b) + t);
  }

  /** `semver` reads text that cannot start a bound as an outright failure. */
  lemma NotABound(u: string)
    requires u != [] && !IsSpace(u[0]) && !IsDigit(u[0]) && u[0] !in {'<', '>', '^', '~', '='}
    ensures ParseSemver(u) == Error
  {
    NoPrefixReads(u);
    var t := TakeAlphanumeric(u);
    if t.value != [] {
      assert IsAlphanumeric(t.value[0]) && !IsDigit(t.value[0]);
    }
    assert FromStrU64(t.value).None?;
  }

  /** Empty input is not yet a bound: nom asks for more. */
  lemma EmptyIsIncomplete()
    ensures ParseSemver([]) == Incomplete
  {
    assert Tag("<=", []) == Incomplete;
  }

  // ---------------------------------------------------------------------------
  // Ranges

  datatype RangeText = RangeText(from: BoundText, till: Option<BoundText>)

  /** The second bound must be set apart from the first by whitespace or an operator. */
  predicate WellLaidOutRange(r: RangeText) {
    && WellLaidOut(r.from)
    && (r.till.Some? ==> WellLaidOut(r.till.value) && (r.till.value.lead != [] || r.till.value.prefix != []))
  }

  function RangeText2(r: RangeText): string {
    Text(r.from) + match r.till case Some(b) => Text(b) case None => ""
  }

  function RangeOf(r: RangeText): SemverRange {
    SemverRange(r.from.bound, match r.till case Some(b) => Some(b.bound) case None => None)
  }

  /** Text that starts neither a component nor a bound (after its whitespace). */
  predicate StartsNoBound(t: string) {
    var u := Sp(t);
    u != [] && !IsDigit(u[0]) && u[0] !in {'<', '>', '^', '~', '=', '.'}
  }

  /** What may follow a range: a single bound needs something after it that is no bound. */
  predicate EndsRange(r: RangeText, t: string) {
    EndsBound(t) && (r.till.None? ==> StartsNoBound(t))
  }

  lemma ParseSemverSp(s: string)
    ensures ParseSemver(Sp(s)) == ParseSemver(s)
  {
    SpIdempotent(s);
  }

  lemma ParseSemverRangeSp(s: string)
    ensures ParseSemverRange(Sp(s)) == ParseSemverRange(s)
  {
    SpIdempotent(s);
  }

  /** How `semver_range` proceeds once its first bound and its attempt at a second one are known. */
  lemma RangeSteps(s: string, lo: Semver, s1: string, hi: IResult<Semver>)
    requires ParseSemver(s) == Done(lo, s1)
    requires ParseSemver(Sp(s1)) == hi && !hi.Incomplete?
    ensures hi.Done? ==> ParseSemverRange(s) == Done(SemverRange(lo, Some(hi.value)), Sp(hi.rest))
    ensures hi.Error? ==> ParseSemverRange(s) == Done(SemverRange(lo, None), Sp(s1))
  {
    ParseSemverSp(s);
  }

  /** Text that opens with whitespace followed by `u` ends a bound when `u` starts neither a component nor a number. */
  lemma EndsBoundAt(x: string, w: string, u: string)
    requires x == w + u && AllSpace(w)
    requires u != [] && !IsSpace(u[0]) && u[0] != '.'
    requires !IsAlphanumeric(x[0])
    ensures EndsBound(x)
  {
    SpSkips(w, u);
  }

  /** The numbers of a bound start with a digit. */
  lemma DigitsStart(b: BoundText, t: string)
    ensures Digits(b) + t != [] && IsDigit((Digits(b) + t)[0])
  {
    var n := NatToDigits(b.bound.major);
    assert (Digits(b) + t)[0] == n[0];
  }

  /** Whitespace in front of a major ends the bound before it. */
  lemma LeadEndsBound(lead: string, gap: string, d: string)
    requires lead != [] && AllSpace(lead) && AllSpace(gap)
    requires d != [] && IsDigit(d[0])
    ensures EndsBound(lead + gap + d)
  {
    var x := lead + gap + d;
    assert x == (lead + gap) + d;
    assert x[0] == lead[0];
    EndsBoundAt(x, lead + gap, d);
  }

  /** An operator, with or without whitespace in front of it, ends the bound before it. */
  lemma PrefixEndsBound(lead: string, prefix: string, gap: string, d: string)
    requires AllSpace(lead) && prefix in Prefixes
    ensures EndsBound(lead + prefix + gap + d)
  {
    var u := prefix + (gap + d);
    assert prefix == "<=" || prefix == "<" || prefix == ">=" || prefix == ">" || prefix == "^" || prefix == "~" || prefix == "=";
    assert u[0] == prefix[0];
    var x := lead + prefix + gap + d;
    assert x == lead + u;
    assert x[0] == if lead == [] then u[0] else lead[0];
    EndsBoundAt(x, lead, u);
  }

  /** A second bound set apart by whitespace or an operator ends the first bound. */
  lemma SecondBoundEndsFirst(hi: BoundText, t: string)
    requires WellLaidOut(hi) && (hi.lead != [] || hi.prefix != [])
    ensures EndsBound(Text(hi) + t)
  {
    var d := Digits(hi) + t;
    DigitsStart(hi, t);
    assert Text(hi) + t == hi.lead + hi.prefix + hi.gap + d;
    if hi.prefix == [] {
      assert hi.lead + hi.prefix + hi.gap + d == hi.lead + hi.gap + d;
      LeadEndsBound(hi.lead, hi.gap, d);
    } else {
      PrefixEndsBound(hi.lead, hi.prefix, hi.gap, d);
    }
  }

  /** A single bound followed by text that starts no bound is a range without an upper bound. */
  lemma OneBoundRange(r: RangeText, t: string)
    requires WellLaidOutRange(r) && EndsRange(r, t) && r.till.None?
    ensures ParseSemverRange(RangeText2(r) + t) == Done(RangeOf(r), Sp(t))
  {
    var lo := r.from;
    assert RangeText2(r) + t == Text(lo) + t;
    ParseSemverText(lo, t);
    NotABound(Sp(t));
    ParseSemverSp(Sp(t));
    RangeSteps(Text(lo) + t, lo.bound, Sp(t), Error);
  }

  /** Two bounds, the second set apart from the first, make a range with both bounds. */
  lemma TwoBoundRange(r: RangeText, t: string)
    requires WellLaidOutRange(r) && EndsRange(r, t) && r.till.Some?
    ensures ParseSemverRange(RangeText2(r) + t) == Done(RangeOf(r), Sp(t))
  {
    var lo, hi := r.from, r.till.value;
    var rest := Text(hi) + t;
    assert RangeText2(r) + t == Text(lo) + rest;
    SecondBoundEndsFirst(hi, t);
    ParseSemverText(lo, rest);
    ParseSemverSp(rest);
    ParseSemverText(hi, t);
    SpIdempotent(t);
    RangeSteps(Text(lo) + rest, lo.bound, Sp(rest), Done(hi.bound, Sp(t)));
  }

  /**
    `semver_range` reads back a written range: the first bound, then the second
    if one was written, with or without whitespace between them.
  */
  lemma ParseSemverRangeText(r: RangeText, t: string)
    requires WellLaidOutRange(r) && EndsRange(r, t)
    ensures ParseSemverRange(RangeText2(r) + t) == Done(RangeOf(r), Sp(t))
  {
    if r.till.None? {
      OneBoundRange(r, t);
    } else {
      TwoBoundRange(r, t);
    }
  }

  /** A range with nothing after it fails: the optional second bound runs out of input. */
  lemma RangeAtEndIncomplete(b: BoundText)
    requires WellLaidOut(b)
    ensures ParseSemverRange(Text(b)) == Incomplete
  {
    assert Text(b) + [] == Text(b);
    ParseSemverSp(Text(b));
    ParseSemverText(b, []);
    EmptyIsIncomplete();
  }

  // ---------------------------------------------------------------------------
  // Range lists

  /** Ranges joined by `||`, each separator preceded by `gap`. */
  function ListBody(rs: seq<RangeText>, gap: string): string {
    if rs == [] then ""
    else if |rs| == 1 then RangeText2(rs[0])
    else RangeText2(rs[0]) + gap + "||" + ListBody(rs[1..], gap)
  }

  function ListText(rs: seq<RangeText>, gap: string): string {
    "\"" + ListBody(rs, gap) + "\""
  }

  function RangesOf(rs: seq<RangeText>): (ranges: seq<SemverRange>)
    ensures |ranges| == |rs|
    ensures forall i :: 0 <= i < |rs| ==> ranges[i] == RangeOf(rs[i])
  {
    if rs == [] then [] else [RangeOf(rs[0])] + RangesOf(rs[1..])
  }

  predicate AllWellLaidOut(rs: seq<RangeText>) {
    forall i :: 0 <= i < |rs| ==> WellLaidOutRange(rs[i])
  }

  /** What follows a range inside a list: the next separator, or the closing quote. */
  function ListTail(rs: seq<RangeText>, gap: string, after: string): string {
    (if rs == [] then "" else gap + "||" + ListBody(rs, gap)) + "\"" + after
  }

  lemma GapRegroup(gap: string, body: string, after: string)
    ensures gap + "||" + body + "\"" + after == gap + ("||" + body + "\"" + after)
  {
  }

  lemma ListTailSp(rs: seq<RangeText>, gap: string, after: string)
    requires AllSpace(gap)
    ensures Sp(ListTail(rs, gap, after)) == if rs == [] then "\"" + after else "||" + ListBody(rs, gap) + "\"" + after
  {
    if rs != [] {
      var body := ListBody(rs, gap);
      var u := "||" + body + "\"" + after;
      assert ListTail(rs, gap, after) == gap + "||" + body + "\"" + after;
      GapRegroup(gap, body, after);
      SpSkips(gap, u);
    }
  }

  lemma ListTailEndsRange(r: RangeText, rs: seq<RangeText>, gap: string, after: string)
    requires AllSpace(gap)
    ensures EndsRange(r, ListTail(rs, gap, after))
  {
    ListTailSp(rs, gap, after);
  }

  lemma BarRegroup(first: string, gap: string, body: string, after: string)
    ensures first + gap + "||" + body + "\"" + after == first + (gap + "||" + body + "\"" + after)
  {
  }

  /** A non-empty list body is its first range followed by the rest of the list. */
  lemma ListBodySplit(rs: seq<RangeText>, gap: string, after: string)
    requires rs != []
    ensures ListBody(rs, gap) + "\"" + after == RangeText2(rs[0]) + ListTail(rs[1..], gap, after)
  {
    if |rs| == 1 {
      assert rs[1..] == [];
      assert ListTail(rs[1..], gap, after) == "\"" + after;
    } else {
      var body := ListBody(rs[1..], gap);
      var first := RangeText2(rs[0]);
      assert ListBody(rs, gap) == first + gap + "||" + body;
      assert ListTail(rs[1..], gap, after) == gap + "||" + body + "\"" + after;
      BarRegroup(first, gap, body, after);
    }
  }

  lemma BarReads(body: string)
    ensures ParseBar("||" + body) == Done("||", Sp(body))
  {
    assert Tag("||", "||" + body) == Done("||", body);
  }

  /** How the tail of a range list proceeds once a separator and the range after it are read. */
  lemma MoreRangesStep(s: string, b: string, range: SemverRange, rest: string, more: seq<SemverRange>, fin: string)
    requires ParseBar(s) == Done("||", b)
    requires ParseSemverRange(b) == Done(range, rest)
    requires MoreRanges(rest) == (more, fin)
    ensures MoreRanges(s) == ([range] + more, fin)
  {
  }

  /** At the closing quote the tail of a range list stops without consuming anything. */
  lemma MoreRangesAtQuote(after: string)
    ensures MoreRanges("\"" + after) == ([], "\"" + after)
  {
    var u := "\"" + after;
    assert u[0] == '"';
    assert Sp(u) == u;
    assert !StartsWith(u, "||");
    assert ParseBar(u).Error?;
  }

  lemma SeparatorAndRange(s: string, body: string, r: RangeText, tail: string, more: seq<SemverRange>, fin: string)
    requires s == "||" + body && body == RangeText2(r) + tail
    requires ParseSemverRange(RangeText2(r) + tail) == Done(RangeOf(r), Sp(tail))
    requires MoreRanges(Sp(tail)) == (more, fin)
    ensures MoreRanges(s) == ([RangeOf(r)] + more, fin)
  {
    BarReads(body);
    ParseSemverRangeSp(body);
    MoreRangesStep(s, Sp(body), RangeOf(r), Sp(tail), more, fin);
  }

  lemma ListTailSpNonEmpty(rs: seq<RangeText>, gap: string, after: string)
    requires AllSpace(gap) && rs != []
    ensures Sp(ListTail(rs, gap, after)) == "||" + (ListBody(rs, gap) + "\"" + after)
  {
    ListTailSp(rs, gap, after);
  }

  lemma FirstRangeReads(rs: seq<RangeText>, gap: string, after: string)
    requires AllSpace(gap) && AllWellLaidOut(rs) && rs != []
    ensures ParseSemverRange(RangeText2(rs[0]) + ListTail(rs[1..], gap, after))
         == Done(RangeOf(rs[0]), Sp(ListTail(rs[1..], gap, after)))
  {
    ListTailEndsRange(rs[0], rs[1..], gap, after);
    assert WellLaidOutRange(rs[0]);
    ParseSemverRangeText(rs[0], ListTail(rs[1..], gap, after));
  }

  lemma RangesOfCons(rs: seq<RangeText>)
    requires rs != []
    ensures RangesOf(rs) == [RangeOf(rs[0])] + RangesOf(rs[1..])
  {
  }

  /** The first separator and range of a list tail, given how the rest of the tail reads. */
  lemma MoreRangesFirst(rs: seq<RangeText>, gap: string, after: string, fin: string)
    requires AllSpace(gap) && AllWellLaidOut(rs) && rs != []
    requires MoreRanges(Sp(ListTail(rs[1..], gap, after))) == (RangesOf(rs[1..]), fin)
    ensures MoreRanges(Sp(ListTail(rs, gap, after))) == (RangesOf(rs), fin)
  {
    var body := ListBody(rs, gap) + "\"" + after;
    ListTailSpNonEmpty(rs, gap, after);
    ListBodySplit(rs, gap, after);
    FirstRangeReads(rs, gap, after);
    RangesOfCons(rs);
    SeparatorAndRange("||" + body, body, rs[0], ListTail(rs[1..], gap, after), RangesOf(rs[1..]), fin);
  }

  /** The tail of a written list, after its first range, is read back up to the closing quote. */
  lemma {:induction false} MoreRangesText(rs: seq<RangeText>, gap: string, after: string)
    requires AllSpace(gap) && AllWellLaidOut(rs)
    ensures MoreRanges(Sp(ListTail(rs, gap, after))) == (RangesOf(rs), "\"" + after)
    decreases |rs|
  {
    if rs == [] {
      ListTailSp(rs, gap, after);
      MoreRangesAtQuote(after);
    } else {
      MoreRangesText(rs[1..], gap, after);
      MoreRangesFirst(rs, gap, after, "\"" + after);
    }
  }

  /** How a range list proceeds once its first range is read. */
  lemma SeparatedRangesStep(s: string, range: SemverRange, rest: string, more: seq<SemverRange>, fin: string)
    requires ParseSemverRange(s) == Done(range, rest)
    requires MoreRanges(rest) == (more, fin)
    ensures SeparatedRanges(s) == ([range] + more, fin)
  {
  }

  /** How the list parser finishes once the ranges between the quotes are read. */
  lemma RangeListSteps(inner: string, ranges: seq<SemverRange>, after: string)
    requires SeparatedRanges(inner) == (ranges, "\"" + after)
    ensures ParseSemverRangeList("\"" + inner) == Done(ranges, after)
  {
    assert Tag("\"", "\"" + inner) == Done("\"", inner);
    assert Tag("\"", "\"" + after) == Done("\"", after);
  }

  /** Right after the opening quote, a closing quote means no ranges at all. */
  lemma SeparatedRangesAtQuote(after: string)
    ensures SeparatedRanges("\"" + after) == ([], "\"" + after)
  {
    var u := "\"" + after;
    assert u[0] == '"';
    NotABound(u);
    ParseSemverSp(u);
  }

  lemma SeparatedRangesNonEmpty(rs: seq<RangeText>, gap: string, after: string)
    requires AllSpace(gap) && AllWellLaidOut(rs) && rs != []
    ensures SeparatedRanges(ListBody(rs, gap) + "\"" + after) == (RangesOf(rs), "\"" + after)
  {
    var tail := ListTail(rs[1..], gap, after);
    ListBodySplit(rs, gap, after);
    ListTailEndsRange(rs[0], rs[1..], gap, after);
    assert WellLaidOutRange(rs[0]);
    ParseSemverRangeText(rs[0], tail);
    MoreRangesText(rs[1..], gap, after);
    SeparatedRangesStep(ListBody(rs, gap) + "\"" + after, RangeOf(rs[0]), Sp(tail), RangesOf(rs[1..]), "\"" + after);
  }

  /** The ranges between the quotes of a written list are read back, stopping at the closing quote. */
  lemma SeparatedRangesText(rs: seq<RangeText>, gap: string, after: string)
    requires AllSpace(gap) && AllWellLaidOut(rs)
    ensures SeparatedRanges(ListBody(rs, gap) + "\"" + after) == (RangesOf(rs), "\"" + after)
  {
    if rs == [] {
      assert ListBody(rs, gap) + "\"" + after == "\"" + after;
      SeparatedRangesAtQuote(after);
    } else {
      SeparatedRangesNonEmpty(rs, gap, after);
    }
  }

  /** `semver_range_list` reads back every written list, the empty list `""` included. */
  lemma ParseSemverRangeListText(rs: seq<RangeText>, gap: string, after: string)
    requires AllSpace(gap) && AllWellLaidOut(rs)
    ensures ParseSemverRangeList(ListText(rs, gap) + after) == Done(RangesOf(rs), after)
  {
    var inner := ListBody(rs, gap) + "\"" + after;
    assert ListText(rs, gap) + after == "\"" + inner;
    SeparatedRangesText(rs, gap, after);
    RangeListSteps(inner, RangesOf(rs), after);
  }

  /** `version_reqs` on a written list gives one requirement per range, in order. */
  lemma VersionReqsText(rs: seq<RangeText>, gap: string, after: string)
    requires AllSpace(gap) && AllWellLaidOut(rs)
    ensures VersionReqs(ListText(rs, gap) + after) == Done(RangesToReqs(RangesOf(rs)), after)
  {
    ParseSemverRangeListText(rs, gap, after);
  }

  // ---------------------------------------------------------------------------
  // Tagged bounds

  /** `tagged_semver` returns the bound and everything after the `-` that follows it. */
  lemma TaggedSemverText(b: BoundText, tag: string)
    requires WellLaidOut(b)
    ensures ParseTaggedSemver(Text(b) + "-" + tag) == Done((b.bound, tag), [])
  {
    var t := "-" + tag;
    assert Text(b) + "-" + tag == Text(b) + t;
    assert Sp(t) == t;
    ParseSemverText(b, t);
    assert Tag("-", t) == Done("-", tag);
  }

  /** Without a `-`, the tag is whatever follows the bound's trailing whitespace. */
  lemma UntaggedSemverText(b: BoundText, t: string)
    requires WellLaidOut(b) && EndsBound(t) && Sp(t) != [] && Sp(t)[0] != '-'
    ensures ParseTaggedSemver(Text(b) + t) == Done((b.bound, Sp(t)), [])
  {
    ParseSemverText(b, t);
    assert Tag("-", Sp(t)).Error?;
  }

  /** A bound with nothing after it fails: the optional `-` runs out of input. */
  lemma BareSemverIncomplete(b: BoundText)
    requires WellLaidOut(b)
    ensures ParseTaggedSemver(Text(b)) == Incomplete
  {
    assert Text(b) + [] == Text(b);
    ParseSemverText(b, []);
    assert Tag("-", []) == Incomplete;
  }

  // ---------------------------------------------------------------------------
  // Predicates

  /** Numeric components written in decimal become the same numbers; the pre-release list stays empty. */
  lemma ToPredicateNumbers(op: Op, major: u64, minor: u64, patch: u64)
    requires !op.Wildcard?
    ensures ToPredicate(Semver(op, major, Some(NatToDigits(minor)), Some(NatToDigits(patch))))
         == Predicate(op, major, Some(minor), Some(patch), [])
  {
    FromStrReadsDigits(minor);
    FromStrReadsDigits(patch);
    assert NatToDigits(minor) != "x" by { assert IsDigit(NatToDigits(minor)[0]); }
  }

  /** A minor of `x` overrides any operator with a minor wildcard and carries no minor number. */
  lemma ToPredicateWildcard(op: Op, major: u64, patch: Option<string>)
    ensures ToPredicate(Semver(op, major, Some("x"), patch)).op == Wildcard(Minor)
    ensures ToPredicate(Semver(op, major, Some("x"), patch)).minor == None
  {
  }
}
