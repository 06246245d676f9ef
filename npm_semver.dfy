/**
  The npm version-range grammar used for requirement strings such as
  `">=2.2.7 <3"` or `"^2.0.0 || ^1.1.13"`, and its translation into the
  predicate lists of the semver library.

  A bound is an optional operator, a numeric major and optional `.minor` and
  `.patch` components kept as raw alphanumeric text (so `x` survives); a range
  is a bound optionally followed by a second bound; a range list is a quoted,
  `||`-separated sequence of ranges.
*/
module NpmSemver {
  import opened Wrappers
  import opened Nom

  const U64_LIMIT: int := 0x1_0000_0000_0000_0000

  type u64 = x: int | 0 <= x < U64_LIMIT

  datatype WildcardVersion = Major | Minor | Patch

  datatype Op = Ex | Gt | GtEq | Lt | LtEq | Tilde | Compatible | Wildcard(version: WildcardVersion)

  /** One bound as the grammar reads it: operator, major, and the raw minor and patch text. */
  datatype Semver = Semver(op: Op, major: u64, minor: Option<string>, patch: Option<string>)

  /** A lower bound and an optional upper bound. */
  datatype SemverRange = SemverRange(from: Semver, till: Option<Semver>)

  /** Pre-release identifier of the semver library; the translation never produces one. */
  datatype Identifier = Numeric(n: u64) | AlphaNumeric(text: string)

  datatype Predicate = Predicate(op: Op, major: u64, minor: Option<u64>, patch: Option<u64>, pre: seq<Identifier>)

  datatype VersionReq = VersionReq(predicates: seq<Predicate>)

  // ---------------------------------------------------------------------------
  // Decimal numbers

  predicate IsDigit(c: char) {
    '0' <= c <= '9'
  }

  predicate AllDigits(s: string) {
    forall i :: 0 <= i < |s| ==> IsDigit(s[i])
  }

  function DigitValue(c: char): (d: nat)
    requires IsDigit(c)
    ensures d < 10
  {
    (c as int) - ('0' as int)
  }

  /** The number a string of decimal digits denotes (most significant digit first). */
  function DigitsValue(s: string): nat
    requires AllDigits(s)
  {
    if |s| == 0 then 0 else 10 * DigitsValue(s[..|s| - 1]) + DigitValue(s[|s| - 1])
  }

  /**
    Rust's `u64::from_str`: an optional `+` followed by at least one decimal
    digit, with a value that fits in 64 bits.
  */
  function FromStrU64(s: string): (r: Option<u64>)
    ensures |s| > 0 && AllDigits(s) && DigitsValue(s) < U64_LIMIT ==> r == Some(DigitsValue(s))
    ensures s == [] ==> r.None?
    ensures AllDigits(s) && DigitsValue(s) >= U64_LIMIT ==> r.None?
    ensures (exists i :: 0 <= i < |s| && IsAlphanumeric(s[i]) && !IsDigit(s[i])) ==> r.None?
    ensures (s == [] || s[0] != '+') ==> (r.Some? <==> |s| > 0 && AllDigits(s) && DigitsValue(s) < U64_LIMIT)
  {
    var digits := if |s| > 0 && s[0] == '+' then s[1..] else s;
    if |digits| > 0 && AllDigits(digits) && DigitsValue(digits) < U64_LIMIT then
      Some(DigitsValue(digits))
    else
      None
  }

  // ---------------------------------------------------------------------------
  // Parsers for one bound

  /** `tilldot`: the alphanumeric run at the front, read as a 64-bit number. */
  function TillDot(s: string): (r: IResult<u64>)
    ensures !r.Incomplete?
    ensures r.Done? ==> IsSuffix(r.rest, s) && |r.rest| < |s|
  {
    var t := TakeAlphanumeric(s);
    match FromStrU64(t.value)
    case Some(v) => Done(v, t.rest)
    case None => Error
  }

  /** `fromdot`: a `.` and the alphanumeric run after it (possibly empty). */
  function FromDot(s: string): (r: IResult<string>)
    ensures !r.Incomplete?
    ensures r.Done? ==> s == "." + r.value + r.rest && AllAlphanumeric(r.value)
    ensures r.Done? ==> r.rest == [] || !IsAlphanumeric(r.rest[0])
    ensures r.Error? <==> !StartsWith(s, ".")
  {
    if |s| > 0 && s[0] == '.' then
      var t := TakeAlphanumeric(s[1..]);
      assert s == "." + s[1..];
      Done(t.value, t.rest)
    else
      Error
  }

  /** `opt!(fromdot)`: the component if a `.` comes next, otherwise nothing consumed. */
  function OptDot(s: string): (r: (Option<string>, string))
    ensures IsSuffix(r.1, s)
    ensures r.0.None? <==> r.1 == s
  {
    match FromDot(s)
    case Done(c, rest) => (Some(c), rest)
    case _ => (None, s)
  }

  /** The seven operator prefixes, in the order `semver_prefix` tries them. */
  const Prefixes: seq<string> := ["<=", "<", ">=", ">", "^", "~", "="]

  /**
    `semver_prefix`: the first of the seven tags that matches. A two-character
    operator is tried before its one-character prefix, and a tag that the input
    could still complete stops the search with Incomplete.
  */
  function ParseSemverPrefix(s: string): (r: IResult<string>)
    ensures r.Done? ==> r.value in Prefixes && s == r.value + r.rest
  {
    OrElse(Tag("<=", s), OrElse(Tag("<", s),
    OrElse(Tag(">=", s), OrElse(Tag(">", s),
    OrElse(Tag("^", s), OrElse(Tag("~", s), Tag("=", s)))))))
  }

  /** `prefix_to_op`; any other prefix text is unreachable in the source. */
  function PrefixToOp(prefix: Option<string>): (op: Op)
    requires prefix.None? || prefix.value in Prefixes
    ensures !op.Wildcard?
    ensures op == Ex <==> prefix == None || prefix == Some("=")
  {
    match prefix
    case None => Ex
    case Some(p) =>
      if p == "=" then Ex
      else if p == ">" then Gt
      else if p == ">=" then GtEq
      else if p == "<" then Lt
      else if p == "<=" then LtEq
      else if p == "~" then Tilde
      else Compatible
  }

  /** `semver_op`: the optional prefix, defaulting to an exact match. */
  function ParseSemverOp(s: string): (r: IResult<Op>)
    ensures !r.Error?
    ensures r.Done? ==> IsSuffix(r.rest, s) && !r.value.Wildcard?
  {
    var p := ParseSemverPrefix(s);
    match p
    case Done(prefix, rest) => Done(PrefixToOp(Some(prefix)), rest)
    case Error => Done(PrefixToOp(None), s)
    case Incomplete => Incomplete
  }

  /**
    `semver`: operator, major, optional minor, optional patch, with whitespace
    skipped before each part and after the bound.
  */
  function ParseSemver(s: string): (r: IResult<Semver>)
    ensures r.Done? ==> IsSuffix(r.rest, s) && |r.rest| < |s|
    ensures r.Done? ==> r.rest == [] || !IsSpace(r.rest[0])
    ensures r.Done? ==> !r.value.op.Wildcard?
    ensures r.Done? && r.value.minor.None? ==> r.value.patch.None?
  {
    var r := SemverFrom(Sp(s));
    if r.Done? then SpSuffix(s); SuffixTrans(r.rest, Sp(s), s); r else r
  }

  /** The body of `semver` once the leading whitespace is gone. */
  function SemverFrom(s: string): (r: IResult<Semver>)
    ensures r.Done? ==> IsSuffix(r.rest, s) && |r.rest| < |s|
    ensures r.Done? ==> r.rest == [] || !IsSpace(r.rest[0])
    ensures r.Done? ==> !r.value.op.Wildcard?
    ensures r.Done? && r.value.minor.None? ==> r.value.patch.None?
  {
    var op := ParseSemverOp(s);
    if !op.Done? then op.PropagateFailure()
    else
      var major := TillDot(Sp(op.rest));
      if !major.Done? then major.PropagateFailure()
      else
        var (minor, s1) := OptDot(Sp(major.rest));
        var (patch, s2) := OptDot(Sp(s1));
        assert minor.None? ==> Sp(s1) == s1;
        SpSuffix(op.rest);
        SuffixTrans(Sp(op.rest), op.rest, s);
        SuffixTrans(major.rest, Sp(op.rest), s);
        SpSuffix(major.rest);
        SuffixTrans(Sp(major.rest), major.rest, s);
        SuffixTrans(s1, Sp(major.rest), s);
        SpSuffix(s1);
        SuffixTrans(Sp(s1), s1, s);
        SuffixTrans(s2, Sp(s1), s);
        SpSuffix(s2);
        SuffixTrans(Sp(s2), s2, s);
        Done(Semver(op.value, major.value, minor, patch), Sp(s2))
  }

  /** `semver_range`: a bound, then an optional second bound. */
  function ParseSemverRange(s: string): (r: IResult<SemverRange>)
    ensures r.Done? ==> IsSuffix(r.rest, s) && |r.rest| < |s|
  {
    var r := RangeFrom(Sp(s));
    if r.Done? then SpSuffix(s); SuffixTrans(r.rest, Sp(s), s); r else r
  }

  /** The body of `semver_range` once the leading whitespace is gone. */
  function RangeFrom(s: string): (r: IResult<SemverRange>)
    ensures r.Done? ==> IsSuffix(r.rest, s) && |r.rest| < |s|
  {
    var from := ParseSemver(s);
    if !from.Done? then from.PropagateFailure()
    else
      var till := ParseSemver(Sp(from.rest));
      SpSuffix(from.rest);
      SuffixTrans(Sp(from.rest), from.rest, s);
      match till
      case Done(upper, rest) =>
        SuffixTrans(rest, Sp(from.rest), s);
        SpSuffix(rest);
        SuffixTrans(Sp(rest), rest, s);
        Done(SemverRange(from.value, Some(upper)), Sp(rest))
      case Error => Done(SemverRange(from.value, None), Sp(from.rest))
      case Incomplete => Incomplete
  }

  /** The `||` separator of a range list with the whitespace around it, under `complete!`. */
  function ParseBar(s: string): (r: IResult<string>)
    ensures !r.Incomplete?
    ensures r.Done? ==> IsSuffix(r.rest, s) && |r.rest| < |s|
  {
    SeparatorTag("||", s)
  }

  /** The separator-and-range pairs after the first range of a list. */
  function MoreRanges(s: string): (r: (seq<SemverRange>, string))
    ensures IsSuffix(r.1, s)
    decreases |s|
  {
    var bar := ParseBar(s);
    if !bar.Done? then ([], s)
    else
      var range := Complete(ParseSemverRange(bar.rest));
      if !range.Done? then ([], s)
      else
        var (more, rest) := MoreRanges(range.rest);
        SuffixTrans(range.rest, bar.rest, s);
        SuffixTrans(rest, range.rest, s);
        ([range.value] + more, rest)
  }

  /**
    `separated_list_complete!(ws!(tag!("||")), semver_range)`: zero or more ranges;
    a separator not followed by a range is left unconsumed.
  */
  function SeparatedRanges(s: string): (r: (seq<SemverRange>, string))
    ensures IsSuffix(r.1, s)
  {
    var first := Complete(ParseSemverRange(s));
    if !first.Done? then ([], s)
    else
      var (more, rest) := MoreRanges(first.rest);
      SuffixTrans(rest, first.rest, s);
      ([first.value] + more, rest)
  }

  /**
    `semver_range_list`: the separated ranges between two double quotes. What it
    consumes opens and closes with a quote, and what is left is the rest of the input.
  */
  function ParseSemverRangeList(s: string): (r: IResult<seq<SemverRange>>)
    ensures r.Done? ==> StartsWith(s, "\"") && IsSuffix(r.rest, s)
    ensures r.Done? ==> |s| - |r.rest| >= 2 && s[|s| - |r.rest| - 1] == '"'
  {
    var open := Tag("\"", s);
    if !open.Done? then open.PropagateFailure()
    else
      var (ranges, s1) := SeparatedRanges(open.rest);
      var close := Tag("\"", s1);
      if !close.Done? then close.PropagateFailure()
      else
        SuffixTrans(s1, open.rest, s);
        assert s1 == s[|s| - |s1|..] && s1[0] == '"';
        Done(ranges, close.rest)
  }

  /** `tagged_semver`: a bound, an optional `-`, and all the remaining text as the tag. */
  function ParseTaggedSemver(s: string): (r: IResult<(Semver, string)>)
    ensures r.Done? ==> r.rest == [] && |r.value.1| < |s|
  {
    var v := ParseSemver(s);
    if !v.Done? then v.PropagateFailure()
    else
      var dash := Tag("-", v.rest);
      match dash
      case Done(_, tag) => Done((v.value, tag), [])
      case Error => Done((v.value, v.rest), [])
      case Incomplete => Incomplete
  }

  // ---------------------------------------------------------------------------
  // Translation into predicates

  /** `and_then(FromStr::from_str(..).ok())` on a raw component. */
  function ComponentNumber(c: Option<string>): Option<u64> {
    match c
    case Some(text) => FromStrU64(text)
    case None => None
  }

  /** One bound as a predicate: a minor of exactly `x` turns the operator into a minor wildcard. */
  function ToPredicate(v: Semver): (p: Predicate)
    ensures p.pre == [] && p.major == v.major
    ensures p.op.Wildcard? <==> v.minor == Some("x") || v.op.Wildcard?
    ensures v.minor == Some("x") ==> p.op == Wildcard(Minor) && p.minor.None?
    ensures v.minor != Some("x") ==> p.op == v.op
    ensures v.minor.None? ==> p.minor.None?
    ensures v.patch.None? ==> p.patch.None?
  {
    var op := if v.minor == Some("x") then Wildcard(Minor) else v.op;
    assert FromStrU64("x").None? by { assert IsAlphanumeric("x"[0]) && !IsDigit("x"[0]); }
    Predicate(op, v.major, ComponentNumber(v.minor), ComponentNumber(v.patch), [])
  }

  /** `range2req`: one predicate per bound, lower bound first. */
  function Range2Req(range: SemverRange): (req: VersionReq)
    ensures |req.predicates| == if range.till.Some? then 2 else 1
    ensures req.predicates[0] == ToPredicate(range.from)
    ensures range.till.Some? ==> req.predicates[1] == ToPredicate(range.till.value)
  {
    VersionReq([ToPredicate(range.from)] + match range.till case Some(t) => [ToPredicate(t)] case None => [])
  }

  /** The requirements of each range, in list order. */
  function RangesToReqs(ranges: seq<SemverRange>): (reqs: seq<VersionReq>)
    ensures |reqs| == |ranges|
    ensures forall i :: 0 <= i < |ranges| ==> reqs[i] == Range2Req(ranges[i])
  {
    if ranges == [] then [] else [Range2Req(ranges[0])] + RangesToReqs(ranges[1..])
  }

  /** `version_reqs`: a quoted range list turned into one requirement per alternative. */
  function VersionReqs(raw: string): (r: IResult<seq<VersionReq>>)
    ensures r.Done? <==> ParseSemverRangeList(raw).Done?
    ensures r.Done? ==> r.rest == ParseSemverRangeList(raw).rest
    ensures r.Done? ==> r.value == RangesToReqs(ParseSemverRangeList(raw).value)
  {
    var ranges := ParseSemverRangeList(raw);
    if !ranges.Done? then ranges.PropagateFailure()
    else Done(RangesToReqs(ranges.value), ranges.rest)
  }
}
