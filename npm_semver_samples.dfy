/**
  The requirement strings of the repository's own unit tests, each read by the
  grammar of module NpmSemver to the value the tests expect, with no input left
  over. Every sample is an instance of a general read-back lemma of module
  NpmSemverText.
*/
module NpmSemverSamples {
  import opened Wrappers
  import opened Nom
  import opened NpmSemver
  import opened NpmSemverText

  function V(op: Op, major: u64, minor: Option<string>, patch: Option<string>): Semver {
    Semver(op, major, minor, patch)
  }

  // ---------------------------------------------------------------------------
  // Single bounds

  // Each operator prefix, with and without whitespace around it.

  lemma ExactSample()
    ensures ParseSemver("2.3.4") == Done(V(Ex, 2, Some("3"), Some("4")), [])
  {
    var b := BoundText("", "", "", V(Ex, 2, Some("3"), Some("4")));
    assert Text(b) + [] == "2.3.4";
    ParseSemverText(b, []);
  }

  lemma AtMostSample()
    ensures ParseSemver("<=2.3.4") == Done(V(LtEq, 2, Some("3"), Some("4")), [])
  {
    var b := BoundText("", "<=", "", V(LtEq, 2, Some("3"), Some("4")));
    assert Text(b) + [] == "<=2.3.4";
    ParseSemverText(b, []);
  }

  lemma AtLeastSample()
    ensures ParseSemver(">=2.3.4") == Done(V(GtEq, 2, Some("3"), Some("4")), [])
  {
    var b := BoundText("", ">=", "", V(GtEq, 2, Some("3"), Some("4")));
    assert Text(b) + [] == ">=2.3.4";
    ParseSemverText(b, []);
  }

  lemma EqualsSample()
    ensures ParseSemver("=2.3.4") == Done(V(Ex, 2, Some("3"), Some("4")), [])
  {
    var b := BoundText("", "=", "", V(Ex, 2, Some("3"), Some("4")));
    assert Text(b) + [] == "=2.3.4";
    ParseSemverText(b, []);
  }

  lemma AboveSample()
    ensures ParseSemver(">2.3.4") == Done(V(Gt, 2, Some("3"), Some("4")), [])
  {
    var b := BoundText("", ">", "", V(Gt, 2, Some("3"), Some("4")));
    assert Text(b) + [] == ">2.3.4";
    ParseSemverText(b, []);
  }

  lemma CaretSample()
    ensures ParseSemver("^2.3.4") == Done(V(Compatible, 2, Some("3"), Some("4")), [])
  {
    var b := BoundText("", "^", "", V(Compatible, 2, Some("3"), Some("4")));
    assert Text(b) + [] == "^2.3.4";
    ParseSemverText(b, []);
  }

  lemma CaretSpacedSample()
    ensures ParseSemver("^ 2.3.4") == Done(V(Compatible, 2, Some("3"), Some("4")), [])
  {
    var b := BoundText("", "^", " ", V(Compatible, 2, Some("3"), Some("4")));
    assert Text(b) + [] == "^ 2.3.4";
    ParseSemverText(b, []);
  }

  lemma TildeSample()
    ensures ParseSemver("~2.3.4") == Done(V(Tilde, 2, Some("3"), Some("4")), [])
  {
    var b := BoundText("", "~", "", V(Tilde, 2, Some("3"), Some("4")));
    assert Text(b) + [] == "~2.3.4";
    ParseSemverText(b, []);
  }

  lemma TildeSpacedSample()
    ensures ParseSemver("~ 2.3.4") == Done(V(Tilde, 2, Some("3"), Some("4")), [])
  {
    var b := BoundText("", "~", " ", V(Tilde, 2, Some("3"), Some("4")));
    assert Text(b) + [] == "~ 2.3.4";
    ParseSemverText(b, []);
  }

  lemma AtLeastSpacedSample()
    ensures ParseSemver(" >= 2.3.4") == Done(V(GtEq, 2, Some("3"), Some("4")), [])
  {
    var b := BoundText(" ", ">=", " ", V(GtEq, 2, Some("3"), Some("4")));
    assert Text(b) + [] == " >= 2.3.4";
    ParseSemverText(b, []);
  }

  lemma AtLeastMinorSample()
    ensures ParseSemver(">= 2.3") == Done(V(GtEq, 2, Some("3"), None), [])
  {
    var b := BoundText("", ">=", " ", V(GtEq, 2, Some("3"), None));
    assert Text(b) + "" == ">= 2.3";
    ParseSemverText(b, "");
  }

  lemma MinorXSample()
    ensures ParseSemver("2.x") == Done(V(Ex, 2, Some("x"), None), [])
  {
    var b := BoundText("", "", "", V(Ex, 2, Some("x"), None));
    assert Text(b) + "" == "2.x";
    ParseSemverText(b, "");
  }

  lemma MinorSample()
    ensures ParseSemver("2.3") == Done(V(Ex, 2, Some("3"), None), [])
  {
    var b := BoundText("", "", "", V(Ex, 2, Some("3"), None));
    assert Text(b) + "" == "2.3";
    ParseSemverText(b, "");
  }

  lemma MajorSample()
    ensures ParseSemver("2") == Done(V(Ex, 2, None, None), [])
  {
    var b := BoundText("", "", "", V(Ex, 2, None, None));
    assert Text(b) + "" == "2";
    ParseSemverText(b, "");
  }

  lemma MinorPaddedSample()
    ensures ParseSemver(" 2.3 ") == Done(V(Ex, 2, Some("3"), None), [])
  {
    var b := BoundText(" ", "", "", V(Ex, 2, Some("3"), None));
    assert Text(b) + " " == " 2.3 ";
    ParseSemverText(b, " ");
  }

  lemma MajorPaddedSample()
    ensures ParseSemver(" 2 ") == Done(V(Ex, 2, None, None), [])
  {
    var b := BoundText(" ", "", "", V(Ex, 2, None, None));
    assert Text(b) + " " == " 2 ";
    ParseSemverText(b, " ");
  }

  /** A bound followed by `-` and a tag. */
  lemma TaggedSample()
    ensures ParseTaggedSemver("2.3.4-pre") == Done((V(Ex, 2, Some("3"), Some("4")), "pre"), [])
  {
    var b := BoundText("", "", "", V(Ex, 2, Some("3"), Some("4")));
    assert Text(b) + "-" + "pre" == "2.3.4-pre";
    TaggedSemverText(b, "pre");
  }

  // ---------------------------------------------------------------------------
  // Ranges

  // Two bounds, with or without whitespace between them, and partial upper bounds.
  // The written form of each bound is established on its own, apart from the parse.

  function Lower(): BoundText {
    BoundText("", ">=", "", V(GtEq, 2, Some("3"), Some("4")))
  }

  lemma LowerText()
    ensures WellLaidOut(Lower()) && Text(Lower()) == ">=2.3.4"
  {
    assert Digits(Lower()) == "2.3.4";
  }

  /** A range of two written bounds, the second set apart from the first. */
  lemma TwoBoundText(lo: BoundText, hi: BoundText, loText: string, hiText: string)
    requires WellLaidOut(lo) && WellLaidOut(hi) && (hi.lead != [] || hi.prefix != [])
    requires Text(lo) == loText && Text(hi) == hiText
    ensures WellLaidOutRange(RangeText(lo, Some(hi)))
    ensures RangeText2(RangeText(lo, Some(hi))) + [] == loText + hiText
  {
  }

  function LowerUpperMajorUpper(): BoundText {
    BoundText(" ", "<", " ", V(Lt, 3, None, None))
  }

  lemma LowerUpperMajorUpperText()
    ensures WellLaidOut(LowerUpperMajorUpper()) && Text(LowerUpperMajorUpper()) == " < 3"
  {
    assert Digits(LowerUpperMajorUpper()) == "3";
  }

  lemma LowerUpperMajorSample()
    ensures ParseSemverRange(">=2.3.4 < 3")
      == Done(SemverRange(V(GtEq, 2, Some("3"), Some("4")), Some(V(Lt, 3, None, None))), [])
  {
    LowerText();
    LowerUpperMajorUpperText();
    TwoBoundText(Lower(), LowerUpperMajorUpper(), ">=2.3.4", " < 3");
    assert ">=2.3.4" + " < 3" == ">=2.3.4 < 3";
    ParseSemverRangeText(RangeText(Lower(), Some(LowerUpperMajorUpper())), []);
  }

  function LowerUpperMinorUpper(): BoundText {
    BoundText(" ", "<", " ", V(Lt, 3, Some("2"), None))
  }

  lemma LowerUpperMinorUpperText()
    ensures WellLaidOut(LowerUpperMinorUpper()) && Text(LowerUpperMinorUpper()) == " < 3.2"
  {
    assert Digits(LowerUpperMinorUpper()) == "3.2";
  }

  lemma LowerUpperMinorSample()
    ensures ParseSemverRange(">=2.3.4 < 3.2")
      == Done(SemverRange(V(GtEq, 2, Some("3"), Some("4")), Some(V(Lt, 3, Some("2"), None))), [])
  {
    LowerText();
    LowerUpperMinorUpperText();
    TwoBoundText(Lower(), LowerUpperMinorUpper(), ">=2.3.4", " < 3.2");
    assert ">=2.3.4" + " < 3.2" == ">=2.3.4 < 3.2";
    ParseSemverRangeText(RangeText(Lower(), Some(LowerUpperMinorUpper())), []);
  }

  function LowerUpperTightUpper(): BoundText {
    BoundText("", "<", "", V(Lt, 3, Some("2"), Some("1")))
  }

  lemma LowerUpperTightUpperText()
    ensures WellLaidOut(LowerUpperTightUpper()) && Text(LowerUpperTightUpper()) == "<3.2.1"
  {
    assert Digits(LowerUpperTightUpper()) == "3.2.1";
  }

  lemma LowerUpperTightSample()
    ensures ParseSemverRange(">=2.3.4<3.2.1")
      == Done(SemverRange(V(GtEq, 2, Some("3"), Some("4")), Some(V(Lt, 3, Some("2"), Some("1")))), [])
  {
    LowerText();
    LowerUpperTightUpperText();
    TwoBoundText(Lower(), LowerUpperTightUpper(), ">=2.3.4", "<3.2.1");
    assert ">=2.3.4" + "<3.2.1" == ">=2.3.4<3.2.1";
    ParseSemverRangeText(RangeText(Lower(), Some(LowerUpperTightUpper())), []);
  }

  function LowerUpperSpacedUpper(): BoundText {
    BoundText(" ", "<", " ", V(Lt, 3, Some("2"), Some("1")))
  }

  lemma LowerUpperSpacedUpperText()
    ensures WellLaidOut(LowerUpperSpacedUpper()) && Text(LowerUpperSpacedUpper()) == " < 3.2.1"
  {
    assert Digits(LowerUpperSpacedUpper()) == "3.2.1";
  }

  lemma LowerUpperSpacedSample()
    ensures ParseSemverRange(">=2.3.4 < 3.2.1")
      == Done(SemverRange(V(GtEq, 2, Some("3"), Some("4")), Some(V(Lt, 3, Some("2"), Some("1")))), [])
  {
    LowerText();
    LowerUpperSpacedUpperText();
    TwoBoundText(Lower(), LowerUpperSpacedUpper(), ">=2.3.4", " < 3.2.1");
    assert ">=2.3.4" + " < 3.2.1" == ">=2.3.4 < 3.2.1";
    ParseSemverRangeText(RangeText(Lower(), Some(LowerUpperSpacedUpper())), []);
  }

  // ---------------------------------------------------------------------------
  // Range lists

  // The quoted requirement strings every one of which the list test requires to
  // parse. A list is assembled range by range, so that the parser is never
  // unfolded on the literal itself.

  /** A list of one range. */
  lemma ListOne(r: RangeText, gap: string, t: string)
    requires WellLaidOutRange(r) && RangeText2(r) == t
    ensures AllWellLaidOut([r])
    ensures ListBody([r], gap) == t
    ensures RangesOf([r]) == [RangeOf(r)]
  {
  }

  /** A range in front of a list, set apart by `gap` and `||`. */
  lemma ListCons(r: RangeText, rs: seq<RangeText>, gap: string, t: string, body: string)
    requires WellLaidOutRange(r) && RangeText2(r) == t
    requires rs != [] && AllWellLaidOut(rs) && ListBody(rs, gap) == body
    ensures AllWellLaidOut([r] + rs)
    ensures ListBody([r] + rs, gap) == t + gap + "||" + body
    ensures RangesOf([r] + rs) == [RangeOf(r)] + RangesOf(rs)
  {
    assert ([r] + rs)[1..] == rs;
  }

  /** A written list, read back, gives the ranges it was written from. */
  lemma ListReads(rs: seq<RangeText>, body: string, text: string, ranges: seq<SemverRange>)
    requires AllWellLaidOut(rs) && ListBody(rs, " ") == body && RangesOf(rs) == ranges
    requires text == "\"" + body + "\""
    ensures ParseSemverRangeList(text) == Done(ranges, [])
  {
    assert ListText(rs, " ") + [] == text;
    ParseSemverRangeListText(rs, " ", []);
  }

  /** Two ranges in a row. */
  lemma ListOf2(r1: RangeText, t1: string, r2: RangeText, t2: string)
    requires WellLaidOutRange(r1) && RangeText2(r1) == t1
    requires WellLaidOutRange(r2) && RangeText2(r2) == t2
    ensures AllWellLaidOut([r1, r2])
    ensures ListBody([r1, r2], " ") == t1 + " " + "||" + t2
    ensures RangesOf([r1, r2]) == [RangeOf(r1), RangeOf(r2)]
  {
    ListOne(r2, " ", t2);
    ListCons(r1, [r2], " ", t1, t2);
    assert [r1] + [r2] == [r1, r2];
  }

  /** Three ranges in a row. */
  lemma ListOf3(r1: RangeText, t1: string, r2: RangeText, t2: string, r3: RangeText, t3: string)
    requires WellLaidOutRange(r1) && RangeText2(r1) == t1
    requires WellLaidOutRange(r2) && RangeText2(r2) == t2
    requires WellLaidOutRange(r3) && RangeText2(r3) == t3
    ensures AllWellLaidOut([r1, r2, r3])
    ensures ListBody([r1, r2, r3], " ") == t1 + " " + "||" + (t2 + " " + "||" + t3)
    ensures RangesOf([r1, r2, r3]) == [RangeOf(r1), RangeOf(r2), RangeOf(r3)]
  {
    ListOf2(r2, t2, r3, t3);
    ListCons(r1, [r2, r3], " ", t1, t2 + " " + "||" + t3);
    assert [r1] + [r2, r3] == [r1, r2, r3];
  }

  /** Four ranges in a row. */
  lemma ListOf4(r1: RangeText, t1: string, r2: RangeText, t2: string, r3: RangeText, t3: string,
                r4: RangeText, t4: string)
    requires WellLaidOutRange(r1) && RangeText2(r1) == t1
    requires WellLaidOutRange(r2) && RangeText2(r2) == t2
    requires WellLaidOutRange(r3) && RangeText2(r3) == t3
    requires WellLaidOutRange(r4) && RangeText2(r4) == t4
    ensures AllWellLaidOut([r1, r2, r3, r4])
    ensures ListBody([r1, r2, r3, r4], " ") == t1 + " " + "||" + (t2 + " " + "||" + (t3 + " " + "||" + t4))
    ensures RangesOf([r1, r2, r3, r4]) == [RangeOf(r1), RangeOf(r2), RangeOf(r3), RangeOf(r4)]
  {
    ListOf3(r2, t2, r3, t3, r4, t4);
    ListCons(r1, [r2, r3, r4], " ", t1, t2 + " " + "||" + (t3 + " " + "||" + t4));
    assert [r1] + [r2, r3, r4] == [r1, r2, r3, r4];
  }

  /** Five ranges in a row. */
  lemma ListOf5(r1: RangeText, t1: string, r2: RangeText, t2: string, r3: RangeText, t3: string,
                r4: RangeText, t4: string, r5: RangeText, t5: string)
    requires WellLaidOutRange(r1) && RangeText2(r1) == t1
    requires WellLaidOutRange(r2) && RangeText2(r2) == t2
    requires WellLaidOutRange(r3) && RangeText2(r3) == t3
    requires WellLaidOutRange(r4) && RangeText2(r4) == t4
    requires WellLaidOutRange(r5) && RangeText2(r5) == t5
    ensures AllWellLaidOut([r1, r2, r3, r4, r5])
    ensures ListBody([r1, r2, r3, r4, r5], " ")
      == t1 + " " + "||" + (t2 + " " + "||" + (t3 + " " + "||" + (t4 + " " + "||" + t5)))
    ensures RangesOf([r1, r2, r3, r4, r5]) == [RangeOf(r1), RangeOf(r2), RangeOf(r3), RangeOf(r4), RangeOf(r5)]
  {
    ListOf4(r2, t2, r3, t3, r4, t4, r5, t5);
    ListCons(r1, [r2, r3, r4, r5], " ", t1, t2 + " " + "||" + (t3 + " " + "||" + (t4 + " " + "||" + t5)));
    assert [r1] + [r2, r3, r4, r5] == [r1, r2, r3, r4, r5];
  }

  function One(v: Semver): SemverRange {
    SemverRange(v, None)
  }

  function Two(lo: Semver, hi: Semver): SemverRange {
    SemverRange(lo, Some(hi))
  }

  function List220(): seq<RangeText> {
    [RangeText(BoundText("", ">=", "", V(GtEq, 2, Some("2"), Some("7"))), Some(BoundText(" ", "<", "", V(Lt, 3, None, None))))]
  }
  lemma List220Text()
    ensures AllWellLaidOut(List220())
    ensures ListBody(List220(), " ") == ">=2.2.7 <3"
    ensures RangesOf(List220()) == [Two(V(GtEq, 2, Some("2"), Some("7")), V(Lt, 3, None, None))]
  {
    assert WellLaidOutRange(List220()[0]) && RangeText2(List220()[0]) == ">=2.2.7 <3";
    ListOne(List220()[0], " ", ">=2.2.7 <3");
  }

  lemma List220Join()
    ensures "\">=2.2.7 <3\"" == "\"" + ">=2.2.7 <3" + "\""
  {
  }

  lemma List220Sample()
    ensures ParseSemverRangeList("\">=2.2.7 <3\"")
      == Done([Two(V(GtEq, 2, Some("2"), Some("7")), V(Lt, 3, None, None))], [])
  {
    List220Join();
    List220Text();
    ListReads(List220(), ">=2.2.7 <3", "\">=2.2.7 <3\"", [Two(V(GtEq, 2, Some("2"), Some("7")), V(Lt, 3, None, None))]);
  }

  function List221(): seq<RangeText> {
    [RangeText(BoundText("", "^", "", V(Compatible, 2, Some("0"), Some("0"))), None),
     RangeText(BoundText(" ", "^", "", V(Compatible, 1, Some("1"), Some("13"))), None)]
  }
  lemma List221Text()
    ensures AllWellLaidOut(List221())
    ensures ListBody(List221(), " ") == "^2.0.0" + " " + "||" + " ^1.1.13"
    ensures RangesOf(List221()) == [One(V(Compatible, 2, Some("0"), Some("0"))), One(V(Compatible, 1, Some("1"), Some("13")))]
  {
    assert WellLaidOutRange(List221()[0]) && RangeText2(List221()[0]) == "^2.0.0";
    assert WellLaidOutRange(List221()[1]) && RangeText2(List221()[1]) == " ^1.1.13";
    ListOf2(List221()[0], "^2.0.0", List221()[1], " ^1.1.13");
  }

  lemma List221Join()
    ensures "^2.0.0" + " " + "||" + " ^1.1.13" == "^2.0.0 || ^1.1.13"
    ensures "\"^2.0.0 || ^1.1.13\"" == "\"" + "^2.0.0 || ^1.1.13" + "\""
  {
  }

  lemma List221Sample()
    ensures ParseSemverRangeList("\"^2.0.0 || ^1.1.13\"")
      == Done([One(V(Compatible, 2, Some("0"), Some("0"))), One(V(Compatible, 1, Some("1"), Some("13")))], [])
  {
    List221Join();
    List221Text();
    ListReads(List221(), "^2.0.0 || ^1.1.13", "\"^2.0.0 || ^1.1.13\"", [One(V(Compatible, 2, Some("0"), Some("0"))), One(V(Compatible, 1, Some("1"), Some("13")))]);
  }

  function List222(): seq<RangeText> {
    [RangeText(BoundText("", ">", " ", V(Gt, 1, Some("0"), Some("0"))), Some(BoundText(" ", "<", " ", V(Lt, 3, Some("0"), Some("0")))))]
  }
  lemma List222Text()
    ensures AllWellLaidOut(List222())
    ensures ListBody(List222(), " ") == "> 1.0.0 < 3.0.0"
    ensures RangesOf(List222()) == [Two(V(Gt, 1, Some("0"), Some("0")), V(Lt, 3, Some("0"), Some("0")))]
  {
    assert WellLaidOutRange(List222()[0]) && RangeText2(List222()[0]) == "> 1.0.0 < 3.0.0";
    ListOne(List222()[0], " ", "> 1.0.0 < 3.0.0");
  }

  lemma List222Join()
    ensures "\"> 1.0.0 < 3.0.0\"" == "\"" + "> 1.0.0 < 3.0.0" + "\""
  {
  }

  lemma List222Sample()
    ensures ParseSemverRangeList("\"> 1.0.0 < 3.0.0\"")
      == Done([Two(V(Gt, 1, Some("0"), Some("0")), V(Lt, 3, Some("0"), Some("0")))], [])
  {
    List222Join();
    List222Text();
    ListReads(List222(), "> 1.0.0 < 3.0.0", "\"> 1.0.0 < 3.0.0\"", [Two(V(Gt, 1, Some("0"), Some("0")), V(Lt, 3, Some("0"), Some("0")))]);
  }

  function List223(): seq<RangeText> {
    [RangeText(BoundText("", ">=", "", V(GtEq, 0, Some("3"), Some("0"))), Some(BoundText(" ", "<", "", V(Lt, 0, Some("4"), None))))]
  }
  lemma List223Text()
    ensures AllWellLaidOut(List223())
    ensures ListBody(List223(), " ") == ">=0.3.0 <0.4"
    ensures RangesOf(List223()) == [Two(V(GtEq, 0, Some("3"), Some("0")), V(Lt, 0, Some("4"), None))]
  {
    assert WellLaidOutRange(List223()[0]) && RangeText2(List223()[0]) == ">=0.3.0 <0.4";
    ListOne(List223()[0], " ", ">=0.3.0 <0.4");
  }

  lemma List223Join()
    ensures "\">=0.3.0 <0.4\"" == "\"" + ">=0.3.0 <0.4" + "\""
  {
  }

  lemma List223Sample()
    ensures ParseSemverRangeList("\">=0.3.0 <0.4\"")
      == Done([Two(V(GtEq, 0, Some("3"), Some("0")), V(Lt, 0, Some("4"), None))], [])
  {
    List223Join();
    List223Text();
    ListReads(List223(), ">=0.3.0 <0.4", "\">=0.3.0 <0.4\"", [Two(V(GtEq, 0, Some("3"), Some("0")), V(Lt, 0, Some("4"), None))]);
  }

  function List224(): seq<RangeText> {
    [RangeText(BoundText("", "", "", V(Ex, 1, None, None)), None),
     RangeText(BoundText(" ", "", "", V(Ex, 2, None, None)), None)]
  }
  lemma List224Text()
    ensures AllWellLaidOut(List224())
    ensures ListBody(List224(), " ") == "1" + " " + "||" + " 2"
    ensures RangesOf(List224()) == [One(V(Ex, 1, None, None)), One(V(Ex, 2, None, None))]
  {
    assert WellLaidOutRange(List224()[0]) && RangeText2(List224()[0]) == "1";
    assert WellLaidOutRange(List224()[1]) && RangeText2(List224()[1]) == " 2";
    ListOf2(List224()[0], "1", List224()[1], " 2");
  }

  lemma List224Join()
    ensures "1" + " " + "||" + " 2" == "1 || 2"
    ensures "\"1 || 2\"" == "\"" + "1 || 2" + "\""
  {
  }

  lemma List224Sample()
    ensures ParseSemverRangeList("\"1 || 2\"")
      == Done([One(V(Ex, 1, None, None)), One(V(Ex, 2, None, None))], [])
  {
    List224Join();
    List224Text();
    ListReads(List224(), "1 || 2", "\"1 || 2\"", [One(V(Ex, 1, None, None)), One(V(Ex, 2, None, None))]);
  }

  function List225(): seq<RangeText> {
    [RangeText(BoundText("", ">=", "", V(GtEq, 0, Some("5"), None)), Some(BoundText(" ", "", "", V(Ex, 0, None, None))))]
  }
  lemma List225Text()
    ensures AllWellLaidOut(List225())
    ensures ListBody(List225(), " ") == ">=0.5 0"
    ensures RangesOf(List225()) == [Two(V(GtEq, 0, Some("5"), None), V(Ex, 0, None, None))]
  {
    assert WellLaidOutRange(List225()[0]) && RangeText2(List225()[0]) == ">=0.5 0";
    ListOne(List225()[0], " ", ">=0.5 0");
  }

  lemma List225Join()
    ensures "\">=0.5 0\"" == "\"" + ">=0.5 0" + "\""
  {
  }

  lemma List225Sample()
    ensures ParseSemverRangeList("\">=0.5 0\"")
      == Done([Two(V(GtEq, 0, Some("5"), None), V(Ex, 0, None, None))], [])
  {
    List225Join();
    List225Text();
    ListReads(List225(), ">=0.5 0", "\">=0.5 0\"", [Two(V(GtEq, 0, Some("5"), None), V(Ex, 0, None, None))]);
  }

  function List226(): seq<RangeText> {
    [RangeText(BoundText("", "", "", V(Ex, 2, None, None)), None),
     RangeText(BoundText(" ", "", "", V(Ex, 3, None, None)), None)]
  }
  lemma List226Text()
    ensures AllWellLaidOut(List226())
    ensures ListBody(List226(), " ") == "2" + " " + "||" + " 3"
    ensures RangesOf(List226()) == [One(V(Ex, 2, None, None)), One(V(Ex, 3, None, None))]
  {
    assert WellLaidOutRange(List226()[0]) && RangeText2(List226()[0]) == "2";
    assert WellLaidOutRange(List226()[1]) && RangeText2(List226()[1]) == " 3";
    ListOf2(List226()[0], "2", List226()[1], " 3");
  }

  lemma List226Join()
    ensures "2" + " " + "||" + " 3" == "2 || 3"
    ensures "\"2 || 3\"" == "\"" + "2 || 3" + "\""
  {
  }

  lemma List226Sample()
    ensures ParseSemverRangeList("\"2 || 3\"")
      == Done([One(V(Ex, 2, None, None)), One(V(Ex, 3, None, None))], [])
  {
    List226Join();
    List226Text();
    ListReads(List226(), "2 || 3", "\"2 || 3\"", [One(V(Ex, 2, None, None)), One(V(Ex, 3, None, None))]);
  }

  function List227(): seq<RangeText> {
    [RangeText(BoundText("", ">=", " ", V(GtEq, 1, Some("3"), Some("1"))), Some(BoundText(" ", "<", " ", V(Lt, 2, None, None))))]
  }
  lemma List227Text()
    ensures AllWellLaidOut(List227())
    ensures ListBody(List227(), " ") == ">= 1.3.1 < 2"
    ensures RangesOf(List227()) == [Two(V(GtEq, 1, Some("3"), Some("1")), V(Lt, 2, None, None))]
  {
    assert WellLaidOutRange(List227()[0]) && RangeText2(List227()[0]) == ">= 1.3.1 < 2";
    ListOne(List227()[0], " ", ">= 1.3.1 < 2");
  }

  lemma List227Join()
    ensures "\">= 1.3.1 < 2\"" == "\"" + ">= 1.3.1 < 2" + "\""
  {
  }

  lemma List227Sample()
    ensures ParseSemverRangeList("\">= 1.3.1 < 2\"")
      == Done([Two(V(GtEq, 1, Some("3"), Some("1")), V(Lt, 2, None, None))], [])
  {
    List227Join();
    List227Text();
    ListReads(List227(), ">= 1.3.1 < 2", "\">= 1.3.1 < 2\"", [Two(V(GtEq, 1, Some("3"), Some("1")), V(Lt, 2, None, None))]);
  }

  function List228(): seq<RangeText> {
    [RangeText(BoundText("", "^", "", V(Compatible, 4, Some("0"), Some("0"))), None),
     RangeText(BoundText(" ", "^", "", V(Compatible, 5, Some("0"), Some("0"))), None)]
  }
  lemma List228Text()
    ensures AllWellLaidOut(List228())
    ensures ListBody(List228(), " ") == "^4.0.0" + " " + "||" + " ^5.0.0"
    ensures RangesOf(List228()) == [One(V(Compatible, 4, Some("0"), Some("0"))), One(V(Compatible, 5, Some("0"), Some("0")))]
  {
    assert WellLaidOutRange(List228()[0]) && RangeText2(List228()[0]) == "^4.0.0";
    assert WellLaidOutRange(List228()[1]) && RangeText2(List228()[1]) == " ^5.0.0";
    ListOf2(List228()[0], "^4.0.0", List228()[1], " ^5.0.0");
  }

  lemma List228Join()
    ensures "^4.0.0" + " " + "||" + " ^5.0.0" == "^4.0.0 || ^5.0.0"
    ensures "\"^4.0.0 || ^5.0.0\"" == "\"" + "^4.0.0 || ^5.0.0" + "\""
  {
  }

  lemma List228Sample()
    ensures ParseSemverRangeList("\"^4.0.0 || ^5.0.0\"")
      == Done([One(V(Compatible, 4, Some("0"), Some("0"))), One(V(Compatible, 5, Some("0"), Some("0")))], [])
  {
    List228Join();
    List228Text();
    ListReads(List228(), "^4.0.0 || ^5.0.0", "\"^4.0.0 || ^5.0.0\"", [One(V(Compatible, 4, Some("0"), Some("0"))), One(V(Compatible, 5, Some("0"), Some("0")))]);
  }

  function List230(): seq<RangeText> {
    [RangeText(BoundText("", "", "", V(Ex, 2, Some("x"), None)), None),
     RangeText(BoundText(" ", "", "", V(Ex, 3, Some("x"), None)), None),
     RangeText(BoundText(" ", "", "", V(Ex, 4, None, None)), None),
     RangeText(BoundText(" ", "", "", V(Ex, 5, None, None)), None)]
  }
  lemma List230Text()
    ensures AllWellLaidOut(List230())
    ensures ListBody(List230(), " ") == "2.x" + " " + "||" + (" 3.x" + " " + "||" + (" 4" + " " + "||" + " 5"))
    ensures RangesOf(List230()) == [One(V(Ex, 2, Some("x"), None)), One(V(Ex, 3, Some("x"), None)), One(V(Ex, 4, None, None)), One(V(Ex, 5, None, None))]
  {
    assert WellLaidOutRange(List230()[0]) && RangeText2(List230()[0]) == "2.x";
    assert WellLaidOutRange(List230()[1]) && RangeText2(List230()[1]) == " 3.x";
    assert WellLaidOutRange(List230()[2]) && RangeText2(List230()[2]) == " 4";
    assert WellLaidOutRange(List230()[3]) && RangeText2(List230()[3]) == " 5";
    ListOf4(List230()[0], "2.x", List230()[1], " 3.x", List230()[2], " 4", List230()[3], " 5");
  }

  lemma List230Join()
    ensures "2.x" + " " + "||" + (" 3.x" + " " + "||" + (" 4" + " " + "||" + " 5")) == "2.x || 3.x || 4 || 5"
    ensures "\"2.x || 3.x || 4 || 5\"" == "\"" + "2.x || 3.x || 4 || 5" + "\""
  {
  }

  lemma List230Sample()
    ensures ParseSemverRangeList("\"2.x || 3.x || 4 || 5\"")
      == Done([One(V(Ex, 2, Some("x"), None)), One(V(Ex, 3, Some("x"), None)), One(V(Ex, 4, None, None)), One(V(Ex, 5, None, None))], [])
  {
    List230Join();
    List230Text();
    ListReads(List230(), "2.x || 3.x || 4 || 5", "\"2.x || 3.x || 4 || 5\"", [One(V(Ex, 2, Some("x"), None)), One(V(Ex, 3, Some("x"), None)), One(V(Ex, 4, None, None)), One(V(Ex, 5, None, None))]);
  }

  function List232(): seq<RangeText> {
    [RangeText(BoundText("", "", "", V(Ex, 0, None, None)), None),
     RangeText(BoundText(" ", "", "", V(Ex, 1, None, None)), None),
     RangeText(BoundText(" ", "", "", V(Ex, 2, None, None)), None),
     RangeText(BoundText(" ", "", "", V(Ex, 3, None, None)), None),
     RangeText(BoundText(" ", "", "", V(Ex, 4, None, None)), None)]
  }
  lemma List232Text()
    ensures AllWellLaidOut(List232())
    ensures ListBody(List232(), " ") == "0" + " " + "||" + (" 1" + " " + "||" + (" 2" + " " + "||" + (" 3" + " " + "||" + " 4")))
    ensures RangesOf(List232()) == [One(V(Ex, 0, None, None)), One(V(Ex, 1, None, None)), One(V(Ex, 2, None, None)), One(V(Ex, 3, None, None)), One(V(Ex, 4, None, None))]
  {
    assert WellLaidOutRange(List232()[0]) && RangeText2(List232()[0]) == "0";
    assert WellLaidOutRange(List232()[1]) && RangeText2(List232()[1]) == " 1";
    assert WellLaidOutRange(List232()[2]) && RangeText2(List232()[2]) == " 2";
    assert WellLaidOutRange(List232()[3]) && RangeText2(List232()[3]) == " 3";
    assert WellLaidOutRange(List232()[4]) && RangeText2(List232()[4]) == " 4";
    ListOf5(List232()[0], "0", List232()[1], " 1", List232()[2], " 2", List232()[3], " 3", List232()[4], " 4");
  }

  lemma List232Join()
    ensures "0" + " " + "||" + (" 1" + " " + "||" + (" 2" + " " + "||" + (" 3" + " " + "||" + " 4"))) == "0 || 1 || 2 || 3 || 4"
    ensures "\"0 || 1 || 2 || 3 || 4\"" == "\"" + "0 || 1 || 2 || 3 || 4" + "\""
  {
  }

  lemma List232Sample()
    ensures ParseSemverRangeList("\"0 || 1 || 2 || 3 || 4\"")
      == Done([One(V(Ex, 0, None, None)), One(V(Ex, 1, None, None)), One(V(Ex, 2, None, None)), One(V(Ex, 3, None, None)), One(V(Ex, 4, None, None))], [])
  {
    List232Join();
    List232Text();
    ListReads(List232(), "0 || 1 || 2 || 3 || 4", "\"0 || 1 || 2 || 3 || 4\"", [One(V(Ex, 0, None, None)), One(V(Ex, 1, None, None)), One(V(Ex, 2, None, None)), One(V(Ex, 3, None, None)), One(V(Ex, 4, None, None))]);
  }

  function List233(): seq<RangeText> {
    [RangeText(BoundText("", "", "", V(Ex, 2, None, None)), None),
     RangeText(BoundText(" ", "", "", V(Ex, 3, None, None)), None),
     RangeText(BoundText(" ", "", "", V(Ex, 4, None, None)), None),
     RangeText(BoundText(" ", "", "", V(Ex, 5, None, None)), None)]
  }
  lemma List233Text()
    ensures AllWellLaidOut(List233())
    ensures ListBody(List233(), " ") == "2" + " " + "||" + (" 3" + " " + "||" + (" 4" + " " + "||" + " 5"))
    ensures RangesOf(List233()) == [One(V(Ex, 2, None, None)), One(V(Ex, 3, None, None)), One(V(Ex, 4, None, None)), One(V(Ex, 5, None, None))]
  {
    assert WellLaidOutRange(List233()[0]) && RangeText2(List233()[0]) == "2";
    assert WellLaidOutRange(List233()[1]) && RangeText2(List233()[1]) == " 3";
    assert WellLaidOutRange(List233()[2]) && RangeText2(List233()[2]) == " 4";
    assert WellLaidOutRange(List233()[3]) && RangeText2(List233()[3]) == " 5";
    ListOf4(List233()[0], "2", List233()[1], " 3", List233()[2], " 4", List233()[3], " 5");
  }

  lemma List233Join()
    ensures "2" + " " + "||" + (" 3" + " " + "||" + (" 4" + " " + "||" + " 5")) == "2 || 3 || 4 || 5"
    ensures "\"2 || 3 || 4 || 5\"" == "\"" + "2 || 3 || 4 || 5" + "\""
  {
  }

  lemma List233Sample()
    ensures ParseSemverRangeList("\"2 || 3 || 4 || 5\"")
      == Done([One(V(Ex, 2, None, None)), One(V(Ex, 3, None, None)), One(V(Ex, 4, None, None)), One(V(Ex, 5, None, None))], [])
  {
    List233Join();
    List233Text();
    ListReads(List233(), "2 || 3 || 4 || 5", "\"2 || 3 || 4 || 5\"", [One(V(Ex, 2, None, None)), One(V(Ex, 3, None, None)), One(V(Ex, 4, None, None)), One(V(Ex, 5, None, None))]);
  }

  function List234(): seq<RangeText> {
    [RangeText(BoundText("", "^", "", V(Compatible, 2, Some("3"), Some("0"))), None),
     RangeText(BoundText(" ", "", "", V(Ex, 3, Some("x"), None)), None),
     RangeText(BoundText(" ", "", "", V(Ex, 4, None, None)), None),
     RangeText(BoundText(" ", "", "", V(Ex, 5, None, None)), None)]
  }
  lemma List234Text()
    ensures AllWellLaidOut(List234())
    ensures ListBody(List234(), " ") == "^2.3.0" + " " + "||" + (" 3.x" + " " + "||" + (" 4" + " " + "||" + " 5"))
    ensures RangesOf(List234()) == [One(V(Compatible, 2, Some("3"), Some("0"))), One(V(Ex, 3, Some("x"), None)), One(V(Ex, 4, None, None)), One(V(Ex, 5, None, None))]
  {
    assert WellLaidOutRange(List234()[0]) && RangeText2(List234()[0]) == "^2.3.0";
    assert WellLaidOutRange(List234()[1]) && RangeText2(List234()[1]) == " 3.x";
    assert WellLaidOutRange(List234()[2]) && RangeText2(List234()[2]) == " 4";
    assert WellLaidOutRange(List234()[3]) && RangeText2(List234()[3]) == " 5";
    ListOf4(List234()[0], "^2.3.0", List234()[1], " 3.x", List234()[2], " 4", List234()[3], " 5");
  }

  lemma List234Join()
    ensures "^2.3.0" + " " + "||" + (" 3.x" + " " + "||" + (" 4" + " " + "||" + " 5")) == "^2.3.0 || 3.x || 4 || 5"
    ensures "\"^2.3.0 || 3.x || 4 || 5\"" == "\"" + "^2.3.0 || 3.x || 4 || 5" + "\""
  {
  }

  lemma List234Sample()
    ensures ParseSemverRangeList("\"^2.3.0 || 3.x || 4 || 5\"")
      == Done([One(V(Compatible, 2, Some("3"), Some("0"))), One(V(Ex, 3, Some("x"), None)), One(V(Ex, 4, None, None)), One(V(Ex, 5, None, None))], [])
  {
    List234Join();
    List234Text();
    ListReads(List234(), "^2.3.0 || 3.x || 4 || 5", "\"^2.3.0 || 3.x || 4 || 5\"", [One(V(Compatible, 2, Some("3"), Some("0"))), One(V(Ex, 3, Some("x"), None)), One(V(Ex, 4, None, None)), One(V(Ex, 5, None, None))]);
  }

  function List235(): seq<RangeText> {
    [RangeText(BoundText("", "~", "", V(Tilde, 1, Some("0"), Some("1"))), None),
     RangeText(BoundText(" ", "^", "", V(Compatible, 2, Some("0"), Some("0"))), None)]
  }
  lemma List235Text()
    ensures AllWellLaidOut(List235())
    ensures ListBody(List235(), " ") == "~1.0.1" + " " + "||" + " ^2.0.0"
    ensures RangesOf(List235()) == [One(V(Tilde, 1, Some("0"), Some("1"))), One(V(Compatible, 2, Some("0"), Some("0")))]
  {
    assert WellLaidOutRange(List235()[0]) && RangeText2(List235()[0]) == "~1.0.1";
    assert WellLaidOutRange(List235()[1]) && RangeText2(List235()[1]) == " ^2.0.0";
    ListOf2(List235()[0], "~1.0.1", List235()[1], " ^2.0.0");
  }

  lemma List235Join()
    ensures "~1.0.1" + " " + "||" + " ^2.0.0" == "~1.0.1 || ^2.0.0"
    ensures "\"~1.0.1 || ^2.0.0\"" == "\"" + "~1.0.1 || ^2.0.0" + "\""
  {
  }

  lemma List235Sample()
    ensures ParseSemverRangeList("\"~1.0.1 || ^2.0.0\"")
      == Done([One(V(Tilde, 1, Some("0"), Some("1"))), One(V(Compatible, 2, Some("0"), Some("0")))], [])
  {
    List235Join();
    List235Text();
    ListReads(List235(), "~1.0.1 || ^2.0.0", "\"~1.0.1 || ^2.0.0\"", [One(V(Tilde, 1, Some("0"), Some("1"))), One(V(Compatible, 2, Some("0"), Some("0")))]);
  }

  function List236(): seq<RangeText> {
    [RangeText(BoundText("", "^", "", V(Compatible, 3, Some("0"), Some("0"))), None),
     RangeText(BoundText(" ", "^", "", V(Compatible, 4, Some("0"), Some("0"))), None),
     RangeText(BoundText(" ", "^", "", V(Compatible, 5, Some("0"), Some("0"))), None)]
  }
  lemma List236Text()
    ensures AllWellLaidOut(List236())
    ensures ListBody(List236(), " ") == "^3.0.0" + " " + "||" + (" ^4.0.0" + " " + "||" + " ^5.0.0")
    ensures RangesOf(List236()) == [One(V(Compatible, 3, Some("0"), Some("0"))), One(V(Compatible, 4, Some("0"), Some("0"))), One(V(Compatible, 5, Some("0"), Some("0")))]
  {
    assert WellLaidOutRange(List236()[0]) && RangeText2(List236()[0]) == "^3.0.0";
    assert WellLaidOutRange(List236()[1]) && RangeText2(List236()[1]) == " ^4.0.0";
    assert WellLaidOutRange(List236()[2]) && RangeText2(List236()[2]) == " ^5.0.0";
    ListOf3(List236()[0], "^3.0.0", List236()[1], " ^4.0.0", List236()[2], " ^5.0.0");
  }

  lemma List236Join()
    ensures "^3.0.0" + " " + "||" + (" ^4.0.0" + " " + "||" + " ^5.0.0") == "^3.0.0 || ^4.0.0 || ^5.0.0"
    ensures "\"^3.0.0 || ^4.0.0 || ^5.0.0\"" == "\"" + "^3.0.0 || ^4.0.0 || ^5.0.0" + "\""
  {
  }

  lemma List236Sample()
    ensures ParseSemverRangeList("\"^3.0.0 || ^4.0.0 || ^5.0.0\"")
      == Done([One(V(Compatible, 3, Some("0"), Some("0"))), One(V(Compatible, 4, Some("0"), Some("0"))), One(V(Compatible, 5, Some("0"), Some("0")))], [])
  {
    List236Join();
    List236Text();
    ListReads(List236(), "^3.0.0 || ^4.0.0 || ^5.0.0", "\"^3.0.0 || ^4.0.0 || ^5.0.0\"", [One(V(Compatible, 3, Some("0"), Some("0"))), One(V(Compatible, 4, Some("0"), Some("0"))), One(V(Compatible, 5, Some("0"), Some("0")))]);
  }

  function List237(): seq<RangeText> {
    [RangeText(BoundText("", "", "", V(Ex, 2, None, None)), Some(BoundText(" ", ">=", "", V(GtEq, 2, Some("2"), Some("1"))))),
     RangeText(BoundText(" ", "", "", V(Ex, 3, Some("x"), None)), None),
     RangeText(BoundText(" ", "", "", V(Ex, 4, None, None)), None),
     RangeText(BoundText(" ", "", "", V(Ex, 5, None, None)), None)]
  }
  lemma List237Text()
    ensures AllWellLaidOut(List237())
    ensures ListBody(List237(), " ") == "2 >=2.2.1" + " " + "||" + (" 3.x" + " " + "||" + (" 4" + " " + "||" + " 5"))
    ensures RangesOf(List237()) == [Two(V(Ex, 2, None, None), V(GtEq, 2, Some("2"), Some("1"))), One(V(Ex, 3, Some("x"), None)), One(V(Ex, 4, None, None)), One(V(Ex, 5, None, None))]
  {
    assert WellLaidOutRange(List237()[0]) && RangeText2(List237()[0]) == "2 >=2.2.1";
    assert WellLaidOutRange(List237()[1]) && RangeText2(List237()[1]) == " 3.x";
    assert WellLaidOutRange(List237()[2]) && RangeText2(List237()[2]) == " 4";
    assert WellLaidOutRange(List237()[3]) && RangeText2(List237()[3]) == " 5";
    ListOf4(List237()[0], "2 >=2.2.1", List237()[1], " 3.x", List237()[2], " 4", List237()[3], " 5");
  }

  lemma List237Join()
    ensures "2 >=2.2.1" + " " + "||" + (" 3.x" + " " + "||" + (" 4" + " " + "||" + " 5")) == "2 >=2.2.1 || 3.x || 4 || 5"
    ensures "\"2 >=2.2.1 || 3.x || 4 || 5\"" == "\"" + "2 >=2.2.1 || 3.x || 4 || 5" + "\""
  {
  }

  lemma List237Sample()
    ensures ParseSemverRangeList("\"2 >=2.2.1 || 3.x || 4 || 5\"")
      == Done([Two(V(Ex, 2, None, None), V(GtEq, 2, Some("2"), Some("1"))), One(V(Ex, 3, Some("x"), None)), One(V(Ex, 4, None, None)), One(V(Ex, 5, None, None))], [])
  {
    List237Join();
    List237Text();
    ListReads(List237(), "2 >=2.2.1 || 3.x || 4 || 5", "\"2 >=2.2.1 || 3.x || 4 || 5\"", [Two(V(Ex, 2, None, None), V(GtEq, 2, Some("2"), Some("1"))), One(V(Ex, 3, Some("x"), None)), One(V(Ex, 4, None, None)), One(V(Ex, 5, None, None))]);
  }

  function List238(): seq<RangeText> {
    [RangeText(BoundText("", "", "", V(Ex, 2, None, None)), None),
     RangeText(BoundText(" ", "", "", V(Ex, 3, None, None)), None),
     RangeText(BoundText(" ", "", "", V(Ex, 4, None, None)), None)]
  }
  lemma List238Text()
    ensures AllWellLaidOut(List238())
    ensures ListBody(List238(), " ") == "2" + " " + "||" + (" 3" + " " + "||" + " 4")
    ensures RangesOf(List238()) == [One(V(Ex, 2, None, None)), One(V(Ex, 3, None, None)), One(V(Ex, 4, None, None))]
  {
    assert WellLaidOutRange(List238()[0]) && RangeText2(List238()[0]) == "2";
    assert WellLaidOutRange(List238()[1]) && RangeText2(List238()[1]) == " 3";
    assert WellLaidOutRange(List238()[2]) && RangeText2(List238()[2]) == " 4";
    ListOf3(List238()[0], "2", List238()[1], " 3", List238()[2], " 4");
  }

  lemma List238Join()
    ensures "2" + " " + "||" + (" 3" + " " + "||" + " 4") == "2 || 3 || 4"
    ensures "\"2 || 3 || 4\"" == "\"" + "2 || 3 || 4" + "\""
  {
  }

  lemma List238Sample()
    ensures ParseSemverRangeList("\"2 || 3 || 4\"")
      == Done([One(V(Ex, 2, None, None)), One(V(Ex, 3, None, None)), One(V(Ex, 4, None, None))], [])
  {
    List238Join();
    List238Text();
    ListReads(List238(), "2 || 3 || 4", "\"2 || 3 || 4\"", [One(V(Ex, 2, None, None)), One(V(Ex, 3, None, None)), One(V(Ex, 4, None, None))]);
  }

  function List239(): seq<RangeText> {
    [RangeText(BoundText("", ">=", " ", V(GtEq, 0, Some("0"), Some("5"))), Some(BoundText(" ", "<", " ", V(Lt, 1, None, None))))]
  }
  lemma List239Text()
    ensures AllWellLaidOut(List239())
    ensures ListBody(List239(), " ") == ">= 0.0.5 < 1"
    ensures RangesOf(List239()) == [Two(V(GtEq, 0, Some("0"), Some("5")), V(Lt, 1, None, None))]
  {
    assert WellLaidOutRange(List239()[0]) && RangeText2(List239()[0]) == ">= 0.0.5 < 1";
    ListOne(List239()[0], " ", ">= 0.0.5 < 1");
  }

  lemma List239Join()
    ensures "\">= 0.0.5 < 1\"" == "\"" + ">= 0.0.5 < 1" + "\""
  {
  }

  lemma List239Sample()
    ensures ParseSemverRangeList("\">= 0.0.5 < 1\"")
      == Done([Two(V(GtEq, 0, Some("0"), Some("5")), V(Lt, 1, None, None))], [])
  {
    List239Join();
    List239Text();
    ListReads(List239(), ">= 0.0.5 < 1", "\">= 0.0.5 < 1\"", [Two(V(GtEq, 0, Some("0"), Some("5")), V(Lt, 1, None, None))]);
  }

  function List240(): seq<RangeText> {
    [RangeText(BoundText("", ">=", " ", V(GtEq, 1, Some("0"), Some("2"))), Some(BoundText(" ", "<", " ", V(Lt, 2, None, None))))]
  }
  lemma List240Text()
    ensures AllWellLaidOut(List240())
    ensures ListBody(List240(), " ") == ">= 1.0.2 < 2"
    ensures RangesOf(List240()) == [Two(V(GtEq, 1, Some("0"), Some("2")), V(Lt, 2, None, None))]
  {
    assert WellLaidOutRange(List240()[0]) && RangeText2(List240()[0]) == ">= 1.0.2 < 2";
    ListOne(List240()[0], " ", ">= 1.0.2 < 2");
  }

  lemma List240Join()
    ensures "\">= 1.0.2 < 2\"" == "\"" + ">= 1.0.2 < 2" + "\""
  {
  }

  lemma List240Sample()
    ensures ParseSemverRangeList("\">= 1.0.2 < 2\"")
      == Done([Two(V(GtEq, 1, Some("0"), Some("2")), V(Lt, 2, None, None))], [])
  {
    List240Join();
    List240Text();
    ListReads(List240(), ">= 1.0.2 < 2", "\">= 1.0.2 < 2\"", [Two(V(GtEq, 1, Some("0"), Some("2")), V(Lt, 2, None, None))]);
  }

  function List241(): seq<RangeText> {
    [RangeText(BoundText("", ">=", " ", V(GtEq, 1, Some("0"), Some("0"))), Some(BoundText(" ", "<", " ", V(Lt, 2, None, None))))]
  }
  lemma List241Text()
    ensures AllWellLaidOut(List241())
    ensures ListBody(List241(), " ") == ">= 1.0.0 < 2"
    ensures RangesOf(List241()) == [Two(V(GtEq, 1, Some("0"), Some("0")), V(Lt, 2, None, None))]
  {
    assert WellLaidOutRange(List241()[0]) && RangeText2(List241()[0]) == ">= 1.0.0 < 2";
    ListOne(List241()[0], " ", ">= 1.0.0 < 2");
  }

  lemma List241Join()
    ensures "\">= 1.0.0 < 2\"" == "\"" + ">= 1.0.0 < 2" + "\""
  {
  }

  lemma List241Sample()
    ensures ParseSemverRangeList("\">= 1.0.0 < 2\"")
      == Done([Two(V(GtEq, 1, Some("0"), Some("0")), V(Lt, 2, None, None))], [])
  {
    List241Join();
    List241Text();
    ListReads(List241(), ">= 1.0.0 < 2", "\">= 1.0.0 < 2\"", [Two(V(GtEq, 1, Some("0"), Some("0")), V(Lt, 2, None, None))]);
  }

  function List243(): seq<RangeText> {
    [RangeText(BoundText("", ">=", "", V(GtEq, 0, Some("10"), Some("3"))), Some(BoundText(" ", "<", "", V(Lt, 1, None, None))))]
  }
  lemma List243Text()
    ensures AllWellLaidOut(List243())
    ensures ListBody(List243(), " ") == ">=0.10.3 <1"
    ensures RangesOf(List243()) == [Two(V(GtEq, 0, Some("10"), Some("3")), V(Lt, 1, None, None))]
  {
    assert WellLaidOutRange(List243()[0]) && RangeText2(List243()[0]) == ">=0.10.3 <1";
    ListOne(List243()[0], " ", ">=0.10.3 <1");
  }

  lemma List243Join()
    ensures "\">=0.10.3 <1\"" == "\"" + ">=0.10.3 <1" + "\""
  {
  }

  lemma List243Sample()
    ensures ParseSemverRangeList("\">=0.10.3 <1\"")
      == Done([Two(V(GtEq, 0, Some("10"), Some("3")), V(Lt, 1, None, None))], [])
  {
    List243Join();
    List243Text();
    ListReads(List243(), ">=0.10.3 <1", "\">=0.10.3 <1\"", [Two(V(GtEq, 0, Some("10"), Some("3")), V(Lt, 1, None, None))]);
  }

  function List244(): seq<RangeText> {
    [RangeText(BoundText("", ">=", " ", V(GtEq, 3, Some("1"), Some("0"))), Some(BoundText(" ", "<", " ", V(Lt, 4, None, None))))]
  }
  lemma List244Text()
    ensures AllWellLaidOut(List244())
    ensures ListBody(List244(), " ") == ">= 3.1.0 < 4"
    ensures RangesOf(List244()) == [Two(V(GtEq, 3, Some("1"), Some("0")), V(Lt, 4, None, None))]
  {
    assert WellLaidOutRange(List244()[0]) && RangeText2(List244()[0]) == ">= 3.1.0 < 4";
    ListOne(List244()[0], " ", ">= 3.1.0 < 4");
  }

  lemma List244Join()
    ensures "\">= 3.1.0 < 4\"" == "\"" + ">= 3.1.0 < 4" + "\""
  {
  }

  lemma List244Sample()
    ensures ParseSemverRangeList("\">= 3.1.0 < 4\"")
      == Done([Two(V(GtEq, 3, Some("1"), Some("0")), V(Lt, 4, None, None))], [])
  {
    List244Join();
    List244Text();
    ListReads(List244(), ">= 3.1.0 < 4", "\">= 3.1.0 < 4\"", [Two(V(GtEq, 3, Some("1"), Some("0")), V(Lt, 4, None, None))]);
  }

  function List245(): seq<RangeText> {
    [RangeText(BoundText("", ">=", " ", V(GtEq, 0, Some("3"), Some("0"))), Some(BoundText(" ", "<", " ", V(Lt, 1, None, None))))]
  }
  lemma List245Text()
    ensures AllWellLaidOut(List245())
    ensures ListBody(List245(), " ") == ">= 0.3.0 < 1"
    ensures RangesOf(List245()) == [Two(V(GtEq, 0, Some("3"), Some("0")), V(Lt, 1, None, None))]
  {
    assert WellLaidOutRange(List245()[0]) && RangeText2(List245()[0]) == ">= 0.3.0 < 1";
    ListOne(List245()[0], " ", ">= 0.3.0 < 1");
  }

  lemma List245Join()
    ensures "\">= 0.3.0 < 1\"" == "\"" + ">= 0.3.0 < 1" + "\""
  {
  }

  lemma List245Sample()
    ensures ParseSemverRangeList("\">= 0.3.0 < 1\"")
      == Done([Two(V(GtEq, 0, Some("3"), Some("0")), V(Lt, 1, None, None))], [])
  {
    List245Join();
    List245Text();
    ListReads(List245(), ">= 0.3.0 < 1", "\">= 0.3.0 < 1\"", [Two(V(GtEq, 0, Some("3"), Some("0")), V(Lt, 1, None, None))]);
  }

  function List246(): seq<RangeText> {
    [RangeText(BoundText("", ">=", " ", V(GtEq, 0, Some("1"), Some("30"))), Some(BoundText(" ", "<", " ", V(Lt, 1, None, None))))]
  }
  lemma List246Text()
    ensures AllWellLaidOut(List246())
    ensures ListBody(List246(), " ") == ">= 0.1.30 < 1"
    ensures RangesOf(List246()) == [Two(V(GtEq, 0, Some("1"), Some("30")), V(Lt, 1, None, None))]
  {
    assert WellLaidOutRange(List246()[0]) && RangeText2(List246()[0]) == ">= 0.1.30 < 1";
    ListOne(List246()[0], " ", ">= 0.1.30 < 1");
  }

  lemma List246Join()
    ensures "\">= 0.1.30 < 1\"" == "\"" + ">= 0.1.30 < 1" + "\""
  {
  }

  lemma List246Sample()
    ensures ParseSemverRangeList("\">= 0.1.30 < 1\"")
      == Done([Two(V(GtEq, 0, Some("1"), Some("30")), V(Lt, 1, None, None))], [])
  {
    List246Join();
    List246Text();
    ListReads(List246(), ">= 0.1.30 < 1", "\">= 0.1.30 < 1\"", [Two(V(GtEq, 0, Some("1"), Some("30")), V(Lt, 1, None, None))]);
  }

  function List247(): seq<RangeText> {
    [RangeText(BoundText("", ">=", " ", V(GtEq, 0, Some("0"), Some("2"))), Some(BoundText(" ", "<", " ", V(Lt, 1, None, None))))]
  }
  lemma List247Text()
    ensures AllWellLaidOut(List247())
    ensures ListBody(List247(), " ") == ">= 0.0.2 < 1"
    ensures RangesOf(List247()) == [Two(V(GtEq, 0, Some("0"), Some("2")), V(Lt, 1, None, None))]
  {
    assert WellLaidOutRange(List247()[0]) && RangeText2(List247()[0]) == ">= 0.0.2 < 1";
    ListOne(List247()[0], " ", ">= 0.0.2 < 1");
  }

  lemma List247Join()
    ensures "\">= 0.0.2 < 1\"" == "\"" + ">= 0.0.2 < 1" + "\""
  {
  }

  lemma List247Sample()
    ensures ParseSemverRangeList("\">= 0.0.2 < 1\"")
      == Done([Two(V(GtEq, 0, Some("0"), Some("2")), V(Lt, 1, None, None))], [])
  {
    List247Join();
    List247Text();
    ListReads(List247(), ">= 0.0.2 < 1", "\">= 0.0.2 < 1\"", [Two(V(GtEq, 0, Some("0"), Some("2")), V(Lt, 1, None, None))]);
  }

  function List248(): seq<RangeText> {
    [RangeText(BoundText("", ">=", " ", V(GtEq, 0, Some("4"), Some("1"))), Some(BoundText(" ", "<", " ", V(Lt, 1, None, None))))]
  }
  lemma List248Text()
    ensures AllWellLaidOut(List248())
    ensures ListBody(List248(), " ") == ">= 0.4.1 < 1"
    ensures RangesOf(List248()) == [Two(V(GtEq, 0, Some("4"), Some("1")), V(Lt, 1, None, None))]
  {
    assert WellLaidOutRange(List248()[0]) && RangeText2(List248()[0]) == ">= 0.4.1 < 1";
    ListOne(List248()[0], " ", ">= 0.4.1 < 1");
  }

  lemma List248Join()
    ensures "\">= 0.4.1 < 1\"" == "\"" + ">= 0.4.1 < 1" + "\""
  {
  }

  lemma List248Sample()
    ensures ParseSemverRangeList("\">= 0.4.1 < 1\"")
      == Done([Two(V(GtEq, 0, Some("4"), Some("1")), V(Lt, 1, None, None))], [])
  {
    List248Join();
    List248Text();
    ListReads(List248(), ">= 0.4.1 < 1", "\">= 0.4.1 < 1\"", [Two(V(GtEq, 0, Some("4"), Some("1")), V(Lt, 1, None, None))]);
  }

  function List249(): seq<RangeText> {
    [RangeText(BoundText("", ">=", " ", V(GtEq, 1, Some("0"), Some("1"))), Some(BoundText(" ", "<", " ", V(Lt, 2, None, None))))]
  }
  lemma List249Text()
    ensures AllWellLaidOut(List249())
    ensures ListBody(List249(), " ") == ">= 1.0.1 < 2"
    ensures RangesOf(List249()) == [Two(V(GtEq, 1, Some("0"), Some("1")), V(Lt, 2, None, None))]
  {
    assert WellLaidOutRange(List249()[0]) && RangeText2(List249()[0]) == ">= 1.0.1 < 2";
    ListOne(List249()[0], " ", ">= 1.0.1 < 2");
  }

  lemma List249Join()
    ensures "\">= 1.0.1 < 2\"" == "\"" + ">= 1.0.1 < 2" + "\""
  {
  }

  lemma List249Sample()
    ensures ParseSemverRangeList("\">= 1.0.1 < 2\"")
      == Done([Two(V(GtEq, 1, Some("0"), Some("1")), V(Lt, 2, None, None))], [])
  {
    List249Join();
    List249Text();
    ListReads(List249(), ">= 1.0.1 < 2", "\">= 1.0.1 < 2\"", [Two(V(GtEq, 1, Some("0"), Some("1")), V(Lt, 2, None, None))]);
  }
}
