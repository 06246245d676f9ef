/**
  The handful of nom (version 3) primitives the two grammars are built from,
  restated over strings. A parser either succeeds with a value and the input it
  did not consume, fails outright, or stops because the input ended before it
  could decide (nom's `Incomplete`); `opt!` and `alt!` treat the last two
  differently, so the model keeps them apart.
*/
module Nom {

  datatype IResult<+T> = Done(value: T, rest: string) | Error | Incomplete
  {
    /** Re-types a failure, keeping its kind. */
    function PropagateFailure<U>(): (r: IResult<U>)
      requires !Done?
      ensures r.Error? == Error?
    {
      if Error? then Error else Incomplete
    }
  }

  /** `complete!`: running out of input counts as an outright failure. */
  function Complete<T>(r: IResult<T>): (c: IResult<T>)
    ensures !c.Incomplete?
    ensures c.Done? <==> r.Done?
    ensures c.Done? ==> c == r
  {
    if r.Incomplete? then Error else r
  }

  /** `alt!` of two alternatives: the second is tried only after an outright failure of the first. */
  function OrElse<T>(first: IResult<T>, next: IResult<T>): (r: IResult<T>)
    ensures first.Error? ==> r == next
    ensures !first.Error? ==> r == first
  {
    if first.Error? then next else first
  }

  /** `r` is what is left of `s` after some prefix of it was consumed. */
  predicate IsSuffix(r: string, s: string) {
    |r| <= |s| && r == s[|s| - |r|..]
  }

  /** What is left after two parsers ran one after the other is what is left of the whole input. */
  lemma SuffixTrans(a: string, b: string, c: string)
    requires IsSuffix(a, b) && IsSuffix(b, c)
    ensures IsSuffix(a, c)
  {
    assert c[|c| - |b|..][|b| - |a|..] == c[|c| - |a|..];
  }

  predicate StartsWith(s: string, prefix: string) {
    |prefix| <= |s| && s[..|prefix|] == prefix
  }

  /** The separator set of nom's `sp`. */
  predicate IsSpace(c: char) {
    c == ' ' || c == '\t' || c == '\r' || c == '\n'
  }

  predicate AllSpace(s: string) {
    forall i :: 0 <= i < |s| ==> IsSpace(s[i])
  }

  /** nom's `is_alphanumeric`: ASCII letters and digits. */
  predicate IsAlphanumeric(c: char) {
    'a' <= c <= 'z' || 'A' <= c <= 'Z' || '0' <= c <= '9'
  }

  predicate AllAlphanumeric(s: string) {
    forall i :: 0 <= i < |s| ==> IsAlphanumeric(s[i])
  }

  /** `sp`: skips the leading whitespace of `s`; never fails. */
  function Sp(s: string): (r: string)
    ensures |r| <= |s|
    ensures r == [] || !IsSpace(r[0])
  {
    if |s| > 0 && IsSpace(s[0]) then Sp(s[1..]) else s
  }

  /** What `sp` skips is whitespace, and what it leaves is the rest of the input. */
  lemma {:induction false} SpSkipsSpace(s: string)
    ensures Sp(s) == s[|s| - |Sp(s)|..]
    ensures forall i :: 0 <= i < |s| - |Sp(s)| ==> IsSpace(s[i])
  {
    if |s| > 0 && IsSpace(s[0]) {
      SpSkipsSpace(s[1..]);
      assert s[1..][|s| - 1 - |Sp(s)|..] == s[|s| - |Sp(s)|..];
      forall i | 1 <= i < |s| - |Sp(s)|
        ensures IsSpace(s[i])
      {
        assert s[i] == s[1..][i - 1];
      }
    }
  }

  /** What `sp` leaves is the rest of its input. */
  lemma SpSuffix(s: string)
    ensures IsSuffix(Sp(s), s)
  {
    SpSkipsSpace(s);
  }

  /** `sp` skips a run of whitespace and stops at the first other character. */
  lemma {:induction false} SpSkips(w: string, x: string)
    requires AllSpace(w)
    requires x == [] || !IsSpace(x[0])
    ensures Sp(w + x) == x
  {
    if w != [] {
      assert (w + x)[1..] == w[1..] + x;
      SpSkips(w[1..], x);
    }
  }

  /** Length of the longest alphanumeric prefix of `s`. */
  function AlphanumericSpan(s: string): (n: nat)
    ensures n <= |s|
    ensures AllAlphanumeric(s[..n])
    ensures n == |s| || !IsAlphanumeric(s[n])
  {
    if |s| > 0 && IsAlphanumeric(s[0]) then 1 + AlphanumericSpan(s[1..]) else 0
  }

  /** `take_while!(is_alphanumeric)`: the longest alphanumeric prefix, possibly empty; never fails. */
  function TakeAlphanumeric(s: string): (r: IResult<string>)
    ensures r.Done? && r.value + r.rest == s
    ensures AllAlphanumeric(r.value)
    ensures r.rest == [] || !IsAlphanumeric(r.rest[0])
  {
    var n := AlphanumericSpan(s);
    assert s[..n] + s[n..] == s;
    Done(s[..n], s[n..])
  }

  /** `tag!(t)` (and `char!`): `t` itself, or Incomplete when `s` is a proper prefix of `t`. */
  function Tag(t: string, s: string): (r: IResult<string>)
    ensures r.Done? <==> StartsWith(s, t)
    ensures r.Done? ==> r.value == t && s == t + r.rest
    ensures r.Incomplete? <==> |s| < |t| && StartsWith(t, s)
  {
    if |s| < |t| then
      (if t[..|s|] == s then Incomplete else Error)
    else if s[..|t|] == t then
      assert s == t + s[|t|..];
      Done(t, s[|t|..])
    else
      Error
  }

  /** Length of the longest prefix of `s` holding no character of `stop`. */
  function StopSpan(stop: set<char>, s: string): (n: nat)
    ensures n <= |s|
    ensures forall i :: 0 <= i < n ==> s[i] !in stop
    ensures n == |s| || s[n] in stop
  {
    if |s| > 0 && s[0] !in stop then 1 + StopSpan(stop, s[1..]) else 0
  }

  /**
    `is_not!(stop)`: the longest prefix free of `stop`; fails when `s` starts with
    a stop character, and succeeds with an empty match on empty input.
  */
  function IsNot(stop: set<char>, s: string): (r: IResult<string>)
    ensures !r.Incomplete?
    ensures r.Error? <==> |s| > 0 && s[0] in stop
    ensures r.Done? ==> r.value + r.rest == s
    ensures r.Done? ==> forall i :: 0 <= i < |r.value| ==> r.value[i] !in stop
    ensures r.Done? ==> r.rest == [] || r.rest[0] in stop
  {
    var n := StopSpan(stop, s);
    if n == 0 && |s| > 0 then Error
    else
      assert s[..n] + s[n..] == s;
      Done(s[..n], s[n..])
  }

  /**
    `complete!(ws!(tag!(t)))`, the separator of a `separated_list_complete!`:
    whitespace, `t`, whitespace; running out of input is an outright failure.
  */
  function SeparatorTag(t: string, s: string): (r: IResult<string>)
    requires t != []
    ensures !r.Incomplete?
    ensures r.Done? <==> StartsWith(Sp(s), t)
    ensures r.Done? ==> r.value == t && r.rest == Sp(Sp(s)[|t|..]) && IsSuffix(r.rest, s) && |r.rest| < |s|
  {
    var tag := Complete(Tag(t, Sp(s)));
    if tag.Done? then
      SpSuffix(s);
      SpSuffix(tag.rest);
      SuffixTrans(tag.rest, Sp(s), s);
      SuffixTrans(Sp(tag.rest), tag.rest, s);
      Done(tag.value, Sp(tag.rest))
    else Error
  }
}
