/**
  The yarn.lock block interpreter. The indentation tokenizer is an outside
  collaborator: its output, a tree of blocks each holding its own lines and its
  indented sub-blocks, is the input here. A top-level block's lines are head
  lines listing the specifiers (`name@requirement`) that share one resolution;
  the lines of its children are `key "value"` properties, and the sub-block
  under a `dependencies:` line lists the dependencies.
*/
module LockParser {
  import opened Wrappers
  import opened Nom
  import opened Iter

  /** One node of the tokenizer's tree: its own lines and its indented sub-blocks. */
  datatype Block = Block(lines: seq<string>, tokens: seq<Block>)

  /** One record per head specifier, as the parser builds it. */
  datatype DependencyLock = DependencyLock(
    name: string,
    lastSeen: string,
    properties: map<string, string>,
    dependencies: map<string, string>)

  /** A parsed specifier: the requirement after the last `@`, then the name before it. */
  type Spec = (Option<string>, Option<string>)

  // ---------------------------------------------------------------------------
  // Specifiers

  /** Position of the last `@` in `s`, if any. */
  function LastAt(s: string): (i: Option<nat>)
    ensures i.Some? ==> i.value < |s| && s[i.value] == '@'
    ensures i.Some? ==> forall j :: i.value < j < |s| ==> s[j] != '@'
    ensures i.None? ==> forall j :: 0 <= j < |s| ==> s[j] != '@'
  {
    if s == [] then None
    else if s[|s| - 1] == '@' then Some(|s| - 1)
    else LastAt(s[..|s| - 1])
  }

  /**
    `split_at_last_at`, the two first items of `rsplitn(2, '@')`: the text after
    the last `@`, then the text before it; without an `@`, the whole text and nothing.
  */
  function SplitAtLastAt(s: string): (r: Spec)
    ensures r.0.Some?
    ensures r.1.Some? <==> '@' in s
    ensures r.1.Some? ==> r.1.value + "@" + r.0.value == s && '@' !in r.0.value
    ensures r.1.None? ==> r.0.value == s
  {
    match LastAt(s)
    case None => (Some(s), None)
    case Some(i) =>
      assert s[..i] + "@" + s[i + 1..] == s;
      (Some(s[i + 1..]), Some(s[..i]))
  }

  /** The characters a specifier cannot contain. */
  const SpecStop: set<char> := {':', ',', '"'}

  /** The characters a quoted key or value cannot contain. */
  const ValueStop: set<char> := {',', '"'}

  /** `delimited!(char!('"'), is_not!(stop), char!('"'))`. */
  function Quoted(stop: set<char>, s: string): (r: IResult<string>)
    requires '"' in stop
    ensures r.Done? ==> s == "\"" + r.value + "\"" + r.rest
    ensures r.Done? ==> r.value != [] && forall i :: 0 <= i < |r.value| ==> r.value[i] !in stop
    ensures s == [] || s[0] != '"' ==> r == (if s == [] then Incomplete else Error)
  {
    var open := Tag("\"", s);
    if !open.Done? then open.PropagateFailure()
    else
      var body := IsNot(stop, open.rest);
      if !body.Done? then body.PropagateFailure()
      else
        var close := Tag("\"", body.rest);
        if !close.Done? then close.PropagateFailure()
        else
          Done(body.value, close.rest)
  }

  /**
    One specifier of a head line, bare or in double quotes, split at its last `@`;
    the quoted form is tried only when the bare form fails outright.
  */
  function Specifier(s: string): (r: IResult<Spec>)
    ensures r.Done? ==> r.value.0.Some? && |r.rest| <= |s|
  {
    match OrElse(IsNot(SpecStop, s), Quoted(SpecStop, s))
    case Done(text, rest) => Done(SplitAtLastAt(text), rest)
    case Error => Error
    case Incomplete => Incomplete
  }

  /** The `, specifier` pairs after the first specifier of a head line. */
  function MoreSpecifiers(s: string): (r: (seq<Spec>, string))
    ensures |r.1| <= |s|
    ensures forall spec <- r.0 :: spec.0.Some?
    decreases |s|
  {
    var comma := SeparatorTag(",", s);
    if !comma.Done? then ([], s)
    else
      var spec := Complete(Specifier(comma.rest));
      if !spec.Done? || |spec.rest| == |comma.rest| then ([], s)
      else
        var (more, rest) := MoreSpecifiers(spec.rest);
        ([spec.value] + more, rest)
  }

  /**
    `headline_parts`: the comma-separated specifiers of a head line, up to the
    first text that is no specifier (the closing `:`). A first specifier that
    consumes nothing is an outright failure.
  */
  function HeadlineParts(s: string): (r: IResult<seq<Spec>>)
    ensures !r.Incomplete?
    ensures r.Done? ==> |r.rest| <= |s|
    ensures r.Done? ==> forall spec <- r.value :: spec.0.Some?
  {
    var first := Complete(Specifier(s));
    if !first.Done? then Done([], s)
    else if |first.rest| == |s| then Error
    else
      var (more, rest) := MoreSpecifiers(first.rest);
      Done([first.value] + more, rest)
  }

  // ---------------------------------------------------------------------------
  // The head line and key/value lines

  /** `line_ending`: `\n` or `\r\n`. */
  function LineEnding(s: string): (r: IResult<string>)
    ensures r.Done? ==> s == r.value + r.rest && (r.value == "\n" || r.value == "\r\n")
  {
    OrElse(Tag("\n", s), Tag("\r\n", s))
  }

  /**
    `headline`: the text up to the first `:`, then an optional line ending. The
    line ending can never match (the text after the cut starts with `:` or is
    empty), so the `:` is left in place; without a `:` the input runs out.
  */
  function Headline(s: string): (r: IResult<string>)
    ensures !r.Error?
    ensures r.Done? <==> ':' in s
    ensures r.Done? ==> s == r.value + r.rest && ':' !in r.value && r.rest != [] && r.rest[0] == ':'
  {
    var n := StopSpan({':'}, s);
    var content, rest := s[..n], s[n..];
    assert s == content + rest;
    assert n == |s| ==> ':' !in s by {
      if n == |s| {
        forall j | 0 <= j < |s|
          ensures s[j] != ':'
        {
          assert s[j] !in {':'};
        }
      }
    }
    forall j | 0 <= j < |content|
      ensures content[j] != ':'
    {
      assert content[j] == s[j] && s[j] !in {':'};
    }
    match LineEnding(rest)
    case Done(_, after) => Done(content, after)
    case Error => Done(content, rest)
    case Incomplete => Incomplete
  }

  /**
    `tuple_line`: a quoted key (or, failing that, a bare key running up to a
    space) and a quoted value, with whitespace skipped around both.
  */
  function TupleLine(s: string): (r: IResult<(string, string)>)
    ensures r.Done? ==> r.value.1 != [] && forall i :: 0 <= i < |r.value.1| ==> r.value.1[i] !in ValueStop
    ensures r.Done? ==> r.rest == [] || !IsSpace(r.rest[0])
  {
    var u := Sp(s);
    var key := OrElse(Quoted(ValueStop, u), IsNot({' '}, u));
    if !key.Done? then key.PropagateFailure()
    else
      var value := Quoted(ValueStop, Sp(key.rest));
      if !value.Done? then value.PropagateFailure()
      else Done((key.value, value.value), Sp(value.rest))
  }

  // ---------------------------------------------------------------------------
  // Properties and dependencies

  /** Collecting pairs into a map, one insertion after another: a later pair overrides an earlier one. */
  function CollectMap(pairs: seq<(string, string)>): (m: map<string, string>)
    ensures forall k :: k in m ==> exists i :: 0 <= i < |pairs| && pairs[i].0 == k
  {
    if pairs == [] then map[]
    else
      var last := pairs[|pairs| - 1];
      CollectMap(pairs[..|pairs| - 1])[last.0 := last.1]
  }

  /** The pair `tuple_line` reads from a line, if it reads one. */
  function PairOf(line: string): (p: Option<(string, string)>)
    ensures p.Some? <==> TupleLine(line).Done?
    ensures p.Some? ==> p.value == TupleLine(line).value
  {
    match TupleLine(line)
    case Done(pair, _) => Some(pair)
    case _ => None
  }

  /** The key/value pairs of the lines `tuple_line` reads, in line order; other lines are dropped. */
  function LinePairs(lines: seq<string>): seq<(string, string)> {
    FilterMap(PairOf, lines)
  }

  function LinesOf(t: Block): seq<string> {
    t.lines
  }

  /** The own lines of each block, in order. */
  function ChildLines(tokens: seq<Block>): seq<string> {
    FlatMap(LinesOf, tokens)
  }

  predicate NotDependencyLine(line: string) {
    !StartsWith(line, "dependencies")
  }

  /** The lines that do not start with `dependencies`. */
  function WithoutDependencies(lines: seq<string>): seq<string> {
    Filter(NotDependencyLine, lines)
  }

  /** `line` does not start with `dependencies`, and `tuple_line` reads the key `k` from it. */
  predicate GivesProperty(line: string, k: string) {
    !StartsWith(line, "dependencies") && TupleLine(line).Done? && TupleLine(line).value.0 == k
  }

  /** `read_level2`: the properties on the own lines of the direct children of a block. */
  function ReadLevel2(tokens: seq<Block>): (m: map<string, string>)
    ensures forall k :: k in m ==>
      exists i, line :: 0 <= i < |tokens| && line in tokens[i].lines && GivesProperty(line, k)
  {
    var pairs := LinePairs(WithoutDependencies(ChildLines(tokens)));
    assert forall k :: k in CollectMap(pairs) ==>
      exists i, line :: 0 <= i < |tokens| && line in tokens[i].lines && GivesProperty(line, k) by {
      forall k | k in CollectMap(pairs)
        ensures exists i, line :: 0 <= i < |tokens| && line in tokens[i].lines && GivesProperty(line, k)
      {
        var n :| 0 <= n < |pairs| && pairs[n].0 == k;
        var lines := WithoutDependencies(ChildLines(tokens));
        assert pairs[n] in pairs;
        var j :| 0 <= j < |lines| && PairOf(lines[j]) == Some(pairs[n]);
        assert lines[j] in ChildLines(tokens);
        var i :| 0 <= i < |tokens| && lines[j] in LinesOf(tokens[i]);
        assert GivesProperty(lines[j], k);
      }
    }
    CollectMap(pairs)
  }

  /** A child whose last line starts with `dependencies`. */
  predicate IsDependencySection(t: Block) {
    t.lines != [] && StartsWith(t.lines[|t.lines| - 1], "dependencies")
  }

  /** The sub-blocks of a child if it is a dependency section. */
  function SectionBlocks(t: Block): seq<Block> {
    if IsDependencySection(t) then t.tokens else []
  }

  /** The sub-blocks of the dependency sections among `tokens`, in order. */
  function DependencyBlocks(tokens: seq<Block>): seq<Block> {
    FlatMap(SectionBlocks, tokens)
  }

  /** `read_dependencies`: the pairs on the lines of the first sub-block of a dependency section. */
  function ReadDependencies(tokens: seq<Block>): (deps: map<string, string>)
    ensures DependencyBlocks(tokens) == [] ==> deps == map[]
  {
    var sections := DependencyBlocks(tokens);
    if sections == [] then map[] else CollectMap(LinePairs(sections[0].lines))
  }

  // ---------------------------------------------------------------------------
  // Blocks and the whole file

  predicate IsComment(line: string) {
    StartsWith(line, "#")
  }

  /**
    A head line `read_block` can unwrap: it parses, and every specifier on it
    has an `@` (the first item of the split is always present).
  */
  predicate HeadLineReadable(line: string) {
    var parts := HeadlineParts(line);
    parts.Done? && forall i :: 0 <= i < |parts.value| ==> parts.value[i].1.Some?
  }

  predicate HeadsReadable(lines: seq<string>) {
    forall i :: 0 <= i < |lines| && !IsComment(lines[i]) ==> HeadLineReadable(lines[i])
  }

  /** The specifiers of one head line; a comment line has none. */
  function LineSpecs(line: string): seq<Spec> {
    if IsComment(line) then []
    else match HeadlineParts(line) case Done(specs, _) => specs case _ => []
  }

  /** The specifiers of all head lines, in order. */
  function HeadSpecs(lines: seq<string>): seq<Spec> {
    FlatMap(LineSpecs, lines)
  }

  /** Every specifier of readable head lines has both a requirement and a name. */
  lemma HeadSpecsComplete(lines: seq<string>)
    requires HeadsReadable(lines)
    ensures forall i :: 0 <= i < |HeadSpecs(lines)| ==> HeadSpecs(lines)[i].0.Some? && HeadSpecs(lines)[i].1.Some?
  {
    var specs := HeadSpecs(lines);
    forall i | 0 <= i < |specs|
      ensures specs[i].0.Some? && specs[i].1.Some?
    {
      FlatMapMembers(LineSpecs, lines, specs[i]);
      var j :| 0 <= j < |lines| && specs[i] in LineSpecs(lines[j]);
      var parts := HeadlineParts(lines[j]).value;
      var k :| 0 <= k < |parts| && parts[k] == specs[i];
    }
  }

  /** One record per specifier, all sharing the same two maps. */
  function Records(specs: seq<Spec>, properties: map<string, string>, dependencies: map<string, string>): (locks: seq<DependencyLock>)
    requires forall i :: 0 <= i < |specs| ==> specs[i].0.Some? && specs[i].1.Some?
    ensures |locks| == |specs|
    ensures forall i :: 0 <= i < |specs| ==>
      locks[i] == DependencyLock(specs[i].1.value, specs[i].0.value, properties, dependencies)
  {
    if specs == [] then []
    else
      [DependencyLock(specs[0].1.value, specs[0].0.value, properties, dependencies)]
        + Records(specs[1..], properties, dependencies)
  }

  /** `read_block`: the records of every head specifier of a block. */
  function ReadBlock(b: Block): (locks: seq<DependencyLock>)
    requires HeadsReadable(b.lines)
    ensures |locks| == |HeadSpecs(b.lines)|
    ensures forall i :: 0 <= i < |locks| ==>
      && HeadSpecs(b.lines)[i] == (Some(locks[i].lastSeen), Some(locks[i].name))
      && locks[i].properties == ReadLevel2(b.tokens)
      && locks[i].dependencies == ReadDependencies(b.tokens)
  {
    HeadSpecsComplete(b.lines);
    Records(HeadSpecs(b.lines), ReadLevel2(b.tokens), ReadDependencies(b.tokens))
  }

  predicate AllReadable(blocks: seq<Block>) {
    forall i :: 0 <= i < |blocks| ==> HeadsReadable(blocks[i].lines)
  }

  /** The records of each block, in block order. */
  function ReadBlocks(blocks: seq<Block>): (locks: seq<DependencyLock>)
    requires AllReadable(blocks)
    ensures forall l :: l in locks ==> exists i :: 0 <= i < |blocks| && l in ReadBlock(blocks[i])
  {
    assert Defined(ReadBlock, blocks);
    FlatMap(ReadBlock, blocks)
  }

  /** `parse`, given what the tokenizer made of the file: its error, or the records of all blocks. */
  function Parse<E>(tokenized: Result<seq<Block>, E>): (r: Result<seq<DependencyLock>, E>)
    requires tokenized.Ok? ==> AllReadable(tokenized.value)
    ensures tokenized.Err? <==> r.Err?
    ensures tokenized.Err? ==> r.error == tokenized.error
    ensures tokenized.Ok? ==> r.value == ReadBlocks(tokenized.value)
  {
    match tokenized
    case Err(e) => Err(e)
    case Ok(blocks) => Ok(ReadBlocks(blocks))
  }
}
