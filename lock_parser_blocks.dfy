/**
  What the block interpreter promises about the tree it is given: where
  properties and dependencies come from, which value a repeated key keeps,
  and how head lines fan out into records.
*/
module LockParserBlocks {
  import opened Wrappers
  import opened Nom
  import opened Iter
  import opened LockParser
  import opened LockParserText

  // ---------------------------------------------------------------------------
  // Collecting pairs into a map

  /** The keys of the map are exactly the keys of the pairs. */
  lemma {:induction false} CollectMapKeys(pairs: seq<(string, string)>, k: string)
    ensures k in CollectMap(pairs) <==> exists i :: 0 <= i < |pairs| && pairs[i].0 == k
  {
    if pairs != [] {
      var init := pairs[..|pairs| - 1];
      CollectMapKeys(init, k);
      if exists i :: 0 <= i < |pairs| && pairs[i].0 == k {
        var i :| 0 <= i < |pairs| && pairs[i].0 == k;
        if i < |init| {
          assert init[i] == pairs[i];
        }
      }
    }
  }

  /** A key keeps the value of its last pair. */
  lemma {:induction false} CollectMapLastWins(pairs: seq<(string, string)>, i: nat)
    requires i < |pairs|
    requires forall j :: i < j < |pairs| ==> pairs[j].0 != pairs[i].0
    ensures pairs[i].0 in CollectMap(pairs) && CollectMap(pairs)[pairs[i].0] == pairs[i].1
  {
    if i < |pairs| - 1 {
      var init := pairs[..|pairs| - 1];
      assert init[i] == pairs[i];
      CollectMapLastWins(init, i);
    }
  }

  /** Collecting two runs of pairs one after the other: the later run overrides the earlier. */
  lemma {:induction false} CollectMapAppend(ps: seq<(string, string)>, qs: seq<(string, string)>)
    ensures CollectMap(ps + qs) == CollectMap(ps) + CollectMap(qs)
  {
    if qs == [] {
      assert ps + qs == ps;
    } else {
      var init := qs[..|qs| - 1];
      var last := qs[|qs| - 1];
      assert (ps + qs)[..|ps + qs| - 1] == ps + init;
      assert (ps + qs)[|ps + qs| - 1] == last;
      CollectMapAppend(ps, init);
    }
  }

  // ---------------------------------------------------------------------------
  // Properties

  /** Every pair collected comes from an own line of a child that gives a property. */
  lemma PairsFromProperties(tokens: seq<Block>, p: (string, string))
    requires p in LinePairs(WithoutDependencies(ChildLines(tokens)))
    ensures exists i, line :: 0 <= i < |tokens| && line in tokens[i].lines && GivesProperty(line, p.0) && TupleLine(line).value == p
  {
    var all := ChildLines(tokens);
    var lines := WithoutDependencies(all);
    FilterMapMembers(PairOf, lines, p);
    var j :| 0 <= j < |lines| && PairOf(lines[j]) == Some(p);
    assert lines[j] in all;
    FlatMapMembers(LinesOf, tokens, lines[j]);
    var i :| 0 <= i < |tokens| && lines[j] in LinesOf(tokens[i]);
    assert GivesProperty(lines[j], p.0);
  }

  /** Every own line of a child that gives a property contributes its pair. */
  lemma PropertiesGivePairs(tokens: seq<Block>, i: int, line: string, p: (string, string))
    requires 0 <= i < |tokens| && line in tokens[i].lines && GivesProperty(line, p.0) && TupleLine(line).value == p
    ensures p in LinePairs(WithoutDependencies(ChildLines(tokens)))
  {
    var all := ChildLines(tokens);
    var lines := WithoutDependencies(all);
    FlatMapMembers(LinesOf, tokens, line);
    var n :| 0 <= n < |all| && all[n] == line;
    assert NotDependencyLine(all[n]);
    var j :| 0 <= j < |lines| && lines[j] == line;
    assert PairOf(lines[j]) == Some(p);
    FilterMapMembers(PairOf, lines, p);
  }

  /** The pairs collected are those of the lines that give a property. */
  lemma PairsOfProperties(tokens: seq<Block>, p: (string, string))
    ensures p in LinePairs(WithoutDependencies(ChildLines(tokens))) <==>
      exists i, line :: 0 <= i < |tokens| && line in tokens[i].lines && GivesProperty(line, p.0) && TupleLine(line).value == p
  {
    if p in LinePairs(WithoutDependencies(ChildLines(tokens))) {
      PairsFromProperties(tokens, p);
    }
    if exists i, line :: 0 <= i < |tokens| && line in tokens[i].lines && GivesProperty(line, p.0) && TupleLine(line).value == p {
      var i, line :| 0 <= i < |tokens| && line in tokens[i].lines && GivesProperty(line, p.0) && TupleLine(line).value == p;
      PropertiesGivePairs(tokens, i, line, p);
    }
  }

  /**
    `read_level2` has a key exactly when some own line of a direct child gives
    it: a line that does not start with `dependencies` and that `tuple_line` reads.
  */
  lemma ReadLevel2Keys(tokens: seq<Block>, k: string)
    ensures k in ReadLevel2(tokens) <==>
      exists i, line :: 0 <= i < |tokens| && line in tokens[i].lines && GivesProperty(line, k)
  {
    var pairs := LinePairs(WithoutDependencies(ChildLines(tokens)));
    CollectMapKeys(pairs, k);
    if k in ReadLevel2(tokens) {
      var n :| 0 <= n < |pairs| && pairs[n].0 == k;
      PairsOfProperties(tokens, pairs[n]);
    }
    if exists i, line :: 0 <= i < |tokens| && line in tokens[i].lines && GivesProperty(line, k) {
      var i, line :| 0 <= i < |tokens| && line in tokens[i].lines && GivesProperty(line, k);
      var p := TupleLine(line).value;
      PairsOfProperties(tokens, p);
      var n :| 0 <= n < |pairs| && pairs[n] == p;
    }
  }

  /** The properties of later children override those of earlier ones. */
  lemma ReadLevel2Append(a: seq<Block>, b: seq<Block>)
    ensures ReadLevel2(a + b) == ReadLevel2(a) + ReadLevel2(b)
  {
    FlatMapAppend(LinesOf, a, b);
    FilterAppend(NotDependencyLine, ChildLines(a), ChildLines(b));
    FilterMapAppend(PairOf, WithoutDependencies(ChildLines(a)), WithoutDependencies(ChildLines(b)));
    CollectMapAppend(LinePairs(WithoutDependencies(ChildLines(a))), LinePairs(WithoutDependencies(ChildLines(b))));
  }

  /** Within one child, a later line giving the same key wins. */
  lemma ReadLevel2LaterLineWins(before: seq<string>, line: string, key: string, value: string, subs: seq<Block>)
    requires NotDependencyLine(line) && PairOf(line) == Some((key, value))
    ensures ReadLevel2([Block(before + [line], subs)]) == ReadLevel2([Block(before, subs)])[key := value]
  {
    FlatMapOne(LinesOf, Block(before + [line], subs));
    FlatMapOne(LinesOf, Block(before, subs));
    FilterAppend(NotDependencyLine, before, [line]);
    FilterOne(NotDependencyLine, line);
    FilterMapAppend(PairOf, WithoutDependencies(before), [line]);
    FilterMapOne(PairOf, line);
    var ps := LinePairs(WithoutDependencies(before));
    assert (ps + [(key, value)])[..|ps|] == ps;
  }

  /** Only the own lines of the children matter; what is nested below them is never read as a property. */
  lemma ReadLevel2OwnLines(tokens: seq<Block>, others: seq<Block>)
    requires |others| == |tokens|
    requires forall i :: 0 <= i < |tokens| ==> others[i].lines == tokens[i].lines
    ensures ReadLevel2(others) == ReadLevel2(tokens)
  {
    FlatMapSamePieces(LinesOf, tokens, others);
  }

  // ---------------------------------------------------------------------------
  // Dependencies

  /** Without a dependency section that has a sub-block, there are no dependencies. */
  lemma {:induction false} NoDependencySection(tokens: seq<Block>)
    requires forall i :: 0 <= i < |tokens| ==> !IsDependencySection(tokens[i]) || tokens[i].tokens == []
    ensures DependencyBlocks(tokens) == []
    ensures ReadDependencies(tokens) == map[]
  {
    if tokens != [] {
      NoDependencySection(tokens[1..]);
    }
  }

  lemma {:induction false} FirstDependencyBlock(tokens: seq<Block>, i: nat)
    requires i < |tokens| && IsDependencySection(tokens[i]) && tokens[i].tokens != []
    requires forall j :: 0 <= j < i ==> !IsDependencySection(tokens[j]) || tokens[j].tokens == []
    ensures DependencyBlocks(tokens) != [] && DependencyBlocks(tokens)[0] == tokens[i].tokens[0]
  {
    if i > 0 {
      FirstDependencyBlock(tokens[1..], i - 1);
    }
  }

  /**
    The dependencies are the pairs on the lines of the first sub-block of the
    first dependency section that has one; everything else is ignored.
  */
  lemma ReadDependenciesFirst(tokens: seq<Block>, i: nat)
    requires i < |tokens| && IsDependencySection(tokens[i]) && tokens[i].tokens != []
    requires forall j :: 0 <= j < i ==> !IsDependencySection(tokens[j]) || tokens[j].tokens == []
    ensures ReadDependencies(tokens) == CollectMap(LinePairs(tokens[i].tokens[0].lines))
  {
    FirstDependencyBlock(tokens, i);
  }

  // ---------------------------------------------------------------------------
  // Blocks

  lemma {:induction false} HeadsReadableAppend(a: seq<string>, b: seq<string>)
    requires HeadsReadable(a) && HeadsReadable(b)
    ensures HeadsReadable(a + b)
  {
    forall i | 0 <= i < |a + b| && !IsComment((a + b)[i])
      ensures HeadLineReadable((a + b)[i])
    {
      if i < |a| {
        assert (a + b)[i] == a[i];
      } else {
        assert (a + b)[i] == b[i - |a|];
      }
    }
  }

  lemma HeadSpecsAppend(a: seq<string>, b: seq<string>)
    ensures HeadSpecs(a + b) == HeadSpecs(a) + HeadSpecs(b)
  {
    FlatMapAppend(LineSpecs, a, b);
  }

  /** Records follow the head lines: the records of two runs of head lines, one after the other. */
  lemma ReadBlockHeadLines(a: seq<string>, b: seq<string>, tokens: seq<Block>)
    requires HeadsReadable(a) && HeadsReadable(b)
    ensures HeadsReadable(a + b)
    ensures ReadBlock(Block(a + b, tokens)) == ReadBlock(Block(a, tokens)) + ReadBlock(Block(b, tokens))
  {
    HeadSpecsAppend(a, b);
    HeadSpecsComplete(a);
    HeadSpecsComplete(b);
    RecordsAppend(HeadSpecs(a), HeadSpecs(b), ReadLevel2(tokens), ReadDependencies(tokens));
  }

  lemma RecordsAppend(a: seq<Spec>, b: seq<Spec>, properties: map<string, string>, dependencies: map<string, string>)
    requires forall i :: 0 <= i < |a| ==> a[i].0.Some? && a[i].1.Some?
    requires forall i :: 0 <= i < |b| ==> b[i].0.Some? && b[i].1.Some?
    ensures forall i :: 0 <= i < |a + b| ==> (a + b)[i].0.Some? && (a + b)[i].1.Some?
    ensures Records(a + b, properties, dependencies) == Records(a, properties, dependencies) + Records(b, properties, dependencies)
  {
    var ab := a + b;
    forall i | 0 <= i < |ab|
      ensures ab[i] == if i < |a| then a[i] else b[i - |a|]
    {
    }
    var r, ra, rb := Records(ab, properties, dependencies), Records(a, properties, dependencies), Records(b, properties, dependencies);
    forall i | 0 <= i < |r|
      ensures r[i] == (ra + rb)[i]
    {
      if i < |a| {
        assert r[i] == ra[i];
      } else {
        assert r[i] == rb[i - |a|];
      }
    }
  }

  /** A comment line among the head lines produces nothing. */
  lemma ReadBlockSkipsComment(comment: string, lines: seq<string>, tokens: seq<Block>)
    requires IsComment(comment) && HeadsReadable(lines)
    ensures HeadsReadable([comment] + lines)
    ensures ReadBlock(Block([comment] + lines, tokens)) == ReadBlock(Block(lines, tokens))
  {
    assert HeadsReadable([comment]);
    ReadBlockHeadLines([comment], lines, tokens);
  }

  /** A head line that is no comment contributes exactly the specifiers `headline_parts` reads from it. */
  lemma OneHeadLine(line: string, specs: seq<Spec>, rest: string)
    requires !IsComment(line) && HeadlineParts(line) == Done(specs, rest)
    requires forall i :: 0 <= i < |specs| ==> specs[i].1.Some?
    ensures HeadsReadable([line])
    ensures HeadSpecs([line]) == specs
  {
    FlatMapOne(LineSpecs, line);
  }

  lemma WrittenHeadLine(xs: seq<SpecText>, gap: string, after: string)
    requires xs != [] && AllSpace(gap) && AllWritable(xs) && EndsHead(after)
    ensures HeadsReadable([HeadText(xs, gap) + after])
    ensures HeadSpecs([HeadText(xs, gap) + after]) == SpecsOf(xs)
  {
    var line := HeadText(xs, gap) + after;
    HeadlinePartsText(xs, gap, after);
    assert Writable(xs[0]);
    HeadTextSplit(xs, gap, after);
    SpecStringStart(xs[0], HeadTail(xs[1..], gap, after));
    OneHeadLine(line, SpecsOf(xs), after);
  }

  /**
    A written head line fans out into one record per specifier, in order, each
    with its own name and requirement and all with the block's two maps.
  */
  lemma ReadBlockFansOut(xs: seq<SpecText>, gap: string, after: string, tokens: seq<Block>)
    requires xs != [] && AllSpace(gap) && AllWritable(xs) && EndsHead(after)
    ensures HeadsReadable([HeadText(xs, gap) + after])
    ensures var locks := ReadBlock(Block([HeadText(xs, gap) + after], tokens));
      && |locks| == |xs|
      && forall i :: 0 <= i < |xs| ==>
        locks[i] == DependencyLock(xs[i].name, xs[i].req, ReadLevel2(tokens), ReadDependencies(tokens))
  {
    WrittenHeadLine(xs, gap, after);
  }

  // ---------------------------------------------------------------------------
  // The whole file

  lemma AllReadableAppend(a: seq<Block>, b: seq<Block>)
    requires AllReadable(a) && AllReadable(b)
    ensures AllReadable(a + b)
  {
    forall i | 0 <= i < |a + b|
      ensures HeadsReadable((a + b)[i].lines)
    {
      if i < |a| {
        assert (a + b)[i] == a[i];
      } else {
        assert (a + b)[i] == b[i - |a|];
      }
    }
  }

  /** The records of a run of blocks are those of its first block followed by those of the others. */
  lemma {:induction false} ReadBlocksAppend(a: seq<Block>, b: seq<Block>)
    requires AllReadable(a) && AllReadable(b)
    ensures AllReadable(a + b)
    ensures ReadBlocks(a + b) == ReadBlocks(a) + ReadBlocks(b)
  {
    AllReadableAppend(a, b);
    assert Defined(ReadBlock, a) && Defined(ReadBlock, b);
    FlatMapAppend(ReadBlock, a, b);
  }

  /**
    `parse` concatenates the records of the blocks in block order: the records
    of two runs of blocks are those of the first run followed by those of the second.
  */
  lemma ParseAppend<E>(a: seq<Block>, b: seq<Block>)
    requires AllReadable(a) && AllReadable(b)
    ensures AllReadable(a + b)
    ensures Parse<E>(Ok(a + b)) == Ok(Parse<E>(Ok(a)).value + Parse<E>(Ok(b)).value)
  {
    ReadBlocksAppend(a, b);
  }

  lemma ReadBlocksOne(b: Block)
    requires HeadsReadable(b.lines)
    ensures AllReadable([b])
    ensures ReadBlocks([b]) == ReadBlock(b)
  {
    FlatMapOne(ReadBlock, b);
  }

  /** A file of one block gives exactly that block's records. */
  lemma ParseOneBlock<E>(b: Block)
    requires HeadsReadable(b.lines)
    ensures AllReadable([b])
    ensures Parse<E>(Ok([b])) == Ok(ReadBlock(b))
  {
    ReadBlocksOne(b);
  }
}
