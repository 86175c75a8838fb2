/** Line numbers of one text carried over to another along the blocks of a diff. */
module LineTranslation {
  import opened Numbers

  /** Lines `i1` to `i2` of the source become lines `j1` to `j2` of the target, counted from 0. */
  datatype Opcode = Opcode(same: bool, i1: nat, i2: nat, j1: nat, j2: nat)

  predicate IsBlock(op: Opcode, source: seq<string>, target: seq<string>) {
    op.i1 <= op.i2 <= |source| && op.j1 <= op.j2 <= |target| &&
    (op.same ==> source[op.i1..op.i2] == target[op.j1..op.j2])
  }

  /** The blocks follow one another and cover the first `i` and `j` lines. */
  predicate Covers(ops: seq<Opcode>, source: seq<string>, target: seq<string>, i: nat, j: nat) {
    if ops == [] then i == 0 && j == 0
    else
      var op := ops[|ops| - 1];
      IsBlock(op, source, target) && op.i2 == i && op.j2 == j &&
      Covers(ops[..|ops| - 1], source, target, op.i1, op.j1)
  }

  predicate IsDiff(ops: seq<Opcode>, source: seq<string>, target: seq<string>) {
    Covers(ops, source, target, |source|, |target|)
  }

  function InBlock(op: Opcode, line: int): int {
    if op.same then line - op.i1 + op.j1 else Max(op.j1, 1)
  }

  /** The last block that begins before the line, or -1. */
  function BlockOf(ops: seq<Opcode>, line: int): (k: int)
    ensures -1 <= k < |ops|
  {
    if ops == [] then -1
    else if line > ops[|ops| - 1].i1 then |ops| - 1
    else BlockOf(ops[..|ops| - 1], line)
  }

  /** Where line `line`, counted from 1, goes. */
  function Target(ops: seq<Opcode>, line: int): int {
    if BlockOf(ops, line) < 0 then 0 else InBlock(ops[BlockOf(ops, line)], line)
  }

  /** Lines the diff does not reach are cut off at the end of the target. */
  function Translated(ops: seq<Opcode>, n: nat, m: nat, line: int): int {
    if 1 <= line <= n then Target(ops, line) else Max(1, Min(line, m))
  }

  ghost predicate Maps(mapping: map<int, int>, ops: seq<Opcode>, n: nat) {
    forall line :: (line in mapping <==> 1 <= line <= n) && (line in mapping ==> mapping[line] == Target(ops, line))
  }

  // ----- blocks

  lemma {:induction false} CoversPrefix(ops: seq<Opcode>, source: seq<string>, target: seq<string>, i: nat, j: nat, k: nat)
    requires Covers(ops, source, target, i, j) && k < |ops|
    ensures IsBlock(ops[k], source, target) && ops[k].i2 <= i && ops[k].j2 <= j
    ensures Covers(ops[..k], source, target, ops[k].i1, ops[k].j1)
    ensures Covers(ops[..k + 1], source, target, ops[k].i2, ops[k].j2)
  {
    hide IsBlock;
    assert IsBlock(ops[|ops| - 1], source, target);
    BlockGrows(ops[|ops| - 1], source, target);
    if k < |ops| - 1 {
      var op := ops[|ops| - 1];
      CoversPrefix(ops[..|ops| - 1], source, target, op.i1, op.j1, k);
      assert ops[..|ops| - 1][..k] == ops[..k];
      assert ops[..|ops| - 1][..k + 1] == ops[..k + 1];
    } else {
      assert ops[..k + 1] == ops;
    }
  }

  lemma BlockGrows(op: Opcode, source: seq<string>, target: seq<string>)
    requires IsBlock(op, source, target)
    ensures op.i1 <= op.i2 && op.j1 <= op.j2 && (op.same ==> op.i2 - op.i1 == op.j2 - op.j1)
  {
    if op.same {
      assert |source[op.i1..op.i2]| == |target[op.j1..op.j2]|;
    }
  }

  /** A line is in the block found for it. */
  lemma {:induction false} BlockHolds(ops: seq<Opcode>, source: seq<string>, target: seq<string>, i: nat, j: nat, line: int)
    requires Covers(ops, source, target, i, j) && 1 <= line <= i
    ensures BlockOf(ops, line) >= 0 && ops[BlockOf(ops, line)].i1 < line <= ops[BlockOf(ops, line)].i2
  {
    hide IsBlock;
    var op := ops[|ops| - 1];
    if line <= op.i1 {
      BlockHolds(ops[..|ops| - 1], source, target, op.i1, op.j1, line);
    }
  }

  lemma BlocksApart(ops: seq<Opcode>, source: seq<string>, target: seq<string>, i: nat, j: nat, k: nat, l: nat)
    requires Covers(ops, source, target, i, j) && k < l < |ops|
    ensures ops[k].i2 <= ops[l].i1 && ops[k].j2 <= ops[l].j1
  {
    CoversPrefix(ops, source, target, i, j, l);
    CoversPrefix(ops[..l], source, target, ops[l].i1, ops[l].j1, k);
  }

  // ----- the loops

  lemma {:induction false} BlockOfPrefix(ops: seq<Opcode>, source: seq<string>, target: seq<string>, k: nat, line: int)
    requires IsDiff(ops, source, target) && k < |ops| && line <= ops[k].i2
    ensures BlockOf(ops, line) == BlockOf(ops[..k + 1], line)
  {
    BlockOfShorter(ops, source, target, |source|, |target|, k, line);
  }

  lemma {:induction false} BlockOfShorter(ops: seq<Opcode>, source: seq<string>, target: seq<string>, i: nat, j: nat, k: nat, line: int)
    requires Covers(ops, source, target, i, j) && k < |ops| && line <= ops[k].i2
    ensures BlockOf(ops, line) == BlockOf(ops[..k + 1], line)
  {
    if k < |ops| - 1 {
      var op := ops[|ops| - 1];
      BlocksApart(ops, source, target, i, j, k, |ops| - 1);
      BlockOfShorter(ops[..|ops| - 1], source, target, op.i1, op.j1, k, line);
      assert ops[..|ops| - 1][..k + 1] == ops[..k + 1];
    } else {
      assert ops[..k + 1] == ops;
    }
  }

  /** The lines of block `k` go where the block says. */
  lemma TargetInBlock(ops: seq<Opcode>, source: seq<string>, target: seq<string>, k: nat, line: int)
    requires IsDiff(ops, source, target) && k < |ops| && ops[k].i1 < line <= ops[k].i2
    ensures Target(ops, line) == InBlock(ops[k], line)
  {
    BlockOfPrefix(ops, source, target, k, line);
    assert ops[..k + 1][|ops[..k + 1]| - 1] == ops[k];
  }

  method ReadMapping(source: seq<string>, target: seq<string>, ops: seq<Opcode>) returns (mapping: map<int, int>)
    requires IsDiff(ops, source, target)
    ensures Maps(mapping, ops, |source|)
  {
    mapping := map[];
    ghost var done := 0;
    for k := 0 to |ops|
      invariant done == (if k == 0 then 0 else ops[k - 1].i2)
      invariant Maps(mapping, ops, done)
    {
      var op := ops[k];
      CoversPrefix(ops, source, target, |source|, |target|, k);
      if k == 0 {
        assert ops[..0] == [];
      } else {
        assert ops[..k][|ops[..k]| - 1] == ops[k - 1];
      }
      assert done == op.i1;
      hide Covers, IsDiff, IsBlock, Target;
      BlockGrows(op, source, target);
      if op.same {
        for offset := 0 to op.i2 - op.i1
          invariant Maps(mapping, ops, op.i1 + offset)
        {
          TargetInBlock(ops, source, target, k, op.i1 + offset + 1);
          mapping := mapping[op.i1 + offset + 1 := op.j1 + offset + 1];
        }
      } else {
        for line := op.i1 + 1 to op.i2 + 1
          invariant Maps(mapping, ops, line - 1)
        {
          TargetInBlock(ops, source, target, k, line);
          mapping := mapping[line := Max(op.j1, 1)];
        }
      }
      done := op.i2;
    }
  }

  lemma NoLinesNoKeys(mapping: map<int, int>, ops: seq<Opcode>)
    ensures Maps(mapping, ops, 0) ==> mapping == map[]
  {
    if Maps(mapping, ops, 0) {
      forall line ensures line !in mapping.Keys {
        assert line in mapping <==> 1 <= line <= 0;
      }
    }
  }

  /** `translate_lines`, given the opcodes of the two texts. */
  method TranslateLines(lines: seq<int>, source: seq<string>, target: seq<string>, ops: seq<Opcode>)
    returns (result: set<int>)
    requires IsDiff(ops, source, target)
    ensures source == [] ==> result == {}
    ensures source != [] ==> result == set line | line in lines :: Translated(ops, |source|, |target|, line)
  {
    hide IsDiff, Target, Max, Min;
    ghost var n, m := |source|, |target|;
    var mapping := ReadMapping(source, target, ops);
    result := {};
    assert source != [] ==> 1 in mapping;
    NoLinesNoKeys(mapping, ops);
    for k := 0 to |lines|
      invariant source == [] ==> result == {}
      invariant source != [] ==> result == set line | line in lines[..k] :: Translated(ops, |source|, |target|, line)
    {
      var line := lines[k];
      assert lines[..k + 1] == lines[..k] + [line];
      assert (set l | l in lines[..k + 1] :: Translated(ops, n, m, l)) ==
        (set l | l in lines[..k] :: Translated(ops, n, m, l)) + {Translated(ops, n, m, line)};
      if line in mapping {
        result := result + {mapping[line]};
      } else if mapping != map[] {
        result := result + {Max(1, Min(line, |target|))};
      }
    }
    assert lines[..|lines|] == lines;
  }

  // ----- what the translation keeps

  /** Every line lands in the target, or on line 1 of an empty one. */
  lemma TranslatedInTarget(ops: seq<Opcode>, source: seq<string>, target: seq<string>, line: int)
    requires IsDiff(ops, source, target)
    ensures 1 <= Translated(ops, |source|, |target|, line) <= Max(1, |target|)
  {
    if 1 <= line <= |source| {
      BlockHolds(ops, source, target, |source|, |target|, line);
      var k := BlockOf(ops, line);
      CoversPrefix(ops, source, target, |source|, |target|, k);
      BlockGrows(ops[k], source, target);
    }
  }

  /** The line is in an unchanged block. */
  predicate Unchanged(ops: seq<Opcode>, line: int) {
    BlockOf(ops, line) >= 0 && ops[BlockOf(ops, line)].same
  }

  /** Order is kept, and strictly so among the lines of unchanged blocks. */
  lemma TranslatedMonotone(ops: seq<Opcode>, source: seq<string>, target: seq<string>, line: int, line': int)
    requires IsDiff(ops, source, target) && 1 <= line < line' <= |source|
    ensures Target(ops, line) <= Target(ops, line')
    ensures Unchanged(ops, line) && Unchanged(ops, line') ==> Target(ops, line) < Target(ops, line')
  {
    var i, j := |source|, |target|;
    BlockHolds(ops, source, target, i, j, line);
    BlockHolds(ops, source, target, i, j, line');
    var k, l := BlockOf(ops, line), BlockOf(ops, line');
    CoversPrefix(ops, source, target, i, j, k);
    CoversPrefix(ops, source, target, i, j, l);
    BlockGrows(ops[k], source, target);
    BlockGrows(ops[l], source, target);
    if k < l {
      BlocksApart(ops, source, target, i, j, k, l);
    } else if l < k {
      BlocksApart(ops, source, target, i, j, l, k);
    }
  }

  /** A changed line goes where the last unchanged line before its block goes, and to the first line if
      the target has nothing before the block. */
  lemma ChangedGoesBefore(ops: seq<Opcode>, source: seq<string>, target: seq<string>, k: nat, line: int)
    requires IsDiff(ops, source, target) && k < |ops| && !ops[k].same && ops[k].i1 < line <= ops[k].i2
    ensures k > 0 && ops[k - 1].same && ops[k - 1].i1 < ops[k - 1].i2 ==>
      Translated(ops, |source|, |target|, line) == Translated(ops, |source|, |target|, ops[k].i1)
    ensures ops[k].j1 == 0 ==> Translated(ops, |source|, |target|, line) == 1
  {
    CoversPrefix(ops, source, target, |source|, |target|, k);
    TargetInBlock(ops, source, target, k, line);
    if k > 0 && ops[k - 1].same && ops[k - 1].i1 < ops[k - 1].i2 {
      CoversPrefix(ops, source, target, |source|, |target|, k - 1);
      assert ops[..k][|ops[..k]| - 1] == ops[k - 1];
      TargetInBlock(ops, source, target, k - 1, ops[k].i1);
      SameLength(ops[k - 1], source, target);
    }
  }

  lemma SameLength(op: Opcode, source: seq<string>, target: seq<string>)
    requires IsBlock(op, source, target) && op.same
    ensures op.i2 - op.i1 == op.j2 - op.j1
  {
    assert |source[op.i1..op.i2]| == |target[op.j1..op.j2]|;
  }

  /** A line of an unchanged block goes to a line with the same text. */
  lemma SameText(ops: seq<Opcode>, source: seq<string>, target: seq<string>, line: int)
    requires IsDiff(ops, source, target) && 1 <= line <= |source| && Unchanged(ops, line)
    ensures 1 <= Target(ops, line) <= |target| && source[line - 1] == target[Target(ops, line) - 1]
  {
    BlockHolds(ops, source, target, |source|, |target|, line);
    var op := ops[BlockOf(ops, line)];
    CoversPrefix(ops, source, target, |source|, |target|, BlockOf(ops, line));
    BlockGrows(op, source, target);
    assert source[op.i1..op.i2][line - 1 - op.i1] == target[op.j1..op.j2][line - 1 - op.i1];
  }

  // ----- back again

  function Flipped(op: Opcode): Opcode {
    Opcode(op.same, op.j1, op.j2, op.i1, op.i2)
  }

  function FlippedAll(ops: seq<Opcode>): (back: seq<Opcode>)
    ensures |back| == |ops| && forall k :: 0 <= k < |ops| ==> back[k] == Flipped(ops[k])
  {
    if ops == [] then [] else FlippedAll(ops[..|ops| - 1]) + [Flipped(ops[|ops| - 1])]
  }

  lemma {:induction false} FlippedCovers(ops: seq<Opcode>, source: seq<string>, target: seq<string>, i: nat, j: nat)
    requires Covers(ops, source, target, i, j)
    ensures Covers(FlippedAll(ops), target, source, j, i)
  {
    if ops != [] {
      var op := ops[|ops| - 1];
      FlippedCovers(ops[..|ops| - 1], source, target, op.i1, op.j1);
      assert FlippedAll(ops)[..|ops| - 1] == FlippedAll(ops[..|ops| - 1]);
    }
  }

  /** The opposite diff carries a line of an unchanged block back. */
  lemma TranslatedBack(ops: seq<Opcode>, source: seq<string>, target: seq<string>, line: int)
    requires IsDiff(ops, source, target) && 1 <= line <= |source| && Unchanged(ops, line)
    ensures IsDiff(FlippedAll(ops), target, source) && Target(FlippedAll(ops), Target(ops, line)) == line
  {
    var k := BlockOf(ops, line);
    BlockHolds(ops, source, target, |source|, |target|, line);
    CoversPrefix(ops, source, target, |source|, |target|, k);
    BlockGrows(ops[k], source, target);
    FlippedCovers(ops, source, target, |source|, |target|);
    TargetInBlock(FlippedAll(ops), target, source, k, Target(ops, line));
  }

  ghost predicate KeepsOrder(ops: seq<Opcode>, n: nat, m: nat) {
    forall line, line' :: line < line' ==> Translated(ops, n, m, line) <= Translated(ops, n, m, line')
  }

  lemma OrderedUnderLast(ops: seq<Opcode>, source: seq<string>, target: seq<string>, line: int, line': int)
    requires IsDiff(ops, source, target) && source != [] && Target(ops, |source|) <= |source| + 1 && line < line'
    ensures Translated(ops, |source|, |target|, line) <= Translated(ops, |source|, |target|, line')
  {
    var n := |source|;
    TranslatedInTarget(ops, source, target, line);
    TranslatedInTarget(ops, source, target, line');
    TranslatedInTarget(ops, source, target, n);
    if 1 <= line && line' <= n {
      TranslatedMonotone(ops, source, target, line, line');
    } else if 1 <= line < n {
      TranslatedMonotone(ops, source, target, line, n);
    }
  }

  /** Over all line numbers, with those past the end cut off at the end of the target, order is kept
      exactly when the last line moves down by at most one. */
  lemma OrderKeptIff(ops: seq<Opcode>, source: seq<string>, target: seq<string>)
    requires IsDiff(ops, source, target) && source != []
    ensures KeepsOrder(ops, |source|, |target|) <==> Target(ops, |source|) <= |source| + 1
  {
    var n, m := |source|, |target|;
    if Target(ops, n) <= n + 1 {
      forall line, line' | line < line' ensures Translated(ops, n, m, line) <= Translated(ops, n, m, line') {
        OrderedUnderLast(ops, source, target, line, line');
      }
    } else {
      TranslatedInTarget(ops, source, target, n);
      assert Translated(ops, n, m, n) > Translated(ops, n, m, n + 1);
    }
  }

  /** Past the end of the source the order is not kept: line 1 of a text moved down by two lines
      goes to line 3, and line 2, which does not exist, to line 2. */
  lemma BeyondTheEnd()
    ensures
      var ops := [Opcode(false, 0, 0, 0, 2), Opcode(true, 0, 1, 2, 3)];
      IsDiff(ops, ["x"], ["a", "b", "x"]) && Translated(ops, 1, 3, 1) == 3 && Translated(ops, 1, 3, 2) == 2
  {
    var first, second := Opcode(false, 0, 0, 0, 2), Opcode(true, 0, 1, 2, 3);
    var source, target := ["x"], ["a", "b", "x"];
    assert [first, second][..1] == [first] && [first][..0] == [];
    assert Covers([], source, target, 0, 0);
    assert Covers([first], source, target, 0, 2);
    assert source[0..1] == target[2..3];
  }
}
