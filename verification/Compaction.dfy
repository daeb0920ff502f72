/** Compaction: one partition's files are rewritten as one, in the order write, record, unlink, and the
    process may die between any two steps. */
module Compaction {
  import opened Store
  import opened Sorting

  datatype Config = Config(minFiles: nat, targetBytes: nat, keepAboveBytes: nat, maxPartitions: nat, quiet: nat)

  /** One partition's compaction: its inputs, the file that replaces them, and which unlinks succeed. */
  datatype Block = Block(inputs: seq<Path>, output: Path, file: File, unlinks: seq<bool>)

  /** The rows of the files, in order. */
  function Gathered(disk: map<Path, File>, paths: seq<Path>): seq<Row>
    requires forall p :: p in paths ==> p in disk
  {
    if paths == [] then [] else Gathered(disk, paths[..|paths|-1]) + disk[paths[|paths|-1]].rows
  }

  /** What a pass may do to a partition: inputs and output in one partition, the output new, and holding the
      inputs' rows in some order. */
  ghost predicate ValidBlock(s: State, b: Block) {
    && (forall p :: p in b.inputs ==> p in s.disk && p.key == b.output.key)
    && NoRepeats(b.inputs) && |b.unlinks| == |b.inputs|
    && b.output !in s.disk && b.output !in s.catalog
    && multiset(b.file.rows) == multiset(Gathered(s.disk, b.inputs))
  }

  function Write(s: State, b: Block): State {
    s.(disk := s.disk[b.output := b.file])
  }

  /** One transaction: the output's row in, the inputs' rows out. */
  function Record(s: State, b: Block): State {
    s.(catalog := s.catalog[b.output := StatsOf(b.file)] - set p | p in b.inputs)
  }

  /** The first `k` unlinks, each of which may fail. */
  function Unlink(disk: map<Path, File>, b: Block, k: nat): map<Path, File>
    requires k <= |b.inputs| == |b.unlinks|
  {
    if k == 0 then disk
    else
      var before := Unlink(disk, b, k - 1);
      if b.unlinks[k - 1] then before - {b.inputs[k - 1]} else before
  }

  /** The state after `j` steps of a block: nothing, written, recorded, then one unlink a step. */
  function After(s: State, b: Block, j: nat): State
    requires |b.unlinks| == |b.inputs| && j <= |b.inputs| + 2
  {
    if j == 0 then s
    else if j == 1 then Write(s, b)
    else
      var r := Record(Write(s, b), b);
      r.(disk := Unlink(r.disk, b, j - 2))
  }

  function Whole(s: State, b: Block): State
    requires |b.unlinks| == |b.inputs|
  {
    After(s, b, |b.inputs| + 2)
  }

  // ---- the disk

  lemma {:induction false} UnlinkKeeps(disk: map<Path, File>, b: Block, k: nat)
    requires k <= |b.inputs| == |b.unlinks|
    ensures Unlink(disk, b, k).Keys <= disk.Keys
    ensures forall p :: p in Unlink(disk, b, k) ==> Unlink(disk, b, k)[p] == disk[p]
    ensures forall p :: p in disk && p !in Unlink(disk, b, k) ==> p in b.inputs[..k]
    ensures forall i :: 0 <= i < k && b.unlinks[i] ==> b.inputs[i] !in Unlink(disk, b, k)
  {
    if k > 0 {
      UnlinkKeeps(disk, b, k - 1);
      assert forall p :: p in b.inputs[..k - 1] ==> p in b.inputs[..k];
      assert b.inputs[k - 1] in b.inputs[..k];
    }
  }

  lemma GatheredNext(disk: map<Path, File>, paths: seq<Path>, k: nat)
    requires k < |paths| && forall p :: p in paths ==> p in disk
    ensures multiset(Gathered(disk, paths[..k + 1])) == multiset(Gathered(disk, paths[..k])) + multiset(disk[paths[k]].rows)
  {
    assert paths[..k + 1][..k] == paths[..k];
  }

  /** The rows of the first `m` inputs, but for those gone with the first `k` unlinks. */
  function Remaining(disk: map<Path, File>, b: Block, k: nat, m: nat): seq<Row>
    requires m <= |b.inputs| == |b.unlinks| && forall p :: p in b.inputs ==> p in disk
  {
    if m == 0 then []
    else Remaining(disk, b, k, m - 1) + if m - 1 < k && b.unlinks[m - 1] then [] else disk[b.inputs[m - 1]].rows
  }

  lemma {:induction false} RemainingAtFirst(disk: map<Path, File>, b: Block, m: nat)
    requires m <= |b.inputs| == |b.unlinks| && forall p :: p in b.inputs ==> p in disk
    ensures Remaining(disk, b, 0, m) == Gathered(disk, b.inputs[..m])
  {
    if m > 0 {
      RemainingAtFirst(disk, b, m - 1);
      assert b.inputs[..m][..m - 1] == b.inputs[..m - 1];
    }
  }

  lemma RemainingNone(disk: map<Path, File>, b: Block, k: nat)
    requires |b.inputs| == |b.unlinks| && forall p :: p in b.inputs ==> p in disk
    ensures Remaining(disk, b, k, 0) == []
  {
  }

  lemma RemainingLast(disk: map<Path, File>, b: Block, k: nat, m: nat)
    requires 0 < m <= |b.inputs| == |b.unlinks| && forall p :: p in b.inputs ==> p in disk
    ensures multiset(Remaining(disk, b, k, m)) == multiset(Remaining(disk, b, k, m - 1)) +
      (if m - 1 < k && b.unlinks[m - 1] then multiset{} else multiset(disk[b.inputs[m - 1]].rows))
  {
  }

  /** One more unlink takes its input's rows out of what remains, if it works. */
  lemma {:induction false} RemainingNext(disk: map<Path, File>, b: Block, k: nat, m: nat)
    requires k < |b.inputs| == |b.unlinks| && m <= |b.inputs| && forall p :: p in b.inputs ==> p in disk
    ensures multiset(Remaining(disk, b, k, m)) == multiset(Remaining(disk, b, k + 1, m)) +
      (if k < m && b.unlinks[k] then multiset(disk[b.inputs[k]].rows) else multiset{})
  {
    hide Remaining;
    if m == 0 {
      RemainingNone(disk, b, k);
      RemainingNone(disk, b, k + 1);
    } else {
      RemainingNext(disk, b, k, m - 1);
      RemainingLast(disk, b, k, m);
      RemainingLast(disk, b, k + 1, m);
    }
  }

  lemma {:induction false} RemainingWithin(disk: map<Path, File>, b: Block, k: nat, m: nat)
    requires m <= |b.inputs| == |b.unlinks| && forall p :: p in b.inputs ==> p in disk
    ensures multiset(Remaining(disk, b, k, m)) <= multiset(Gathered(disk, b.inputs[..m]))
  {
    hide Remaining, Gathered;
    if m == 0 {
      RemainingNone(disk, b, k);
    } else {
      RemainingWithin(disk, b, k, m - 1);
      RemainingLast(disk, b, k, m);
      GatheredNext(disk, b.inputs, m - 1);
    }
  }

  /** Nothing remains exactly when every input that holds a row is gone. */
  lemma {:induction false} NothingRemains(disk: map<Path, File>, b: Block, k: nat, m: nat)
    requires m <= |b.inputs| == |b.unlinks| && forall p :: p in b.inputs ==> p in disk
    ensures Remaining(disk, b, k, m) == [] <==>
      forall i :: 0 <= i < m && disk[b.inputs[i]].rows != [] ==> i < k && b.unlinks[i]
  {
    if m > 0 { NothingRemains(disk, b, k, m - 1); }
  }

  /** What unlinking leaves on disk, exactly. */
  lemma {:induction false} UnlinkedRows(disk: map<Path, File>, b: Block, k: nat)
    requires k <= |b.inputs| == |b.unlinks| && NoRepeats(b.inputs)
    requires forall p :: p in b.inputs ==> p in disk
    ensures Rows(Unlink(disk, b, k)) + multiset(Gathered(disk, b.inputs))
         == Rows(disk) + multiset(Remaining(disk, b, k, |b.inputs|))
  {
    hide Rows, Gathered, Remaining;
    if k == 0 {
      RemainingAtFirst(disk, b, |b.inputs|);
      assert b.inputs[..|b.inputs|] == b.inputs;
    } else {
      UnlinkedRows(disk, b, k - 1);
      RemainingNext(disk, b, k - 1, |b.inputs|);
      UnlinkKeeps(disk, b, k - 1);
      var p, before := b.inputs[k - 1], Unlink(disk, b, k - 1);
      assert p in before && before[p] == disk[p] by { assert p !in b.inputs[..k - 1]; }
      RemoveFile(before, p);
      if b.unlinks[k - 1] {
        TakeOut(Rows(before), Rows(before - {p}), multiset(Gathered(disk, b.inputs)), Rows(disk),
                multiset(Remaining(disk, b, k - 1, |b.inputs|)), multiset(Remaining(disk, b, k, |b.inputs|)),
                multiset(disk[p].rows));
      }
    }
  }

  lemma TakeOut(before: multiset<Row>, after: multiset<Row>, gathered: multiset<Row>, all: multiset<Row>,
                left: multiset<Row>, left': multiset<Row>, x: multiset<Row>)
    requires before == after + x && before + gathered == all + left && left == left' + x
    ensures after + gathered == all + left'
  {
    assert after + gathered == (before + gathered) - x;
    assert all + left' == (all + left) - x;
  }

  lemma Cancel(left: multiset<Row>, right: multiset<Row>, x: multiset<Row>)
    ensures left + x == right + x ==> left == right
  {
    if left + x == right + x {
      assert left == left + x - x && right == right + x - x;
    }
  }

  lemma {:induction false} GatheredSame(disk: map<Path, File>, disk': map<Path, File>, paths: seq<Path>)
    requires forall p :: p in paths ==> p in disk && p in disk' && disk[p].rows == disk'[p].rows
    ensures Gathered(disk, paths) == Gathered(disk', paths)
  {
    if paths != [] {
      assert forall p :: p in paths[..|paths|-1] ==> p in paths;
      GatheredSame(disk, disk', paths[..|paths|-1]);
    }
  }

  /** The rows a block has on disk twice after `j` steps: once written, those of the inputs still there. */
  function Doubled(s: State, b: Block, j: nat): seq<Row>
    requires |b.inputs| == |b.unlinks| && forall p :: p in b.inputs ==> p in s.disk
  {
    if j == 0 then [] else Remaining(s.disk, b, if j == 1 then 0 else j - 2, |b.inputs|)
  }

  /** The disk at every point of a block, exactly: the rows it started with and the doubled ones. */
  lemma BlockRowsExactly(s: State, b: Block, j: nat)
    requires ValidBlock(s, b) && j <= |b.inputs| + 2
    ensures Rows(After(s, b, j).disk) == Rows(s.disk) + multiset(Doubled(s, b, j))
  {
    hide Rows, Gathered, Unlink, NoRepeats, Remaining;
    if j > 0 {
      AddFile(s.disk, b.output, b.file);
      var written := Write(s, b).disk;
      GatheredSame(s.disk, written, b.inputs);
      RemainingSame(s.disk, written, b, if j == 1 then 0 else j - 2, |b.inputs|);
      if j == 1 {
        RemainingAtFirst(written, b, |b.inputs|);
        assert b.inputs[..|b.inputs|] == b.inputs;
      } else {
        UnlinkedRows(written, b, j - 2);
        Cancel(Rows(After(s, b, j).disk), Rows(s.disk) + multiset(Doubled(s, b, j)), multiset(b.file.rows));
      }
    }
  }

  lemma {:induction false} RemainingSame(disk: map<Path, File>, disk': map<Path, File>, b: Block, k: nat, m: nat)
    requires m <= |b.inputs| == |b.unlinks|
    requires forall p :: p in b.inputs ==> p in disk && p in disk' && disk[p].rows == disk'[p].rows
    ensures Remaining(disk, b, k, m) == Remaining(disk', b, k, m)
  {
    if m > 0 { RemainingSame(disk, disk', b, k, m - 1); }
  }

  /** No row of the block is on disk twice: nothing is written yet, or every input that holds a row has been
      unlinked. */
  ghost predicate Resolved(s: State, b: Block, j: nat)
    requires |b.inputs| == |b.unlinks| && forall p :: p in b.inputs ==> p in s.disk
  {
    j == 0 || forall i :: 0 <= i < |b.inputs| && s.disk[b.inputs[i]].rows != [] ==> i < j - 2 && b.unlinks[i]
  }

  /** Crash safety of one block: at every point the disk holds every row it started with, and at most the
      inputs' rows once more; it holds exactly the same rows if and only if the block is resolved there. */
  lemma BlockRows(s: State, b: Block, j: nat)
    requires ValidBlock(s, b) && j <= |b.inputs| + 2
    ensures Rows(s.disk) <= Rows(After(s, b, j).disk) <= Rows(s.disk) + multiset(Gathered(s.disk, b.inputs))
    ensures Rows(After(s, b, j).disk) == Rows(s.disk) <==> Resolved(s, b, j)
  {
    BlockLengths(s, b);
    hide Rows, Gathered, Doubled, Resolved, ValidBlock, After;
    BlockRowsExactly(s, b, j);
    DoubledBounds(s, b, j);
    NoRowsAtAll(Doubled(s, b, j));
    Added(Rows(s.disk), multiset(Doubled(s, b, j)), multiset(Gathered(s.disk, b.inputs)));
  }

  lemma DoubledBounds(s: State, b: Block, j: nat)
    requires |b.inputs| == |b.unlinks| && forall p :: p in b.inputs ==> p in s.disk
    ensures multiset(Doubled(s, b, j)) <= multiset(Gathered(s.disk, b.inputs))
    ensures Doubled(s, b, j) == [] <==> Resolved(s, b, j)
  {
    hide Gathered, Remaining;
    var k := if j <= 1 then 0 else j - 2;
    RemainingWithin(s.disk, b, k, |b.inputs|);
    assert b.inputs[..|b.inputs|] == b.inputs;
    NothingRemains(s.disk, b, k, |b.inputs|);
  }

  lemma Added(rows: multiset<Row>, more: multiset<Row>, most: multiset<Row>)
    requires more <= most
    ensures rows <= rows + more <= rows + most
    ensures rows + more == rows <==> more == multiset{}
  {
    if rows + more == rows {
      assert more == (rows + more) - rows;
    }
  }

  lemma NoRowsAtAll(rows: seq<Row>)
    ensures multiset(rows) == multiset{} <==> rows == []
  {
    if rows != [] { assert rows[0] in multiset(rows); }
  }

  // ---- the catalog

  /** The catalog lists exactly the files on disk, with the numbers of their footers. */
  ghost predicate InSync(s: State) {
    s.catalog.Keys == s.disk.Keys && forall p :: p in s.disk ==> s.catalog[p] == StatsOf(s.disk[p])
  }

  lemma {:induction false} ForgottenRows(catalog: map<Path, Stats>, disk: map<Path, File>, paths: seq<Path>)
    requires NoRepeats(paths)
    requires forall p :: p in paths ==> p in catalog && p in disk && catalog[p].rows == |disk[p].rows|
    ensures Counted(catalog) == Counted(catalog - set p | p in paths) + |Gathered(disk, paths)|
  {
    if paths == [] {
      assert catalog - (set p | p in paths) == catalog;
    } else {
      var k := |paths| - 1;
      var rest := catalog - set p | p in paths[..k];
      ForgottenRows(catalog, disk, paths[..k]);
      assert paths[k] !in paths[..k];
      RemoveCount(rest, paths[k]);
      assert rest - {paths[k]} == catalog - set p | p in paths by {
        assert forall p :: p in paths <==> p in paths[..k] || p == paths[k];
      }
    }
  }

  /** The catalog lists only files that are on disk, with their own numbers. */
  ghost predicate Accurate(s: State) {
    forall p :: p in s.catalog ==> p in s.disk && s.catalog[p] == StatsOf(s.disk[p])
  }

  /** At every point of a block an accurate catalog that lists the inputs stays accurate, and its row total is
      what it was. */
  lemma BlockAccurate(s: State, b: Block, j: nat)
    requires ValidBlock(s, b) && Accurate(s) && (forall p :: p in b.inputs ==> p in s.catalog) && j <= |b.inputs| + 2
    ensures Accurate(After(s, b, j)) && Counted(After(s, b, j).catalog) == Counted(s.catalog)
  {
    hide Counted, Gathered, Unlink;
    if j > 1 {
      var written := Write(s, b);
      UnlinkKeeps(written.disk, b, j - 2);
      assert forall p :: p in b.inputs[..j - 2] ==> p in b.inputs;
      AddCount(s.catalog, b.output, StatsOf(b.file));
      ForgottenRows(written.catalog[b.output := StatsOf(b.file)], written.disk, b.inputs);
      GatheredSame(s.disk, written.disk, b.inputs);
      assert |b.file.rows| == |multiset(b.file.rows)| && |Gathered(s.disk, b.inputs)| == |multiset(Gathered(s.disk, b.inputs))|;
    }
  }

  /** Run to the end with every unlink working, a block keeps the catalog in sync. */
  lemma BlockCatalog(s: State, b: Block)
    requires ValidBlock(s, b) && InSync(s) && forall i :: 0 <= i < |b.unlinks| ==> b.unlinks[i]
    ensures InSync(Whole(s, b)) && Counted(Whole(s, b).catalog) == Counted(s.catalog)
  {
    hide Counted, Gathered, Unlink;
    BlockAccurate(s, b, |b.inputs| + 2);
    UnlinkKeeps(Write(s, b).disk, b, |b.inputs|);
    assert b.inputs[..|b.inputs|] == b.inputs;
    forall p | p in b.inputs ensures p !in Whole(s, b).disk {
      var i :| 0 <= i < |b.inputs| && b.inputs[i] == p;
    }
  }

  // ---- passes

  /** The blocks of a pass, each valid where the one before left the store. */
  ghost predicate ValidPass(s: State, blocks: seq<Block>)
    decreases |blocks|
  {
    blocks == [] || (ValidBlock(s, blocks[0]) && ValidPass(Whole(s, blocks[0]), blocks[1..]))
  }

  ghost function AfterPass(s: State, blocks: seq<Block>): State
    requires ValidPass(s, blocks)
    decreases |blocks|
  {
    if blocks == [] then s else AfterPass(Whole(s, blocks[0]), blocks[1..])
  }

  /** The state a pass leaves when the process dies `j` steps into block `k`. */
  ghost function CrashedPass(s: State, blocks: seq<Block>, k: nat, j: nat): State
    requires ValidPass(s, blocks) && k < |blocks| && j <= |blocks[k].inputs| + 2
    decreases |blocks|
  {
    if k == 0 then After(s, blocks[0], j) else CrashedPass(Whole(s, blocks[0]), blocks[1..], k - 1, j)
  }

  ghost predicate AllUnlinked(blocks: seq<Block>) {
    forall b :: b in blocks ==> forall i :: 0 <= i < |b.unlinks| ==> b.unlinks[i]
  }

  /** A pass as it went: finished, or cut short. */
  datatype Pass = Finished(blocks: seq<Block>) | Crashed(blocks: seq<Block>, block: nat, step: nat)

  ghost predicate ValidRun(s: State, run: seq<Pass>)
    decreases |run|
  {
    run == [] ||
    (&& ValidPass(s, run[0].blocks)
     && (run[0].Crashed? ==> run[0].block < |run[0].blocks| && run[0].step <= |run[0].blocks[run[0].block].inputs| + 2)
     && ValidRun(AfterOne(s, run[0]), run[1..]))
  }

  ghost function AfterOne(s: State, pass: Pass): State
    requires ValidPass(s, pass.blocks)
    requires pass.Crashed? ==> pass.block < |pass.blocks| && pass.step <= |pass.blocks[pass.block].inputs| + 2
  {
    match pass
    case Finished(blocks) => AfterPass(s, blocks)
    case Crashed(blocks, k, j) => CrashedPass(s, blocks, k, j)
  }

  ghost function AfterRun(s: State, run: seq<Pass>): State
    requires ValidRun(s, run)
    decreases |run|
  {
    if run == [] then s else AfterRun(AfterOne(s, run[0]), run[1..])
  }

  /** The rows of the inputs the blocks consumed. */
  ghost function Consumed(blocks: seq<Block>): multiset<Row> {
    if blocks == [] then multiset{} else multiset(blocks[0].file.rows) + Consumed(blocks[1..])
  }

  lemma Chained(first: multiset<Row>, mid: multiset<Row>, last: multiset<Row>, x: multiset<Row>, y: multiset<Row>)
    requires first <= mid <= first + x && mid <= last <= mid + y
    ensures first <= last <= first + (x + y)
    ensures last == first <==> last == mid && mid == first
  {
  }

  lemma UnlinkedResolves(s: State, b: Block)
    requires |b.inputs| == |b.unlinks| && forall p :: p in b.inputs ==> p in s.disk
    ensures (forall i :: 0 <= i < |b.unlinks| ==> b.unlinks[i]) ==> Resolved(s, b, |b.inputs| + 2)
  {
  }

  lemma BlockLengths(s: State, b: Block)
    requires ValidBlock(s, b)
    ensures |b.unlinks| == |b.inputs|
    ensures forall p :: p in b.inputs ==> p in s.disk
    ensures multiset(b.file.rows) == multiset(Gathered(s.disk, b.inputs))
  {
  }

  /** Every block up to the cut is resolved there. */
  ghost predicate ResolvedPass(s: State, blocks: seq<Block>, k: nat, j: nat)
    requires ValidPass(s, blocks) && k < |blocks| && j <= |blocks[k].inputs| + 2
    decreases |blocks|
  {
    if k == 0 then Resolved(s, blocks[0], j)
    else
      Resolved(s, blocks[0], |blocks[0].inputs| + 2) && ResolvedPass(Whole(s, blocks[0]), blocks[1..], k - 1, j)
  }

  /** Wherever a pass is cut, the disk has every row it started with, and at most the inputs consumed so far
      once more; it has exactly those rows if and only if every block up to there is resolved. */
  lemma {:induction false} CrashRows(s: State, blocks: seq<Block>, k: nat, j: nat)
    requires ValidPass(s, blocks) && k < |blocks| && j <= |blocks[k].inputs| + 2
    ensures Rows(s.disk) <= Rows(CrashedPass(s, blocks, k, j).disk) <= Rows(s.disk) + Consumed(blocks[..k + 1])
    ensures Rows(CrashedPass(s, blocks, k, j).disk) == Rows(s.disk) <==> ResolvedPass(s, blocks, k, j)
    decreases |blocks|
  {
    hide Rows, ValidBlock, After, Gathered, Resolved;
    assert ValidBlock(s, blocks[0]);
    BlockLengths(s, blocks[0]);
    assert blocks[..k + 1][0] == blocks[0] && blocks[..k + 1][1..] == blocks[1..][..k];
    if k == 0 {
      BlockRows(s, blocks[0], j);
    } else {
      BlockRows(s, blocks[0], |blocks[0].inputs| + 2);
      CrashRows(Whole(s, blocks[0]), blocks[1..], k - 1, j);
      Chained(Rows(s.disk), Rows(Whole(s, blocks[0]).disk), Rows(CrashedPass(s, blocks, k, j).disk),
              multiset(blocks[0].file.rows), Consumed(blocks[1..][..k]));
    }
  }

  /** A finished pass is one cut after its last step. */
  lemma {:induction false} FinishedIsCutAtTheEnd(s: State, blocks: seq<Block>)
    requires ValidPass(s, blocks) && blocks != []
    ensures var k := |blocks| - 1; AfterPass(s, blocks) == CrashedPass(s, blocks, k, |blocks[k].inputs| + 2)
    decreases |blocks|
  {
    hide ValidBlock, After;
    BlockLengths(s, blocks[0]);
    if |blocks| == 1 {
      assert blocks[1..] == [];
    } else {
      FinishedIsCutAtTheEnd(Whole(s, blocks[0]), blocks[1..]);
    }
  }

  /** Every block of a finished pass is resolved at its end. */
  ghost predicate ResolvedAll(s: State, blocks: seq<Block>)
    requires ValidPass(s, blocks)
  {
    blocks == [] || ResolvedPass(s, blocks, |blocks| - 1, |blocks[|blocks| - 1].inputs| + 2)
  }

  /** A finished pass leaves every row, and at most the consumed inputs once more; exactly the rows there were if
      and only if every block is resolved, as each is when its unlinks work. */
  lemma PassRows(s: State, blocks: seq<Block>)
    requires ValidPass(s, blocks)
    ensures Rows(s.disk) <= Rows(AfterPass(s, blocks).disk) <= Rows(s.disk) + Consumed(blocks)
    ensures Rows(AfterPass(s, blocks).disk) == Rows(s.disk) <==> ResolvedAll(s, blocks)
    ensures AllUnlinked(blocks) ==> ResolvedAll(s, blocks)
  {
    hide Rows, ValidBlock, After, CrashedPass, ResolvedPass;
    if blocks != [] {
      var k := |blocks| - 1;
      FinishedIsCutAtTheEnd(s, blocks);
      CrashRows(s, blocks, k, |blocks[k].inputs| + 2);
      assert blocks[..k + 1] == blocks;
      if AllUnlinked(blocks) {
        UnlinkedResolveAll(s, blocks);
      }
    }
  }

  lemma {:induction false} UnlinkedResolveAll(s: State, blocks: seq<Block>)
    requires ValidPass(s, blocks) && blocks != [] && AllUnlinked(blocks)
    ensures var k := |blocks| - 1; ResolvedPass(s, blocks, k, |blocks[k].inputs| + 2)
    decreases |blocks|
  {
    hide ValidBlock, After, Resolved;
    BlockLengths(s, blocks[0]);
    assert blocks[0] in blocks;
    UnlinkedResolves(s, blocks[0]);
    if |blocks| > 1 {
      assert forall b :: b in blocks[1..] ==> b in blocks;
      UnlinkedResolveAll(Whole(s, blocks[0]), blocks[1..]);
    }
  }

  /** Crash safety over any sequence of passes, each finished or cut anywhere: every row the store started
      with is still on disk, at least as often. */
  lemma {:induction false} NoRowIsLost(s: State, run: seq<Pass>)
    requires ValidRun(s, run)
    ensures Rows(s.disk) <= Rows(AfterRun(s, run).disk)
    decreases |run|
  {
    hide Rows, ValidPass, AfterPass, CrashedPass;
    if run != [] {
      match run[0] {
        case Finished(blocks) => PassRows(s, blocks);
        case Crashed(blocks, k, j) => CrashRows(s, blocks, k, j);
      }
      NoRowIsLost(AfterOne(s, run[0]), run[1..]);
    }
  }

  /** A finished pass whose unlinks work keeps the catalog in sync and its row total. */
  lemma {:induction false} PassInSync(s: State, blocks: seq<Block>)
    requires ValidPass(s, blocks) && InSync(s) && AllUnlinked(blocks)
    ensures InSync(AfterPass(s, blocks)) && Counted(AfterPass(s, blocks).catalog) == Counted(s.catalog)
    decreases |blocks|
  {
    hide InSync, Counted, ValidBlock, After;
    if blocks != [] {
      assert blocks[0] in blocks;
      assert forall b :: b in blocks[1..] ==> b in blocks;
      assert ValidBlock(s, blocks[0]);
      BlockLengths(s, blocks[0]);
      BlockCatalog(s, blocks[0]);
      PassInSync(Whole(s, blocks[0]), blocks[1..]);
    }
  }

  /** No partition is compacted twice in a pass. */
  ghost predicate DistinctKeys(blocks: seq<Block>) {
    forall i, j :: 0 <= i < j < |blocks| ==> blocks[i].output.key != blocks[j].output.key
  }

  /** The catalog is accurate, and lists every file of the partitions not in `done`. */
  ghost predicate CompleteBut(s: State, done: set<Key>) {
    Accurate(s) && forall p :: p in s.disk && p.key !in done ==> p in s.catalog
  }

  lemma BlockComplete(s: State, b: Block, done: set<Key>)
    requires ValidBlock(s, b) && CompleteBut(s, done) && b.output.key !in done
    ensures CompleteBut(Whole(s, b), done + {b.output.key}) && Counted(Whole(s, b).catalog) == Counted(s.catalog)
  {
    hide Counted, Gathered, Unlink;
    BlockAccurate(s, b, |b.inputs| + 2);
    UnlinkKeeps(Write(s, b).disk, b, |b.inputs|);
  }

  lemma {:induction false} CrashCatalogFrom(s: State, blocks: seq<Block>, k: nat, j: nat, done: set<Key>)
    requires ValidPass(s, blocks) && k < |blocks| && j <= |blocks[k].inputs| + 2 && CompleteBut(s, done)
    requires DistinctKeys(blocks) && forall i :: 0 <= i < |blocks| ==> blocks[i].output.key !in done
    ensures var a := CrashedPass(s, blocks, k, j); Accurate(a) && Counted(a.catalog) == Counted(s.catalog)
    decreases |blocks|
  {
    hide Counted, ValidBlock, After, Accurate;
    var b := blocks[0];
    assert ValidBlock(s, b);
    BlockLengths(s, b);
    if k == 0 {
      InputsAreListed(s, b, done);
      BlockAccurate(s, b, j);
    } else {
      BlockComplete(s, b, done);
      CrashCatalogFrom(Whole(s, b), blocks[1..], k - 1, j, done + {b.output.key});
    }
  }

  lemma InputsAreListed(s: State, b: Block, done: set<Key>)
    requires ValidBlock(s, b) && CompleteBut(s, done) && b.output.key !in done
    ensures forall p :: p in b.inputs ==> p in s.catalog
  {
  }

  /** At every crash point of a pass that started in sync, whatever unlinks failed, the catalog lists no
      missing file, has every listed file's own numbers, and counts the rows it counted. */
  lemma CrashCatalog(s: State, blocks: seq<Block>, k: nat, j: nat)
    requires ValidPass(s, blocks) && k < |blocks| && j <= |blocks[k].inputs| + 2 && InSync(s) && DistinctKeys(blocks)
    ensures var a := CrashedPass(s, blocks, k, j);
      && a.catalog.Keys <= a.disk.Keys && Accurate(a) && Counted(a.catalog) == Counted(s.catalog)
  {
    hide Counted, ValidBlock, After, ValidPass, CrashedPass, DistinctKeys;
    CrashCatalogFrom(s, blocks, k, j, {});
  }

  // ---- passes run out

  /** Blocks that took at least `n` inputs. */
  ghost predicate AtLeast(blocks: seq<Block>, n: nat) {
    forall b :: b in blocks ==> |b.inputs| >= n
  }

  /** After a whole block the disk has the output and not the inputs. */
  lemma BlockFiles(s: State, b: Block)
    requires ValidBlock(s, b) && forall i :: 0 <= i < |b.unlinks| ==> b.unlinks[i]
    ensures Whole(s, b).disk.Keys == s.disk.Keys + {b.output} - set p | p in b.inputs
  {
    hide Unlink, Gathered;
    var written := Write(s, b).disk;
    UnlinkKeeps(written, b, |b.inputs|);
    var left := Whole(s, b).disk;
    assert left == Unlink(written, b, |b.inputs|);
    assert b.inputs[..|b.inputs|] == b.inputs;
    forall p | p in b.inputs ensures p !in left {
      var i :| 0 <= i < |b.inputs| && b.inputs[i] == p;
    }
  }

  lemma CountLeft(before: set<Path>, output: Path, gone: set<Path>)
    requires output !in before && gone <= before
    ensures |before + {output} - gone| + |gone| == |before| + 1
  {
    var all := before + {output};
    assert (all - gone) + gone == all && (all - gone) !! gone;
    assert |all| == |before| + 1;
  }

  lemma BlockShrinks(s: State, b: Block)
    requires ValidBlock(s, b) && forall i :: 0 <= i < |b.unlinks| ==> b.unlinks[i]
    ensures |Whole(s, b).disk| + |b.inputs| == |s.disk| + 1
  {
    hide After, Gathered;
    BlockFiles(s, b);
    SetOfDistinct(b.inputs);
    CountLeft(s.disk.Keys, b.output, set p | p in b.inputs);
    var left := Whole(s, b).disk;
    assert |left| == |left.Keys| && |s.disk| == |s.disk.Keys|;
  }

  lemma {:induction false} SetOfDistinct(paths: seq<Path>)
    requires NoRepeats(paths)
    ensures |set p | p in paths| == |paths|
  {
    if paths != [] {
      var k := |paths| - 1;
      SetOfDistinct(paths[..k]);
      assert paths[k] !in paths[..k];
      assert (set p | p in paths) == (set p | p in paths[..k]) + {paths[k]};
    }
  }

  /** Each compacted partition makes the store smaller. */
  lemma {:induction false} PassShrinks(s: State, blocks: seq<Block>)
    requires ValidPass(s, blocks) && AllUnlinked(blocks) && AtLeast(blocks, 2)
    ensures |AfterPass(s, blocks).disk| + |blocks| <= |s.disk|
    decreases |blocks|
  {
    hide ValidBlock, After;
    if blocks != [] {
      assert blocks[0] in blocks;
      assert forall b :: b in blocks[1..] ==> b in blocks;
      BlockLengths(s, blocks[0]);
      BlockShrinks(s, blocks[0]);
      PassShrinks(Whole(s, blocks[0]), blocks[1..]);
    }
  }

  ghost predicate AllFinished(run: seq<Pass>) {
    forall pass :: pass in run ==>
      pass.Finished? && pass.blocks != [] && AllUnlinked(pass.blocks) && AtLeast(pass.blocks, 2)
  }

  /** Passes run out: with a minimum of two files, working unlinks and no new file, the passes that do
      something are fewer than the files. */
  lemma {:induction false} PassesRunOut(s: State, run: seq<Pass>)
    requires ValidRun(s, run) && AllFinished(run)
    ensures |run| + |AfterRun(s, run).disk| <= |s.disk|
    decreases |run|
  {
    hide ValidPass, AfterPass;
    if run != [] {
      assert run[0] in run;
      assert forall pass :: pass in run[1..] ==> pass in run;
      PassShrinks(s, run[0].blocks);
      PassesRunOut(AfterOne(s, run[0]), run[1..]);
    }
  }
}
