/** A crash in a compaction pass, then a rebuild of the catalog from the disk. The rebuild lists every file
    that is there, so what the crash left twice is counted and read twice. */
module CompactionCrash {
  import opened Store
  import opened Compaction
  import opened CatalogIndex

  /** A catalog rebuilt from footers counts every row on disk, as often as it is there. */
  lemma {:induction false} RebuiltCounts(disk: map<Path, File>)
    ensures Counted(Footers(disk)) == |Rows(disk)|
    decreases |disk|
  {
    if disk == map[] {
      assert RowsByPath(disk) == map[] && CountsByPath(Footers(disk)) == map[];
    } else {
      var p :| p in disk;
      RebuiltCounts(disk - {p});
      RemoveFile(disk, p);
      RemoveCount(Footers(disk), p);
      assert Footers(disk) - {p} == Footers(disk - {p});
      assert |multiset(disk[p].rows)| == |disk[p].rows|;
    }
  }

  lemma SameSize(part: multiset<Row>, all: multiset<Row>)
    requires part <= all && |part| == |all|
    ensures part == all
  {
    assert all == part + (all - part);
  }

  /** The exact law of a crash and a rebuild: the catalog is in sync again, and it counts, and a read finds,
      the rows the store had before the pass if and only if every block up to the crash was resolved. */
  lemma RebuildResolvesIff(s: State, blocks: seq<Block>, k: nat, j: nat)
    requires ValidPass(s, blocks) && k < |blocks| && j <= |blocks[k].inputs| + 2
    ensures var r := Apply(CrashedPass(s, blocks, k, j), Rebuilt);
      && InSync(r)
      && (Rows(r.disk) == Rows(s.disk) <==> ResolvedPass(s, blocks, k, j))
      && (Counted(r.catalog) == |Rows(s.disk)| <==> ResolvedPass(s, blocks, k, j))
  {
    hide Rows, Counted, ValidPass, CrashedPass, ResolvedPass, Consumed;
    CrashRows(s, blocks, k, j);
    var left := CrashedPass(s, blocks, k, j).disk;
    RebuiltCounts(left);
    if |Rows(left)| == |Rows(s.disk)| {
      SameSize(Rows(s.disk), Rows(left));
    }
  }

  // ---- a store of two rows that a crash turns into four

  const HOUR := Key("acme", "default", 7, "all", "node-a")
  const ONE := Path(HOUR, 1)
  const TWO := Path(HOUR, 2)
  const THREE := Path(HOUR, 3)
  const EARLY := Row(10, 9, "a")
  const LATER := Row(20, 9, "b")

  function TwoFiles(): State {
    var disk := map[ONE := File([EARLY], 5, 100, 10, 10), TWO := File([LATER], 5, 100, 20, 20)];
    State(disk, map[ONE := Stats(1, 5, 10, 10), TWO := Stats(1, 5, 20, 20)])
  }

  function Merging(): Block {
    Block([ONE, TWO], THREE, File([EARLY, LATER], 8, 200, 10, 20), [true, true])
  }

  /** Cut after the replacement is recorded and before the first unlink, a store of two rows is read back by
      a rebuild as four. */
  lemma RebuildKeepsDoubles()
    ensures ValidBlock(TwoFiles(), Merging()) && InSync(TwoFiles())
    ensures |Rows(TwoFiles().disk)| == 2
    ensures Counted(Apply(After(TwoFiles(), Merging(), 2), Rebuilt).catalog) == 4
  {
    hide Rows, After, Remaining, ValidBlock;
    var s, b := TwoFiles(), Merging();
    MergingIsValid();
    TwoRows();
    BlockRowsExactly(s, b, 2);
    RebuiltCounts(After(s, b, 2).disk);
  }

  lemma MergingIsValid()
    ensures ValidBlock(TwoFiles(), Merging())
    ensures |multiset(Doubled(TwoFiles(), Merging(), 2))| == 2
  {
    var s, b := TwoFiles(), Merging();
    var first, both := [ONE], [ONE, TWO];
    assert both[..1] == first && first[..0] == [];
    assert Gathered(s.disk, first) == [EARLY];
    assert Gathered(s.disk, both) == [EARLY, LATER];
    assert Remaining(s.disk, b, 0, 1) == [EARLY];
    assert Remaining(s.disk, b, 0, 2) == [EARLY, LATER];
  }

  lemma TwoRows()
    ensures |Rows(TwoFiles().disk)| == 2
  {
    var disk := TwoFiles().disk;
    RebuiltCounts(disk);
    var footers := Footers(disk);
    RemoveCount(footers, ONE);
    RemoveCount(footers - {ONE}, TWO);
    assert footers - {ONE} - {TWO} == map[];
    assert CountsByPath(map[]) == map[];
  }
}
