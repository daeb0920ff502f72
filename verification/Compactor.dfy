/** One compaction pass as the maintenance thread runs it, proved to be a sequence of blocks. */
module Compactor {
  import opened Options
  import opened Sequences
  import opened Store
  import opened Compaction
  import opened Sorting
  import opened Selection

  ghost predicate Always(works: Path -> bool) { forall p :: works(p) }

  // ---- a pass grows block by block

  lemma {:induction false} PassGrows(s: State, blocks: seq<Block>, b: Block)
    requires ValidPass(s, blocks) && ValidBlock(AfterPass(s, blocks), b)
    ensures ValidPass(s, blocks + [b]) && AfterPass(s, blocks + [b]) == Whole(AfterPass(s, blocks), b)
    decreases |blocks|
  {
    hide ValidBlock, After;
    var all := blocks + [b];
    if blocks == [] {
      assert all[1..] == [];
      BlockLengths(s, b);
      assert ValidPass(Whole(s, b), []);
    } else {
      BlockLengths(s, blocks[0]);
      PassGrows(Whole(s, blocks[0]), blocks[1..], b);
      assert all[1..] == blocks[1..] + [b] && all[0] == blocks[0];
    }
  }

  datatype Report = Report(partitions: nat, replaced: nat, written: nat, rows: nat)

  /** The report of a pass that ran these blocks. */
  ghost function ReportOf(blocks: seq<Block>): Report {
    if blocks == [] then Report(0, 0, 0, 0)
    else
      var k := |blocks| - 1;
      var r := ReportOf(blocks[..k]);
      Report(r.partitions + 1, r.replaced + |blocks[k].inputs|, r.written + 1, r.rows + |blocks[k].file.rows|)
  }

  /** The report counts the blocks, their inputs and their rows. */
  lemma {:induction false} ReportCounts(blocks: seq<Block>)
    ensures ReportOf(blocks) == Report(|blocks|, Total(blocks, (b: Block) => |b.inputs|), |blocks|,
                                       Total(blocks, (b: Block) => |b.file.rows|))
  {
    if blocks != [] { ReportCounts(blocks[..|blocks|-1]); }
  }

  datatype Visited = LeftAlone | GivenUp | Compacted(replaced: nat, rows: nat)

  /** A partition of the listing: its key and its files on disk. */
  datatype Partition = Partition(key: Key, files: seq<Path>)

  predicate EarlierHour(a: Key, b: Key) { a.hour <= b.hour }

  predicate NamedBefore(a: Path, b: Path) { a.name <= b.name }

  /** The partition has all the files of its key, each once, in name order. */
  ghost predicate AllFilesOf(part: Partition, disk: map<Path, File>) {
    && (forall f :: f in part.files <==> f in disk && f.key == part.key)
    && NoRepeats(part.files) && SortedBy(part.files, NamedBefore)
  }

  /** `listing` is the store by partitions: each once, oldest hour first, none left out. */
  ghost predicate Lists(listing: seq<Partition>, disk: map<Path, File>) {
    && (forall i :: 0 <= i < |listing| ==> AllFilesOf(listing[i], disk))
    && (forall i, j :: 0 <= i < j < |listing| ==>
          listing[i].key != listing[j].key && listing[i].key.hour <= listing[j].key.hour)
    && (forall p :: p in disk ==> exists i :: 0 <= i < |listing| && listing[i].key == p.key)
  }

  lemma ListsAll(listing: seq<Partition>, keys: seq<Key>, disk: map<Path, File>)
    requires |listing| == |keys| && NoRepeats(keys) && SortedBy(keys, EarlierHour)
    requires forall k :: 0 <= k < |keys| ==> listing[k].key == keys[k] && AllFilesOf(listing[k], disk)
    requires forall p :: p in disk ==> p.key in keys
    ensures Lists(listing, disk)
  {
    hide AllFilesOf;
    forall p | p in disk ensures exists i :: 0 <= i < |listing| && listing[i].key == p.key {
      var i :| 0 <= i < |keys| && keys[i] == p.key;
      assert listing[i].key == p.key;
    }
    forall i, j | 0 <= i < j < |listing| ensures listing[i].key.hour <= listing[j].key.hour {
      assert EarlierHour(keys[i], keys[j]);
    }
  }

  // ---- a pass underway

  /** What a pass was started with. */
  datatype Pass = Pass(cfg: Config, start: State, listing: seq<Partition>, now: Option<nat>, unlinkable: Path -> bool)

  /** The blocks of the first `k` partitions of the listing: one for each that has inputs due, of those inputs,
      in order. */
  ghost predicate DueBlocks(pass: Pass, blocks: seq<Block>, k: nat) {
    if k == 0 then blocks == []
    else if k > |pass.listing| then false
    else
      var part, n := pass.listing[k - 1], |blocks| - 1;
      if Selects(pass.cfg, pass.start.disk, part.files, pass.now, None) then DueBlocks(pass, blocks, k - 1)
      else
        && blocks != [] && blocks[n].output.key == part.key
        && Selects(pass.cfg, pass.start.disk, part.files, pass.now, Some(blocks[n].inputs))
        && DueBlocks(pass, blocks[..n], k - 1)
  }

  /** The files of the partitions still to visit are as they were. */
  ghost predicate Untouched(pass: Pass, disk: map<Path, File>, k: nat) {
    forall i :: k <= i < |pass.listing| ==> SameFiles(pass.start.disk, disk, pass.listing[i].files)
  }

  /** `k` partitions in, a pass has run these blocks and reports them. */
  ghost predicate Underway(pass: Pass, state: State, blocks: seq<Block>, report: Report, k: nat) {
    && Lists(pass.listing, pass.start.disk)
    && ValidPass(pass.start, blocks) && state == AfterPass(pass.start, blocks)
    && AtLeast(blocks, pass.cfg.minFiles) && |blocks| <= pass.cfg.maxPartitions && DistinctKeys(blocks)
    && Ahead(blocks, pass.listing, k)
    && report == ReportOf(blocks) && report.partitions == |blocks|
    && (Always(pass.unlinkable) ==> AllUnlinked(blocks))
    && DueBlocks(pass, blocks, k) && Untouched(pass, state.disk, k)
  }

  /** No partition of the listing has inputs due. */
  ghost predicate Idle(cfg: Config, disk: map<Path, File>, listing: seq<Partition>, now: Option<nat>) {
    forall i :: 0 <= i < |listing| ==> Selects(cfg, disk, listing[i].files, now, None)
  }

  lemma {:induction false} NoBlocksIsIdle(pass: Pass, k: nat)
    requires DueBlocks(pass, [], k)
    ensures forall i :: 0 <= i < k ==> i < |pass.listing| && Selects(pass.cfg, pass.start.disk, pass.listing[i].files, pass.now, None)
  {
    hide Selects;
    if k > 0 { NoBlocksIsIdle(pass, k - 1); }
  }

  /** No block is of a partition still to visit. */
  ghost predicate Ahead(blocks: seq<Block>, listing: seq<Partition>, k: nat) {
    forall b, i :: b in blocks && k <= i < |listing| ==> b.output.key != listing[i].key
  }

  lemma UnderwayStarts(pass: Pass)
    requires Lists(pass.listing, pass.start.disk)
    ensures Underway(pass, pass.start, [], Report(0, 0, 0, 0), 0)
  {
    hide Selects;
  }

  lemma UnderwaySkips(pass: Pass, state: State, blocks: seq<Block>, report: Report, k: nat)
    requires Underway(pass, state, blocks, report, k) && k < |pass.listing|
    requires Selects(pass.cfg, state.disk, pass.listing[k].files, pass.now, None)
    ensures Underway(pass, state, blocks, report, k + 1)
  {
    hide Lists, ValidPass, AtLeast, DistinctKeys, AllUnlinked, ReportOf, Selects;
    SelectsSame(pass.cfg, state.disk, pass.start.disk, pass.listing[k].files, pass.now, None, _ => true);
  }

  lemma UnderwayGrows(pass: Pass, before: State, state: State, blocks: seq<Block>, report: Report, k: nat, b: Block)
    requires Underway(pass, before, blocks, report, k) && k < |pass.listing| && report.partitions < pass.cfg.maxPartitions
    requires ValidBlock(before, b) && |b.inputs| == |b.unlinks| && state == Whole(before, b)
    requires |b.inputs| >= pass.cfg.minFiles && b.output.key == pass.listing[k].key
    requires Selects(pass.cfg, before.disk, pass.listing[k].files, pass.now, Some(b.inputs))
    requires forall p :: p in before.disk && p.key != b.output.key ==> p in state.disk && state.disk[p] == before.disk[p]
    requires forall i :: 0 <= i < |b.inputs| ==> b.unlinks[i] == pass.unlinkable(b.inputs[i])
    ensures Underway(pass, state, blocks + [b],
                     Report(report.partitions + 1, report.replaced + |b.inputs|, report.written + 1, report.rows + |b.file.rows|),
                     k + 1)
  {
    hide ValidBlock, After, AfterPass, ValidPass, AtLeast, DistinctKeys, AllUnlinked, Ahead, ReportOf, DueBlocks, Untouched,
      Selects;
    PassGrows(pass.start, blocks, b);
    KeysApart(pass.listing, pass.start.disk);
    GrownProperties(pass.cfg, blocks, b, before, pass.unlinkable, pass.listing, k);
    ReportGrows(blocks, b);
    DueGrows(pass, before, blocks, k, b);
    StillUntouched(pass, before, state, k, b);
  }

  lemma DueGrows(pass: Pass, before: State, blocks: seq<Block>, k: nat, b: Block)
    requires DueBlocks(pass, blocks, k) && Untouched(pass, before.disk, k) && k < |pass.listing|
    requires b.output.key == pass.listing[k].key
    requires Selects(pass.cfg, before.disk, pass.listing[k].files, pass.now, Some(b.inputs))
    ensures DueBlocks(pass, blocks + [b], k + 1)
  {
    hide Selects;
    var files, start := pass.listing[k].files, pass.start.disk;
    SelectsSame(pass.cfg, before.disk, start, files, pass.now, Some(b.inputs), _ => true);
    if Selects(pass.cfg, start, files, pass.now, None) {
      SelectsOnce(pass.cfg, start, files, pass.now, None, Some(b.inputs));
    }
    assert (blocks + [b])[..|blocks|] == blocks;
  }

  lemma StillUntouched(pass: Pass, before: State, state: State, k: nat, b: Block)
    requires Lists(pass.listing, pass.start.disk) && Untouched(pass, before.disk, k) && k < |pass.listing|
    requires b.output.key == pass.listing[k].key
    requires forall p :: p in before.disk && p.key != b.output.key ==> p in state.disk && state.disk[p] == before.disk[p]
    ensures Untouched(pass, state.disk, k + 1)
  {
    hide NoRepeats, SortedBy;
    forall i | k < i < |pass.listing| ensures SameFiles(pass.start.disk, state.disk, pass.listing[i].files) {
      assert AllFilesOf(pass.listing[i], pass.start.disk);
      assert SameFiles(pass.start.disk, before.disk, pass.listing[i].files);
    }
  }

  /** The partition about to be visited. */
  lemma StillListed(pass: Pass, disk: map<Path, File>, k: nat)
    requires Lists(pass.listing, pass.start.disk) && Untouched(pass, disk, k) && k < |pass.listing|
    ensures ListedOn(disk, pass.listing[k])
  {
    hide SortedBy;
    assert AllFilesOf(pass.listing[k], pass.start.disk);
  }

  /** The partition's files are on disk, each once. */
  ghost predicate ListedOn(disk: map<Path, File>, p: Partition) {
    (forall f :: f in p.files ==> f in disk && f.key == p.key) && NoRepeats(p.files)
  }

  lemma KeysApart(listing: seq<Partition>, disk: map<Path, File>)
    requires Lists(listing, disk)
    ensures forall i, j :: 0 <= i < j < |listing| ==> listing[i].key != listing[j].key
  {
  }

  lemma ReportGrows(blocks: seq<Block>, b: Block)
    ensures var r := ReportOf(blocks);
      ReportOf(blocks + [b]) == Report(r.partitions + 1, r.replaced + |b.inputs|, r.written + 1, r.rows + |b.file.rows|)
  {
    assert (blocks + [b])[..|blocks|] == blocks;
  }

  /** What holds wherever a pass ends. */
  lemma UnderwayEnds(pass: Pass, state: State, blocks: seq<Block>, report: Report, k: nat)
    requires Underway(pass, state, blocks, report, k)
    ensures ValidPass(pass.start, blocks) && state == AfterPass(pass.start, blocks)
    ensures AtLeast(blocks, pass.cfg.minFiles) && |blocks| <= pass.cfg.maxPartitions && DistinctKeys(blocks)
    ensures report == ReportOf(blocks) && report.partitions == |blocks|
    ensures Always(pass.unlinkable) ==> AllUnlinked(blocks)
    ensures DueBlocks(pass, blocks, k)
    ensures blocks == [] && k == |pass.listing| ==> Idle(pass.cfg, pass.start.disk, pass.listing, pass.now)
  {
    hide Lists, ValidPass, AfterPass, AtLeast, DistinctKeys, AllUnlinked, Ahead, ReportOf, Selects, DueBlocks;
    if blocks == [] { NoBlocksIsIdle(pass, k); }
  }

  /** What may be visited next. */
  lemma UnderwayNext(pass: Pass, state: State, blocks: seq<Block>, report: Report, k: nat)
    requires Underway(pass, state, blocks, report, k) && k < |pass.listing|
    ensures ListedOn(state.disk, pass.listing[k]) && SameFiles(pass.start.disk, state.disk, pass.listing[k].files)
    ensures report.partitions == |blocks| <= pass.cfg.maxPartitions
  {
    hide Lists, ValidPass, AfterPass, AtLeast, DistinctKeys, AllUnlinked, Ahead, ReportOf, DueBlocks;
    StillListed(pass, state.disk, k);
  }

  lemma GrownProperties(cfg: Config, blocks: seq<Block>, b: Block, before: State, unlinkable: Path -> bool,
                        listing: seq<Partition>, k: nat)
    requires AtLeast(blocks, cfg.minFiles) && |b.inputs| >= cfg.minFiles
    requires Always(unlinkable) ==> AllUnlinked(blocks)
    requires ValidBlock(before, b)
    requires forall i :: 0 <= i < |b.inputs| ==> b.unlinks[i] == unlinkable(b.inputs[i])
    requires DistinctKeys(blocks) && Ahead(blocks, listing, k) && k < |listing| && b.output.key == listing[k].key
    requires forall i, j :: 0 <= i < j < |listing| ==> listing[i].key != listing[j].key
    ensures AtLeast(blocks + [b], cfg.minFiles)
    ensures Always(unlinkable) ==> AllUnlinked(blocks + [b])
    ensures DistinctKeys(blocks + [b]) && Ahead(blocks + [b], listing, k + 1)
  {
  }

  class Compactor {
    var disk: map<Path, File>
    var catalog: map<Path, Stats>
    /** Above every file name used so far; stands for the fresh identifiers a new file is named by. */
    var nextName: nat

    ghost function View(): State
      reads this
    {
      State(disk, catalog)
    }

    ghost predicate Fresh()
      reads this
    {
      && (forall p :: p in disk ==> p.name < nextName)
      && (forall p :: p in catalog ==> p.name < nextName)
    }

    constructor (files: map<Path, File>, entries: map<Path, Stats>, above: nat)
      requires forall p :: p in files ==> p.name < above
      requires forall p :: p in entries ==> p.name < above
      ensures Fresh() && disk == files && catalog == entries
    {
      disk, catalog, nextName := files, entries, above;
    }

    /** Reads candidates until the next would pass the target, or one cannot be read. */
    method Take(cfg: Config, candidates: seq<Path>, readable: Path -> bool) returns (consumed: seq<Path>, failed: bool)
      requires forall p :: p in candidates ==> p in disk
      ensures failed <==> exists p :: p in Chosen(cfg, disk, candidates, 0, false) && !readable(p)
      ensures !failed ==> consumed == Chosen(cfg, disk, candidates, 0, false)
    {
      hide Chosen;
      consumed, failed := [], false;
      ghost var all := Chosen(cfg, disk, candidates, 0, false);
      assert candidates[0..] == candidates;
      var bytes: nat := 0;
      for i := 0 to |candidates|
        invariant |consumed| == i && forall k :: 0 <= k < i ==> readable(consumed[k])
        invariant all == consumed + Chosen(cfg, disk, candidates[i..], bytes, i > 0)
      {
        assert candidates[i] in candidates;
        var size := disk[candidates[i]].bytes;
        ChosenNext(cfg, disk, candidates, i, bytes, i > 0);
        ghost var more := Chosen(cfg, disk, candidates[i + 1..], bytes + size, true);
        if bytes + size > cfg.targetBytes && consumed != [] {
          AllRead(consumed, all);
          return;
        }
        OneRead(consumed, candidates[i], more);
        assert all == consumed + [candidates[i]] + more && candidates[i] in all;
        if !readable(candidates[i]) {
          return consumed, true;
        }
        bytes := bytes + size;
        consumed := consumed + [candidates[i]];
      }
      NoneChosen(cfg, disk, candidates[|candidates|..], bytes, |candidates| > 0);
      AllRead(consumed, all);
    }

    /** The partition's inputs, by the size and count rules. */
    method Select(cfg: Config, part: Partition, now: Option<nat>, readable: Path -> bool)
      returns (inputs: Option<seq<Path>>, failed: bool)
      requires ListedOn(disk, part)
      ensures failed <==> Blocked(cfg, disk, part.files, now, readable)
      ensures !failed ==> Selects(cfg, disk, part.files, now, inputs)
      ensures inputs.Some? ==>
        (forall p :: p in inputs.value ==> p in part.files) && NoRepeats(inputs.value) && |inputs.value| >= cfg.minFiles
    {
      hide Small, Chosen, Newest, Blocked, Selects;
      InputsAreDue(cfg, disk, part.files, now, readable);
      SmallIn(cfg, disk, part.files);
      if |part.files| < cfg.minFiles || Busy(cfg, disk, part.files, now) {
        return None, false;
      }
      var candidates := Small(cfg, disk, part.files);
      if |candidates| < cfg.minFiles {
        return None, false;
      }
      ChosenPrefix(cfg, disk, candidates, 0, false);
      var consumed;
      consumed, failed := Take(cfg, candidates, readable);
      if failed || |consumed| < cfg.minFiles {
        return None, failed;
      }
      inputs := Some(consumed);
    }

    /** Write the replacement, record it, unlink the inputs; in that order. */
    method Replace(part: Partition, inputs: seq<Path>, file: File, unlinkable: Path -> bool) returns (ghost block: Block)
      requires Fresh() && ListedOn(disk, part) && NoRepeats(inputs) && forall p :: p in inputs ==> p in part.files
      requires multiset(file.rows) == multiset(Gathered(disk, inputs))
      modifies this
      ensures block.inputs == inputs && block.file == file && block.output.key == part.key && ValidBlock(old(View()), block)
      ensures View() == Whole(old(View()), block) && Fresh()
      ensures forall i :: 0 <= i < |inputs| ==> block.unlinks[i] == unlinkable(inputs[i])
      ensures forall p :: p in old(disk) && p.key != part.key ==> p in disk && disk[p] == old(disk)[p]
    {
      hide Gathered, NoRepeats, Unlink;
      var output := Path(part.key, nextName);
      nextName := nextName + 1;
      block := Block(inputs, output, file, seq(|inputs|, i requires 0 <= i < |inputs| => unlinkable(inputs[i])));
      ghost var before := View();
      assert ValidBlock(before, block);
      disk := disk[output := file];
      catalog := catalog[output := StatsOf(file)] - set p | p in inputs;
      assert View() == Record(Write(before, block), block);
      hide ValidBlock;
      UnlinkInputs(inputs, unlinkable, block);
      UnlinkKeeps(Write(before, block).disk, block, |inputs|);
      assert inputs[..|inputs|] == inputs;
    }

    /** Unlinks the inputs one after the other; a failed unlink is passed over. */
    method UnlinkInputs(inputs: seq<Path>, unlinkable: Path -> bool, ghost block: Block)
      requires block.inputs == inputs && |block.unlinks| == |inputs|
      requires forall i :: 0 <= i < |inputs| ==> block.unlinks[i] == unlinkable(inputs[i])
      modifies this`disk
      ensures disk == Unlink(old(disk), block, |inputs|)
    {
      for i := 0 to |inputs|
        invariant disk == Unlink(old(disk), block, i)
      {
        if unlinkable(inputs[i]) {
          disk := disk - {inputs[i]};
        }
      }
    }

    /** One partition: left alone, given up on because an input cannot be read, or compacted. */
    method Visit(cfg: Config, part: Partition, now: Option<nat>, pack: seq<Row> -> File, readable: Path -> bool,
                 unlinkable: Path -> bool)
      returns (visit: Visited, ghost block: Block)
      requires Fresh() && ListedOn(disk, part) && forall rows :: multiset(pack(rows).rows) == multiset(rows)
      modifies this
      ensures Fresh()
      ensures visit.GivenUp? <==> Blocked(cfg, old(disk), part.files, now, readable)
      ensures visit.LeftAlone? ==> Selects(cfg, old(disk), part.files, now, None)
      ensures visit.Compacted? ==> Selects(cfg, old(disk), part.files, now, Some(block.inputs))
      ensures !visit.Compacted? ==> View() == old(View())
      ensures visit.Compacted? ==>
        && ValidBlock(old(View()), block) && View() == Whole(old(View()), block)
        && |block.inputs| >= cfg.minFiles && block.output.key == part.key
        && visit.replaced == |block.inputs| && visit.rows == |block.file.rows|
        && (forall i :: 0 <= i < |block.inputs| ==> block.unlinks[i] == unlinkable(block.inputs[i]))
      ensures forall p :: p in old(disk) && p.key != part.key ==> p in disk && disk[p] == old(disk)[p]
    {
      hide ValidBlock, After, Gathered, Blocked, Selects;
      block := Block([], Path(part.key, 0), pack([]), []);
      var inputs, failed := Select(cfg, part, now, readable);
      if failed {
        return GivenUp, block;
      }
      if inputs.None? {
        return LeftAlone, block;
      }
      var file := pack(Gathered(disk, inputs.value));
      block := Replace(part, inputs.value, file, unlinkable);
      visit := Visited.Compacted(|inputs.value|, |file.rows|);
    }

    /** The partitions of the files on disk, oldest hour first, each with its files in name order. */
    method Partitions() returns (listing: seq<Partition>)
      ensures Lists(listing, disk)
    {
      hide SortedBy;
      var found := Sorting.Listed(set p | p in disk :: p.key);
      var keys := Sort(found, EarlierHour);
      SameElements(found, keys);
      PermutedRepeats(found, keys);
      listing := [];
      for i := 0 to |keys|
        invariant |listing| == i && forall k :: 0 <= k < i ==> listing[k].key == keys[k] && AllFilesOf(listing[k], disk)
      {
        var loose := Sorting.Listed(set p | p in disk && p.key == keys[i]);
        var files := Sort(loose, NamedBefore);
        SameElements(loose, files);
        PermutedRepeats(loose, files);
        listing := listing + [Partition(keys[i], files)];
      }
      ListsAll(listing, keys, disk);
    }

    /** One pass over the store: a block for each partition that has inputs due, in the order of the listing, up to
        the limit. Reading an input may fail, which ends the pass there; so may an unlink, which does not. */
    method Compact(cfg: Config, now: Option<nat>, pack: seq<Row> -> File, readable: Path -> bool,
                   unlinkable: Path -> bool)
      returns (report: Report, failed: bool, ghost blocks: seq<Block>, ghost listing: seq<Partition>, ghost stop: nat)
      requires Fresh() && forall rows :: multiset(pack(rows).rows) == multiset(rows)
      modifies this
      ensures Fresh() && Lists(listing, old(disk))
      ensures Always(readable) ==> !failed
      ensures ValidPass(old(View()), blocks) && View() == AfterPass(old(View()), blocks)
      ensures AtLeast(blocks, cfg.minFiles) && |blocks| <= cfg.maxPartitions && DistinctKeys(blocks)
      ensures report == ReportOf(blocks) && report.partitions == |blocks|
      ensures Always(unlinkable) ==> AllUnlinked(blocks)
      ensures DueBlocks(Pass(cfg, old(View()), listing, now, unlinkable), blocks, stop)
      ensures failed ==> stop < |listing| && Blocked(cfg, old(disk), listing[stop].files, now, readable)
      ensures !failed ==> stop == |listing| || |blocks| == cfg.maxPartitions
      ensures !failed && blocks == [] && cfg.maxPartitions > 0 ==> Idle(cfg, old(disk), listing, now)
    {
      var parts := Partitions();
      listing := parts;
      hide Fresh, Lists, Underway, Always, Blocked, Selects, ValidBlock, After, Idle, ValidPass, AfterPass, AtLeast,
        DistinctKeys, AllUnlinked, ReportOf, DueBlocks, ListedOn, SameFiles;
      ghost var pass := Pass(cfg, View(), parts, now, unlinkable);
      report, failed, blocks, stop := Report(0, 0, 0, 0), false, [], 0;
      UnderwayStarts(pass);
      for k := 0 to |parts|
        invariant Fresh() && Underway(pass, View(), blocks, report, k) && stop == k
      {
        UnderwayNext(pass, View(), blocks, report, k);
        if report.partitions >= cfg.maxPartitions {
          break;
        }
        ghost var before := View();
        var visit: Visited;
        ghost var block: Block;
        visit, block := Visit(cfg, parts[k], now, pack, readable, unlinkable);
        if visit.GivenUp? {
          SomeUnreadable(cfg, before.disk, parts[k].files, now, readable);
          StartBlocked(pass, before.disk, k, readable);
          failed := true;
          break;
        }
        if visit.Compacted? {
          BlockLengths(before, block);
          UnderwayGrows(pass, before, View(), blocks, report, k, block);
          blocks := blocks + [block];
          report := Report(report.partitions + 1, report.replaced + visit.replaced, report.written + 1,
                           report.rows + visit.rows);
        } else {
          UnderwaySkips(pass, View(), blocks, report, k);
        }
        stop := k + 1;
      }
      UnderwayEnds(pass, View(), blocks, report, stop);
    }

    /** Passes until one does nothing. With reads and unlinks working, a minimum of two files and no new file, that
        comes before there are as many passes as files, and leaves the rows there were. */
    method CompactUntilIdle(cfg: Config, now: Option<nat>, pack: seq<Row> -> File, readable: Path -> bool,
                            unlinkable: Path -> bool)
      returns (passes: nat, ghost listing: seq<Partition>)
      requires Fresh() && forall rows :: multiset(pack(rows).rows) == multiset(rows)
      requires cfg.minFiles >= 2 && cfg.maxPartitions > 0 && Always(readable) && Always(unlinkable)
      modifies this
      ensures Lists(listing, disk) && Idle(cfg, disk, listing, now)
      ensures Rows(disk) == Rows(old(disk)) && (old(InSync(View())) ==> InSync(View()))
      ensures passes + |disk| <= |old(disk)|
    {
      hide Rows, InSync, Fresh, Lists, Idle, ValidPass, AfterPass, AtLeast, AllUnlinked, ResolvedAll, DistinctKeys,
        Always, Selects;
      passes := 0;
      while true
        invariant Fresh() && Rows(disk) == Rows(old(disk)) && (old(InSync(View())) ==> InSync(View()))
        invariant passes + |disk| <= |old(disk)|
        decreases |disk|
      {
        ghost var before := View();
        var report: Report, failed: bool;
        ghost var blocks: seq<Block>;
        ghost var stop: nat;
        report, failed, blocks, listing, stop := Compact(cfg, now, pack, readable, unlinkable);
        WorkingPass(before, blocks, cfg.minFiles);
        if report.partitions == 0 {
          return;
        }
        passes := passes + 1;
      }
    }
  }

  lemma AllRead(consumed: seq<Path>, all: seq<Path>)
    requires all == consumed + []
    ensures consumed == all && forall p :: p in all ==> exists k :: 0 <= k < |consumed| && consumed[k] == p
  {
  }

  lemma OneRead(consumed: seq<Path>, next: Path, more: seq<Path>)
    ensures consumed + ([next] + more) == consumed + [next] + more && next in consumed + ([next] + more)
  {
    assert (consumed + ([next] + more))[|consumed|] == next;
  }

  lemma SomeUnreadable(cfg: Config, disk: map<Path, File>, files: seq<Path>, now: Option<nat>, readable: Path -> bool)
    requires Blocked(cfg, disk, files, now, readable)
    ensures !Always(readable)
  {
    hide LongestRun, Spared;
  }

  lemma StartBlocked(pass: Pass, disk: map<Path, File>, k: nat, readable: Path -> bool)
    requires k < |pass.listing| && SameFiles(pass.start.disk, disk, pass.listing[k].files)
    requires Blocked(pass.cfg, disk, pass.listing[k].files, pass.now, readable)
    ensures Blocked(pass.cfg, pass.start.disk, pass.listing[k].files, pass.now, readable)
  {
    hide Blocked, Selects;
    SelectsSame(pass.cfg, disk, pass.start.disk, pass.listing[k].files, pass.now, None, readable);
  }

  lemma AtFirst(s: State, blocks: seq<Block>)
    requires ValidPass(s, blocks)
    ensures blocks == [] ==> AfterPass(s, blocks) == s
  {
  }

  /** What a pass with working unlinks comes to. */
  lemma WorkingPass(before: State, blocks: seq<Block>, n: nat)
    requires ValidPass(before, blocks) && AllUnlinked(blocks) && AtLeast(blocks, n) && n >= 2
    ensures var after := AfterPass(before, blocks);
      && Rows(after.disk) == Rows(before.disk) && (InSync(before) ==> InSync(after))
      && |after.disk| + |blocks| <= |before.disk|
      && (blocks == [] ==> after == before)
  {
    hide Rows, InSync, ValidPass, AllUnlinked, ResolvedAll, Consumed, Counted;
    PassRows(before, blocks);
    AtFirst(before, blocks);
    hide AfterPass;
    PassShrinks(before, blocks);
    if InSync(before) {
      PassInSync(before, blocks);
    }
  }
}
