/** The catalog's file table: what each maintenance operation does to it and to the disk, and that a
    time-range read planned from it finds exactly the rows a scan of the store finds. */
module CatalogIndex {
  import opened Options
  import opened MapSums
  import opened Store
  import opened Compaction
  import opened LevelBuckets
  import opened Sorting

  datatype Entry = Entry(path: Path, stats: Stats)

  /** Rows inserted, or replaced at a path already there. */
  function Upserted(files: map<Path, Stats>, entries: seq<Entry>): map<Path, Stats> {
    if entries == [] then files
    else
      var k := |entries| - 1;
      Upserted(files, entries[..k])[entries[k].path := entries[k].stats]
  }

  /** `entries` are the files of `files`, each once or more, with the numbers of their footers. */
  ghost predicate EntriesOf(entries: seq<Entry>, files: map<Path, File>) {
    && (forall e :: e in entries ==> e.path in files && e.stats == StatsOf(files[e.path]))
    && (forall p :: p in files ==> exists e :: e in entries && e.path == p)
  }

  lemma {:induction false} UpsertedRows(catalog: map<Path, Stats>, entries: seq<Entry>, files: map<Path, File>)
    requires forall e :: e in entries ==> e.path in files && e.stats == StatsOf(files[e.path])
    ensures forall p :: p in Upserted(catalog, entries) <==> p in catalog || exists e :: e in entries && e.path == p
    ensures forall e :: e in entries ==> Upserted(catalog, entries)[e.path] == e.stats
    ensures forall p :: p in catalog && p !in files ==> Upserted(catalog, entries)[p] == catalog[p]
  {
    if entries != [] {
      var k := |entries| - 1;
      assert entries[k] in entries;
      assert forall e :: e in entries <==> e in entries[..k] || e == entries[k];
      UpsertedRows(catalog, entries[..k], files);
    }
  }

  /** Upserting the entries of a merge lays its files' rows over the table. */
  lemma MergeUpserts(catalog: map<Path, Stats>, entries: seq<Entry>, files: map<Path, File>)
    requires EntriesOf(entries, files)
    ensures Upserted(catalog, entries) == catalog + Footers(files)
  {
    UpsertedRows(catalog, entries, files);
    var now := Upserted(catalog, entries);
    forall p | p in now ensures p in catalog + Footers(files) && now[p] == (catalog + Footers(files))[p] {
      if p in files {
        var e :| e in entries && e.path == p;
      }
    }
  }

  /** The last entry for a path is the one that stays. */
  ghost predicate LastFor(entries: seq<Entry>, i: nat) {
    i < |entries| && forall j :: i < j < |entries| ==> entries[j].path != entries[i].path
  }

  predicate Mentions(entries: seq<Entry>, p: Path) {
    exists i :: 0 <= i < |entries| && entries[i].path == p
  }

  /** The last entry of each path is in the table, and the rows of other paths are as they were. */
  lemma {:induction false} LastEntryWins(files: map<Path, Stats>, entries: seq<Entry>, p: Path, i: nat)
    ensures var now := Upserted(files, entries);
      && (LastFor(entries, i) ==> entries[i].path in now && now[entries[i].path] == entries[i].stats)
      && (!Mentions(entries, p) ==> (p in now <==> p in files) && (p in now ==> now[p] == files[p]))
  {
    if entries != [] {
      var k := |entries| - 1;
      var init := entries[..k];
      LastEntryWins(files, init, p, i);
      if LastFor(entries, i) && i < k { assert LastFor(init, i) && entries[k].path != entries[i].path; }
      if !Mentions(entries, p) {
        assert forall j :: 0 <= j < k ==> init[j] == entries[j];
        assert entries[k].path != p && !Mentions(init, p);
      }
    }
  }

  /** Rows of the level directory of `key`: every writer's. */
  predicate SamePartition(key: Key, p: Path) {
    p.key.tenant == key.tenant && p.key.index == key.index && p.key.hour == key.hour && p.key.bucket == key.bucket
  }

  /** The listed rows of a partition whose files are gone. */
  function Missing(files: map<Path, Stats>, disk: map<Path, File>, key: Key): set<Path> {
    set p | p in files && p !in disk && SamePartition(key, p)
  }

  /** The rows missing under each key, added up: a row is counted under every key of its partition. */
  function MissingCount(files: map<Path, Stats>, disk: map<Path, File>, keys: seq<Key>): nat {
    if keys == [] then 0
    else MissingCount(files, disk, keys[..|keys|-1]) + |Missing(files, disk, keys[|keys|-1])|
  }

  /** `paths` are the files on disk, each once. */
  ghost predicate ListsDisk(paths: seq<Path>, disk: map<Path, File>) {
    NoRepeats(paths) && forall p :: p in paths <==> p in disk
  }

  predicate OlderFirst(a: Entry, b: Entry) { a.stats.minTs <= b.stats.minTs }

  class Catalog {
    var files: map<Path, Stats>
    var mergedSegments: set<nat>

    constructor ()
      ensures files == map[] && mergedSegments == {}
    {
      files, mergedSegments := map[], {};
    }

    method UpsertAll(entries: seq<Entry>)
      modifies this`files
      ensures files == Upserted(old(files), entries)
    {
      for i := 0 to |entries|
        invariant files == Upserted(old(files), entries[..i])
      {
        assert entries[..i + 1][..i] == entries[..i];
        files := files[entries[i].path := entries[i].stats];
      }
      assert entries[..|entries|] == entries;
    }

    method DeleteAll(paths: seq<Path>)
      modifies this`files
      ensures files == old(files) - set p | p in paths
    {
      for i := 0 to |paths|
        invariant files == old(files) - set p | p in paths[..i]
      {
        assert forall p :: p in paths[..i + 1] <==> p in paths[..i] || p == paths[i];
        files := files - {paths[i]};
      }
      assert paths[..|paths|] == paths;
    }

    /** One segment's merge output and its marker, in one transaction. */
    method CommitMerge(segment: nat, entries: seq<Entry>)
      modifies this
      ensures files == Upserted(old(files), entries) && mergedSegments == old(mergedSegments) + {segment}
    {
      UpsertAll(entries);
      mergedSegments := mergedSegments + {segment};
    }

    /** The compacted file in and the files it replaced out, in one transaction. */
    method RecordCompaction(b: Block, disk: map<Path, File>)
      modifies this`files
      ensures files == Record(State(disk, old(files)), b).catalog
      ensures forall p :: p in files <==> (p in old(files) || p == b.output) && p !in b.inputs
      ensures forall p :: p in files && p != b.output ==> files[p] == old(files)[p]
      ensures b.output in files ==> files[b.output] == Stats(|b.file.rows|, b.file.bytes, b.file.minTs, b.file.maxTs)
    {
      UpsertAll([Entry(b.output, StatsOf(b.file))]);
      assert Upserted(old(files), [Entry(b.output, StatsOf(b.file))][..0]) == old(files);
      DeleteAll(b.inputs);
    }

    /** The rows of some partitions whose files are gone, key by key. */
    method MissingIn(keys: seq<Key>, disk: map<Path, File>) returns (gone: seq<Path>)
      ensures forall p :: p in gone <==> exists k :: k in keys && p in Missing(files, disk, k)
      ensures |gone| == MissingCount(files, disk, keys)
    {
      hide Missing;
      gone := [];
      for i := 0 to |keys|
        invariant forall p :: p in gone <==> exists k :: k in keys[..i] && p in Missing(files, disk, k)
        invariant |gone| == MissingCount(files, disk, keys[..i])
      {
        var here := Listed(Missing(files, disk, keys[i]));
        gone := gone + here;
        assert keys[..i + 1][..i] == keys[..i];
        assert forall k :: k in keys[..i + 1] <==> k in keys[..i] || k == keys[i];
      }
      assert keys[..|keys|] == keys;
    }

    /** Drops the rows of the partitions retention expired whose files are gone. */
    method ForgetMissingIn(keys: seq<Key>, disk: map<Path, File>) returns (forgotten: nat)
      modifies this`files
      ensures forall p :: p in files <==> p in old(files) && (p in disk || forall k :: k in keys ==>
        k.tenant != p.key.tenant || k.index != p.key.index || k.hour != p.key.hour || k.bucket != p.key.bucket)
      ensures forall p :: p in files ==> files[p] == old(files)[p]
      ensures forgotten == MissingCount(old(files), disk, keys)
    {
      var gone := MissingIn(keys, disk);
      assert forall p :: p in gone ==> exists k :: k in keys && p in Missing(files, disk, k);
      DeleteAll(gone);
      forgotten := |gone|;
    }

    /** Reads the footer of every file on disk, then empties the table and fills it from them. A footer that
        cannot be read leaves the table as it was. */
    method Rebuild(listing: seq<Path>, disk: map<Path, File>, readable: Path -> bool) returns (count: Option<nat>)
      requires ListsDisk(listing, disk)
      modifies this`files
      ensures count.None? <==> exists p :: p in disk && !readable(p)
      ensures count.None? ==> files == old(files)
      ensures count.Some? ==> InSync(State(disk, files)) && count.value == |disk|
      ensures count.Some? ==> files.Keys == disk.Keys
      ensures count.Some? ==>
        forall p :: p in files ==> files[p] == Stats(|disk[p].rows|, disk[p].bytes, disk[p].minTs, disk[p].maxTs)
    {
      var read := ReadFooters(listing, disk, readable);
      if read.None? {
        return None;
      }
      hide EntriesOf, Upserted;
      files := map[];
      UpsertAll(read.value);
      MergeUpserts(map[], read.value, disk);
      assert files == Footers(disk);
      count := Some(|read.value|);
    }

    /** The rows of every file, or nothing when a footer cannot be read. */
    method ReadFooters(listing: seq<Path>, disk: map<Path, File>, readable: Path -> bool) returns (entries: Option<seq<Entry>>)
      requires ListsDisk(listing, disk)
      ensures entries.None? <==> exists p :: p in disk && !readable(p)
      ensures entries.Some? ==> EntriesOf(entries.value, disk) && |entries.value| == |disk|
    {
      var rows: seq<Entry> := [];
      for i := 0 to |listing|
        invariant |rows| == i && forall k :: 0 <= k < i ==> readable(listing[k])
        invariant forall k :: 0 <= k < i ==> rows[k] == Entry(listing[k], StatsOf(disk[listing[k]]))
      {
        if !readable(listing[i]) {
          assert listing[i] in disk;
          return None;
        }
        rows := rows + [Entry(listing[i], StatsOf(disk[listing[i]]))];
      }
      hide EntriesOf;
      EntriesAreTheDisk(listing, disk, rows);
      entries := Some(rows);
    }

    /** Files of (tenant, index) whose event times overlap the range, in the given buckets, oldest first. */
    method FilesOverlapping(tenant: string, index: string, from: int, to: int, buckets: Option<seq<string>>)
      returns (answer: seq<Entry>)
      ensures forall i, j :: 0 <= i < j < |answer| ==> answer[i].stats.minTs <= answer[j].stats.minTs
      ensures forall i, j :: 0 <= i < j < |answer| ==> answer[i].path != answer[j].path
      ensures forall e :: e in answer ==> e.path in files && e.stats == files[e.path]
      ensures forall p :: p in files ==>
        ((exists e :: e in answer && e.path == p) <==>
           && p.key.tenant == tenant && p.key.index == index
           && !(files[p].maxTs < from || to < files[p].minTs)
           && (buckets.None? || p.key.bucket in buckets.value))
    {
      hide Overlapping;
      var paths := Listed(Overlapping(files, tenant, index, from, to, buckets));
      OverlappingAreFiles(files, tenant, index, from, to, buckets);
      var rows := EntriesAt(files, paths);
      answer := Sort(rows, OlderFirst);
      AnswerIs(files, paths, answer);
      MatchesMeans(files, tenant, index, from, to, buckets);
    }
  }

  /** The rows of the table at the paths. */
  function EntriesAt(files: map<Path, Stats>, paths: seq<Path>): seq<Entry>
    requires forall p :: p in paths ==> p in files
  {
    seq(|paths|, i requires 0 <= i < |paths| => Entry(paths[i], files[paths[i]]))
  }

  lemma OverlappingAreFiles(files: map<Path, Stats>, tenant: string, index: string, from: int, to: int,
                            buckets: Option<seq<string>>)
    ensures forall p :: p in Overlapping(files, tenant, index, from, to, buckets) ==> p in files
  {
  }

  lemma AnswerIs(files: map<Path, Stats>, paths: seq<Path>, answer: seq<Entry>)
    requires NoRepeats(paths) && (forall p :: p in paths ==> p in files)
    requires SortedBy(answer, OlderFirst) && multiset(answer) == multiset(EntriesAt(files, paths))
    ensures forall i, j :: 0 <= i < j < |answer| ==> answer[i].stats.minTs <= answer[j].stats.minTs
    ensures forall i, j :: 0 <= i < j < |answer| ==> answer[i].path != answer[j].path
    ensures forall e :: e in answer ==> e.path in files && e.stats == files[e.path]
    ensures forall p :: p in paths <==> exists e :: e in answer && e.path == p
  {
    var rows := EntriesAt(files, paths);
    SameElements(rows, answer);
    assert NoRepeats(rows);
    PermutedRepeats(rows, answer);
    forall i, j | 0 <= i < j < |answer|
      ensures answer[i].stats.minTs <= answer[j].stats.minTs && answer[i].path != answer[j].path
    {
      assert OlderFirst(answer[i], answer[j]) && answer[i] in rows && answer[j] in rows;
    }
    forall p | p in paths ensures exists e :: e in answer && e.path == p {
      var i :| 0 <= i < |paths| && paths[i] == p;
      assert rows[i] in answer && rows[i].path == p;
    }
  }

  /** The predicate of the query, spelled out: the spans meet. */
  lemma MatchesMeans(files: map<Path, Stats>, tenant: string, index: string, from: int, to: int, buckets: Option<seq<string>>)
    ensures forall p :: p in files ==>
      (p in Overlapping(files, tenant, index, from, to, buckets) <==>
         && p.key.tenant == tenant && p.key.index == index
         && !(files[p].maxTs < from || to < files[p].minTs)
         && (buckets.None? || p.key.bucket in buckets.value))
  {
  }

  lemma EntriesAreTheDisk(listing: seq<Path>, disk: map<Path, File>, entries: seq<Entry>)
    requires ListsDisk(listing, disk) && |entries| == |listing|
    requires forall k :: 0 <= k < |listing| ==> entries[k] == Entry(listing[k], StatsOf(disk[listing[k]]))
    ensures EntriesOf(entries, disk) && |entries| == |disk|
  {
    forall p | p in disk ensures exists e :: e in entries && e.path == p {
      var k :| 0 <= k < |listing| && listing[k] == p;
      assert entries[k] in entries;
    }
    SetOfDistinct(listing);
    assert (set p | p in listing) == disk.Keys;
  }

  function Footers(disk: map<Path, File>): map<Path, Stats> {
    map p | p in disk :: StatsOf(disk[p])
  }

  predicate Matches(p: Path, s: Stats, tenant: string, index: string, from: int, to: int, buckets: Option<seq<string>>) {
    && p.key.tenant == tenant && p.key.index == index && s.maxTs >= from && s.minTs <= to
    && (buckets.Some? ==> p.key.bucket in buckets.value)
  }

  function Overlapping(files: map<Path, Stats>, tenant: string, index: string, from: int, to: int,
                       buckets: Option<seq<string>>): set<Path> {
    set p | p in files && Matches(p, files[p], tenant, index, from, to, buckets)
  }

  // ---- the life of the store, without crashes

  /** The buckets of each (tenant, index). */
  type Layout = map<(string, string), seq<Bucket>>

  /** The footer spans the file's event times, and every row is in the file of its own bucket. */
  ghost predicate WellPlaced(layout: Layout, p: Path, f: File) {
    && (forall r :: r in f.rows ==> f.minTs <= r.ts <= f.maxTs && r.severity <= MAX_SEVERITY)
    && (p.key.tenant, p.key.index) in layout
    && layout[(p.key.tenant, p.key.index)] != []
    && (forall r :: r in f.rows ==> BucketFor(layout[(p.key.tenant, p.key.index)], r.severity).name == p.key.bucket)
  }

  datatype Op =
    | Merged(files: map<Path, File>)
    | Compacted(block: Block)
    | Reclaimed(dropped: set<Path>)
    | Expired(gone: set<Path>, keys: seq<Key>)
    | Rebuilt

  ghost predicate ValidOp(layout: Layout, s: State, op: Op) {
    match op
    case Merged(files) => forall p :: p in files ==> WellPlaced(layout, p, files[p])
    case Compacted(b) =>
      && ValidBlock(s, b) && (forall i :: 0 <= i < |b.unlinks| ==> b.unlinks[i])
      && (forall r :: r in b.file.rows ==> b.file.minTs <= r.ts <= b.file.maxTs)
      && b.inputs != []
    case Reclaimed(_) => true
    case Expired(gone, keys) => forall p :: p in gone ==> exists k :: k in keys && SamePartition(k, p)
    case Rebuilt => true
  }

  ghost function Apply(s: State, op: Op): State
    requires op.Compacted? ==> |op.block.unlinks| == |op.block.inputs|
  {
    match op
    case Merged(files) => State(s.disk + files, s.catalog + Footers(files))
    case Compacted(b) => Whole(s, b)
    case Reclaimed(dropped) => State(s.disk - dropped, s.catalog - dropped)
    case Expired(gone, keys) =>
      State(s.disk - gone,
            s.catalog - set p | p in s.catalog && p !in s.disk - gone && exists k :: k in keys && SamePartition(k, p))
    case Rebuilt => State(s.disk, Footers(s.disk))
  }

  ghost predicate ValidOps(layout: Layout, s: State, ops: seq<Op>)
    decreases |ops|
  {
    ops == [] || (ValidOp(layout, s, ops[0]) && ValidOps(layout, Apply(s, ops[0]), ops[1..]))
  }

  ghost function ApplyAll(layout: Layout, s: State, ops: seq<Op>): State
    requires ValidOps(layout, s, ops)
    decreases |ops|
  {
    if ops == [] then s else ApplyAll(layout, Apply(s, ops[0]), ops[1..])
  }

  ghost predicate Consistent(layout: Layout, s: State) {
    InSync(s) && forall p :: p in s.disk ==> WellPlaced(layout, p, s.disk[p])
  }

  lemma {:induction false} GatheredFrom(disk: map<Path, File>, paths: seq<Path>, r: Row)
    requires (forall p :: p in paths ==> p in disk) && r in Gathered(disk, paths)
    ensures exists p :: p in paths && r in disk[p].rows
  {
    var k := |paths| - 1;
    assert paths[k] in paths;
    if r !in disk[paths[k]].rows {
      GatheredFrom(disk, paths[..k], r);
      var p :| p in paths[..k] && r in disk[p].rows;
      assert p in paths;
    }
  }

  /** Rows of one partition stay in it. */
  lemma CompactedIsPlaced(layout: Layout, s: State, b: Block)
    requires Consistent(layout, s) && ValidOp(layout, s, Compacted(b))
    ensures WellPlaced(layout, b.output, b.file)
  {
    hide BucketFor, InSync, NoRepeats, Gathered;
    var p0 := b.inputs[0];
    assert p0 in b.inputs && WellPlaced(layout, p0, s.disk[p0]);
    forall r | r in b.file.rows
      ensures r.severity <= MAX_SEVERITY
      ensures BucketFor(layout[(p0.key.tenant, p0.key.index)], r.severity).name == p0.key.bucket
    {
      assert r in multiset(b.file.rows);
      GatheredFrom(s.disk, b.inputs, r);
      var p :| p in b.inputs && r in s.disk[p].rows;
      assert WellPlaced(layout, p, s.disk[p]);
    }
  }

  lemma CompactedIsConsistent(layout: Layout, s: State, b: Block)
    requires Consistent(layout, s) && ValidOp(layout, s, Compacted(b))
    ensures Consistent(layout, Whole(s, b))
  {
    hide BucketFor, WellPlaced, InSync, Unlink, Gathered;
    CompactedIsPlaced(layout, s, b);
    BlockCatalog(s, b);
    UnlinkKeeps(Write(s, b).disk, b, |b.inputs|);
  }

  /** Every operation keeps the catalog in step with the disk. */
  lemma OpIsConsistent(layout: Layout, s: State, op: Op)
    requires Consistent(layout, s) && ValidOp(layout, s, op)
    ensures Consistent(layout, Apply(s, op))
  {
    hide WellPlaced, ValidBlock, After;
    match op
    case Compacted(b) => CompactedIsConsistent(layout, s, b);
    case Merged(files) =>
    case Reclaimed(dropped) =>
    case Expired(gone, keys) =>
      assert Apply(s, op).catalog.Keys == s.disk.Keys - gone;
    case Rebuilt =>
  }

  /** What each operation does to the files: a merge puts its files in, a compaction keeps the rows, reclaim and
      expiry take exactly theirs out, and a rebuild touches none. */
  lemma OpChangesFiles(layout: Layout, s: State, op: Op)
    requires ValidOp(layout, s, op)
    ensures var after := Apply(s, op).disk;
      match op
      case Merged(files) => forall p ::
        (p in after <==> p in s.disk || p in files) && (p in after ==> after[p] == if p in files then files[p] else s.disk[p])
      case Compacted(b) => Rows(after) == Rows(s.disk) && b.output in after && forall p :: p in b.inputs ==> p !in after
      case Reclaimed(dropped) => forall p :: (p in after <==> p in s.disk && p !in dropped) && (p in after ==> after[p] == s.disk[p])
      case Expired(gone, _) => forall p :: (p in after <==> p in s.disk && p !in gone) && (p in after ==> after[p] == s.disk[p])
      case Rebuilt => after == s.disk
  {
    hide WellPlaced, Rows, Unlink, Resolved, Gathered;
    if op.Compacted? {
      CompactedKeepsRows(s, op.block);
    }
  }

  lemma CompactedKeepsRows(s: State, b: Block)
    requires ValidBlock(s, b) && forall i :: 0 <= i < |b.unlinks| ==> b.unlinks[i]
    ensures var after := Whole(s, b).disk;
      Rows(after) == Rows(s.disk) && b.output in after && forall p :: p in b.inputs ==> p !in after
  {
    hide Rows, Unlink, Gathered;
    UnlinkKeeps(Write(s, b).disk, b, |b.inputs|);
    assert b.inputs[..|b.inputs|] == b.inputs;
    assert Resolved(s, b, |b.inputs| + 2);
    BlockRows(s, b, |b.inputs| + 2);
  }

  lemma {:induction false} OpsAreConsistent(layout: Layout, s: State, ops: seq<Op>)
    requires Consistent(layout, s) && ValidOps(layout, s, ops)
    ensures Consistent(layout, ApplyAll(layout, s, ops))
    decreases |ops|
  {
    hide Consistent, Apply, WellPlaced;
    if ops != [] {
      OpIsConsistent(layout, s, ops[0]);
      OpsAreConsistent(layout, Apply(s, ops[0]), ops[1..]);
    }
  }

  // ---- reading

  /** The rows asked for: in the time range, of the severity and up. */
  predicate Wanted(r: Row, from: int, to: int, severity: nat) {
    from <= r.ts <= to && r.severity >= severity
  }

  function Filter(rows: seq<Row>, from: int, to: int, severity: nat): seq<Row> {
    if rows == [] then []
    else
      var k := |rows| - 1;
      var here := if Wanted(rows[k], from, to, severity) then [rows[k]] else [];
      Filter(rows[..k], from, to, severity) + here
  }

  lemma {:induction false} NothingWanted(rows: seq<Row>, from: int, to: int, severity: nat)
    requires forall r :: r in rows ==> !Wanted(r, from, to, severity)
    ensures Filter(rows, from, to, severity) == []
  {
    if rows != [] {
      var k := |rows| - 1;
      assert rows[k] in rows && forall r :: r in rows[..k] ==> r in rows;
      NothingWanted(rows[..k], from, to, severity);
    }
  }

  lemma {:induction false} FilterCounts(rows: seq<Row>, from: int, to: int, severity: nat, r: Row)
    ensures multiset(Filter(rows, from, to, severity))[r] ==
      if from <= r.ts <= to && r.severity >= severity then multiset(rows)[r] else 0
  {
    if rows != [] {
      var k := |rows| - 1;
      FilterCounts(rows[..k], from, to, severity, r);
      assert rows == rows[..k] + [rows[k]];
    }
  }

  /** What reading only `paths` and filtering gives, file by file. */
  ghost function ReadOf(disk: map<Path, File>, paths: set<Path>, from: int, to: int, severity: nat): map<Path, seq<Row>> {
    map p | p in disk :: if p in paths then Filter(disk[p].rows, from, to, severity) else []
  }

  ghost function Read(disk: map<Path, File>, paths: set<Path>, from: int, to: int, severity: nat): multiset<Row> {
    Pool(ReadOf(disk, paths, from, to, severity))
  }

  /** Every file of the tenant and index. */
  function AllOf(disk: map<Path, File>, tenant: string, index: string): set<Path> {
    set p | p in disk && p.key.tenant == tenant && p.key.index == index
  }

  /** The files of the tenant and index. */
  ghost function StoreOf(disk: map<Path, File>, tenant: string, index: string): map<Path, File> {
    map p | p in disk && p.key.tenant == tenant && p.key.index == index :: disk[p]
  }

  /** Two ways of pooling a map of rows, compared file by file. */
  lemma {:induction false} PoolCounts(all: map<Path, seq<Row>>, some: map<Path, seq<Row>>, r: Row, wanted: bool)
    requires some.Keys <= all.Keys
    requires forall p :: p in all ==>
      multiset(all[p])[r] == if wanted && p in some then multiset(some[p])[r] else 0
    ensures Pool(all)[r] == if wanted then Pool(some)[r] else 0
    decreases |all|
  {
    hide Pool;
    if all == map[] {
      NothingPooled(all);
      NothingPooled(some);
    } else {
      var p :| p in all;
      PoolWithout(all, p);
      PoolCounts(all - {p}, some - {p}, r, wanted);
      if p in some { PoolWithout(some, p); } else { assert some - {p} == some; }
    }
  }

  lemma NothingPooled(m: map<Path, seq<Row>>)
    ensures m == map[] ==> Pool(m) == multiset{}
  {
  }

  /** A scan of the tenant's index holds each row in the range, of the severity and up, as often as the store does,
      and no other. */
  lemma ScanIs(disk: map<Path, File>, tenant: string, index: string, from: int, to: int, severity: nat, r: Row)
    ensures Read(disk, AllOf(disk, tenant, index), from, to, severity)[r] ==
      if from <= r.ts <= to && r.severity >= severity then Rows(StoreOf(disk, tenant, index))[r] else 0
  {
    hide Filter, Pool;
    var read, held := ReadOf(disk, AllOf(disk, tenant, index), from, to, severity), RowsByPath(StoreOf(disk, tenant, index));
    forall p | p in read
      ensures multiset(read[p])[r] ==
        if (from <= r.ts <= to && r.severity >= severity) && p in held then multiset(held[p])[r] else 0
    {
      FilterCounts(disk[p].rows, from, to, severity, r);
    }
    PoolCounts(read, held, r, from <= r.ts <= to && r.severity >= severity);
  }

  /** A file the plan leaves out holds nothing that is wanted. */
  lemma LeftOutHoldsNothing(layout: Layout, naming: Naming, s: State, tenant: string, index: string, from: int, to: int,
                            severity: nat, p: Path)
    requires Consistent(layout, s) && (tenant, index) in layout && Cover(layout[(tenant, index)], naming)
    requires severity <= MAX_SEVERITY
    requires forall b :: b in layout[(tenant, index)] ==> b.minSeverity <= MAX_SEVERITY
    requires p in AllOf(s.disk, tenant, index)
    requires p !in Overlapping(s.catalog, tenant, index, from, to, Some(NamesFrom(layout[(tenant, index)], severity)))
    ensures forall r :: r in s.disk[p].rows ==> !Wanted(r, from, to, severity)
  {
    hide BucketFor, NamesFrom, Cover;
    var bs := layout[(tenant, index)];
    var f := s.disk[p];
    assert s.catalog[p] == StatsOf(f) && WellPlaced(layout, p, f);
    NamesFromIsExact(bs, naming, severity, p.key.bucket);
    assert !Matches(p, s.catalog[p], tenant, index, from, to, Some(NamesFrom(bs, severity)));
    forall r | r in f.rows ensures !Wanted(r, from, to, severity) {
      assert BucketFor(bs, r.severity).name == p.key.bucket;
    }
  }

  /** The index agrees with a scan: after any crash-free run of merges, compactions, reclaims, expiries and
      rebuilds, reading only the files the catalog returns for a time range and the buckets for a severity
      and up gives exactly the rows a filter over every file of that tenant and index gives. */
  lemma IndexAgreesWithScan(layout: Layout, naming: Naming, start: State, ops: seq<Op>, tenant: string, index: string,
                            from: int, to: int, severity: nat)
    requires Consistent(layout, start) && ValidOps(layout, start, ops)
    requires (tenant, index) in layout && Cover(layout[(tenant, index)], naming) && severity <= MAX_SEVERITY
    requires forall b :: b in layout[(tenant, index)] ==> b.minSeverity <= MAX_SEVERITY
    ensures var s := ApplyAll(layout, start, ops);
      var plan := Overlapping(s.catalog, tenant, index, from, to, Some(NamesFrom(layout[(tenant, index)], severity)));
      && Read(s.disk, plan, from, to, severity) == Read(s.disk, AllOf(s.disk, tenant, index), from, to, severity)
      && forall r :: Read(s.disk, plan, from, to, severity)[r] ==
           if from <= r.ts <= to && r.severity >= severity then Rows(StoreOf(s.disk, tenant, index))[r] else 0
  {
    hide Filter, NamesFrom, Sound, DistinctNames, StrictlySorted, WellPlaced, ApplyAll, ValidOps, Pool;
    OpsAreConsistent(layout, start, ops);
    var s := ApplyAll(layout, start, ops);
    var plan := Overlapping(s.catalog, tenant, index, from, to, Some(NamesFrom(layout[(tenant, index)], severity)));
    var all := AllOf(s.disk, tenant, index);
    assert plan <= all;
    forall p | p in all && p !in plan ensures Filter(s.disk[p].rows, from, to, severity) == [] {
      LeftOutHoldsNothing(layout, naming, s, tenant, index, from, to, severity, p);
      NothingWanted(s.disk[p].rows, from, to, severity);
    }
    assert ReadOf(s.disk, plan, from, to, severity) == ReadOf(s.disk, all, from, to, severity);
    hide StoreOf;
    forall r ensures Read(s.disk, all, from, to, severity)[r] ==
      if from <= r.ts <= to && r.severity >= severity then Rows(StoreOf(s.disk, tenant, index))[r] else 0
    {
      ScanIs(s.disk, tenant, index, from, to, severity, r);
    }
  }
}
