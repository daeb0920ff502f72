/** Which files of a partition a pass compacts, and that the rules choose them as they say. */
module Selection {
  import opened Options
  import opened Sequences
  import opened Store
  import opened Compaction
  import opened Sorting

  /** Files below the size past which compaction leaves a file alone. */
  function Small(cfg: Config, disk: map<Path, File>, files: seq<Path>): seq<Path>
    requires forall p :: p in files ==> p in disk
  {
    if files == [] then []
    else
      var k := |files| - 1;
      var here := if disk[files[k]].bytes < cfg.keepAboveBytes then [files[k]] else [];
      Small(cfg, disk, files[..k]) + here
  }

  /** The candidates taken, in order, until the next would pass the target; the first is always taken. */
  function Chosen(cfg: Config, disk: map<Path, File>, candidates: seq<Path>, bytes: nat, some: bool): seq<Path>
    requires forall p :: p in candidates ==> p in disk
  {
    if candidates == [] then []
    else
      var size := disk[candidates[0]].bytes;
      if bytes + size > cfg.targetBytes && some then []
      else [candidates[0]] + Chosen(cfg, disk, candidates[1..], bytes + size, true)
  }

  /** When the newest of the files was written. */
  function Newest(disk: map<Path, File>, files: seq<Path>): nat
    requires forall p :: p in files ==> p in disk
  {
    if files == [] then 0
    else
      var rest, last := Newest(disk, files[..|files|-1]), disk[files[|files|-1]].written;
      if last > rest then last else rest
  }

  /** The partition still receives files. */
  predicate Busy(cfg: Config, disk: map<Path, File>, files: seq<Path>, now: Option<nat>)
    requires forall p :: p in files ==> p in disk
  {
    now.Some? && now.value < Newest(disk, files) + cfg.quiet && cfg.quiet > 0
  }

  lemma {:induction false} SmallIn(cfg: Config, disk: map<Path, File>, files: seq<Path>)
    requires forall p :: p in files ==> p in disk
    ensures forall p :: p in Small(cfg, disk, files) ==> p in files
    ensures NoRepeats(files) ==> NoRepeats(Small(cfg, disk, files))
    ensures |Small(cfg, disk, files)| <= |files|
  {
    if files != [] {
      var k := |files| - 1;
      SmallIn(cfg, disk, files[..k]);
      assert forall p :: p in files[..k] ==> p in files;
      if NoRepeats(files) { assert files[k] !in files[..k]; }
    }
  }

  lemma NoneChosen(cfg: Config, disk: map<Path, File>, cs: seq<Path>, bytes: nat, some: bool)
    requires cs == []
    ensures Chosen(cfg, disk, cs, bytes, some) == []
  {
  }

  lemma ChosenNext(cfg: Config, disk: map<Path, File>, cs: seq<Path>, i: nat, bytes: nat, some: bool)
    requires i < |cs| && forall p :: p in cs ==> p in disk
    ensures Chosen(cfg, disk, cs[i..], bytes, some) ==
      if bytes + disk[cs[i]].bytes > cfg.targetBytes && some then []
      else [cs[i]] + Chosen(cfg, disk, cs[i + 1..], bytes + disk[cs[i]].bytes, true)
  {
    assert cs[i..][0] == cs[i] && cs[i..][1..] == cs[i + 1..];
  }

  lemma {:induction false} ChosenPrefix(cfg: Config, disk: map<Path, File>, cs: seq<Path>, bytes: nat, some: bool)
    requires forall p :: p in cs ==> p in disk
    ensures Chosen(cfg, disk, cs, bytes, some) <= cs
  {
    if cs != [] { ChosenPrefix(cfg, disk, cs[1..], bytes + disk[cs[0]].bytes, true); }
  }

  /** The files a pass reads of the partition; none when the count and quiet rules leave it. */
  function Read(cfg: Config, disk: map<Path, File>, files: seq<Path>, now: Option<nat>): Option<seq<Path>>
    requires forall p :: p in files ==> p in disk
  {
    SmallIn(cfg, disk, files);
    var small := Small(cfg, disk, files);
    if |files| < cfg.minFiles || Busy(cfg, disk, files, now) || |small| < cfg.minFiles then None
    else Some(Chosen(cfg, disk, small, 0, false))
  }

  /** The inputs a pass would compact the partition's files from; none when it leaves the partition. */
  function Inputs(cfg: Config, disk: map<Path, File>, files: seq<Path>, now: Option<nat>): Option<seq<Path>>
    requires forall p :: p in files ==> p in disk
  {
    match Read(cfg, disk, files, now)
    case None => None
    case Some(chosen) => if |chosen| < cfg.minFiles then None else Some(chosen)
  }

  /** A file the pass would read cannot be read, whether or not enough would have been read to compact. */
  ghost predicate Unreadable(cfg: Config, disk: map<Path, File>, files: seq<Path>, now: Option<nat>, readable: Path -> bool) {
    && (forall p :: p in files ==> p in disk)
    && Read(cfg, disk, files, now).Some? && exists p :: p in Read(cfg, disk, files, now).value && !readable(p)
  }

  // ---- the rules in plain terms

  /** The files below the limit, in order. */
  function BelowLimit(cfg: Config, disk: map<Path, File>, files: seq<Path>): seq<Path> {
    Filter(files, p => p in disk && disk[p].bytes < cfg.keepAboveBytes)
  }

  function SizeOn(disk: map<Path, File>, files: seq<Path>): nat {
    Total(files, p => if p in disk then disk[p].bytes else 0)
  }

  /** `run` is the longest leading run of `small` within the target; the first file is taken whatever its size. */
  ghost predicate LongestRun(cfg: Config, disk: map<Path, File>, small: seq<Path>, run: seq<Path>) {
    && run <= small && (small != [] ==> run != [])
    && (|run| > 1 ==> SizeOn(disk, run) <= cfg.targetBytes)
    && (|run| < |small| ==> SizeOn(disk, small[..|run| + 1]) > cfg.targetBytes)
  }

  /** A file was written less than the quiet time before now. */
  ghost predicate WrittenLately(cfg: Config, disk: map<Path, File>, files: seq<Path>, now: Option<nat>) {
    && now.Some? && cfg.quiet > 0
    && if files == [] then now.value < cfg.quiet
       else exists p :: p in files && p in disk && now.value < disk[p].written + cfg.quiet
  }

  /** The partition is not even read: too few files, too few below the limit, or written lately. */
  ghost predicate Spared(cfg: Config, disk: map<Path, File>, files: seq<Path>, now: Option<nat>) {
    || |files| < cfg.minFiles || |BelowLimit(cfg, disk, files)| < cfg.minFiles || WrittenLately(cfg, disk, files, now)
  }

  /** The inputs due: the longest run, unless the partition is spared or the run is too short. */
  ghost predicate Selects(cfg: Config, disk: map<Path, File>, files: seq<Path>, now: Option<nat>, inputs: Option<seq<Path>>) {
    exists run :: LongestRun(cfg, disk, BelowLimit(cfg, disk, files), run) &&
      inputs == if Spared(cfg, disk, files, now) || |run| < cfg.minFiles then None else Some(run)
  }

  /** A file of the run due cannot be read. */
  ghost predicate Blocked(cfg: Config, disk: map<Path, File>, files: seq<Path>, now: Option<nat>, readable: Path -> bool) {
    !Spared(cfg, disk, files, now) &&
    exists run :: LongestRun(cfg, disk, BelowLimit(cfg, disk, files), run) && exists p :: p in run && !readable(p)
  }

  lemma {:induction false} SmallIsBelow(cfg: Config, disk: map<Path, File>, files: seq<Path>)
    requires forall p :: p in files ==> p in disk
    ensures Small(cfg, disk, files) == BelowLimit(cfg, disk, files)
  {
    if files != [] {
      var k := |files| - 1;
      assert forall p :: p in files[..k] ==> p in files;
      SmallIsBelow(cfg, disk, files[..k]);
    }
  }

  lemma {:induction false} NewestIs(disk: map<Path, File>, files: seq<Path>)
    requires forall p :: p in files ==> p in disk
    ensures forall p :: p in files ==> disk[p].written <= Newest(disk, files)
    ensures if files == [] then Newest(disk, files) == 0
            else exists p :: p in files && disk[p].written == Newest(disk, files)
  {
    if files != [] {
      var k := |files| - 1;
      NewestIs(disk, files[..k]);
      assert forall p :: p in files ==> p in files[..k] || p == files[k];
      assert files[k] in files;
      assert forall p :: p in files[..k] ==> p in files;
    }
  }

  lemma BusyIsWrittenLately(cfg: Config, disk: map<Path, File>, files: seq<Path>, now: Option<nat>)
    requires forall p :: p in files ==> p in disk
    ensures Busy(cfg, disk, files, now) <==> WrittenLately(cfg, disk, files, now)
  {
    hide Newest;
    NewestIs(disk, files);
  }

  lemma SizeSteps(disk: map<Path, File>, files: seq<Path>, k: nat)
    requires k < |files| && files[k] in disk
    ensures SizeOn(disk, files[..k + 1]) == SizeOn(disk, files[..k]) + disk[files[k]].bytes
    ensures SizeOn(disk, files[..0]) == 0
  {
    assert files[..k + 1][..k] == files[..k];
  }

  /** `k` candidates in, the rest taken makes the run the longest. */
  lemma {:induction false} ChosenIsLongest(cfg: Config, disk: map<Path, File>, cs: seq<Path>, k: nat)
    requires k <= |cs| && (forall p :: p in cs ==> p in disk) && (k > 1 ==> SizeOn(disk, cs[..k]) <= cfg.targetBytes)
    ensures LongestRun(cfg, disk, cs, cs[..k] + Chosen(cfg, disk, cs[k..], SizeOn(disk, cs[..k]), k > 0))
    decreases |cs| - k
  {
    hide SizeOn, Chosen;
    var bytes := SizeOn(disk, cs[..k]);
    if k == |cs| {
      NoneChosen(cfg, disk, cs[k..], bytes, k > 0);
      assert cs[..k] + [] == cs[..k] == cs;
    } else {
      SizeSteps(disk, cs, k);
      ChosenNext(cfg, disk, cs, k, bytes, k > 0);
      if bytes + disk[cs[k]].bytes > cfg.targetBytes && k > 0 {
        assert cs[..k] + [] == cs[..k];
      } else {
        ChosenIsLongest(cfg, disk, cs, k + 1);
        assert cs[..k] + ([cs[k]] + Chosen(cfg, disk, cs[k + 1..], bytes + disk[cs[k]].bytes, true))
            == cs[..k + 1] + Chosen(cfg, disk, cs[k + 1..], bytes + disk[cs[k]].bytes, true);
      }
    }
  }

  lemma ChosenFromStart(cfg: Config, disk: map<Path, File>, cs: seq<Path>)
    requires forall p :: p in cs ==> p in disk
    ensures LongestRun(cfg, disk, cs, Chosen(cfg, disk, cs, 0, false))
  {
    hide Chosen, LongestRun;
    assert SizeOn(disk, []) == 0;
    assert cs[..0] == [] && cs[0..] == cs;
    ChosenIsLongest(cfg, disk, cs, 0);
    assert [] + Chosen(cfg, disk, cs, 0, false) == Chosen(cfg, disk, cs, 0, false);
  }

  lemma {:induction false} SizeGrows(disk: map<Path, File>, files: seq<Path>, j: nat, k: nat)
    requires j <= k <= |files|
    ensures SizeOn(disk, files[..j]) <= SizeOn(disk, files[..k])
  {
    if j < k {
      SizeGrows(disk, files, j, k - 1);
      assert files[..k][..k - 1] == files[..k - 1];
    }
  }

  /** There is one longest run. */
  lemma LongestOnce(cfg: Config, disk: map<Path, File>, small: seq<Path>, a: seq<Path>, b: seq<Path>)
    requires LongestRun(cfg, disk, small, a) && LongestRun(cfg, disk, small, b)
    ensures a == b
  {
    hide SizeOn;
    assert small[..|a|] == a && small[..|b|] == b;
    if |a| < |b| {
      SizeGrows(disk, small, |a| + 1, |b|);
    } else if |b| < |a| {
      SizeGrows(disk, small, |b| + 1, |a|);
    }
  }

  /** The rules select the inputs due, and a read fails exactly when a file of the run due cannot be read. */
  lemma InputsAreDue(cfg: Config, disk: map<Path, File>, files: seq<Path>, now: Option<nat>, readable: Path -> bool)
    requires forall p :: p in files ==> p in disk
    ensures Selects(cfg, disk, files, now, Inputs(cfg, disk, files, now))
    ensures Unreadable(cfg, disk, files, now, readable) <==> Blocked(cfg, disk, files, now, readable)
  {
    hide Small, BelowLimit, Chosen, Busy, WrittenLately, LongestRun;
    SmallIn(cfg, disk, files);
    SmallIsBelow(cfg, disk, files);
    BusyIsWrittenLately(cfg, disk, files, now);
    var small := Small(cfg, disk, files);
    ChosenFromStart(cfg, disk, small);
    var run := Chosen(cfg, disk, small, 0, false);
    assert LongestRun(cfg, disk, BelowLimit(cfg, disk, files), run);
    forall other | LongestRun(cfg, disk, small, other) ensures other == run { LongestOnce(cfg, disk, small, run, other); }
  }

  /** One selection is due. */
  lemma SelectsOnce(cfg: Config, disk: map<Path, File>, files: seq<Path>, now: Option<nat>, a: Option<seq<Path>>, b: Option<seq<Path>>)
    requires Selects(cfg, disk, files, now, a) && Selects(cfg, disk, files, now, b)
    ensures a == b
  {
    hide BelowLimit, LongestRun, Spared;
    var small := BelowLimit(cfg, disk, files);
    var x :| LongestRun(cfg, disk, small, x) && a == if Spared(cfg, disk, files, now) || |x| < cfg.minFiles then None else Some(x);
    var y :| LongestRun(cfg, disk, small, y) && b == if Spared(cfg, disk, files, now) || |y| < cfg.minFiles then None else Some(y);
    LongestOnce(cfg, disk, small, x, y);
  }

  // ---- the rules look at the partition's files alone

  ghost predicate SameFiles(disk: map<Path, File>, disk': map<Path, File>, files: seq<Path>) {
    forall p :: p in files ==> p in disk && p in disk' && disk[p] == disk'[p]
  }

  lemma SameRun(cfg: Config, disk: map<Path, File>, disk': map<Path, File>, small: seq<Path>, run: seq<Path>)
    requires SameFiles(disk, disk', small) && LongestRun(cfg, disk, small, run)
    ensures LongestRun(cfg, disk', small, run)
  {
    SameSize(disk, disk', run);
    if |run| < |small| { SameSize(disk, disk', small[..|run| + 1]); }
  }

  lemma SameSize(disk: map<Path, File>, disk': map<Path, File>, files: seq<Path>)
    requires SameFiles(disk, disk', files)
    ensures SizeOn(disk, files) == SizeOn(disk', files)
  {
    TotalSame(files, p => if p in disk then disk[p].bytes else 0, p => if p in disk' then disk'[p].bytes else 0);
  }

  lemma SameBelow(cfg: Config, disk: map<Path, File>, disk': map<Path, File>, files: seq<Path>)
    requires SameFiles(disk, disk', files)
    ensures BelowLimit(cfg, disk, files) == BelowLimit(cfg, disk', files)
    ensures SameFiles(disk, disk', BelowLimit(cfg, disk, files))
  {
    var keep := (p: Path) => p in disk && disk[p].bytes < cfg.keepAboveBytes;
    FilterSame(files, keep, p => p in disk' && disk'[p].bytes < cfg.keepAboveBytes);
    FilterMembers(files, keep);
  }

  lemma SelectsSame(cfg: Config, disk: map<Path, File>, disk': map<Path, File>, files: seq<Path>, now: Option<nat>,
                    inputs: Option<seq<Path>>, readable: Path -> bool)
    requires SameFiles(disk, disk', files)
    ensures Selects(cfg, disk, files, now, inputs) ==> Selects(cfg, disk', files, now, inputs)
    ensures Blocked(cfg, disk, files, now, readable) ==> Blocked(cfg, disk', files, now, readable)
  {
    hide BelowLimit, LongestRun;
    SameBelow(cfg, disk, disk', files);
    var small := BelowLimit(cfg, disk, files);
    forall run | LongestRun(cfg, disk, small, run) ensures LongestRun(cfg, disk', small, run) {
      SameRun(cfg, disk, disk', small, run);
    }
  }
}
