/** Disk-pressure relief: which files are deleted ahead of their retention, and that a successful relief is
    not followed by another. */
module Reclaim {
  import opened Options
  import opened MapSums
  import opened Sequences
  import Sorting

  /** A catalog row as reclaim sees it. Paths are numbered in their own order; `retention` is that of the
      file's bucket, `None` when the tenant, index or bucket is not configured; `inStore` says whether the
      path lies inside the store directory. */
  datatype Entry = Entry(path: nat, partition: string, retention: Option<nat>, minTs: int, bytes: nat, rows: nat, inStore: bool)

  const UNKNOWN_RETENTION: nat := 0xFFFF_FFFF_FFFF_FFFF

  function RetentionOf(e: Entry): nat { if e.retention.Some? then e.retention.value else UNKNOWN_RETENTION }

  /** Cheapest data first, then oldest event, then path. */
  predicate AtOrBefore(a: Entry, b: Entry) {
    || RetentionOf(a) < RetentionOf(b)
    || (RetentionOf(a) == RetentionOf(b) && (a.minTs < b.minTs || (a.minTs == b.minTs && a.path <= b.path)))
  }

  ghost predicate Ordered(s: seq<Entry>) {
    forall i, j :: 0 <= i < j < |s| ==> AtOrBefore(s[i], s[j])
  }

  /** The order spelled out: by retention, one not known counting as the longest there is; among equals the older
      event, then the path. */
  predicate Precedes(a: Entry, b: Entry) {
    var tie := a.minTs < b.minTs || (a.minTs == b.minTs && a.path <= b.path);
    match (a.retention, b.retention)
    case (Some(x), Some(y)) => x < y || (x == y && tie)
    case (Some(x), None) => x < 0xFFFF_FFFF_FFFF_FFFF || (x == 0xFFFF_FFFF_FFFF_FFFF && tie)
    case (None, Some(y)) => y > 0xFFFF_FFFF_FFFF_FFFF || (y == 0xFFFF_FFFF_FFFF_FFFF && tie)
    case (None, None) => tie
  }

  ghost predicate InOrder(s: seq<Entry>) {
    forall i, j :: 0 <= i < j < |s| ==> Precedes(s[i], s[j])
  }

  method SortFiles(files: seq<Entry>) returns (s: seq<Entry>)
    ensures Ordered(s) && InOrder(s) && multiset(s) == multiset(files)
  {
    s := Sorting.Sort(files, AtOrBefore);
  }

  // ---- the selection

  /** The files a reclaim can take: inside the store, and the delete works. */
  function Deletable(s: seq<Entry>, deletes: nat -> bool): seq<Entry> {
    if s == [] then []
    else
      var rest := Deletable(s[1..], deletes);
      if s[0].inStore && deletes(s[0].path) then [s[0]] + rest else rest
  }

  /** What is left of `used` after the files go. */
  function Left(used: nat, files: seq<Entry>): nat {
    if files == [] then used
    else
      var before := Left(used, files[..|files|-1]);
      var last := files[|files|-1].bytes;
      if before > last then before - last else 0
  }

  /** The greedy choice: files from the front while above the target. */
  function Taken(s: seq<Entry>, used: nat, target: nat): seq<Entry> {
    if s == [] || used <= target then []
    else [s[0]] + Taken(s[1..], if used > s[0].bytes then used - s[0].bytes else 0, target)
  }

  lemma {:induction false} LeftOfFirst(used: nat, first: Entry, rest: seq<Entry>)
    ensures Left(used, [first] + rest) == Left(if used > first.bytes then used - first.bytes else 0, rest)
  {
    var all := [first] + rest;
    if rest == [] {
      assert all[..0] == [] && all[0] == first;
    } else {
      LeftOfFirst(used, first, rest[..|rest|-1]);
      assert all[..|all|-1] == [first] + rest[..|rest|-1];
    }
  }

  /** Greedy is minimal: the taken files are a prefix, no shorter prefix reaches the target, and the taken
      ones reach it unless they are all there is. */
  lemma {:induction false} TakenIsShortest(s: seq<Entry>, used: nat, target: nat)
    ensures Taken(s, used, target) <= s
    ensures forall k :: 0 <= k < |Taken(s, used, target)| ==> Left(used, s[..k]) > target
    ensures Left(used, Taken(s, used, target)) <= target || Taken(s, used, target) == s
  {
    hide Left;
    EmptyTotals(used);
    var taken := Taken(s, used, target);
    if s != [] && used > target {
      var less := if used > s[0].bytes then used - s[0].bytes else 0;
      TakenIsShortest(s[1..], less, target);
      LeftOfFirst(used, s[0], Taken(s[1..], less, target));
      forall k | 0 <= k < |taken| ensures Left(used, s[..k]) > target {
        if k > 0 {
          LeftOfFirst(used, s[0], s[1..][..k - 1]);
          assert s[..k] == [s[0]] + s[1..][..k - 1];
        }
      }
      assert s == [s[0]] + s[1..];
    }
  }

  /** Only one prefix is the shortest that reaches the target. */
  lemma ShortestIsUnique(s: seq<Entry>, used: nat, target: nat, other: seq<Entry>)
    requires other <= s && (forall k :: 0 <= k < |other| ==> Left(used, s[..k]) > target)
    requires Left(used, other) <= target || other == s
    ensures other == Taken(s, used, target)
  {
    TakenIsShortest(s, used, target);
    var taken := Taken(s, used, target);
    assert taken == s[..|taken|] && other == s[..|other|];
  }

  /** A lower target takes the same files and then more. */
  lemma LowerTargetExtends(s: seq<Entry>, used: nat, high: nat, low: nat)
    requires low <= high
    ensures Taken(s, used, high) <= Taken(s, used, low)
  {
    TakenIsShortest(s, used, high);
    TakenIsShortest(s, used, low);
    var a, b := Taken(s, used, high), Taken(s, used, low);
    assert a == s[..|a|] && b == s[..|b|];
    assert |a| <= |b|;
  }

  datatype Report = Report(dropped: seq<Entry>, bytes: nat, rows: nat, touched: set<string>, exhausted: bool, pinnedKept: nat)

  function PartitionsOf(files: seq<Entry>): set<string> { set e | e in files :: e.partition }

  function Bytes(files: seq<Entry>): nat {
    if files == [] then 0 else Bytes(files[..|files|-1]) + files[|files|-1].bytes
  }

  function RowsIn(files: seq<Entry>): nat {
    if files == [] then 0 else RowsIn(files[..|files|-1]) + files[|files|-1].rows
  }

  /** The report a selection over the ordered files amounts to. */
  function ReportFor(ordered: seq<Entry>, used: nat, target: nat, deletes: nat -> bool): Report {
    var taken := Taken(Deletable(ordered, deletes), used, target);
    Report(taken, Bytes(taken), RowsIn(taken), PartitionsOf(taken), Left(used, taken) > target, 0)
  }

  /** `report` is the selection over some ordering of the files. */
  ghost predicate Selected(report: Report, files: seq<Entry>, used: nat, target: nat, deletes: nat -> bool) {
    exists ordered :: Ordered(ordered) && multiset(ordered) == multiset(files) && report == ReportFor(ordered, used, target, deletes)
  }

  /** The report due: of the files in order, those inside the store whose delete works, up to the first at which
      what is left of `used` is within the target. */
  ghost predicate ReportDue(report: Report, files: seq<Entry>, used: nat, target: nat, deletes: nat -> bool) {
    exists ordered :: InOrder(ordered) && multiset(ordered) == multiset(files)
      && ShortestFreeing(report.dropped, Filter(ordered, (e: Entry) => e.inStore && deletes(e.path)), used, target)
      && Totalled(report, used, target)
  }

  function SizeOf(files: seq<Entry>): nat { Total(files, (e: Entry) => e.bytes) }

  ghost predicate ShortestFreeing(dropped: seq<Entry>, candidates: seq<Entry>, used: nat, target: nat) {
    && dropped <= candidates
    && (forall k :: 0 <= k < |dropped| ==> used > target + SizeOf(candidates[..k]))
    && (used <= target + SizeOf(dropped) || dropped == candidates)
  }

  ghost predicate Totalled(report: Report, used: nat, target: nat) {
    && report.bytes == SizeOf(report.dropped) && report.rows == Total(report.dropped, (e: Entry) => e.rows)
    && (forall x :: x in report.touched <==> exists e :: e in report.dropped && e.partition == x)
    && (report.exhausted <==> used > target + SizeOf(report.dropped))
  }

  lemma {:induction false} TotalsAre(files: seq<Entry>, used: nat)
    ensures Bytes(files) == SizeOf(files) && RowsIn(files) == Total(files, (e: Entry) => e.rows)
    ensures Left(used, files) == if used > SizeOf(files) then used - SizeOf(files) else 0
  {
    if files != [] { TotalsAre(files[..|files|-1], used); }
  }

  lemma {:induction false} DeletableIs(s: seq<Entry>, deletes: nat -> bool)
    ensures Deletable(s, deletes) == Filter(s, (e: Entry) => e.inStore && deletes(e.path))
  {
    if s != [] {
      var keep := (e: Entry) => e.inStore && deletes(e.path);
      DeletableIs(s[1..], deletes);
      FilterJoins([s[0]], s[1..], keep);
      FilterOne(s[0], keep);
      assert s == [s[0]] + s[1..];
    }
  }

  /** The greedy selection over ordered files makes the report due. */
  lemma ReportForIsDue(ordered: seq<Entry>, files: seq<Entry>, used: nat, target: nat, deletes: nat -> bool)
    requires InOrder(ordered) && multiset(ordered) == multiset(files)
    ensures ReportDue(ReportFor(ordered, used, target, deletes), files, used, target, deletes)
  {
    hide InOrder, Deletable, Taken, Left, Bytes, RowsIn, SizeOf;
    var all, report := Deletable(ordered, deletes), ReportFor(ordered, used, target, deletes);
    DeletableIs(ordered, deletes);
    TakenIsShortest(all, used, target);
    TotalsAre(report.dropped, used);
    forall k | 0 <= k < |report.dropped| ensures used > target + SizeOf(all[..k]) { TotalsAre(all[..k], used); }
    assert ShortestFreeing(report.dropped, all, used, target);
    assert Totalled(report, used, target);
  }

  lemma AppendTotals(files: seq<Entry>, e: Entry, used: nat)
    ensures Bytes(files + [e]) == Bytes(files) + e.bytes && RowsIn(files + [e]) == RowsIn(files) + e.rows
    ensures PartitionsOf(files + [e]) == PartitionsOf(files) + {e.partition}
    ensures Left(used, files + [e]) == if Left(used, files) > e.bytes then Left(used, files) - e.bytes else 0
  {
    assert (files + [e])[..|files|] == files;
  }

  /** The selection loop, with the deletion injected. A file outside the store is never deleted. */
  method ReclaimFiles(files: seq<Entry>, used: nat, target: nat, deletes: nat -> bool) returns (report: Report)
    ensures Selected(report, files, used, target, deletes) && ReportDue(report, files, used, target, deletes)
  {
    hide Ordered, InOrder, ReportDue, Taken, Deletable, Left, Bytes, RowsIn;
    var ordered := SortFiles(files);
    ReportForIsDue(ordered, files, used, target, deletes);
    if used <= target {
      UnderTarget(ordered, used, target, deletes);
      return Report([], 0, 0, {}, false, 0);
    }
    report := TakeWhileOver(ordered, used, target, deletes);
  }

  lemma UnderTarget(ordered: seq<Entry>, used: nat, target: nat, deletes: nat -> bool)
    requires used <= target
    ensures ReportFor(ordered, used, target, deletes) == Report([], 0, 0, {}, false, 0)
  {
  }

  method TakeWhileOver(s: seq<Entry>, used: nat, target: nat, deletes: nat -> bool) returns (report: Report)
    ensures report == ReportFor(s, used, target, deletes)
  {
    hide Bytes, RowsIn, Left, Deletable, Taken, PartitionsOf;
    ghost var all := Taken(Deletable(s, deletes), used, target);
    var left: nat, bytes: nat, rows: nat := used, 0, 0;
    var dropped: seq<Entry>, touched: set<string> := [], {};
    EmptyTotals(used);
    assert s[0..] == s;
    for i := 0 to |s|
      invariant all == dropped + Taken(Deletable(s[i..], deletes), left, target)
      invariant left == Left(used, dropped) && bytes == Bytes(dropped) && rows == RowsIn(dropped)
      invariant touched == PartitionsOf(dropped)
    {
      if left <= target {
        NothingMore(s, left, target, deletes);
        assert dropped == all;
        break;
      }
      NextDeletable(s, i, deletes);
      if !s[i].inStore {
        continue;
      }
      if !deletes(s[i].path) {
        continue;
      }
      ghost var rest := Deletable(s[i + 1..], deletes);
      NextTaken(s[i], rest, left, target);
      assert Deletable(s[i..], deletes) == [s[i]] + rest;
      AppendTotals(dropped, s[i], used);
      left := if left > s[i].bytes then left - s[i].bytes else 0;
      assert all == dropped + [s[i]] + Taken(rest, left, target);
      bytes := bytes + s[i].bytes;
      rows := rows + s[i].rows;
      touched := touched + {s[i].partition};
      dropped := dropped + [s[i]];
    }
    NothingMore(s, left, target, deletes);
    assert dropped == all;
    report := Report(dropped, bytes, rows, touched, left > target, 0);
  }

  lemma NothingMore(s: seq<Entry>, left: nat, target: nat, deletes: nat -> bool)
    ensures Taken(Deletable(s[|s|..], deletes), left, target) == []
    ensures left <= target ==> forall rest :: Taken(rest, left, target) == []
  {
    assert s[|s|..] == [];
  }

  lemma EmptyTotals(used: nat)
    ensures Left(used, []) == used && Bytes([]) == 0 && RowsIn([]) == 0 && PartitionsOf([]) == {}
  {
  }

  lemma NextDeletable(s: seq<Entry>, i: nat, deletes: nat -> bool)
    requires i < |s|
    ensures Deletable(s[i..], deletes)
         == var rest := Deletable(s[i + 1..], deletes);
            if s[i].inStore && deletes(s[i].path) then [s[i]] + rest else rest
  {
    assert s[i..][0] == s[i] && s[i..][1..] == s[i + 1..];
  }

  lemma NextTaken(e: Entry, rest: seq<Entry>, left: nat, target: nat)
    requires left > target
    ensures Taken([e] + rest, left, target) == [e] + Taken(rest, if left > e.bytes then left - e.bytes else 0, target)
  {
    assert ([e] + rest)[1..] == rest;
  }

  // ---- pressure

  datatype Watermarks = Watermarks(high: real, critical: real, reclaimTarget: real)

  /** The order policy validation enforces. */
  predicate Sane(wm: Watermarks) {
    0.0 < wm.reclaimTarget < wm.high < wm.critical <= 1.0
  }

  datatype Pressure = Normal | High | Critical

  function Fraction(used: nat, budget: nat): real {
    if budget == 0 then 0.0 else used as real / budget as real
  }

  function PressureAt(used: nat, budget: nat, wm: Watermarks): Pressure {
    var f := Fraction(used, budget);
    if f >= wm.critical then Critical else if f >= wm.high then High else Normal
  }

  /** The cast to an unsigned integer floors, and takes a negative product to zero. */
  function TargetBytes(budget: nat, wm: Watermarks): nat {
    var target := (budget as real * wm.reclaimTarget).Floor;
    if target < 0 then 0 else target
  }

  /** The pressure in bytes: critical from the critical share of the budget, high from the high one. */
  lemma PressureIs(used: nat, budget: nat, wm: Watermarks)
    requires budget > 0
    ensures PressureAt(used, budget, wm) ==
      if used as real >= wm.critical * budget as real then Critical
      else if used as real >= wm.high * budget as real then High
      else Normal
  {
    Share(used as real, budget as real, wm.critical);
    Share(used as real, budget as real, wm.high);
  }

  lemma Share(u: real, b: real, w: real)
    requires b > 0.0
    ensures u / b >= w <==> u >= w * b
  {
    var q := u / b;
    assert q * b == u;
    if q >= w { Scaled(w, q, b); }
    if q < w { ScaledStrictly(q, w, b); }
  }

  lemma Scaled(x: real, y: real, b: real)
    requires x <= y && b > 0.0
    ensures x * b <= y * b
  {
  }

  lemma ScaledStrictly(x: real, y: real, b: real)
    requires x < y && b > 0.0
    ensures x * b < y * b
  {
  }

  /** A relief is called for: the store holds the high or the critical share of the budget. */
  predicate CalledFor(used: nat, budget: nat, wm: Watermarks) {
    if budget == 0 then wm.high <= 0.0 || wm.critical <= 0.0
    else used as real >= wm.high * budget as real || used as real >= wm.critical * budget as real
  }

  lemma NormalIs(used: nat, budget: nat, wm: Watermarks)
    ensures PressureAt(used, budget, wm) == Normal <==> !CalledFor(used, budget, wm)
  {
    if budget > 0 { PressureIs(used, budget, wm); }
  }

  /** The target is the whole bytes of its share of the budget. */
  lemma TargetIs(budget: nat, wm: Watermarks)
    requires wm.reclaimTarget >= 0.0
    ensures TargetBytes(budget, wm) as real <= wm.reclaimTarget * budget as real < TargetBytes(budget, wm) as real + 1.0
  {
    Scaled(0.0, wm.reclaimTarget, budget as real + 1.0);
  }

  /** Anything at or below the reclaim target is under no pressure. */
  lemma UnderTargetIsNormal(used: nat, budget: nat, wm: Watermarks)
    requires Sane(wm) && used <= TargetBytes(budget, wm)
    ensures PressureAt(used, budget, wm) == Normal
  {
    if budget > 0 {
      assert used as real <= budget as real * wm.reclaimTarget;
      Quotient(used as real, budget as real, wm.reclaimTarget);
    }
  }

  lemma Quotient(u: real, b: real, t: real)
    requires b > 0.0 && u <= b * t
    ensures u / b <= t
  {
  }

  // ---- the pass

  ghost function BytesByPath(catalog: map<nat, Entry>): map<nat, nat> {
    map p | p in catalog :: catalog[p].bytes
  }

  ghost function StoreBytes(catalog: map<nat, Entry>): nat { Sum(BytesByPath(catalog)) }

  ghost predicate DistinctPaths(files: seq<Entry>) {
    forall i, j :: 0 <= i < j < |files| ==> files[i].path != files[j].path
  }

  /** `files` are rows of the catalog, each at most once. */
  ghost predicate RowsOf(files: seq<Entry>, catalog: map<nat, Entry>) {
    DistinctPaths(files) && forall e :: e in files ==> e.path in catalog && catalog[e.path] == e
  }

  function PathsOf(files: seq<Entry>): set<nat> { set e | e in files :: e.path }

  lemma DropOne(catalog: map<nat, Entry>, path: nat)
    requires path in catalog
    ensures StoreBytes(catalog) == StoreBytes(catalog - {path}) + catalog[path].bytes
  {
    SumWithout(BytesByPath(catalog), path);
    assert BytesByPath(catalog) - {path} == BytesByPath(catalog - {path});
  }

  lemma LastPath(files: seq<Entry>)
    requires files != [] && DistinctPaths(files)
    ensures var k := |files| - 1;
      PathsOf(files) == PathsOf(files[..k]) + {files[k].path} && files[k].path !in PathsOf(files[..k])
  {
    var k := |files| - 1;
    assert files == files[..k] + [files[k]];
    forall e | e in files[..k] ensures e.path != files[k].path { var i :| 0 <= i < k && files[..k][i] == e; }
  }

  /** Forgetting files lowers the measured bytes by exactly theirs. */
  lemma {:induction false} ForgottenBytes(catalog: map<nat, Entry>, files: seq<Entry>)
    requires RowsOf(files, catalog)
    ensures StoreBytes(catalog) == StoreBytes(catalog - PathsOf(files)) + Bytes(files)
  {
    hide StoreBytes;
    if files == [] {
      assert catalog - PathsOf(files) == catalog;
    } else {
      var k := |files| - 1;
      var init, last := files[..k], files[k];
      assert last in files && forall e :: e in init ==> e in files;
      ForgottenBytes(catalog, init);
      LastPath(files);
      hide PathsOf;
      var rest := catalog - PathsOf(init);
      DropOne(rest, last.path);
      assert rest - {last.path} == catalog - PathsOf(files);
    }
  }

  lemma {:induction false} DeletableIn(s: seq<Entry>, deletes: nat -> bool)
    ensures forall e :: e in Deletable(s, deletes) ==> e in s && e.inStore && deletes(e.path)
    ensures DistinctPaths(s) ==> DistinctPaths(Deletable(s, deletes))
  {
    if s != [] {
      var rest := Deletable(s[1..], deletes);
      DeletableIn(s[1..], deletes);
      if DistinctPaths(s) {
        forall e | e in rest ensures e.path != s[0].path {
          assert e in s[1..];
          var i :| 0 <= i < |s[1..]| && s[1..][i] == e;
          assert s[i + 1] == e;
        }
      }
    }
  }

  lemma SameRows(ordered: seq<Entry>, files: seq<Entry>, catalog: map<nat, Entry>)
    requires multiset(ordered) == multiset(files) && RowsOf(files, catalog)
    ensures RowsOf(ordered, catalog)
  {
    forall e | e in ordered ensures e in files { assert e in multiset(ordered); }
    forall i, j | 0 <= i < j < |ordered| ensures ordered[i].path != ordered[j].path {
      if ordered[i].path == ordered[j].path {
        assert ordered[i] in ordered && ordered[j] in ordered && ordered[i] == ordered[j];
        Sorting.Twice(ordered, i, j);
        assert Sorting.NoRepeats(files);
        Sorting.Once(files, ordered[i]);
        assert false;
      }
    }
  }

  /** A dry run deletes nothing, so no delete can fail. */
  function Attempt(deletes: nat -> bool, dryRun: bool): (r: nat -> bool)
    ensures forall p: nat :: r(p) <==> dryRun || deletes(p)
  {
    if dryRun then p => true else deletes
  }

  /** The files not pinned, and the pinned ones. */
  function Free(files: seq<Entry>, pinned: set<nat>): seq<Entry> { Filter(files, (e: Entry) => e.path !in pinned) }

  function Pinned(files: seq<Entry>, pinned: set<nat>): seq<Entry> { Filter(files, (e: Entry) => e.path in pinned) }

  class Store {
    var catalog: map<nat, Entry>
    var walBytes: nat

    constructor (rows: map<nat, Entry>, wal: nat)
      ensures catalog == rows && walBytes == wal
    {
      catalog, walBytes := rows, wal;
    }

    /** Bytes in use: the log and the files the catalog lists. */
    ghost function Used(): nat
      reads this
    {
      walBytes + StoreBytes(catalog)
    }

    /** Frees space, never choosing a pinned file; `listing` is the catalog's rows in any order. Without
        `dryRun` the dropped files leave the catalog. */
    method ReclaimPinned(listing: seq<Entry>, used: nat, budget: nat, wm: Watermarks, pinned: set<nat>,
                         deletes: nat -> bool, dryRun: bool)
      returns (report: Report)
      requires RowsOf(listing, catalog) && used == Used()
      modifies this`catalog
      ensures ReportDue(report.(pinnedKept := 0), Free(listing, pinned), used, TargetBytes(budget, wm), Attempt(deletes, dryRun))
      ensures forall e :: e in report.dropped ==>
        e in listing && e.path !in pinned && e.inStore && (dryRun || deletes(e.path))
      ensures report.pinnedKept == |Pinned(listing, pinned)|
      ensures catalog == if dryRun then old(catalog) else old(catalog) - PathsOf(report.dropped)
      ensures report.exhausted <==> used - SizeOf(report.dropped) > TargetBytes(budget, wm)
      ensures !dryRun ==> Used() == old(Used()) - SizeOf(report.dropped)
      ensures Sane(wm) && !dryRun && !report.exhausted ==> PressureAt(Used(), budget, wm) == Normal
    {
      hide StoreBytes, Bytes, SizeOf, ReportDue, Selected, Free, Pinned, Unpinned, RowsOf, PathsOf, PressureAt, TargetBytes, Sane;
      UnpinnedIs(listing, pinned);
      UnpinnedRows(listing, pinned, catalog);
      var free := Unpinned(listing, pinned);
      var works := Attempt(deletes, dryRun);
      var target := TargetBytes(budget, wm);
      report := ReclaimFiles(free, used, target, works);
      SelectedMeans(report, free, used, target, works, catalog);
      assert report == report.(pinnedKept := 0);
      report := report.(pinnedKept := |listing| - |free|);
      if !dryRun {
        catalog := catalog - PathsOf(report.dropped);
        if Sane(wm) && !report.exhausted {
          UnderTargetIsNormal(used - SizeOf(report.dropped), budget, wm);
        }
      }
    }

    /** The relief half of a maintenance pass: nothing is attempted under normal pressure. */
    method Relieve(listing: seq<Entry>, used: nat, budget: nat, wm: Watermarks, pinned: set<nat>, deletes: nat -> bool)
      returns (report: Option<Report>)
      requires RowsOf(listing, catalog) && used == Used()
      modifies this`catalog
      ensures report.Some? <==> CalledFor(old(Used()), budget, wm)
      ensures report.None? ==> catalog == old(catalog)
      ensures Sane(wm) && report.Some? && !report.value.exhausted ==> PressureAt(Used(), budget, wm) == Normal
      ensures report.Some? ==>
        catalog == old(catalog) - PathsOf(report.value.dropped) && Used() == old(Used()) - SizeOf(report.value.dropped)
    {
      NormalIs(used, budget, wm);
      hide StoreBytes, SizeOf, ReportDue, Free, Pinned, PressureAt, TargetBytes, Sane, CalledFor, RowsOf, PathsOf;
      if PressureAt(used, budget, wm) == Normal {
        return None;
      }
      var r := ReclaimPinned(listing, used, budget, wm, pinned, deletes, false);
      report := Some(r);
    }
  }

  function Unpinned(files: seq<Entry>, pinned: set<nat>): (r: seq<Entry>)
    ensures |r| <= |files|
    ensures forall e :: e in r <==> e in files && e.path !in pinned
  {
    if files == [] then []
    else
      var rest := Unpinned(files[1..], pinned);
      if files[0].path in pinned then rest else [files[0]] + rest
  }

  lemma {:induction false} UnpinnedIs(files: seq<Entry>, pinned: set<nat>)
    ensures Unpinned(files, pinned) == Free(files, pinned)
    ensures |Unpinned(files, pinned)| + |Pinned(files, pinned)| == |files|
  {
    hide Free, Pinned;
    PinnedNext(files, pinned);
    if files != [] { UnpinnedIs(files[1..], pinned); }
  }

  lemma PinnedNext(files: seq<Entry>, pinned: set<nat>)
    ensures files == [] ==> Free(files, pinned) == [] && Pinned(files, pinned) == []
    ensures files != [] ==>
      && Free(files, pinned) == (if files[0].path in pinned then [] else [files[0]]) + Free(files[1..], pinned)
      && Pinned(files, pinned) == (if files[0].path in pinned then [files[0]] else []) + Pinned(files[1..], pinned)
  {
    if files != [] {
      var keep, pin := (e: Entry) => e.path !in pinned, (e: Entry) => e.path in pinned;
      assert files == [files[0]] + files[1..];
      FilterJoins([files[0]], files[1..], keep);
      FilterJoins([files[0]], files[1..], pin);
      FilterOne(files[0], keep);
      FilterOne(files[0], pin);
    }
  }

  lemma {:induction false} UnpinnedDistinct(files: seq<Entry>, pinned: set<nat>)
    requires DistinctPaths(files)
    ensures DistinctPaths(Unpinned(files, pinned))
  {
    if files != [] {
      var tail := files[1..];
      UnpinnedDistinct(tail, pinned);
      forall e | e in Unpinned(tail, pinned) ensures e.path != files[0].path {
        var i :| 0 <= i < |tail| && tail[i] == e;
        assert files[i + 1] == e;
      }
    }
  }

  lemma UnpinnedRows(files: seq<Entry>, pinned: set<nat>, catalog: map<nat, Entry>)
    requires RowsOf(files, catalog)
    ensures RowsOf(Unpinned(files, pinned), catalog)
  {
    hide Unpinned, DistinctPaths;
    UnpinnedDistinct(files, pinned);
  }

  /** A selection from catalog rows drops rows of the catalog, and forgetting them frees their bytes. */
  lemma SelectedMeans(report: Report, files: seq<Entry>, used: nat, target: nat, deletes: nat -> bool, catalog: map<nat, Entry>)
    requires Selected(report, files, used, target, deletes) && RowsOf(files, catalog)
    ensures report.pinnedKept == 0
    ensures forall e :: e in report.dropped ==> e in files && e.inStore && deletes(e.path)
    ensures StoreBytes(catalog) == StoreBytes(catalog - PathsOf(report.dropped)) + SizeOf(report.dropped)
    ensures report.exhausted <==> used > target + SizeOf(report.dropped)
  {
    hide StoreBytes, Deletable, Taken, Bytes, RowsIn, Left, Ordered, DistinctPaths, SizeOf, PathsOf;
    var ordered :| Ordered(ordered) && multiset(ordered) == multiset(files)
                   && report == ReportFor(ordered, used, target, deletes);
    SameRows(ordered, files, catalog);
    TakenRows(ordered, used, target, deletes, catalog);
    Sorting.SameElements(ordered, files);
    ForgottenBytes(catalog, report.dropped);
    TotalsAre(report.dropped, used);
  }

  lemma RowsLeft(files: seq<Entry>, gone: set<nat>, catalog: map<nat, Entry>)
    requires RowsOf(files, catalog)
    ensures RowsOf(Unpinned(files, gone), catalog - gone)
  {
    hide Unpinned, DistinctPaths;
    UnpinnedRows(files, gone, catalog);
  }

  lemma TakenRows(ordered: seq<Entry>, used: nat, target: nat, deletes: nat -> bool, catalog: map<nat, Entry>)
    requires RowsOf(ordered, catalog)
    ensures var taken := Taken(Deletable(ordered, deletes), used, target);
      RowsOf(taken, catalog) && forall e :: e in taken ==> e in ordered && e.inStore && deletes(e.path)
  {
    hide Deletable, Taken;
    DeletableIn(ordered, deletes);
    TakenIsShortest(Deletable(ordered, deletes), used, target);
    var taken, all := Taken(Deletable(ordered, deletes), used, target), Deletable(ordered, deletes);
    assert taken == all[..|taken|];
    assert forall e :: e in taken ==> e in all;
  }

  /** Hysteresis: with no new bytes, a pass whose relief was not exhausted, or that attempted none, is
      followed by one that attempts nothing. */
  method TwoPasses(store: Store, listing: seq<Entry>, used: nat, budget: nat, wm: Watermarks, pinned: set<nat>,
                   deletes: nat -> bool)
    returns (one: Option<Report>, two: Option<Report>)
    requires RowsOf(listing, store.catalog) && used == store.Used()
    modifies store
    ensures one.None? ==> two.None? && store.Used() == old(store.Used())
    ensures Sane(wm) && one.Some? && !one.value.exhausted ==>
      two.None? && store.Used() == old(store.Used()) - SizeOf(one.value.dropped)
  {
    hide SizeOf, StoreBytes, PressureAt, Sane, CalledFor, RowsOf;
    one := store.Relieve(listing, used, budget, wm, pinned, deletes);
    if one.None? {
      two := store.Relieve(listing, used, budget, wm, pinned, deletes);
    } else {
      NormalIs(store.Used(), budget, wm);
      var gone := PathsOf(one.value.dropped);
      RowsLeft(listing, gone, old(store.catalog));
      two := store.Relieve(Unpinned(listing, gone), used - SizeOf(one.value.dropped), budget, wm, pinned, deletes);
    }
  }
}
