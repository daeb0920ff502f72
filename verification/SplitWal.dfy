/** The write-ahead log: a main log and a late spool behind one writer, and the count of records it may
    publish as being on disk. */
module SplitWal {
  import opened Options
  import opened Routing
  import opened Sequences

  /** A record in the pipeline: `debug` says whether its severity is of the lowest class. */
  datatype Entry = Entry(body: string, timestamp: nat, debug: bool, attributes: seq<Attr>)

  /** A record with the batch it came in and its place there; batch 0 stands for every other source. */
  datatype Item = Item(batch: nat, index: nat, record: Entry)

  /** A log: the records appended to it, of which the first `synced` are on disk. */
  datatype Log = Log(items: seq<Item>, synced: nat)

  predicate OnDisk(l: Log, x: Item)
    requires l.synced <= |l.items|
  {
    x in l.items[..l.synced]
  }

  /** The items with an event time before the cutoff, or the others. */
  function Select(items: seq<Item>, cutoff: nat, late: bool): seq<Item> {
    if items == [] then []
    else
      var k := |items| - 1;
      Select(items[..k], cutoff, late) + if items[k].record.timestamp < cutoff <==> late then [items[k]] else []
  }

  lemma {:induction false} SelectMembers(items: seq<Item>, cutoff: nat, late: bool)
    ensures forall x :: x in Select(items, cutoff, late) <==> x in items && (x.record.timestamp < cutoff <==> late)
  {
    if items != [] {
      var k := |items| - 1;
      SelectMembers(items[..k], cutoff, late);
      assert items == items[..k] + [items[k]];
    }
  }

  /** The selection keeps the order. */
  lemma {:induction false} SelectKeepsOrder(items: seq<Item>, cutoff: nat)
    ensures Select(items, cutoff, true) == Filter(items, (x: Item) => x.record.timestamp < cutoff)
    ensures Select(items, cutoff, false) == Filter(items, (x: Item) => x.record.timestamp >= cutoff)
  {
    if items != [] { SelectKeepsOrder(items[..|items|-1], cutoff); }
  }

  /** The two selections share a batch out: each item goes to one. */
  lemma {:induction false} SelectPartitions(items: seq<Item>, cutoff: nat)
    ensures multiset(Select(items, cutoff, false)) + multiset(Select(items, cutoff, true)) == multiset(items)
    ensures |Select(items, cutoff, false)| + |Select(items, cutoff, true)| == |items|
  {
    hide Select;
    if items == [] {
      NothingSelected(cutoff);
    } else {
      var k := |items| - 1;
      SelectPartitions(items[..k], cutoff);
      SelectLast(items, cutoff);
      assert multiset(items) == multiset(items[..k]) + multiset{items[k]} by { assert items == items[..k] + [items[k]]; }
    }
  }

  lemma NothingSelected(cutoff: nat)
    ensures Select([], cutoff, false) == [] && Select([], cutoff, true) == []
  {
  }

  lemma SelectLast(items: seq<Item>, cutoff: nat)
    requires items != []
    ensures var k := |items| - 1;
      if items[k].record.timestamp < cutoff then
        && Select(items, cutoff, false) == Select(items[..k], cutoff, false)
        && Select(items, cutoff, true) == Select(items[..k], cutoff, true) + [items[k]]
      else
        && Select(items, cutoff, false) == Select(items[..k], cutoff, false) + [items[k]]
        && Select(items, cutoff, true) == Select(items[..k], cutoff, true)
  {
  }

  function Saturating(a: nat, b: nat): nat { if a > b then a - b else 0 }

  const FRAME_HEADER_BYTES: nat := 8
  const HEADER_BYTES: nat := 24

  /** One log's writer. Time and encoded sizes are passed in. */
  class LogWriter {
    const segmentBytes: nat
    const fsyncBytes: nat
    const rollAfter: Option<nat>
    var items: seq<Item>
    var syncedRecords: nat
    var reportedRecords: nat
    var unsyncedBytes: nat
    var currentLen: nat
    var currentStarted: nat
    var currentId: nat

    /** The byte count tells whether anything is left to sync. */
    ghost predicate Valid()
      reads this
    {
      && reportedRecords <= syncedRecords <= |items|
      && (unsyncedBytes == 0 <==> syncedRecords == |items|)
    }

    ghost function View(): Log
      reads this
    {
      Log(items, syncedRecords)
    }

    constructor (segmentBytes: nat, fsyncBytes: nat, rollAfter: Option<nat>, firstId: nat)
      ensures Valid() && View() == Log([], 0)
      ensures this.segmentBytes == segmentBytes && this.fsyncBytes == fsyncBytes && this.rollAfter == rollAfter
      ensures currentLen == HEADER_BYTES && currentStarted == 0 && currentId == firstId
      ensures reportedRecords == 0 && unsyncedBytes == 0
    {
      this.segmentBytes, this.fsyncBytes, this.rollAfter := segmentBytes, fsyncBytes, rollAfter;
      items, syncedRecords, reportedRecords, unsyncedBytes := [], 0, 0, 0;
      currentLen, currentStarted, currentId := HEADER_BYTES, 0, firstId;
    }

    method Sync()
      requires Valid()
      modifies this`syncedRecords, this`unsyncedBytes
      ensures Valid() && syncedRecords == |items| && unsyncedBytes == 0
    {
      unsyncedBytes := 0;
      syncedRecords := |items|;
    }

    method Roll()
      requires Valid()
      modifies this
      ensures Valid() && View() == Log(old(items), |old(items)|) && reportedRecords == old(reportedRecords)
      ensures unsyncedBytes == 0 && currentLen == HEADER_BYTES && currentStarted == 0 && currentId == old(currentId) + 1
    {
      Sync();
      currentId := currentId + 1;
      currentLen := HEADER_BYTES;
      currentStarted := 0;
    }

    /** The segment has records and has reached the roll period. */
    predicate Due(now: nat)
      reads this`currentStarted
    {
      rollAfter.Some? && currentStarted != 0 && Saturating(now, currentStarted) >= rollAfter.value
    }

    /** The frame of a payload fills the segment. */
    predicate Fills(payload: nat)
      reads this`currentLen
    {
      currentLen + FRAME_HEADER_BYTES + payload >= segmentBytes
    }

    method RollIfDue(now: nat) returns (due: bool)
      requires Valid()
      modifies this
      ensures Valid() && reportedRecords == old(reportedRecords) && items == old(items)
      ensures due == old(Due(now))
      ensures due ==> syncedRecords == |items| && currentStarted == 0 && unsyncedBytes == 0
      ensures due ==> currentLen == HEADER_BYTES && currentId == old(currentId) + 1
      ensures !due ==> syncedRecords == old(syncedRecords) && currentStarted == old(currentStarted)
      ensures !due ==> unsyncedBytes == old(unsyncedBytes) && currentLen == old(currentLen) && currentId == old(currentId)
    {
      if rollAfter.None? {
        return false;
      }
      due := currentStarted != 0 && Saturating(now, currentStarted) >= rollAfter.value;
      if due {
        Roll();
      }
    }

    /** Appends a frame. Nothing is synced, unless the frame fills the segment, which then rolls. */
    method Append(batch: seq<Item>, payload: nat)
      requires Valid()
      modifies this
      ensures Valid() && items == old(items) + batch && reportedRecords == old(reportedRecords)
      ensures batch != [] && old(Fills(payload)) ==>
        syncedRecords == |items| && currentId == old(currentId) + 1 && currentLen == HEADER_BYTES && currentStarted == 0
      ensures !(batch != [] && old(Fills(payload))) ==>
        syncedRecords == old(syncedRecords) && currentId == old(currentId) && currentStarted == old(currentStarted)
      ensures var frame := if batch == [] then 0 else FRAME_HEADER_BYTES + payload;
        if batch != [] && old(Fills(payload)) then unsyncedBytes == 0
        else currentLen == old(currentLen) + frame && unsyncedBytes == old(unsyncedBytes) + frame
    {
      if batch == [] {
        return;
      }
      var frame := FRAME_HEADER_BYTES + payload;
      currentLen := currentLen + frame;
      unsyncedBytes := unsyncedBytes + frame;
      items := items + batch;
      if currentLen >= segmentBytes {
        Roll();
      }
    }

    /** Appends in a log that rolls on age too: a segment that is due rolls first, which syncs what it held. */
    method AppendAt(batch: seq<Item>, payload: nat, now: nat)
      requires Valid()
      modifies this
      ensures Valid() && items == old(items) + batch && reportedRecords == old(reportedRecords)
      ensures batch == [] ==>
        && syncedRecords == old(syncedRecords) && currentId == old(currentId) && currentStarted == old(currentStarted)
        && currentLen == old(currentLen) && unsyncedBytes == old(unsyncedBytes)
      ensures batch != [] ==>
        var due, len := old(Due(now)), old(if Due(now) then HEADER_BYTES else currentLen);
        var full := len + FRAME_HEADER_BYTES + payload >= segmentBytes;
        && syncedRecords == (if full then |items| else if due then |old(items)| else old(syncedRecords))
        && currentId == old(currentId) + (if due then 1 else 0) + (if full then 1 else 0)
        && currentLen == (if full then HEADER_BYTES else len + FRAME_HEADER_BYTES + payload)
        && unsyncedBytes == (if full then 0 else (if due then 0 else old(unsyncedBytes)) + FRAME_HEADER_BYTES + payload)
        && currentStarted == (if full then 0 else if !due && old(currentStarted) != 0 then old(currentStarted)
                              else if now > 1 then now else 1)
    {
      if batch == [] {
        return;
      }
      var _ := RollIfDue(now);
      if currentStarted == 0 {
        currentStarted := if now > 1 then now else 1;
      }
      Append(batch, payload);
    }

    /** Syncs when the byte or time threshold is crossed, and says whether more is on disk than it last said. */
    method MaybeSync(elapsed: bool) returns (advanced: bool)
      requires Valid()
      modifies this`syncedRecords, this`reportedRecords, this`unsyncedBytes
      ensures Valid() && old(syncedRecords) <= syncedRecords
      ensures reportedRecords == syncedRecords && (advanced <==> syncedRecords > old(reportedRecords))
      ensures elapsed || old(unsyncedBytes) >= fsyncBytes ==> syncedRecords == |items| && unsyncedBytes == 0
      ensures !(elapsed || old(unsyncedBytes) >= fsyncBytes) ==>
        syncedRecords == old(syncedRecords) && unsyncedBytes == old(unsyncedBytes)
    {
      if unsyncedBytes > 0 && (unsyncedBytes >= fsyncBytes || elapsed) {
        Sync();
      }
      advanced := syncedRecords > reportedRecords;
      reportedRecords := syncedRecords;
    }
  }

  /** Both logs. A late record goes to the second one, so neither count alone says how far the stream is on
      disk. */
  class Logs {
    const main: LogWriter
    const late: LogWriter
    const lateThreshold: nat

    ghost predicate Valid()
      reads this, main, late
    {
      main != late && main.Valid() && late.Valid()
    }

    constructor (segmentBytes: nat, fsyncBytes: nat, lateSegmentBytes: nat, lateRoll: nat, lateThreshold: nat,
                 firstId: nat, firstLateId: nat)
      ensures Valid() && fresh(main) && fresh(late) && this.lateThreshold == lateThreshold
      ensures main.View() == Log([], 0) && late.View() == Log([], 0)
      ensures main.fsyncBytes == fsyncBytes && late.fsyncBytes == fsyncBytes
      ensures main.reportedRecords == late.reportedRecords == 0
    {
      main := new LogWriter(segmentBytes, fsyncBytes, None, firstId);
      late := new LogWriter(lateSegmentBytes, fsyncBytes, Some(lateRoll), firstLateId);
      this.lateThreshold := lateThreshold;
    }

    /** Splits a batch by event time: the late part to the late spool, the rest to the main log. */
    method Append(batch: seq<Item>, now: nat, payload: nat, latePayload: nat)
      requires Valid()
      modifies main, late
      ensures Valid()
      ensures main.items == old(main.items) + Select(batch, Saturating(now, lateThreshold), false)
      ensures late.items == old(late.items) + Select(batch, Saturating(now, lateThreshold), true)
      ensures main.items == old(main.items) + Filter(batch, (x: Item) => x.record.timestamp >= Saturating(now, lateThreshold))
      ensures late.items == old(late.items) + Filter(batch, (x: Item) => x.record.timestamp < Saturating(now, lateThreshold))
      ensures main.syncedRecords ==
        if |main.items| > |old(main.items)| && old(main.Fills(payload)) then |main.items| else old(main.syncedRecords)
      ensures late.syncedRecords ==
        if |late.items| == |old(late.items)| then old(late.syncedRecords)
        else if old(if late.Due(now) then HEADER_BYTES else late.currentLen) + FRAME_HEADER_BYTES + latePayload >= late.segmentBytes
          then |late.items|
        else if old(late.Due(now)) then |old(late.items)| else old(late.syncedRecords)
    {
      var cutoff := Saturating(now, lateThreshold);
      SelectKeepsOrder(batch, cutoff);
      hide Select;
      if forall x :: x in batch ==> x.record.timestamp >= cutoff {
        AllOnTime(batch, cutoff);
        main.Append(batch, payload);
        return;
      }
      main.Append(Select(batch, cutoff, false), payload);
      late.AppendAt(Select(batch, cutoff, true), latePayload, now);
    }

    /** Syncs what is left in either log and counts all that was appended. */
    method Sync() returns (count: nat)
      requires Valid()
      modifies main`syncedRecords, main`unsyncedBytes, late`syncedRecords, late`unsyncedBytes
      ensures Valid() && count == |main.items| + |late.items|
      ensures main.syncedRecords == |main.items| && late.syncedRecords == |late.items|
    {
      if main.unsyncedBytes > 0 {
        main.Sync();
      }
      if late.unsyncedBytes > 0 {
        late.Sync();
      }
      count := |main.items| + |late.items|;
    }

    /** A count is only given with both logs on disk up to their ends, and it is given exactly when either
        log had synced more than it last reported. */
    method MaybeSync(now: nat, elapsed: bool, lateElapsed: bool) returns (count: Option<nat>)
      requires Valid()
      modifies main, late
      ensures Valid() && main.items == old(main.items) && late.items == old(late.items)
      ensures count.None? ==>
        main.syncedRecords == old(main.syncedRecords) && late.syncedRecords == old(late.syncedRecords)
      ensures count.Some? ==> main.syncedRecords == |main.items| && late.syncedRecords == |late.items|
      ensures count.Some? ==> count.value == |main.items| + |late.items|
      ensures count.None? <==>
        main.syncedRecords == old(main.reportedRecords) && late.syncedRecords == old(late.reportedRecords)
      ensures count.Some? <==>
        || (if elapsed || old(main.unsyncedBytes) >= main.fsyncBytes then |main.items| else old(main.syncedRecords))
             > old(main.reportedRecords)
        || (if lateElapsed || old(late.unsyncedBytes) >= late.fsyncBytes || old(late.Due(now)) then |late.items|
            else old(late.syncedRecords)) > old(late.reportedRecords)
      ensures main.reportedRecords >= old(main.syncedRecords) && late.reportedRecords >= old(late.syncedRecords)
    {
      var _ := late.RollIfDue(now);
      var advanced := main.MaybeSync(elapsed);
      var lateAdvanced := late.MaybeSync(lateElapsed);
      if !advanced && !lateAdvanced {
        return None;
      }
      var n := Sync();
      count := Some(n);
    }
  }

  lemma {:induction false} AllOnTime(items: seq<Item>, cutoff: nat)
    requires forall x :: x in items ==> x.record.timestamp >= cutoff
    ensures Select(items, cutoff, false) == items && Select(items, cutoff, true) == []
  {
    if items != [] {
      var k := |items| - 1;
      assert items[k] in items && items == items[..k] + [items[k]];
      AllOnTime(items[..k], cutoff);
    }
  }
}
