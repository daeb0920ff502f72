/** What the receiver's and the record loop's steps come to, case by case. */
module HecSteps {
  import opened SplitWal
  import opened HecAcks

  /** The room check lets a batch on exactly when the queue has room for all of it at that moment; one it turns away
      leaves nothing behind. */
  lemma RoomCheckIs(s: Setup, w: World, r: nat)
    requires Can(s, w, CheckRoom(r))
    ensures var w' := Do(s, w, CheckRoom(r)); var batch := w.receivers[r].batch;
      && (|w.queue| + |batch.records| <= s.capacity <==> r in w'.receivers)
      && (r in w'.receivers ==> w'.receivers[r] == Checked(batch, w.receivers[r].channel))
      && w'.receivers - {r} == w.receivers - {r} && w' == w.(receivers := w'.receivers)
  {
  }

  /** A batch the loop takes is last in line, and only one sent on a channel goes on to be issued an id. */
  lemma HandOffIs(s: Setup, w: World, r: nat, taken: bool)
    requires Can(s, w, HandOff(r, taken))
    ensures var w' := Do(s, w, HandOff(r, taken)); var batch, channel := w.receivers[r].batch, w.receivers[r].channel;
      && w'.handoff == w.handoff + (if taken then [batch] else [])
      && (r in w'.receivers <==> taken && channel.Some?)
      && (r in w'.receivers ==> w'.receivers[r] == Sent(batch.number, channel.value))
      && w'.receivers - {r} == w.receivers - {r} && w' == w.(receivers := w'.receivers, handoff := w'.handoff)
  {
    DoIs(s, w, HandOff(r, taken));
  }

  /** What became of a record, by what was true when it was processed. */
  ghost predicate FateDue(s: Setup, w: World, record: Entry, fate: Fate) {
    var held := w.critical && record.debug;
    match fate
    case Refused => s.refuses(record)
    case Held => !s.refuses(record) && held
    case Closed => !s.refuses(record) && !held && !w.writer.alive
    case Shed => !s.refuses(record) && !held && w.writer.alive && |w.queue| >= s.capacity
    case Enqueued => !s.refuses(record) && !held && w.writer.alive && |w.queue| < s.capacity
  }

  /** The next record of the open batch meets the one fate it is due; it is last in the queue exactly when that is to
      be enqueued, and the loop ends with the batch when the record cap is reached. */
  lemma ProcessIs(s: Setup, w: World)
    requires Can(s, w, Process)
    ensures var w' := Do(s, w, Process); var Inside(batch, done, _) := w.loop;
      var record, fates := batch.records[done], FatesOf(w', batch.number);
      && fates != [] && fates[..|fates|-1] == FatesOf(w, batch.number)
      && FateDue(s, w, record, fates[|fates|-1]) && (forall f :: FateDue(s, w, record, f) ==> f == fates[|fates|-1])
      && (if fates[|fates|-1].Enqueued? then
            w'.queue == w.queue + [Item(batch.number, done, record)] && w'.enqueued == w.enqueued + 1
          else w'.queue == w.queue && w'.enqueued == w.enqueued)
      && w'.count == w.count + 1
      && w'.loop == Inside(batch, done + 1, s.maxRecords > 0 && w.count + 1 >= s.maxRecords)
  {
    DoIs(s, w, Process);
    var batch := w.loop.batch;
    var fate := FateOf(s, w, batch.records[w.loop.done]);
    assert FateDue(s, w, batch.records[w.loop.done], fate);
    assert (FatesOf(w, batch.number) + [fate])[..|FatesOf(w, batch.number)|] == FatesOf(w, batch.number);
  }

  /** A record of another source meets its due fate too, and is enqueued behind the others. */
  lemma OtherIs(s: Setup, w: World, record: Entry)
    requires Can(s, w, Other(record))
    ensures var w' := Do(s, w, Other(record));
      && w'.queue == w.queue + (if FateDue(s, w, record, Enqueued) then [Item(0, w.count, record)] else [])
      && w'.enqueued == w.enqueued + (if FateDue(s, w, record, Enqueued) then 1 else 0)
      && w'.count == w.count + 1
      && (w'.loop.Stopped? <==> s.maxRecords > 0 && w.count + 1 >= s.maxRecords)
  {
    DoIs(s, w, Other(record));
    assert FateDue(s, w, record, Enqueued) <==> FateOf(s, w, record).Enqueued?;
    assert w.queue + [] == w.queue;
  }

  /** A processed batch is bound to the number of records enqueued up to then, its own and earlier ones. */
  lemma BindIs(s: Setup, w: World)
    requires Can(s, w, BindOpen)
    ensures var w' := Do(s, w, BindOpen); var number := w.loop.batch.number;
      && (forall q :: q in w'.table.watermarks <==> q in w.table.watermarks || q == number)
      && (forall q :: q in w'.table.watermarks ==>
            w'.table.watermarks[q] == if q == number then w.enqueued else w.table.watermarks[q])
      && w'.table.channels == w.table.channels
      && w'.loop == if w.loop.last then Stopped else Between
  {
    DoIs(s, w, BindOpen);
  }

  /** What the writer takes from the queue it takes from the front, and what it publishes is all that both logs hold,
      with both on disk. */
  lemma WriterIs(s: Setup, w: World, n: nat)
    ensures Can(s, w, Fetch(n)) ==>
      var w' := Do(s, w, Fetch(n)); w'.writer.hand + w'.queue == w.queue && |w'.writer.hand| == n
    ensures Can(s, w, Publish) ==>
      var w' := Do(s, w, Publish);
      && w'.synced == |w.writer.main.items| + |w.writer.late.items|
      && w.writer.main.synced == |w.writer.main.items| && w.writer.late.synced == |w.writer.late.items|
  {
  }
}
