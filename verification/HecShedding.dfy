/** When a batch loses records to shedding. The receiver admits a batch only when the
    queue has room for all of it, but the room is not reserved: batches handed off and not yet processed, and
    other sources, use the same room. */
module HecShedding {
  import opened AckTable
  import opened SplitWal
  import opened HecAcks
  import opened HecDurability
  import opened HecLosses

  function RecordsIn(batches: seq<Batch>): nat {
    if batches == [] then 0 else RecordsIn(batches[..|batches|-1]) + |batches[|batches|-1].records|
  }

  /** Records handed off that the loop has not processed yet. */
  function Promised(w: World): int {
    RecordsIn(w.handoff) + if w.loop.Inside? then |w.loop.batch.records| - w.loop.done else 0
  }

  /** The room check with what is already promised counted, made at the handoff itself, and kept by the other
      sources too. */
  predicate Roomy(s: Setup, w: World, step: Step) {
    match step
    case HandOff(r, true) =>
      r in w.receivers && w.receivers[r].Checked? && |w.queue| + Promised(w) + |w.receivers[r].batch.records| <= s.capacity
    case Other(_) => |w.queue| + Promised(w) < s.capacity
    case _ => true
  }

  ghost predicate LeadsRoomy(s: Setup, w: World, steps: seq<Step>, w': World)
    decreases |steps|
  {
    if steps == [] then w' == w
    else
      Can(s, w, steps[0]) && Roomy(s, w, steps[0]) && LeadsRoomy(s, Do(s, w, steps[0]), steps[1..], w')
  }

  ghost predicate RoomInv(s: Setup, w: World) {
    && |w.queue| + Promised(w) <= s.capacity
    && (w.loop.Inside? ==> w.loop.done <= |w.loop.batch.records|)
    && forall q :: q in w.past.fates ==> Shed !in w.past.fates[q]
  }

  lemma {:induction false} RecordsInRest(batches: seq<Batch>)
    requires batches != []
    ensures RecordsIn(batches) == |batches[0].records| + RecordsIn(batches[1..])
  {
    if |batches| > 1 {
      var init := batches[..|batches|-1];
      RecordsInRest(init);
      assert init[1..] == batches[1..][..|batches| - 2];
    }
  }

  /** What room depends on. */
  lemma SameRoom(s: Setup, w: World, w': World)
    requires RoomInv(s, w) && |w'.queue| <= |w.queue| && w'.handoff == w.handoff && w'.past.fates == w.past.fates
    requires w'.loop == w.loop || (!w'.loop.Inside? && (w.loop.Inside? ==> w.loop.done <= |w.loop.batch.records|))
    ensures RoomInv(s, w')
  {
  }

  lemma OpenKeepsRoom(s: Setup, w: World)
    requires RoomInv(s, w) && w.handoff != [] && w.loop.Between?
    ensures RoomInv(s, DoOpen(w))
  {
    RecordsInRest(w.handoff);
    hide RecordsIn;
  }

  lemma HandOffKeepsRoom(s: Setup, w: World, r: nat, taken: bool)
    requires RoomInv(s, w) && Can(s, w, HandOff(r, taken)) && Roomy(s, w, HandOff(r, taken))
    ensures RoomInv(s, DoHandOff(w, r, taken))
  {
    var all := w.handoff + [w.receivers[r].batch];
    assert all[..|all|-1] == w.handoff;
  }

  lemma OtherKeepsRoom(s: Setup, w: World, record: Entry)
    requires RoomInv(s, w) && w.loop.Between? && Roomy(s, w, Other(record))
    ensures RoomInv(s, DoOther(s, w, record))
  {
    hide RecordsIn, AtCap, FateOf;
  }

  lemma StepKeepsRoom(s: Setup, w: World, step: Step)
    requires RoomInv(s, w) && Can(s, w, step) && Roomy(s, w, step)
    ensures RoomInv(s, Do(s, w, step))
  {
    OpenBatchIsWithin(s, w);
    hide RoomInv, Promised, Roomy, DoReceiver, DoLoop, DoWriter;
    if OfLoop(step) {
      LoopKeepsRoom(s, w, step);
    } else if step.HandOff? {
      HandOffKeepsRoom(s, w, step.receiver, step.taken);
      DoIs(s, w, step);
    } else {
      if OfReceiver(step) {
        ReceiverShape(s, w, step);
      } else if OfWriter(step) {
        WriterShape(w, step);
      }
      SameRoom(s, w, Do(s, w, step));
    }
  }

  lemma LoopKeepsRoom(s: Setup, w: World, step: Step)
    requires RoomInv(s, w) && OfLoop(step) && Can(s, w, step) && Roomy(s, w, step)
    ensures RoomInv(s, DoLoop(s, w, step))
  {
    OpenBatchIsWithin(s, w);
    hide RoomInv, Promised, Roomy, Bind, BindIn;
    match step
    case Process => ProcessKeepsRoom(s, w);
    case Open => OpenKeepsRoom(s, w);
    case Other(record) => OtherKeepsRoom(s, w, record);
    case BindOpen => SameRoom(s, w, DoBind(w));
    case LeaveLoop => SameRoom(s, w, w.(loop := Stopped));
  }

  lemma OpenBatchIsWithin(s: Setup, w: World)
    requires RoomInv(s, w)
    ensures w.loop.Inside? ==> w.loop.done <= |w.loop.batch.records|
  {
  }

  lemma ProcessKeepsRoom(s: Setup, w: World)
    requires RoomInv(s, w) && Can(s, w, Process)
    ensures RoomInv(s, DoProcess(s, w))
  {
    hide AtCap, RecordsIn;
    var w', q := DoProcess(s, w), w.loop.batch.number;
    assert Shed !in FatesOf(w, q);
  }

  /** With the room counted that way, nothing of any batch is ever shed. */
  lemma {:induction false} RoomyRunsShedNothing(s: Setup, w: World, steps: seq<Step>, w': World)
    requires RoomInv(s, w) && LeadsRoomy(s, w, steps, w')
    ensures RoomInv(s, w')
    decreases |steps|
  {
    hide RoomInv, Can, Do, Roomy;
    if steps != [] {
      StepKeepsRoom(s, w, steps[0]);
      RoomyRunsShedNothing(s, Do(s, w, steps[0]), steps[1..], w');
    }
  }

  lemma NothingShed(s: Setup, steps: seq<Step>, w: World, q: nat, i: nat)
    requires LeadsRoomy(s, Start(), steps, w) && q in w.past.fates && i < |w.past.fates[q]|
    ensures !w.past.fates[q][i].Shed?
  {
    RoomyRunsShedNothing(s, Start(), steps, w);
    assert w.past.fates[q][i] in w.past.fates[q];
  }

  // ---- exactly when an open batch can lose a record

  /** Some way of going on sheds a record of batch `q`. */
  ghost predicate CanShed(s: Setup, w: World, q: nat) {
    exists w' :: Reaches(s, w, w') && Shed in FatesOf(w', q)
  }

  function Rest(w: World): int
    requires w.loop.Inside?
  {
    |w.loop.batch.records| - w.loop.done
  }

  /** Nothing of the opened batch `q` is shed, and while it is open the queue has room for the rest. */
  ghost predicate Safe(s: Setup, w: World, q: nat) {
    && q in w.past.records && Shed !in FatesOf(w, q)
    && (w.loop.Inside? && w.loop.batch.number == q ==> |w.queue| + Rest(w) <= s.capacity && Rest(w) >= 0)
  }

  lemma SameSafe(s: Setup, w: World, w': World, q: nat)
    requires Safe(s, w, q) && w'.past.records == w.past.records && w'.past.fates == w.past.fates
    requires !w'.loop.Inside? || (w'.loop == w.loop && |w'.queue| <= |w.queue|)
    ensures Safe(s, w', q)
  {
  }

  lemma LoopKeepsSafe(s: Setup, w: World, step: Step, q: nat)
    requires HandoffInv(w) && Safe(s, w, q) && (step.Open? || step.Process?) && Can(s, w, step)
    ensures Safe(s, DoLoop(s, w, step), q)
  {
    hide AtCap;
    if step.Open? {
      assert w.handoff[0].number != q;
    }
    assert FatesOf(w, q) == FatesOf(DoLoop(s, w, step), q) || w.loop.batch.number == q;
  }

  lemma StepKeepsSafe(s: Setup, w: World, step: Step, q: nat)
    requires NumbersInv(w) && Safe(s, w, q) && Can(s, w, step)
    ensures Safe(s, Do(s, w, step), q)
  {
    hide Safe, ReceiversInv, HandoffInv, OpenedInv, DoReceiver, DoLoop, DoWriter;
    if step.Open? || step.Process? {
      LoopKeepsSafe(s, w, step, q);
    } else {
      if OfReceiver(step) {
        ReceiverShape(s, w, step);
      } else if OfLoop(step) {
        LoopShape(s, w, step);
      } else if OfWriter(step) {
        WriterShape(w, step);
      }
      SameSafe(s, w, Do(s, w, step), q);
    }
  }

  lemma {:induction false} RunKeepsSafe(s: Setup, w: World, steps: seq<Step>, w': World, q: nat)
    requires Inv(s, w) && Safe(s, w, q) && Leads(s, w, steps, w')
    ensures Safe(s, w', q)
    decreases |steps|
  {
    hide Safe, Can, Do, LogsInv, BatchesInv, TableInv, NumbersInv;
    if steps != [] {
      StepInv(s, w, steps[0]);
      StepKeepsSafe(s, w, steps[0], q);
      RunKeepsSafe(s, Do(s, w, steps[0]), steps[1..], w', q);
    }
  }

  /** With too little room and no pressure, processing on while the writer stands still reaches a shed record. */
  lemma {:induction false} NoRoomCanShed(s: Setup, w: World)
    requires s.maxRecords == 0 && w.writer.alive && w.loop.Inside? && !w.loop.last && !w.critical
    requires Routed(s, w.loop.batch) && |w.queue| + Rest(w) > s.capacity && Rest(w) > 0
    ensures CanShed(s, w, w.loop.batch.number)
    decreases Rest(w)
  {
    var q, w' := w.loop.batch.number, Do(s, w, Process);
    Stay(s, w);
    Onward(s, w, w, Process);
    assert w.loop.batch.records[w.loop.done] in w.loop.batch.records;
    if |w.queue| >= s.capacity {
      assert Shed in FatesOf(w', q);
    } else {
      NoRoomCanShed(s, w');
      var w'' :| Reaches(s, w', w'') && Shed in FatesOf(w'', q);
      Further(s, w, w', w'');
    }
  }

  /** A batch is opened safe from shedding if and only if the queue then has room for all of it. */
  lemma ShedsIffNoRoom(s: Setup, w: World)
    requires Inv(s, w) && RoutedInv(s, w) && s.maxRecords == 0 && w.writer.alive && w.loop.Inside? && w.loop.done == 0
    requires w.loop.batch.records != []
    ensures CanShed(s, w, w.loop.batch.number) <==> |w.queue| + |w.loop.batch.records| > s.capacity
  {
    hide LogsInv, TableInv, ReceiversInv, HandoffInv, Waits, IsIssued;
    var q := w.loop.batch.number;
    assert OpenBatch(s, w) && q in w.past.records;
    if |w.queue| + |w.loop.batch.records| > s.capacity {
      var calm := Do(s, w, Press(false));
      Stay(s, w);
      Onward(s, w, w, Press(false));
      NoRoomCanShed(s, calm);
      var w' :| Reaches(s, calm, w') && Shed in FatesOf(w', q);
      Further(s, w, calm, w');
    } else if CanShed(s, w, q) {
      hide BatchesInv;
      var w' :| Reaches(s, w, w') && Shed in FatesOf(w', q);
      var steps :| Leads(s, w, steps, w');
      RunKeepsSafe(s, w, steps, w', q);
    }
  }
}
