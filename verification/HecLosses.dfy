/** Exactly when an acknowledged batch can be missing a record on disk. An acknowledgement says that the
    records the queue accepted are durable; it does not say that every record was accepted. */
module HecLosses {
  import opened Options
  import opened AckTable
  import opened SplitWal
  import opened HecAcks
  import opened HecDurability
  import Admission

  // ---- routing refuses nothing of a batch

  ghost predicate Routed(s: Setup, b: Batch) {
    forall x :: x in b.records ==> !s.refuses(x)
  }

  /** Every batch on its way holds only records that routing lets through, and none was refused. */
  ghost predicate RoutedInv(s: Setup, w: World) {
    && (forall r :: r in w.receivers && !w.receivers[r].Sent? ==> Routed(s, w.receivers[r].batch))
    && (forall j :: 0 <= j < |w.handoff| ==> Routed(s, w.handoff[j]))
    && (w.loop.Inside? ==> Routed(s, w.loop.batch))
    && (forall q :: q in w.past.fates ==> Refused !in w.past.fates[q])
  }

  lemma SameRouted(s: Setup, w: World, w': World)
    requires RoutedInv(s, w) && w'.receivers == w.receivers && w'.handoff == w.handoff && w'.past.fates == w.past.fates
    requires w'.loop == w.loop || !w'.loop.Inside?
    ensures RoutedInv(s, w')
  {
    hide Routed;
  }

  lemma ReceiverIsRouted(s: Setup, w: World, step: Step)
    requires RoutedInv(s, w) && Can(s, w, step) && (step.Take? || step.CheckRoom? || step.HandOff? || step.IssueAck?)
    ensures RoutedInv(s, Do(s, w, step))
  {
    hide Issue, IssueIn, Routed;
    if step.Take? {
      TakenIsRouted(s, Batch(w.nextBatch, step.records));
    }
  }

  lemma ProcessIsRouted(s: Setup, w: World)
    requires RoutedInv(s, w) && Can(s, w, Process)
    ensures RoutedInv(s, DoProcess(s, w))
  {
    OpenIsRouted(s, w);
    hide Routed, AtCap, FateOf;
  }

  lemma StepKeepsRouted(s: Setup, w: World, step: Step)
    requires RoutedInv(s, w) && Can(s, w, step)
    ensures RoutedInv(s, Do(s, w, step))
  {
    hide RoutedInv, DoLoop, DoWriter;
    DoIs(s, w, step);
    if OfReceiver(step) {
      ReceiverIsRouted(s, w, step);
    } else if step.Process? {
      ProcessIsRouted(s, w);
    } else if step.Open? {
      OpenedIsRouted(s, w);
    } else {
      if OfLoop(step) {
        LoopShape(s, w, step);
      } else if OfWriter(step) {
        WriterShape(w, step);
      }
      SameRouted(s, w, Do(s, w, step));
    }
  }

  lemma OpenedIsRouted(s: Setup, w: World)
    requires RoutedInv(s, w) && w.handoff != []
    ensures RoutedInv(s, DoOpen(w))
  {
    hide Routed;
  }

  lemma TakenIsRouted(s: Setup, b: Batch)
    requires forall x :: x in b.records ==> !s.refuses(x)
    ensures Routed(s, b)
  {
  }

  lemma OpenIsRouted(s: Setup, w: World)
    requires w.loop.Inside? && Routed(s, w.loop.batch) && w.loop.done < |w.loop.batch.records|
    ensures !FateOf(s, w, w.loop.batch.records[w.loop.done]).Refused?
  {
  }

  /** The routing of the record loop, for a tenancy. */
  function Refuses(t: Routing.Tenancy): Entry -> bool
    requires Routing.Sound(t)
  {
    (x: Entry) => Routing.RouteRecord(t, Routing.Record(x.attributes, x.body), Routing.ATTR_INDEX).0.Refused?
  }

  /** A batch that admission kept and the receiver routed again under its own key is refused nothing: what
      `Take` asks of a batch, the receiver has seen to. */
  lemma AdmittedIsRouted(t: Routing.Tenancy, p: Admission.Principal, records: seq<Routing.Record>, key: string,
                         r: Routing.Record, timestamp: nat, debug: bool)
    requires Routing.Sound(t) && key != Routing.ATTR_TENANT && r in Admission.Kept(t, p, records, key)
    ensures var (route, placed) := Routing.RouteRecord(t, r, key);
      !route.Refused? && !Refuses(t)(Entry(placed.body, timestamp, debug, placed.attributes))
  {
    hide Routing.RouteRecord, Admission.Kept;
    Admission.AdmissionPlaces(t, p, records, key);
    var index :| Admission.Settles(t, p, r, key, index);
    Routing.BoundIsKnown(t, r, key, key, p.tenant, index);
    var placed := Routing.RouteRecord(t, r, key).1;
    Routing.BoundIsKnown(t, placed, key, Routing.ATTR_INDEX, p.tenant, index);
    assert placed == Routing.Record(placed.attributes, placed.body);
  }

  // ---- runs that go on

  ghost predicate Reaches(s: Setup, w: World, w': World) {
    exists steps :: Leads(s, w, steps, w')
  }

  lemma {:induction false} LeadsOn(s: Setup, w: World, steps: seq<Step>, w1: World, more: seq<Step>, w2: World)
    requires Leads(s, w, steps, w1) && Leads(s, w1, more, w2)
    ensures Leads(s, w, steps + more, w2)
    decreases |steps|
  {
    hide Can, Do;
    if steps == [] {
      assert steps + more == more;
    } else {
      LeadsOn(s, Do(s, w, steps[0]), steps[1..], w1, more, w2);
      assert (steps + more)[1..] == steps[1..] + more;
    }
  }

  lemma Stay(s: Setup, w: World)
    ensures Reaches(s, w, w)
  {
    assert Leads(s, w, [], w);
  }

  lemma Onward(s: Setup, w: World, w1: World, step: Step)
    requires Reaches(s, w, w1) && Can(s, w1, step)
    ensures Reaches(s, w, Do(s, w1, step))
  {
    hide Can, Do;
    var steps :| Leads(s, w, steps, w1);
    assert Leads(s, Do(s, w1, step), [step][1..], Do(s, w1, step));
    LeadsOn(s, w, steps, w1, [step], Do(s, w1, step));
  }

  lemma Further(s: Setup, w: World, w1: World, w2: World)
    requires Reaches(s, w, w1) && Reaches(s, w1, w2)
    ensures Reaches(s, w, w2)
  {
    hide Leads;
    var steps :| Leads(s, w, steps, w1);
    var more :| Leads(s, w1, more, w2);
    LeadsOn(s, w, steps, w1, more, w2);
  }

  lemma ReachesInv(s: Setup, w: World, w': World)
    requires Inv(s, w) && Reaches(s, w, w')
    ensures Inv(s, w')
  {
    hide Inv, Leads;
    var steps :| Leads(s, w, steps, w');
    RunInv(s, w, steps, w');
  }

  // ---- the law

  /** The batch's id has been issued, or a receiver is about to issue it. */
  ghost predicate AckComes(w: World, q: nat) {
    IsIssued(w.past.ledger, q) || exists r :: r in w.receivers && w.receivers[r].Sent? && w.receivers[r].number == q
  }

  /** Id `id` of the channel is of batch `q` and reports true, and record `i` of the batch is not on disk. */
  ghost predicate AckedWithout(w: World, q: nat, channel: string, id: nat, i: nat) {
    && id < |IssuedOn(w.past.ledger, channel)| && IssuedOn(w.past.ledger, channel)[id] == q
    && Answer(w.table, channel, id, w.synced)
    && q in w.past.records && i < |w.past.records[q]|
    && LogsInv(w) && !Durable(w, Item(q, i, w.past.records[q][i]))
  }

  ghost predicate AckedInPart(w: World, q: nat) {
    exists channel, id: nat, i: nat :: AckedWithout(w, q, channel, id, i)
  }

  /** Some way of going on acknowledges batch `q` in part. */
  ghost predicate CanLose(s: Setup, w: World, q: nat) {
    exists w' :: Reaches(s, w, w') && AckedInPart(w', q)
  }

  predicate HasDebug(records: seq<Entry>) {
    exists i :: 0 <= i < |records| && records[i].debug
  }

  /** What puts an open batch at risk: no room for all of it, a record of the lowest class while disk pressure
      is or can become critical, or a writer that can fail or be told to stop. With the writer gone nothing is
      accepted any more, and the batch is acknowledged all the same if nothing before it is outstanding; so it is
      once the writer has taken its last batch, if nothing was queued since. */
  predicate AtRisk(s: Setup, w: World)
    requires w.loop.Inside?
  {
    var records := w.loop.batch.records;
    && records != []
    && if !w.writer.alive then w.synced == w.enqueued
       else if w.stop.Draining? then w.queue == []
       else
         || s.breakable || s.stoppable || w.stop.Signalled?
         || |w.queue| + |records| > s.capacity
         || (HasDebug(records) && (w.critical || s.pressable))
  }

  // ---- at risk: a run that loses

  /** Everything but the queue, the logs and the published count is as it was. */
  ghost predicate SameBut(w: World, w': World) {
    && w'.table == w.table && w'.receivers == w.receivers && w'.loop == w.loop && w'.past == w.past
    && w'.enqueued == w.enqueued && w'.critical == w.critical && w'.stop == w.stop
  }

  /** A living writer can append all that is queued, until it has taken its last batch. */
  lemma AppendAll(s: Setup, w: World) returns (w': World)
    requires LogsInv(w) && w.writer.alive && (w.stop.Draining? ==> w.queue == [])
    ensures Reaches(s, w, w') && SameBut(w, w') && LogsInv(w')
    ensures w'.writer.alive && w'.writer.hand == [] && w'.queue == []
  {
    hide LogsInv, Select, Reaches, DoReceiver, DoLoop;
    w' := Do(s, w, Append(0));
    Stay(s, w);
    Onward(s, w, w, Append(0));
    StepKeepsLogs(s, w, Append(0));
    if !w.stop.Draining? {
      var w1 := w';
      var w2 := Do(s, w1, Fetch(|w1.queue|));
      w' := Do(s, w2, Append(0));
      Onward(s, w, w1, Fetch(|w1.queue|));
      Onward(s, w, w2, Append(0));
      StepKeepsLogs(s, w1, Fetch(|w1.queue|));
      StepKeepsLogs(s, w2, Append(0));
    }
  }

  /** And then sync and publish it: it catches up. */
  lemma CatchUp(s: Setup, w: World) returns (w': World)
    requires LogsInv(w) && w.writer.alive && (w.stop.Draining? ==> w.queue == [])
    ensures Reaches(s, w, w') && SameBut(w, w') && w'.writer.alive && w'.synced == w'.enqueued
    ensures w'.writer.hand == [] && w'.queue == [] && AllPublished(w') && LogsInv(w')
  {
    hide LogsInv, Reaches, DoReceiver, DoLoop;
    var w3 := AppendAll(s, w);
    AllWritten(w3);
    var w4 := Do(s, w3, SyncMain);
    var w5 := Do(s, w4, SyncLate);
    w' := Do(s, w5, Publish);
    Onward(s, w, w3, SyncMain);
    Onward(s, w, w4, SyncLate);
    Onward(s, w, w5, Publish);
    StepKeepsLogs(s, w3, SyncMain);
    StepKeepsLogs(s, w4, SyncLate);
    StepKeepsLogs(s, w5, Publish);
  }

  /** Told to stop, a writer that has caught up can end with nothing outstanding. */
  lemma EndNow(s: Setup, w: World) returns (w': World)
    requires LogsInv(w) && w.writer.alive && (w.stop.Draining? ==> w.queue == [])
    requires s.stoppable || !w.stop.Running?
    ensures Reaches(s, w, w') && w'.loop == w.loop && w'.receivers == w.receivers && w'.past == w.past
    ensures !w'.writer.alive && w'.synced == w'.enqueued
  {
    hide LogsInv, Reaches, DoReceiver, DoLoop;
    w' := CatchUp(s, w);
    if w'.stop.Running? {
      Onward(s, w, w', Signal);
      w' := Do(s, w', Signal);
    }
    if w'.stop.Signalled? {
      Onward(s, w, w', DrainQueue);
      w' := Do(s, w', DrainQueue);
    }
    Onward(s, w, w', End);
    w' := Do(s, w', End);
  }

  lemma AllWritten(w: World)
    requires LogsInv(w) && w.writer.alive && w.writer.hand == [] && w.queue == []
    ensures Written(w) == w.enqueued
  {
    assert |w.past.accepted[Written(w)..]| == 0;
  }

  /** Something of the rest of the open batch will not be enqueued, if the rest is processed now. */
  predicate WillLose(s: Setup, w: World)
    requires w.loop.Inside? && w.loop.done <= |w.loop.batch.records|
  {
    var rest := w.loop.batch.records[w.loop.done..];
    rest != [] && (!w.writer.alive || |w.queue| + |rest| > s.capacity || (w.critical && HasDebug(rest)))
  }

  ghost predicate Missing(w: World, q: nat) {
    exists i :: 0 <= i < |FatesOf(w, q)| && !FatesOf(w, q)[i].Enqueued?
  }

  /** Processing the rest of the batch. */
  lemma {:induction false} FinishBatch(s: Setup, w: World) returns (w': World)
    requires s.maxRecords == 0 && w.loop.Inside? && !w.loop.last && w.loop.done <= |w.loop.batch.records|
    ensures Reaches(s, w, w') && w'.loop == Inside(w.loop.batch, |w.loop.batch.records|, false)
    ensures w'.writer == w.writer && w'.receivers == w.receivers && w'.synced == w.synced && w'.stop == w.stop
    ensures w'.past.ledger == w.past.ledger && (!w.writer.alive ==> w'.enqueued == w.enqueued)
    ensures WillLose(s, w) || Missing(w, w.loop.batch.number) ==> Missing(w', w.loop.batch.number)
    decreases |w.loop.batch.records| - w.loop.done
  {
    hide Reaches;
    Stay(s, w);
    w' := w;
    if w.loop.done < |w.loop.batch.records| {
      var w1 := Do(s, w, Process);
      Onward(s, w, w, Process);
      ProcessOne(s, w);
      w' := FinishBatch(s, w1);
      Further(s, w, w1, w');
    }
  }

  lemma ProcessOne(s: Setup, w: World)
    requires s.maxRecords == 0 && Can(s, w, Process)
    ensures var w1 := Do(s, w, Process);
      && w1.loop == Inside(w.loop.batch, w.loop.done + 1, false) && w1.writer == w.writer && w1.stop == w.stop
      && (WillLose(s, w) ==> WillLose(s, w1) || Missing(w1, w.loop.batch.number))
      && (Missing(w, w.loop.batch.number) ==> Missing(w1, w.loop.batch.number))
  {
    var w1, q, done, records := Do(s, w, Process), w.loop.batch.number, w.loop.done, w.loop.batch.records;
    var fate := FateOf(s, w, records[done]);
    var before := FatesOf(w, q);
    assert FatesOf(w1, q) == before + [fate];
    if Missing(w, q) {
      var i :| 0 <= i < |before| && !before[i].Enqueued?;
      assert FatesOf(w1, q)[i] == before[i];
    }
    if !fate.Enqueued? {
      assert FatesOf(w1, q)[|before|] == fate;
    } else if WillLose(s, w) {
      var rest := records[done..];
      assert records[done + 1..] == rest[1..] && rest[0] == records[done];
      if w.critical && HasDebug(rest) {
        var i :| 0 <= i < |rest| && rest[i].debug;
        assert rest[1..][i - 1].debug;
      }
    }
  }

  /** The batch bound and its id issued. */
  lemma BindAndIssue(s: Setup, w: World) returns (w': World)
    requires Inv(s, w) && w.loop.Inside? && w.loop.done == |w.loop.batch.records| && AckComes(w, w.loop.batch.number)
    ensures var q := w.loop.batch.number;
      && Reaches(s, w, w') && w'.writer == w.writer && w'.synced == w.synced && w'.enqueued == w.enqueued
      && w'.stop == w.stop
      && q in w'.past.ledger.bound && IsIssued(w'.past.ledger, q) && FatesOf(w', q) == FatesOf(w, q)
  {
    hide Reaches, Issue, Bind, LogsInv, BatchesInv, TableInv, HandoffInv, Waits;
    var q := w.loop.batch.number;
    var w1 := Do(s, w, BindOpen);
    Stay(s, w);
    Onward(s, w, w, BindOpen);
    w' := w1;
    BindKeepsIssued(w.past.ledger, q, w.enqueued);
    if !IsIssued(w.past.ledger, q) {
      var r :| r in w.receivers && w.receivers[r].Sent? && w.receivers[r].number == q;
      w' := Do(s, w1, IssueAck(r, 0));
      Onward(s, w, w1, IssueAck(r, 0));
      assert q in IssuedOn(w'.past.ledger, w.receivers[r].ackOn);
    }
  }

  /** A bound and issued batch with everything published is acknowledged, whatever it lost. */
  lemma MissingIsAcked(s: Setup, w: World, q: nat)
    requires Inv(s, w) && s.maxRecords == 0 && q in w.past.ledger.bound && IsIssued(w.past.ledger, q)
    requires w.synced == w.enqueued && Missing(w, q)
    ensures AckedInPart(w, q)
  {
    hide Tracks, Answer, Durable, ReceiversInv, HandoffInv, Waits;
    var channel :| channel in w.past.ledger.issued && q in w.past.ledger.issued[channel];
    var id :| 0 <= id < |w.past.ledger.issued[channel]| && w.past.ledger.issued[channel][id] == q;
    assert Settled(s, w, q);
    AnswersAreTheLedgers(w.table, w.past.ledger, channel, id, w.synced, w.synced);
    var i :| 0 <= i < |FatesOf(w, q)| && !FatesOf(w, q)[i].Enqueued?;
    AcceptedIffDurable(s, w, q, i);
    assert AckedWithout(w, q, channel, id, i);
  }

  /** The world just before the loss: the pressure on, or the writer caught up and then gone. */
  lemma Prepare(s: Setup, w: World) returns (w': World)
    requires LogsInv(w) && w.loop.Inside? && w.loop.done == 0 && AtRisk(s, w)
    ensures Reaches(s, w, w') && w'.loop == w.loop && w'.receivers == w.receivers && w'.past == w.past
    ensures WillLose(s, w') && (if w'.writer.alive then w'.stop.Running? else w'.synced == w'.enqueued)
  {
    hide Reaches, LogsInv;
    Stay(s, w);
    w' := w;
    assert w.loop.batch.records[0..] == w.loop.batch.records;
    if w.writer.alive && (s.stoppable || !w.stop.Running?) {
      w' := EndNow(s, w);
    } else if w.writer.alive && |w.queue| + |w.loop.batch.records| <= s.capacity {
      if s.breakable {
        var w1 := CatchUp(s, w);
        w' := Do(s, w1, Fail(None));
        Onward(s, w, w1, Fail(None));
      } else if !w.critical {
        w' := Do(s, w, Press(true));
        Onward(s, w, w, Press(true));
      }
    }
  }

  lemma RiskIsReal(s: Setup, w: World)
    requires Inv(s, w) && s.maxRecords == 0 && w.loop.Inside? && w.loop.done == 0 && AckComes(w, w.loop.batch.number)
    requires AtRisk(s, w)
    ensures CanLose(s, w, w.loop.batch.number)
  {
    hide Reaches, LogsInv, NumbersInv, BatchesInv, TableInv, AckedInPart, Missing, WillLose;
    var q := w.loop.batch.number;
    var w1 := Prepare(s, w);
    ReachesInv(s, w, w1);
    OpenIsNotLast(s, w1);
    var w2 := FinishBatch(s, w1);
    ReachesInv(s, w1, w2);
    var w3 := BindAndIssue(s, w2);
    ReachesInv(s, w2, w3);
    FatesStay(w2, w3, q);
    Further(s, w, w1, w2);
    Further(s, w, w2, w3);
    if w3.writer.alive {
      var w4 := CatchUp(s, w3);
      ReachesInv(s, w3, w4);
      FatesStay(w3, w4, q);
      Further(s, w, w3, w4);
      MissingIsAcked(s, w4, q);
    } else {
      MissingIsAcked(s, w3, q);
    }
  }

  lemma OpenIsNotLast(s: Setup, w: World)
    requires Inv(s, w) && s.maxRecords == 0 && w.loop.Inside?
    ensures !w.loop.last
  {
    hide LogsInv, NumbersInv, TableInv;
    assert OpenBatch(s, w);
  }

  lemma FatesStay(w: World, w': World, q: nat)
    requires FatesOf(w', q) == FatesOf(w, q) && Missing(w, q)
    ensures Missing(w', q)
  {
  }

  // ---- not at risk: no run loses

  /** The writer and the record loop are there for good, the open batch has room for its rest and nothing to be
      held back, and what was processed of it was enqueued. */
  ghost predicate Sheltered(s: Setup, w: World, q: nat) {
    && w.writer.alive && !s.breakable && !s.stoppable && w.stop.Running?
    && s.maxRecords == 0 && !w.loop.Stopped? && (w.loop.Inside? ==> !w.loop.last)
    && q in w.past.records && (HasDebug(w.past.records[q]) ==> !w.critical && !s.pressable)
    && (forall i :: 0 <= i < |FatesOf(w, q)| ==> FatesOf(w, q)[i].Enqueued?)
    && (w.loop.Inside? && w.loop.batch.number == q ==>
          && w.loop.batch.records == w.past.records[q]
          && 0 <= w.loop.done <= |w.loop.batch.records|
          && |w.queue| + |w.loop.batch.records| - w.loop.done <= s.capacity)
  }

  /** What being sheltered depends on. */
  lemma SameShelter(s: Setup, w: World, w': World, q: nat)
    requires Sheltered(s, w, q) && w'.writer.alive && w'.stop == w.stop && (w'.critical ==> w.critical || s.pressable)
    requires w'.past.records == w.past.records && w'.past.fates == w.past.fates
    requires w'.loop.Between? || (w'.loop == w.loop && |w'.queue| <= |w.queue|)
    ensures Sheltered(s, w', q)
  {
    hide HasDebug;
    assert FatesOf(w', q) == FatesOf(w, q);
  }

  lemma OpenIsSheltered(s: Setup, w: World, q: nat)
    requires HandoffInv(w) && Sheltered(s, w, q) && w.handoff != [] && w.loop.Between?
    ensures Sheltered(s, DoOpen(w), q)
  {
    hide HasDebug;
    assert w.handoff[0].number != q && FatesOf(DoOpen(w), q) == FatesOf(w, q);
  }

  lemma StepKeepsSheltered(s: Setup, w: World, step: Step, q: nat)
    requires HandoffInv(w) && RoutedInv(s, w) && Sheltered(s, w, q) && Can(s, w, step)
    ensures Sheltered(s, Do(s, w, step), q)
  {
    ShelterMeans(s, w, q);
    hide Sheltered, HandoffInv, RoutedInv, DoReceiver, DoLoop, DoWriter;
    DoIs(s, w, step);
    if step.Process? {
      ProcessIsSheltered(s, w, q);
    } else if step.Open? {
      OpenIsSheltered(s, w, q);
    } else {
      if OfReceiver(step) {
        ReceiverShape(s, w, step);
      } else if OfLoop(step) {
        LoopShape(s, w, step);
        BetweenAgain(s, w, step);
      } else if OfWriter(step) {
        WriterShape(w, step);
      }
      SameShelter(s, w, Do(s, w, step), q);
    }
  }

  /** Without a record cap or a stop, the record loop goes on. */
  lemma BetweenAgain(s: Setup, w: World, step: Step)
    requires OfLoop(step) && !step.Open? && !step.Process? && Can(s, w, step)
    requires s.maxRecords == 0 && w.stop.Running? && (w.loop.Inside? ==> !w.loop.last)
    ensures DoLoop(s, w, step).loop.Between?
  {
    hide Bind, BindIn, FateOf;
  }

  lemma ShelterMeans(s: Setup, w: World, q: nat)
    requires Sheltered(s, w, q)
    ensures w.writer.alive && !s.breakable && !s.stoppable && w.stop.Running? && s.maxRecords == 0
    ensures !w.loop.Stopped? && (w.loop.Inside? ==> !w.loop.last)
  {
  }

  lemma ProcessIsSheltered(s: Setup, w: World, q: nat)
    requires RoutedInv(s, w) && Sheltered(s, w, q) && Can(s, w, Process)
    ensures Sheltered(s, DoProcess(s, w), q)
  {
    var w' := DoProcess(s, w);
    var Inside(batch, done, _) := w.loop;
    var record := batch.records[done];
    assert record in batch.records;
    if batch.number == q {
      assert record.debug ==> HasDebug(w.past.records[q]);
      assert FatesOf(w', q) == FatesOf(w, q) + [FateOf(s, w, record)];
    } else {
      assert FatesOf(w', q) == FatesOf(w, q);
    }
  }

  /** The writer is gone, or will take nothing more, with something accepted that it does not have; and the batch
      waits for more than will ever be published. */
  ghost predicate Stranded(w: World, q: nat, n: nat) {
    && w.synced < n <= w.enqueued && (q in w.past.ledger.bound ==> w.past.ledger.bound[q] >= n)
    && (w.writer.alive ==> w.stop.Draining? && Written(w) + |w.writer.hand| < n)
  }

  lemma StepKeepsStranded(s: Setup, w: World, step: Step, q: nat, n: nat)
    requires Stranded(w, q, n) && Can(s, w, step)
    ensures Stranded(Do(s, w, step), q, n)
  {
    hide DoReceiver, DoLoop, DoWriter, Bind;
    DoIs(s, w, step);
    if OfReceiver(step) {
      ReceiverShape(s, w, step);
    } else if OfLoop(step) {
      LoopShape(s, w, step);
    } else if OfWriter(step) {
      WriterKeepsStranded(s, w, step, q, n);
    }
  }

  lemma WriterKeepsStranded(s: Setup, w: World, step: Step, q: nat, n: nat)
    requires Stranded(w, q, n) && OfWriter(step) && Can(s, w, step)
    ensures Stranded(DoWriter(w, step), q, n)
  {
    hide Select, SyncLog;
    if step.Append? {
      SelectPartitions(w.writer.hand, step.cutoff);
    }
    SyncKeepsWritten(w);
  }

  lemma SyncKeepsWritten(w: World)
    ensures Written(w.(writer := w.writer.(main := SyncLog(w.writer.main)))) == Written(w)
    ensures Written(w.(writer := w.writer.(late := SyncLog(w.writer.late)))) == Written(w)
  {
  }

  /** The opened batch `q` has no records. */
  ghost predicate Empty(w: World, q: nat) { q in w.past.records && w.past.records[q] == [] }

  lemma StepKeepsEmpty(s: Setup, w: World, step: Step, q: nat)
    requires HandoffInv(w) && Empty(w, q) && Can(s, w, step)
    ensures Empty(Do(s, w, step), q)
  {
    hide DoReceiver, DoLoop, DoWriter;
    DoIs(s, w, step);
    if step.Process? {
      ProcessKeepsBatch(s, w);
    } else if OfReceiver(step) {
      ReceiverShape(s, w, step);
    } else if OfLoop(step) {
      LoopShape(s, w, step);
    } else if OfWriter(step) {
      WriterShape(w, step);
    }
  }

  ghost predicate Out(s: Setup, w: World, q: nat, n: nat) {
    Empty(w, q) || Sheltered(s, w, q) || Stranded(w, q, n)
  }

  lemma {:induction false} RunKeepsOut(s: Setup, w: World, steps: seq<Step>, w': World, q: nat, n: nat)
    requires Inv(s, w) && RoutedInv(s, w) && Out(s, w, q, n) && Leads(s, w, steps, w')
    ensures Inv(s, w') && Out(s, w', q, n)
    decreases |steps|
  {
    hide Can, Do, LogsInv, BatchesInv, TableInv, ReceiversInv, HandoffInv, OpenedInv, Empty, Sheltered, Stranded, RoutedInv;
    if steps != [] {
      StepInv(s, w, steps[0]);
      StepKeepsRouted(s, w, steps[0]);
      if Empty(w, q) {
        StepKeepsEmpty(s, w, steps[0], q);
      } else if Sheltered(s, w, q) {
        StepKeepsSheltered(s, w, steps[0], q);
      } else {
        StepKeepsStranded(s, w, steps[0], q, n);
      }
      RunKeepsOut(s, Do(s, w, steps[0]), steps[1..], w', q, n);
    }
  }

  lemma OutIsWhole(s: Setup, w: World, q: nat, n: nat, channel: string, id: nat, i: nat)
    requires Inv(s, w) && s.maxRecords == 0 && Out(s, w, q, n)
    ensures !AckedWithout(w, q, channel, id, i)
  {
    hide Tracks, Answer, Durable, ReceiversInv, HandoffInv, Waits;
    if AckedWithout(w, q, channel, id, i) {
      AnswersAreTheLedgers(w.table, w.past.ledger, channel, id, w.synced, w.synced);
      assert Settled(s, w, q);
      if Sheltered(s, w, q) {
        assert FatesOf(w, q)[i].Enqueued?;
        AcceptedIffDurable(s, w, q, i);
      }
    }
  }

  lemma SafeIsOut(s: Setup, w: World)
    requires Inv(s, w) && s.maxRecords == 0 && w.loop.Inside? && w.loop.done == 0 && !AtRisk(s, w)
    ensures Out(s, w, w.loop.batch.number, w.enqueued)
  {
    hide TableInv, ReceiversInv, HandoffInv, Waits;
    assert OpenBatch(s, w);
    if w.writer.alive {
      WhereAcceptedIs(w);
    }
  }

  lemma WhereAcceptedIs(w: World)
    requires LogsInv(w) && w.writer.alive
    ensures Written(w) + |w.writer.hand| + |w.queue| == w.enqueued && w.synced <= Written(w)
  {
    assert |w.past.accepted[Written(w)..]| == |w.writer.hand| + |w.queue|;
  }

  /** The law: a batch the record loop opens, whose acknowledgement comes, can be acknowledged without all of
      it on disk if and only if it is at risk when it is opened. */
  lemma LosesIff(s: Setup, w: World)
    requires Inv(s, w) && RoutedInv(s, w) && s.maxRecords == 0
    requires w.loop.Inside? && w.loop.done == 0 && AckComes(w, w.loop.batch.number)
    ensures CanLose(s, w, w.loop.batch.number) <==> AtRisk(s, w)
  {
    hide Inv, RoutedInv, Leads, AckedWithout, AckComes, Out;
    var q := w.loop.batch.number;
    if AtRisk(s, w) {
      RiskIsReal(s, w);
    } else if CanLose(s, w, q) {
      var w' :| Reaches(s, w, w') && AckedInPart(w', q);
      var steps :| Leads(s, w, steps, w');
      SafeIsOut(s, w);
      RunKeepsOut(s, w, steps, w', q, w.enqueued);
      var channel, id: nat, i: nat :| AckedWithout(w', q, channel, id, i);
      OutIsWhole(s, w', q, w.enqueued, channel, id, i);
    }
  }

  lemma {:induction false} RunKeepsRouted(s: Setup, w: World, steps: seq<Step>, w': World)
    requires RoutedInv(s, w) && Leads(s, w, steps, w')
    ensures RoutedInv(s, w')
    decreases |steps|
  {
    hide RoutedInv, Can, Do;
    if steps != [] {
      StepKeepsRouted(s, w, steps[0]);
      RunKeepsRouted(s, Do(s, w, steps[0]), steps[1..], w');
    }
  }

  /** The law in every reachable world. */
  lemma EveryOpenedBatch(s: Setup, steps: seq<Step>, w: World)
    requires Leads(s, Start(), steps, w) && s.maxRecords == 0
    requires w.loop.Inside? && w.loop.done == 0 && AckComes(w, w.loop.batch.number)
    ensures CanLose(s, w, w.loop.batch.number) <==> AtRisk(s, w)
  {
    hide Inv, Leads, CanLose, AtRisk, AckComes;
    StartInv(s);
    RunInv(s, Start(), steps, w);
    RunKeepsRouted(s, Start(), steps, w);
    LosesIff(s, w);
  }
}
