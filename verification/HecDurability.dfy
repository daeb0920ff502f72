/** What an acknowledgement is worth: a batch reported true is on disk, in every interleaving. */
module HecDurability {
  import opened Options
  import opened AckTable
  import opened SplitWal
  import opened HecAcks

  // ---- batch numbers: each is in one place at a time

  function NumberOf(r: Receiver): nat { if r.Sent? then r.number else r.batch.number }

  ghost predicate Waits(handoff: seq<Batch>, q: nat) {
    exists j :: 0 <= j < |handoff| && handoff[j].number == q
  }

  /** No two receivers have the same batch. */
  ghost predicate OneEach(receivers: map<nat, Receiver>) {
    forall r, r' :: r in receivers && r' in receivers && r != r' ==> NumberOf(receivers[r]) != NumberOf(receivers[r'])
  }

  /** A receiver's batch has no id yet; it is handed off or opened exactly when it has been sent. */
  ghost predicate ReceiverOk(x: Receiver, nextBatch: nat, open: set<nat>, ledger: Ledger, handoff: seq<Batch>) {
    && 1 <= NumberOf(x) < nextBatch && !IsIssued(ledger, NumberOf(x))
    && (x.Sent? <==> NumberOf(x) in open || Waits(handoff, NumberOf(x)))
  }

  ghost predicate ReceiversInv(w: World) {
    && OneEach(w.receivers)
    && forall r :: r in w.receivers ==>
         ReceiverOk(w.receivers[r], w.nextBatch, w.past.records.Keys, w.past.ledger, w.handoff)
  }

  ghost predicate HandoffInv(w: World) {
    && (forall j :: 0 <= j < |w.handoff| ==>
          1 <= w.handoff[j].number < w.nextBatch && w.handoff[j].number !in w.past.records)
    && (forall i, j :: 0 <= i < j < |w.handoff| ==> w.handoff[i].number != w.handoff[j].number)
  }

  ghost predicate OpenedInv(w: World) {
    && (forall q :: q in w.past.records ==> 1 <= q < w.nextBatch)
    && (forall q :: q in w.past.ledger.bound ==> q in w.past.records)
    && (forall q :: q in w.past.records ==>
          q in w.past.ledger.bound || (w.loop.Inside? && w.loop.batch.number == q))
    && (w.loop.Inside? ==> w.loop.batch.number in w.past.records && w.loop.batch.number !in w.past.ledger.bound)
    && (forall q: nat :: IsIssued(w.past.ledger, q) ==> q < w.nextBatch && (q in w.past.records || Waits(w.handoff, q)))
  }

  ghost predicate NumbersInv(w: World) {
    ReceiversInv(w) && HandoffInv(w) && OpenedInv(w)
  }

  lemma SameNumbers(w: World, w': World)
    requires NumbersInv(w) && w'.receivers == w.receivers && w'.handoff == w.handoff && w'.nextBatch == w.nextBatch
    requires w'.past.ledger == w.past.ledger && w'.past.records == w.past.records
    requires w'.loop == w.loop || (w.loop.Inside? && w'.loop.Inside? && w'.loop.batch == w.loop.batch)
          || (!w.loop.Inside? && !w'.loop.Inside?)
    ensures NumbersInv(w')
  {
    hide OneEach, ReceiverOk, Waits, IsIssued;
  }

  lemma OneEachStays(receivers: map<nat, Receiver>, r: nat, x: Receiver)
    requires OneEach(receivers)
    ensures OneEach(receivers - {r})
    ensures r in receivers && NumberOf(receivers[r]) == NumberOf(x) ==> OneEach(receivers[r := x])
    ensures (forall r' :: r' in receivers ==> NumberOf(receivers[r']) != NumberOf(x)) ==> OneEach(receivers[r := x])
  {
  }

  lemma TakeKeepsNumbers(w: World, r: nat, records: seq<Entry>, channel: Option<string>)
    requires NumbersInv(w) && r !in w.receivers && w.nextBatch >= 1
    ensures NumbersInv(w.(nextBatch := w.nextBatch + 1,
                          receivers := w.receivers[r := Took(Batch(w.nextBatch, records), channel)]))
  {
    NewNumberIsNowhere(w);
    hide OneEach, Waits, IsIssued, HandoffInv;
    OneEachStays(w.receivers, r, Took(Batch(w.nextBatch, records), channel));
  }

  lemma NewNumberIsNowhere(w: World)
    requires NumbersInv(w)
    ensures !Waits(w.handoff, w.nextBatch) && !IsIssued(w.past.ledger, w.nextBatch) && w.nextBatch !in w.past.records
    ensures forall r :: r in w.receivers ==> NumberOf(w.receivers[r]) != w.nextBatch
    ensures HandoffInv(w.(nextBatch := w.nextBatch + 1))
  {
    hide OneEach, IsIssued;
  }

  lemma DoneKeepsNumbers(w: World, r: nat)
    requires NumbersInv(w)
    ensures NumbersInv(Done(w, r))
  {
    hide OneEach, IsIssued, Waits, ReceiverOk;
    OneEachStays(w.receivers, r, Sent(0, ""));
  }

  lemma CheckKeepsNumbers(w: World, r: nat)
    requires NumbersInv(w) && r in w.receivers && w.receivers[r].Took?
    ensures NumbersInv(w.(receivers := w.receivers[r := Checked(w.receivers[r].batch, w.receivers[r].channel)]))
  {
    var checked := Checked(w.receivers[r].batch, w.receivers[r].channel);
    assert ReceiverOk(checked, w.nextBatch, w.past.records.Keys, w.past.ledger, w.handoff);
    hide Waits, IsIssued, OneEach, ReceiverOk;
    OneEachStays(w.receivers, r, checked);
  }

  /** A batch that has joined the handoff queue, its receiver now waiting to issue the ack. */
  lemma SendKeepsNumbers(w: World, r: nat, channel: string)
    requires NumbersInv(w) && r in w.receivers && w.receivers[r].Checked?
    ensures var batch := w.receivers[r].batch;
      NumbersInv(w.(handoff := w.handoff + [batch], receivers := w.receivers[r := Sent(batch.number, channel)]))
  {
    var batch := w.receivers[r].batch;
    var w' := w.(handoff := w.handoff + [batch], receivers := w.receivers[r := Sent(batch.number, channel)]);
    WaitsAfter(w.handoff, batch);
    SendKeepsHandoff(w, batch);
    IssuesOnlyItsOwn(w, r);
    hide Waits, IsIssued, HandoffInv, OneEach;
    OneEachStays(w.receivers, r, Sent(batch.number, channel));
    assert ReceiversInv(w');
    assert OpenedInv(w');
  }

  lemma SendKeepsHandoff(w: World, batch: Batch)
    requires HandoffInv(w) && 1 <= batch.number < w.nextBatch && batch.number !in w.past.records
    requires !Waits(w.handoff, batch.number)
    ensures HandoffInv(w.(handoff := w.handoff + [batch]))
  {
  }

  lemma HandOffKeepsNumbers(w: World, r: nat, taken: bool)
    requires NumbersInv(w) && r in w.receivers && w.receivers[r].Checked?
    ensures NumbersInv(DoHandOff(w, r, taken))
  {
    hide NumbersInv;
    DoneKeepsNumbers(w, r);
    if taken {
      var Checked(batch, channel) := w.receivers[r];
      var on := if channel.Some? then channel.value else "";
      SendKeepsNumbers(w, r, on);
      var sent := w.(handoff := w.handoff + [batch], receivers := w.receivers[r := Sent(batch.number, on)]);
      DoneKeepsNumbers(sent, r);
      if channel.None? {
        assert Done(sent, r).receivers == DoHandOff(w, r, taken).receivers;
        assert Done(sent, r) == DoHandOff(w, r, taken);
      }
    }
  }

  lemma WaitsAfter(handoff: seq<Batch>, batch: Batch)
    ensures forall q :: Waits(handoff + [batch], q) <==> Waits(handoff, q) || q == batch.number
  {
    var handoff' := handoff + [batch];
    forall q | Waits(handoff, q) ensures Waits(handoff', q) {
      var j :| 0 <= j < |handoff| && handoff[j].number == q;
      assert handoff'[j].number == q;
    }
    assert handoff'[|handoff|].number == batch.number;
  }

  lemma IssueKeepsNumbers(w: World, r: nat, observed: nat)
    requires NumbersInv(w) && r in w.receivers && w.receivers[r].Sent? && IssuedOnce(w.past.ledger)
    ensures NumbersInv(DoIssue(w, r, observed))
  {
    hide Issue, IssuedOnce, OneEach, Waits, IsIssued;
    var w' := DoIssue(w, r, observed);
    OneEachStays(w.receivers, r, w.receivers[r]);
    IssuesOnlyItsOwn(w, r);
    EnterIsIssued(w.past.ledger, w.receivers[r].ackOn, w.receivers[r].number);
    assert ReceiversInv(w');
  }

  lemma IssuesOnlyItsOwn(w: World, r: nat)
    requires OneEach(w.receivers) && r in w.receivers
    ensures forall r' :: r' in w.receivers && r' != r ==> NumberOf(w.receivers[r']) != NumberOf(w.receivers[r])
  {
  }

  lemma OpenKeepsNumbers(w: World)
    requires NumbersInv(w) && w.handoff != [] && w.loop.Between?
    ensures NumbersInv(DoOpen(w))
  {
    WaitsBut(w.handoff);
    OpenKeepsHandoff(w);
    hide OneEach, Waits, IsIssued, HandoffInv;
    var w' := DoOpen(w);
    assert w'.past.records.Keys == w.past.records.Keys + {w.handoff[0].number};
    assert ReceiversInv(w');
  }

  lemma WaitsBut(handoff: seq<Batch>)
    requires handoff != []
    ensures forall q :: Waits(handoff, q) <==> Waits(handoff[1..], q) || q == handoff[0].number
  {
    var rest := handoff[1..];
    forall q | Waits(handoff, q) && q != handoff[0].number ensures Waits(rest, q) {
      var j :| 0 <= j < |handoff| && handoff[j].number == q;
      assert rest[j - 1].number == q;
    }
    forall q | Waits(rest, q) ensures Waits(handoff, q) {
      var j :| 0 <= j < |rest| && rest[j].number == q;
      assert handoff[j + 1].number == q;
    }
  }

  lemma OpenKeepsHandoff(w: World)
    requires HandoffInv(w) && w.handoff != []
    ensures HandoffInv(DoOpen(w)) && 1 <= w.handoff[0].number < w.nextBatch && w.handoff[0].number !in w.past.records
  {
  }

  lemma BindKeepsNumbers(w: World)
    requires NumbersInv(w) && w.loop.Inside?
    ensures NumbersInv(DoBind(w))
  {
    hide OneEach, Bind, Waits, IsIssued;
    var w' := DoBind(w);
    BindKeepsIssued(w.past.ledger, w.loop.batch.number, w.enqueued);
    assert ReceiversInv(w');
  }

  lemma StepKeepsNumbers(s: Setup, w: World, step: Step)
    requires NumbersInv(w) && IssuedOnce(w.past.ledger) && w.nextBatch >= 1 && Can(s, w, step)
    ensures NumbersInv(Do(s, w, step)) && Do(s, w, step).nextBatch >= 1
  {
    hide NumbersInv, IssuedOnce, DoReceiver, DoLoop, DoWriter;
    DoIs(s, w, step);
    if OfReceiver(step) {
      ReceiverKeepsNumbers(s, w, step);
    } else if step.Open? {
      OpenKeepsNumbers(w);
      LoopShape(s, w, step);
    } else if step.BindOpen? {
      BindKeepsNumbers(w);
      LoopShape(s, w, step);
    } else {
      if step.Process? {
        ProcessKeepsBatch(s, w);
      }
      if OfLoop(step) {
        LoopShape(s, w, step);
      } else if OfWriter(step) {
        WriterShape(w, step);
      }
      SameNumbers(w, Do(s, w, step));
    }
  }

  lemma ProcessKeepsBatch(s: Setup, w: World)
    requires Can(s, w, Process)
    ensures DoProcess(s, w).loop.Inside? && DoProcess(s, w).loop.batch == w.loop.batch
    ensures DoProcess(s, w).past.records == w.past.records
  {
    hide FateOf, FatesOf, AtCap;
  }

  lemma ReceiverKeepsNumbers(s: Setup, w: World, step: Step)
    requires NumbersInv(w) && IssuedOnce(w.past.ledger) && w.nextBatch >= 1 && OfReceiver(step) && Can(s, w, step)
    ensures NumbersInv(DoReceiver(s, w, step)) && DoReceiver(s, w, step).nextBatch >= 1
  {
    hide NumbersInv, IssuedOnce, Issue, IssueIn;
    match step
    case Take(r, records, channel) => TakeKeepsNumbers(w, r, records, channel);
    case CheckRoom(r) => DoneKeepsNumbers(w, r); CheckKeepsNumbers(w, r);
    case HandOff(r, taken) => HandOffKeepsNumbers(w, r, taken);
    case IssueAck(r, observed) => IssueKeepsNumbers(w, r, observed);
  }

  // ---- what became of each record

  /** The enqueued records of batch `q` are among the first `n` items accepted. */
  ghost predicate KeptWithin(w: World, q: nat, n: nat)
    requires q in w.past.fates && q in w.past.records && |w.past.fates[q]| <= |w.past.records[q]|
  {
    && n <= |w.past.accepted|
    && forall i: nat :: i < |w.past.fates[q]| && w.past.fates[q][i].Enqueued? ==>
         Item(q, i, w.past.records[q][i]) in w.past.accepted[..n]
  }

  /** A bound batch: every record was processed, unless the record cap cut it short, and the enqueued ones
      are below its watermark. */
  ghost predicate Settled(s: Setup, w: World, q: nat)
    requires q in w.past.ledger.bound
  {
    && q in w.past.records && q in w.past.fates
    && |w.past.fates[q]| <= |w.past.records[q]|
    && (s.maxRecords == 0 ==> |w.past.fates[q]| == |w.past.records[q]|)
    && KeptWithin(w, q, w.past.ledger.bound[q])
  }

  /** The open batch. */
  ghost predicate OpenBatch(s: Setup, w: World)
    requires w.loop.Inside?
  {
    var q := w.loop.batch.number;
    && q in w.past.records && q in w.past.fates && w.past.records[q] == w.loop.batch.records
    && |w.past.fates[q]| == w.loop.done <= |w.past.records[q]|
    && (w.loop.last ==> s.maxRecords > 0)
    && KeptWithin(w, q, |w.past.accepted|)
  }

  /** An accepted item of a batch is one of its records, and was enqueued. */
  predicate Genuine(w: World, x: Item) {
    x.batch > 0 ==>
      && x.batch in w.past.fates && x.batch in w.past.records
      && x.index < |w.past.fates[x.batch]| <= |w.past.records[x.batch]|
      && w.past.fates[x.batch][x.index].Enqueued? && w.past.records[x.batch][x.index] == x.record
  }

  ghost predicate BatchesInv(s: Setup, w: World) {
    && (forall q :: q in w.past.ledger.bound ==> Settled(s, w, q))
    && (w.loop.Inside? ==> OpenBatch(s, w))
    && (forall x :: x in w.past.accepted ==> Genuine(w, x))
  }

  lemma SameBatches(s: Setup, w: World, w': World)
    requires BatchesInv(s, w) && w'.past.accepted == w.past.accepted && w'.past.ledger.bound == w.past.ledger.bound
    requires w'.past.records == w.past.records && w'.past.fates == w.past.fates
    requires w'.loop == w.loop || !w'.loop.Inside?
    ensures BatchesInv(s, w')
  {
    forall q | q in w'.past.ledger.bound ensures Settled(s, w', q) { assert Settled(s, w, q); }
    forall x | x in w'.past.accepted ensures Genuine(w', x) { assert Genuine(w, x); }
  }

  /** More is accepted; what was known of a batch stays. */
  lemma KeptStays(w: World, w': World, q: nat, n: nat)
    requires q in w.past.fates && q in w.past.records && |w.past.fates[q]| <= |w.past.records[q]|
    requires q in w'.past.fates && w'.past.fates[q] == w.past.fates[q]
    requires q in w'.past.records && w'.past.records[q] == w.past.records[q]
    requires w.past.accepted <= w'.past.accepted && KeptWithin(w, q, n)
    ensures KeptWithin(w', q, n)
  {
    assert w'.past.accepted[..n] == w.past.accepted[..n];
  }

  lemma OtherKeepsBatches(s: Setup, w: World, record: Entry)
    requires BatchesInv(s, w) && w.loop.Between?
    ensures BatchesInv(s, DoOther(s, w, record))
  {
    var w' := DoOther(s, w, record);
    forall q | q in w'.past.ledger.bound ensures Settled(s, w', q) {
      assert Settled(s, w, q);
      KeptStays(w, w', q, w.past.ledger.bound[q]);
    }
    forall x | x in w'.past.accepted ensures Genuine(w', x) { assert x in w.past.accepted ==> Genuine(w, x); }
  }

  lemma ProcessKeepsBatches(s: Setup, w: World)
    requires BatchesInv(s, w) && OpenedInv(w) && Can(s, w, Process)
    ensures BatchesInv(s, DoProcess(s, w))
  {
    hide IsIssued, Waits, FateOf;
    var w' := DoProcess(s, w);
    var q, done := w.loop.batch.number, w.loop.done;
    assert OpenBatch(s, w);
    forall p | p in w'.past.ledger.bound ensures Settled(s, w', p) {
      assert Settled(s, w, p);
      KeptStays(w, w', p, w.past.ledger.bound[p]);
    }
    ProcessKeepsOpen(s, w);
    forall x | x in w'.past.accepted ensures Genuine(w', x) {
      if x in w.past.accepted {
        assert Genuine(w, x);
      }
    }
  }

  lemma ProcessKeepsOpen(s: Setup, w: World)
    requires w.loop.Inside? && OpenBatch(s, w) && Can(s, w, Process) && w.loop.batch.number >= 1
    ensures OpenBatch(s, DoProcess(s, w))
  {
    hide FateOf;
    var w' := DoProcess(s, w);
    var q, all, all' := w.loop.batch.number, w.past.accepted, w'.past.accepted;
    assert all[..|all|] == all && all'[..|all'|] == all';
    forall i: nat | i < |w'.past.fates[q]| && w'.past.fates[q][i].Enqueued?
      ensures Item(q, i, w'.past.records[q][i]) in all'
    {
      if i < w.loop.done {
        assert Item(q, i, w.past.records[q][i]) in all;
      } else {
        assert all' == all + [Item(q, i, w.past.records[q][i])];
      }
    }
  }

  lemma OpenKeepsBatches(s: Setup, w: World)
    requires BatchesInv(s, w) && NumbersInv(w) && w.loop.Between? && w.handoff != []
    ensures BatchesInv(s, DoOpen(w))
  {
    hide IsIssued, Waits, ReceiversInv;
    var w' := DoOpen(w);
    forall q | q in w'.past.ledger.bound ensures Settled(s, w', q) {
      assert Settled(s, w, q);
      KeptStays(w, w', q, w.past.ledger.bound[q]);
    }
    forall x | x in w'.past.accepted ensures Genuine(w', x) { assert Genuine(w, x); }
  }

  lemma BindKeepsBatches(s: Setup, w: World)
    requires BatchesInv(s, w) && w.enqueued == |w.past.accepted| && Can(s, w, BindOpen)
    ensures BatchesInv(s, DoBind(w))
  {
    hide Bind;
    var w' := DoBind(w);
    assert OpenBatch(s, w);
    forall q | q in w'.past.ledger.bound ensures Settled(s, w', q) {
      if q == w.loop.batch.number {
        KeptStays(w, w', q, |w.past.accepted|);
      } else {
        assert Settled(s, w, q);
        KeptStays(w, w', q, w.past.ledger.bound[q]);
      }
    }
    forall x | x in w'.past.accepted ensures Genuine(w', x) { assert Genuine(w, x); }
  }

  lemma StepKeepsBatches(s: Setup, w: World, step: Step)
    requires BatchesInv(s, w) && NumbersInv(w) && w.enqueued == |w.past.accepted| && Can(s, w, step)
    ensures BatchesInv(s, Do(s, w, step))
  {
    hide BatchesInv, ReceiversInv, HandoffInv, OpenedInv, DoReceiver, DoLoop, DoWriter, DoOpen, DoProcess, DoBind, DoOther;
    DoIs(s, w, step);
    if step.Open? {
      OpenKeepsBatches(s, w);
    } else if step.Process? {
      ProcessKeepsBatches(s, w);
    } else if step.BindOpen? {
      BindKeepsBatches(s, w);
    } else if step.Other? {
      OtherKeepsBatches(s, w, step.record);
    } else {
      if OfReceiver(step) {
        ReceiverShape(s, w, step);
      } else if OfLoop(step) {
        LoopShape(s, w, step);
      } else if OfWriter(step) {
        WriterShape(w, step);
      }
      SameBatches(s, w, Do(s, w, step));
    }
  }

  // ---- the ack table

  ghost predicate TableInv(w: World) { Tracks(w.table, w.past.ledger, w.synced) }

  lemma TableIsOnce(w: World)
    requires TableInv(w)
    ensures IssuedOnce(w.past.ledger)
  {
  }

  lemma StepKeepsTable(s: Setup, w: World, step: Step)
    requires TableInv(w) && NumbersInv(w) && LogsInv(w) && Can(s, w, step)
    ensures TableInv(Do(s, w, step))
  {
    hide Tracks, Issue, Bind, IssueIn, BindIn, LogsInv, HandoffInv, Waits, DoReceiver, DoLoop, DoWriter;
    StepKeepsLogs(s, w, step);
    DoIs(s, w, step);
    if step.IssueAck? {
      var x := w.receivers[step.receiver];
      IssueTracks(w.table, w.past.ledger, x.ackOn, x.number, step.observed, w.synced);
    } else if step.BindOpen? {
      BindTracks(w.table, w.past.ledger, w.loop.batch.number, w.enqueued, w.synced);
    } else {
      if OfReceiver(step) {
        ReceiverShape(s, w, step);
      } else if OfLoop(step) {
        LoopShape(s, w, step);
      } else if OfWriter(step) {
        WriterShape(w, step);
      }
      PublishTracks(w.table, w.past.ledger, w.synced, Do(s, w, step).synced);
    }
  }

  // ---- every run

  ghost predicate Inv(s: Setup, w: World) {
    LogsInv(w) && NumbersInv(w) && BatchesInv(s, w) && TableInv(w) && w.nextBatch >= 1
  }

  lemma StepInv(s: Setup, w: World, step: Step)
    requires Inv(s, w) && Can(s, w, step)
    ensures Inv(s, Do(s, w, step))
  {
    hide NumbersInv, BatchesInv, TableInv, Do, Can;
    assert w.enqueued == |w.past.accepted|;
    hide LogsInv;
    TableIsOnce(w);
    StepKeepsLogs(s, w, step);
    StepKeepsNumbers(s, w, step);
    StepKeepsBatches(s, w, step);
    StepKeepsTable(s, w, step);
  }

  lemma StartParts(s: Setup)
    ensures LogsInv(Start()) && BatchesInv(s, Start()) && TableInv(Start())
  {
  }

  lemma StartNumbers()
    ensures NumbersInv(Start())
  {
  }

  lemma StartInv(s: Setup)
    ensures Inv(s, Start())
  {
    hide LogsInv, NumbersInv, BatchesInv, TableInv;
    StartParts(s);
    StartNumbers();
  }

  lemma {:induction false} RunInv(s: Setup, w: World, steps: seq<Step>, w': World)
    requires Inv(s, w) && Leads(s, w, steps, w')
    ensures Inv(s, w')
    decreases |steps|
  {
    hide Inv, Can, Do;
    if steps != [] {
      StepInv(s, w, steps[0]);
      RunInv(s, Do(s, w, steps[0]), steps[1..], w');
    }
  }

  /** Ack durability. An id reports true only for a batch that was issued under it and wholly processed (up to
      the record cap), and then exactly the records the queue accepted are on disk. */
  lemma AckMeansDurable(s: Setup, steps: seq<Step>, w: World, channel: string, id: nat, observed: nat)
    requires Leads(s, Start(), steps, w) && observed <= w.synced && Answer(w.table, channel, id, observed)
    ensures LogsInv(w) && id < |IssuedOn(w.past.ledger, channel)|
    ensures var q := IssuedOn(w.past.ledger, channel)[id];
      && q in w.past.records && q in w.past.fates && |w.past.fates[q]| <= |w.past.records[q]|
      && (s.maxRecords == 0 ==> |w.past.fates[q]| == |w.past.records[q]|)
      && forall i: nat :: i < |w.past.fates[q]| ==>
           (w.past.fates[q][i].Enqueued? <==> Durable(w, Item(q, i, w.past.records[q][i])))
  {
    hide Leads, NumbersInv, Tracks, Answer;
    StartInv(s);
    RunInv(s, Start(), steps, w);
    AnswersAreTheLedgers(w.table, w.past.ledger, channel, id, observed, w.synced);
    var q := IssuedOn(w.past.ledger, channel)[id];
    assert Settled(s, w, q) && q > 0 by { OpenedIsPositive(w, q); }
    forall i: nat | i < |w.past.fates[q]|
      ensures w.past.fates[q][i].Enqueued? <==> Durable(w, Item(q, i, w.past.records[q][i]))
    {
      AcceptedIffDurable(s, w, q, i);
    }
  }

  lemma OpenedIsPositive(w: World, q: nat)
    requires NumbersInv(w) && q in w.past.ledger.bound
    ensures q > 0
  {
  }

  lemma AcceptedIffDurable(s: Setup, w: World, q: nat, i: nat)
    requires LogsInv(w) && BatchesInv(s, w) && q > 0 && q in w.past.ledger.bound && w.past.ledger.bound[q] <= w.synced
    requires Settled(s, w, q) && i < |w.past.fates[q]|
    ensures w.past.fates[q][i].Enqueued? <==> Durable(w, Item(q, i, w.past.records[q][i]))
  {
    var all, n, x := w.past.accepted, w.past.ledger.bound[q], Item(q, i, w.past.records[q][i]);
    if w.past.fates[q][i].Enqueued? {
      assert x in all[..n] && all[..n] == all[..w.synced][..n];
    }
    if Durable(w, x) {
      assert x in all && Genuine(w, x);
    }
  }

  /** In every run, a poll that reads the published count answers whether the id was issued, its batch bound,
      and the count it needs published. */
  lemma PollsAreExact(s: Setup, steps: seq<Step>, w: World, channel: string, id: nat)
    requires Leads(s, Start(), steps, w)
    ensures Answer(w.table, channel, id, w.synced) <==> Acknowledged(w.past.ledger, channel, id, w.synced)
  {
    hide Leads, NumbersInv, Tracks, Answer, LogsInv, BatchesInv, Acknowledged;
    StartInv(s);
    RunInv(s, Start(), steps, w);
    AnswersAreTheLedgers(w.table, w.past.ledger, channel, id, w.synced, w.synced);
  }

  // ---- acks do not flip back

  lemma StepRises(s: Setup, w: World, step: Step)
    requires Inv(s, w) && Can(s, w, step)
    ensures FloorsRise(w.table, Do(s, w, step).table) && Extends(w.past.ledger, Do(s, w, step).past.ledger)
    ensures w.synced <= Do(s, w, step).synced
  {
    hide FloorsRise, Extends, LogsInv, NumbersInv, BatchesInv, TableInv, Issue, Bind, IssueIn, BindIn, DoReceiver, DoLoop,
      DoWriter;
    StepKeepsLogs(s, w, step);
    OpenIsUnbound(w);
    DoIs(s, w, step);
    if step.IssueAck? {
      var x := w.receivers[step.receiver];
      IssueRaises(w.table, x.ackOn, x.number, step.observed);
      IssueExtends(w.past.ledger, x.ackOn, x.number);
    } else if step.BindOpen? {
      BindRaises(w.table, w.loop.batch.number, w.enqueued);
      BindExtends(w.past.ledger, w.loop.batch.number, w.enqueued);
    } else {
      if OfReceiver(step) {
        ReceiverShape(s, w, step);
      } else if OfLoop(step) {
        LoopShape(s, w, step);
      } else if OfWriter(step) {
        WriterShape(w, step);
      }
      NothingLost(w.table, w.past.ledger);
    }
  }

  lemma NothingLost(t: Table, l: Ledger)
    ensures FloorsRise(t, t) && Extends(l, l)
  {
  }

  lemma IssueExtends(l: Ledger, channel: string, batch: nat)
    ensures Extends(l, IssueIn(l, channel, batch))
  {
  }

  lemma BindExtends(l: Ledger, batch: nat, count: nat)
    requires batch !in l.bound
    ensures Extends(l, BindIn(l, batch, count))
  {
  }

  lemma OpenIsUnbound(w: World)
    requires NumbersInv(w)
    ensures w.loop.Inside? ==> w.loop.batch.number !in w.past.ledger.bound
  {
  }

  lemma BindRaises(t: Table, batch: nat, count: nat)
    ensures FloorsRise(t, Bind(t, batch, count))
  {
  }

  lemma {:induction false} RunRises(s: Setup, w: World, steps: seq<Step>, w': World)
    requires Inv(s, w) && Leads(s, w, steps, w')
    ensures FloorsRise(w.table, w'.table) && Extends(w.past.ledger, w'.past.ledger) && w.synced <= w'.synced
    decreases |steps|
  {
    hide Inv, Can, Do;
    if steps != [] {
      StepInv(s, w, steps[0]);
      StepRises(s, w, steps[0]);
      RunRises(s, Do(s, w, steps[0]), steps[1..], w');
    }
  }

  /** An id reported true is reported true by every later poll, whatever was issued, retired or bound since. */
  lemma AcksDoNotFlipBack(s: Setup, steps: seq<Step>, w: World, more: seq<Step>, w': World,
                          channel: string, id: nat, observed: nat, observed': nat)
    requires Leads(s, Start(), steps, w) && Leads(s, w, more, w')
    requires observed <= w.synced && observed <= observed' <= w'.synced && Answer(w.table, channel, id, observed)
    ensures Answer(w'.table, channel, id, observed')
  {
    hide Leads, NumbersInv, Tracks, Answer, LogsInv, BatchesInv, FloorsRise, Extends;
    StartInv(s);
    RunInv(s, Start(), steps, w);
    RunInv(s, w, more, w');
    RunRises(s, w, more, w');
    TrueStaysTrue(w.table, w.past.ledger, w.synced, w'.table, w'.past.ledger, w'.synced, channel, id, observed, observed');
  }

  /** No ack is stuck: once the handed-off batches are processed and all that was enqueued is published, every
      id issued reports true. */
  lemma QuietMeansAcknowledged(s: Setup, steps: seq<Step>, w: World, channel: string, id: nat)
    requires Leads(s, Start(), steps, w) && w.handoff == [] && !w.loop.Inside? && w.synced == w.enqueued
    requires id < |IssuedOn(w.past.ledger, channel)|
    ensures Answer(w.table, channel, id, w.synced)
  {
    hide Leads, ReceiversInv, HandoffInv, Tracks, Answer;
    StartInv(s);
    RunInv(s, Start(), steps, w);
    var q := IssuedOn(w.past.ledger, channel)[id];
    assert channel in w.past.ledger.issued && q in w.past.ledger.issued[channel];
    assert IsIssued(w.past.ledger, q);
    assert Settled(s, w, q);
    AnswersAreTheLedgers(w.table, w.past.ledger, channel, id, w.synced, w.synced);
  }
}
