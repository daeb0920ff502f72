/** The acknowledgement protocol end to end: receiver threads, the record loop, the ingest queue and the log
    writer, interleaved step by step. */
module HecAcks {
  import opened Options
  import opened AckTable
  import opened SplitWal

  datatype Batch = Batch(number: nat, records: seq<Entry>)

  /** A receiver between taking a sequence number and answering. */
  datatype Receiver =
    | Took(batch: Batch, channel: Option<string>)
    | Checked(batch: Batch, channel: Option<string>)
    | Sent(number: nat, ackOn: string)

  /** The record loop: between batches, inside one with `done` records processed, or ended by the record cap. */
  datatype Loop = Between | Inside(batch: Batch, done: nat, last: bool) | Stopped

  /** What became of a processed record: turned away by routing, held back under disk pressure, shed by a full
      queue, refused by a queue whose writer is gone, or enqueued. */
  datatype Fate = Refused | Held | Shed | Closed | Enqueued

  /** The log writer. `hand` is taken from the queue and not yet appended. */
  datatype Writer = Writer(alive: bool, hand: seq<Item>, main: Log, late: Log)

  /** `maxRecords` is the record cap, 0 for none; `refuses` is what the record loop's routing turns away;
      `pressable` says whether disk pressure can become critical, `breakable` whether a log can fail, and
      `stoppable` whether the agent can be signalled to stop. */
  datatype Setup = Setup(
    capacity: nat, maxRecords: nat, refuses: Entry -> bool, pressable: bool, breakable: bool, stoppable: bool)

  /** The shutdown: the stop flag is set, and the writer, which has seen it, takes its last batch. */
  datatype Stop = Running | Signalled | Draining

  /** Kept for the statements: all that was enqueued, in order; the ledger of the ack table; and for each
      batch the loop opened, its records and what became of them. */
  datatype History = History(accepted: seq<Item>, ledger: Ledger, records: map<nat, seq<Entry>>, fates: map<nat, seq<Fate>>)

  datatype World = World(
    nextBatch: nat, table: Table, receivers: map<nat, Receiver>, handoff: seq<Batch>, loop: Loop, queue: seq<Item>,
    enqueued: nat, count: nat, writer: Writer, synced: nat, critical: bool, stop: Stop, past: History)

  function Start(): World {
    World(1, Table(map[], map[]), map[], [], Between, [], 0, 0, Writer(true, [], Log([], 0), Log([], 0)), 0, false, Running,
          History([], Ledger(map[], map[]), map[], map[]))
  }

  datatype Step =
    | Take(receiver: nat, records: seq<Entry>, channel: Option<string>)
    | CheckRoom(receiver: nat)
    | HandOff(receiver: nat, taken: bool)
    | IssueAck(receiver: nat, observed: nat)
    | Open
    | Process
    | BindOpen
    | Other(record: Entry)
    | Fetch(n: nat)
    | Append(cutoff: nat)
    | SyncMain
    | SyncLate
    | Publish
    | Fail(midAppend: Option<nat>)
    | Press(critical: bool)
    | Signal
    | DrainQueue
    | End
    | LeaveLoop

  // ---- when a step can happen

  /** What becomes of a record processed now: routing comes first, then the pressure check, which holds back
      the lowest severity class, then the queue, which sheds when full and is closed without a reader. */
  function FateOf(s: Setup, w: World, record: Entry): Fate {
    if s.refuses(record) then Refused
    else if w.critical && record.debug then Held
    else if !w.writer.alive then Closed
    else if |w.queue| >= s.capacity then Shed
    else Enqueued
  }

  predicate Full(l: Log) { l.synced == |l.items| }

  /** Both logs are on disk to their ends, and their count is published. */
  predicate AllPublished(w: World) { Full(w.writer.main) && Full(w.writer.late) && w.synced == Written(w) }

  predicate Can(s: Setup, w: World, step: Step) {
    match step
    case Take(r, records, _) => r !in w.receivers && forall x :: x in records ==> !s.refuses(x)
    case CheckRoom(r) => r in w.receivers && w.receivers[r].Took?
    case HandOff(r, _) => r in w.receivers && w.receivers[r].Checked?
    case IssueAck(r, observed) => r in w.receivers && w.receivers[r].Sent? && observed <= w.synced
    case Open => w.loop.Between? && w.handoff != []
    case Process => w.loop.Inside? && !w.loop.last && w.loop.done < |w.loop.batch.records|
    case BindOpen => w.loop.Inside? && (w.loop.last || w.loop.done >= |w.loop.batch.records|)
    case Other(_) => w.loop.Between?
    case Fetch(n) => w.writer.alive && !w.stop.Draining? && w.writer.hand == [] && n <= |w.queue|
    case Append(_) => w.writer.alive
    case SyncMain => true
    case SyncLate => true
    case Publish => w.writer.alive && w.writer.hand == [] && Full(w.writer.main) && Full(w.writer.late)
    case Fail(_) => s.breakable && w.writer.alive
    case Press(critical) => critical ==> s.pressable
    case Signal => w.stop.Running? && (s.stoppable || w.loop.Stopped?)
    case DrainQueue => w.writer.alive && w.stop.Signalled? && w.writer.hand == []
    case End => w.writer.alive && w.stop.Draining? && w.writer.hand == [] && AllPublished(w)
    case LeaveLoop => w.loop.Between? && !w.stop.Running?
  }

  // ---- what it does

  function Done(w: World, r: nat): World { w.(receivers := w.receivers - {r}) }

  /** The handoff after the room check: a batch without a channel gets no ack. */
  function DoHandOff(w: World, r: nat, taken: bool): World
    requires r in w.receivers && w.receivers[r].Checked?
  {
    var Checked(batch, channel) := w.receivers[r];
    if !taken then Done(w, r)
    else
      var w' := w.(handoff := w.handoff + [batch]);
      if channel.None? then Done(w', r)
      else w'.(receivers := w'.receivers[r := Sent(batch.number, channel.value)])
  }

  function DoIssue(w: World, r: nat, observed: nat): World
    requires r in w.receivers && w.receivers[r].Sent?
  {
    var Sent(number, channel) := w.receivers[r];
    Done(w, r).(table := Issue(w.table, channel, number, observed),
                past := w.past.(ledger := IssueIn(w.past.ledger, channel, number)))
  }

  /** One record through routing, the pressure check and the queue. */
  function Offer(w: World, x: Item, fate: Fate): World {
    var w' := w.(count := w.count + 1);
    if !fate.Enqueued? then w'
    else w'.(queue := w.queue + [x], enqueued := w.enqueued + 1, past := w.past.(accepted := w.past.accepted + [x]))
  }

  predicate AtCap(s: Setup, w: World) { s.maxRecords > 0 && w.count >= s.maxRecords }

  function FatesOf(w: World, q: nat): seq<Fate> { if q in w.past.fates then w.past.fates[q] else [] }

  function DoProcess(s: Setup, w: World): World
    requires Can(s, w, Process)
  {
    var Inside(batch, done, _) := w.loop;
    var fate := FateOf(s, w, batch.records[done]);
    var w' := Offer(w, Item(batch.number, done, batch.records[done]), fate);
    w'.(loop := Inside(batch, done + 1, AtCap(s, w')),
        past := w'.past.(fates := w.past.fates[batch.number := FatesOf(w, batch.number) + [fate]]))
  }

  function DoOpen(w: World): World
    requires w.handoff != []
  {
    var batch := w.handoff[0];
    w.(handoff := w.handoff[1..], loop := Inside(batch, 0, false),
       past := w.past.(records := w.past.records[batch.number := batch.records], fates := w.past.fates[batch.number := []]))
  }

  /** The batch is bound to the count of records enqueued so far, by it or before it. */
  function DoBind(w: World): World
    requires w.loop.Inside?
  {
    var number := w.loop.batch.number;
    w.(table := Bind(w.table, number, w.enqueued), loop := if w.loop.last then Stopped else Between,
       past := w.past.(ledger := BindIn(w.past.ledger, number, w.enqueued)))
  }

  function DoOther(s: Setup, w: World, record: Entry): World {
    var w' := Offer(w, Item(0, w.count, record), FateOf(s, w, record));
    w'.(loop := if AtCap(s, w') then Stopped else Between)
  }

  function Write(l: Log, items: seq<Item>): Log { l.(items := l.items + items) }

  function DoAppend(w: World, cutoff: nat): World {
    var Writer(alive, hand, main, late) := w.writer;
    w.(writer := Writer(alive, [], Write(main, Select(hand, cutoff, false)), Write(late, Select(hand, cutoff, true))))
  }

  function Written(w: World): nat { |w.writer.main.items| + |w.writer.late.items| }

  function SyncLog(l: Log): Log { l.(synced := |l.items|) }

  /** A write error ends the writer for good; the main log may have taken its share of the batch. */
  function DoFail(w: World, midAppend: Option<nat>): World {
    var main := w.writer.main;
    w.(writer := w.writer.(alive := false,
         main := if midAppend.None? then main else Write(main, Select(w.writer.hand, midAppend.value, false))))
  }

  predicate OfReceiver(step: Step) { step.Take? || step.CheckRoom? || step.HandOff? || step.IssueAck? }

  predicate OfLoop(step: Step) { step.Open? || step.Process? || step.BindOpen? || step.Other? || step.LeaveLoop? }

  predicate OfWriter(step: Step) {
    || step.Fetch? || step.DrainQueue? || step.Append? || step.SyncMain? || step.SyncLate? || step.Publish? || step.Fail?
    || step.End?
  }

  function DoReceiver(s: Setup, w: World, step: Step): World
    requires OfReceiver(step) && Can(s, w, step)
  {
    match step
    case Take(r, records, channel) =>
      w.(nextBatch := w.nextBatch + 1, receivers := w.receivers[r := Took(Batch(w.nextBatch, records), channel)])
    case CheckRoom(r) =>
      var Took(batch, channel) := w.receivers[r];
      if |w.queue| + |batch.records| > s.capacity then Done(w, r)
      else w.(receivers := w.receivers[r := Checked(batch, channel)])
    case HandOff(r, taken) => DoHandOff(w, r, taken)
    case IssueAck(r, observed) => DoIssue(w, r, observed)
  }

  function DoLoop(s: Setup, w: World, step: Step): World
    requires OfLoop(step) && Can(s, w, step)
  {
    match step
    case Open => DoOpen(w)
    case Process => DoProcess(s, w)
    case BindOpen => DoBind(w)
    case Other(record) => DoOther(s, w, record)
    case LeaveLoop => w.(loop := Stopped)
  }

  function DoWriter(w: World, step: Step): World
    requires OfWriter(step) && (step.Fetch? ==> step.n <= |w.queue|)
  {
    match step
    case Fetch(n) => w.(queue := w.queue[n..], writer := w.writer.(hand := w.queue[..n]))
    case DrainQueue => w.(stop := Draining, queue := [], writer := w.writer.(hand := w.queue))
    case Append(cutoff) => DoAppend(w, cutoff)
    case SyncMain => w.(writer := w.writer.(main := SyncLog(w.writer.main)))
    case SyncLate => w.(writer := w.writer.(late := SyncLog(w.writer.late)))
    case Publish => w.(synced := Written(w))
    case Fail(midAppend) => DoFail(w, midAppend)
    case End => w.(writer := w.writer.(alive := false))
  }

  function Do(s: Setup, w: World, step: Step): World
    requires Can(s, w, step)
  {
    if OfReceiver(step) then DoReceiver(s, w, step)
    else if OfLoop(step) then DoLoop(s, w, step)
    else if OfWriter(step) then DoWriter(w, step)
    else if step.Press? then w.(critical := step.critical)
    else w.(stop := Signalled)
  }

  /** What a receiver's step leaves alone. */
  lemma ReceiverShape(s: Setup, w: World, step: Step)
    requires OfReceiver(step) && Can(s, w, step)
    ensures var w' := DoReceiver(s, w, step);
      && w' == w.(nextBatch := w'.nextBatch, receivers := w'.receivers, handoff := w'.handoff, table := w'.table,
                  past := w.past.(ledger := w'.past.ledger))
      && w'.past.ledger.bound == w.past.ledger.bound
      && (!step.HandOff? ==> w'.handoff == w.handoff)
      && (!step.IssueAck? ==> w'.table == w.table && w'.past.ledger == w.past.ledger)
  {
    hide Issue;
  }

  /** What a step of the record loop leaves alone. */
  lemma LoopShape(s: Setup, w: World, step: Step)
    requires OfLoop(step) && Can(s, w, step)
    ensures var w' := DoLoop(s, w, step);
      && w'.nextBatch == w.nextBatch && w'.receivers == w.receivers && w'.writer == w.writer && w'.synced == w.synced
      && w'.critical == w.critical && w'.stop == w.stop
      && (!step.Open? ==> w'.handoff == w.handoff)
      && (!step.Open? && !step.Process? ==> w'.past.records == w.past.records && w'.past.fates == w.past.fates)
      && (!step.BindOpen? ==> w'.table == w.table && w'.past.ledger == w.past.ledger)
      && (!step.Process? && !step.Other? ==>
            w'.past.accepted == w.past.accepted && w'.enqueued == w.enqueued && w'.queue == w.queue)
      && (!step.Open? && !step.Process? ==> !w'.loop.Inside?)
      && w.enqueued <= w'.enqueued
  {
    hide Bind, BindIn, AtCap, FateOf, FatesOf;
  }

  /** The steps that have a function of their own. */
  lemma DoIs(s: Setup, w: World, step: Step)
    requires Can(s, w, step)
    ensures step.HandOff? ==> Do(s, w, step) == DoHandOff(w, step.receiver, step.taken)
    ensures step.IssueAck? ==> Do(s, w, step) == DoIssue(w, step.receiver, step.observed)
    ensures step.Open? ==> Do(s, w, step) == DoOpen(w)
    ensures step.Process? ==> Do(s, w, step) == DoProcess(s, w)
    ensures step.BindOpen? ==> Do(s, w, step) == DoBind(w)
    ensures step.Other? ==> Do(s, w, step) == DoOther(s, w, step.record)
  {
    hide DoHandOff, DoIssue, DoOpen, DoProcess, DoBind, DoOther, DoWriter;
  }

  /** What a step of the writer leaves alone. */
  lemma WriterShape(w: World, step: Step)
    requires OfWriter(step) && (step.Fetch? ==> step.n <= |w.queue|)
    ensures var w' := DoWriter(w, step);
      && w' == w.(queue := w'.queue, writer := w'.writer, synced := w'.synced, stop := w'.stop)
      && |w'.queue| <= |w.queue| && (!step.Fetch? && !step.DrainQueue? ==> w'.queue == w.queue)
      && (!step.Publish? ==> w'.synced == w.synced) && (!step.DrainQueue? ==> w'.stop == w.stop)
      && (!step.Fail? && !step.End? ==> w'.writer.alive == w.writer.alive)
  {
    hide Select, Written, SyncLog, Write;
  }

  /** `steps` lead from one world to another. */
  ghost predicate Leads(s: Setup, w: World, steps: seq<Step>, w': World)
    decreases |steps|
  {
    if steps == [] then w' == w
    else Can(s, w, steps[0]) && Leads(s, Do(s, w, steps[0]), steps[1..], w')
  }

  // ---- the logs

  ghost predicate Durable(w: World, x: Item)
    requires w.writer.main.synced <= |w.writer.main.items| && w.writer.late.synced <= |w.writer.late.items|
  {
    OnDisk(w.writer.main, x) || OnDisk(w.writer.late, x)
  }

  /** Everything published is on disk, and while the writer lives the enqueued items are the written ones, then
      those in its hand, then those queued. */
  ghost predicate LogsInv(w: World) {
    var all, main, late := w.past.accepted, w.writer.main, w.writer.late;
    && main.synced <= |main.items| && late.synced <= |late.items|
    && w.enqueued == |all| && w.synced <= |all|
    && (forall x :: x in all[..w.synced] ==> Durable(w, x))
    && (forall x :: x in main.items || x in late.items ==> x in all)
    && (forall x :: x in w.writer.hand || x in w.queue ==> x in all)
    && (w.writer.alive ==>
          && w.synced <= Written(w) <= |all|
          && all[Written(w)..] == w.writer.hand + w.queue
          && forall x :: x in all[..Written(w)] ==> x in main.items || x in late.items)
  }

  lemma OfferKeepsLogs(w: World, x: Item, fate: Fate)
    requires LogsInv(w) && (fate.Enqueued? ==> w.writer.alive)
    ensures LogsInv(Offer(w, x, fate))
  {
    var all, k := w.past.accepted, Written(w);
    if fate.Enqueued? {
      assert (all + [x])[..w.synced] == all[..w.synced] && (all + [x])[..k] == all[..k];
      assert (all + [x])[k..] == all[k..] + [x];
    }
  }

  lemma FetchKeepsLogs(w: World, n: nat)
    requires LogsInv(w) && w.writer.hand == [] && n <= |w.queue|
    ensures LogsInv(w.(queue := w.queue[n..], writer := w.writer.(hand := w.queue[..n])))
  {
    assert w.queue[..n] + w.queue[n..] == [] + w.queue;
  }

  lemma AppendKeepsLogs(w: World, cutoff: nat)
    requires LogsInv(w) && w.writer.alive
    ensures LogsInv(DoAppend(w, cutoff))
  {
    var w', hand, k, all := DoAppend(w, cutoff), w.writer.hand, Written(w), w.past.accepted;
    SelectPartitions(hand, cutoff);
    SelectMembers(hand, cutoff, false);
    SelectMembers(hand, cutoff, true);
    hide Select;
    WritingKeepsDisk(w.writer.main, Select(hand, cutoff, false));
    WritingKeepsDisk(w.writer.late, Select(hand, cutoff, true));
    AdvanceBy(all, k, hand, w.queue);
  }

  /** What follows the first `k` items moves into them. */
  lemma AdvanceBy(all: seq<Item>, k: nat, hand: seq<Item>, queue: seq<Item>)
    requires k <= |all| && all[k..] == hand + queue
    ensures k + |hand| <= |all| && all[k + |hand|..] == [] + queue
    ensures forall x :: x in all[..k + |hand|] <==> x in all[..k] || x in hand
  {
    assert all == all[..k] + (hand + queue);
    assert all[..k + |hand|] == all[..k] + hand;
    assert all[k + |hand|..] == queue;
  }

  lemma WritingKeepsDisk(l: Log, items: seq<Item>)
    requires l.synced <= |l.items|
    ensures forall x :: OnDisk(l, x) ==> OnDisk(Write(l, items), x)
    ensures forall x :: x in Write(l, items).items <==> x in l.items || x in items
  {
    assert Write(l, items).items[..l.synced] == l.items[..l.synced];
  }

  lemma SyncingKeepsDisk(l: Log)
    requires l.synced <= |l.items|
    ensures forall x :: OnDisk(SyncLog(l), x) <==> x in l.items
    ensures forall x :: OnDisk(l, x) ==> x in l.items
  {
    assert l.items[..|l.items|] == l.items;
  }

  lemma SyncKeepsLogs(w: World, main: bool)
    requires LogsInv(w)
    ensures LogsInv(if main then w.(writer := w.writer.(main := SyncLog(w.writer.main)))
                    else w.(writer := w.writer.(late := SyncLog(w.writer.late))))
  {
    SyncingKeepsDisk(w.writer.main);
    SyncingKeepsDisk(w.writer.late);
  }

  lemma PublishKeepsLogs(w: World)
    requires LogsInv(w) && w.writer.alive && Full(w.writer.main) && Full(w.writer.late)
    ensures LogsInv(w.(synced := Written(w))) && w.synced <= Written(w)
  {
    SyncingKeepsDisk(w.writer.main);
    SyncingKeepsDisk(w.writer.late);
    assert w.writer.main == SyncLog(w.writer.main) && w.writer.late == SyncLog(w.writer.late);
  }

  lemma FailKeepsLogs(w: World, midAppend: Option<nat>)
    requires LogsInv(w)
    ensures LogsInv(DoFail(w, midAppend))
  {
    if midAppend.Some? {
      SelectMembers(w.writer.hand, midAppend.value, false);
      WritingKeepsDisk(w.writer.main, Select(w.writer.hand, midAppend.value, false));
    }
  }

  lemma EndKeepsLogs(w: World)
    requires LogsInv(w)
    ensures LogsInv(w.(writer := w.writer.(alive := false)))
  {
    assert forall x :: Durable(w, x) ==> Durable(w.(writer := w.writer.(alive := false)), x);
  }

  lemma SameLogs(w: World, w': World)
    requires LogsInv(w) && w'.past.accepted == w.past.accepted && w'.writer == w.writer && w'.queue == w.queue
    requires w'.enqueued == w.enqueued && w'.synced == w.synced
    ensures LogsInv(w')
  {
    forall x | x in w.past.accepted[..w.synced] ensures Durable(w', x) { assert Durable(w, x); }
  }

  lemma WriterKeepsLogs(s: Setup, w: World, step: Step)
    requires LogsInv(w) && OfWriter(step) && Can(s, w, step)
    ensures LogsInv(DoWriter(w, step)) && w.synced <= DoWriter(w, step).synced
  {
    hide LogsInv, Select, SyncLog, Write, Written;
    match step
    case Fetch(n) => FetchKeepsLogs(w, n);
    case DrainQueue => DrainKeepsLogs(w);
    case Append(cutoff) => AppendKeepsLogs(w, cutoff);
    case SyncMain => SyncKeepsLogs(w, true);
    case SyncLate => SyncKeepsLogs(w, false);
    case Publish => PublishKeepsLogs(w);
    case Fail(midAppend) => FailKeepsLogs(w, midAppend);
    case End => EndKeepsLogs(w);
  }

  lemma LoopKeepsLogs(s: Setup, w: World, step: Step)
    requires LogsInv(w) && OfLoop(step) && Can(s, w, step)
    ensures LogsInv(DoLoop(s, w, step))
  {
    hide LogsInv, Bind, BindIn, AtCap, FatesOf;
    if step.Process? {
      ProcessKeepsLogs(s, w);
    } else if step.Other? {
      OtherKeepsLogs(s, w, step.record);
    } else {
      LoopShape(s, w, step);
      hide DoLoop;
      SameLogs(w, DoLoop(s, w, step));
    }
  }

  lemma StepKeepsLogs(s: Setup, w: World, step: Step)
    requires LogsInv(w) && Can(s, w, step)
    ensures LogsInv(Do(s, w, step)) && w.synced <= Do(s, w, step).synced
  {
    hide LogsInv, DoReceiver, DoLoop, DoWriter;
    if OfWriter(step) {
      WriterKeepsLogs(s, w, step);
    } else if OfLoop(step) {
      LoopKeepsLogs(s, w, step);
      LoopShape(s, w, step);
    } else {
      if OfReceiver(step) {
        ReceiverShape(s, w, step);
      }
      SameLogs(w, Do(s, w, step));
    }
  }

  lemma ProcessKeepsLogs(s: Setup, w: World)
    requires LogsInv(w) && Can(s, w, Process)
    ensures LogsInv(DoProcess(s, w))
  {
    hide LogsInv, AtCap, FatesOf;
    var record := w.loop.batch.records[w.loop.done];
    var x, fate := Item(w.loop.batch.number, w.loop.done, record), FateOf(s, w, record);
    OfferKeepsLogs(w, x, fate);
    SameLogs(Offer(w, x, fate), DoProcess(s, w));
  }

  lemma OtherKeepsLogs(s: Setup, w: World, record: Entry)
    requires LogsInv(w)
    ensures LogsInv(DoOther(s, w, record))
  {
    hide LogsInv, AtCap;
    var x, fate := Item(0, w.count, record), FateOf(s, w, record);
    OfferKeepsLogs(w, x, fate);
    SameLogs(Offer(w, x, fate), DoOther(s, w, record));
  }

  lemma DrainKeepsLogs(w: World)
    requires LogsInv(w) && w.writer.hand == []
    ensures LogsInv(w.(stop := Draining, queue := [], writer := w.writer.(hand := w.queue)))
  {
    hide LogsInv;
    var drained := w.(queue := [], writer := w.writer.(hand := w.queue));
    assert w.queue[|w.queue|..] == [] && w.queue[..|w.queue|] == w.queue;
    FetchKeepsLogs(w, |w.queue|);
    SameLogs(drained, drained.(stop := Draining));
  }
}
