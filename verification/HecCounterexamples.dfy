/** Four runs in which a batch is acknowledged though its only record is not on disk: it was shed by a queue
    that had room for it when it was admitted, held back under disk pressure, or offered to a queue whose
    writer had failed, or had ended on a signal to stop. */
module HecCounterexamples {
  import opened Options
  import opened AckTable
  import opened SplitWal
  import opened HecAcks
  import opened HecLosses

  const CHANNEL := "channel"
  const LINE := Entry("line", 5, false, [])
  const DEBUG_LINE := Entry("line", 5, true, [])

  lemma Next(s: Setup, w: World, step: Step, w': World)
    requires Reaches(s, Start(), w) && Can(s, w, step) && Do(s, w, step) == w'
    ensures Reaches(s, Start(), w')
  {
    hide Can, Do, Reaches;
    Onward(s, Start(), w, step);
  }

  // ---- one batch of one record

  /** The batch of one record is open, and its receiver about to issue the ack. */
  function OneOpened(x: Entry): World {
    Start().(nextBatch := 2, receivers := map[0 := Sent(1, CHANNEL)], loop := Inside(Batch(1, [x]), 0, false),
             past := History([], Ledger(map[], map[]), map[1 := [x]], map[1 := []]))
  }

  lemma OneOpenedIsReached(s: Setup, x: Entry)
    requires s.capacity >= 1 && !s.refuses(x)
    ensures Reaches(s, Start(), OneOpened(x))
  {
    hide Reaches;
    var ch: Option<string> := Some(CHANNEL);
    var b := Batch(1, [x]);
    var w0 := Start();
    var w1 := w0.(nextBatch := 2, receivers := map[0 := Took(b, ch)]);
    var w2 := w1.(receivers := map[0 := Checked(b, ch)]);
    var w3 := w2.(receivers := map[0 := Sent(1, CHANNEL)], handoff := [b]);
    Stay(s, w0);
    Next(s, w0, Take(0, [x], ch), w1);
    Next(s, w1, CheckRoom(0), w2);
    Next(s, w2, HandOff(0, true), w3);
    Next(s, w3, Open, OneOpened(x));
  }

  /** What comes over the agent while the batch is open: critical disk pressure, a log that fails, or a signal to
      stop, on which the writer ends. */
  datatype Mishap = Pressure | Breakdown | Shutdown

  function Struck(x: Entry, mishap: Mishap): World {
    match mishap
    case Pressure => OneOpened(x).(critical := true)
    case Breakdown => OneOpened(x).(writer := Start().writer.(alive := false))
    case Shutdown => OneOpened(x).(writer := Start().writer.(alive := false), stop := Draining)
  }

  /** The mishap can happen, and the record then is not enqueued. */
  ghost predicate Fits(s: Setup, x: Entry, mishap: Mishap) {
    && s.capacity >= 1 && s.maxRecords == 0 && !s.refuses(x)
    && match mishap
       case Pressure => s.pressable && x.debug
       case Breakdown => s.breakable
       case Shutdown => s.stoppable
  }

  lemma StruckIsReached(s: Setup, x: Entry, mishap: Mishap)
    requires Fits(s, x, mishap)
    ensures Reaches(s, Start(), Struck(x, mishap))
  {
    hide Reaches;
    OneOpenedIsReached(s, x);
    var w0 := OneOpened(x);
    match mishap
    case Pressure => Next(s, w0, Press(true), Struck(x, mishap));
    case Breakdown => Next(s, w0, Fail(None), Struck(x, mishap));
    case Shutdown =>
      var w1 := w0.(stop := Signalled);
      var w2 := w0.(stop := Draining);
      Next(s, w0, Signal, w1);
      Next(s, w1, DrainQueue, w2);
      Next(s, w2, End, Struck(x, mishap));
  }

  function FateIn(mishap: Mishap): Fate { if mishap.Pressure? then Held else Closed }

  /** The batch after its record met that fate. */
  function OneProcessed(x: Entry, mishap: Mishap): World {
    Struck(x, mishap).(count := 1, loop := Inside(Batch(1, [x]), 1, false),
                       past := History([], Ledger(map[], map[]), map[1 := [x]], map[1 := [FateIn(mishap)]]))
  }

  /** And bound to a count of zero, with its ack issued. */
  function OneAcked(x: Entry, mishap: Mishap): World {
    OneProcessed(x, mishap).(
      receivers := map[], loop := Between, table := Table(map[CHANNEL := Channel(1, 1, map[])], map[]),
      past := History([], Ledger(map[CHANNEL := [1]], map[1 := 0]), map[1 := [x]], map[1 := [FateIn(mishap)]]))
  }

  lemma OneProcessedIsReached(s: Setup, x: Entry, mishap: Mishap)
    requires Fits(s, x, mishap)
    ensures Reaches(s, Start(), OneProcessed(x, mishap))
  {
    hide Reaches;
    StruckIsReached(s, x, mishap);
    var w, fate := Struck(x, mishap), FateIn(mishap);
    assert FateOf(s, w, x) == fate;
    assert [] + [fate] == [fate] && w.past.fates[1 := [fate]] == map[1 := [fate]];
    Next(s, w, Process, OneProcessed(x, mishap));
  }

  lemma OneAckedIsReached(s: Setup, x: Entry, mishap: Mishap)
    requires Fits(s, x, mishap)
    ensures Reaches(s, Start(), OneAcked(x, mishap))
  {
    hide Reaches, FateOf;
    OneProcessedIsReached(s, x, mishap);
    var w3 := OneProcessed(x, mishap);
    var w4 := w3.(loop := Between, table := Table(map[], map[1 := 0]), past := w3.past.(ledger := Ledger(map[], map[1 := 0])));
    Next(s, w3, BindOpen, w4);
    assert Do(s, w4, IssueAck(0, 0)) == OneAcked(x, mishap) by {
      AtOnce();
      assert IssuedOn(w4.past.ledger, CHANNEL) + [1] == [1];
      assert w4.receivers - {0} == map[];
    }
    Next(s, w4, IssueAck(0, 0), OneAcked(x, mishap));
  }

  /** An id bound to a count of zero is retired as it is issued. */
  lemma AtOnce()
    ensures Issue(Table(map[], map[1 := 0]), CHANNEL, 1, 0) == Table(map[CHANNEL := Channel(1, 1, map[])], map[])
  {
    var c := Channel(1, 0, map[0 := 1]);
    assert Enter(Channel(0, 0, map[]), 1) == c;
    assert c.pending - {0} == map[] && map[1 := 0] - {1} == map[];
    assert Retire(Channel(1, 1, map[]), map[], 0) == (Channel(1, 1, map[]), map[]);
  }

  lemma OneAckedLacks(x: Entry, mishap: Mishap)
    ensures AckedInPart(OneAcked(x, mishap), 1)
  {
    assert AckedWithout(OneAcked(x, mishap), 1, CHANNEL, 0, 0);
  }

  /** Room for a hundred records and a batch of one: under critical pressure its record of the lowest class is
      held back, and the batch acknowledged. */
  lemma AcknowledgedThoughHeld()
    ensures var s := Setup(100, 0, x => false, true, false, false);
      exists w :: Reaches(s, Start(), w) && w.past.fates == map[1 := [Held]] && AckedInPart(w, 1)
  {
    var s := Setup(100, 0, x => false, true, false, false);
    OneAckedIsReached(s, DEBUG_LINE, Pressure);
    OneAckedLacks(DEBUG_LINE, Pressure);
    assert OneAcked(DEBUG_LINE, Pressure).past.fates == map[1 := [Held]];
  }

  /** The same with a writer whose log failed before anything was accepted: the record finds the queue closed, and
      the batch is acknowledged with nobody left to write it. */
  lemma AcknowledgedThoughClosed()
    ensures var s := Setup(100, 0, x => false, false, true, false);
      exists w :: Reaches(s, Start(), w) && w.past.fates == map[1 := [Closed]] && !w.writer.alive && AckedInPart(w, 1)
  {
    var s := Setup(100, 0, x => false, false, true, false);
    OneAckedIsReached(s, LINE, Breakdown);
    OneAckedLacks(LINE, Breakdown);
    assert OneAcked(LINE, Breakdown).past.fates == map[1 := [Closed]];
  }

  /** The same with nothing failing at all: the agent is told to stop, the writer, with nothing to drain, ends
      before the record loop is done with the open batch. */
  lemma AcknowledgedThoughStopping()
    ensures var s := Setup(100, 0, x => false, false, false, true);
      exists w :: Reaches(s, Start(), w) && w.past.fates == map[1 := [Closed]] && !w.writer.alive && AckedInPart(w, 1)
  {
    var s := Setup(100, 0, x => false, false, false, true);
    OneAckedIsReached(s, LINE, Shutdown);
    OneAckedLacks(LINE, Shutdown);
    assert OneAcked(LINE, Shutdown).past.fates == map[1 := [Closed]];
  }

  // ---- two batches and room for one record

  const SMALL := Setup(1, 0, x => false, false, false, false)
  const FIRST := Batch(1, [LINE])
  const SECOND := Batch(2, [LINE])

  /** Two receivers each find room for one record, and hand their batches off. */
  function Handed(): World {
    Start().(nextBatch := 3, handoff := [FIRST, SECOND],
             receivers := map[0 := Sent(1, CHANNEL), 1 := Sent(2, CHANNEL)])
  }

  lemma HandedIsReached()
    ensures Reaches(SMALL, Start(), Handed())
  {
    hide Reaches;
    var ch: Option<string> := Some(CHANNEL);
    var w0 := Start();
    var w1 := w0.(nextBatch := 2, receivers := map[0 := Took(FIRST, ch)]);
    var w2 := w1.(nextBatch := 3, receivers := map[0 := Took(FIRST, ch), 1 := Took(SECOND, ch)]);
    var w3 := w2.(receivers := map[0 := Checked(FIRST, ch), 1 := Took(SECOND, ch)]);
    var w4 := w3.(receivers := map[0 := Checked(FIRST, ch), 1 := Checked(SECOND, ch)]);
    var w5 := w4.(receivers := map[0 := Sent(1, CHANNEL), 1 := Checked(SECOND, ch)], handoff := [FIRST]);
    Stay(SMALL, w0);
    Next(SMALL, w0, Take(0, [LINE], ch), w1);
    Next(SMALL, w1, Take(1, [LINE], ch), w2);
    Next(SMALL, w2, CheckRoom(0), w3);
    Next(SMALL, w3, CheckRoom(1), w4);
    Next(SMALL, w4, HandOff(0, true), w5);
    Next(SMALL, w5, HandOff(1, true), Handed());
  }

  const ITEM := Item(1, 0, LINE)

  function BothBound(): Ledger { Ledger(map[], map[1 := 1, 2 := 1]) }

  /** The first batch fills the queue, the second is shed; both are bound to the count of one. */
  function Processed(): World {
    Handed().(handoff := [], queue := [ITEM], enqueued := 1, count := 2, table := Table(map[], map[1 := 1, 2 := 1]),
              past := History([ITEM], BothBound(), map[1 := [LINE], 2 := [LINE]], map[1 := [Enqueued], 2 := [Shed]]))
  }

  /** The first batch bound, the second still waiting. */
  function FirstBound(): World {
    Handed().(handoff := [SECOND], queue := [ITEM], enqueued := 1, count := 1, table := Table(map[], map[1 := 1]),
              past := History([ITEM], Ledger(map[], map[1 := 1]), map[1 := [LINE]], map[1 := [Enqueued]]))
  }

  lemma FirstBoundIsReached()
    ensures Reaches(SMALL, Start(), FirstBound())
  {
    hide Reaches;
    var none := Ledger(map[], map[]);
    var w0 := Handed();
    var w1 := w0.(handoff := [SECOND], loop := Inside(FIRST, 0, false),
                  past := History([], none, map[1 := [LINE]], map[1 := []]));
    var w2 := w1.(queue := [ITEM], enqueued := 1, count := 1, loop := Inside(FIRST, 1, false),
                  past := History([ITEM], none, map[1 := [LINE]], map[1 := [Enqueued]]));
    HandedIsReached();
    Next(SMALL, w0, Open, w1);
    assert [] + [ITEM] == [ITEM] && [] + [Enqueued] == [Enqueued] && w1.past.fates[1 := [Enqueued]] == w2.past.fates;
    Next(SMALL, w1, Process, w2);
    Next(SMALL, w2, BindOpen, FirstBound());
  }

  lemma ProcessedIsReached()
    ensures Reaches(SMALL, Start(), Processed())
  {
    hide Reaches;
    var w3 := FirstBound();
    var w4 := w3.(handoff := [], loop := Inside(SECOND, 0, false),
                  past := History([ITEM], w3.past.ledger, map[1 := [LINE], 2 := [LINE]], map[1 := [Enqueued], 2 := []]));
    var w5 := w4.(count := 2, loop := Inside(SECOND, 1, false),
                  past := w4.past.(fates := map[1 := [Enqueued], 2 := [Shed]]));
    FirstBoundIsReached();
    Next(SMALL, w3, Open, w4);
    assert [] + [Shed] == [Shed] && w4.past.fates[2 := [Shed]] == w5.past.fates;
    Next(SMALL, w4, Process, w5);
    Next(SMALL, w5, BindOpen, Processed());
  }

  /** Both acks are issued, and the one accepted record reaches the disk. */
  function Published(): World {
    Processed().(receivers := map[], queue := [], writer := Writer(true, [], Log([ITEM], 1), Log([], 0)), synced := 1,
                 table := Table(map[CHANNEL := Channel(2, 0, map[0 := 1, 1 := 2])], map[1 := 1, 2 := 1]),
                 past := Processed().past.(ledger := Ledger(map[CHANNEL := [1, 2]], map[1 := 1, 2 := 1])))
  }

  /** After both acks are issued. */
  function Issued(): World {
    Published().(queue := [ITEM], writer := Start().writer, synced := 0)
  }

  lemma IssuedIsReached()
    ensures Reaches(SMALL, Start(), Issued())
  {
    hide Reaches;
    var marks := map[1 := 1, 2 := 1];
    var w0 := Processed();
    var w1 := w0.(receivers := map[1 := Sent(2, CHANNEL)], table := Table(map[CHANNEL := Channel(1, 0, map[0 := 1])], marks),
                  past := w0.past.(ledger := Ledger(map[CHANNEL := [1]], marks)));
    ProcessedIsReached();
    assert Do(SMALL, w0, IssueAck(0, 0)) == w1 by {
      assert Issue(w0.table, CHANNEL, 1, 0) == w1.table;
      assert IssuedOn(w0.past.ledger, CHANNEL) + [1] == [1];
      assert IssueIn(w0.past.ledger, CHANNEL, 1) == w1.past.ledger;
      assert w0.receivers - {0} == w1.receivers;
    }
    Next(SMALL, w0, IssueAck(0, 0), w1);
    assert Do(SMALL, w1, IssueAck(1, 0)) == Issued() by {
      assert Issue(w1.table, CHANNEL, 2, 0) == Issued().table;
      assert IssuedOn(w1.past.ledger, CHANNEL) + [2] == [1, 2];
      assert IssueIn(w1.past.ledger, CHANNEL, 2) == Issued().past.ledger;
      assert w1.receivers - {1} == map[];
    }
    Next(SMALL, w1, IssueAck(1, 0), Issued());
  }

  lemma PublishedIsReached()
    ensures Reaches(SMALL, Start(), Published())
  {
    hide Reaches;
    var w2 := Issued();
    var w3 := w2.(queue := [], writer := w2.writer.(hand := [ITEM]));
    var w4 := w3.(writer := Writer(true, [], Log([ITEM], 0), Log([], 0)));
    var w5 := w4.(writer := Writer(true, [], Log([ITEM], 1), Log([], 0)));
    IssuedIsReached();
    Next(SMALL, w2, Fetch(1), w3);
    Next(SMALL, w3, Append(0), w4);
    Next(SMALL, w4, SyncMain, w5);
    Next(SMALL, w5, Publish, Published());
  }

  /** Each of two batches of one record is admitted with room for one. The second is shed, and acknowledged. */
  lemma AcknowledgedThoughShed()
    ensures exists w :: Reaches(SMALL, Start(), w) && 2 in w.past.fates && w.past.fates[2] == [Shed] && AckedInPart(w, 2)
  {
    PublishedIsReached();
    assert AckedWithout(Published(), 2, CHANNEL, 1, 0);
  }
}
