/** The log writer's loop against the protocol: every pass over the real logs is a run of the writer's steps. */
module HecWriter {
  import opened Options
  import opened SplitWal
  import opened HecAcks
  import opened HecLosses

  /** The logs are the ones of the world, whose writer is in its loop with an empty hand. */
  ghost predicate Mirrors(logs: Logs, w: World)
    reads logs, logs.main, logs.late
  {
    logs.Valid() && !w.stop.Draining? && w.writer == Writer(true, [], logs.main.View(), logs.late.View())
  }

  /** One turn of the loop: a batch off the front of the queue is appended, the logs sync on their policy, and a
      count they give is published. */
  method WriterPass(s: Setup, logs: Logs, batch: seq<Item>, now: nat, payload: nat, latePayload: nat, elapsed: bool,
                    lateElapsed: bool, ghost w: World)
    returns (published: Option<nat>, ghost w': World)
    requires Mirrors(logs, w) && batch <= w.queue
    modifies logs.main, logs.late
    ensures Reaches(s, w, w') && Mirrors(logs, w')
    ensures w' == w.(queue := w.queue[|batch|..], writer := w'.writer, synced := w'.synced)
    ensures w'.synced == if published.Some? then published.value else w.synced
  {
    hide Reaches, Select;
    ghost var w1 := w.(queue := w.queue[|batch|..], writer := w.writer.(hand := batch));
    Stay(s, w);
    assert w1 == Do(s, w, Fetch(|batch|));
    Onward(s, w, w, Fetch(|batch|));
    hide Do, Can;
    ghost var cutoff := Saturating(now, logs.lateThreshold);
    ghost var main, late := logs.main.View(), logs.late.View();
    if batch != [] {
      logs.Append(batch, now, payload, latePayload);
    } else {
      NothingSelected(cutoff);
      assert main.items + [] == main.items && late.items + [] == late.items;
    }
    ghost var w2 := Appended(s, w, w1, cutoff, main, late, logs.main.View(), logs.late.View());
    published := logs.MaybeSync(now, elapsed, lateElapsed);
    w' := w2;
    if published.Some? {
      w' := Counted(s, w, w2);
    }
  }

  /** The last turn, once the agent is told to stop: what is left in the queue is appended, everything synced and
      published, and the writer ends. */
  method LastPass(s: Setup, logs: Logs, tail: seq<Item>, now: nat, payload: nat, latePayload: nat, ghost w: World)
    returns (published: nat, ghost w': World)
    requires Mirrors(logs, w) && w.stop.Signalled? && tail == w.queue
    modifies logs.main, logs.late
    ensures Reaches(s, w, w') && logs.Valid()
    ensures w' == w.(queue := [], stop := Draining, synced := published,
                     writer := Writer(false, [], logs.main.View(), logs.late.View()))
    ensures logs.main.items == old(logs.main.items) + Select(tail, Saturating(now, logs.lateThreshold), false)
    ensures logs.late.items == old(logs.late.items) + Select(tail, Saturating(now, logs.lateThreshold), true)
    ensures published == |logs.main.items| + |logs.late.items|
    ensures logs.main.syncedRecords == |logs.main.items| && logs.late.syncedRecords == |logs.late.items|
  {
    hide Reaches, Select;
    ghost var w1 := w.(queue := [], stop := Draining, writer := w.writer.(hand := tail));
    Stay(s, w);
    assert w1 == Do(s, w, DrainQueue);
    Onward(s, w, w, DrainQueue);
    hide Do, Can;
    ghost var cutoff := Saturating(now, logs.lateThreshold);
    ghost var main, late := logs.main.View(), logs.late.View();
    if tail != [] {
      logs.Append(tail, now, payload, latePayload);
    } else {
      NothingSelected(cutoff);
      assert main.items + [] == main.items && late.items + [] == late.items;
    }
    ghost var w2 := Appended(s, w, w1, cutoff, main, late, logs.main.View(), logs.late.View());
    published := logs.Sync();
    ghost var w3 := Counted(s, w, w2);
    w' := Ended(s, w, w3);
  }

  lemma Ended(s: Setup, w: World, w3: World) returns (w': World)
    requires Reaches(s, w, w3) && w3.writer.alive && w3.writer.hand == [] && w3.stop.Draining? && AllPublished(w3)
    ensures Reaches(s, w, w') && w' == w3.(writer := w3.writer.(alive := false))
  {
    hide Reaches;
    w' := Do(s, w3, End);
    Onward(s, w, w3, End);
  }

  /** Both logs synced to their ends, and the count published. */
  lemma Counted(s: Setup, w: World, w2: World) returns (w': World)
    requires Reaches(s, w, w2) && w2.writer.alive && w2.writer.hand == []
    ensures Reaches(s, w, w')
    ensures w' == w2.(synced := Written(w2),
                      writer := Writer(true, [], SyncLog(w2.writer.main), SyncLog(w2.writer.late)))
  {
    hide Reaches;
    var w3 := Do(s, w2, SyncMain);
    var w4 := Do(s, w3, SyncLate);
    w' := Do(s, w4, Publish);
    Onward(s, w, w2, SyncMain);
    Onward(s, w, w3, SyncLate);
    Onward(s, w, w4, Publish);
  }

  /** An append to both logs, with the syncs its rolls brought: the late log may have rolled before it took its
      share, and either after. */
  lemma Appended(s: Setup, w: World, w1: World, cutoff: nat, main: Log, late: Log, main': Log, late': Log)
    returns (w2: World)
    requires Reaches(s, w, w1) && w1.writer == Writer(true, w1.writer.hand, main, late)
    requires main'.items == Write(main, Select(w1.writer.hand, cutoff, false)).items
    requires late'.items == Write(late, Select(w1.writer.hand, cutoff, true)).items
    requires main'.synced in {main.synced, |main'.items|} && late'.synced in {late.synced, |late.items|, |late'.items|}
    ensures Reaches(s, w, w2) && w2 == w1.(writer := Writer(true, [], main', late'))
  {
    hide Reaches, Select;
    w2 := w1;
    if late'.synced == |late.items| {
      w2 := Do(s, w1, SyncLate);
      Onward(s, w, w1, SyncLate);
    }
    Onward(s, w, w2, Append(cutoff));
    w2 := Do(s, w2, Append(cutoff));
    if main'.synced == |main'.items| {
      Onward(s, w, w2, SyncMain);
      w2 := Do(s, w2, SyncMain);
    }
    if late'.synced == |late'.items| {
      Onward(s, w, w2, SyncLate);
      w2 := Do(s, w2, SyncLate);
    }
  }
}
