/** Acknowledgement ids for batches of records: a table that retires ids from the bottom of each channel once
    they are durable, and the ledger it stands for, which forgets nothing. */
module AckTable {
  /** Outstanding ids a channel may have before it is refused. */
  const MAX_OUTSTANDING: nat := 8192

  /** Ids below `durableFloor` were durable when they were retired. `pending` maps the others to batches. */
  datatype Channel = Channel(nextId: nat, durableFloor: nat, pending: map<nat, nat>)

  /** `watermarks` maps a batch to the record count that must be synced before it is durable. */
  datatype Table = Table(channels: map<string, Channel>, watermarks: map<nat, nat>)

  predicate Reached(watermarks: map<nat, nat>, batch: nat, synced: nat) {
    batch in watermarks && synced >= watermarks[batch]
  }

  function ChannelOf(t: Table, channel: string): Channel {
    if channel in t.channels then t.channels[channel] else Channel(0, 0, map[])
  }

  /** Ids retired from the floor up, each with its watermark, until one is not durable. */
  function Retire(c: Channel, watermarks: map<nat, nat>, synced: nat): (Channel, map<nat, nat>)
    decreases c.nextId - c.durableFloor
  {
    var id := c.durableFloor;
    if id >= c.nextId then (c, watermarks)
    else if id !in c.pending then Retire(c.(durableFloor := id + 1), watermarks, synced)
    else if Reached(watermarks, c.pending[id], synced) then
      Retire(c.(durableFloor := id + 1, pending := c.pending - {id}), watermarks - {c.pending[id]}, synced)
    else (c, watermarks)
  }

  /** What a retirement comes to: the ids up to the first whose batch is not synced are gone with their watermarks,
      and nothing else is. */
  ghost predicate Retired(c: Channel, watermarks: map<nat, nat>, synced: nat, c': Channel, watermarks': map<nat, nat>) {
    && c'.nextId == c.nextId && c.durableFloor <= c'.durableFloor
    && (c.durableFloor < c'.durableFloor ==> c'.durableFloor <= c.nextId)
    && (forall id: nat :: id in c'.pending <==> id in c.pending && !(c.durableFloor <= id < c'.durableFloor))
    && (forall id: nat :: id in c'.pending ==> c'.pending[id] == c.pending[id])
    && (forall id: nat :: c.durableFloor <= id < c'.durableFloor && id in c.pending ==> Reached(watermarks, c.pending[id], synced))
    && (c'.durableFloor < c.nextId ==> c'.durableFloor in c.pending && !Reached(watermarks', c.pending[c'.durableFloor], synced))
    && (forall q :: q in watermarks' <==> q in watermarks && !RetiredBatch(c, c', q))
    && (forall q :: q in watermarks' ==> watermarks'[q] == watermarks[q])
  }

  ghost predicate RetiredBatch(c: Channel, c': Channel, q: nat) {
    exists id: nat :: c.durableFloor <= id < c'.durableFloor && id in c.pending && c.pending[id] == q
  }

  lemma {:induction false} RetireIs(c: Channel, watermarks: map<nat, nat>, synced: nat)
    ensures var (c', watermarks') := Retire(c, watermarks, synced); Retired(c, watermarks, synced, c', watermarks')
    decreases c.nextId - c.durableFloor
  {
    hide Retired, Reached;
    var id := c.durableFloor;
    if id >= c.nextId || (id in c.pending && !Reached(watermarks, c.pending[id], synced)) {
      NothingRetired(c, watermarks, synced);
    } else if id !in c.pending {
      RetireIs(c.(durableFloor := id + 1), watermarks, synced);
      var (c', watermarks') := Retire(c, watermarks, synced);
      RetiredFrom(c, watermarks, synced, c', watermarks');
    } else {
      RetireIs(c.(durableFloor := id + 1, pending := c.pending - {id}), watermarks - {c.pending[id]}, synced);
      var (c', watermarks') := Retire(c, watermarks, synced);
      RetiredFrom(c, watermarks, synced, c', watermarks');
    }
  }

  lemma NothingRetired(c: Channel, watermarks: map<nat, nat>, synced: nat)
    requires c.durableFloor >= c.nextId ||
      (c.durableFloor in c.pending && !Reached(watermarks, c.pending[c.durableFloor], synced))
    ensures Retired(c, watermarks, synced, c, watermarks)
  {
  }

  /** One id at the floor, then the rest. */
  lemma RetiredFrom(c: Channel, watermarks: map<nat, nat>, synced: nat, c': Channel, watermarks': map<nat, nat>)
    requires c.durableFloor < c.nextId
    requires var id := c.durableFloor;
      if id in c.pending then
        && Reached(watermarks, c.pending[id], synced)
        && Retired(c.(durableFloor := id + 1, pending := c.pending - {id}), watermarks - {c.pending[id]}, synced, c', watermarks')
      else Retired(c.(durableFloor := id + 1), watermarks, synced, c', watermarks')
    ensures Retired(c, watermarks, synced, c', watermarks')
  {
    var id := c.durableFloor;
    var next := if id in c.pending then c.(durableFloor := id + 1, pending := c.pending - {id}) else c.(durableFloor := id + 1);
    forall q ensures RetiredBatch(c, c', q) <==> RetiredBatch(next, c', q) || (id in c.pending && q == c.pending[id]) {
      if RetiredBatch(c, c', q) {
        var i: nat :| c.durableFloor <= i < c'.durableFloor && i in c.pending && c.pending[i] == q;
        if i != id { assert i in next.pending; }
      }
      if RetiredBatch(next, c', q) {
        var i: nat :| next.durableFloor <= i < c'.durableFloor && i in next.pending && next.pending[i] == q;
        assert i in c.pending;
      }
    }
  }

  function Enter(c: Channel, batch: nat): Channel {
    c.(nextId := c.nextId + 1, pending := c.pending[c.nextId := batch])
  }

  function Issue(t: Table, channel: string, batch: nat, synced: nat): Table {
    var (c, watermarks) := Retire(Enter(ChannelOf(t, channel), batch), t.watermarks, synced);
    Table(t.channels[channel := c], watermarks)
  }

  function Bind(t: Table, batch: nat, count: nat): Table {
    t.(watermarks := t.watermarks[batch := count])
  }

  /** The answer to a poll. */
  predicate Answer(t: Table, channel: string, id: nat, synced: nat) {
    && channel in t.channels
    && var c := t.channels[channel];
       id < c.durableFloor || (id in c.pending && Reached(t.watermarks, c.pending[id], synced))
  }

  class Acks {
    var channels: map<string, Channel>
    var watermarks: map<nat, nat>
    var nextBatch: nat

    constructor ()
      ensures View() == Table(map[], map[]) && nextBatch == 1
    {
      channels, watermarks, nextBatch := map[], map[], 1;
    }

    ghost function View(): Table
      reads this
    {
      Table(channels, watermarks)
    }

    method NextBatchSeq() returns (batch: nat)
      modifies this`nextBatch
      ensures batch == old(nextBatch) && nextBatch == batch + 1
    {
      batch := nextBatch;
      nextBatch := nextBatch + 1;
    }

    /** Retires the leading run of durable ids of a channel, with their watermarks. */
    method RetireDurablePrefix(entry: Channel, synced: nat) returns (c: Channel)
      modifies this`watermarks
      ensures (c, watermarks) == Retire(entry, old(watermarks), synced)
      ensures Retired(entry, old(watermarks), synced, c, watermarks)
    {
      RetireIs(entry, watermarks, synced);
      hide Retired;
      c := entry;
      while c.durableFloor < c.nextId
        invariant Retire(c, watermarks, synced) == Retire(entry, old(watermarks), synced)
        decreases c.nextId - c.durableFloor
      {
        if c.durableFloor in c.pending {
          var batch := c.pending[c.durableFloor];
          if batch !in watermarks || synced < watermarks[batch] {
            break;
          }
          c := c.(pending := c.pending - {c.durableFloor}, durableFloor := c.durableFloor + 1);
          watermarks := watermarks - {batch};
        } else {
          c := c.(durableFloor := c.durableFloor + 1);
        }
      }
    }

    method IssueId(channel: string, batch: nat, synced: nat) returns (id: nat)
      modifies this`channels, this`watermarks
      ensures id == ChannelOf(old(View()), channel).nextId
      ensures View() == Issue(old(View()), channel, batch, synced)
      ensures channel in channels && (forall a :: a in old(channels) && a != channel ==> a in channels && channels[a] == old(channels)[a])
      ensures var was := ChannelOf(old(View()), channel);
        Retired(was.(nextId := id + 1, pending := was.pending[id := batch]), old(watermarks), synced, channels[channel], watermarks)
    {
      hide Retired;
      var entry := if channel in channels then channels[channel] else Channel(0, 0, map[]);
      id := entry.nextId;
      entry := entry.(nextId := id + 1, pending := entry.pending[id := batch]);
      entry := RetireDurablePrefix(entry, synced);
      channels := channels[channel := entry];
    }

    method BindBatch(batch: nat, count: nat)
      modifies this`watermarks
      ensures View() == Bind(old(View()), batch, count)
    {
      watermarks := watermarks[batch := count];
    }

    method Query(channel: string, ids: seq<nat>, synced: nat) returns (answers: seq<(nat, bool)>)
      ensures |answers| == |ids|
      ensures forall i :: 0 <= i < |ids| ==> answers[i] == (ids[i], Answer(View(), channel, ids[i], synced))
    {
      answers := [];
      for i := 0 to |ids|
        invariant |answers| == i
        invariant forall j :: 0 <= j < i ==> answers[j] == (ids[j], Answer(View(), channel, ids[j], synced))
      {
        var id, durable := ids[i], false;
        if channel in channels {
          var entry := channels[channel];
          if id < entry.durableFloor {
            durable := true;
          } else if id in entry.pending && entry.pending[id] in watermarks {
            durable := synced >= watermarks[entry.pending[id]];
          }
        }
        answers := answers + [(id, durable)];
      }
    }

    /** Whether a channel may take another id: fewer than the limit are issued on it and not yet retired. */
    method HasCapacity(channel: string, ghost ledger: Ledger, ghost synced: nat) returns (open: bool)
      requires Tracks(View(), ledger, synced)
      ensures open <==> |IssuedOn(ledger, channel)| - ChannelOf(View(), channel).durableFloor < MAX_OUTSTANDING
    {
      open := channel !in channels || |channels[channel].pending| < MAX_OUTSTANDING;
      if channel in channels {
        RangeSize(channels[channel].pending.Keys, channels[channel].durableFloor, channels[channel].nextId);
      }
    }
  }

  lemma {:induction false} RangeSize(keys: set<nat>, lo: nat, hi: nat)
    requires lo <= hi && forall i: nat :: i in keys <==> lo <= i < hi
    ensures |keys| == hi - lo
    decreases hi
  {
    if lo == hi {
      assert keys == {};
    } else {
      RangeSize(keys - {hi - 1}, lo, hi - 1);
    }
  }

  // ---- the ledger

  /** Every batch issued on each channel, in id order, and every watermark ever bound. */
  datatype Ledger = Ledger(issued: map<string, seq<nat>>, bound: map<nat, nat>)

  function IssuedOn(l: Ledger, channel: string): seq<nat> {
    if channel in l.issued then l.issued[channel] else []
  }

  ghost predicate IsIssued(l: Ledger, batch: nat) {
    exists channel :: channel in l.issued && batch in l.issued[channel]
  }

  function IssueIn(l: Ledger, channel: string, batch: nat): Ledger {
    l.(issued := l.issued[channel := IssuedOn(l, channel) + [batch]])
  }

  function BindIn(l: Ledger, batch: nat, count: nat): Ledger {
    l.(bound := l.bound[batch := count])
  }

  /** What an id is worth: it was issued, its batch was bound, and the count it needs is synced. */
  predicate Acknowledged(l: Ledger, channel: string, id: nat, synced: nat) {
    id < |IssuedOn(l, channel)| && Reached(l.bound, IssuedOn(l, channel)[id], synced)
  }

  /** No batch is issued twice. */
  ghost predicate IssuedOnce(l: Ledger) {
    forall a, i: nat, b, j: nat ::
      a in l.issued && b in l.issued && i < |l.issued[a]| && j < |l.issued[b]| && l.issued[a][i] == l.issued[b][j]
      ==> a == b && i == j
  }

  /** A channel holds exactly the ids from its floor up; those below the floor have been synced. */
  ghost predicate ChannelTracks(c: Channel, issued: seq<nat>, bound: map<nat, nat>, synced: nat) {
    && c.durableFloor <= c.nextId == |issued|
    && (forall i: nat :: i in c.pending <==> c.durableFloor <= i < c.nextId)
    && (forall i: nat :: c.durableFloor <= i < c.nextId ==> c.pending[i] == issued[i])
    && (forall i: nat :: i < c.durableFloor ==> Reached(bound, issued[i], synced))
  }

  /** The watermarks are the ledger's, and every one still needed is there. */
  ghost predicate WatermarksTrack(t: Table, l: Ledger) {
    && (forall q :: q in t.watermarks ==> q in l.bound && l.bound[q] == t.watermarks[q])
    && (forall q :: q in l.bound && !IsIssued(l, q) ==> q in t.watermarks)
    && (forall a, i: nat :: a in t.channels && i in t.channels[a].pending && t.channels[a].pending[i] in l.bound
          ==> t.channels[a].pending[i] in t.watermarks)
  }

  ghost predicate Tracks(t: Table, l: Ledger, synced: nat) {
    && t.channels.Keys == l.issued.Keys
    && (forall a :: a in t.channels ==> ChannelTracks(t.channels[a], l.issued[a], l.bound, synced))
    && WatermarksTrack(t, l)
    && IssuedOnce(l)
  }

  /** Retiring loses nothing: a poll at the published count answers what the ledger says, and one that read
      an older count answers between the two. */
  lemma AnswersAreTheLedgers(t: Table, l: Ledger, channel: string, id: nat, observed: nat, synced: nat)
    requires Tracks(t, l, synced) && observed <= synced
    ensures Answer(t, channel, id, synced) <==> Acknowledged(l, channel, id, synced)
    ensures Answer(t, channel, id, observed) ==> Acknowledged(l, channel, id, synced)
    ensures Acknowledged(l, channel, id, observed) ==> Answer(t, channel, id, observed)
  {
    if channel in t.channels {
      assert ChannelTracks(t.channels[channel], l.issued[channel], l.bound, synced);
    }
  }

  lemma PublishTracks(t: Table, l: Ledger, before: nat, after: nat)
    requires Tracks(t, l, before) && before <= after
    ensures Tracks(t, l, after)
  {
    forall a | a in t.channels ensures ChannelTracks(t.channels[a], l.issued[a], l.bound, after) {
      assert ChannelTracks(t.channels[a], l.issued[a], l.bound, before);
    }
  }

  lemma BindKeepsIssued(l: Ledger, batch: nat, count: nat)
    ensures IssuedOnce(l) ==> IssuedOnce(BindIn(l, batch, count))
    ensures forall q :: IsIssued(BindIn(l, batch, count), q) <==> IsIssued(l, q)
  {
  }

  lemma BindTracks(t: Table, l: Ledger, batch: nat, count: nat, synced: nat)
    requires Tracks(t, l, synced) && batch !in l.bound
    ensures Tracks(Bind(t, batch, count), BindIn(l, batch, count), synced)
  {
    hide IssuedOnce, WatermarksTrack;
    var l' := BindIn(l, batch, count);
    BindKeepsIssued(l, batch, count);
    BindWatermarks(t, l, batch, count);
    forall a | a in t.channels ensures ChannelTracks(t.channels[a], l'.issued[a], l'.bound, synced) {
      assert ChannelTracks(t.channels[a], l.issued[a], l.bound, synced);
    }
  }

  lemma BindWatermarks(t: Table, l: Ledger, batch: nat, count: nat)
    requires WatermarksTrack(t, l)
    ensures WatermarksTrack(Bind(t, batch, count), BindIn(l, batch, count))
  {
    hide IsIssued;
    BindKeepsIssued(l, batch, count);
    assert forall q :: IsIssued(l, q) ==> IsIssued(BindIn(l, batch, count), q);
  }

  lemma IssueTracks(t: Table, l: Ledger, channel: string, batch: nat, observed: nat, synced: nat)
    requires Tracks(t, l, synced) && observed <= synced && !IsIssued(l, batch)
    ensures Tracks(Issue(t, channel, batch, observed), IssueIn(l, channel, batch), synced)
    ensures ChannelOf(t, channel).nextId == |IssuedOn(l, channel)|
  {
    hide Retire, Tracks;
    var c := Enter(ChannelOf(t, channel), batch);
    EnterTracks(t, l, channel, batch, synced);
    var entered := Table(t.channels[channel := c], t.watermarks);
    RetireTracks(entered, IssueIn(l, channel, batch), channel, observed, synced);
    var (c', watermarks) := Retire(c, t.watermarks, observed);
    assert entered.channels[channel := c'] == t.channels[channel := c'];
  }

  lemma EnterTracks(t: Table, l: Ledger, channel: string, batch: nat, synced: nat)
    requires Tracks(t, l, synced) && !IsIssued(l, batch)
    ensures var c := Enter(ChannelOf(t, channel), batch);
      Tracks(Table(t.channels[channel := c], t.watermarks), IssueIn(l, channel, batch), synced)
    ensures ChannelOf(t, channel).nextId == |IssuedOn(l, channel)|
  {
    hide IssuedOnce, IsIssued, WatermarksTrack;
    var c, l' := Enter(ChannelOf(t, channel), batch), IssueIn(l, channel, batch);
    var t' := Table(t.channels[channel := c], t.watermarks);
    forall a | a in t'.channels ensures ChannelTracks(t'.channels[a], l'.issued[a], l'.bound, synced) {
      if a in t.channels {
        assert ChannelTracks(t.channels[a], l.issued[a], l.bound, synced);
      }
    }
    EnterIsIssued(l, channel, batch);
    EnterWatermarks(t, l, channel, batch);
  }

  lemma EnterWatermarks(t: Table, l: Ledger, channel: string, batch: nat)
    requires WatermarksTrack(t, l) && IssuedOnce(l) && !IsIssued(l, batch)
    ensures WatermarksTrack(Table(t.channels[channel := Enter(ChannelOf(t, channel), batch)], t.watermarks),
                            IssueIn(l, channel, batch))
  {
    hide IssuedOnce, IsIssued;
    EnterIsIssued(l, channel, batch);
    assert forall q :: IsIssued(l, q) ==> IsIssued(IssueIn(l, channel, batch), q);
  }

  lemma EnterIsIssued(l: Ledger, channel: string, batch: nat)
    requires IssuedOnce(l) && !IsIssued(l, batch)
    ensures forall q :: IsIssued(IssueIn(l, channel, batch), q) <==> IsIssued(l, q) || q == batch
    ensures IssuedOnce(IssueIn(l, channel, batch))
  {
    var l' := IssueIn(l, channel, batch);
    assert batch in l'.issued[channel];
    forall q | IsIssued(l, q) ensures IsIssued(l', q) {
      var a :| a in l.issued && q in l.issued[a];
      assert q in l'.issued[a];
    }
    forall a, i: nat | a in l'.issued && i < |l'.issued[a]|
      ensures l'.issued[a][i] == batch <==> a == channel && i == |l'.issued[a]| - 1
    {
      if a in l.issued && i < |l.issued[a]| {
        assert l.issued[a][i] in l.issued[a];
      }
    }
  }

  /** The retirement loop, from any floor. */
  lemma {:induction false} RetireTracks(t: Table, l: Ledger, channel: string, observed: nat, synced: nat)
    requires Tracks(t, l, synced) && observed <= synced && channel in t.channels
    ensures var (c, watermarks) := Retire(t.channels[channel], t.watermarks, observed);
      Tracks(Table(t.channels[channel := c], watermarks), l, synced)
    decreases t.channels[channel].nextId - t.channels[channel].durableFloor
  {
    hide Tracks, Reached;
    var c := t.channels[channel];
    var id := c.durableFloor;
    FloorIsPending(t, l, channel, synced);
    if id < c.nextId && Reached(t.watermarks, c.pending[id], observed) {
      var c' := c.(durableFloor := id + 1, pending := c.pending - {id});
      var t' := Table(t.channels[channel := c'], t.watermarks - {c.pending[id]});
      RetireOneTracks(t, l, channel, observed, synced);
      RetireTracks(t', l, channel, observed, synced);
      var (c'', watermarks) := Retire(c, t.watermarks, observed);
      assert t'.channels[channel := c''] == t.channels[channel := c''];
    } else {
      assert t.channels[channel := c] == t.channels;
    }
  }

  lemma FloorIsPending(t: Table, l: Ledger, channel: string, synced: nat)
    requires Tracks(t, l, synced) && channel in t.channels
    ensures var c := t.channels[channel]; c.durableFloor < c.nextId ==> c.durableFloor in c.pending
  {
    assert ChannelTracks(t.channels[channel], l.issued[channel], l.bound, synced);
  }

  /** Of two pending ids, only one is for a given batch. */
  lemma PendingOnce(t: Table, l: Ledger, synced: nat, a: string, i: nat, b: string, j: nat)
    requires Tracks(t, l, synced) && a in t.channels && b in t.channels
    requires i in t.channels[a].pending && j in t.channels[b].pending
    requires t.channels[a].pending[i] == t.channels[b].pending[j]
    ensures a == b && i == j
  {
    hide WatermarksTrack;
    assert ChannelTracks(t.channels[a], l.issued[a], l.bound, synced);
    assert ChannelTracks(t.channels[b], l.issued[b], l.bound, synced);
    assert l.issued[a][i] == l.issued[b][j];
  }

  lemma RetireOneTracks(t: Table, l: Ledger, channel: string, observed: nat, synced: nat)
    requires Tracks(t, l, synced) && observed <= synced && channel in t.channels
    requires var c := t.channels[channel];
      c.durableFloor in c.pending && Reached(t.watermarks, c.pending[c.durableFloor], observed)
    ensures var c := t.channels[channel];
      var c' := c.(durableFloor := c.durableFloor + 1, pending := c.pending - {c.durableFloor});
      Tracks(Table(t.channels[channel := c'], t.watermarks - {c.pending[c.durableFloor]}), l, synced)
  {
    hide IssuedOnce, Reached;
    var c := t.channels[channel];
    var id := c.durableFloor;
    var c' := c.(durableFloor := id + 1, pending := c.pending - {id});
    var t' := Table(t.channels[channel := c'], t.watermarks - {c.pending[id]});
    hide ChannelTracks, WatermarksTrack;
    RetireOneChannel(t, l, channel, observed, synced);
    RetireOneWatermarks(t, l, channel, synced);
    forall a | a in t'.channels ensures ChannelTracks(t'.channels[a], l.issued[a], l.bound, synced) {
      assert a in t.channels;
    }
  }

  lemma RetireOneWatermarks(t: Table, l: Ledger, channel: string, synced: nat)
    requires Tracks(t, l, synced) && channel in t.channels
    requires var c := t.channels[channel]; c.durableFloor in c.pending && IsIssued(l, c.pending[c.durableFloor])
    ensures var c := t.channels[channel];
      var c' := c.(durableFloor := c.durableFloor + 1, pending := c.pending - {c.durableFloor});
      WatermarksTrack(Table(t.channels[channel := c'], t.watermarks - {c.pending[c.durableFloor]}), l)
  {
    hide IssuedOnce, ChannelTracks, IsIssued;
    var c := t.channels[channel];
    var id := c.durableFloor;
    var c' := c.(durableFloor := id + 1, pending := c.pending - {id});
    var t' := Table(t.channels[channel := c'], t.watermarks - {c.pending[id]});
    forall a, i: nat | a in t'.channels && i in t'.channels[a].pending && t'.channels[a].pending[i] in l.bound
      ensures t'.channels[a].pending[i] in t'.watermarks
    {
      if t'.channels[a].pending[i] == c.pending[id] {
        PendingOnce(t, l, synced, a, i, channel, id);
      }
    }
  }

  lemma RetireOneChannel(t: Table, l: Ledger, channel: string, observed: nat, synced: nat)
    requires Tracks(t, l, synced) && observed <= synced && channel in t.channels
    requires var c := t.channels[channel];
      c.durableFloor in c.pending && Reached(t.watermarks, c.pending[c.durableFloor], observed)
    ensures var c := t.channels[channel];
      && IsIssued(l, c.pending[c.durableFloor])
      && ChannelTracks(c.(durableFloor := c.durableFloor + 1, pending := c.pending - {c.durableFloor}),
                       l.issued[channel], l.bound, synced)
  {
    hide IssuedOnce;
    assert ChannelTracks(t.channels[channel], l.issued[channel], l.bound, synced);
  }

  // ---- answers only ever become true

  lemma {:induction false} RetireRaises(c: Channel, watermarks: map<nat, nat>, synced: nat)
    ensures Retire(c, watermarks, synced).0.durableFloor >= c.durableFloor
    decreases c.nextId - c.durableFloor
  {
    var id := c.durableFloor;
    if id < c.nextId {
      if id !in c.pending {
        RetireRaises(c.(durableFloor := id + 1), watermarks, synced);
      } else if Reached(watermarks, c.pending[id], synced) {
        RetireRaises(c.(durableFloor := id + 1, pending := c.pending - {id}), watermarks - {c.pending[id]}, synced);
      }
    }
  }

  /** No floor of `t` is above that of `t'`. */
  ghost predicate FloorsRise(t: Table, t': Table) {
    forall a :: a in t.channels ==> a in t'.channels && t.channels[a].durableFloor <= t'.channels[a].durableFloor
  }

  lemma IssueRaises(t: Table, channel: string, batch: nat, synced: nat)
    ensures FloorsRise(t, Issue(t, channel, batch, synced))
  {
    RetireRaises(Enter(ChannelOf(t, channel), batch), t.watermarks, synced);
  }

  /** `l'` holds all that `l` holds. */
  ghost predicate Extends(l: Ledger, l': Ledger) {
    && (forall a :: a in l.issued ==> a in l'.issued && l.issued[a] <= l'.issued[a])
    && (forall q :: q in l.bound ==> q in l'.bound && l'.bound[q] == l.bound[q])
  }

  /** An id once reported true is reported true by every later poll that reads no older a count. */
  lemma TrueStaysTrue(t: Table, l: Ledger, synced: nat, t': Table, l': Ledger, synced': nat,
                      channel: string, id: nat, observed: nat, observed': nat)
    requires Tracks(t, l, synced) && Tracks(t', l', synced') && FloorsRise(t, t') && Extends(l, l')
    requires observed <= synced && observed <= observed' <= synced' && Answer(t, channel, id, observed)
    ensures Answer(t', channel, id, observed')
  {
    var c := t.channels[channel];
    if id >= c.durableFloor {
      assert ChannelTracks(c, l.issued[channel], l.bound, synced);
      assert Acknowledged(l, channel, id, observed);
      assert l'.issued[channel][id] == l.issued[channel][id];
      AnswersAreTheLedgers(t', l', channel, id, observed', synced');
    }
  }
}
