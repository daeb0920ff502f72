/** Whole runs of a miner that is saved to the catalog now and then and restarted from what was last saved. A
    restart forgets the lines since the save, and mints their ids again; it forgets nothing else. */
module MinerRollback {
  import opened Miner
  import opened MinerRestart
  import opened MinerHistory
  import opened MinerCatalog

  /** A line, a save of every template in whatever order the miner lists them, or a restart. */
  datatype Happening = Fed(line: Line) | Stored(order: seq<Template>) | Reopened

  datatype Live = Live(miner: State, table: Table)

  const NEW: Live := Live(FRESH, map[])

  ghost function After(cfg: Config, live: Live, h: Happening): Live {
    match h
    case Fed(line) => live.(miner := Step(cfg, live.miner, line).0)
    case Stored(order) => live.(table := Save(live.table, order))
    case Reopened => live.(miner := Restore(cfg, Load(live.table)))
  }

  /** A save lists the templates there are, and lines are masked into tokens without separators. */
  ghost predicate Possible(live: Live, h: Happening) {
    match h
    case Fed(line) => Clean(line.masked)
    case Stored(order) => Lists(order, live.miner.templates)
    case Reopened => true
  }

  ghost predicate Leads(cfg: Config, live: Live, history: seq<Happening>, live': Live)
    decreases |history|
  {
    if history == [] then live' == live
    else Possible(live, history[0]) && Leads(cfg, After(cfg, live, history[0]), history[1..], live')
  }

  /** The lines that count: those up to the last save, and those since it or since the last restart. */
  datatype Kept = Kept(saved: seq<Line>, since: seq<Line>)

  function Keep(k: Kept, h: Happening): Kept {
    match h
    case Fed(line) => Kept(k.saved, k.since + [line])
    case Stored(_) => Kept(k.saved + k.since, [])
    case Reopened => Kept(k.saved, [])
  }

  function KeepAll(k: Kept, history: seq<Happening>): Kept
    decreases |history|
  {
    if history == [] then k else KeepAll(Keep(k, history[0]), history[1..])
  }

  /** The miner that was fed these lines and never restarted. */
  function Straight(cfg: Config, lines: seq<Line>): State {
    if lines == [] then FRESH else Step(cfg, Straight(cfg, lines[..|lines|-1]), lines[|lines|-1]).0
  }

  lemma {:induction false} StraightInv(cfg: Config, lines: seq<Line>)
    ensures Inv(cfg, Straight(cfg, lines))
  {
    hide Inv, Step;
    if lines == [] {
      FreshInv(cfg);
    } else {
      StraightInv(cfg, lines[..|lines|-1]);
      StepInv(cfg, Straight(cfg, lines[..|lines|-1]), lines[|lines|-1]);
    }
  }

  /** The table is a save of the miner that was fed the saved lines. */
  ghost predicate TableOf(cfg: Config, table: Table, saved: seq<Line>) {
    var m := Straight(cfg, saved);
    Inv(cfg, m) && CleanTemplates(m.templates) && Follows(table, m.templates) && Load(table) == Saved(m)
  }

  /** The live miner is alike to the straight one. */
  ghost predicate Linked(cfg: Config, live: Live, k: Kept) {
    && Inv(cfg, live.miner) && Alike(live.miner, Straight(cfg, k.saved + k.since))
    && CleanTemplates(live.miner.templates) && Follows(live.table, live.miner.templates)
    && TableOf(cfg, live.table, k.saved)
  }

  lemma NewIsLinked(cfg: Config)
    ensures Linked(cfg, NEW, Kept([], []))
  {
    FreshInv(cfg);
    var none: seq<Line> := [];
    assert none + none == none;
    NothingAbove(map[], 0, Above(map[]));
  }

  lemma FedIsLinked(cfg: Config, live: Live, k: Kept, line: Line)
    requires Linked(cfg, live, k) && Clean(line.masked)
    ensures Linked(cfg, After(cfg, live, Fed(line)), Keep(k, Fed(line)))
  {
    hide Step, Inv, CleanTemplates, Follows, TableOf, Clean, Alike;
    var lines := k.saved + k.since + [line];
    assert k.saved + (k.since + [line]) == lines && lines[..|lines|-1] == k.saved + k.since;
    StepInv(cfg, live.miner, line);
    AlikeStep(cfg, live.miner, Straight(cfg, k.saved + k.since), line);
    StepKeepsClean(cfg, live.miner, line);
    StepKeepsFollows(cfg, live.miner, line, live.table);
  }

  lemma StoredIsLinked(cfg: Config, live: Live, k: Kept, order: seq<Template>)
    requires Linked(cfg, live, k) && Lists(order, live.miner.templates)
    ensures Linked(cfg, After(cfg, live, Stored(order)), Keep(k, Stored(order)))
  {
    hide Straight, Load, Save, Lists, CleanTemplates, Follows, TreeInv, ShapesInv, LineagesInv;
    var lines := k.saved + k.since;
    assert lines + [] == lines;
    StraightInv(cfg, lines);
    SaveThenLoad(live.table, live.miner, order);
    SameSaved(live.miner, Straight(cfg, lines));
  }

  lemma SameSaved(m: State, m': State)
    requires IdsInv(m) && IdsInv(m') && Alike(m, m')
    ensures Saved(m) == Saved(m')
  {
  }

  lemma ReopenedIsLinked(cfg: Config, live: Live, k: Kept)
    requires Linked(cfg, live, k)
    ensures Linked(cfg, After(cfg, live, Reopened), Keep(k, Reopened))
  {
    hide Straight, Load, Restore, CleanTemplates, Follows, TreeInv, ShapesInv, LineagesInv;
    assert k.saved + [] == k.saved;
    RestartRebuilds(cfg, Straight(cfg, k.saved));
  }

  lemma {:induction false} HistoryIsLinked(cfg: Config, live: Live, k: Kept, history: seq<Happening>, live': Live)
    requires Linked(cfg, live, k) && Leads(cfg, live, history, live')
    ensures Linked(cfg, live', KeepAll(k, history))
    decreases |history|
  {
    hide Linked, After, Clean, Lists;
    if history != [] {
      match history[0] {
        case Fed(line) => FedIsLinked(cfg, live, k, line);
        case Stored(order) => StoredIsLinked(cfg, live, k, order);
        case Reopened => ReopenedIsLinked(cfg, live, k);
      }
      HistoryIsLinked(cfg, After(cfg, live, history[0]), Keep(k, history[0]), history[1..], live');
    }
  }

  /** Restarts through the catalog, also from an older save: after any history of lines, saves and restarts, the
      miner gives every line the result of a miner that never restarted and was never fed the lines a restart
      lost. In particular its next id is that miner's, so lost ids are minted again. */
  lemma RestartsForgetOnlyTheUnsaved(cfg: Config, history: seq<Happening>, live: Live, line: Line)
    requires Leads(cfg, NEW, history, live)
    ensures var k := KeepAll(Kept([], []), history); var straight := Straight(cfg, k.saved + k.since);
      && Step(cfg, live.miner, line).1 == Step(cfg, straight, line).1
      && live.miner.nextId == straight.nextId && live.miner.templates == straight.templates
  {
    hide Leads, Step, Straight, Inv, TableOf, CleanTemplates, Follows, KeepAll;
    NewIsLinked(cfg);
    HistoryIsLinked(cfg, NEW, Kept([], []), history, live);
    var k := KeepAll(Kept([], []), history);
    AlikeStep(cfg, live.miner, Straight(cfg, k.saved + k.since), line);
  }
}
