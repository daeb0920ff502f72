/** The `templates` table of the catalog: what a restarting miner is handed. */
module MinerCatalog {
  import opened Tokens
  import opened Miner
  import opened MinerRestart
  import opened MinerMoves
  import opened MinerHistory

  /** One row; `tokens` is the tab-joined column. */
  datatype Row = Row(text: string, tokens: string, count: nat, firstSeen: nat, lastSeen: nat, lineage: nat)

  type Table = map<nat, Row>

  /** Insert, or on conflict replace everything but the first sighting and the lineage. */
  function Upsert(table: Table, t: Template): Table {
    var tokens := Joining.Join(t.tokens, '\t');
    if t.id in table then
      table[t.id := table[t.id].(text := t.Text(), tokens := tokens, count := t.count, lastSeen := t.lastSeen)]
    else
      table[t.id := Row(t.Text(), tokens, t.count, t.firstSeen, t.lastSeen, t.lineage)]
  }

  /** One transaction over the templates, in whatever order the miner lists them. */
  function Save(table: Table, ts: seq<Template>): Table {
    if ts == [] then table else Upsert(Save(table, ts[..|ts|-1]), ts[|ts|-1])
  }

  function Load1(id: nat, row: Row): Template {
    Template(id, Joining.Split(row.tokens, '\t'), row.count, row.firstSeen, row.lastSeen, row.lineage)
  }

  /** The rows with ids from `from` up to `to`, in id order. */
  function LoadFrom(table: Table, from: nat, to: nat): seq<Template>
    decreases if to > from then to - from else 0
  {
    if from >= to then []
    else if from in table then [Load1(from, table[from])] + LoadFrom(table, from + 1, to)
    else LoadFrom(table, from + 1, to)
  }

  /** An id above every id of the table. */
  ghost function Above(table: Table): (n: nat)
    ensures forall id :: id in table ==> id < n
  {
    if table == map[] then 0
    else
      var id :| id in table;
      var rest := Above(table - {id});
      assert forall k :: k in table && k != id ==> k in table - {id};
      if rest > id then rest else id + 1
  }

  /** Every row, ordered by id. */
  ghost function Load(table: Table): seq<Template> {
    LoadFrom(table, 0, Above(table))
  }

  /** The table was saved from this miner or an earlier state of it: no foreign id, and the columns that are
      written once are the template's. */
  ghost predicate Follows(table: Table, templates: map<nat, Template>) {
    forall id :: id in table ==>
      id in templates && table[id].firstSeen == templates[id].firstSeen && table[id].lineage == templates[id].lineage
  }

  /** `ts` lists every template of `templates`, and nothing else. */
  ghost predicate Lists(ts: seq<Template>, templates: map<nat, Template>) {
    && (forall t :: t in ts ==> t.id in templates && templates[t.id] == t)
    && (forall id :: id in templates ==> exists t :: t in ts && t.id == id)
  }

  ghost predicate RowOf(table: Table, t: Template) {
    && t.id in table && table[t.id].text == TextOf(t.tokens) && table[t.id].tokens == Joining.Join(t.tokens, '\t')
    && table[t.id].count == t.count
    && table[t.id].firstSeen == t.firstSeen && table[t.id].lastSeen == t.lastSeen && table[t.id].lineage == t.lineage
  }

  lemma {:induction false} SaveRows(table: Table, ts: seq<Template>, templates: map<nat, Template>)
    requires Follows(table, templates)
    requires forall t :: t in ts ==> t.id in templates && templates[t.id] == t
    ensures Follows(Save(table, ts), templates)
    ensures forall t :: t in ts ==> RowOf(Save(table, ts), t)
  {
    hide TextOf, Joining.Join;
    if ts != [] {
      var k := |ts| - 1;
      assert forall t :: t in ts[..k] ==> t in ts;
      assert ts[k] in ts;
      SaveRows(table, ts[..k], templates);
      forall t | t in ts ensures RowOf(Save(table, ts), t) {
        if t != ts[k] { assert t in ts[..k]; }
      }
    }
  }

  lemma {:induction false} LoadRange(table: Table, m: State, from: nat, to: nat)
    requires 1 <= from <= m.nextId <= to
    requires forall id :: id in m.templates <==> 1 <= id < m.nextId
    requires forall id :: id in table <==> 1 <= id < m.nextId
    requires forall id :: id in table ==> Load1(id, table[id]) == m.templates[id]
    ensures LoadFrom(table, from, to) == Saved(m)[from - 1..]
    decreases if to > from then to - from else 0
  {
    hide Load1;
    if from < m.nextId {
      LoadRange(table, m, from + 1, to);
      assert Saved(m)[from - 1..] == [m.templates[from]] + Saved(m)[from..];
    } else {
      NothingAbove(table, from, to);
    }
  }

  lemma {:induction false} NothingAbove(table: Table, from: nat, to: nat)
    requires forall id :: id in table ==> id < from
    ensures LoadFrom(table, from, to) == []
    decreases if to > from then to - from else 0
  {
    if from < to { NothingAbove(table, from + 1, to); }
  }

  lemma RowLoads(table: Table, t: Template)
    requires RowOf(table, t) && t.tokens != [] && Clean(t.tokens)
    ensures Load1(t.id, table[t.id]) == t
  {
    hide TextOf;
    Joining.SplitJoin(t.tokens, '\t');
  }

  /** Saving every template and loading the table gives them all back, in id order. */
  lemma SaveThenLoad(table: Table, m: State, ts: seq<Template>)
    requires IdsInv(m) && Follows(table, m.templates) && Lists(ts, m.templates)
    requires CleanTemplates(m.templates)
    ensures Load(Save(table, ts)) == Saved(m)
    ensures Follows(Save(table, ts), m.templates)
  {
    hide TextOf, Joining.Join, Joining.Split, Clean, Save, Load1, RowOf;
    var saved := Save(table, ts);
    SaveRows(table, ts, m.templates);
    forall id | id in m.templates ensures id in saved && Load1(id, saved[id]) == m.templates[id] {
      var t :| t in ts && t.id == id;
      RowLoads(saved, t);
      RowPresent(saved, t);
    }
    var above := Above(saved);
    assert 0 !in saved;
    if m.nextId > 1 { assert m.nextId - 1 in saved; }
    if above > 0 {
      assert LoadFrom(saved, 0, above) == LoadFrom(saved, 1, above);
      LoadRange(saved, m, 1, if above > m.nextId then above else m.nextId);
      assert Saved(m)[0..] == Saved(m);
    }
  }

  lemma RowPresent(table: Table, t: Template)
    requires RowOf(table, t)
    ensures t.id in table
  {
  }

  /** A line leaves a table that follows the miner following it. */
  lemma StepKeepsFollows(cfg: Config, m: State, line: Line, table: Table)
    requires Inv(cfg, m) && Follows(table, m.templates)
    ensures Follows(table, Step(cfg, m, line).0.templates)
  {
    hide TextOf, ParamsFor, Merge, Best, Candidates, Plant, TreeInv, LineagesInv, LineageFor;
  }

  ghost predicate CleanTemplates(templates: map<nat, Template>) {
    forall id :: id in templates ==> Clean(templates[id].tokens)
  }

  /** Tokens stay free of the separators the text and the column join with. */
  lemma StepKeepsClean(cfg: Config, m: State, line: Line)
    requires Inv(cfg, m) && CleanTemplates(m.templates) && Clean(line.masked)
    ensures CleanTemplates(Step(cfg, m, line).0.templates)
  {
    hide Step, Lands, TreeInv, ShapesInv, LineagesInv, Candidates, Merge, Clean;
    StepParts(cfg, m, line);
    if line.masked != [] && Lands(cfg, m, line.masked).Some? {
      MergeClean(m.templates[Lands(cfg, m, line.masked).value].tokens, line.masked);
    }
  }

  lemma MergeClean(template: seq<Token>, tokens: seq<Token>)
    requires Clean(template)
    ensures Clean(Merge(template, tokens))
  {
    assert WILDCARD == ['<', '*', '>'];
  }

  /** A restart through the catalog: saving every template, in any order, and restoring from what the table
      then loads gives a miner alike to the one that stopped. */
  lemma CatalogRestart(cfg: Config, m: State, table: Table, ts: seq<Template>)
    requires Inv(cfg, m) && Follows(table, m.templates) && Lists(ts, m.templates)
    requires CleanTemplates(m.templates)
    ensures Inv(cfg, Restore(cfg, Load(Save(table, ts)))) && Alike(Restore(cfg, Load(Save(table, ts))), m)
    ensures Follows(Save(table, ts), m.templates)
  {
    hide Load, Save, Follows, Lists, Clean, Restore;
    SaveThenLoad(table, m, ts);
    RestartRebuilds(cfg, m);
  }
}
