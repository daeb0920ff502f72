/** What every line keeps, and that a restart from the saved templates changes nothing a caller can see.

    The live tree was grown from the tokens each template was born with; a restore grows it from the tokens
    the template has now. The two are the same tree because a widened position always sits on a wildcard
    branch. */
module MinerRestart {
  import opened Options
  import opened Tokens
  import opened ParseTree
  import opened Miner

  /** The tree that planting `ts` in order, as ids 1, 2, ..., gives. */
  function Grown(cfg: Config, ts: seq<seq<Token>>): map<nat, Node> {
    if ts == [] then map[]
    else Plant(cfg, Grown(cfg, ts[..|ts|-1]), ts[|ts|-1], |ts|)
  }

  /** The branches the `i`th template was planted along. */
  function Home(cfg: Config, ts: seq<seq<Token>>, i: nat): (p: seq<Token>)
    requires i < |ts|
    ensures |p| == |Lead(cfg, ts[i])|
  {
    Path(Root(Grown(cfg, ts[..i]), |ts[i]|), Lead(cfg, ts[i]), cfg.maxChildren)
  }

  /** Ids in the tree are exactly the planted ones, each at its home and nowhere else. */
  lemma {:induction false} WhereIdsAre(cfg: Config, ts: seq<seq<Token>>, n: nat, p: seq<Token>, id: nat)
    ensures id in TemplatesAt(Root(Grown(cfg, ts), n), p)
       <==> 1 <= id <= |ts| && |ts[id-1]| == n && Home(cfg, ts, id - 1) == p
  {
    hide Lead, PutAt, Path;
    if ts != [] {
      var k := |ts| - 1;
      var init := ts[..k];
      WhereIdsAre(cfg, init, n, p, id);
      if 1 <= id <= k {
        assert ts[..id-1] == init[..id-1];
      }
      if |ts[k]| == n {
        var root := Root(Grown(cfg, init), n);
        PutAtTemplates(root, Path(root, Lead(cfg, ts[k]), cfg.maxChildren), |ts|, p);
      }
    }
  }

  lemma WidenedPlant(cfg: Config, roots: map<nat, Node>, tokens: seq<Token>, widened: seq<Token>, id: nat)
    requires |widened| == |tokens|
    requires forall i :: 0 <= i < |Lead(cfg, widened)| && widened[i] != tokens[i] ==>
      widened[i] == WILDCARD && Path(Root(roots, |tokens|), Lead(cfg, tokens), cfg.maxChildren)[i] == WILDCARD
    ensures Plant(cfg, roots, widened, id) == Plant(cfg, roots, tokens, id)
  {
    hide Path, PutAt;
    WidenedPath(Root(roots, |tokens|), Lead(cfg, tokens), Lead(cfg, widened), cfg.maxChildren);
  }

  /** Widening a planted template where its home is the wildcard branch does not change the tree. */
  lemma {:induction false} WideningKeepsTree(cfg: Config, ts: seq<seq<Token>>, j: nat, widened: seq<Token>)
    requires j < |ts| && |widened| == |ts[j]|
    requires forall i :: 0 <= i < |Lead(cfg, widened)| && widened[i] != ts[j][i] ==>
               widened[i] == WILDCARD && Home(cfg, ts, j)[i] == WILDCARD
    ensures Grown(cfg, ts[j := widened]) == Grown(cfg, ts)
  {
    hide Plant, Path, Lead, Root;
    var k := |ts| - 1;
    var us := ts[j := widened];
    GrownNext(cfg, ts);
    GrownNext(cfg, us);
    if j == k {
      assert us[..k] == ts[..k];
      WidenedPlant(cfg, Grown(cfg, ts[..k]), ts[j], widened, |ts|);
    } else {
      assert ts[..k][..j] == ts[..j];
      WideningKeepsTree(cfg, ts[..k], j, widened);
      assert us[..k] == ts[..k][j := widened];
    }
  }

  /** A line that finds a template disagrees with it, on the levels of the tree, only where the template
      sits on the wildcard branch. */
  lemma FoundAtHome(cfg: Config, ts: seq<seq<Token>>, id: nat, masked: seq<Token>)
    requires id in Candidates(cfg, Grown(cfg, ts), masked)
    ensures 1 <= id <= |ts| && |ts[id-1]| == |masked|
    ensures forall i :: 0 <= i < |Lead(cfg, masked)| && masked[i] != ts[id-1][i] ==>
              Home(cfg, ts, id - 1)[i] == WILDCARD
  {
    var root := Root(Grown(cfg, ts), |masked|);
    var lead := Lead(cfg, masked);
    var p := Route(root, lead);
    WhereIdsAre(cfg, ts, |masked|, p, id);
    forall i | 0 <= i < |lead| && masked[i] != ts[id-1][i]
      ensures Home(cfg, ts, id - 1)[i] == WILDCARD
    {
      RouteKeys(root, lead, i);
      PathKeys(Root(Grown(cfg, ts[..id-1]), |masked|), Lead(cfg, ts[id-1]), cfg.maxChildren, i);
    }
  }

  // ---- the invariant

  /** The current tokens of templates 1 to `n`, in id order. */
  function TokensOf(templates: map<nat, Template>, n: nat): (ts: seq<seq<Token>>)
    requires forall id :: 1 <= id <= n ==> id in templates
    ensures |ts| == n
    ensures forall i :: 0 <= i < n ==> ts[i] == templates[i + 1].tokens
  {
    if n == 0 then [] else TokensOf(templates, n - 1) + [templates[n].tokens]
  }

  /** Ids are 1, 2, ... without a gap, each naming its own template. */
  ghost predicate IdsInv(m: State) {
    && m.nextId >= 1
    && (forall id :: id in m.templates <==> 1 <= id < m.nextId)
    && (forall id :: id in m.templates ==> m.templates[id].id == id && m.templates[id].tokens != [])
  }

  /** The tree is the one the current tokens would grow. */
  ghost predicate TreeInv(cfg: Config, m: State)
    requires IdsInv(m)
  {
    m.roots == Grown(cfg, TokensOf(m.templates, m.nextId - 1))
  }

  /** The cached shape of a template is the hash of its current text, and every shape resolves. */
  ghost predicate ShapesInv(cfg: Config, m: State) {
    && m.shapeIds.Keys == m.templates.Keys
    && (forall id :: id in m.templates ==> m.shapeIds[id] == cfg.hash(m.templates[id].Text()))
    && (forall id :: id in m.shapeIds ==> m.shapeIds[id] in m.shapes)
    && (forall h :: h in m.shapes ==> cfg.hash(m.shapes[h].text) == h)
  }

  /** `l` is the lineage of some template. */
  ghost predicate IsLineage(templates: map<nat, Template>, l: nat) {
    exists id :: id in templates && templates[id].lineage == l
  }

  ghost predicate LineagesInv(m: State) {
    forall l :: l in m.lineages <==> IsLineage(m.templates, l)
  }

  ghost predicate Inv(cfg: Config, m: State) {
    IdsInv(m) && TreeInv(cfg, m) && ShapesInv(cfg, m) && LineagesInv(m)
  }

  lemma FreshInv(cfg: Config)
    ensures Inv(cfg, FRESH)
  {
  }

  /** A template a line joins is a planted one of the line's own length. */
  lemma CandidateIsTemplate(cfg: Config, m: State, id: nat, masked: seq<Token>)
    requires IdsInv(m) && TreeInv(cfg, m) && id in Candidates(cfg, m.roots, masked)
    ensures id in m.templates && |m.templates[id].tokens| == |masked|
  {
    FoundAtHome(cfg, TokensOf(m.templates, m.nextId - 1), id, masked);
  }

  lemma JoinKeepsTree(cfg: Config, m: State, id: nat, masked: seq<Token>, t: Template)
    requires IdsInv(m) && TreeInv(cfg, m) && id in Candidates(cfg, m.roots, masked) && id in m.templates
    requires t.tokens == Merge(m.templates[id].tokens, masked)
    ensures Grown(cfg, TokensOf(m.templates[id := t], m.nextId - 1)) == m.roots
  {
    hide Home, Grown, Lookup;
    var ts := TokensOf(m.templates, m.nextId - 1);
    FoundAtHome(cfg, ts, id, masked);
    WideningKeepsTree(cfg, ts, id - 1, t.tokens);
    assert TokensOf(m.templates[id := t], m.nextId - 1) == ts[id - 1 := t.tokens];
  }

  lemma JoinInv(cfg: Config, m: State, id: nat, line: Line)
    requires Inv(cfg, m) && id in Candidates(cfg, m.roots, line.masked) && id in m.templates
    ensures Inv(cfg, JoinTemplate(cfg, m, id, line).0)
  {
    hide TextOf, ParamsFor, Merge, Grown, TokensOf, Lookup;
    var was := m.templates[id];
    var t := was.(tokens := Merge(was.tokens, line.masked), count := was.count + 1, lastSeen := line.now);
    JoinKeepsTree(cfg, m, id, line.masked, t);
    var m' := JoinTemplate(cfg, m, id, line).0;
    assert m'.templates == m.templates[id := t];
    SameLineages(m.templates, id, t);
  }

  lemma SameLineages(templates: map<nat, Template>, id: nat, t: Template)
    requires id in templates && t.lineage == templates[id].lineage
    ensures forall l :: IsLineage(templates[id := t], l) <==> IsLineage(templates, l)
  {
    forall l | IsLineage(templates, l) ensures IsLineage(templates[id := t], l) {
      var k :| k in templates && templates[k].lineage == l;
      assert templates[id := t][k].lineage == l;
    }
  }

  lemma NewLineage(templates: map<nat, Template>, id: nat, t: Template)
    requires id !in templates
    ensures forall l :: IsLineage(templates[id := t], l) <==> IsLineage(templates, l) || l == t.lineage
  {
    var ts' := templates[id := t];
    assert ts'[id].lineage == t.lineage;
    forall l | IsLineage(templates, l) ensures IsLineage(ts', l) {
      var k :| k in templates && templates[k].lineage == l;
      assert ts'[k].lineage == l;
    }
  }

  /** Planting the next template, whether by minting it or by restoring it. */
  lemma NextTemplateInv(cfg: Config, m: State, t: Template, m': State)
    requires Inv(cfg, m) && t.id == m.nextId && t.tokens != []
    requires m'.templates == m.templates[t.id := t] && m'.nextId == m.nextId + 1
    requires m'.roots == Plant(cfg, m.roots, t.tokens, t.id)
    requires m'.lineages == m.lineages + {t.lineage}
    requires m'.shapeIds == m.shapeIds[t.id := cfg.hash(t.Text())]
    requires m'.shapes == NoteShape(cfg, m, t).shapes
    ensures Inv(cfg, m')
  {
    hide TextOf, Grown, TokensOf, Plant;
    NewLineage(m.templates, t.id, t);
    NextTree(cfg, m, t, m');
  }

  lemma NextTree(cfg: Config, m: State, t: Template, m': State)
    requires IdsInv(m) && TreeInv(cfg, m) && t.id == m.nextId && t.tokens != []
    requires m'.templates == m.templates[t.id := t] && m'.nextId == m.nextId + 1
    requires m'.roots == Plant(cfg, m.roots, t.tokens, t.id)
    ensures IdsInv(m') && TreeInv(cfg, m')
  {
    hide Plant, Grown, TokensOf;
    var ts := TokensOf(m.templates, m.nextId - 1);
    var ts' := TokensOf(m'.templates, m.nextId);
    assert ts'[..|ts'|-1] == ts;
    GrownNext(cfg, ts');
  }

  lemma GrownNext(cfg: Config, ts: seq<seq<Token>>)
    requires ts != []
    ensures Grown(cfg, ts) == Plant(cfg, Grown(cfg, ts[..|ts|-1]), ts[|ts|-1], |ts|)
  {
    hide Plant;
  }

  lemma MintInv(cfg: Config, m: State, line: Line)
    requires Inv(cfg, m) && line.masked != []
    ensures Inv(cfg, Mint(cfg, m, line).0)
  {
    hide TextOf, ParamsFor, Grown, TokensOf, Plant;
    var lineage := LineageFor(cfg, m, TextOf(line.masked), m.nextId);
    NextTemplateInv(cfg, m, Template(m.nextId, line.masked, 1, line.now, line.now, lineage), Mint(cfg, m, line).0);
  }

  lemma CountersKeepInv(cfg: Config, m: State, m': State)
    requires Inv(cfg, m) && m' == m.(linesSeen := m'.linesSeen, untemplated := m'.untemplated)
    ensures Inv(cfg, m')
  {
    hide Grown, TokensOf, IsLineage;
  }

  /** Every line keeps the invariant. */
  lemma StepInv(cfg: Config, m: State, line: Line)
    requires Inv(cfg, m)
    ensures Inv(cfg, Step(cfg, m, line).0)
  {
    hide Candidates, Best, JoinTemplate, Mint, IdsInv, TreeInv, LineagesInv;
    var m0 := m.(linesSeen := m.linesSeen + 1);
    CountersKeepInv(cfg, m, m0);
    CountersKeepInv(cfg, m, m0.(untemplated := m.untemplated + 1));
    if line.masked != [] {
      var best := Best(cfg, m.templates, Candidates(cfg, m.roots, line.masked), line.masked);
      if best.Some? {
        JoinInv(cfg, m0, best.value, line);
      } else if |m.templates| < cfg.maxTemplates {
        MintInv(cfg, m0, line);
      }
    }
  }

  /** The branches of a step of a sound miner. */
  lemma StepIs(cfg: Config, m: State, line: Line)
    requires Inv(cfg, m)
    ensures var m0 := m.(linesSeen := m.linesSeen + 1);
      var best := Best(cfg, m.templates, Candidates(cfg, m.roots, line.masked), line.masked);
      if line.masked == [] then Step(cfg, m, line) == (m0, None)
      else if best.Some? then
        && best.value in m.templates && best.value in m.shapeIds
        && Step(cfg, m, line) == (JoinTemplate(cfg, m0, best.value, line).0, Some(JoinTemplate(cfg, m0, best.value, line).1))
      else if |m.templates| >= cfg.maxTemplates then
        Step(cfg, m, line) == (m0.(untemplated := m.untemplated + 1), None)
      else Step(cfg, m, line) == (Mint(cfg, m0, line).0, Some(Mint(cfg, m0, line).1))
  {
    hide Best, Candidates, JoinTemplate, Mint, TreeInv, LineagesInv;
  }

  // ---- restart

  /** All templates in id order: what the catalog hands a restarting miner. */
  function Saved(m: State): (ts: seq<Template>)
    requires forall id :: 1 <= id < m.nextId ==> id in m.templates
  {
    seq(if m.nextId == 0 then 0 else m.nextId - 1,
        i requires 0 <= i < m.nextId - 1 => m.templates[i + 1])
  }

  /** Two miners that differ at most in what they remember of shapes since widened away and in the two
      line counters. */
  predicate Alike(m: State, m': State) {
    m.roots == m'.roots && m.templates == m'.templates && m.shapeIds == m'.shapeIds
    && m.lineages == m'.lineages && m.nextId == m'.nextId
  }

  /** Restoring the first `k` saved templates gives a sound miner holding exactly those. */
  lemma {:induction false} RestorePrefix(cfg: Config, m: State, k: nat)
    requires Inv(cfg, m) && k <= |Saved(m)|
    ensures var r := Restore(cfg, Saved(m)[..k]);
      && Inv(cfg, r) && r.nextId == k + 1
      && forall id :: id in r.templates ==> id in m.templates && r.templates[id] == m.templates[id]
  {
    hide TextOf, Plant, TreeInv, ShapesInv, LineagesInv;
    if k == 0 {
      FreshInv(cfg);
    } else {
      var ts := Saved(m)[..k];
      assert ts[..k-1] == Saved(m)[..k-1];
      RestorePrefix(cfg, m, k - 1);
      var r := Restore(cfg, ts[..k-1]);
      NextTemplateInv(cfg, r, ts[k-1], Restore(cfg, ts));
    }
  }

  /** A restart rebuilds the same tree, templates, cached shapes, lineages and next id. */
  lemma RestartRebuilds(cfg: Config, m: State)
    requires Inv(cfg, m)
    ensures Inv(cfg, Restore(cfg, Saved(m))) && Alike(Restore(cfg, Saved(m)), m)
  {
    hide TextOf, Grown, TokensOf, Restore;
    var n := |Saved(m)|;
    RestorePrefix(cfg, m, n);
    assert Saved(m)[..n] == Saved(m);
    var r := Restore(cfg, Saved(m));
    assert r.templates == m.templates;
    assert r.shapeIds == m.shapeIds;
  }

  /** Miners that are alike answer a line alike, and stay so. */
  lemma AlikeStep(cfg: Config, m: State, m': State, line: Line)
    requires Alike(m, m')
    ensures Step(cfg, m, line).1 == Step(cfg, m', line).1
    ensures Alike(Step(cfg, m, line).0, Step(cfg, m', line).0)
  {
    hide JoinTemplate, Mint, Candidates, Best;
    var m0, m0' := m.(linesSeen := m.linesSeen + 1), m'.(linesSeen := m'.linesSeen + 1);
    AlikeMint(cfg, m0, m0', line);
    var best := Best(cfg, m.templates, Candidates(cfg, m.roots, line.masked), line.masked);
    if best.Some? && best.value in m.shapeIds {
      AlikeJoin(cfg, m0, m0', best.value, line);
    }
  }

  lemma AlikeJoin(cfg: Config, m: State, m': State, id: nat, line: Line)
    requires Alike(m, m') && id in m.templates && id in m.shapeIds
    ensures JoinTemplate(cfg, m, id, line).1 == JoinTemplate(cfg, m', id, line).1
    ensures Alike(JoinTemplate(cfg, m, id, line).0, JoinTemplate(cfg, m', id, line).0)
  {
    hide TextOf, ParamsFor, Merge;
  }

  lemma AlikeMint(cfg: Config, m: State, m': State, line: Line)
    requires Alike(m, m')
    ensures Mint(cfg, m, line).1 == Mint(cfg, m', line).1
    ensures Alike(Mint(cfg, m, line).0, Mint(cfg, m', line).0)
  {
    hide TextOf, ParamsFor, Plant;
  }

  // ---- whole runs

  datatype Event = Seen(line: Line) | Restarted

  /** A miner fed `events`, restarting from its saved templates wherever they say so. */
  function Run(cfg: Config, m: State, events: seq<Event>): (State, seq<Option<Match>>)
    requires Inv(cfg, m)
    decreases |events|
  {
    if events == [] then (m, [])
    else match events[0]
      case Seen(line) =>
        StepInv(cfg, m, line);
        var s := Step(cfg, m, line);
        var rest := Run(cfg, s.0, events[1..]);
        (rest.0, [s.1] + rest.1)
      case Restarted =>
        RestartRebuilds(cfg, m);
        Run(cfg, Restore(cfg, Saved(m)), events[1..])
  }

  function WithoutRestarts(events: seq<Event>): seq<Event> {
    if events == [] then []
    else (if events[0].Restarted? then [] else [events[0]]) + WithoutRestarts(events[1..])
  }

  lemma {:induction false} RunInv(cfg: Config, m: State, events: seq<Event>)
    requires Inv(cfg, m)
    ensures Inv(cfg, Run(cfg, m, events).0)
    decreases |events|
  {
    hide TreeInv, ShapesInv, LineagesInv, Step, Restore, Saved;
    if events != [] {
      match events[0]
      case Seen(line) =>
        StepInv(cfg, m, line);
        RunInv(cfg, Step(cfg, m, line).0, events[1..]);
      case Restarted =>
        RestartRebuilds(cfg, m);
        RunInv(cfg, Restore(cfg, Saved(m)), events[1..]);
    }
  }

  lemma {:induction false} RunsAgree(cfg: Config, m: State, m': State, events: seq<Event>)
    requires Inv(cfg, m) && Inv(cfg, m') && Alike(m, m')
    ensures Run(cfg, m, events).1 == Run(cfg, m', WithoutRestarts(events)).1
    ensures Alike(Run(cfg, m, events).0, Run(cfg, m', WithoutRestarts(events)).0)
    decreases |events|
  {
    hide TreeInv, ShapesInv, LineagesInv, Step, Restore, Saved;
    if events != [] {
      var rest := WithoutRestarts(events[1..]);
      match events[0]
      case Seen(line) =>
        StepInv(cfg, m, line);
        StepInv(cfg, m', line);
        AlikeStep(cfg, m, m', line);
        RunsAgree(cfg, Step(cfg, m, line).0, Step(cfg, m', line).0, events[1..]);
        assert WithoutRestarts(events)[1..] == rest;
      case Restarted =>
        RestartRebuilds(cfg, m);
        RunsAgree(cfg, Restore(cfg, Saved(m)), m', events[1..]);
        assert WithoutRestarts(events) == rest;
    }
  }

  /** Restart equivalence: over any history, with restarts anywhere in it, every line gets the result it
      would have got from a miner that never restarted. */
  lemma RestartsAreInvisible(cfg: Config, events: seq<Event>)
    ensures Inv(cfg, FRESH)
    ensures Run(cfg, FRESH, events).1 == Run(cfg, FRESH, WithoutRestarts(events)).1
    ensures Alike(Run(cfg, FRESH, events).0, Run(cfg, FRESH, WithoutRestarts(events)).0)
  {
    FreshInv(cfg);
    RunsAgree(cfg, FRESH, FRESH, events);
  }
}
