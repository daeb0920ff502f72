/** Exactly which lines move another line from its template, and that a moved line never returns.

    A line is settled on a template when it lands there and would again. Another line can unsettle it in two
    ways: by opening a branch the settled line's lookup then prefers to the wildcard one, or by making a
    younger template of the same leaf score 1 on it (a tie goes to the last candidate). */
module MinerMoves {
  import opened Options
  import opened Tokens
  import opened ParseTree
  import opened Miner
  import opened MinerRestart
  import opened MinerIdentity

  ghost predicate Settled(cfg: Config, m: State, masked: seq<Token>, j: nat) {
    && j in m.templates && Covers(m.templates[j].tokens, masked)
    && j in Candidates(cfg, m.roots, masked)
    && forall c :: c in Candidates(cfg, m.roots, masked) && c in m.templates && c > j ==>
         Score(m.templates[c].tokens, masked) < 1.0
  }

  /** The template a line would land on, were it sent now. */
  ghost function Lands(cfg: Config, m: State, masked: seq<Token>): Option<nat> {
    Best(cfg, m.templates, Candidates(cfg, m.roots, masked), masked)
  }

  lemma CandidatesIncreasing(cfg: Config, m: State, masked: seq<Token>)
    requires IdsInv(m) && TreeInv(cfg, m)
    ensures Increasing(Candidates(cfg, m.roots, masked))
  {
    hide Grown, TokensOf, Route, TemplatesAt, Increasing;
    LeafIncreasing(cfg, TokensOf(m.templates, m.nextId - 1), |masked|,
                   Route(Root(m.roots, |masked|), Lead(cfg, masked)));
  }

  /** Being settled on a template that generalises the line is the same as landing on it. */
  lemma SettledIffLands(cfg: Config, m: State, masked: seq<Token>, j: nat)
    requires Inv(cfg, m) && cfg.threshold <= 1.0
    requires j in m.templates && Covers(m.templates[j].tokens, masked)
    ensures Settled(cfg, m, masked, j) <==> Lands(cfg, m, masked) == Some(j)
  {
    hide Score, TreeInv, Covers, Best, Candidates;
    CandidatesIncreasing(cfg, m, masked);
    ScoreBounds(m.templates[j].tokens, masked);
    var ids := Candidates(cfg, m.roots, masked);
    if Settled(cfg, m, masked, j) {
      LastPerfectWins(cfg, m.templates, ids, masked, j);
    }
    if Lands(cfg, m, masked) == Some(j) {
      forall c | c in ids && c in m.templates && c > j ensures Score(m.templates[c].tokens, masked) < 1.0 {
        LaterScoresLess(cfg, m.templates, ids, masked, c);
      }
    }
  }

  // ---- routes after an insertion

  /** A lookup that leaves the given path for a branch of its own. */
  predicate Diverted(n: Node, tokens: seq<Token>, path: seq<Token>)
    requires |tokens| == |path|
  {
    tokens != [] &&
    (|| (path[0] != TreeKey(tokens[0]) && TreeKey(tokens[0]) in n.children)
     || (path[0] in n.children && Diverted(n.children[path[0]], tokens[1..], path[1..])))
  }

  /** Inserting `other` opens a branch that a lookup of `tokens`, now on `path`, prefers: at the first level
      where the two part, `other` takes the key of the line itself, and the lookup the wildcard. */
  predicate Opens(n: Node, tokens: seq<Token>, path: seq<Token>, other: seq<Token>, cap: nat) {
    tokens != [] && path != [] && other != [] &&
    var key := Branch(n, other[0], cap);
    (|| (key == TreeKey(tokens[0]) && key != path[0])
     || (key == path[0] && key in n.children && Opens(n.children[key], tokens[1..], path[1..], other[1..], cap)))
  }

  /** Every node of `path` exists. */
  predicate Present(n: Node, path: seq<Token>) {
    path == [] || (path[0] in n.children && Present(n.children[path[0]], path[1..]))
  }

  lemma {:induction false} DivertedLeaves(n: Node, tokens: seq<Token>, path: seq<Token>)
    requires |tokens| == |path| && Present(n, path)
    requires forall i :: 0 <= i < |path| ==> path[i] in {TreeKey(tokens[i]), WILDCARD}
    ensures Diverted(n, tokens, path) <==> Route(n, tokens) != path
  {
    if tokens != [] {
      var own := TreeKey(tokens[0]);
      if path[0] == own || own !in n.children {
        DivertedLeaves(n.children[path[0]], tokens[1..], path[1..]);
        var rest := Route(n.children[path[0]], tokens[1..]);
        assert Route(n, tokens) == [path[0]] + rest;
        assert path == [path[0]] + path[1..];
        assert ([path[0]] + rest)[1..] == rest;
      } else {
        assert Route(n, tokens)[0] == own;
      }
    }
  }

  lemma {:induction false} InsertKeepsDiverted(n: Node, tokens: seq<Token>, path: seq<Token>, other: seq<Token>,
                                               id: nat, cap: nat)
    requires |tokens| == |path| == |other| && Diverted(n, tokens, path)
    ensures Diverted(Insert(n, other, id, cap), tokens, path)
  {
    var key := Branch(n, other[0], cap);
    var p := Path(n, other, cap);
    assert p[0] == key && p[1..] == Path(Child(n, key), other[1..], cap);
    if path[0] in n.children && Diverted(n.children[path[0]], tokens[1..], path[1..]) && path[0] == key {
      InsertKeepsDiverted(n.children[key], tokens[1..], path[1..], other[1..], id, cap);
    }
  }

  /** An insertion diverts a lookup exactly when it opens a branch the lookup prefers. */
  lemma {:induction false} DivertsIffOpens(n: Node, tokens: seq<Token>, path: seq<Token>, other: seq<Token>,
                                           id: nat, cap: nat)
    requires |tokens| == |path| == |other| && Present(n, path) && !Diverted(n, tokens, path)
    ensures Diverted(Insert(n, other, id, cap), tokens, path) <==> Opens(n, tokens, path, other, cap)
  {
    if tokens != [] {
      var key := Branch(n, other[0], cap);
      var p := Path(n, other, cap);
      assert p[0] == key && p[1..] == Path(Child(n, key), other[1..], cap);
      if path[0] == key {
        DivertsIffOpens(n.children[key], tokens[1..], path[1..], other[1..], id, cap);
      }
    }
  }

  lemma {:induction false} PutAtPresent(n: Node, p: seq<Token>, id: nat, q: seq<Token>)
    requires Present(n, q) || p == q
    ensures Present(PutAt(n, p, id), q)
    decreases |q|
  {
    if q != [] && p != [] && p[0] == q[0] {
      PutAtPresent(Child(n, p[0]), p[1..], id, q[1..]);
    }
  }

  lemma {:induction false} HomePresent(cfg: Config, ts: seq<seq<Token>>, j: nat)
    requires j < |ts|
    ensures Present(Root(Grown(cfg, ts), |ts[j]|), Home(cfg, ts, j))
  {
    hide Path, PutAt, Lead;
    var k := |ts| - 1;
    var root := Root(Grown(cfg, ts[..k]), |ts[k]|);
    var p := Path(root, Lead(cfg, ts[k]), cfg.maxChildren);
    if j < k {
      HomePresent(cfg, ts[..k], j);
      assert ts[..k][..j] == ts[..j];
      if |ts[j]| == |ts[k]| { PutAtPresent(root, p, |ts|, Home(cfg, ts, j)); }
    } else {
      PutAtPresent(root, p, |ts|, p);
    }
  }

  /** Where template `j` is planted, in a live miner. */
  ghost function HomeOf(cfg: Config, m: State, j: nat): seq<Token>
    requires IdsInv(m) && j in m.templates
  {
    Home(cfg, TokensOf(m.templates, m.nextId - 1), j - 1)
  }

  /** For a line a template generalises: the lookup finds the template unless it was diverted. */
  lemma FoundUnlessDiverted(cfg: Config, m: State, masked: seq<Token>, j: nat)
    requires IdsInv(m) && TreeInv(cfg, m) && j in m.templates && Covers(m.templates[j].tokens, masked)
    ensures |HomeOf(cfg, m, j)| == |Lead(cfg, masked)|
    ensures j in Candidates(cfg, m.roots, masked)
       <==> !Diverted(Root(m.roots, |masked|), Lead(cfg, masked), HomeOf(cfg, m, j))
    ensures j in Candidates(cfg, m.roots, masked)
       <==> Route(Root(m.roots, |masked|), Lead(cfg, masked)) == HomeOf(cfg, m, j)
  {
    hide Grown, Route, TemplatesAt, Diverted, Present;
    var ts := TokensOf(m.templates, m.nextId - 1);
    var root := Root(m.roots, |masked|);
    var lead := Lead(cfg, masked);
    var home := Home(cfg, ts, j - 1);
    HomePresent(cfg, ts, j - 1);
    forall i | 0 <= i < |home| ensures home[i] in {TreeKey(lead[i]), WILDCARD} {
      WildcardKey();
      PathKeys(Root(Grown(cfg, ts[..j-1]), |masked|), Lead(cfg, ts[j-1]), cfg.maxChildren, i);
    }
    DivertedLeaves(root, lead, home);
    WhereIdsAre(cfg, ts, |masked|, Route(root, lead), j);
  }

  // ---- one more line

  /** `other`, processed now, moves the lookup or the tie away from `j`. What a caller could check before
      sending it: it joins a younger candidate and leaves that scoring 1, or it becomes a template of its own
      that opens a branch the lookup prefers, or of the same leaf and scoring 1. */
  ghost predicate Unsettles(cfg: Config, m: State, other: Line, masked: seq<Token>, j: nat) {
    other.masked != [] &&
    match Lands(cfg, m, other.masked)
    case Some(k) =>
      && k > j && k in Candidates(cfg, m.roots, masked) && k in m.templates
      && Score(Merge(m.templates[k].tokens, other.masked), masked) == 1.0
    case None =>
      && |m.templates| < cfg.maxTemplates && |other.masked| == |masked|
      && var root, lead := Root(m.roots, |masked|), Lead(cfg, masked);
         (|| Opens(root, lead, Route(root, lead), Lead(cfg, other.masked), cfg.maxChildren)
          || (Path(root, Lead(cfg, other.masked), cfg.maxChildren) == Route(root, lead)
              && Score(other.masked, masked) == 1.0))
  }

  /** Template `k` took a line in, and nothing else a landing depends on changed. */
  ghost predicate Joined(roots: map<nat, Node>, templates: map<nat, Template>, m': State, k: nat, masked: seq<Token>) {
    && m'.roots == roots && k in templates && m'.templates.Keys == templates.Keys
    && (forall c :: c in templates && c != k ==> m'.templates[c] == templates[c])
    && m'.templates[k].tokens == Merge(templates[k].tokens, masked)
  }

  /** Template `k` was born, and nothing else a landing depends on changed. */
  ghost predicate Minted(cfg: Config, roots: map<nat, Node>, templates: map<nat, Template>, m': State, k: nat,
                         masked: seq<Token>) {
    && m'.roots == Plant(cfg, roots, masked, k)
    && k !in templates && m'.templates.Keys == templates.Keys + {k}
    && (forall c :: c in templates ==> m'.templates[c] == templates[c])
    && m'.templates[k].tokens == masked
  }

  lemma JoinParts(cfg: Config, m: State, k: nat, line: Line)
    requires k in m.templates && k in m.shapeIds
    ensures Joined(m.roots, m.templates, JoinTemplate(cfg, m, k, line).0, k, line.masked)
  {
    hide TextOf, ParamsFor, Merge;
  }

  lemma MintParts(cfg: Config, m: State, line: Line)
    requires m.nextId !in m.templates
    ensures Minted(cfg, m.roots, m.templates, Mint(cfg, m, line).0, m.nextId, line.masked)
  {
    hide TextOf, ParamsFor, Plant, LineageFor;
  }

  /** What one line does to those parts. */
  lemma StepParts(cfg: Config, m: State, line: Line)
    requires Inv(cfg, m)
    ensures var m' := Step(cfg, m, line).0; var landed := Lands(cfg, m, line.masked);
      if line.masked == [] || (landed.None? && |m.templates| >= cfg.maxTemplates) then
        m'.roots == m.roots && m'.templates == m.templates
      else if landed.Some? then
        landed.value in Candidates(cfg, m.roots, line.masked) && Joined(m.roots, m.templates, m', landed.value, line.masked)
      else
        Minted(cfg, m.roots, m.templates, m', m.nextId, line.masked)
  {
    hide JoinTemplate, Mint, Joined, Minted, Best, Candidates, TreeInv, LineagesInv;
    var m0 := m.(linesSeen := m.linesSeen + 1);
    if line.masked != [] {
      var landed := Lands(cfg, m, line.masked);
      if landed.Some? {
        JoinParts(cfg, m0, landed.value, line);
      } else if |m.templates| < cfg.maxTemplates {
        MintParts(cfg, m0, line);
      }
    }
  }

  /** Planting adds the new id to at most one leaf, at its end. */
  lemma PlantCandidates(cfg: Config, m: State, other: seq<Token>, masked: seq<Token>, j: nat)
    requires IdsInv(m) && TreeInv(cfg, m) && j in m.templates && Covers(m.templates[j].tokens, masked)
    requires other != [] && j in Candidates(cfg, Plant(cfg, m.roots, other, m.nextId), masked)
    ensures j in Candidates(cfg, m.roots, masked)
    ensures m.nextId in Candidates(cfg, Plant(cfg, m.roots, other, m.nextId), masked) <==>
      && |other| == |masked|
      && var root := Root(m.roots, |masked|);
         Path(root, Lead(cfg, other), cfg.maxChildren) == Route(root, Lead(cfg, masked))
    ensures forall c :: c in Candidates(cfg, m.roots, masked)
                    ==> c in Candidates(cfg, Plant(cfg, m.roots, other, m.nextId), masked)
    ensures forall c :: c in Candidates(cfg, Plant(cfg, m.roots, other, m.nextId), masked)
                    ==> c in Candidates(cfg, m.roots, masked) || c == m.nextId
  {
    hide Grown, Lead, Path, PutAt, Route, TemplatesAt, Diverted;
    var t := Template(m.nextId, other, 1, 0, 0, 0);
    var m' := m.(templates := m.templates[m.nextId := t], nextId := m.nextId + 1,
                 roots := Plant(cfg, m.roots, other, m.nextId));
    NextTree(cfg, m, t, m');
    FoundUnlessDiverted(cfg, m, masked, j);
    FoundUnlessDiverted(cfg, m', masked, j);
    NextHome(cfg, m, t, m', j);
    var home := HomeOf(cfg, m, j);
    NewIdIsNowhere(cfg, m, |masked|, home);
    if |other| == |masked| {
      var root := Root(m.roots, |masked|);
      if Diverted(root, Lead(cfg, masked), home) {
        LeadLength(cfg, other, masked);
        InsertKeepsDiverted(root, Lead(cfg, masked), home, Lead(cfg, other), m.nextId, cfg.maxChildren);
      }
      PutAtTemplates(root, Path(root, Lead(cfg, other), cfg.maxChildren), m.nextId, home);
    }
  }

  lemma NewIdIsNowhere(cfg: Config, m: State, n: nat, path: seq<Token>)
    requires IdsInv(m) && TreeInv(cfg, m)
    ensures m.nextId !in TemplatesAt(Root(m.roots, n), path)
  {
    hide Grown, Home, TokensOf, TemplatesAt;
    WhereIdsAre(cfg, TokensOf(m.templates, m.nextId - 1), n, path, m.nextId);
  }

  /** A new template takes a settled line's lookup off its leaf exactly when it opens a branch. */
  lemma PlantDivertsIffOpens(cfg: Config, m: State, other: seq<Token>, masked: seq<Token>, j: nat)
    requires IdsInv(m) && TreeInv(cfg, m) && j in m.templates && Covers(m.templates[j].tokens, masked)
    requires other != [] && j in Candidates(cfg, m.roots, masked)
    ensures j !in Candidates(cfg, Plant(cfg, m.roots, other, m.nextId), masked) <==>
      && |other| == |masked|
      && var root, lead := Root(m.roots, |masked|), Lead(cfg, masked);
         Opens(root, lead, Route(root, lead), Lead(cfg, other), cfg.maxChildren)
  {
    hide Grown, Lead, Path, PutAt, Route, TemplatesAt, Diverted, Opens, Present;
    var t := Template(m.nextId, other, 1, 0, 0, 0);
    var m' := m.(templates := m.templates[m.nextId := t], nextId := m.nextId + 1,
                 roots := Plant(cfg, m.roots, other, m.nextId));
    NextTree(cfg, m, t, m');
    FoundUnlessDiverted(cfg, m, masked, j);
    FoundUnlessDiverted(cfg, m', masked, j);
    NextHome(cfg, m, t, m', j);
    if |other| == |masked| {
      HomeIsPresent(cfg, m, j);
      LeadLength(cfg, other, masked);
      DivertsIffOpens(Root(m.roots, |masked|), Lead(cfg, masked), HomeOf(cfg, m, j), Lead(cfg, other), m.nextId,
                      cfg.maxChildren);
    }
  }

  lemma HomeIsPresent(cfg: Config, m: State, j: nat)
    requires IdsInv(m) && TreeInv(cfg, m) && j in m.templates
    ensures Present(Root(m.roots, |m.templates[j].tokens|), HomeOf(cfg, m, j))
  {
    hide Grown, Home, Present, TokensOf;
    HomePresent(cfg, TokensOf(m.templates, m.nextId - 1), j - 1);
  }

  lemma LeadLength(cfg: Config, a: seq<Token>, b: seq<Token>)
    requires |a| == |b|
    ensures |Lead(cfg, a)| == |Lead(cfg, b)|
  {
  }

  lemma NextHome(cfg: Config, m: State, t: Template, m': State, j: nat)
    requires IdsInv(m) && IdsInv(m') && j in m.templates
    requires m'.templates == m.templates[m.nextId := t] && m'.nextId == m.nextId + 1
    ensures HomeOf(cfg, m', j) == HomeOf(cfg, m, j)
  {
    hide Grown, Lead, Path;
    var ts, ts' := TokensOf(m.templates, m.nextId - 1), TokensOf(m'.templates, m.nextId);
    assert ts'[..j-1] == ts[..j-1];
  }

  /** A settled line stays on its template through the next line unless that line unsettles it, and only
      then. */
  lemma SettledIffNotUnsettled(cfg: Config, m: State, other: Line, masked: seq<Token>, j: nat)
    requires Inv(cfg, m) && Settled(cfg, m, masked, j)
    ensures Settled(cfg, Step(cfg, m, other).0, masked, j) <==> !Unsettles(cfg, m, other, masked, j)
  {
    hide Step, Best, Candidates, Score, Merge, Covers, Plant, TreeInv, Opens, Path, Route;
    StepParts(cfg, m, other);
    var m' := Step(cfg, m, other).0;
    if other.masked != [] {
      match Lands(cfg, m, other.masked)
      case Some(k) =>
        CandidateIsTemplate(cfg, m, k, other.masked);
        MergeCovers(m.templates[k].tokens, other.masked);
        if k in Candidates(cfg, m.roots, masked) {
          ScoreBounds(m'.templates[k].tokens, masked);
        }
      case None =>
        if |m.templates| < cfg.maxTemplates {
          PlantDivertsIffOpens(cfg, m, other.masked, masked, j);
          if j in Candidates(cfg, m'.roots, masked) {
            PlantCandidates(cfg, m, other.masked, masked, j);
            ScoreBounds(other.masked, masked);
          }
        }
    }
  }

  /** A template that generalises a line the lookup does not settle on it never gets the line back. */
  lemma NeverReturns(cfg: Config, m: State, other: Line, masked: seq<Token>, j: nat)
    requires Inv(cfg, m) && j in m.templates && Covers(m.templates[j].tokens, masked)
    requires !Settled(cfg, m, masked, j)
    ensures !Settled(cfg, Step(cfg, m, other).0, masked, j)
  {
    hide Step, Best, Candidates, Score, Merge, Covers, Plant, TreeInv;
    StepParts(cfg, m, other);
    var m' := Step(cfg, m, other).0;
    if other.masked != [] {
      match Lands(cfg, m, other.masked)
      case Some(k) =>
        if j in Candidates(cfg, m.roots, masked) {
          var c :| c in Candidates(cfg, m.roots, masked) && c in m.templates && c > j
                && !(Score(m.templates[c].tokens, masked) < 1.0);
          ScoreBounds(m.templates[c].tokens, masked);
          if c == k {
            CandidateIsTemplate(cfg, m, c, masked);
            WideningKeepsPerfect(m.templates[c].tokens, other.masked, masked);
          }
        }
      case None =>
        if |m.templates| < cfg.maxTemplates && j in Candidates(cfg, m'.roots, masked) {
          PlantCandidates(cfg, m, other.masked, masked, j);
        }
    }
  }

  /** The line just processed is settled on the template its result names. */
  lemma LandingSettles(cfg: Config, m: State, line: Line)
    requires Inv(cfg, m) && Step(cfg, m, line).1.Some? && cfg.threshold <= 1.0
    ensures Settled(cfg, Step(cfg, m, line).0, line.masked, Step(cfg, m, line).1.value.id)
  {
    var m', j := Step(cfg, m, line).0, Step(cfg, m, line).1.value.id;
    StepInv(cfg, m, line);
    StepParts(cfg, m, line);
    LandedId(cfg, m, line);
    if Step(cfg, m, line).1.value.isNew {
      MintedState(cfg, m, line);
      var p :| Held(cfg, m', j, line.masked, p);
      NewestIsSettled(cfg, m', line.masked, j, p);
    } else {
      JoinedIsSettled(cfg, m, m', line.masked, j);
    }
  }

  lemma LandedId(cfg: Config, m: State, line: Line)
    requires Inv(cfg, m) && Step(cfg, m, line).1.Some?
    ensures line.masked != []
    ensures var r := Step(cfg, m, line).1.value;
      if r.isNew then r.id == m.nextId && Lands(cfg, m, line.masked).None? && Step(cfg, m, line).0.nextId == r.id + 1
      else Lands(cfg, m, line.masked) == Some(r.id)
  {
    hide TextOf, ParamsFor, Merge, Best, Candidates, TreeInv, LineagesInv, Plant, LineageFor;
  }

  lemma NewestIsSettled(cfg: Config, m: State, masked: seq<Token>, j: nat, p: seq<Token>)
    requires Inv(cfg, m) && Held(cfg, m, j, masked, p) && m.nextId == j + 1
    ensures Settled(cfg, m, masked, j)
  {
    hide Score, TreeInv, ShapesInv, LineagesInv, Covers, TemplatesAt;
    AnchoredRoute(Root(m.roots, |masked|), Lead(cfg, masked), p, cfg.maxChildren);
  }

  lemma JoinedIsSettled(cfg: Config, m: State, m': State, masked: seq<Token>, j: nat)
    requires Inv(cfg, m) && Lands(cfg, m, masked) == Some(j) && Joined(m.roots, m.templates, m', j, masked)
    ensures Settled(cfg, m', masked, j)
  {
    hide Score, TreeInv, ShapesInv, LineagesInv, Covers, Candidates, Best, Merge;
    CandidateIsTemplate(cfg, m, j, masked);
    MergeCovers(m.templates[j].tokens, masked);
    CandidatesIncreasing(cfg, m, masked);
    var ids := Candidates(cfg, m.roots, masked);
    forall c | c in ids && c in m'.templates && c > j ensures Score(m'.templates[c].tokens, masked) < 1.0 {
      LaterScoresLess(cfg, m.templates, ids, masked, c);
      ScoreBounds(m.templates[j].tokens, masked);
    }
  }

  // ---- whole histories

  /** Some line of the history unsettles `masked` from `j` at the moment it is processed. */
  ghost predicate UnsettledDuring(cfg: Config, m: State, events: seq<Event>, masked: seq<Token>, j: nat)
    requires Inv(cfg, m)
    decreases |events|
  {
    if events == [] then false
    else match events[0]
      case Seen(line) =>
        StepInv(cfg, m, line);
        Unsettles(cfg, m, line, masked, j) || UnsettledDuring(cfg, Step(cfg, m, line).0, events[1..], masked, j)
      case Restarted =>
        RestartRebuilds(cfg, m);
        UnsettledDuring(cfg, Restore(cfg, Saved(m)), events[1..], masked, j)
  }

  lemma StepKeepsCover(cfg: Config, m: State, line: Line, masked: seq<Token>, j: nat)
    requires Inv(cfg, m) && j in m.templates && Covers(m.templates[j].tokens, masked)
    ensures j in Step(cfg, m, line).0.templates && Covers(Step(cfg, m, line).0.templates[j].tokens, masked)
  {
    hide Step, Best, Candidates, Merge, Covers, Plant, TreeInv;
    StepParts(cfg, m, line);
    if line.masked != [] && Lands(cfg, m, line.masked) == Some(j) {
      CandidateIsTemplate(cfg, m, j, line.masked);
      MergeCovers(m.templates[j].tokens, line.masked);
    }
  }

  lemma AlikeSettled(cfg: Config, m: State, m': State, masked: seq<Token>, j: nat)
    requires Alike(m, m')
    ensures Settled(cfg, m, masked, j) <==> Settled(cfg, m', masked, j)
  {
  }

  /** Over any history the line is on its template at the end exactly when it was at the start and no line
      in between unsettled it: a move is final, and nothing else moves it. */
  lemma {:induction false} StaysIffNeverUnsettled(cfg: Config, m: State, events: seq<Event>, masked: seq<Token>, j: nat)
    requires Inv(cfg, m) && j in m.templates && Covers(m.templates[j].tokens, masked)
    ensures Settled(cfg, Run(cfg, m, events).0, masked, j)
       <==> Settled(cfg, m, masked, j) && !UnsettledDuring(cfg, m, events, masked, j)
    decreases |events|
  {
    hide Step, Settled, Unsettles, Covers, TreeInv, ShapesInv, LineagesInv;
    if events != [] {
      match events[0]
      case Seen(line) =>
        StepInv(cfg, m, line);
        StepKeepsCover(cfg, m, line, masked, j);
        StaysIffNeverUnsettled(cfg, Step(cfg, m, line).0, events[1..], masked, j);
        if Settled(cfg, m, masked, j) {
          SettledIffNotUnsettled(cfg, m, line, masked, j);
        } else {
          NeverReturns(cfg, m, line, masked, j);
        }
      case Restarted =>
        RestartRebuilds(cfg, m);
        AlikeSettled(cfg, m, Restore(cfg, Saved(m)), masked, j);
        StaysIffNeverUnsettled(cfg, Restore(cfg, Saved(m)), events[1..], masked, j);
    }
  }

  /** The whole law of where a line lands again: after a line got template `j`, and any history, the same
      masked line gets `j` exactly when no line of the history unsettled it. */
  lemma SameIdIffNeverUnsettled(cfg: Config, m: State, line: Line, events: seq<Event>)
    requires Inv(cfg, m) && Step(cfg, m, line).1.Some? && cfg.threshold <= 1.0
    ensures var m1 := Step(cfg, m, line).0; var j := Step(cfg, m, line).1.value.id;
      && Inv(cfg, m1)
      && (Lands(cfg, Run(cfg, m1, events).0, line.masked) == Some(j)
          <==> !UnsettledDuring(cfg, m1, events, line.masked, j))
  {
    hide Step, Lands, Unsettles, Covers, TreeInv, ShapesInv, LineagesInv;
    var m1, j := Step(cfg, m, line).0, Step(cfg, m, line).1.value.id;
    StepInv(cfg, m, line);
    LandingSettles(cfg, m, line);
    StaysIffNeverUnsettled(cfg, m1, events, line.masked, j);
    RunInv(cfg, m1, events);
    RunKeepsCover(cfg, m1, events, line.masked, j);
    SettledIffLands(cfg, Run(cfg, m1, events).0, line.masked, j);
  }

  lemma {:induction false} RunKeepsCover(cfg: Config, m: State, events: seq<Event>, masked: seq<Token>, j: nat)
    requires Inv(cfg, m) && j in m.templates && Covers(m.templates[j].tokens, masked)
    ensures j in Run(cfg, m, events).0.templates
    ensures Covers(Run(cfg, m, events).0.templates[j].tokens, masked)
    decreases |events|
  {
    hide Step, Covers, TreeInv, ShapesInv, LineagesInv;
    if events != [] {
      match events[0]
      case Seen(line) =>
        StepInv(cfg, m, line);
        StepKeepsCover(cfg, m, line, masked, j);
        RunKeepsCover(cfg, Step(cfg, m, line).0, events[1..], masked, j);
      case Restarted =>
        RestartRebuilds(cfg, m);
        RunKeepsCover(cfg, Restore(cfg, Saved(m)), events[1..], masked, j);
    }
  }
}
