/** What one line promises, position by position and candidate by candidate, and that a step keeps the promise. */
module MinerSpec {
  import opened Options
  import opened Tokens
  import opened ParseTree
  import opened Miner
  import opened MinerRestart

  // ---- the score

  /** The positions that say something: neither side is variable there. */
  function ComparableAt(template: seq<Token>, tokens: seq<Token>): set<nat>
    requires |template| == |tokens|
  {
    set i: nat | i < |tokens| && template[i] != WILDCARD && !IsPlaceholder(template[i]) && !IsPlaceholder(tokens[i])
  }

  function AgreeingAt(template: seq<Token>, tokens: seq<Token>): set<nat>
    requires |template| == |tokens|
  {
    set i | i in ComparableAt(template, tokens) && template[i] == tokens[i]
  }

  /** `score` is the share of the comparable positions that agree: 0 for another length, 1 when nothing compares. */
  predicate ScoreIs(score: real, template: seq<Token>, tokens: seq<Token>) {
    if |template| != |tokens| then score == 0.0
    else
      var n := |ComparableAt(template, tokens)|;
      score == if n == 0 then 1.0 else |AgreeingAt(template, tokens)| as real / n as real
  }

  function Below(places: set<nat>, k: nat): set<nat> { set i | i in places && i < k }

  lemma BelowNext(places: set<nat>, k: nat)
    ensures |Below(places, k + 1)| == |Below(places, k)| + if k in places then 1 else 0
    ensures Below(places, 0) == {}
  {
    assert Below(places, k + 1) == Below(places, k) + if k in places then {k} else {};
  }

  lemma {:induction false} Counted(template: seq<Token>, tokens: seq<Token>, k: nat)
    requires k <= |template| == |tokens|
    ensures ComparableIn(template, tokens, k) == |Below(ComparableAt(template, tokens), k)|
    ensures MatchesIn(template, tokens, k) == |Below(AgreeingAt(template, tokens), k)|
  {
    hide Below, IsPlaceholder;
    BelowNext(ComparableAt(template, tokens), 0);
    BelowNext(AgreeingAt(template, tokens), 0);
    if k > 0 {
      Counted(template, tokens, k - 1);
      BelowNext(ComparableAt(template, tokens), k - 1);
      BelowNext(AgreeingAt(template, tokens), k - 1);
    }
  }

  lemma ScoreIsTheShare(template: seq<Token>, tokens: seq<Token>)
    ensures ScoreIs(Score(template, tokens), template, tokens)
  {
    if |template| == |tokens| {
      var n, c, a := |tokens|, ComparableAt(template, tokens), AgreeingAt(template, tokens);
      Counted(template, tokens, n);
      assert Below(c, n) == c && Below(a, n) == a;
    }
  }

  // ---- the choice

  /** Candidate `k` reaches the threshold, no candidate scores more, and no later one as much. */
  ghost predicate ChosenAt(cfg: Config, templates: map<nat, Template>, ids: seq<nat>, masked: seq<Token>, k: nat) {
    && k < |ids| && ids[k] in templates
    && var top := Score(templates[ids[k]].tokens, masked);
       && top >= cfg.threshold
       && (forall i :: 0 <= i < |ids| && ids[i] in templates ==> Score(templates[ids[i]].tokens, masked) <= top)
       && (forall i :: k < i < |ids| && ids[i] in templates ==> Score(templates[ids[i]].tokens, masked) < top)
  }

  ghost predicate NoneReaches(cfg: Config, templates: map<nat, Template>, ids: seq<nat>, masked: seq<Token>) {
    forall i :: 0 <= i < |ids| && ids[i] in templates ==> Score(templates[ids[i]].tokens, masked) < cfg.threshold
  }

  /** The choice is the last of the best, and there is one exactly when some candidate reaches the threshold. */
  lemma {:induction false} BestIsChosen(cfg: Config, templates: map<nat, Template>, ids: seq<nat>, masked: seq<Token>)
    returns (k: nat)
    ensures var best := Best(cfg, templates, ids, masked);
      if best.Some? then ChosenAt(cfg, templates, ids, masked, k) && ids[k] == best.value
      else NoneReaches(cfg, templates, ids, masked)
  {
    hide Score;
    k := 0;
    if ids != [] {
      var n := |ids| - 1;
      var before, last := Best(cfg, templates, ids[..n], masked), ids[n];
      k := BestIsChosen(cfg, templates, ids[..n], masked);
      if Best(cfg, templates, ids, masked) != before ||
         (Qualifies(cfg, templates, last, masked) &&
          (before.None? || Score(templates[last].tokens, masked) >= Score(templates[before.value].tokens, masked))) {
        k := n;
      }
      assert forall i :: 0 <= i < n ==> ids[..n][i] == ids[i];
    }
  }

  /** Only one place is the last of the best. */
  lemma ChosenOnce(cfg: Config, templates: map<nat, Template>, ids: seq<nat>, masked: seq<Token>, k: nat, k': nat)
    requires ChosenAt(cfg, templates, ids, masked, k) && ChosenAt(cfg, templates, ids, masked, k')
    ensures k == k'
  {
    hide Score;
  }

  // ---- widening and parameters

  /** Slot by slot: a token that differs from the line's becomes the wildcard, and nothing else changes. */
  ghost predicate WidenedBy(was: seq<Token>, tokens: seq<Token>, now: seq<Token>) {
    |now| == |was| && forall i :: 0 <= i < |was| ==>
      now[i] == if i < |tokens| && was[i] != tokens[i] then WILDCARD else was[i]
  }

  ghost predicate Increasing(places: seq<nat>) {
    forall i, j :: 0 <= i < j < |places| ==> places[i] < places[j]
  }

  /** `params` are the raw texts at `places`, which are, in order, the variable positions that have one. */
  ghost predicate ParamsAt(params: seq<string>, template: seq<Token>, line: Line, places: seq<nat>) {
    && Increasing(places)
    && (forall i: nat :: i in places <==>
          i < |template| && i < |line.raw| && (template[i] == WILDCARD || (i < |line.masked| && IsPlaceholder(line.masked[i]))))
    && |params| == |places|
    && forall k :: 0 <= k < |params| ==> places[k] < |line.raw| && params[k] == line.raw[places[k]]
  }

  ghost predicate ParamsAre(params: seq<string>, template: seq<Token>, line: Line) {
    exists places :: ParamsAt(params, template, line, places)
  }

  lemma {:induction false} ParamsUpToAt(template: seq<Token>, line: Line, k: nat) returns (places: seq<nat>)
    requires k <= |template|
    ensures ParamsAt(ParamsUpTo(template, line.masked, line.raw, k), template[..k], line, places)
  {
    if k == 0 {
      places := [];
    } else {
      hide ParamsAt, IsParam;
      places := ParamsUpToAt(template, line, k - 1);
      NextPlace(ParamsUpTo(template, line.masked, line.raw, k - 1), template, line, k - 1, places);
      if IsParam(template, line.masked, k - 1) && k - 1 < |line.raw| {
        places := places + [k - 1];
      }
    }
  }

  /** One position more. */
  lemma NextPlace(params: seq<string>, template: seq<Token>, line: Line, i: nat, places: seq<nat>)
    requires i < |template| && ParamsAt(params, template[..i], line, places)
    ensures
      if IsParam(template, line.masked, i) && i < |line.raw|
      then ParamsAt(params + [line.raw[i]], template[..i + 1], line, places + [i])
      else ParamsAt(params + [], template[..i + 1], line, places)
  {
    hide IsPlaceholder;
    assert forall j: nat :: j < i ==> template[..i][j] == template[..i + 1][j];
    assert forall j :: 0 <= j < |places| ==> places[j] in places;
  }

  lemma ParamsForAre(template: seq<Token>, line: Line)
    ensures ParamsAre(ParamsFor(template, line), template, line)
  {
    var places := ParamsUpToAt(template, line, |template|);
    assert template[..|template|] == template;
  }

  // ---- one line

  /** Template `j` takes the line in. */
  ghost predicate TakesIn(cfg: Config, m: State, line: Line, j: nat, m': State, r: Match) {
    && j in m.templates && j in m'.templates && r.id == j && !r.isNew
    && var was, now := m.templates[j], m'.templates[j];
       && WidenedBy(was.tokens, line.masked, now.tokens)
       && now == was.(tokens := now.tokens, count := was.count + 1, lastSeen := line.now)
       && m'.templates == m.templates[j := now]
       && ParamsAre(r.params, now.tokens, line)
       && r.shapeId == cfg.hash(TextOf(now.tokens))
       && m'.shapeIds == m.shapeIds[j := r.shapeId]
       && m' == m.(linesSeen := m.linesSeen + 1, templates := m'.templates, shapeIds := m'.shapeIds, shapes := m'.shapes)
       && HoldsShape(m, m', r.shapeId, Shape(was.lineage, TextOf(now.tokens)))
  }

  /** The shape is known afterwards: as it was known before, or as this one. */
  ghost predicate HoldsShape(m: State, m': State, id: nat, shape: Shape) {
    m'.shapes == if id in m.shapes then m.shapes else m.shapes[id := shape]
  }

  /** A template is born. */
  ghost predicate GivesBirth(cfg: Config, m: State, line: Line, m': State, r: Match) {
    && var id, text := m.nextId, TextOf(line.masked);
       var lineage := if cfg.hash(text) in m.lineages then cfg.hash(text + [0x1f as char] + Decimal(id)) else cfg.hash(text);
       && r.id == id && r.isNew && r.shapeId == cfg.hash(text) && ParamsAre(r.params, line.masked, line)
       && m'.templates == m.templates[id := Template(id, line.masked, 1, line.now, line.now, lineage)]
       && m'.roots == Plant(cfg, m.roots, line.masked, id)
       && m' == m.(linesSeen := m.linesSeen + 1, nextId := id + 1, roots := m'.roots, templates := m'.templates,
                   lineages := m.lineages + {lineage}, shapeIds := m.shapeIds[id := r.shapeId], shapes := m'.shapes)
       && HoldsShape(m, m', r.shapeId, Shape(lineage, text))
  }

  /** What one line does and what it is answered. */
  ghost predicate LineDoes(cfg: Config, m: State, line: Line, m': State, result: Option<Match>) {
    var ids := Candidates(cfg, m.roots, line.masked);
    if line.masked == [] then result.None? && m' == m.(linesSeen := m.linesSeen + 1)
    else if !NoneReaches(cfg, m.templates, ids, line.masked) then
      && result.Some?
      && exists k: nat :: ChosenAt(cfg, m.templates, ids, line.masked, k) && TakesIn(cfg, m, line, ids[k], m', result.value)
    else if |m.templates| >= cfg.maxTemplates then
      result.None? && m' == m.(linesSeen := m.linesSeen + 1, untemplated := m.untemplated + 1)
    else result.Some? && GivesBirth(cfg, m, line, m', result.value)
  }

  lemma JoinTakesIn(cfg: Config, m: State, line: Line, j: nat)
    requires Inv(cfg, m) && j in m.templates && j in m.shapeIds
    ensures var m0 := m.(linesSeen := m.linesSeen + 1);
      TakesIn(cfg, m, line, j, JoinTemplate(cfg, m0, j, line).0, JoinTemplate(cfg, m0, j, line).1)
  {
    hide TextOf, ParamsFor, TreeInv, LineagesInv, ParamsAre;
    var m0 := m.(linesSeen := m.linesSeen + 1);
    var (m', r) := JoinTemplate(cfg, m0, j, line);
    var was, now := m.templates[j], m'.templates[j];
    ParamsForAre(now.tokens, line);
    assert now.tokens == Merge(was.tokens, line.masked);
    if now.tokens == was.tokens {
      assert m.shapeIds[j] == cfg.hash(was.Text());
      assert m.shapeIds[j := r.shapeId] == m.shapeIds;
    }
  }

  lemma MintGivesBirth(cfg: Config, m: State, line: Line)
    ensures var m0 := m.(linesSeen := m.linesSeen + 1);
      GivesBirth(cfg, m, line, Mint(cfg, m0, line).0, Mint(cfg, m0, line).1)
  {
    hide TextOf, ParamsFor, Plant, Decimal, ParamsAre;
    ParamsForAre(line.masked, line);
  }

  /** A step of a sound miner does what a line does. */
  lemma StepDoes(cfg: Config, m: State, line: Line)
    requires Inv(cfg, m)
    ensures LineDoes(cfg, m, line, Step(cfg, m, line).0, Step(cfg, m, line).1)
  {
    hide JoinTemplate, Mint, Candidates, Best, TakesIn, GivesBirth, ChosenAt, Score;
    StepIs(cfg, m, line);
    hide Step;
    var ids := Candidates(cfg, m.roots, line.masked);
    var best := Best(cfg, m.templates, ids, line.masked);
    var k := BestIsChosen(cfg, m.templates, ids, line.masked);
    if line.masked != [] {
      if best.Some? {
        ChosenReaches(cfg, m.templates, ids, line.masked, k);
        JoinTakesIn(cfg, m, line, best.value);
      } else if |m.templates| < cfg.maxTemplates {
        MintGivesBirth(cfg, m, line);
      }
    }
  }

  lemma ChosenReaches(cfg: Config, templates: map<nat, Template>, ids: seq<nat>, masked: seq<Token>, k: nat)
    requires ChosenAt(cfg, templates, ids, masked, k)
    ensures !NoneReaches(cfg, templates, ids, masked)
  {
    hide Score;
  }

  // ---- the tree

  /** The tree is keyed on the leading tokens: two fewer than the depth, at least one, at most all. */
  lemma LeadIs(cfg: Config, tokens: seq<Token>)
    ensures Lead(cfg, tokens) <= tokens
    ensures var levels := if cfg.depth > 3 then cfg.depth - 2 else 1;
      |Lead(cfg, tokens)| == if |tokens| < levels then |tokens| else levels
  {
  }

  /** The tree does not grow with the data: in a sound miner no node has more branches than the cap allows. */
  lemma FanOutIsBounded(cfg: Config, m: State, n: nat)
    requires Inv(cfg, m) && n in m.roots
    ensures Bounded(m.roots[n], cfg.maxChildren)
  {
    hide ShapesInv, LineagesInv, Grown;
    GrownIsBounded(cfg, TokensOf(m.templates, m.nextId - 1), n);
  }

  lemma {:induction false} GrownIsBounded(cfg: Config, lists: seq<seq<Token>>, n: nat)
    ensures n in Grown(cfg, lists) ==> Bounded(Grown(cfg, lists)[n], cfg.maxChildren)
  {
    hide Bounded, Insert, Lead;
    if lists != [] {
      var k := |lists| - 1;
      var before, tokens := Grown(cfg, lists[..k]), lists[k];
      GrownIsBounded(cfg, lists[..k], n);
      if n == |tokens| {
        NothingBounded(cfg.maxChildren);
        InsertStaysBounded(Root(before, n), Lead(cfg, tokens), |lists|, cfg.maxChildren);
      }
    }
  }

  lemma NothingBounded(cap: nat)
    ensures Bounded(EMPTY, cap)
  {
  }

  // ---- numbers in a salted text

  predicate AllDigits(s: string) { forall i :: 0 <= i < |s| ==> '0' <= s[i] <= '9' }

  /** The number a decimal numeral stands for. */
  function Numeral(s: string): nat
    requires AllDigits(s)
  {
    if s == "" then 0 else 10 * Numeral(s[..|s|-1]) + (s[|s|-1] as int - '0' as int)
  }

  /** An id is written in decimal, without leading zeros. */
  lemma {:induction false} DecimalIs(n: nat)
    ensures Decimal(n) != "" && AllDigits(Decimal(n))
    ensures Numeral(Decimal(n)) == n && (n > 0 ==> Decimal(n)[0] != '0')
  {
    if n >= 10 {
      DecimalIs(n / 10);
      assert Decimal(n)[..|Decimal(n)|-1] == Decimal(n / 10);
    }
  }
}
