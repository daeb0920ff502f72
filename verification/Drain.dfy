/** The miner as the agent runs it: an object whose fields each line updates. Every method is proved against
    the state function of module `Miner`. */
module Drain {
  import opened Options
  import opened Tokens
  import opened ParseTree
  import opened Miner
  import opened MinerRestart
  import opened MinerSpec

  /** The share of comparable positions that match, counted in one pass. */
  method Similarity(template: seq<Token>, tokens: seq<Token>) returns (score: real)
    ensures score == Score(template, tokens)
    ensures ScoreIs(score, template, tokens)
  {
    ScoreIsTheShare(template, tokens);
    hide ScoreIs;
    if |template| != |tokens| {
      return 0.0;
    }
    if template == [] {
      return 1.0;
    }
    var comparable, matches := 0, 0;
    for i := 0 to |tokens|
      invariant comparable == ComparableIn(template, tokens, i)
      invariant matches == MatchesIn(template, tokens, i)
    {
      if template[i] == WILDCARD || IsPlaceholder(template[i]) || IsPlaceholder(tokens[i]) {
        continue;
      }
      comparable := comparable + 1;
      if template[i] == tokens[i] {
        matches := matches + 1;
      }
    }
    if comparable == 0 {
      return 1.0;
    }
    score := matches as real / comparable as real;
  }

  /** Widens slot by slot and says whether the text changed. */
  method MergeInto(template: seq<Token>, tokens: seq<Token>) returns (merged: seq<Token>, widened: bool)
    ensures merged == Merge(template, tokens)
    ensures WidenedBy(template, tokens, merged)
    ensures widened <==> merged != template
  {
    merged, widened := template, false;
    var n := if |template| <= |tokens| then |template| else |tokens|;
    for i := 0 to n
      invariant |merged| == |template|
      invariant forall k :: 0 <= k < i ==> merged[k] == Merge(template, tokens)[k]
      invariant forall k :: i <= k < |template| ==> merged[k] == template[k]
      invariant widened <==> exists k :: 0 <= k < i && merged[k] != template[k]
    {
      if merged[i] != tokens[i] && merged[i] != WILDCARD {
        merged := merged[i := WILDCARD];
        widened := true;
        assert merged[i] != template[i];
      }
    }
  }

  method Params(template: seq<Token>, line: Line) returns (params: seq<string>)
    ensures params == ParamsFor(template, line)
    ensures ParamsAre(params, template, line)
  {
    ParamsForAre(template, line);
    hide ParamsAre;
    params := [];
    for i := 0 to |template|
      invariant params == ParamsUpTo(template, line.masked, line.raw, i)
    {
      if IsParam(template, line.masked, i) && i < |line.raw| {
        params := params + [line.raw[i]];
      }
    }
  }

  class Drain {
    const cfg: Config
    var roots: map<nat, Node>
    var templates: map<nat, Template>
    var shapeIds: map<nat, nat>
    var shapes: map<nat, Shape>
    var lineages: set<nat>
    var nextId: nat
    var untemplated: nat
    var linesSeen: nat

    ghost function View(): State
      reads this
    {
      State(roots, templates, shapeIds, shapes, lineages, nextId, untemplated, linesSeen)
    }

    constructor (config: Config)
      ensures cfg == config && View() == FRESH && Inv(cfg, View())
    {
      cfg := config;
      roots, templates, shapeIds, shapes, lineages, nextId, untemplated, linesSeen :=
        map[], map[], map[], map[], {}, 1, 0, 0;
      new;
      FreshInv(cfg);
    }

    /** Rebuilds from persisted templates, in the order given. */
    constructor Restored(config: Config, saved: seq<Template>)
      ensures cfg == config && View() == Restore(config, saved)
    {
      cfg := config;
      roots, templates, shapeIds, shapes, lineages, nextId, untemplated, linesSeen :=
        map[], map[], map[], map[], {}, 1, 0, 0;
      new;
      hide RestoreOne;
      for i := 0 to |saved|
        invariant cfg == config && View() == Restore(config, saved[..i])
      {
        assert saved[..i + 1][..i] == saved[..i];
        TakeIn(saved[i]);
      }
      assert saved[..|saved|] == saved;
    }

    method TakeIn(t: Template)
      modifies this`nextId, this`roots, this`lineages, this`templates, this`shapeIds, this`shapes
      ensures View() == RestoreOne(cfg, old(View()), t)
    {
      hide Plant, TextOf;
      if t.id + 1 > nextId {
        nextId := t.id + 1;
      }
      InsertIntoTree(t.tokens, t.id);
      lineages := lineages + {t.lineage};
      var _ := NoteShape(t);
      templates := templates[t.id := t];
    }

    /** Descends to the leaf for these tokens: own branch, else the wildcard one, else stops short. */
    method LeafTemplates(tokens: seq<Token>) returns (ids: seq<nat>)
      ensures ids == Candidates(cfg, roots, tokens)
    {
      if |tokens| !in roots {
        assert Lookup(EMPTY, Lead(cfg, tokens)) == [];
        return [];
      }
      var node := roots[|tokens|];
      var lead := Lead(cfg, tokens);
      for i := 0 to |lead|
        invariant Lookup(roots[|tokens|], lead) == Lookup(node, lead[i..])
      {
        var key := TreeKey(lead[i]);
        assert lead[i..][0] == lead[i] && lead[i..][1..] == lead[i + 1..];
        if key in node.children {
          LookupStep(node, lead[i..], key);
          node := node.children[key];
        } else if WILDCARD in node.children {
          LookupStep(node, lead[i..], WILDCARD);
          node := node.children[WILDCARD];
        } else {
          return node.templates;
        }
      }
      ids := node.templates;
    }

    /** Pushes `id` at the node the branches chosen for `tokens` lead to. */
    method InsertIntoTree(tokens: seq<Token>, id: nat)
      modifies this`roots
      ensures roots == Plant(cfg, old(roots), tokens, id)
    {
      var root := if |tokens| in roots then roots[|tokens|] else EMPTY;
      var path := ChooseBranches(root, Lead(cfg, tokens));
      roots := roots[|tokens| := PutAt(root, path, id)];
    }

    /** Chooses a branch per level, sharing the wildcard one past the fan-out cap. */
    method ChooseBranches(root: Node, lead: seq<Token>) returns (path: seq<Token>)
      ensures path == Path(root, lead, cfg.maxChildren)
    {
      hide Path;
      var node := root;
      path := [];
      assert lead[0..] == lead;
      for i := 0 to |lead|
        invariant path + Path(node, lead[i..], cfg.maxChildren) == Path(root, lead, cfg.maxChildren)
      {
        var key := TreeKey(lead[i]);
        if key !in node.children && |node.children| >= cfg.maxChildren {
          key := WILDCARD;
        }
        PathStep(node, lead, i, cfg.maxChildren);
        path := path + [key];
        node := if key in node.children then node.children[key] else EMPTY;
      }
      PathEnd(node, lead, cfg.maxChildren);
    }

    /** Caches the hash of the template's text; the first text seen under a hash is the one kept. */
    method NoteShape(t: Template) returns (hash: nat)
      modifies this`shapeIds, this`shapes
      ensures hash == cfg.hash(t.Text())
      ensures View() == Miner.NoteShape(cfg, old(View()), t)
    {
      var text := t.Text();
      hash := cfg.hash(text);
      shapeIds := shapeIds[t.id := hash];
      if hash !in shapes {
        shapes := shapes[hash := Shape(t.lineage, text)];
      }
    }

    /** The last of the best-scoring candidates that reach the threshold. */
    method BestCandidate(ids: seq<nat>, masked: seq<Token>) returns (best: Option<nat>)
      ensures best == Best(cfg, templates, ids, masked)
      ensures best.None? <==> NoneReaches(cfg, templates, ids, masked)
      ensures best.Some? ==> exists k: nat :: ChosenAt(cfg, templates, ids, masked, k) && ids[k] == best.value
    {
      best := None;
      var bestScore := 0.0;
      for i := 0 to |ids|
        invariant best == Best(cfg, templates, ids[..i], masked)
        invariant best.Some? ==> bestScore == Score(templates[best.value].tokens, masked)
      {
        assert ids[..i + 1][..i] == ids[..i];
        if ids[i] in templates {
          var score := Similarity(templates[ids[i]].tokens, masked);
          if score >= cfg.threshold && (best.None? || score >= bestScore) {
            best, bestScore := Some(ids[i]), score;
          }
        }
      }
      assert ids[..|ids|] == ids;
      var k := BestIsChosen(cfg, templates, ids, masked);
      if best.Some? { ChosenReaches(cfg, templates, ids, masked, k); }
    }

    /** Matches a masked line, creating or widening a template. */
    method AddLine(line: Line) returns (result: Option<Match>)
      requires Inv(cfg, View())
      modifies this
      ensures Inv(cfg, View())
      ensures (View(), result) == Step(cfg, old(View()), line)
      ensures LineDoes(cfg, old(View()), line, View(), result)
    {
      hide Best, Candidates, JoinTemplate, Mint, Step, Inv, LineDoes, NoneReaches, ChosenAt;
      StepInv(cfg, View(), line);
      StepDoes(cfg, View(), line);
      StepIs(cfg, View(), line);
      linesSeen := linesSeen + 1;
      if line.masked == [] {
        return None;
      }
      var candidates := LeafTemplates(line.masked);
      var best := BestCandidate(candidates, line.masked);
      if best.Some? {
        var m := JoinLine(best.value, line);
        return Some(m);
      }
      if |templates| >= cfg.maxTemplates {
        untemplated := untemplated + 1;
        return None;
      }
      var m := MintLine(line);
      result := Some(m);
    }

    method JoinLine(id: nat, line: Line) returns (m: Match)
      requires id in templates && id in shapeIds
      modifies this`templates, this`shapeIds, this`shapes
      ensures (View(), m) == JoinTemplate(cfg, old(View()), id, line)
    {
      hide Merge, ParamsFor, TextOf;
      var t := templates[id];
      var tokens, widened := MergeInto(t.tokens, line.masked);
      t := t.(tokens := tokens, count := t.count + 1, lastSeen := line.now);
      templates := templates[id := t];
      var params := Params(tokens, line);
      var shapeId;
      if widened {
        shapeId := NoteShape(t);
      } else {
        shapeId := shapeIds[id];
      }
      m := Match(id, shapeId, params, false);
    }

    method MintLine(line: Line) returns (m: Match)
      modifies this`nextId, this`roots, this`lineages, this`templates, this`shapeIds, this`shapes
      ensures (View(), m) == Mint(cfg, old(View()), line)
    {
      hide ParamsFor, TextOf, Plant;
      var id := nextId;
      nextId := nextId + 1;
      var params := Params(line.masked, line);
      InsertIntoTree(line.masked, id);
      var text := TextOf(line.masked);
      var lineage := cfg.hash(text);
      if lineage in lineages {
        lineage := cfg.hash(Salted(text, id));
      }
      lineages := lineages + {lineage};
      var t := Template(id, line.masked, 1, line.now, line.now, lineage);
      var shapeId := NoteShape(t);
      templates := templates[id := t];
      m := Match(id, shapeId, params, true);
    }
  }

  lemma PathStep(n: Node, lead: seq<Token>, i: nat, cap: nat)
    requires i < |lead|
    ensures var key := Branch(n, lead[i], cap);
      Path(n, lead[i..], cap) == [key] + Path(Child(n, key), lead[i + 1..], cap)
  {
    assert lead[i..][0] == lead[i] && lead[i..][1..] == lead[i + 1..];
  }

  lemma PathEnd(n: Node, lead: seq<Token>, cap: nat)
    ensures Path(n, lead[|lead|..], cap) == []
  {
  }

  lemma LookupStep(n: Node, tokens: seq<Token>, key: Token)
    requires tokens != [] && key in n.children
    requires key == TreeKey(tokens[0]) || (key == WILDCARD && TreeKey(tokens[0]) !in n.children)
    ensures Lookup(n, tokens) == Lookup(n.children[key], tokens[1..])
  {
    var rest := Route(n.children[key], tokens[1..]);
    assert ([key] + rest)[1..] == rest;
  }
}
