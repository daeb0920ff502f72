/** Which template a line lands on, now and later.

    A line that gave birth to a template is never again reported new or untemplated. The stronger claim,
    that a line keeps landing on one id, fails; what is proved is exactly which steps move a line, and that
    a line once moved off a template never comes back to it. */
module MinerIdentity {
  import opened Options
  import opened Tokens
  import opened ParseTree
  import opened Miner
  import opened MinerRestart

  // ---- scores

  lemma {:induction false} CoverCounts(template: seq<Token>, tokens: seq<Token>, k: nat)
    requires Covers(template, tokens) && k <= |tokens|
    ensures MatchesIn(template, tokens, k) == ComparableIn(template, tokens, k)
  {
    if k > 0 { CoverCounts(template, tokens, k - 1); }
  }

  /** A score is between 0 and 1, and 1 on every line the template generalises. */
  lemma ScoreBounds(template: seq<Token>, tokens: seq<Token>)
    ensures 0.0 <= Score(template, tokens) <= 1.0
    ensures Covers(template, tokens) ==> Score(template, tokens) == 1.0
  {
    if |template| == |tokens| {
      var c := ComparableIn(template, tokens, |tokens|);
      if c > 0 {
        var d := MatchesIn(template, tokens, |tokens|);
        Ratio(d, c);
        if Covers(template, tokens) { CoverCounts(template, tokens, |tokens|); }
      }
    }
  }

  lemma Ratio(d: nat, c: nat)
    requires d <= c && c > 0
    ensures 0.0 <= d as real / c as real <= 1.0
    ensures d as real / c as real == 1.0 <==> d == c
  {
  }

  lemma {:induction false} PerfectCounts(template: seq<Token>, tokens: seq<Token>, k: nat)
    requires k <= |template| == |tokens|
    ensures MatchesIn(template, tokens, k) == ComparableIn(template, tokens, k)
       <==> forall i :: 0 <= i < k && Comparable(template[i], tokens[i]) ==> template[i] == tokens[i]
  {
    if k > 0 { PerfectCounts(template, tokens, k - 1); }
  }

  /** A score of 1 means that every comparable position matches. */
  lemma PerfectScore(template: seq<Token>, tokens: seq<Token>)
    requires |template| == |tokens|
    ensures Score(template, tokens) == 1.0
       <==> forall i :: 0 <= i < |tokens| && Comparable(template[i], tokens[i]) ==> template[i] == tokens[i]
  {
    PerfectCounts(template, tokens, |tokens|);
    var c := ComparableIn(template, tokens, |tokens|);
    if c > 0 { Ratio(MatchesIn(template, tokens, |tokens|), c); }
  }

  /** Widening keeps a score of 1. */
  lemma WideningKeepsPerfect(template: seq<Token>, other: seq<Token>, tokens: seq<Token>)
    requires |template| == |tokens| && Score(template, tokens) == 1.0
    ensures Score(Merge(template, other), tokens) == 1.0
  {
    PerfectScore(template, tokens);
    PerfectScore(Merge(template, other), tokens);
  }

  lemma MergeCovers(template: seq<Token>, tokens: seq<Token>)
    requires |template| == |tokens|
    ensures Covers(Merge(template, tokens), tokens)
    ensures forall line :: Covers(template, line) ==> Covers(Merge(template, tokens), line)
  {
  }

  // ---- the chosen candidate

  ghost predicate Increasing(ids: seq<nat>) {
    forall i, j :: 0 <= i < j < |ids| ==> ids[i] < ids[j]
  }

  lemma {:induction false} LeafIncreasing(cfg: Config, ts: seq<seq<Token>>, n: nat, p: seq<Token>)
    ensures Increasing(TemplatesAt(Root(Grown(cfg, ts), n), p))
    ensures forall id :: id in TemplatesAt(Root(Grown(cfg, ts), n), p) ==> id <= |ts|
  {
    hide Lead, PutAt, Path, TemplatesAt;
    if ts == [] {
      NoIds(p);
    } else {
      var k := |ts| - 1;
      LeafIncreasing(cfg, ts[..k], n, p);
      if |ts[k]| == n {
        var root := Root(Grown(cfg, ts[..k]), n);
        PutAtTemplates(root, Path(root, Lead(cfg, ts[k]), cfg.maxChildren), |ts|, p);
        var before, now := TemplatesAt(root, p), TemplatesAt(Root(Grown(cfg, ts), n), p);
        assert forall i :: 0 <= i < |before| ==> before[i] in before && now[i] == before[i];
      }
    }
  }

  lemma NoIds(p: seq<Token>)
    ensures TemplatesAt(EMPTY, p) == []
  {
  }

  /** `j` is chosen when it scores 1 and no candidate with a larger id does. */
  lemma {:induction false} LastPerfectWins(cfg: Config, templates: map<nat, Template>, ids: seq<nat>,
                                           masked: seq<Token>, j: nat)
    requires Increasing(ids) && j in ids && j in templates && cfg.threshold <= 1.0
    requires Score(templates[j].tokens, masked) == 1.0
    requires forall c :: c in ids && c in templates && c > j ==> Score(templates[c].tokens, masked) < 1.0
    ensures Best(cfg, templates, ids, masked) == Some(j)
  {
    hide Score;
    var k := |ids| - 1;
    var init := ids[..k];
    if ids[k] == j {
      var before := Best(cfg, templates, init, masked);
      if before.Some? { ScoreBounds(templates[before.value].tokens, masked); }
    } else {
      LastPerfectWins(cfg, templates, init, masked, j);
    }
  }

  /** A candidate with a larger id than the chosen one scores strictly less. */
  lemma {:induction false} LaterScoresLess(cfg: Config, templates: map<nat, Template>, ids: seq<nat>,
                                           masked: seq<Token>, c: nat)
    requires Increasing(ids) && Best(cfg, templates, ids, masked).Some? && c in ids && c in templates
    requires c > Best(cfg, templates, ids, masked).value
    ensures Score(templates[c].tokens, masked)
          < Score(templates[Best(cfg, templates, ids, masked).value].tokens, masked)
  {
    hide Score;
    var k := |ids| - 1;
    var init := ids[..k];
    if ids[k] != Best(cfg, templates, ids, masked).value && c != ids[k] {
      LaterScoresLess(cfg, templates, init, masked, c);
    }
  }

  // ---- a line that gave birth

  /** Template `id` generalises `masked`, and a lookup of `masked` is anchored to its leaf. */
  ghost predicate Held(cfg: Config, m: State, id: nat, masked: seq<Token>, p: seq<Token>) {
    && id in m.templates && Covers(m.templates[id].tokens, masked)
    && |p| == |Lead(cfg, masked)|
    && Anchored(Root(m.roots, |masked|), Lead(cfg, masked), p, cfg.maxChildren)
    && id in TemplatesAt(Root(m.roots, |masked|), p)
  }

  lemma MintHolds(cfg: Config, m: State, line: Line)
    requires line.masked != []
    ensures exists p :: Held(cfg, Mint(cfg, m, line).0, m.nextId, line.masked, p)
  {
    hide TextOf, ParamsFor, Lead, Path, PutAt;
    var root := Root(m.roots, |line.masked|);
    var lead := Lead(cfg, line.masked);
    var p := Path(root, lead, cfg.maxChildren);
    InsertAnchors(root, lead, m.nextId, cfg.maxChildren);
    PutAtTemplates(root, p, m.nextId, p);
    assert Held(cfg, Mint(cfg, m, line).0, m.nextId, line.masked, p);
  }

  lemma PlantKeepsHeld(cfg: Config, m: State, m': State, other: seq<Token>, at: nat,
                       id: nat, masked: seq<Token>, p: seq<Token>)
    requires Held(cfg, m, id, masked, p) && m'.roots == Plant(cfg, m.roots, other, at)
    requires id in m'.templates && m'.templates[id].tokens == m.templates[id].tokens
    ensures Held(cfg, m', id, masked, p)
  {
    hide Path, PutAt;
    if |other| == |masked| {
      var root := Root(m.roots, |masked|);
      var lead := Lead(cfg, other);
      AnchorSurvives(root, Lead(cfg, masked), p, lead, at, cfg.maxChildren);
      PutAtTemplates(root, Path(root, lead, cfg.maxChildren), at, p);
    }
  }

  lemma StepKeepsHeld(cfg: Config, m: State, line: Line, id: nat, masked: seq<Token>, p: seq<Token>)
    requires Inv(cfg, m) && Held(cfg, m, id, masked, p)
    ensures Held(cfg, Step(cfg, m, line).0, id, masked, p)
  {
    hide TextOf, ParamsFor, Best, Candidates, TreeInv, Plant, Anchored, TemplatesAt, Covers, Merge;
    if line.masked != [] {
      var best := Best(cfg, m.templates, Candidates(cfg, m.roots, line.masked), line.masked);
      if best.Some? {
        if best.value == id {
          CandidateIsTemplate(cfg, m, id, line.masked);
          MergeCovers(m.templates[id].tokens, line.masked);
        }
      } else if |m.templates| < cfg.maxTemplates {
        PlantKeepsHeld(cfg, m, Step(cfg, m, line).0, line.masked, m.nextId, id, masked, p);
      }
    }
  }

  lemma {:induction false} RunKeepsHeld(cfg: Config, m: State, events: seq<Event>, id: nat, masked: seq<Token>,
                                        p: seq<Token>)
    requires Inv(cfg, m) && Held(cfg, m, id, masked, p)
    ensures Held(cfg, Run(cfg, m, events).0, id, masked, p)
    decreases |events|
  {
    hide Held, Step, TreeInv, ShapesInv, LineagesInv;
    if events != [] {
      match events[0]
      case Seen(line) =>
        StepInv(cfg, m, line);
        StepKeepsHeld(cfg, m, line, id, masked, p);
        RunKeepsHeld(cfg, Step(cfg, m, line).0, events[1..], id, masked, p);
      case Restarted =>
        RestartKeepsHeld(cfg, m, id, masked, p);
        RunKeepsHeld(cfg, Restore(cfg, Saved(m)), events[1..], id, masked, p);
    }
  }

  lemma RestartKeepsHeld(cfg: Config, m: State, id: nat, masked: seq<Token>, p: seq<Token>)
    requires Inv(cfg, m) && Held(cfg, m, id, masked, p)
    ensures Inv(cfg, Restore(cfg, Saved(m))) && Held(cfg, Restore(cfg, Saved(m)), id, masked, p)
  {
    hide Restore;
    RestartRebuilds(cfg, m);
  }

  /** The line is matched to a known template: neither reported new nor left untemplated. */
  ghost predicate Recognised(cfg: Config, m: State, line: Line) {
    Step(cfg, m, line).1.Some? && !Step(cfg, m, line).1.value.isNew
  }

  lemma HeldIsRecognised(cfg: Config, m: State, id: nat, line: Line, p: seq<Token>)
    requires Inv(cfg, m) && Held(cfg, m, id, line.masked, p) && line.masked != [] && cfg.threshold <= 1.0
    ensures Recognised(cfg, m, line)
  {
    hide TextOf, ParamsFor, Best, Score, TreeInv, Merge, TemplatesAt;
    AnchoredRoute(Root(m.roots, |line.masked|), Lead(cfg, line.masked), p, cfg.maxChildren);
    ScoreBounds(m.templates[id].tokens, line.masked);
    assert Qualifies(cfg, m.templates, id, line.masked);
  }

  /** No later history makes the miner forget the masked line. */
  ghost predicate Remembered(cfg: Config, m: State, masked: seq<Token>)
    requires Inv(cfg, m)
  {
    forall events: seq<Event>, again: Line ::
      again.masked == masked ==> Recognised(cfg, Run(cfg, m, events).0, again)
  }

  lemma NothingQualifies(cfg: Config, m: State, line: Line)
    requires cfg.threshold > 1.0
    ensures !Recognised(cfg, m, line)
  {
    hide TextOf, ParamsFor, Score, Merge, Candidates;
    var best := Best(cfg, m.templates, Candidates(cfg, m.roots, line.masked), line.masked);
    if best.Some? { ScoreBounds(m.templates[best.value].tokens, line.masked); }
  }

  /** Novelty is reported once: after a line gives birth to a template, the same masked line is recognised
      in every later history, through widenings, cap overflows, new branches and restarts. It holds exactly
      when the threshold can be reached at all. */
  lemma BirthLineIsRemembered(cfg: Config, m: State, line: Line)
    requires Inv(cfg, m)
    requires Step(cfg, m, line).1.Some? && Step(cfg, m, line).1.value.isNew
    ensures Inv(cfg, Step(cfg, m, line).0)
    ensures Remembered(cfg, Step(cfg, m, line).0, line.masked) <==> cfg.threshold <= 1.0
  {
    hide Mint, JoinTemplate, Candidates, Best, Held, Inv, Recognised;
    StepInv(cfg, m, line);
    var born := Step(cfg, m, line).0;
    if cfg.threshold <= 1.0 {
      MintedState(cfg, m, line);
      var p :| Held(cfg, born, m.nextId, line.masked, p);
      forall events: seq<Event>, again: Line | again.masked == line.masked
        ensures Recognised(cfg, Run(cfg, born, events).0, again)
      {
        RunInv(cfg, born, events);
        RunKeepsHeld(cfg, born, events, m.nextId, line.masked, p);
        HeldIsRecognised(cfg, Run(cfg, born, events).0, m.nextId, again, p);
      }
    } else {
      NothingQualifies(cfg, Run(cfg, born, []).0, line);
    }
  }

  /** A line reported new was minted. */
  lemma MintedState(cfg: Config, m: State, line: Line)
    requires Step(cfg, m, line).1.Some? && Step(cfg, m, line).1.value.isNew
    ensures line.masked != []
    ensures Step(cfg, m, line).0 == Mint(cfg, m.(linesSeen := m.linesSeen + 1), line).0
    ensures Step(cfg, m, line).1.value.id == m.nextId
    ensures exists p :: Held(cfg, Step(cfg, m, line).0, m.nextId, line.masked, p)
  {
    hide TextOf, ParamsFor, Best, Candidates, Merge, Plant, Held;
    MintHolds(cfg, m.(linesSeen := m.linesSeen + 1), line);
  }
}
