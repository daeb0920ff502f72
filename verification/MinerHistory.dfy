/** What holds of every history of a miner: counted lines stay generalised, shapes stay resolvable, texts
    change a bounded number of times, and lineages are birth hashes. */
module MinerHistory {
  import opened Options
  import opened Tokens
  import opened ParseTree
  import opened Miner
  import opened MinerRestart
  import opened MinerIdentity
  import opened MinerMoves
  import opened Sorting

  /** A line counted into a template is generalised by that template's tokens ever after. */
  lemma CountedLinesStayCovered(cfg: Config, m: State, line: Line, events: seq<Event>)
    requires Inv(cfg, m) && Step(cfg, m, line).1.Some?
    ensures Inv(cfg, Step(cfg, m, line).0)
    ensures var last := Run(cfg, Step(cfg, m, line).0, events).0; var id := Step(cfg, m, line).1.value.id;
      id in last.templates && Covers(last.templates[id].tokens, line.masked)
  {
    hide Step, Lands, Covers, Merge, TreeInv, ShapesInv, LineagesInv;
    StepInv(cfg, m, line);
    StepParts(cfg, m, line);
    LandedId(cfg, m, line);
    var m', id := Step(cfg, m, line).0, Step(cfg, m, line).1.value.id;
    if !Step(cfg, m, line).1.value.isNew {
      CandidateIsTemplate(cfg, m, id, line.masked);
      MergeCovers(m.templates[id].tokens, line.masked);
    } else {
      SelfCover(line.masked);
    }
    RunKeepsCover(cfg, m', events, line.masked, id);
  }

  lemma SelfCover(tokens: seq<Token>)
    ensures Covers(tokens, tokens)
  {
  }

  // ---- shapes

  ghost predicate NoRestarts(events: seq<Event>) {
    forall e :: e in events ==> e.Seen?
  }

  /** Every shape of `m` means in `m'` what it meant in `m`. */
  ghost predicate ShapesKept(m: State, m': State) {
    forall h :: h in m.shapes ==> h in m'.shapes && m'.shapes[h] == m.shapes[h]
  }

  lemma StepKeepsShapes(cfg: Config, m: State, line: Line)
    ensures ShapesKept(m, Step(cfg, m, line).0)
  {
    hide TextOf, ParamsFor, Merge, Best, Candidates, Plant, LineageFor;
  }

  lemma {:induction false} RunKeepsShapes(cfg: Config, m: State, events: seq<Event>)
    requires Inv(cfg, m) && NoRestarts(events)
    ensures ShapesKept(m, Run(cfg, m, events).0)
    decreases |events|
  {
    hide Step, TreeInv, ShapesInv, LineagesInv;
    if events != [] {
      assert events[0] in events;
      var line := events[0].line;
      assert NoRestarts(events[1..]) by { assert forall e :: e in events[1..] ==> e in events; }
      StepInv(cfg, m, line);
      StepKeepsShapes(cfg, m, line);
      RunKeepsShapes(cfg, Step(cfg, m, line).0, events[1..]);
    }
  }

  /** The shape id a line is given is the hash of its template's text after the line. */
  lemma ReturnedShape(cfg: Config, m: State, line: Line)
    requires Inv(cfg, m) && Step(cfg, m, line).1.Some?
    ensures var r := Step(cfg, m, line).1.value; var m' := Step(cfg, m, line).0;
      && r.id in m'.templates && r.shapeId == cfg.hash(m'.templates[r.id].Text())
      && r.shapeId in m'.shapes && m'.shapeIds[r.id] == r.shapeId
  {
    hide TextOf, ParamsFor, Merge, Best, Candidates, Plant, LineageFor, TreeInv, LineagesInv;
    StepInv(cfg, m, line);
  }

  /** Every shape id ever returned resolves, through the rest of the run, to one unchanging text and
      lineage, and the text hashes to the id. */
  lemma ReturnedShapeResolves(cfg: Config, m: State, line: Line, events: seq<Event>)
    requires Inv(cfg, m) && NoRestarts(events) && Step(cfg, m, line).1.Some?
    ensures Inv(cfg, Step(cfg, m, line).0)
    ensures var m' := Step(cfg, m, line).0; var h := Step(cfg, m, line).1.value.shapeId;
      var last := Run(cfg, m', events).0;
      h in m'.shapes && h in last.shapes && last.shapes[h] == m'.shapes[h] && cfg.hash(last.shapes[h].text) == h
  {
    hide Step, TreeInv, LineagesInv;
    StepInv(cfg, m, line);
    ReturnedShape(cfg, m, line);
    RunKeepsShapes(cfg, Step(cfg, m, line).0, events);
  }

  // ---- how often a text changes

  function Wild(tokens: seq<Token>): (n: nat)
    ensures n <= |tokens|
  {
    if tokens == [] then 0
    else
      var here := if tokens[|tokens|-1] == WILDCARD then 1 else 0;
      Wild(tokens[..|tokens|-1]) + here
  }

  lemma {:induction false} MergeGrowsWild(template: seq<Token>, tokens: seq<Token>)
    ensures Wild(Merge(template, tokens)) >= Wild(template)
    ensures Merge(template, tokens) != template ==> Wild(Merge(template, tokens)) > Wild(template)
  {
    hide Merge;
    if template != [] {
      var k := |template| - 1;
      var merged := Merge(template, tokens);
      MergeGrowsWild(template[..k], tokens);
      MergeLast(template, tokens);
      if merged != template {
        assert merged == merged[..k] + [merged[k]] && template == template[..k] + [template[k]];
      }
    }
  }

  lemma MergeLast(template: seq<Token>, tokens: seq<Token>)
    requires template != []
    ensures var k := |template| - 1; var merged := Merge(template, tokens);
      Merge(template[..k], tokens) == merged[..k] && (merged[k] == template[k] || merged[k] == WILDCARD)
  {
  }

  function TokensNow(m: State, id: nat): seq<Token> {
    if id in m.templates then m.templates[id].tokens else []
  }

  /** How many lines of the history change the text of template `id`. */
  function Changes(cfg: Config, m: State, events: seq<Event>, id: nat): nat
    requires Inv(cfg, m)
    decreases |events|
  {
    if events == [] then 0
    else match events[0]
      case Seen(line) =>
        StepInv(cfg, m, line);
        var m' := Step(cfg, m, line).0;
        var here := if TokensNow(m', id) != TokensNow(m, id) then 1 else 0;
        here + Changes(cfg, m', events[1..], id)
      case Restarted =>
        RestartRebuilds(cfg, m);
        Changes(cfg, Restore(cfg, Saved(m)), events[1..], id)
  }

  lemma StepWild(cfg: Config, m: State, line: Line, id: nat)
    requires Inv(cfg, m) && id in m.templates
    ensures id in Step(cfg, m, line).0.templates
    ensures var now, was := TokensNow(Step(cfg, m, line).0, id), TokensNow(m, id);
      |now| == |was| && Wild(now) >= Wild(was) && (now != was ==> Wild(now) > Wild(was))
  {
    hide Step, Lands, Merge, Wild, TreeInv, Plant;
    StepParts(cfg, m, line);
    if line.masked != [] && Lands(cfg, m, line.masked) == Some(id) {
      MergeGrowsWild(m.templates[id].tokens, line.masked);
    }
  }

  /** An n-token template changes its text at most n times, restarts or not. */
  lemma {:induction false} TextChangesBounded(cfg: Config, m: State, events: seq<Event>, id: nat)
    requires Inv(cfg, m) && id in m.templates
    ensures Changes(cfg, m, events, id) + Wild(TokensNow(m, id)) <= |TokensNow(m, id)|
    decreases |events|
  {
    hide Step, Wild, TreeInv, ShapesInv, LineagesInv;
    if events != [] {
      match events[0]
      case Seen(line) =>
        StepInv(cfg, m, line);
        StepWild(cfg, m, line, id);
        TextChangesBounded(cfg, Step(cfg, m, line).0, events[1..], id);
      case Restarted =>
        RestartRebuilds(cfg, m);
        TextChangesBounded(cfg, Restore(cfg, Saved(m)), events[1..], id);
    }
  }

  // ---- lineages

  /** Tokens as the masker makes them: split on white space, so without a space or a tab. */
  ghost predicate Clean(tokens: seq<Token>) {
    forall t :: t in tokens ==> ' ' !in t && '\t' !in t
  }

  ghost predicate CleanEvents(events: seq<Event>) {
    forall e :: e in events && e.Seen? ==> Clean(e.line.masked)
  }

  ghost predicate NoCollisions(cfg: Config) {
    forall a: string, b: string :: cfg.hash(a) == cfg.hash(b) ==> a == b
  }

  /** The masked lines the templates were born with, in id order, as the history appends them. */
  function Births(cfg: Config, m: State, events: seq<Event>): seq<seq<Token>>
    requires Inv(cfg, m)
    decreases |events|
  {
    if events == [] then []
    else match events[0]
      case Seen(line) =>
        StepInv(cfg, m, line);
        var s := Step(cfg, m, line);
        BornOf(cfg, m, line) + Births(cfg, s.0, events[1..])
      case Restarted =>
        RestartRebuilds(cfg, m);
        Births(cfg, Restore(cfg, Saved(m)), events[1..])
  }

  ghost predicate IsHeld(cfg: Config, m: State, id: nat, masked: seq<Token>) {
    exists p :: Held(cfg, m, id, masked, p)
  }

  /** `births` are the lines the templates were born with: each is still held by its template, whose
      lineage is the hash of the birth text. */
  ghost predicate BirthsInv(cfg: Config, m: State, births: seq<seq<Token>>) {
    |births| + 1 == m.nextId && forall i :: 0 <= i < |births| ==> BornWith(cfg, m, births[i], i + 1)
  }

  ghost predicate BornWith(cfg: Config, m: State, birth: seq<Token>, id: nat) {
    && birth != [] && Clean(birth) && IsHeld(cfg, m, id, birth)
    && id in m.templates && m.templates[id].lineage == cfg.hash(TextOf(birth))
  }

  lemma TextInjective(a: seq<Token>, b: seq<Token>)
    requires a != [] && b != [] && Clean(a) && Clean(b) && TextOf(a) == TextOf(b)
    ensures a == b
  {
    Joining.SplitJoin(a, ' ');
    Joining.SplitJoin(b, ' ');
  }

  /** A line the miner mints a template for is not one it was born with before. */
  lemma NewLineIsFresh(cfg: Config, m: State, births: seq<seq<Token>>, line: Line, i: nat)
    requires Inv(cfg, m) && BirthsInv(cfg, m, births) && cfg.threshold <= 1.0 && i < |births|
    requires line.masked != [] && !Recognised(cfg, m, line)
    ensures births[i] != line.masked
  {
    hide Recognised, Inv, Held, TextOf;
    if births[i] == line.masked {
      assert IsHeld(cfg, m, i + 1, births[i]);
      var p :| Held(cfg, m, i + 1, births[i], p);
      HeldIsRecognised(cfg, m, i + 1, line, p);
    }
  }

  /** With no hash collision the salted branch is never taken. */
  lemma SaltIsNeverUsed(cfg: Config, m: State, births: seq<seq<Token>>, line: Line)
    requires Inv(cfg, m) && BirthsInv(cfg, m, births) && cfg.threshold <= 1.0 && NoCollisions(cfg)
    requires line.masked != [] && Clean(line.masked) && !Recognised(cfg, m, line)
    ensures cfg.hash(TextOf(line.masked)) !in m.lineages
    ensures LineageFor(cfg, m, TextOf(line.masked), m.nextId) == cfg.hash(TextOf(line.masked))
  {
    hide Recognised, TreeInv, ShapesInv, Held, TextOf, IsHeld, Clean;
    var h := cfg.hash(TextOf(line.masked));
    if h in m.lineages {
      assert IsLineage(m.templates, h);
      var id :| id in m.templates && m.templates[id].lineage == h;
      assert m.templates[id - 1 + 1].lineage == cfg.hash(TextOf(births[id - 1]));
      TextInjective(births[id - 1], line.masked);
      NewLineIsFresh(cfg, m, births, line, id - 1);
    }
  }

  lemma StepKeepsIsHeld(cfg: Config, m: State, line: Line, id: nat, masked: seq<Token>)
    requires Inv(cfg, m) && IsHeld(cfg, m, id, masked)
    ensures IsHeld(cfg, Step(cfg, m, line).0, id, masked)
  {
    hide Held, Step, Inv;
    var p :| Held(cfg, m, id, masked, p);
    StepKeepsHeld(cfg, m, line, id, masked, p);
  }

  /** A lineage never changes, and a new template's is what `LineageFor` says. */
  lemma StepLineages(cfg: Config, m: State, line: Line)
    requires Inv(cfg, m)
    ensures var s := Step(cfg, m, line);
      && (forall id :: id in m.templates ==> id in s.0.templates && s.0.templates[id].lineage == m.templates[id].lineage)
      && (if s.1.Some? && s.1.value.isNew then
            && s.0.nextId == m.nextId + 1 && m.nextId in s.0.templates
            && s.0.templates[m.nextId].lineage == LineageFor(cfg, m, TextOf(line.masked), m.nextId)
          else s.0.nextId == m.nextId)
  {
    hide TextOf, ParamsFor, Merge, Best, Candidates, Plant, TreeInv, LineagesInv;
  }

  lemma StepBirths(cfg: Config, m: State, births: seq<seq<Token>>, line: Line)
    requires Inv(cfg, m) && BirthsInv(cfg, m, births) && cfg.threshold <= 1.0 && NoCollisions(cfg)
    requires Clean(line.masked)
    ensures BirthsInv(cfg, Step(cfg, m, line).0, births + BornOf(cfg, m, line))
  {
    hide Step, Held, IsHeld, TextOf, Clean, TreeInv, ShapesInv, LineagesInv, LineageFor, NoCollisions;
    var s := Step(cfg, m, line);
    var born := if s.1.Some? && s.1.value.isNew then [line.masked] else [];
    StepLineages(cfg, m, line);
    forall i | 0 <= i < |births| ensures BornWith(cfg, s.0, births[i], i + 1) {
      assert BornWith(cfg, m, births[i], i + 1);
      StepKeepsIsHeld(cfg, m, line, i + 1, births[i]);
    }
    if s.1.Some? && s.1.value.isNew {
      NewbornHeld(cfg, m, line);
      SaltIsNeverUsed(cfg, m, births, line);
    } else {
      assert births + born == births;
    }
  }

  lemma NewbornHeld(cfg: Config, m: State, line: Line)
    requires Step(cfg, m, line).1.Some? && Step(cfg, m, line).1.value.isNew
    ensures line.masked != [] && IsHeld(cfg, Step(cfg, m, line).0, m.nextId, line.masked)
  {
    hide Step, Held;
    MintedState(cfg, m, line);
  }

  lemma AlikeBirths(cfg: Config, m: State, m': State, births: seq<seq<Token>>)
    requires Alike(m, m') && BirthsInv(cfg, m, births)
    ensures BirthsInv(cfg, m', births)
  {
    hide BornWith;
    forall i | 0 <= i < |births| ensures BornWith(cfg, m', births[i], i + 1) {
      AlikeBorn(cfg, m, m', births[i], i + 1);
    }
  }

  lemma AlikeBorn(cfg: Config, m: State, m': State, birth: seq<Token>, id: nat)
    requires Alike(m, m') && BornWith(cfg, m, birth, id)
    ensures BornWith(cfg, m', birth, id)
  {
    hide TextOf, Clean, IsHeld;
    AlikeHeld(cfg, m, m', id, birth);
  }

  lemma AlikeHeld(cfg: Config, m: State, m': State, id: nat, masked: seq<Token>)
    requires Alike(m, m') && IsHeld(cfg, m, id, masked)
    ensures IsHeld(cfg, m', id, masked)
  {
    hide Anchored, TemplatesAt, Covers, Lead;
    var p :| Held(cfg, m, id, masked, p);
    assert Held(cfg, m', id, masked, p);
  }

  lemma {:induction false} RunBirths(cfg: Config, m: State, births: seq<seq<Token>>, events: seq<Event>)
    requires Inv(cfg, m) && BirthsInv(cfg, m, births) && cfg.threshold <= 1.0 && NoCollisions(cfg)
    requires CleanEvents(events)
    ensures BirthsInv(cfg, Run(cfg, m, events).0, births + Births(cfg, m, events))
    decreases |events|
  {
    hide Step, BirthsInv, Clean, TreeInv, ShapesInv, LineagesInv, NoCollisions, Births, Alike, Restore;
    BirthsNext(cfg, m, births, events);
    if events != [] {
      assert CleanEvents(events[1..]) by { assert forall e :: e in events[1..] ==> e in events; }
      assert events[0] in events;
      match events[0]
      case Seen(line) =>
        StepInv(cfg, m, line);
        StepBirths(cfg, m, births, line);
        RunBirths(cfg, Step(cfg, m, line).0, births + BornOf(cfg, m, line), events[1..]);
      case Restarted =>
        RestartRebuilds(cfg, m);
        AlikeIsMutual(Restore(cfg, Saved(m)), m);
        AlikeBirths(cfg, m, Restore(cfg, Saved(m)), births);
        RunBirths(cfg, Restore(cfg, Saved(m)), births, events[1..]);
    }
  }

  /** Over every history, restarts included: a template's lineage is the hash of the text it was born with,
      and no two templates share one. */
  lemma LineagesAreBirthHashes(cfg: Config, events: seq<Event>)
    requires cfg.threshold <= 1.0 && NoCollisions(cfg) && CleanEvents(events)
    ensures Inv(cfg, FRESH)
    ensures var last := Run(cfg, FRESH, events).0; var births := Births(cfg, FRESH, events);
      && last.nextId == |births| + 1
      && (forall id :: 1 <= id <= |births| ==>
            id in last.templates && last.templates[id].lineage == cfg.hash(TextOf(births[id - 1])))
      && (forall a, b :: a in last.templates && b in last.templates && a != b ==>
            last.templates[a].lineage != last.templates[b].lineage)
  {
    hide Step, Held, IsHeld, TextOf, Clean, TreeInv, ShapesInv, LineagesInv, NoCollisions, Run, Births, Inv;
    FreshInv(cfg);
    var last, births := Run(cfg, FRESH, events).0, Births(cfg, FRESH, events);
    assert BirthsInv(cfg, FRESH, []);
    RunBirths(cfg, FRESH, [], events);
    assert [] + births == births;
    RunInv(cfg, FRESH, events);
    RunBirthsDistinct(cfg, FRESH, [], events);
    DistinctLineages(cfg, last, births);
    forall id | 1 <= id <= |births|
      ensures id in last.templates && last.templates[id].lineage == cfg.hash(TextOf(births[id - 1]))
    {
      assert births[id - 1] != [];
    }
  }

  lemma StepBirthsDistinct(cfg: Config, m: State, births: seq<seq<Token>>, line: Line)
    requires Inv(cfg, m) && BirthsInv(cfg, m, births) && cfg.threshold <= 1.0 && NoRepeats(births)
    ensures NoRepeats(births + BornOf(cfg, m, line))
  {
    hide Step, BirthsInv, Inv;
    var s := Step(cfg, m, line);
    if s.1.Some? && s.1.value.isNew {
      NewbornHeld(cfg, m, line);
      forall i | 0 <= i < |births| ensures births[i] != line.masked {
        NewLineIsFresh(cfg, m, births, line, i);
      }
    } else {
      assert births + [] == births;
    }
  }

  lemma {:induction false} RunBirthsDistinct(cfg: Config, m: State, births: seq<seq<Token>>, events: seq<Event>)
    requires Inv(cfg, m) && BirthsInv(cfg, m, births) && cfg.threshold <= 1.0 && NoCollisions(cfg)
    requires CleanEvents(events) && NoRepeats(births)
    ensures NoRepeats(births + Births(cfg, m, events))
    decreases |events|
  {
    hide Step, BirthsInv, Clean, TreeInv, ShapesInv, LineagesInv, NoCollisions, NoRepeats, Births, Alike, Restore;
    BirthsNext(cfg, m, births, events);
    if events != [] {
      assert CleanEvents(events[1..]) by { assert forall e :: e in events[1..] ==> e in events; }
      assert events[0] in events;
      match events[0]
      case Seen(line) =>
        StepInv(cfg, m, line);
        StepBirths(cfg, m, births, line);
        StepBirthsDistinct(cfg, m, births, line);
        RunBirthsDistinct(cfg, Step(cfg, m, line).0, births + BornOf(cfg, m, line), events[1..]);
      case Restarted =>
        RestartRebuilds(cfg, m);
        AlikeIsMutual(Restore(cfg, Saved(m)), m);
        AlikeBirths(cfg, m, Restore(cfg, Saved(m)), births);
        RunBirthsDistinct(cfg, Restore(cfg, Saved(m)), births, events[1..]);
    }
  }

  lemma AlikeIsMutual(m: State, m': State)
    requires Alike(m, m')
    ensures Alike(m', m)
  {
  }

  function BornOf(cfg: Config, m: State, line: Line): seq<seq<Token>> {
    var s := Step(cfg, m, line);
    if s.1.Some? && s.1.value.isNew then [line.masked] else []
  }

  /** The births of a history, one event on. */
  lemma BirthsNext(cfg: Config, m: State, births: seq<seq<Token>>, events: seq<Event>)
    requires Inv(cfg, m)
    ensures events == [] ==> births + Births(cfg, m, events) == births
    ensures events != [] && events[0].Seen? ==>
      var m' := Step(cfg, m, events[0].line).0;
      && Inv(cfg, m')
      && births + Births(cfg, m, events) == births + BornOf(cfg, m, events[0].line) + Births(cfg, m', events[1..])
    ensures events != [] && events[0].Restarted? ==>
      var m' := Restore(cfg, Saved(m));
      Inv(cfg, m') && Births(cfg, m, events) == Births(cfg, m', events[1..])
  {
    hide Step, TreeInv, ShapesInv, LineagesInv, Restore;
    if events != [] {
      match events[0]
      case Seen(line) => StepInv(cfg, m, line);
      case Restarted => RestartRebuilds(cfg, m);
    }
  }

  lemma DistinctLineages(cfg: Config, m: State, births: seq<seq<Token>>)
    requires Inv(cfg, m) && BirthsInv(cfg, m, births) && NoRepeats(births) && NoCollisions(cfg)
    ensures forall a, b :: a in m.templates && b in m.templates && a != b ==>
              m.templates[a].lineage != m.templates[b].lineage
  {
    hide TextOf, Clean, TreeInv, ShapesInv, LineagesInv, IsHeld;
    forall a, b | a in m.templates && b in m.templates && a != b
      ensures m.templates[a].lineage != m.templates[b].lineage
    {
      assert m.templates[a - 1 + 1].lineage == cfg.hash(TextOf(births[a - 1]));
      assert m.templates[b - 1 + 1].lineage == cfg.hash(TextOf(births[b - 1]));
      if TextOf(births[a - 1]) == TextOf(births[b - 1]) {
        TextInjective(births[a - 1], births[b - 1]);
      }
    }
  }

  /** A line that mints a template although an earlier one was born with its text: the salted branch. */
  ghost predicate Salts(cfg: Config, m: State, line: Line) {
    && line.masked != [] && !Recognised(cfg, m, line) && |m.templates| < cfg.maxTemplates
    && cfg.hash(TextOf(line.masked)) in m.lineages
  }

  /** Some history reaches the salted branch. */
  ghost predicate SaltIsReachable(cfg: Config)
    requires Inv(cfg, FRESH)
  {
    exists events, line: Line :: CleanEvents(events) && Clean(line.masked) && Salts(cfg, Run(cfg, FRESH, events).0, line)
  }

  /** The salted branch is reachable exactly when no score reaches the threshold, so that one line can give birth
      twice, and there is room for two templates. */
  lemma SaltedIffThresholdOutOfReach(cfg: Config)
    requires NoCollisions(cfg)
    ensures Inv(cfg, FRESH)
    ensures SaltIsReachable(cfg) <==> cfg.threshold > 1.0 && cfg.maxTemplates >= 2
  {
    FreshInv(cfg);
    hide Inv, Run, Salts, NoCollisions, Clean, CleanEvents, BirthsInv;
    if cfg.threshold > 1.0 && cfg.maxTemplates >= 2 {
      TwiceBorn(cfg);
    }
    if events, line: Line :| CleanEvents(events) && Clean(line.masked) && Salts(cfg, Run(cfg, FRESH, events).0, line) {
      var last := Run(cfg, FRESH, events).0;
      RunInv(cfg, FRESH, events);
      SaltsMeans(cfg, last, line);
      if cfg.threshold <= 1.0 {
        NoBirths(cfg);
        RunBirths(cfg, FRESH, [], events);
        SaltIsNeverUsed(cfg, last, [] + Births(cfg, FRESH, events), line);
      }
    }
  }

  lemma NoBirths(cfg: Config)
    ensures BirthsInv(cfg, FRESH, [])
  {
  }

  lemma SaltsMeans(cfg: Config, m: State, line: Line)
    requires Inv(cfg, m) && Salts(cfg, m, line)
    ensures line.masked != [] && !Recognised(cfg, m, line) && cfg.hash(TextOf(line.masked)) in m.lineages
    ensures cfg.maxTemplates >= 2
  {
    hide Recognised, TextOf, TreeInv, ShapesInv;
    assert IsLineage(m.templates, cfg.hash(TextOf(line.masked)));
    var id :| id in m.templates;
    CardinalityGrows({id}, m.templates.Keys);
    assert |m.templates| == |m.templates.Keys|;
  }

  lemma TwiceBorn(cfg: Config)
    requires cfg.threshold > 1.0 && cfg.maxTemplates >= 2
    ensures Inv(cfg, FRESH) && SaltIsReachable(cfg)
  {
    hide Step, Recognised, TextOf, Restore, Alike, TreeInv, ShapesInv, LineagesInv;
    FreshInv(cfg);
    var line := Line(["a"], [], 0);
    var events := [Seen(line)];
    OnceBorn(cfg, line);
    NothingQualifies(cfg, Step(cfg, FRESH, line).0, line);
    OneStepRun(cfg, line);
    assert Salts(cfg, Run(cfg, FRESH, events).0, line);
    assert CleanEvents(events) && Clean(line.masked);
  }

  lemma OneStepRun(cfg: Config, line: Line)
    requires Inv(cfg, FRESH)
    ensures Run(cfg, FRESH, [Seen(line)]).0 == Step(cfg, FRESH, line).0
  {
    hide Step, Inv;
    StepInv(cfg, FRESH, line);
    var events := [Seen(line)];
    assert events[1..] == [];
  }

  lemma OnceBorn(cfg: Config, line: Line)
    requires cfg.threshold > 1.0 && cfg.maxTemplates >= 2 && line.masked != []
    ensures var m := Step(cfg, FRESH, line).0; |m.templates| == 1 && cfg.hash(TextOf(line.masked)) in m.lineages
  {
    hide TextOf, ParamsFor, Plant, Score;
    NothingQualifies(cfg, FRESH, line);
    assert Candidates(cfg, FRESH.roots, line.masked) == [];
  }
}
