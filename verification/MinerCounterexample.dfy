/** The same line can land on two templates: a concrete history under the default limits. */
module MinerCounterexample {
  import opened Options
  import opened Tokens
  import opened ParseTree
  import opened Miner
  import opened MinerRestart
  import opened MinerIdentity

  function Defaults(hash: string -> nat): Config { Config(4, 100, 0.9, 10000, hash) }

  const NUMBERED: seq<Token> := ["<N>", "x", "y"]
  const NAMED: seq<Token> := ["b", "x", "y"]
  const OTHER: seq<Token> := ["b", "z", "q"]

  function Leaf(ids: seq<nat>): Node { Node(map[], ids) }

  /** The tree after NUMBERED: everything under the wildcard branch. */
  function FirstTree(): Node { Node(map[WILDCARD := Node(map["x" := Leaf([1])], [])], []) }

  /** The tree after OTHER: it opened the branch `b`. */
  function SecondTree(): Node {
    Node(FirstTree().children["b" := Node(map["z" := Leaf([2])], [])], [])
  }

  lemma Keys()
    ensures TreeKey("<N>") == WILDCARD
    ensures TreeKey("b") == "b" && TreeKey("x") == "x" && TreeKey("z") == "z" && TreeKey("y") == "y"
    ensures "b" != WILDCARD && "x" != WILDCARD && "z" != WILDCARD && "x" != "z" && !IsPlaceholder("y")
  {
    assert "<N>"[0] == '<' && "<N>"[2] == '>';
    assert '<' !in "b" && '<' !in "x" && '<' !in "z" && '<' !in "y";
    assert |"b"| == 1 && |"x"| == 1 && |"z"| == 1 && |WILDCARD| == 3;
    assert "x"[0] != "z"[0];
  }

  lemma PlantFirst(cfg: Config)
    requires cfg.Levels() == 2 && cfg.maxChildren == 100
    ensures Plant(cfg, map[], NUMBERED, 1) == map[3 := FirstTree()]
  {
    Keys();
    var lead := Lead(cfg, NUMBERED);
    assert lead == ["<N>", "x"];
    assert lead[1..] == ["x"] && ["x"][1..] == [];
    assert Path(EMPTY, ["x"], 100) == ["x"];
    assert Path(EMPTY, lead, 100) == [WILDCARD, "x"];
    assert [WILDCARD, "x"][1..] == ["x"];
    assert EMPTY.templates + [1] == [1] && PutAt(EMPTY, [], 1) == Leaf([1]);
    assert PutAt(EMPTY, ["x"], 1) == Node(map["x" := Leaf([1])], []);
    assert PutAt(EMPTY, [WILDCARD, "x"], 1) == FirstTree();
  }

  lemma FindFirst(cfg: Config)
    requires cfg.Levels() == 2
    ensures Candidates(cfg, map[3 := FirstTree()], NAMED) == [1]
    ensures Candidates(cfg, map[3 := FirstTree()], OTHER) == []
    ensures Candidates(cfg, map[3 := SecondTree()], NAMED) == []
  {
    Keys();
    var wild := FirstTree().children[WILDCARD];
    var lead := Lead(cfg, NAMED);
    assert lead == ["b", "x"] && lead[1..] == ["x"] && ["x"][1..] == [];
    assert Route(Leaf([1]), []) == [];
    assert Route(wild, ["x"]) == ["x"];
    assert Route(FirstTree(), lead) == [WILDCARD, "x"];
    assert [WILDCARD, "x"][1..] == ["x"];
    assert TemplatesAt(wild, ["x"]) == [1];
    var other := Lead(cfg, OTHER);
    assert other == ["b", "z"] && other[1..] == ["z"];
    assert Route(wild, ["z"]) == [];
    assert Route(FirstTree(), other) == [WILDCARD] && [WILDCARD][1..] == [];
    assert TemplatesAt(wild, []) == [];
    var b := SecondTree().children["b"];
    assert Route(b, ["x"]) == [];
    assert Route(SecondTree(), lead) == ["b"] && ["b"][1..] == [];
    assert TemplatesAt(b, []) == [];
  }

  lemma PlantSecond(cfg: Config)
    requires cfg.Levels() == 2 && cfg.maxChildren == 100
    ensures Plant(cfg, map[3 := FirstTree()], OTHER, 2) == map[3 := SecondTree()]
  {
    Keys();
    var lead := Lead(cfg, OTHER);
    assert lead == ["b", "z"] && lead[1..] == ["z"] && ["z"][1..] == [];
    assert FirstTree().children.Keys == {WILDCARD};
    assert Path(EMPTY, ["z"], 100) == ["z"];
    assert Path(FirstTree(), lead, 100) == ["b", "z"];
    assert ["b", "z"][1..] == ["z"];
    assert EMPTY.templates + [2] == [2] && PutAt(EMPTY, [], 2) == Leaf([2]);
    assert PutAt(EMPTY, ["z"], 2) == Node(map["z" := Leaf([2])], []);
    assert PutAt(FirstTree(), ["b", "z"], 2) == SecondTree();
  }

  lemma NamedCoversScore()
    ensures Score(NUMBERED, NAMED) == 1.0
  {
    Keys();
    assert !Comparable(NUMBERED[0], NAMED[0]);
    PerfectScore(NUMBERED, NAMED);
  }

  /** The four lines NUMBERED, NAMED, OTHER, NAMED: the second lands on template 1 through the wildcard
      fallback, the third opens a branch, and the fourth, the same line as the second, is reported new as
      template 3. */
  lemma SameLineTwoIds(hash: string -> nat)
    ensures var cfg := Defaults(hash);
      var s1 := Step(cfg, FRESH, Line(NUMBERED, [], 0));
      var s2 := Step(cfg, s1.0, Line(NAMED, [], 0));
      var s3 := Step(cfg, s2.0, Line(OTHER, [], 0));
      var s4 := Step(cfg, s3.0, Line(NAMED, [], 0));
      && s2.1.Some? && s2.1.value.id == 1 && !s2.1.value.isNew
      && s4.1.Some? && s4.1.value.id == 3 && s4.1.value.isNew
  {
    hide TextOf, ParamsFor, LineageFor, Plant, Candidates, Best, Score, TreeInv, LineagesInv;
    var cfg := Defaults(hash);
    var a, b, c := Line(NUMBERED, [], 0), Line(NAMED, [], 0), Line(OTHER, [], 0);
    FreshInv(cfg);
    FirstStep(cfg, a);
    var m1 := Step(cfg, FRESH, a).0;
    PlantFirst(cfg);
    FindFirst(cfg);
    StepInv(cfg, FRESH, a);
    SecondStep(cfg, m1, b);
    var m2 := Step(cfg, m1, b).0;
    StepInv(cfg, m1, b);
    NewStep(cfg, m2, c);
    var m3 := Step(cfg, m2, c).0;
    StepInv(cfg, m2, c);
    PlantSecond(cfg);
    NewStep(cfg, m3, b);
  }

  lemma FirstStep(cfg: Config, line: Line)
    requires line.masked == NUMBERED && cfg.maxTemplates > 3
    ensures var m := Step(cfg, FRESH, line).0;
      && m.roots == Plant(cfg, map[], NUMBERED, 1) && m.nextId == 2
      && m.templates.Keys == {1} && m.templates[1].tokens == NUMBERED
  {
    hide TextOf, ParamsFor, LineageFor, Plant;
    assert Route(EMPTY, Lead(cfg, NUMBERED)) == [];
    assert Candidates(cfg, map[], NUMBERED) == [];
  }

  lemma SecondStep(cfg: Config, m: State, line: Line)
    requires Inv(cfg, m) && line.masked == NAMED && m.nextId == 2
    requires Candidates(cfg, m.roots, NAMED) == [1] && m.templates.Keys == {1} && m.templates[1].tokens == NUMBERED
    requires cfg.threshold <= 1.0
    ensures var s := Step(cfg, m, line);
      && s.1.Some? && s.1.value.id == 1 && !s.1.value.isNew
      && s.0.roots == m.roots && s.0.nextId == 2 && |s.0.templates| == 1
  {
    hide TextOf, ParamsFor, Candidates, Score, TreeInv, LineagesInv, Merge;
    NamedCoversScore();
    assert [1][..0] == [];
    assert Best(cfg, m.templates, [1], NAMED) == Some(1);
    assert m.templates.Keys == {1};
    var t := Step(cfg, m, line).0.templates;
    assert t.Keys == {1} && |t| == |t.Keys|;
  }

  lemma NewStep(cfg: Config, m: State, line: Line)
    requires Inv(cfg, m) && line.masked != [] && Candidates(cfg, m.roots, line.masked) == []
    requires |m.templates| < cfg.maxTemplates
    ensures var s := Step(cfg, m, line);
      && s.1.Some? && s.1.value.id == m.nextId && s.1.value.isNew
      && s.0.roots == Plant(cfg, m.roots, line.masked, m.nextId) && s.0.nextId == m.nextId + 1
      && |s.0.templates| == |m.templates| + 1
  {
    hide TextOf, ParamsFor, Candidates, TreeInv, LineagesInv, LineageFor, Plant;
    var t := Step(cfg, m, line).0.templates;
    assert t.Keys == m.templates.Keys + {m.nextId} && |t| == |t.Keys| && |m.templates| == |m.templates.Keys|;
  }
}
