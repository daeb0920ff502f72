/** Joining and splitting on a separator character: how a template's tokens become its text and its
    catalog column. */
module Joining {
  function Join(parts: seq<string>, sep: char): string {
    if parts == [] then ""
    else if |parts| == 1 then parts[0]
    else parts[0] + [sep] + Join(parts[1..], sep)
  }

  function Split(s: string, sep: char): (parts: seq<string>)
    ensures parts != []
  {
    if s == "" then [""]
    else
      var rest := Split(s[1..], sep);
      if s[0] == sep then [""] + rest else [[s[0]] + rest[0]] + rest[1..]
  }

  lemma {:induction false} SplitHead(a: string, b: string, sep: char)
    requires sep !in a
    ensures Split(a + [sep] + b, sep) == [a] + Split(b, sep)
    ensures Split(a, sep) == [a]
  {
    var s := a + [sep] + b;
    if a == "" {
      assert s[0] == sep && s[1..] == b;
    } else {
      assert sep !in a[1..] by { assert forall c :: c in a[1..] ==> c in a; }
      SplitHead(a[1..], b, sep);
      assert s[1..] == a[1..] + [sep] + b;
      assert [a[0]] + a[1..] == a;
    }
  }

  /** Splitting a join gives the parts back, when there is one and none holds the separator. */
  lemma {:induction false} SplitJoin(parts: seq<string>, sep: char)
    requires parts != []
    requires forall p :: p in parts ==> sep !in p
    ensures Split(Join(parts, sep), sep) == parts
  {
    if |parts| == 1 {
      SplitHead(parts[0], "", sep);
    } else {
      SplitJoin(parts[1..], sep);
      SplitHead(parts[0], Join(parts[1..], sep), sep);
      assert parts == [parts[0]] + parts[1..];
    }
  }
}

/** The template miner as a state and the function one line applies to it. */
module Miner {
  import opened Options
  import opened Tokens
  import opened ParseTree
  import Joining

  /** `threshold` is the similarity threshold as an exact number; `hash` stands for the content hash. */
  datatype Config = Config(depth: nat, maxChildren: nat, threshold: real, maxTemplates: nat, hash: string -> nat)
  {
    /** Levels of token-keyed descent: the root and the token-count node are counted in `depth`. */
    function Levels(): nat { if depth <= 3 then 1 else depth - 2 }
  }

  datatype Template = Template(id: nat, tokens: seq<Token>, count: nat, firstSeen: nat, lastSeen: nat, lineage: nat)
  {
    function Text(): string { TextOf(tokens) }
  }

  function TextOf(tokens: seq<Token>): string { Joining.Join(tokens, ' ') }

  datatype Shape = Shape(lineage: nat, text: string)

  /** A line after masking: the masked tokens, the parameter candidate at each, and the time. */
  datatype Line = Line(masked: seq<Token>, raw: seq<string>, now: nat)

  datatype Match = Match(id: nat, shapeId: nat, params: seq<string>, isNew: bool)

  datatype State = State(
    roots: map<nat, Node>, templates: map<nat, Template>, shapeIds: map<nat, nat>, shapes: map<nat, Shape>,
    lineages: set<nat>, nextId: nat, untemplated: nat, linesSeen: nat)

  const FRESH: State := State(map[], map[], map[], map[], {}, 1, 0, 0)

  // ---- the tree, one root per token count

  function Lead(cfg: Config, tokens: seq<Token>): (lead: seq<Token>)
    ensures |lead| <= |tokens|
  {
    if |tokens| <= cfg.Levels() then tokens else tokens[..cfg.Levels()]
  }

  function Root(roots: map<nat, Node>, n: nat): Node {
    if n in roots then roots[n] else EMPTY
  }

  function Plant(cfg: Config, roots: map<nat, Node>, tokens: seq<Token>, id: nat): map<nat, Node> {
    roots[|tokens| := Insert(Root(roots, |tokens|), Lead(cfg, tokens), id, cfg.maxChildren)]
  }

  function Candidates(cfg: Config, roots: map<nat, Node>, tokens: seq<Token>): seq<nat> {
    Lookup(Root(roots, |tokens|), Lead(cfg, tokens))
  }

  // ---- scoring

  predicate Comparable(t: Token, l: Token) {
    t != WILDCARD && !IsPlaceholder(t) && !IsPlaceholder(l)
  }

  function ComparableIn(template: seq<Token>, tokens: seq<Token>, k: nat): (n: nat)
    requires k <= |template| == |tokens|
  {
    if k == 0 then 0
    else
      var here := if Comparable(template[k-1], tokens[k-1]) then 1 else 0;
      ComparableIn(template, tokens, k - 1) + here
  }

  function MatchesIn(template: seq<Token>, tokens: seq<Token>, k: nat): (n: nat)
    requires k <= |template| == |tokens|
    ensures n <= ComparableIn(template, tokens, k)
  {
    if k == 0 then 0
    else
      var here := if Comparable(template[k-1], tokens[k-1]) && template[k-1] == tokens[k-1] then 1 else 0;
      MatchesIn(template, tokens, k - 1) + here
  }

  /** The share of comparable positions holding the same token; 1 when nothing is comparable. */
  function Score(template: seq<Token>, tokens: seq<Token>): real {
    if |template| != |tokens| then 0.0
    else
      var comparable := ComparableIn(template, tokens, |tokens|);
      if comparable == 0 then 1.0
      else MatchesIn(template, tokens, |tokens|) as real / comparable as real
  }

  predicate Qualifies(cfg: Config, templates: map<nat, Template>, id: nat, masked: seq<Token>) {
    id in templates && Score(templates[id].tokens, masked) >= cfg.threshold
  }

  /** The last of the best-scoring candidates that reach the threshold. */
  function Best(cfg: Config, templates: map<nat, Template>, ids: seq<nat>, masked: seq<Token>): (r: Option<nat>)
    ensures r.Some? ==> r.value in ids && Qualifies(cfg, templates, r.value, masked)
    ensures r.None? ==> forall id :: id in ids ==> !Qualifies(cfg, templates, id, masked)
  {
    if ids == [] then None
    else
      var last := ids[|ids|-1];
      var before := Best(cfg, templates, ids[..|ids|-1], masked);
      assert forall id :: id in ids ==> id == last || id in ids[..|ids|-1];
      if !Qualifies(cfg, templates, last, masked) then before
      else if before.Some?
           && Score(templates[last].tokens, masked) < Score(templates[before.value].tokens, masked) then before
      else Some(last)
  }

  // ---- widening

  /** Positions that differ become wildcards. */
  function Merge(template: seq<Token>, tokens: seq<Token>): (r: seq<Token>)
    ensures |r| == |template|
  {
    seq(|template|, i requires 0 <= i < |template| =>
      if i < |tokens| && template[i] != tokens[i] then WILDCARD else template[i])
  }

  /** `template` generalises `tokens`: every position is a wildcard or the same token. */
  predicate Covers(template: seq<Token>, tokens: seq<Token>) {
    |template| == |tokens| && forall i :: 0 <= i < |tokens| ==> template[i] == WILDCARD || template[i] == tokens[i]
  }

  predicate IsParam(template: seq<Token>, masked: seq<Token>, i: nat)
    requires i < |template|
  {
    template[i] == WILDCARD || (i < |masked| && IsPlaceholder(masked[i]))
  }

  /** The raw text at every variable position, in order. */
  function ParamsUpTo(template: seq<Token>, masked: seq<Token>, raw: seq<string>, k: nat): seq<string>
    requires k <= |template|
  {
    if k == 0 then []
    else
      var here := if IsParam(template, masked, k - 1) && k - 1 < |raw| then [raw[k-1]] else [];
      ParamsUpTo(template, masked, raw, k - 1) + here
  }

  function ParamsFor(template: seq<Token>, line: Line): seq<string> {
    ParamsUpTo(template, line.masked, line.raw, |template|)
  }

  // ---- one line

  function Decimal(n: nat): string {
    if n < 10 then [('0' as int + n) as char] else Decimal(n / 10) + [('0' as int + n % 10) as char]
  }

  /** What a re-minted text is hashed as: the text, a unit separator and the new id. */
  function Salted(text: string, id: nat): string {
    text + [0x1f as char] + Decimal(id)
  }

  function NoteShape(cfg: Config, m: State, t: Template): State {
    var h := cfg.hash(t.Text());
    m.(shapeIds := m.shapeIds[t.id := h],
       shapes := if h in m.shapes then m.shapes else m.shapes[h := Shape(t.lineage, t.Text())])
  }

  function JoinTemplate(cfg: Config, m: State, id: nat, line: Line): (State, Match)
    requires id in m.templates && id in m.shapeIds
  {
    var was := m.templates[id];
    var t := was.(tokens := Merge(was.tokens, line.masked), count := was.count + 1, lastSeen := line.now);
    var m1 := m.(templates := m.templates[id := t]);
    var params := ParamsFor(t.tokens, line);
    if t.tokens != was.tokens then
      (NoteShape(cfg, m1, t), Match(id, cfg.hash(t.Text()), params, false))
    else
      (m1, Match(id, m.shapeIds[id], params, false))
  }

  function LineageFor(cfg: Config, m: State, text: string, id: nat): nat {
    if cfg.hash(text) in m.lineages then cfg.hash(Salted(text, id)) else cfg.hash(text)
  }

  function Mint(cfg: Config, m: State, line: Line): (State, Match) {
    var id := m.nextId;
    var lineage := LineageFor(cfg, m, TextOf(line.masked), id);
    var t := Template(id, line.masked, 1, line.now, line.now, lineage);
    var m1 := NoteShape(cfg,
      m.(nextId := id + 1, roots := Plant(cfg, m.roots, line.masked, id), lineages := m.lineages + {lineage}), t);
    (m1.(templates := m1.templates[id := t]),
     Match(id, cfg.hash(t.Text()), ParamsFor(line.masked, line), true))
  }

  /** The state and the result of one line. A candidate always has a cached shape (`Inv`); one without is
      treated here as no match. */
  function Step(cfg: Config, m: State, line: Line): (State, Option<Match>) {
    var m0 := m.(linesSeen := m.linesSeen + 1);
    if line.masked == [] then (m0, None)
    else
      var best := Best(cfg, m.templates, Candidates(cfg, m.roots, line.masked), line.masked);
      if best.Some? && best.value in m.shapeIds then
        var r := JoinTemplate(cfg, m0, best.value, line);
        (r.0, Some(r.1))
      else if |m.templates| >= cfg.maxTemplates then (m0.(untemplated := m.untemplated + 1), None)
      else
        var r := Mint(cfg, m0, line);
        (r.0, Some(r.1))
  }

  // ---- restart

  /** One template taken in by a restore. */
  function RestoreOne(cfg: Config, m: State, t: Template): State {
    var m1 := m.(nextId := if t.id + 1 > m.nextId then t.id + 1 else m.nextId,
                 roots := Plant(cfg, m.roots, t.tokens, t.id),
                 lineages := m.lineages + {t.lineage});
    var m2 := NoteShape(cfg, m1, t);
    m2.(templates := m2.templates[t.id := t])
  }

  function Restore(cfg: Config, ts: seq<Template>): State {
    if ts == [] then FRESH else RestoreOne(cfg, Restore(cfg, ts[..|ts|-1]), ts[|ts|-1])
  }
}
