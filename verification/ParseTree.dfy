/** Masked tokens, as the masker hands them to the template miner. */
module Tokens {
  type Token = string

  /** The token of a position that varies between merged lines. */
  const WILDCARD: Token := "<*>"

  predicate IsPlaceholder(t: Token) {
    '<' in t && '>' in t
  }

  /** Tokens holding a placeholder share the wildcard branch. */
  function TreeKey(t: Token): Token {
    if IsPlaceholder(t) then WILDCARD else t
  }

  lemma WildcardKey()
    ensures IsPlaceholder(WILDCARD)
  {
    assert WILDCARD[0] == '<' && WILDCARD[2] == '>';
  }
}

/** The fixed-depth parse tree of the miner: one node per branch, template ids at the leaves. */
module ParseTree {
  import opened Tokens

  datatype Node = Node(children: map<Token, Node>, templates: seq<nat>)

  const EMPTY: Node := Node(map[], [])

  function Child(n: Node, key: Token): Node {
    if key in n.children then n.children[key] else EMPTY
  }

  /** The branch an insertion takes: past the fan-out cap a new key shares the wildcard branch. */
  function Branch(n: Node, token: Token, cap: nat): Token {
    var key := TreeKey(token);
    if key !in n.children && |n.children| >= cap then WILDCARD else key
  }

  /** The branches an insertion of `tokens` takes from `n` down. */
  function Path(n: Node, tokens: seq<Token>, cap: nat): (p: seq<Token>)
    ensures |p| == |tokens|
    decreases |tokens|
  {
    if tokens == [] then []
    else
      var key := Branch(n, tokens[0], cap);
      [key] + Path(Child(n, key), tokens[1..], cap)
  }

  /** `n` with `id` pushed at the node `path` leads to, missing nodes created on the way. */
  function PutAt(n: Node, path: seq<Token>, id: nat): Node
    decreases |path|
  {
    if path == [] then n.(templates := n.templates + [id])
    else n.(children := n.children[path[0] := PutAt(Child(n, path[0]), path[1..], id)])
  }

  function Insert(n: Node, tokens: seq<Token>, id: nat, cap: nat): Node {
    PutAt(n, Path(n, tokens, cap), id)
  }

  /** The branches a lookup of `tokens` follows: the token's own, else the wildcard one, else it stops. */
  function Route(n: Node, tokens: seq<Token>): (p: seq<Token>)
    ensures |p| <= |tokens|
  {
    if tokens == [] then []
    else if TreeKey(tokens[0]) in n.children then
      [TreeKey(tokens[0])] + Route(n.children[TreeKey(tokens[0])], tokens[1..])
    else if WILDCARD in n.children then
      [WILDCARD] + Route(n.children[WILDCARD], tokens[1..])
    else []
  }

  /** The ids held by the node at `path`; none when there is no such node. */
  function TemplatesAt(n: Node, path: seq<Token>): seq<nat> {
    if path == [] then n.templates
    else if path[0] in n.children then TemplatesAt(n.children[path[0]], path[1..])
    else []
  }

  function Lookup(n: Node, tokens: seq<Token>): seq<nat> {
    TemplatesAt(n, Route(n, tokens))
  }

  lemma TemplatesAtChild(n: Node, path: seq<Token>)
    requires path != []
    ensures TemplatesAt(n, path) == TemplatesAt(Child(n, path[0]), path[1..])
  {
  }

  /** An insertion changes the list at its own path, by one id at the end, and no other list. */
  lemma {:induction false} PutAtTemplates(n: Node, p: seq<Token>, id: nat, q: seq<Token>)
    ensures TemplatesAt(PutAt(n, p, id), q)
         == TemplatesAt(n, q) + (if p == q then [id] else [])
    decreases |p|
  {
    if p != [] && q != [] && p[0] == q[0] {
      PutAtTemplates(Child(n, p[0]), p[1..], id, q[1..]);
      TemplatesAtChild(n, q);
      assert p == q <==> p[1..] == q[1..] by {
        assert p == [p[0]] + p[1..] && q == [q[0]] + q[1..];
      }
    }
  }

  /** Every branch of an insertion path is the token's own key or the wildcard. */
  lemma {:induction false} PathKeys(n: Node, tokens: seq<Token>, cap: nat, i: nat)
    requires i < |tokens|
    ensures Path(n, tokens, cap)[i] in {TreeKey(tokens[i]), WILDCARD}
    decreases |tokens|
  {
    if i > 0 {
      PathKeys(Child(n, Branch(n, tokens[0], cap)), tokens[1..], cap, i - 1);
    }
  }

  /** So is every branch of a lookup path. */
  lemma {:induction false} RouteKeys(n: Node, tokens: seq<Token>, i: nat)
    requires i < |Route(n, tokens)|
    ensures Route(n, tokens)[i] in {TreeKey(tokens[i]), WILDCARD}
  {
    if i > 0 {
      if TreeKey(tokens[0]) in n.children {
        RouteKeys(n.children[TreeKey(tokens[0])], tokens[1..], i - 1);
      } else {
        RouteKeys(n.children[WILDCARD], tokens[1..], i - 1);
      }
    }
  }

  /** Widening a token whose branch is the wildcard one leaves the insertion path as it was. */
  lemma {:induction false} WidenedPath(n: Node, tokens: seq<Token>, widened: seq<Token>, cap: nat)
    requires |tokens| == |widened|
    requires forall i :: 0 <= i < |tokens| && widened[i] != tokens[i] ==>
               widened[i] == WILDCARD && Path(n, tokens, cap)[i] == WILDCARD
    ensures Path(n, widened, cap) == Path(n, tokens, cap)
    decreases |tokens|
  {
    if tokens != [] {
      WildcardKey();
      var key := Branch(n, tokens[0], cap);
      assert Path(n, tokens, cap)[0] == key;
      assert Branch(n, widened[0], cap) == key;
      var rest := Path(Child(n, key), tokens[1..], cap);
      assert forall i :: 0 <= i < |rest| ==> rest[i] == Path(n, tokens, cap)[i + 1];
      WidenedPath(Child(n, key), tokens[1..], widened[1..], cap);
    }
  }

  /** A lookup of `tokens` follows `path` and will for good: each level took the token's own branch, or is
      full without it. */
  predicate Anchored(n: Node, tokens: seq<Token>, path: seq<Token>, cap: nat)
    requires |tokens| == |path|
  {
    tokens == [] ||
    (&& path[0] in n.children
     && (path[0] == TreeKey(tokens[0]) ||
         (path[0] == WILDCARD && TreeKey(tokens[0]) !in n.children && |n.children| >= cap))
     && Anchored(n.children[path[0]], tokens[1..], path[1..], cap))
  }

  lemma {:induction false} AnchoredRoute(n: Node, tokens: seq<Token>, path: seq<Token>, cap: nat)
    requires |tokens| == |path| && Anchored(n, tokens, path, cap)
    ensures Route(n, tokens) == path
  {
    if tokens != [] {
      AnchoredRoute(n.children[path[0]], tokens[1..], path[1..], cap);
      assert path == [path[0]] + path[1..];
    }
  }

  /** Inserting a line anchors its own lookup. */
  lemma {:induction false} InsertAnchors(n: Node, tokens: seq<Token>, id: nat, cap: nat)
    ensures Anchored(Insert(n, tokens, id, cap), tokens, Path(n, tokens, cap), cap)
    decreases |tokens|
  {
    if tokens != [] {
      var key := Branch(n, tokens[0], cap);
      var p := Path(n, tokens, cap);
      InsertAnchors(Child(n, key), tokens[1..], id, cap);
      assert p[0] == key && p[1..] == Path(Child(n, key), tokens[1..], cap);
      var n' := Insert(n, tokens, id, cap);
      assert n'.children.Keys == n.children.Keys + {key};
      if key != TreeKey(tokens[0]) {
        CardinalityGrows(n.children.Keys, n'.children.Keys);
      }
    }
  }

  /** No later insertion moves an anchored lookup. */
  lemma {:induction false} AnchorSurvives(n: Node, tokens: seq<Token>, path: seq<Token>, other: seq<Token>,
                                          id: nat, cap: nat)
    requires |tokens| == |path| && |other| == |tokens| && Anchored(n, tokens, path, cap)
    ensures Anchored(Insert(n, other, id, cap), tokens, path, cap)
  {
    if tokens != [] {
      var key := Branch(n, other[0], cap);
      var n' := Insert(n, other, id, cap);
      assert n'.children.Keys == n.children.Keys + {key};
      CardinalityGrows(n.children.Keys, n'.children.Keys);
      var p := Path(n, other, cap);
      assert p[0] == key && p[1..] == Path(Child(n, key), other[1..], cap);
      if key == path[0] {
        AnchorSurvives(n.children[key], tokens[1..], path[1..], other[1..], id, cap);
      }
    }
  }

  lemma CardinalityGrows<T>(a: set<T>, b: set<T>)
    requires a <= b
    ensures |a| <= |b|
  {
    assert b == a + (b - a);
  }

  // ---- the fan-out

  /** The node `path` leads to; an empty one where there is none. */
  function Walk(n: Node, path: seq<Token>): Node
    decreases |path|
  {
    if path == [] then n else Walk(Child(n, path[0]), path[1..])
  }

  /** An insertion takes the token's own branch wherever there is one or there is room for it, and the wildcard
      branch elsewhere. */
  lemma {:induction false} PathIs(n: Node, tokens: seq<Token>, cap: nat, i: nat)
    requires i < |tokens|
    ensures var path := Path(n, tokens, cap);
      var here, key := Walk(n, path[..i]).children, if '<' in tokens[i] && '>' in tokens[i] then "<*>" else tokens[i];
      path[i] == if key in here || |here| < cap then key else "<*>"
    decreases |tokens|
  {
    if i > 0 {
      var path, key := Path(n, tokens, cap), Branch(n, tokens[0], cap);
      PathIs(Child(n, key), tokens[1..], cap, i - 1);
      assert path[..i][0] == key && path[..i][1..] == Path(Child(n, key), tokens[1..], cap)[..i - 1];
    }
  }

  /** The branches of a node, the wildcard one not counted. */
  ghost function OwnKeys(n: Node): set<Token> { n.children.Keys - {WILDCARD} }

  /** No node has more branches of its own than the cap. */
  ghost predicate Bounded(n: Node, cap: nat) {
    |OwnKeys(n)| <= cap && forall k :: k in n.children ==> Bounded(n.children[k], cap)
  }

  lemma {:induction false} InsertStaysBounded(n: Node, tokens: seq<Token>, id: nat, cap: nat)
    requires Bounded(n, cap)
    ensures Bounded(Insert(n, tokens, id, cap), cap)
    decreases |tokens|
  {
    hide Bounded;
    if tokens == [] {
      BoundedWithId(n, id, cap);
    } else {
      var key, p := Branch(n, tokens[0], cap), Path(n, tokens, cap);
      assert p[0] == key && p[1..] == Path(Child(n, key), tokens[1..], cap);
      ChildBounded(n, key, cap);
      InsertStaysBounded(Child(n, key), tokens[1..], id, cap);
      BoundedWithChild(n, tokens[0], Insert(Child(n, key), tokens[1..], id, cap), cap);
    }
  }

  lemma BoundedWithId(n: Node, id: nat, cap: nat)
    requires Bounded(n, cap)
    ensures Bounded(n.(templates := n.templates + [id]), cap)
  {
  }

  lemma BoundedMeans(n: Node, cap: nat)
    ensures Bounded(n, cap) <==> |OwnKeys(n)| <= cap && forall k :: k in n.children ==> Bounded(n.children[k], cap)
  {
  }

  lemma ChildBounded(n: Node, key: Token, cap: nat)
    requires Bounded(n, cap)
    ensures Bounded(Child(n, key), cap)
  {
  }

  lemma BoundedWithChild(n: Node, token: Token, child: Node, cap: nat)
    requires Bounded(n, cap) && Bounded(child, cap)
    ensures Bounded(n.(children := n.children[Branch(n, token, cap) := child]), cap)
  {
    hide Branch, Bounded, OwnKeys;
    var n' := n.(children := n.children[Branch(n, token, cap) := child]);
    BoundedMeans(n, cap);
    RoomForKey(n, token, child, cap);
    BoundedMeans(n', cap);
  }

  lemma RoomForKey(n: Node, token: Token, child: Node, cap: nat)
    requires |OwnKeys(n)| <= cap
    ensures |OwnKeys(n.(children := n.children[Branch(n, token, cap) := child]))| <= cap
  {
    hide TreeKey;
    var key := Branch(n, token, cap);
    OneMore(n.children.Keys, key, WILDCARD, cap);
    assert n.children[key := child].Keys == n.children.Keys + {key};
  }

  lemma OneMore<T>(keys: set<T>, key: T, wild: T, cap: nat)
    requires |keys - {wild}| <= cap && (key in keys || key == wild || |keys| < cap)
    ensures |keys + {key} - {wild}| <= cap
  {
    if key in keys || key == wild {
      assert keys + {key} - {wild} == keys - {wild};
    } else {
      CardinalityGrows(keys - {wild}, keys);
      assert keys + {key} - {wild} == (keys - {wild}) + {key};
    }
  }
}
