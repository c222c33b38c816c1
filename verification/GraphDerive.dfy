/**
 * The graph derived from a bundle's observations: a builder that merges contributions, and why the result
 * depends only on which observations there are.
 */
module GraphDerive {
  import opened Prelude
  import opened StableSort
  import opened TextOrder

  datatype NodeType =
    | TestNode | ProcedureNode | StepNode | FlowNode | ErrorNode
    | ElementNode | WebElement | MobileElement | WebPage | MobileScreen
    | WebLocator | AndroidLocator | IosLocator

  datatype NaturalKey = TextKey(text: string) | StepKey(naturalKey: string, ordinal: int)

  datatype Node = Node(id: string, nodeType: NodeType, key: NaturalKey, product: string)

  datatype Edge = Edge(
    src: string, edgeType: string, dst: string, rowid: int, bundleId: string, product: string, recency: int)

  datatype Context = Context(bundleId: string, rowid: int, product: string, createdAt: int)

  /** `graphNodeId`, with the left inverse that makes it injective. */
  datatype Ids = Ids(of: (NodeType, NaturalKey) -> string, back: string -> (NodeType, NaturalKey))

  ghost predicate Separates(ids: Ids) { forall t, k :: ids.back(ids.of(t, k)) == (t, k) }

  function MakeNode(ids: Ids, t: NodeType, k: NaturalKey, product: string): Node { Node(ids.of(t, k), t, k, product) }

  // ----- orders -----

  predicate EdgeLe(a: Edge, b: Edge) {
    if a.src != b.src then TextLe(a.src, b.src)
    else if a.edgeType != b.edgeType then TextLe(a.edgeType, b.edgeType)
    else if a.dst != b.dst then TextLe(a.dst, b.dst)
    else if a.bundleId != b.bundleId then TextLe(a.bundleId, b.bundleId)
    else a.rowid <= b.rowid
  }

  predicate NodeLe(a: Node, b: Node) {
    if a.id != b.id then TextLe(a.id, b.id) else TextLe(a.product, b.product)
  }

  const EDGE_ORDER: (Edge, Edge) -> bool := (a: Edge, b: Edge) => EdgeLe(a, b)
  const NODE_ORDER: (Node, Node) -> bool := (a: Node, b: Node) => NodeLe(a, b)

  datatype EdgeKey = EdgeKey(src: string, edgeType: string, dst: string, bundleId: string, rowid: int)

  /** `edgeIdentity`: the joined text, as the tuple it stands for. */
  function Identity(e: Edge): EdgeKey { EdgeKey(e.src, e.edgeType, e.dst, e.bundleId, e.rowid) }

  datatype NodeKey = NodeKey(id: string, product: string)

  function KeyOfNode(n: Node): NodeKey { NodeKey(n.id, n.product) }

  lemma TextChain(a: string, b: string, c: string)
    requires TextLe(a, b) && TextLe(b, c)
    ensures TextLe(a, c) && (a == c ==> a == b)
  {
    TextLeTransitive(a, b, c);
    if a == c { TextLeAntisymmetric(a, b); }
  }

  lemma EdgeLeTotal(a: Edge, b: Edge)
    ensures EdgeLe(a, b) || EdgeLe(b, a)
  {
    TextLeTotal(a.src, b.src);
    TextLeTotal(a.edgeType, b.edgeType);
    TextLeTotal(a.dst, b.dst);
    TextLeTotal(a.bundleId, b.bundleId);
  }

  lemma EdgeLeTransitive(a: Edge, b: Edge, c: Edge)
    requires EdgeLe(a, b) && EdgeLe(b, c)
    ensures EdgeLe(a, c)
  {
    TextLeReflexive(a.src);
    TextLeReflexive(b.src);
    if a.src != b.src || b.src != c.src { TextLeReflexive(c.src); TextChain(a.src, b.src, c.src); }
    else if a.edgeType != b.edgeType || b.edgeType != c.edgeType {
      TextLeReflexive(b.edgeType);
      TextChain(a.edgeType, b.edgeType, c.edgeType);
    } else if a.dst != b.dst || b.dst != c.dst {
      TextLeReflexive(b.dst);
      TextChain(a.dst, b.dst, c.dst);
    } else if a.bundleId != b.bundleId || b.bundleId != c.bundleId {
      TextLeReflexive(b.bundleId);
      TextChain(a.bundleId, b.bundleId, c.bundleId);
    }
  }

  lemma EdgeOrderLaws()
    ensures TotalPreorder(EDGE_ORDER)
    ensures forall a, b :: EDGE_ORDER(a, b) && EDGE_ORDER(b, a) ==> Identity(a) == Identity(b)
  {
    forall a, b ensures EDGE_ORDER(a, b) || EDGE_ORDER(b, a) { EdgeLeTotal(a, b); }
    forall a, b, c | EDGE_ORDER(a, b) && EDGE_ORDER(b, c) ensures EDGE_ORDER(a, c) { EdgeLeTransitive(a, b, c); }
    forall a, b | EDGE_ORDER(a, b) && EDGE_ORDER(b, a) ensures Identity(a) == Identity(b) { EdgeLeSame(a, b); }
  }

  lemma EdgeLeSame(a: Edge, b: Edge)
    requires EdgeLe(a, b) && EdgeLe(b, a)
    ensures Identity(a) == Identity(b)
  {
    if a.src != b.src { TextLeAntisymmetric(a.src, b.src); }
    else if a.edgeType != b.edgeType { TextLeAntisymmetric(a.edgeType, b.edgeType); }
    else if a.dst != b.dst { TextLeAntisymmetric(a.dst, b.dst); }
    else if a.bundleId != b.bundleId { TextLeAntisymmetric(a.bundleId, b.bundleId); }
  }

  lemma NodeOrderLaws()
    ensures TotalPreorder(NODE_ORDER)
    ensures forall a, b :: NODE_ORDER(a, b) && NODE_ORDER(b, a) ==> KeyOfNode(a) == KeyOfNode(b)
  {
    TextOrderLaws();
  }

  // ----- the builder -----

  datatype Derivation = Derivation(nodes: seq<Node>, edges: seq<Edge>)

  /** The edge kept for an identity: contributed, and no contribution of that identity is more recent. */
  ghost predicate Kept(seen: set<Edge>, e: Edge) {
    e in seen && forall x :: x in seen && Identity(x) == Identity(e) ==> x.recency <= e.recency
  }

  /** `addNode`: the first node of a key stays. */
  function WithNode(nodes: map<NodeKey, Node>, n: Node): map<NodeKey, Node> {
    if KeyOfNode(n) in nodes then nodes else nodes[KeyOfNode(n) := n]
  }

  /** `addEdge`: the more recent edge of an identity stays. */
  function WithEdge(edges: map<EdgeKey, Edge>, e: Edge): map<EdgeKey, Edge> {
    if Identity(e) in edges && e.recency <= edges[Identity(e)].recency then edges else edges[Identity(e) := e]
  }

  ghost predicate NodesHold(nodes: map<NodeKey, Node>, seen: set<Node>) {
    && (forall k :: k in nodes ==> nodes[k] in seen && KeyOfNode(nodes[k]) == k)
    && (forall n :: n in seen ==> KeyOfNode(n) in nodes)
  }

  ghost predicate EdgesHold(edges: map<EdgeKey, Edge>, seen: set<Edge>) {
    && (forall k :: k in edges ==> Identity(edges[k]) == k && Kept(seen, edges[k]))
    && (forall e :: e in seen ==> Identity(e) in edges)
  }

  lemma NodeHeld(nodes: map<NodeKey, Node>, seen: set<Node>, n: Node)
    requires NodesHold(nodes, seen)
    ensures NodesHold(WithNode(nodes, n), seen + {n})
  {
  }

  lemma EdgeHeld(edges: map<EdgeKey, Edge>, seen: set<Edge>, e: Edge)
    requires EdgesHold(edges, seen)
    ensures EdgesHold(WithEdge(edges, e), seen + {e})
  {
    var after := WithEdge(edges, e);
    forall k | k in after ensures Identity(after[k]) == k && Kept(seen + {e}, after[k]) {
      if k in edges { assert Kept(seen, edges[k]); }
    }
  }

  class DerivationBuilder {
    const ctx: Context
    var nodes: map<NodeKey, Node>
    var edges: map<EdgeKey, Edge>
    /** Every link ever connected, with its recency. */
    ghost var seen: set<(Link, int)>

    ghost predicate Valid()
      reads this
    {
      NodesHold(nodes, NodesIn(seen)) && EdgesHold(edges, EdgesIn(ctx, seen))
    }

    constructor (ctx: Context)
      ensures Valid() && seen == {} && nodes == map[] && edges == map[] && this.ctx == ctx
    {
      this.ctx, nodes, edges, seen := ctx, map[], map[], {};
    }

    method AddNode(value: Node)
      modifies `nodes
      ensures nodes == WithNode(old(nodes), value)
    {
      if KeyOfNode(value) !in nodes { nodes := nodes[KeyOfNode(value) := value]; }
    }

    method AddEdge(value: Edge)
      modifies `edges
      ensures edges == WithEdge(old(edges), value)
    {
      var key := Identity(value);
      if key !in edges || value.recency > edges[key].recency { edges := edges[key := value]; }
    }

    method Connect(source: Node, edgeType: string, target: Node, recency: int)
      requires Valid()
      modifies this
      ensures Valid() && seen == old(seen) + {(Link(source, edgeType, target), recency)}
    {
      hide NodesHold, EdgesHold;
      ghost var link := Link(source, edgeType, target);
      SeenGrows(ctx, seen, link, recency);
      NodeHeld(nodes, NodesIn(seen), source);
      NodeHeld(WithNode(nodes, source), NodesIn(seen) + {source}, target);
      EdgeHeld(edges, EdgesIn(ctx, seen), EdgeOf(ctx, link, recency));
      assert NodesIn(seen) + {source} + {target} == NodesIn(seen) + {source, target};
      AddNode(source);
      AddNode(target);
      AddEdge(Edge(source.id, edgeType, target.id, ctx.rowid, ctx.bundleId, ctx.product, recency));
      seen := seen + {(link, recency)};
    }

    /** `if (... !== undefined) builder.connect(...)`. */
    method ConnectIfPresent(link: Option<Link>, recency: int)
      requires Valid()
      modifies this
      ensures Valid() && seen == old(seen) + Timed(OptionSet(link), recency)
    {
      if link.Some? { Connect(link.value.source, link.value.edgeType, link.value.target, recency); }
    }

    /** The values of both maps, each sorted. */
    method Result() returns (d: Derivation)
      requires Valid()
      ensures Sorted(d.edges, EDGE_ORDER) && (forall e :: e in d.edges <==> e in edges.Values) && Distinct(d.edges)
      ensures Sorted(d.nodes, NODE_ORDER) && (forall n :: n in d.nodes <==> n in nodes.Values) && Distinct(d.nodes)
    {
      var es := Listed(edges.Values);
      var ns := Listed(nodes.Values);
      EdgeOrderLaws();
      NodeOrderLaws();
      SortSorted(es, EDGE_ORDER);
      SortSorted(ns, NODE_ORDER);
      SortDistinct(es, EDGE_ORDER);
      SortDistinct(ns, NODE_ORDER);
      d := Derivation(Sort(ns, NODE_ORDER), Sort(es, EDGE_ORDER));
    }
  }

  function EdgesIn(ctx: Context, links: set<(Link, int)>): set<Edge> { set p | p in links :: EdgeOf(ctx, p.0, p.1) }

  function NodesIn(links: set<(Link, int)>): set<Node> {
    (set p | p in links :: p.0.source) + (set p | p in links :: p.0.target)
  }

  function Timed(links: set<Link>, recency: int): set<(Link, int)> { set l | l in links :: (l, recency) }

  function OptionSet(o: Option<Link>): set<Link> { if o == None then {} else {o.value} }

  lemma SeenGrows(ctx: Context, seen: set<(Link, int)>, link: Link, recency: int)
    ensures EdgesIn(ctx, seen + {(link, recency)}) == EdgesIn(ctx, seen) + {EdgeOf(ctx, link, recency)}
    ensures NodesIn(seen + {(link, recency)}) == NodesIn(seen) + {link.source, link.target}
  {
    assert (link, recency) in seen + {(link, recency)};
  }

  /** The elements of a set in some order. */
  method Listed<T(!new, ==)>(s: set<T>) returns (r: seq<T>)
    ensures Distinct(r) && forall x :: x in r <==> x in s
  {
    r := [];
    var rest := s;
    while rest != {}
      invariant rest <= s && Distinct(r) && forall x :: x in r <==> x in s && x !in rest
      decreases rest
    {
      var x :| x in rest;
      rest := rest - {x};
      r := r + [x];
    }
  }

  lemma SortDistinct<T(!new)>(s: seq<T>, le: (T, T) -> bool)
    requires Distinct(s)
    ensures Distinct(Sort(s, le))
  {
    var t := Sort(s, le);
    forall i, j | 0 <= i < j < |t| ensures t[i] != t[j] {
      CountOnce(s, t[i]);
      if t[i] == t[j] { TwiceIn(t, i, j); }
    }
  }

  lemma TwiceIn<T(!new)>(t: seq<T>, i: nat, j: nat)
    requires i < j < |t| && t[i] == t[j]
    ensures multiset(t)[t[i]] >= 2
  {
    assert t == t[..i] + [t[i]] + t[i + 1..j] + [t[j]] + t[j + 1..];
  }

  // ----- what one observation contributes -----

  datatype Platform = Web | Android | Ios

  datatype Surface = Page(naturalKey: string) | Screen(naturalKey: string)

  datatype FlowRef = FlowRef(name: string, precedes: Option<string>)

  datatype Observation = Observation(
    observedAt: int,
    test: Option<string>,
    procedure: Option<string>,
    step: string,
    stepOrdinal: int,
    element: Option<string>,
    platform: Option<Platform>,
    surface: Option<Surface>,
    flow: Option<FlowRef>,
    error: Option<string>)

  datatype Link = Link(source: Node, edgeType: string, target: Node)

  function EdgeOf(ctx: Context, l: Link, recency: int): Edge {
    Edge(l.source.id, l.edgeType, l.target.id, ctx.rowid, ctx.bundleId, ctx.product, recency)
  }

  function StepOf(ids: Ids, o: Observation, product: string): Node {
    MakeNode(ids, StepNode, StepKey(o.step, o.stepOrdinal), product)
  }

  /** The element used, when the observation says on which platform. */
  function ElementOf(ids: Ids, o: Observation, product: string): Option<Node> {
    if o.element == None || o.platform == None then None
    else Some(MakeNode(ids, if o.platform.value.Web? then WebElement else MobileElement, TextKey(o.element.value), product))
  }

  function SurfaceNode(ids: Ids, s: Surface, product: string): Node {
    MakeNode(ids, if s.Page? then WebPage else MobileScreen, TextKey(s.naturalKey), product)
  }

  function TestLink(ids: Ids, o: Observation, product: string): Option<Link> {
    if o.test == None then None
    else Some(Link(MakeNode(ids, TestNode, TextKey(o.test.value), product), "contains", StepOf(ids, o, product)))
  }

  function ProcedureLink(ids: Ids, o: Observation, product: string): Option<Link> {
    if o.procedure == None then None
    else Some(Link(MakeNode(ids, ProcedureNode, TextKey(o.procedure.value), product), "composed-of", StepOf(ids, o, product)))
  }

  function UsesLink(ids: Ids, o: Observation, product: string): Option<Link> {
    if ElementOf(ids, o, product) == None then None
    else Some(Link(StepOf(ids, o, product), "uses", ElementOf(ids, o, product).value))
  }

  function OnLink(ids: Ids, o: Observation, product: string): Option<Link> {
    if o.surface == None then None
    else Some(Link(StepOf(ids, o, product), "on", SurfaceNode(ids, o.surface.value, product)))
  }

  function FlowOf(ids: Ids, name: string, product: string): Node { MakeNode(ids, FlowNode, TextKey(name), product) }

  function PartOfLink(ids: Ids, o: Observation, product: string): Option<Link> {
    if o.flow == None then None
    else Some(Link(StepOf(ids, o, product), "part-of", FlowOf(ids, o.flow.value.name, product)))
  }

  function PrecedesLink(ids: Ids, o: Observation, product: string): Option<Link> {
    if o.flow == None || o.flow.value.precedes == None then None
    else
      Some(Link(FlowOf(ids, o.flow.value.name, product), "precedes", FlowOf(ids, o.flow.value.precedes.value, product)))
  }

  function CausedByLink(ids: Ids, o: Observation, product: string): Option<Link> {
    if o.error == None || ElementOf(ids, o, product) == None then None
    else
      Some(Link(MakeNode(ids, ErrorNode, TextKey(o.error.value), product), "caused-by", ElementOf(ids, o, product).value))
  }

  /** Every link of the observation-backed vocabulary this observation supports. */
  function Links(ids: Ids, o: Observation, product: string): set<Link> {
    OptionSet(TestLink(ids, o, product)) + OptionSet(ProcedureLink(ids, o, product))
    + OptionSet(UsesLink(ids, o, product)) + OptionSet(OnLink(ids, o, product))
    + OptionSet(PartOfLink(ids, o, product)) + OptionSet(PrecedesLink(ids, o, product))
    + OptionSet(CausedByLink(ids, o, product))
  }

  /** All links of the observations, each with the ordinal it was observed at. */
  function AllLinks(ids: Ids, obs: seq<Observation>, product: string): set<(Link, int)> {
    set o, l | o in obs && l in Links(ids, o, product) :: (l, o.observedAt)
  }

  function AllEdges(ids: Ids, ctx: Context, obs: seq<Observation>): set<Edge> {
    EdgesIn(ctx, AllLinks(ids, obs, ctx.product))
  }

  function AllNodes(ids: Ids, ctx: Context, obs: seq<Observation>): set<Node> {
    NodesIn(AllLinks(ids, obs, ctx.product))
  }

  /**
   * What a derivation must be: the contributed edges that no later contribution of the same identity beats,
   * and the contributed nodes, both strictly sorted.
   */
  ghost predicate IsDerivation(ids: Ids, ctx: Context, obs: seq<Observation>, d: Derivation) {
    && Sorted(d.edges, EDGE_ORDER) && Distinct(d.edges)
    && (forall e :: e in d.edges <==> Kept(AllEdges(ids, ctx, obs), e))
    && Sorted(d.nodes, NODE_ORDER) && Distinct(d.nodes)
    && (forall n :: n in d.nodes <==> n in AllNodes(ids, ctx, obs))
  }

  /** `deriveObservationEdges`. */
  method DeriveObservationEdges(ids: Ids, obs: seq<Observation>, ctx: Context) returns (d: Derivation)
    requires Separates(ids)
    ensures IsDerivation(ids, ctx, obs, d)
  {
    var builder := new DerivationBuilder(ctx);
    var product := ctx.product;
    for i := 0 to |obs|
      invariant fresh(builder) && builder.Valid() && builder.ctx == ctx
      invariant builder.seen == AllLinks(ids, obs[..i], product)
    {
      hide TestLink, ProcedureLink, UsesLink, OnLink, PartOfLink, PrecedesLink, CausedByLink;
      var o := obs[i];
      AllLinksStep(ids, obs, i, product);
      builder.ConnectIfPresent(TestLink(ids, o, product), o.observedAt);
      builder.ConnectIfPresent(ProcedureLink(ids, o, product), o.observedAt);
      builder.ConnectIfPresent(UsesLink(ids, o, product), o.observedAt);
      builder.ConnectIfPresent(OnLink(ids, o, product), o.observedAt);
      builder.ConnectIfPresent(PartOfLink(ids, o, product), o.observedAt);
      builder.ConnectIfPresent(PrecedesLink(ids, o, product), o.observedAt);
      builder.ConnectIfPresent(CausedByLink(ids, o, product), o.observedAt);
    }
    assert obs[..|obs|] == obs;
    d := builder.Result();
    EdgesAreKept(ids, ctx, obs, builder.edges, AllEdges(ids, ctx, obs));
    NodesAreSeen(ids, ctx, obs, builder.nodes, AllNodes(ids, ctx, obs));
  }

  lemma TimedUnion(a: set<Link>, b: set<Link>, recency: int)
    ensures Timed(a + b, recency) == Timed(a, recency) + Timed(b, recency)
  {
  }

  lemma TimedUnions(a: set<Link>, b: set<Link>, c: set<Link>, d: set<Link>, e: set<Link>, f: set<Link>, g: set<Link>, recency: int)
    ensures Timed(a + b + c + d + e + f + g, recency) ==
            Timed(a, recency) + Timed(b, recency) + Timed(c, recency) + Timed(d, recency)
            + Timed(e, recency) + Timed(f, recency) + Timed(g, recency)
  {
    hide Timed;
    TimedUnion(a, b, recency);
    TimedUnion(a + b, c, recency);
    TimedUnion(a + b + c, d, recency);
    TimedUnion(a + b + c + d, e, recency);
    TimedUnion(a + b + c + d + e, f, recency);
    TimedUnion(a + b + c + d + e + f, g, recency);
  }

  lemma UnionOfSeven<T>(s: set<T>, a: set<T>, b: set<T>, c: set<T>, d: set<T>, e: set<T>, f: set<T>, g: set<T>)
    ensures s + (a + b + c + d + e + f + g) == s + a + b + c + d + e + f + g
  {
  }

  lemma AllLinksGrow(ids: Ids, obs: seq<Observation>, i: nat, product: string)
    requires i < |obs|
    ensures AllLinks(ids, obs[..i + 1], product) ==
            AllLinks(ids, obs[..i], product) + Timed(Links(ids, obs[i], product), obs[i].observedAt)
  {
    hide Links;
    assert obs[..i + 1] == obs[..i] + [obs[i]];
  }

  lemma AllLinksStep(ids: Ids, obs: seq<Observation>, i: nat, product: string)
    requires i < |obs|
    ensures
      var o := obs[i];
      AllLinks(ids, obs[..i + 1], product) ==
      AllLinks(ids, obs[..i], product)
      + Timed(OptionSet(TestLink(ids, o, product)), o.observedAt) + Timed(OptionSet(ProcedureLink(ids, o, product)), o.observedAt)
      + Timed(OptionSet(UsesLink(ids, o, product)), o.observedAt) + Timed(OptionSet(OnLink(ids, o, product)), o.observedAt)
      + Timed(OptionSet(PartOfLink(ids, o, product)), o.observedAt) + Timed(OptionSet(PrecedesLink(ids, o, product)), o.observedAt)
      + Timed(OptionSet(CausedByLink(ids, o, product)), o.observedAt)
  {
    hide TestLink, ProcedureLink, UsesLink, OnLink, PartOfLink, PrecedesLink, CausedByLink, Timed, OptionSet, AllLinks;
    var o := obs[i];
    AllLinksGrow(ids, obs, i, product);
    var a, b, c, d := OptionSet(TestLink(ids, o, product)), OptionSet(ProcedureLink(ids, o, product)),
      OptionSet(UsesLink(ids, o, product)), OptionSet(OnLink(ids, o, product));
    var e, f, g := OptionSet(PartOfLink(ids, o, product)), OptionSet(PrecedesLink(ids, o, product)),
      OptionSet(CausedByLink(ids, o, product));
    TimedUnions(a, b, c, d, e, f, g, o.observedAt);
    UnionOfSeven(AllLinks(ids, obs[..i], product), Timed(a, o.observedAt), Timed(b, o.observedAt), Timed(c, o.observedAt),
                 Timed(d, o.observedAt), Timed(e, o.observedAt), Timed(f, o.observedAt), Timed(g, o.observedAt));
  }

  lemma ContributedContext(ids: Ids, ctx: Context, obs: seq<Observation>, e: Edge)
    requires e in AllEdges(ids, ctx, obs)
    ensures e.rowid == ctx.rowid && e.bundleId == ctx.bundleId && e.product == ctx.product
  {
    hide Links;
  }

  /** Inside one derivation, identity and recency determine the edge. */
  lemma EdgesAreKept(ids: Ids, ctx: Context, obs: seq<Observation>, edges: map<EdgeKey, Edge>, seen: set<Edge>)
    requires seen == AllEdges(ids, ctx, obs)
    requires forall k :: k in edges ==> Identity(edges[k]) == k && Kept(seen, edges[k])
    requires forall e :: e in seen ==> Identity(e) in edges
    ensures forall e :: e in edges.Values <==> Kept(seen, e)
  {
    hide AllEdges;
    forall e ensures e in edges.Values <==> Kept(seen, e) {
      if Kept(seen, e) {
        var k := edges[Identity(e)];
        ContributedContext(ids, ctx, obs, e);
        ContributedContext(ids, ctx, obs, k);
        assert k == e;
      }
    }
  }

  lemma ContributedNode(ids: Ids, ctx: Context, obs: seq<Observation>, n: Node)
    requires n in AllNodes(ids, ctx, obs)
    ensures n.id == ids.of(n.nodeType, n.key) && n.product == ctx.product
  {
    hide Links;
    var p :| p in AllLinks(ids, obs, ctx.product) && (p.0.source == n || p.0.target == n);
    var o :| o in obs && p.0 in Links(ids, o, ctx.product);
    LinkNodes(ids, o, ctx.product);
  }

  lemma LinkNodes(ids: Ids, o: Observation, product: string)
    ensures forall l :: l in Links(ids, o, product) ==>
              && l.source.id == ids.of(l.source.nodeType, l.source.key) && l.source.product == product
              && l.target.id == ids.of(l.target.nodeType, l.target.key) && l.target.product == product
  {
    hide OptionSet;
    LinkSound(ids, product, TestLink(ids, o, product));
    LinkSound(ids, product, ProcedureLink(ids, o, product));
    LinkSound(ids, product, UsesLink(ids, o, product));
    LinkSound(ids, product, OnLink(ids, o, product));
    LinkSound(ids, product, PartOfLink(ids, o, product));
    LinkSound(ids, product, PrecedesLink(ids, o, product));
    LinkSound(ids, product, CausedByLink(ids, o, product));
  }

  predicate NodeSound(ids: Ids, product: string, n: Node) { n.id == ids.of(n.nodeType, n.key) && n.product == product }

  lemma LinkSound(ids: Ids, product: string, o: Option<Link>)
    requires o.Some? ==> NodeSound(ids, product, o.value.source) && NodeSound(ids, product, o.value.target)
    ensures forall l :: l in OptionSet(o) ==> NodeSound(ids, product, l.source) && NodeSound(ids, product, l.target)
  {
  }

  lemma NodesAreSeen(ids: Ids, ctx: Context, obs: seq<Observation>, nodes: map<NodeKey, Node>, seen: set<Node>)
    requires Separates(ids) && seen == AllNodes(ids, ctx, obs)
    requires forall k :: k in nodes ==> nodes[k] in seen && KeyOfNode(nodes[k]) == k
    requires forall n :: n in seen ==> KeyOfNode(n) in nodes
    ensures forall n :: n in nodes.Values <==> n in seen
  {
    hide AllNodes;
    forall n | n in seen ensures n in nodes.Values {
      var k := nodes[KeyOfNode(n)];
      ContributedNode(ids, ctx, obs, n);
      ContributedNode(ids, ctx, obs, k);
      assert ids.back(n.id) == (n.nodeType, n.key) && ids.back(k.id) == (k.nodeType, k.key);
      assert k == n;
    }
  }

  // ----- what a derivation guarantees -----

  lemma SameSets(ids: Ids, ctx: Context, a: seq<Observation>, b: seq<Observation>)
    requires forall o :: o in a <==> o in b
    ensures AllEdges(ids, ctx, a) == AllEdges(ids, ctx, b) && AllNodes(ids, ctx, a) == AllNodes(ids, ctx, b)
  {
    hide Links;
    assert AllLinks(ids, a, ctx.product) == AllLinks(ids, b, ctx.product);
  }

  lemma EdgesAntisymmetric(ids: Ids, ctx: Context, obs: seq<Observation>, edges: seq<Edge>)
    requires forall e :: e in edges ==> Kept(AllEdges(ids, ctx, obs), e)
    ensures Antisymmetric(EDGE_ORDER, edges)
  {
    hide AllEdges;
    EdgeOrderLaws();
    forall x, y | x in edges && y in edges && EDGE_ORDER(x, y) && EDGE_ORDER(y, x) ensures x == y {
      assert Kept(AllEdges(ids, ctx, obs), x) && Kept(AllEdges(ids, ctx, obs), y);
      ContributedContext(ids, ctx, obs, x);
      ContributedContext(ids, ctx, obs, y);
    }
  }

  lemma NodesAntisymmetric(ids: Ids, ctx: Context, obs: seq<Observation>, nodes: seq<Node>)
    requires Separates(ids) && forall n :: n in nodes ==> n in AllNodes(ids, ctx, obs)
    ensures Antisymmetric(NODE_ORDER, nodes)
  {
    hide AllNodes;
    NodeOrderLaws();
    forall x, y | x in nodes && y in nodes && NODE_ORDER(x, y) && NODE_ORDER(y, x) ensures x == y {
      ContributedNode(ids, ctx, obs, x);
      ContributedNode(ids, ctx, obs, y);
      assert ids.back(x.id) == (x.nodeType, x.key) && ids.back(y.id) == (y.nodeType, y.key);
    }
  }

  /** Two derivations from the same observations, in any order and with any repetition, are the same. */
  lemma OrderDoesNotMatter(ids: Ids, ctx: Context, a: seq<Observation>, b: seq<Observation>, d: Derivation, f: Derivation)
    requires Separates(ids) && forall o :: o in a <==> o in b
    requires IsDerivation(ids, ctx, a, d) && IsDerivation(ids, ctx, b, f)
    ensures d == f
  {
    hide AllEdges, AllNodes;
    SameSets(ids, ctx, a, b);
    EdgeOrderLaws();
    NodeOrderLaws();
    DistinctSameElements(d.edges, f.edges);
    DistinctSameElements(d.nodes, f.nodes);
    EdgesAntisymmetric(ids, ctx, a, d.edges);
    NodesAntisymmetric(ids, ctx, a, d.nodes);
    SortedUnique(d.edges, f.edges, EDGE_ORDER);
    SortedUnique(d.nodes, f.nodes, NODE_ORDER);
  }

  /** The observation supports this edge. */
  predicate Supports(ids: Ids, ctx: Context, o: Observation, e: Edge) {
    exists l :: l in Links(ids, o, ctx.product) && EdgeOf(ctx, l, o.observedAt) == e
  }

  lemma AllEdgesIff(ids: Ids, ctx: Context, obs: seq<Observation>, e: Edge)
    ensures e in AllEdges(ids, ctx, obs) <==> exists o :: o in obs && Supports(ids, ctx, o, e)
  {
    hide Links;
    if e in AllEdges(ids, ctx, obs) {
      var p :| p in AllLinks(ids, obs, ctx.product) && EdgeOf(ctx, p.0, p.1) == e;
      var o :| o in obs && p.0 in Links(ids, o, ctx.product) && p.1 == o.observedAt;
      assert Supports(ids, ctx, o, e);
    }
    if o :| o in obs && Supports(ids, ctx, o, e) {
      var l :| l in Links(ids, o, ctx.product) && EdgeOf(ctx, l, o.observedAt) == e;
      assert (l, o.observedAt) in AllLinks(ids, obs, ctx.product);
    }
  }

  /** No two edges of a derivation share an identity, and each carries the latest recency any observation gave it. */
  lemma EdgesUnique(ids: Ids, ctx: Context, obs: seq<Observation>, d: Derivation, i: nat, j: nat)
    requires IsDerivation(ids, ctx, obs, d) && i < j < |d.edges|
    ensures Identity(d.edges[i]) != Identity(d.edges[j]) && EdgeLe(d.edges[i], d.edges[j])
    ensures forall o, e :: o in obs && Supports(ids, ctx, o, e) && Identity(e) == Identity(d.edges[i]) ==>
              e.recency <= d.edges[i].recency
    ensures exists o :: o in obs && Supports(ids, ctx, o, d.edges[i])
  {
    hide AllEdges, Supports;
    var x, y := d.edges[i], d.edges[j];
    assert x in d.edges && y in d.edges;
    assert EDGE_ORDER(x, y);
    AllEdgesIff(ids, ctx, obs, x);
    forall o, e | o in obs && Supports(ids, ctx, o, e) && Identity(e) == Identity(x) ensures e.recency <= x.recency {
      AllEdgesIff(ids, ctx, obs, e);
    }
    ContributedContext(ids, ctx, obs, x);
    ContributedContext(ids, ctx, obs, y);
  }

  /** Every edge of a derivation joins two of its nodes. */
  lemma EndpointsPresent(ids: Ids, ctx: Context, obs: seq<Observation>, d: Derivation, e: Edge)
    requires IsDerivation(ids, ctx, obs, d) && e in d.edges
    ensures exists n :: n in d.nodes && n.id == e.src && n.product == e.product
    ensures exists n :: n in d.nodes && n.id == e.dst && n.product == e.product
  {
    hide Links;
    assert Kept(AllEdges(ids, ctx, obs), e);
    var p :| p in AllLinks(ids, obs, ctx.product) && EdgeOf(ctx, p.0, p.1) == e;
    var o :| o in obs && p.0 in Links(ids, o, ctx.product);
    LinkNodes(ids, o, ctx.product);
    assert p.0.source in AllNodes(ids, ctx, obs) && p.0.target in AllNodes(ids, ctx, obs);
  }
}
