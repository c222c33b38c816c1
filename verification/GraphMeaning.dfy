/** Which edges, nodes and bridges follow from which observations, named one by one. */
module GraphMeaning {
  import opened Prelude
  import opened TextOrder
  import opened GraphDerive
  import opened GraphBridges

  // ----- edges -----

  /** The edge joins these two nodes. */
  predicate Between(ids: Ids, e: Edge, s: NodeType, sk: NaturalKey, edgeType: string, t: NodeType, tk: NaturalKey) {
    e.src == ids.of(s, sk) && e.edgeType == edgeType && e.dst == ids.of(t, tk)
  }

  function StepKeyOf(o: Observation): NaturalKey { NaturalKey.StepKey(o.step, o.stepOrdinal) }

  /** The observation saw this element, on the web or on a phone. */
  predicate Saw(o: Observation, t: NodeType, key: NaturalKey) {
    && o.element.Some? && key == TextKey(o.element.value)
    && ((o.platform == Some(Web) && t == WebElement)
        || ((o.platform == Some(Android) || o.platform == Some(Ios)) && t == MobileElement))
  }

  /** The observation names these two nodes in this relation. */
  predicate Relates(o: Observation, s: NodeType, sk: NaturalKey, edgeType: string, t: NodeType, tk: NaturalKey) {
    || (s == TestNode && o.test.Some? && sk == TextKey(o.test.value)
        && edgeType == "contains" && t == StepNode && tk == StepKeyOf(o))
    || (s == ProcedureNode && o.procedure.Some? && sk == TextKey(o.procedure.value)
        && edgeType == "composed-of" && t == StepNode && tk == StepKeyOf(o))
    || (s == StepNode && sk == StepKeyOf(o) && edgeType == "uses" && Saw(o, t, tk))
    || (s == StepNode && sk == StepKeyOf(o) && edgeType == "on" && o.surface.Some?
        && match o.surface.value
           case Page(key) => t == WebPage && tk == TextKey(key)
           case Screen(key) => t == MobileScreen && tk == TextKey(key))
    || (s == StepNode && sk == StepKeyOf(o) && edgeType == "part-of" && o.flow.Some?
        && t == FlowNode && tk == TextKey(o.flow.value.name))
    || (s == FlowNode && o.flow.Some? && sk == TextKey(o.flow.value.name)
        && edgeType == "precedes" && o.flow.value.precedes.Some? && t == FlowNode && tk == TextKey(o.flow.value.precedes.value))
    || (s == ErrorNode && o.error.Some? && sk == TextKey(o.error.value) && edgeType == "caused-by" && Saw(o, t, tk))
  }

  /** The link is one of those the observation relates. */
  predicate LinkOf(ids: Ids, product: string, o: Observation, l: Link) {
    && Relates(o, l.source.nodeType, l.source.key, l.edgeType, l.target.nodeType, l.target.key)
    && NodeSound(ids, product, l.source) && NodeSound(ids, product, l.target)
  }

  lemma ElementIs(ids: Ids, product: string, o: Observation, n: Node)
    ensures ElementOf(ids, o, product) == Some(n) <==> Saw(o, n.nodeType, n.key) && NodeSound(ids, product, n)
  {
  }

  predicate Either(a: Option<Link>, b: Option<Link>, c: Option<Link>, d: Option<Link>, e: Option<Link>, f: Option<Link>, g: Option<Link>, l: Link) {
    Some(l) == a || Some(l) == b || Some(l) == c || Some(l) == d || Some(l) == e || Some(l) == f || Some(l) == g
  }

  lemma LinksAre(ids: Ids, product: string, o: Observation, l: Link)
    ensures l in Links(ids, o, product) <==>
            Either(TestLink(ids, o, product), ProcedureLink(ids, o, product), UsesLink(ids, o, product), OnLink(ids, o, product),
                   PartOfLink(ids, o, product), PrecedesLink(ids, o, product), CausedByLink(ids, o, product), l)
  {
    hide TestLink, ProcedureLink, UsesLink, OnLink, PartOfLink, PrecedesLink, CausedByLink;
  }

  /** An observation contributes exactly the links it relates. */
  lemma LinksIff(ids: Ids, product: string, o: Observation, l: Link)
    ensures l in Links(ids, o, product) <==> LinkOf(ids, product, o, l)
  {
    LinksAre(ids, product, o, l);
    hide Links;
    forall n ensures ElementOf(ids, o, product) == Some(n) <==> Saw(o, n.nodeType, n.key) && NodeSound(ids, product, n) {
      ElementIs(ids, product, o, n);
    }
    hide ElementOf, Saw;
  }

  /** The observation supports this edge: between nodes it relates, in this context and of its ordinal. */
  ghost predicate Evident(ids: Ids, ctx: Context, o: Observation, e: Edge) {
    && e.rowid == ctx.rowid && e.bundleId == ctx.bundleId && e.product == ctx.product && e.recency == o.observedAt
    && exists l: Link :: LinkOf(ids, ctx.product, o, l) && e.src == l.source.id && e.edgeType == l.edgeType && e.dst == l.target.id
  }

  lemma SupportsIff(ids: Ids, ctx: Context, o: Observation, e: Edge)
    ensures Supports(ids, ctx, o, e) <==> Evident(ids, ctx, o, e)
  {
    hide Links, LinkOf;
    forall l ensures l in Links(ids, o, ctx.product) <==> LinkOf(ids, ctx.product, o, l) { LinksIff(ids, ctx.product, o, l); }
    if Evident(ids, ctx, o, e) {
      var l: Link :| LinkOf(ids, ctx.product, o, l) && e.src == l.source.id && e.edgeType == l.edgeType && e.dst == l.target.id;
      assert EdgeOf(ctx, l, o.observedAt) == e;
    }
  }

  /** A derivation has exactly the edges some observation supports and no later one supports again. */
  lemma EdgeIff(ids: Ids, ctx: Context, obs: seq<Observation>, d: Derivation, e: Edge)
    requires IsDerivation(ids, ctx, obs, d)
    ensures e in d.edges <==>
            && (exists o :: o in obs && Evident(ids, ctx, o, e))
            && forall o, x :: o in obs && Evident(ids, ctx, o, x) && x.src == e.src && x.edgeType == e.edgeType && x.dst == e.dst
                 ==> x.recency <= e.recency
  {
    hide AllEdges, AllNodes, Supports, Evident, LinkOf;
    forall x ensures x in AllEdges(ids, ctx, obs) <==> exists o :: o in obs && Evident(ids, ctx, o, x) {
      AllEdgesIff(ids, ctx, obs, x);
      forall o ensures Supports(ids, ctx, o, x) <==> Evident(ids, ctx, o, x) { SupportsIff(ids, ctx, o, x); }
    }
    forall x | x in AllEdges(ids, ctx, obs) ensures x.bundleId == ctx.bundleId && x.rowid == ctx.rowid {
      ContributedContext(ids, ctx, obs, x);
    }
  }

  /** Edges come by source, then kind, then target. */
  lemma EdgesInOrder(ids: Ids, ctx: Context, obs: seq<Observation>, d: Derivation, i: nat, j: nat)
    requires IsDerivation(ids, ctx, obs, d) && i < j < |d.edges|
    ensures
      var x, y := d.edges[i], d.edges[j];
      && TextLe(x.src, y.src) && (x.src == y.src ==> TextLe(x.edgeType, y.edgeType))
      && (x.src == y.src && x.edgeType == y.edgeType ==> TextLt(x.dst, y.dst))
  {
    hide AllEdges, AllNodes, TextLe;
    TextOrderLaws();
    EdgesUnique(ids, ctx, obs, d, i, j);
    assert d.edges[i] in d.edges && d.edges[j] in d.edges;
    ContributedContext(ids, ctx, obs, d.edges[i]);
    ContributedContext(ids, ctx, obs, d.edges[j]);
  }

  /** Nodes come by id. */
  lemma NodesInOrder(ids: Ids, ctx: Context, obs: seq<Observation>, d: Derivation, i: nat, j: nat)
    requires Separates(ids) && IsDerivation(ids, ctx, obs, d) && i < j < |d.nodes|
    ensures TextLt(d.nodes[i].id, d.nodes[j].id)
  {
    hide AllEdges, AllNodes, TextLe;
    TextOrderLaws();
    var x, y := d.nodes[i], d.nodes[j];
    assert x in d.nodes && y in d.nodes && NODE_ORDER(x, y) && x != y;
    ContributedNode(ids, ctx, obs, x);
    ContributedNode(ids, ctx, obs, y);
    assert ids.back(x.id) == (x.nodeType, x.key) && ids.back(y.id) == (y.nodeType, y.key);
  }

  // ----- nodes -----

  /** The observation has a node of this kind. */
  predicate Mentions(o: Observation, t: NodeType, k: NaturalKey) {
    || (t == TestNode && o.test.Some? && k == TextKey(o.test.value))
    || (t == ProcedureNode && o.procedure.Some? && k == TextKey(o.procedure.value))
    || (t == StepNode && k == StepKeyOf(o)
        && (o.test.Some? || o.procedure.Some? || (o.element.Some? && o.platform.Some?) || o.surface.Some? || o.flow.Some?))
    || Saw(o, t, k)
    || (o.surface.Some? && match o.surface.value
          case Page(key) => t == WebPage && k == TextKey(key)
          case Screen(key) => t == MobileScreen && k == TextKey(key))
    || (t == FlowNode && o.flow.Some? && k == TextKey(o.flow.value.name))
    || (t == FlowNode && o.flow.Some? && o.flow.value.precedes.Some? && k == TextKey(o.flow.value.precedes.value))
    || (t == ErrorNode && o.error.Some? && o.element.Some? && o.platform.Some? && k == TextKey(o.error.value))
  }

  /** The link has this node at one end. */
  predicate Touches(l: Link, n: Node) { l.source == n || l.target == n }

  lemma EndsMentioned(ids: Ids, product: string, o: Observation, l: Link)
    requires LinkOf(ids, product, o, l)
    ensures Mentions(o, l.source.nodeType, l.source.key) && Mentions(o, l.target.nodeType, l.target.key)
  {
  }

  /** The element an observation saw. */
  lemma SeenElement(o: Observation) returns (t: NodeType, k: NaturalKey)
    requires o.element.Some? && o.platform.Some?
    ensures Saw(o, t, k)
  {
    t, k := if o.platform.value.Web? then WebElement else MobileElement, TextKey(o.element.value);
  }

  /** Some link of the observation touches the step. */
  lemma StepTouched(ids: Ids, product: string, o: Observation) returns (l: Link)
    requires o.test.Some? || o.procedure.Some? || (o.element.Some? && o.platform.Some?) || o.surface.Some? || o.flow.Some?
    ensures LinkOf(ids, product, o, l) && Touches(l, MakeNode(ids, StepNode, StepKeyOf(o), product))
  {
    var step := MakeNode(ids, StepNode, StepKeyOf(o), product);
    if o.test.Some? {
      l := Link(MakeNode(ids, TestNode, TextKey(o.test.value), product), "contains", step);
    } else if o.procedure.Some? {
      l := Link(MakeNode(ids, ProcedureNode, TextKey(o.procedure.value), product), "composed-of", step);
    } else if o.element.Some? && o.platform.Some? {
      var t, k := SeenElement(o);
      l := Link(step, "uses", MakeNode(ids, t, k, product));
    } else if o.surface.Some? {
      l := Link(step, "on", SurfaceNode(ids, o.surface.value, product));
    } else {
      l := Link(step, "part-of", MakeNode(ids, FlowNode, TextKey(o.flow.value.name), product));
    }
  }

  lemma MentionedTouched(ids: Ids, product: string, o: Observation, n: Node) returns (l: Link)
    requires Mentions(o, n.nodeType, n.key) && NodeSound(ids, product, n)
    ensures LinkOf(ids, product, o, l) && Touches(l, n)
  {
    var step := MakeNode(ids, StepNode, StepKeyOf(o), product);
    match n.nodeType {
      case TestNode => l := Link(n, "contains", step);
      case ProcedureNode => l := Link(n, "composed-of", step);
      case StepNode => l := StepTouched(ids, product, o);
      case WebElement => l := Link(step, "uses", n);
      case MobileElement => l := Link(step, "uses", n);
      case WebPage => l := Link(step, "on", n);
      case MobileScreen => l := Link(step, "on", n);
      case FlowNode =>
        if n.key == TextKey(o.flow.value.name) {
          l := Link(step, "part-of", n);
        } else {
          l := Link(MakeNode(ids, FlowNode, TextKey(o.flow.value.name), product), "precedes", n);
        }
      case ErrorNode =>
        var t, k := SeenElement(o);
        l := Link(n, "caused-by", MakeNode(ids, t, k, product));
    }
  }

  /** A derivation has exactly the nodes its observations mention, each under its id. */
  lemma NodeIff(ids: Ids, ctx: Context, obs: seq<Observation>, d: Derivation, n: Node)
    requires IsDerivation(ids, ctx, obs, d)
    ensures n in d.nodes <==>
            n.id == ids.of(n.nodeType, n.key) && n.product == ctx.product && exists o :: o in obs && Mentions(o, n.nodeType, n.key)
  {
    hide AllEdges, AllNodes, Mentions;
    if n in AllNodes(ids, ctx, obs) { NodeMentioned(ids, ctx, obs, n); }
    if n.id == ids.of(n.nodeType, n.key) && n.product == ctx.product {
      forall o | o in obs && Mentions(o, n.nodeType, n.key) ensures n in AllNodes(ids, ctx, obs) {
        MentionedNode(ids, ctx, obs, o, n);
      }
    }
  }

  lemma NodeMentioned(ids: Ids, ctx: Context, obs: seq<Observation>, n: Node)
    requires n in AllNodes(ids, ctx, obs)
    ensures NodeSound(ids, ctx.product, n) && exists o :: o in obs && Mentions(o, n.nodeType, n.key)
  {
    hide Links, LinkOf, Mentions;
    ContributedNode(ids, ctx, obs, n);
    var p :| p in AllLinks(ids, obs, ctx.product) && (p.0.source == n || p.0.target == n);
    var o :| o in obs && p.0 in Links(ids, o, ctx.product);
    LinksIff(ids, ctx.product, o, p.0);
    EndsMentioned(ids, ctx.product, o, p.0);
  }

  lemma MentionedNode(ids: Ids, ctx: Context, obs: seq<Observation>, o: Observation, n: Node)
    requires NodeSound(ids, ctx.product, n) && o in obs && Mentions(o, n.nodeType, n.key)
    ensures n in AllNodes(ids, ctx, obs)
  {
    hide Links, LinkOf, Mentions;
    var l := MentionedTouched(ids, ctx.product, o, n);
    LinksIff(ids, ctx.product, o, l);
    var p := (l, o.observedAt);
    assert p in AllLinks(ids, obs, ctx.product) && (p.0.source == n || p.0.target == n);
  }

  // ----- bridges -----

  /** The step used this element: one of the edges says so. */
  predicate UsedBy(types: map<string, NodeType>, edges: seq<Edge>, g: Group, id: string, t: NodeType) {
    && id in types && types[id] == t
    && exists e :: e in edges && e.edgeType == "uses" && e.product == g.product && e.src == g.step && e.dst == id
  }

  /** The pairs that are bridged. */
  lemma JoinedIff(types: map<string, NodeType>, edges: seq<Edge>, q: Quad)
    ensures Joined(types, edges, q) <==>
            UsedBy(types, edges, q.group, q.web, WebElement) && UsedBy(types, edges, q.group, q.mobile, MobileElement)
  {
    UsedIff(types, edges, q.group, q.web, WebElement);
    UsedIff(types, edges, q.group, q.mobile, MobileElement);
  }

  lemma UsedIff(types: map<string, NodeType>, edges: seq<Edge>, g: Group, id: string, t: NodeType)
    ensures id in Elements(types, edges, g, t) <==> UsedBy(types, edges, g, id, t)
  {
    if UsedBy(types, edges, g, id, t) {
      var e :| e in edges && e.edgeType == "uses" && e.product == g.product && e.src == g.step && e.dst == id;
      assert Uses(e, g, e.dst);
    }
  }

  lemma {:induction false} TypesOf(nodes: seq<Node>, id: string)
    ensures id in TypeMap(nodes) <==> exists n :: n in nodes && n.id == id
    ensures id in TypeMap(nodes) ==> exists n :: n in nodes && n.id == id && n.nodeType == TypeMap(nodes)[id]
  {
    if nodes != [] {
      TypesOf(nodes[..|nodes| - 1], id);
      assert forall n :: n in nodes <==> n in nodes[..|nodes| - 1] || n == nodes[|nodes| - 1];
    }
  }

  lemma DerivedType(ids: Ids, ctx: Context, obs: seq<Observation>, d: Derivation, t: NodeType, k: NaturalKey)
    requires Separates(ids) && IsDerivation(ids, ctx, obs, d)
    ensures Typed(TypeMap(d.nodes), ids.of(t, k), t) <==> exists o :: o in obs && Mentions(o, t, k)
  {
    hide IsDerivation, Mentions, TypeMap;
    TypesOf(d.nodes, ids.of(t, k));
    NodeIff(ids, ctx, obs, d, MakeNode(ids, t, k, ctx.product));
    forall n | n in d.nodes && n.id == ids.of(t, k) ensures n == MakeNode(ids, t, k, ctx.product) {
      NodeIff(ids, ctx, obs, d, n);
      assert ids.back(ids.of(n.nodeType, n.key)) == (n.nodeType, n.key) && ids.back(ids.of(t, k)) == (t, k);
    }
  }

  /** The observation is of this step and saw this element. */
  predicate SawAt(o: Observation, step: NaturalKey, t: NodeType, key: NaturalKey) { StepKeyOf(o) == step && Saw(o, t, key) }

  lemma UsesFromSight(ids: Ids, ctx: Context, obs: seq<Observation>, d: Derivation, step: NaturalKey, t: NodeType, key: NaturalKey)
    requires Separates(ids) && IsDerivation(ids, ctx, obs, d)
    ensures UsedBy(TypeMap(d.nodes), d.edges, Group(ctx.product, ids.of(StepNode, step)), ids.of(t, key), t) <==>
            exists o :: o in obs && SawAt(o, step, t, key)
  {
    hide IsDerivation, TypeMap, Mentions, Saw, Evident;
    var g, id := Group(ctx.product, ids.of(StepNode, step)), ids.of(t, key);
    DerivedType(ids, ctx, obs, d, t, key);
    if e :| e in d.edges && e.edgeType == "uses" && e.product == g.product && e.src == g.step && e.dst == id {
      EdgeIff(ids, ctx, obs, d, e);
      var o :| o in obs && Evident(ids, ctx, o, e);
      UsesSeen(ids, ctx, o, e, step, t, key);
    }
    if o :| o in obs && SawAt(o, step, t, key) {
      SightMentions(o, t, key);
      var e := LatestUse(ids, ctx, obs, d, o, step, t, key);
    }
  }

  lemma SightMentions(o: Observation, t: NodeType, key: NaturalKey)
    requires Saw(o, t, key)
    ensures Mentions(o, t, key)
  {
  }

  lemma UsesSeen(ids: Ids, ctx: Context, o: Observation, e: Edge, step: NaturalKey, t: NodeType, key: NaturalKey)
    requires Separates(ids) && Evident(ids, ctx, o, e)
    requires e.edgeType == "uses" && e.src == ids.of(StepNode, step) && e.dst == ids.of(t, key)
    ensures SawAt(o, step, t, key)
  {
    var l: Link :| LinkOf(ids, ctx.product, o, l) && e.src == l.source.id && e.edgeType == l.edgeType && e.dst == l.target.id;
    assert ids.back(e.src) == (l.source.nodeType, l.source.key) && ids.back(e.src) == (StepNode, step);
    assert ids.back(e.dst) == (l.target.nodeType, l.target.key) && ids.back(e.dst) == (t, key);
  }

  /** The edge of the derivation for a use that an observation saw. */
  lemma LatestUse(
    ids: Ids, ctx: Context, obs: seq<Observation>, d: Derivation, o: Observation, step: NaturalKey, t: NodeType, key: NaturalKey)
    returns (e: Edge)
    requires Separates(ids) && IsDerivation(ids, ctx, obs, d) && o in obs && SawAt(o, step, t, key)
    ensures e in d.edges && e.edgeType == "uses" && e.product == ctx.product
    ensures e.src == ids.of(StepNode, step) && e.dst == ids.of(t, key)
  {
    hide Links;
    var l := Link(MakeNode(ids, StepNode, step, ctx.product), "uses", MakeNode(ids, t, key, ctx.product));
    var first := EdgeOf(ctx, l, o.observedAt);
    LinksIff(ids, ctx.product, o, l);
    assert Supports(ids, ctx, o, first);
    AllEdgesIff(ids, ctx, obs, first);
    hide AllEdges;
    e := Latest(AllEdges(ids, ctx, obs), first);
    ContributedContext(ids, ctx, obs, e);
  }

  /** The most recent contribution of an identity. */
  lemma {:induction false} Latest(seen: set<Edge>, e: Edge) returns (r: Edge)
    requires e in seen
    ensures Kept(seen, r) && Identity(r) == Identity(e) && r.recency >= e.recency
    decreases seen
  {
    r := e;
    if x :| x in seen && Identity(x) == Identity(e) && x.recency > e.recency {
      r := Latest(seen - {e}, x);
      assert Kept(seen - {e}, r);
    }
  }

  /**
   * The bridges of a derivation: a web element and a phone element are joined at a step exactly when one
   * observation of that step saw the one on the web and one of it saw the other on a phone.
   */
  lemma BridgedIff(
    ids: Ids, ctx: Context, obs: seq<Observation>, d: Derivation, step: NaturalKey, web: NaturalKey, mobile: NaturalKey)
    requires Separates(ids) && IsDerivation(ids, ctx, obs, d)
    ensures
      var q := Quad(Group(ctx.product, ids.of(StepNode, step)), ids.of(WebElement, web), ids.of(MobileElement, mobile));
      q in Quads(TypeMap(d.nodes), d.edges) <==>
      (exists o :: o in obs && SawAt(o, step, WebElement, web)) && (exists o :: o in obs && SawAt(o, step, MobileElement, mobile))
  {
    hide IsDerivation, TypeMap, SawAt, UsedBy, Joined, Quads;
    var types, g := TypeMap(d.nodes), Group(ctx.product, ids.of(StepNode, step));
    QuadsAreJoins(types, d.edges);
    JoinedIff(types, d.edges, Quad(g, ids.of(WebElement, web), ids.of(MobileElement, mobile)));
    UsesFromSight(ids, ctx, obs, d, step, WebElement, web);
    UsesFromSight(ids, ctx, obs, d, step, MobileElement, mobile);
  }
}
