/**
 * Bridges between the web and the mobile element of one step: exactly one for each pair a step uses, with
 * the best evidence there is, whatever order the edges come in.
 */
module GraphBridges {
  import opened Prelude
  import opened StableSort
  import opened TextOrder
  import opened TextSets
  import opened GraphDerive

  /** The step of one product that edges are joined on. */
  datatype Group = Group(product: string, step: string)

  datatype Quad = Quad(group: Group, web: string, mobile: string)

  /** `new Map(nodes.map(...))`: the last type given to an id. */
  function TypeMap(nodes: seq<Node>): map<string, NodeType> {
    if nodes == [] then map[]
    else TypeMap(nodes[..|nodes| - 1])[nodes[|nodes| - 1].id := nodes[|nodes| - 1].nodeType]
  }

  predicate Uses(e: Edge, g: Group, dst: string) {
    e.edgeType == "uses" && e.product == g.product && e.src == g.step && e.dst == dst
  }

  predicate Typed(types: map<string, NodeType>, id: string, t: NodeType) { id in types && types[id] == t }

  /** `preferSupport`. */
  function Prefer(left: Option<Edge>, right: Edge): Edge {
    if left == None || right.recency > left.value.recency then right
    else if right.recency < left.value.recency then left.value
    else if TextLt(right.bundleId, left.value.bundleId)
            || (right.bundleId == left.value.bundleId && right.rowid < left.value.rowid) then right
    else left.value
  }

  /** At least as good a support: more recent, then the smaller bundle id, then the smaller row. */
  predicate AsGood(a: Edge, b: Edge) {
    || a.recency > b.recency
    || (a.recency == b.recency
        && (TextLt(a.bundleId, b.bundleId) || (a.bundleId == b.bundleId && a.rowid <= b.rowid)))
  }

  /** The support kept for an element of a group after these edges. */
  function Support(edges: seq<Edge>, g: Group, dst: string): Option<Edge> {
    if edges == [] then None
    else
      var before := Support(edges[..|edges| - 1], g, dst);
      if Uses(edges[|edges| - 1], g, dst) then Some(Prefer(before, edges[|edges| - 1])) else before
  }

  lemma PreferIsBest(left: Option<Edge>, right: Edge, e: Edge)
    ensures Prefer(left, right) == right || Some(Prefer(left, right)) == left
    ensures AsGood(Prefer(left, right), right)
    ensures left.Some? && AsGood(left.value, e) ==> AsGood(Prefer(left, right), e)
  {
    TextOrderLaws();
  }

  /** The support is the best of the edges that use the element, and there is one as soon as one does. */
  lemma {:induction false} SupportIsBest(edges: seq<Edge>, g: Group, dst: string)
    ensures
      var s := Support(edges, g, dst);
      && (s.Some? ==> s.value in edges && Uses(s.value, g, dst))
      && (forall e :: e in edges && Uses(e, g, dst) ==> s.Some? && AsGood(s.value, e))
  {
    if edges != [] {
      var front, last := edges[..|edges| - 1], edges[|edges| - 1];
      SupportIsBest(front, g, dst);
      assert forall e :: e in edges <==> e in front || e == last;
      if Uses(last, g, dst) {
        forall e | e in edges && Uses(e, g, dst) ensures AsGood(Support(edges, g, dst).value, e) {
          PreferIsBest(Support(front, g, dst), last, e);
        }
        PreferIsBest(Support(front, g, dst), last, last);
      }
    }
  }

  lemma BestIsUnique(a: Edge, b: Edge, g: Group, dst: string)
    requires Uses(a, g, dst) && Uses(b, g, dst) && AsGood(a, b) && AsGood(b, a)
    ensures a == b
  {
    TextOrderLaws();
  }

  /** The support does not depend on the order or repetition of the edges. */
  lemma SupportOrderFree(a: seq<Edge>, b: seq<Edge>, g: Group, dst: string)
    requires forall e :: e in a <==> e in b
    ensures Support(a, g, dst) == Support(b, g, dst)
  {
    SupportIsBest(a, g, dst);
    SupportIsBest(b, g, dst);
    var s, t := Support(a, g, dst), Support(b, g, dst);
    if s.Some? { BestIsUnique(s.value, t.value, g, dst); }
  }

  // ----- the pairs to bridge -----

  function Elements(types: map<string, NodeType>, edges: seq<Edge>, g: Group, t: NodeType): set<string> {
    set e | e in edges && Uses(e, g, e.dst) && Typed(types, e.dst, t) :: e.dst
  }

  /** An edge that takes part in the join. */
  predicate Joins(types: map<string, NodeType>, e: Edge) {
    e.edgeType == "uses" && (Typed(types, e.dst, WebElement) || Typed(types, e.dst, MobileElement))
  }

  function Groups(types: map<string, NodeType>, edges: seq<Edge>): set<Group> {
    set e | e in edges && Joins(types, e) :: Group(e.product, e.src)
  }

  function ProductsOf(groups: set<Group>): set<string> { set g | g in groups :: g.product }

  function StepsOf(groups: set<Group>, product: string): set<string> { set g | g in groups && g.product == product :: g.step }

  function GroupsIn(product: string, steps: seq<string>): seq<Group> { Map((s: string) => Group(product, s), steps) }

  /** Groups in the order of their joined key: by product, then by step. */
  function GroupList(groups: set<Group>, products: seq<string>): seq<Group> {
    if products == [] then []
    else GroupsIn(products[0], SortedSet(StepsOf(groups, products[0]))) + GroupList(groups, products[1..])
  }

  function MobileQuads(g: Group, web: string, mobiles: seq<string>): seq<Quad> {
    Map((m: string) => Quad(g, web, m), mobiles)
  }

  function WebQuads(g: Group, webs: seq<string>, mobiles: seq<string>): seq<Quad> {
    if webs == [] then [] else MobileQuads(g, webs[0], mobiles) + WebQuads(g, webs[1..], mobiles)
  }

  function Webs(types: map<string, NodeType>, edges: seq<Edge>, g: Group): seq<string> {
    SortedSet(Elements(types, edges, g, WebElement))
  }

  function Mobiles(types: map<string, NodeType>, edges: seq<Edge>, g: Group): seq<string> {
    SortedSet(Elements(types, edges, g, MobileElement))
  }

  function GroupQuads(types: map<string, NodeType>, edges: seq<Edge>, groups: seq<Group>): seq<Quad> {
    if groups == [] then []
    else
      WebQuads(groups[0], Webs(types, edges, groups[0]), Mobiles(types, edges, groups[0]))
      + GroupQuads(types, edges, groups[1..])
  }

  function Quads(types: map<string, NodeType>, edges: seq<Edge>): seq<Quad> {
    var groups := Groups(types, edges);
    GroupQuads(types, edges, GroupList(groups, SortedSet(ProductsOf(groups))))
  }

  /** The step uses both elements. */
  predicate Joined(types: map<string, NodeType>, edges: seq<Edge>, q: Quad) {
    q.web in Elements(types, edges, q.group, WebElement) && q.mobile in Elements(types, edges, q.group, MobileElement)
  }

  lemma ElementsSupported(types: map<string, NodeType>, edges: seq<Edge>, g: Group, t: NodeType, id: string)
    ensures id in Elements(types, edges, g, t) <==> Typed(types, id, t) && Support(edges, g, id).Some?
  {
    SupportIsBest(edges, g, id);
    if Support(edges, g, id).Some? && Typed(types, id, t) {
      assert Uses(Support(edges, g, id).value, g, Support(edges, g, id).value.dst);
    }
  }

  /** The bridge of a pair: the better of the two supports vouches for it. */
  function BridgeOf(edges: seq<Edge>, q: Quad): Option<Edge> {
    var web, mobile := Support(edges, q.group, q.web), Support(edges, q.group, q.mobile);
    if web == None || mobile == None then None
    else
      var s := Prefer(web, mobile.value);
      Some(Edge(q.web, "equivalent-to", q.mobile, s.rowid, s.bundleId, s.product, s.recency))
  }

  function BridgesOf(edges: seq<Edge>, quads: seq<Quad>): seq<Edge> {
    if quads == [] then [] else OptionSeq(BridgeOf(edges, quads[0])) + BridgesOf(edges, quads[1..])
  }

  /** `deriveEquivalentToBridges`. */
  function Bridges(types: map<string, NodeType>, edges: seq<Edge>): seq<Edge> {
    Sort(BridgesOf(edges, Quads(types, edges)), EDGE_ORDER)
  }

  // ----- as the code joins them -----

  datatype Sides = Sides(web: map<string, Edge>, mobile: map<string, Edge>)

  ghost predicate SideHolds(types: map<string, NodeType>, edges: seq<Edge>, g: Group, t: NodeType, side: map<string, Edge>) {
    && (forall id :: id in side <==> Typed(types, id, t) && Support(edges, g, id).Some?)
    && (forall id :: id in side ==> Support(edges, g, id) == Some(side[id]))
  }

  ghost predicate JoinHolds(types: map<string, NodeType>, edges: seq<Edge>, groups: map<Group, Sides>) {
    && (forall g :: g in groups <==> g in Groups(types, edges))
    && (forall g :: g in groups ==>
          SideHolds(types, edges, g, WebElement, groups[g].web) && SideHolds(types, edges, g, MobileElement, groups[g].mobile))
  }

  lemma NoGroupNoSupport(types: map<string, NodeType>, edges: seq<Edge>, g: Group, id: string)
    requires g !in Groups(types, edges) && (Typed(types, id, WebElement) || Typed(types, id, MobileElement))
    ensures Support(edges, g, id) == None
  {
    SupportIsBest(edges, g, id);
  }

  /** An edge of another group or element leaves a side alone; one of this side updates its own entry. */
  lemma SideStep(types: map<string, NodeType>, front: seq<Edge>, last: Edge, g: Group, t: NodeType, side: map<string, Edge>)
    requires SideHolds(types, front, g, t, side)
    ensures
      SideHolds(types, front + [last], g, t,
                if Uses(last, g, last.dst) && Typed(types, last.dst, t) then
                  side[last.dst := Prefer(Support(front, g, last.dst), last)]
                else side)
  {
    assert (front + [last])[..|front|] == front;
  }

  lemma EmptySides(types: map<string, NodeType>, edges: seq<Edge>, g: Group)
    requires g !in Groups(types, edges)
    ensures SideHolds(types, edges, g, WebElement, map[]) && SideHolds(types, edges, g, MobileElement, map[])
  {
    forall id | Typed(types, id, WebElement) || Typed(types, id, MobileElement) ensures Support(edges, g, id) == None {
      NoGroupNoSupport(types, edges, g, id);
    }
  }

  lemma GroupsStep(types: map<string, NodeType>, front: seq<Edge>, last: Edge)
    ensures Groups(types, front + [last]) ==
            Groups(types, front) + (if Joins(types, last) then {Group(last.product, last.src)} else {})
  {
    assert forall e :: e in front + [last] <==> e in front || e == last;
  }

  /** One edge's turn of the join. */
  function JoinedWith(types: map<string, NodeType>, groups: map<Group, Sides>, e: Edge): map<Group, Sides>
    requires Joins(types, e)
  {
    var g := Group(e.product, e.src);
    var sides := if g in groups then groups[g] else Sides(map[], map[]);
    var side := if types[e.dst].WebElement? then sides.web else sides.mobile;
    var support := Prefer(if e.dst in side then Some(side[e.dst]) else None, e);
    groups[g := if types[e.dst].WebElement? then sides.(web := side[e.dst := support])
                else sides.(mobile := side[e.dst := support])]
  }

  lemma JoinStep(types: map<string, NodeType>, front: seq<Edge>, e: Edge, groups: map<Group, Sides>)
    requires JoinHolds(types, front, groups)
    ensures JoinHolds(types, front + [e], if Joins(types, e) then JoinedWith(types, groups, e) else groups)
  {
    hide Support, SideHolds, Groups;
    var after := if Joins(types, e) then JoinedWith(types, groups, e) else groups;
    GroupsStep(types, front, e);
    forall g | g in after
      ensures SideHolds(types, front + [e], g, WebElement, after[g].web)
      ensures SideHolds(types, front + [e], g, MobileElement, after[g].mobile)
    {
      if g !in groups { EmptySides(types, front, g); }
      var sides := if g in groups then groups[g] else Sides(map[], map[]);
      SideStep(types, front, e, g, WebElement, sides.web);
      SideStep(types, front, e, g, MobileElement, sides.mobile);
      SideEntry(types, front, g, WebElement, sides.web, e.dst);
      SideEntry(types, front, g, MobileElement, sides.mobile, e.dst);
    }
  }

  lemma SideEntry(types: map<string, NodeType>, edges: seq<Edge>, g: Group, t: NodeType, side: map<string, Edge>, id: string)
    requires SideHolds(types, edges, g, t, side)
    ensures Typed(types, id, t) ==> Support(edges, g, id) == (if id in side then Some(side[id]) else None)
  {
  }

  method JoinEdges(types: map<string, NodeType>, edges: seq<Edge>) returns (groups: map<Group, Sides>)
    ensures JoinHolds(types, edges, groups)
  {
    hide JoinHolds, Support;
    groups := map[];
    assert JoinHolds(types, [], groups) by { NothingJoined(types); }
    for i := 0 to |edges|
      invariant JoinHolds(types, edges[..i], groups)
    {
      var edge := edges[i];
      assert edges[..i + 1] == edges[..i] + [edge];
      JoinStep(types, edges[..i], edge, groups);
      if !Joins(types, edge) { continue; }
      groups := JoinedWith(types, groups, edge);
    }
    assert edges[..|edges|] == edges;
  }

  lemma NothingJoined(types: map<string, NodeType>)
    ensures JoinHolds(types, [], map[])
  {
  }

  lemma SideKeys(types: map<string, NodeType>, edges: seq<Edge>, g: Group, t: NodeType, side: map<string, Edge>)
    requires SideHolds(types, edges, g, t, side)
    ensures side.Keys == Elements(types, edges, g, t)
  {
    hide Elements;
    forall id ensures id in side.Keys <==> id in Elements(types, edges, g, t) { ElementsSupported(types, edges, g, t, id); }
  }

  lemma {:induction false} BridgeStep(edges: seq<Edge>, quads: seq<Quad>, q: Quad)
    ensures BridgesOf(edges, quads + [q]) == BridgesOf(edges, quads) + OptionSeq(BridgeOf(edges, q))
    decreases quads
  {
    hide BridgeOf;
    if quads == [] {
      assert quads + [q] == [q] && [q][1..] == [];
    } else {
      assert (quads + [q])[1..] == quads[1..] + [q];
      BridgeStep(edges, quads[1..], q);
    }
  }

  /** The innermost loop: one web element against every mobile element of its group. */
  method BridgeRow(types: map<string, NodeType>, edges: seq<Edge>, g: Group, web: string, sides: Sides, mobiles: seq<string>)
    returns (bridges: seq<Edge>)
    requires SideHolds(types, edges, g, WebElement, sides.web) && SideHolds(types, edges, g, MobileElement, sides.mobile)
    requires web in sides.web && forall m :: m in mobiles ==> m in sides.mobile
    ensures bridges == BridgesOf(edges, MobileQuads(g, web, mobiles))
  {
    hide Support;
    bridges := [];
    for j := 0 to |mobiles|
      invariant bridges == BridgesOf(edges, MobileQuads(g, web, mobiles[..j]))
    {
      var mobile := mobiles[j];
      assert mobiles[..j + 1] == mobiles[..j] + [mobile];
      assert MobileQuads(g, web, mobiles[..j + 1]) == MobileQuads(g, web, mobiles[..j]) + [Quad(g, web, mobile)];
      BridgeStep(edges, MobileQuads(g, web, mobiles[..j]), Quad(g, web, mobile));
      var support := Prefer(Some(sides.web[web]), sides.mobile[mobile]);
      bridges := bridges + [Edge(web, "equivalent-to", mobile, support.rowid, support.bundleId, support.product, support.recency)];
    }
    assert mobiles[..|mobiles|] == mobiles;
  }

  /** The two inner loops: every web element of a group against every mobile element, both in id order. */
  method BridgeGroup(types: map<string, NodeType>, edges: seq<Edge>, g: Group, sides: Sides)
    returns (bridges: seq<Edge>)
    requires SideHolds(types, edges, g, WebElement, sides.web) && SideHolds(types, edges, g, MobileElement, sides.mobile)
    ensures bridges == BridgesOf(edges, WebQuads(g, Webs(types, edges, g), Mobiles(types, edges, g)))
  {
    hide SideHolds, Elements, BridgesOf, MobileQuads;
    SideKeys(types, edges, g, WebElement, sides.web);
    SideKeys(types, edges, g, MobileElement, sides.mobile);
    var webs, mobiles := SortedSet(sides.web.Keys), SortedSet(sides.mobile.Keys);
    bridges := [];
    assert BridgesOf(edges, []) == [] by { NoBridges(edges); }
    for i := 0 to |webs|
      invariant bridges == BridgesOf(edges, WebQuads(g, webs[..i], mobiles))
    {
      assert webs[..i + 1] == webs[..i] + [webs[i]];
      WebQuadsLast(g, webs[..i], webs[i], mobiles);
      BridgesAppend(edges, WebQuads(g, webs[..i], mobiles), MobileQuads(g, webs[i], mobiles));
      var row := BridgeRow(types, edges, g, webs[i], sides, mobiles);
      bridges := bridges + row;
    }
    assert webs[..|webs|] == webs;
  }

  lemma {:induction false} WebQuadsLast(g: Group, webs: seq<string>, web: string, mobiles: seq<string>)
    ensures WebQuads(g, webs + [web], mobiles) == WebQuads(g, webs, mobiles) + MobileQuads(g, web, mobiles)
  {
    hide MobileQuads;
    if webs == [] {
      assert webs + [web] == [web] && [web][1..] == [];
    } else {
      assert (webs + [web])[1..] == webs[1..] + [web];
      WebQuadsLast(g, webs[1..], web, mobiles);
    }
  }

  lemma {:induction false} BridgesAppend(edges: seq<Edge>, a: seq<Quad>, b: seq<Quad>)
    ensures BridgesOf(edges, a + b) == BridgesOf(edges, a) + BridgesOf(edges, b)
  {
    hide BridgeOf;
    if a == [] {
      assert a + b == b;
    } else {
      assert (a + b)[1..] == a[1..] + b;
      BridgesAppend(edges, a[1..], b);
    }
  }

  /** The outer loop: the groups in key order. */
  method BridgeGroups(types: map<string, NodeType>, edges: seq<Edge>, groups: map<Group, Sides>, keys: seq<Group>)
    returns (bridges: seq<Edge>)
    requires JoinHolds(types, edges, groups) && forall g :: g in keys ==> g in groups
    ensures bridges == BridgesOf(edges, GroupQuads(types, edges, keys))
  {
    hide BridgesOf, SideHolds, Groups, WebQuads, Webs, Mobiles;
    bridges := [];
    assert BridgesOf(edges, []) == [] by { NoBridges(edges); }
    for i := 0 to |keys|
      invariant bridges == BridgesOf(edges, GroupQuads(types, edges, keys[..i]))
    {
      var g := keys[i];
      assert keys[..i + 1] == keys[..i] + [g] && g in keys;
      GroupQuadsLast(types, edges, keys[..i], g);
      BridgesAppend(edges, GroupQuads(types, edges, keys[..i]), WebQuads(g, Webs(types, edges, g), Mobiles(types, edges, g)));
      var more := BridgeGroup(types, edges, g, groups[g]);
      bridges := bridges + more;
    }
    assert keys[..|keys|] == keys;
  }

  lemma {:induction false} GroupQuadsLast(types: map<string, NodeType>, edges: seq<Edge>, groups: seq<Group>, g: Group)
    ensures GroupQuads(types, edges, groups + [g]) ==
            GroupQuads(types, edges, groups) + WebQuads(g, Webs(types, edges, g), Mobiles(types, edges, g))
    decreases groups
  {
    hide WebQuads, Webs, Mobiles;
    if groups == [] {
      assert groups + [g] == [g] && [g][1..] == [];
    } else {
      assert (groups + [g])[1..] == groups[1..] + [g];
      GroupQuadsLast(types, edges, groups[1..], g);
    }
  }

  method DeriveEquivalentToBridges(nodes: seq<Node>, edges: seq<Edge>) returns (bridges: seq<Edge>)
    ensures bridges == Bridges(TypeMap(nodes), edges)
  {
    hide SideHolds, Groups, BridgesOf, GroupList, GroupQuads;
    var types := TypeMap(nodes);
    var sorted := Sort(edges, EDGE_ORDER);
    var groups := JoinEdges(types, sorted);
    assert groups.Keys == Groups(types, sorted);
    var keys := GroupList(groups.Keys, SortedSet(ProductsOf(groups.Keys)));
    GroupListMembers(groups.Keys);
    var collected := BridgeGroups(types, sorted, groups, keys);
    BridgesOrderFree(types, sorted, edges);
    bridges := Sort(collected, EDGE_ORDER);
  }

  lemma NoBridges(edges: seq<Edge>)
    ensures BridgesOf(edges, []) == []
  {
  }

  // ----- each pair once -----

  lemma GroupsInMembers(product: string, steps: seq<string>, g: Group)
    ensures g in GroupsIn(product, steps) <==> g.product == product && g.step in steps
  {
    var list := GroupsIn(product, steps);
    if g.product == product && g.step in steps {
      var k :| 0 <= k < |steps| && steps[k] == g.step;
      assert list[k] == g;
    }
  }

  lemma {:induction false} GroupListIn(groups: set<Group>, products: seq<string>)
    requires Distinct(products)
    ensures forall g :: g in GroupList(groups, products) <==> g in groups && g.product in products
    ensures Distinct(GroupList(groups, products))
  {
    if products != [] {
      GroupListIn(groups, products[1..]);
      var p := products[0];
      var steps := SortedSet(StepsOf(groups, p));
      var head, tail := GroupsIn(p, steps), GroupList(groups, products[1..]);
      forall g ensures g in head <==> g in groups && g.product == p { GroupsInMembers(p, steps, g); }
      assert p !in products[1..];
      assert forall i, j :: 0 <= i < j < |head| ==> head[i] != head[j];
      DistinctConcat(head, tail);
    }
  }

  lemma DistinctConcat<T(!new)>(a: seq<T>, b: seq<T>)
    requires Distinct(a) && Distinct(b) && forall x :: x in a ==> x !in b
    ensures Distinct(a + b)
  {
    forall i, j | 0 <= i < j < |a + b| ensures (a + b)[i] != (a + b)[j] {
      if i < |a| <= j { assert a[i] in a && b[j - |a|] in b; }
    }
  }

  lemma IncreasingDistinct(s: seq<string>)
    requires Increasing(s)
    ensures Distinct(s)
  {
  }

  lemma GroupListMembers(groups: set<Group>)
    ensures
      var list := GroupList(groups, SortedSet(ProductsOf(groups)));
      (forall g :: g in list <==> g in groups) && Distinct(list)
  {
    IncreasingDistinct(SortedSet(ProductsOf(groups)));
    GroupListIn(groups, SortedSet(ProductsOf(groups)));
  }

  lemma MobileQuadsIn(g: Group, web: string, mobiles: seq<string>)
    requires Distinct(mobiles)
    ensures forall q :: q in MobileQuads(g, web, mobiles) <==> q.group == g && q.web == web && q.mobile in mobiles
    ensures Distinct(MobileQuads(g, web, mobiles))
  {
    var quads := MobileQuads(g, web, mobiles);
    forall q: Quad | q.group == g && q.web == web && q.mobile in mobiles ensures q in quads {
      var k :| 0 <= k < |mobiles| && mobiles[k] == q.mobile;
      assert quads[k] == q;
    }
  }

  lemma {:induction false} WebQuadsIn(g: Group, webs: seq<string>, mobiles: seq<string>)
    requires Distinct(webs) && Distinct(mobiles)
    ensures forall q :: q in WebQuads(g, webs, mobiles) <==> q.group == g && q.web in webs && q.mobile in mobiles
    ensures Distinct(WebQuads(g, webs, mobiles))
  {
    if webs != [] {
      WebQuadsIn(g, webs[1..], mobiles);
      MobileQuadsIn(g, webs[0], mobiles);
      assert webs[0] !in webs[1..];
      DistinctConcat(MobileQuads(g, webs[0], mobiles), WebQuads(g, webs[1..], mobiles));
    }
  }

  lemma {:induction false} GroupQuadsIn(types: map<string, NodeType>, edges: seq<Edge>, groups: seq<Group>)
    requires Distinct(groups)
    ensures forall q :: q in GroupQuads(types, edges, groups) <==> q.group in groups && Joined(types, edges, q)
    ensures Distinct(GroupQuads(types, edges, groups))
  {
    hide Elements;
    if groups != [] {
      var g := groups[0];
      GroupQuadsIn(types, edges, groups[1..]);
      IncreasingDistinct(Webs(types, edges, g));
      IncreasingDistinct(Mobiles(types, edges, g));
      WebQuadsIn(g, Webs(types, edges, g), Mobiles(types, edges, g));
      assert g !in groups[1..];
      DistinctConcat(WebQuads(g, Webs(types, edges, g), Mobiles(types, edges, g)), GroupQuads(types, edges, groups[1..]));
    }
  }

  lemma JoinedGroups(types: map<string, NodeType>, edges: seq<Edge>, q: Quad)
    requires Joined(types, edges, q)
    ensures q.group in Groups(types, edges)
  {
    var e :| e in edges && Uses(e, q.group, e.dst) && Typed(types, e.dst, WebElement) && e.dst == q.web;
    assert Group(e.product, e.src) == q.group;
  }

  /** The pairs bridged are exactly the pairs a step uses on both sides, each once. */
  lemma QuadsAreJoins(types: map<string, NodeType>, edges: seq<Edge>)
    ensures Distinct(Quads(types, edges))
    ensures forall q :: q in Quads(types, edges) <==> Joined(types, edges, q)
  {
    hide Groups, Joined;
    var groups := Groups(types, edges);
    GroupListMembers(groups);
    GroupQuadsIn(types, edges, GroupList(groups, SortedSet(ProductsOf(groups))));
    forall q | Joined(types, edges, q) ensures q.group in groups { JoinedGroups(types, edges, q); }
  }

  lemma {:induction false} OneEach(types: map<string, NodeType>, edges: seq<Edge>, quads: seq<Quad>)
    requires forall q :: q in quads ==> Joined(types, edges, q)
    ensures |BridgesOf(edges, quads)| == |quads|
    ensures forall i :: 0 <= i < |quads| ==> BridgeOf(edges, quads[i]) == Some(BridgesOf(edges, quads)[i])
  {
    hide Elements, BridgeOf;
    if quads != [] {
      assert quads[0] in quads;
      JoinedHasBridge(types, edges, quads[0]);
      OneEach(types, edges, quads[1..]);
    }
  }

  lemma JoinedHasBridge(types: map<string, NodeType>, edges: seq<Edge>, q: Quad)
    requires Joined(types, edges, q)
    ensures BridgeOf(edges, q).Some?
  {
    hide Elements, Support;
    ElementsSupported(types, edges, q.group, WebElement, q.web);
    ElementsSupported(types, edges, q.group, MobileElement, q.mobile);
  }

  /**
   * There is exactly one bridge for each (product, step, web element, mobile element) such that the step
   * uses both, and the list is sorted.
   */
  lemma ExactlyOneBridge(types: map<string, NodeType>, edges: seq<Edge>)
    ensures
      var quads := Quads(types, edges);
      var bridges := BridgesOf(edges, quads);
      && Distinct(quads) && (forall q :: q in quads <==> Joined(types, edges, q))
      && |bridges| == |quads| && (forall i :: 0 <= i < |quads| ==> BridgeOf(edges, quads[i]) == Some(bridges[i]))
      && multiset(Bridges(types, edges)) == multiset(bridges)
      && Sorted(Bridges(types, edges), EDGE_ORDER)
  {
    hide Quads, Joined, BridgesOf, BridgeOf;
    QuadsAreJoins(types, edges);
    OneEach(types, edges, Quads(types, edges));
    EdgeOrderLaws();
    SortSorted(BridgesOf(edges, Quads(types, edges)), EDGE_ORDER);
  }

  /** A bridge quotes an edge the step really has, and no edge of the step to either element is better evidence. */
  lemma BridgeIsBestSupported(types: map<string, NodeType>, edges: seq<Edge>, q: Quad)
    requires Joined(types, edges, q)
    ensures
      var b := BridgeOf(edges, q);
      b.Some? && b.value.src == q.web && b.value.dst == q.mobile && b.value.product == q.group.product
      && exists s :: s in edges && (Uses(s, q.group, q.web) || Uses(s, q.group, q.mobile))
           && b.value.rowid == s.rowid && b.value.bundleId == s.bundleId && b.value.recency == s.recency
           && forall e :: e in edges && (Uses(e, q.group, q.web) || Uses(e, q.group, q.mobile)) ==> AsGood(s, e)
  {
    hide Elements, Support, AsGood;
    JoinedHasBridge(types, edges, q);
    SupportIsBest(edges, q.group, q.web);
    SupportIsBest(edges, q.group, q.mobile);
    var web, mobile := Support(edges, q.group, q.web), Support(edges, q.group, q.mobile);
    var s := Prefer(web, mobile.value);
    forall e | e in edges && (Uses(e, q.group, q.web) || Uses(e, q.group, q.mobile)) ensures AsGood(s, e) {
      PreferIsBest(web, mobile.value, e);
      PreferIsBest(web, mobile.value, mobile.value);
      PreferBeats(web, mobile.value, e);
    }
  }

  lemma PreferBeats(left: Option<Edge>, right: Edge, e: Edge)
    requires (left.Some? && AsGood(left.value, e)) || AsGood(right, e)
    ensures AsGood(Prefer(left, right), e)
  {
    TextOrderLaws();
  }

  // ----- the order of the input -----

  lemma SameElements(types: map<string, NodeType>, a: seq<Edge>, b: seq<Edge>, g: Group, t: NodeType)
    requires forall e :: e in a <==> e in b
    ensures Elements(types, a, g, t) == Elements(types, b, g, t)
  {
  }

  lemma {:induction false} SameGroupQuads(types: map<string, NodeType>, a: seq<Edge>, b: seq<Edge>, groups: seq<Group>)
    requires forall e :: e in a <==> e in b
    ensures GroupQuads(types, a, groups) == GroupQuads(types, b, groups)
  {
    hide Elements;
    if groups != [] {
      SameElements(types, a, b, groups[0], WebElement);
      SameElements(types, a, b, groups[0], MobileElement);
      SameGroupQuads(types, a, b, groups[1..]);
    }
  }

  lemma {:induction false} SameBridges(a: seq<Edge>, b: seq<Edge>, quads: seq<Quad>)
    requires forall e :: e in a <==> e in b
    ensures BridgesOf(a, quads) == BridgesOf(b, quads)
  {
    hide Support;
    if quads != [] {
      SupportOrderFree(a, b, quads[0].group, quads[0].web);
      SupportOrderFree(a, b, quads[0].group, quads[0].mobile);
      SameBridges(a, b, quads[1..]);
    }
  }

  /** The bridges are the same for every order and repetition of the edges. */
  lemma BridgesOrderFree(types: map<string, NodeType>, a: seq<Edge>, b: seq<Edge>)
    requires forall e :: e in a <==> e in b
    ensures Bridges(types, a) == Bridges(types, b) && BridgesOf(a, Quads(types, a)) == BridgesOf(b, Quads(types, b))
  {
    hide GroupQuads, BridgesOf;
    assert Groups(types, a) == Groups(types, b);
    var groups := Groups(types, a);
    SameGroupQuads(types, a, b, GroupList(groups, SortedSet(ProductsOf(groups))));
    SameBridges(a, b, Quads(types, a));
  }
}
