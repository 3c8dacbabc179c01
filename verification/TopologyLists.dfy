/** How adding and removing links and nodes changes the link lists at the nodes. */
module TopologyLists {
  import opened Lists
  import opened TopologyPaths

  /** Module ids are compared as unsigned numbers, so that -1 comes last. */
  function Key(moduleId: Int32): nat { if moduleId < 0 then moduleId + 0x1_0000_0000 else moduleId }

  predicate ById(order: seq<NodeId>, nodes: map<NodeId, Node>) {
    forall i, j :: 0 <= i < j < |order| && order[i] in nodes && order[j] in nodes ==>
      Key(nodes[order[i]].moduleId) <= Key(nodes[order[j]].moduleId)
  }

  /** The nodes, each once, in the order of their module ids. */
  ghost predicate Ordered(order: seq<NodeId>, nodes: map<NodeId, Node>) {
    NoDup(order) && ById(order, nodes) && forall v :: v in order <==> v in nodes
  }

  /** A topology: the linked graph, its nodes in order, and results of a search for each of them. */
  ghost predicate Whole(g: Graph, order: seq<NodeId>, dist: map<NodeId, Num>, out: map<NodeId, seq<LinkId>>) {
    Linked(g) && Ordered(order, g.nodes) && dist.Keys == g.nodes.Keys && out.Keys == g.nodes.Keys
  }

  lemma Relabelled(g: Graph, order: seq<NodeId>, dist: map<NodeId, Num>, out: map<NodeId, seq<LinkId>>,
                   dist': map<NodeId, Num>, out': map<NodeId, seq<LinkId>>)
    requires Whole(g, order, dist, out) && dist'.Keys == dist.Keys && out'.Keys == out.Keys
    ensures Whole(g, order, dist', out')
  {
  }

  /** Where a node with this module id belongs in the order. */
  predicate InPlace(order: seq<NodeId>, nodes: map<NodeId, Node>, p: int, moduleId: Int32) {
    && 0 <= p <= |order|
    && (forall i :: 0 <= i < p && order[i] in nodes ==> Key(nodes[order[i]].moduleId) <= Key(moduleId))
    && (forall i :: p <= i < |order| && order[i] in nodes ==> Key(moduleId) <= Key(nodes[order[i]].moduleId))
  }

  /** s without the first x. */
  function Erase<T(==)>(s: seq<T>, x: T): seq<T> {
    if s == [] then [] else if s[0] == x then s[1..] else [s[0]] + Erase(s[1..], x)
  }

  lemma {:induction false} EraseMembers<T>(s: seq<T>, x: T)
    requires NoDup(s)
    ensures forall y :: y in Erase(s, x) <==> y in s && y != x
    ensures NoDup(Erase(s, x))
  {
    if s != [] {
      var r := s[1..];
      assert s == [s[0]] + r;
      EraseMembers(r, x);
      if s[0] != x {
        var e := Erase(r, x);
        forall j | 0 <= j < |e| ensures e[j] != s[0] { assert e[j] in e; }
      }
    }
  }

  lemma AppendMembers<T>(s: seq<T>, x: T)
    requires NoDup(s) && x !in s
    ensures NoDup(s + [x]) && forall y :: y in s + [x] <==> y in s || y == x
  {
  }

  /** The nodes without link l in the list of its source and of its destination. */
  function Unlisted(g: Graph, l: LinkId): map<NodeId, Node>
    requires l in g.links && g.links[l].src in g.nodes && g.links[l].dest in g.nodes
  {
    var s, d := g.links[l].src, g.links[l].dest;
    var n := g.nodes[s := g.nodes[s].(outLinks := Erase(g.nodes[s].outLinks, l))];
    n[d := n[d].(inLinks := Erase(n[d].inLinks, l))]
  }

  /** Its lists, node by node. */
  lemma UnlistedAt(g: Graph, l: LinkId, v: NodeId)
    requires l in g.links && g.links[l].src in g.nodes && g.links[l].dest in g.nodes && v in g.nodes
    ensures v in Unlisted(g, l)
    ensures var n := Unlisted(g, l)[v]; var o := g.nodes[v];
            n == o.(inLinks := if v == g.links[l].dest then Erase(o.inLinks, l) else o.inLinks,
                    outLinks := if v == g.links[l].src then Erase(o.outLinks, l) else o.outLinks)
  {
  }

  /** The list s holds exactly the links that end (or begin) at v. */
  ghost predicate ListOk(links: map<LinkId, Link>, s: seq<LinkId>, v: NodeId, incoming: bool) {
    NoDup(s) && forall k :: k in s <==> k in links && (if incoming then links[k].dest else links[k].src) == v
  }

  ghost predicate ListsOk(g: Graph, v: NodeId)
    requires v in g.nodes
  {
    ListOk(g.links, g.nodes[v].inLinks, v, true) && ListOk(g.links, g.nodes[v].outLinks, v, false)
  }

  lemma ListsOf(g: Graph, v: NodeId)
    requires Linked(g) && v in g.nodes
    ensures ListsOk(g, v)
  {
  }

  lemma LinkedByLists(g: Graph)
    requires EndsExist(g) && forall v :: v in g.nodes ==> ListsOk(g, v)
    ensures Linked(g)
  {
    forall v | v in g.nodes ensures NoDup(g.nodes[v].inLinks) && NoDup(g.nodes[v].outLinks) {
      assert ListsOk(g, v);
    }
    forall v, k | v in g.nodes ensures k in g.nodes[v].inLinks <==> k in g.links && g.links[k].dest == v {
      assert ListsOk(g, v);
    }
    forall v, k | v in g.nodes ensures k in g.nodes[v].outLinks <==> k in g.links && g.links[k].src == v {
      assert ListsOk(g, v);
    }
  }

  lemma ListErased(links: map<LinkId, Link>, s: seq<LinkId>, v: NodeId, incoming: bool, l: LinkId)
    requires ListOk(links, s, v, incoming)
    ensures ListOk(links - {l}, Erase(s, l), v, incoming)
    ensures l in links && (if incoming then links[l].dest else links[l].src) != v
            ==> ListOk(links - {l}, s, v, incoming)
  {
    EraseMembers(s, l);
  }

  lemma UnlinkLinked(g: Graph, l: LinkId)
    requires Linked(g) && l in g.links
    ensures Linked(Graph(Unlisted(g, l), g.links - {l})) && Unlisted(g, l).Keys == g.nodes.Keys
  {
    var h := Graph(Unlisted(g, l), g.links - {l});
    forall v | v in h.nodes ensures ListsOk(h, v) {
      ListsOf(g, v);
      UnlistedAt(g, l, v);
      ListErased(g.links, g.nodes[v].inLinks, v, true, l);
      ListErased(g.links, g.nodes[v].outLinks, v, false, l);
    }
    LinkedByLists(h);
  }

  /** The nodes with link l at the end of the list of its source and of its destination. */
  function AlsoListed(nodes: map<NodeId, Node>, l: LinkId, s: NodeId, d: NodeId): map<NodeId, Node>
    requires s in nodes && d in nodes
  {
    var n := nodes[s := nodes[s].(outLinks := nodes[s].outLinks + [l])];
    n[d := n[d].(inLinks := n[d].inLinks + [l])]
  }

  lemma ListExtended(links: map<LinkId, Link>, s: seq<LinkId>, v: NodeId, incoming: bool, l: LinkId, link: Link)
    requires ListOk(links, s, v, incoming) && l !in links
    ensures var end := if incoming then link.dest else link.src;
            ListOk(links[l := link], if end == v then s + [l] else s, v, incoming)
  {
    AppendMembers(s, l);
  }

  lemma AttachLinked(g: Graph, l: LinkId, link: Link)
    requires Linked(g) && l !in g.links && link.src in g.nodes && link.dest in g.nodes
    ensures Linked(Graph(AlsoListed(g.nodes, l, link.src, link.dest), g.links[l := link]))
  {
    var h := Graph(AlsoListed(g.nodes, l, link.src, link.dest), g.links[l := link]);
    forall v | v in h.nodes ensures ListsOk(h, v) {
      ListsOf(g, v);
      ListExtended(g.links, g.nodes[v].inLinks, v, true, l, link);
      ListExtended(g.links, g.nodes[v].outLinks, v, false, l, link);
    }
    LinkedByLists(h);
  }

  /** A node without links is added or removed. */
  lemma IsolatedAdded(g: Graph, v: NodeId, n: Node)
    requires Linked(g) && v !in g.nodes && n.inLinks == [] && n.outLinks == []
    ensures Linked(Graph(g.nodes[v := n], g.links))
  {
  }

  lemma IsolatedRemoved(g: Graph, v: NodeId)
    requires Linked(g) && v in g.nodes && g.nodes[v].inLinks == [] && g.nodes[v].outLinks == []
    ensures Linked(Graph(g.nodes - {v}, g.links))
    ensures forall l :: l in g.links ==> g.links[l].src != v && g.links[l].dest != v
  {
    forall l | l in g.links ensures g.links[l].src != v && g.links[l].dest != v {
      assert l !in g.nodes[v].inLinks && l !in g.nodes[v].outLinks;
    }
  }

  /** The order with v at place p. */
  lemma OrderInserted(order: seq<NodeId>, nodes: map<NodeId, Node>, p: nat, v: NodeId, n: Node)
    requires Ordered(order, nodes) && v !in nodes && InPlace(order, nodes, p, n.moduleId)
    ensures Ordered(PutAt(order, p, v), nodes[v := n])
  {
    PutPoints(order, p, v);
    PutMembers(order, p, v);
    PutNoDup(order, p, v);
    var o, m := PutAt(order, p, v), nodes[v := n];
    forall i, j | 0 <= i < j < |o| && o[i] in m && o[j] in m ensures Key(m[o[i]].moduleId) <= Key(m[o[j]].moduleId) {
      if i != p { assert order[if i < p then i else i - 1] in order; }
      if j != p { assert order[if j < p then j else j - 1] in order; }
    }
  }

  lemma NodeAdded(g: Graph, order: seq<NodeId>, dist: map<NodeId, Num>, out: map<NodeId, seq<LinkId>>, p: nat,
                  v: NodeId, n: Node)
    requires Whole(g, order, dist, out) && v !in g.nodes && InPlace(order, g.nodes, p, n.moduleId)
    requires n.inLinks == [] && n.outLinks == []
    ensures Whole(Graph(g.nodes[v := n], g.links), PutAt(order, p, v), dist[v := Inf], out[v := []])
  {
    OrderInserted(order, g.nodes, p, v, n);
    IsolatedAdded(g, v, n);
  }

  lemma {:induction false} EraseOrder(order: seq<NodeId>, nodes: map<NodeId, Node>, v: NodeId)
    requires NoDup(order) && ById(order, nodes)
    ensures ById(Erase(order, v), nodes)
  {
    if order != [] && order[0] != v {
      var r := order[1..];
      EraseOrder(r, nodes, v);
      EraseMembers(r, v);
      var e := Erase(r, v);
      forall j | 0 <= j < |e| && e[j] in nodes && order[0] in nodes
        ensures Key(nodes[order[0]].moduleId) <= Key(nodes[e[j]].moduleId)
      {
        assert e[j] in r;
      }
    }
  }

  /** The same nodes, differing in nothing but their link lists. */
  ghost predicate OnlyLists(nodes: map<NodeId, Node>, nodes': map<NodeId, Node>) {
    && nodes'.Keys == nodes.Keys
    && forall v :: v in nodes ==> nodes'[v] == nodes[v].(inLinks := nodes'[v].inLinks, outLinks := nodes'[v].outLinks)
  }

  /** Links disappeared only at v, and the others are unchanged. */
  ghost predicate OnlyLinksOf(links: map<LinkId, Link>, links': map<LinkId, Link>, v: NodeId) {
    && (forall l :: l in links' ==> l in links && links'[l] == links[l])
    && (forall l :: l in links ==> l in links' || links[l].src == v || links[l].dest == v)
  }

  predicate LastListed(nodes: map<NodeId, Node>, src: NodeId, dest: NodeId, l: LinkId) {
    && src in nodes && dest in nodes
    && nodes[src].outLinks != [] && nodes[src].outLinks[|nodes[src].outLinks| - 1] == l
    && nodes[dest].inLinks != [] && nodes[dest].inLinks[|nodes[dest].inLinks| - 1] == l
  }

  lemma UnlistedOnly(g: Graph, l: LinkId)
    requires l in g.links && g.links[l].src in g.nodes && g.links[l].dest in g.nodes
    ensures OnlyLists(g.nodes, Unlisted(g, l))
  {
    forall v | v in g.nodes
      ensures v in Unlisted(g, l)
              && Unlisted(g, l)[v] == g.nodes[v].(inLinks := Unlisted(g, l)[v].inLinks,
                  outLinks := Unlisted(g, l)[v].outLinks)
    {
      UnlistedAt(g, l, v);
    }
  }

  lemma OnlyListsOrder(order: seq<NodeId>, nodes: map<NodeId, Node>, nodes': map<NodeId, Node>)
    requires ById(order, nodes) && forall v :: v in nodes' && v in order ==>
               v in nodes && nodes'[v].moduleId == nodes[v].moduleId
    ensures ById(order, nodes')
  {
    forall i, j | 0 <= i < j < |order| && order[i] in nodes' && order[j] in nodes'
      ensures Key(nodes'[order[i]].moduleId) <= Key(nodes'[order[j]].moduleId)
    {
      assert order[i] in order && order[j] in order;
    }
  }

  lemma EraseFirst<T>(s: seq<T>)
    requires s != []
    ensures Erase(s, s[0]) == s[1..]
  {
  }

  lemma OnlyListsTrans(n: map<NodeId, Node>, n': map<NodeId, Node>, n'': map<NodeId, Node>)
    requires OnlyLists(n, n') && OnlyLists(n', n'')
    ensures OnlyLists(n, n'')
  {
  }

  lemma OnlyLinksTrans(k: map<LinkId, Link>, k': map<LinkId, Link>, k'': map<LinkId, Link>, v: NodeId)
    requires OnlyLinksOf(k, k', v) && OnlyLinksOf(k', k'', v)
    ensures OnlyLinksOf(k, k'', v)
  {
  }

  lemma ListedLast(nodes: map<NodeId, Node>, l: LinkId, s: NodeId, d: NodeId)
    requires s in nodes && d in nodes
    ensures OnlyLists(nodes, AlsoListed(nodes, l, s, d)) && LastListed(AlsoListed(nodes, l, s, d), s, d, l)
  {
  }

  // ------------------------------------------------------------ deleting the links of a node one by one

  function ListOf(nodes: map<NodeId, Node>, v: NodeId, incoming: bool): seq<LinkId>
    requires v in nodes
  {
    if incoming then nodes[v].inLinks else nodes[v].outLinks
  }

  function WithList(nodes: map<NodeId, Node>, v: NodeId, incoming: bool, s: seq<LinkId>): map<NodeId, Node>
    requires v in nodes
  {
    nodes[v := if incoming then nodes[v].(inLinks := s) else nodes[v].(outLinks := s)]
  }

  /** Apart from its first i entries, which are already deleted links, the list at v is right, and so
      is everything else. For incoming links the outgoing ones are gone. */
  ghost predicate PartlyCut(vnodes: map<NodeId, Node>, links: map<LinkId, Link>, v: NodeId, incoming: bool,
                            s: seq<LinkId>, i: nat) {
    && Linked(Graph(vnodes, links)) && v in vnodes && i <= |s| && ListOf(vnodes, v, incoming) == s[i..]
    && (incoming ==> vnodes[v].outLinks == [])
  }

  lemma CutStep(n0: map<NodeId, Node>, k0: map<LinkId, Link>, vnodes: map<NodeId, Node>, links: map<LinkId, Link>,
                v: NodeId, incoming: bool, s: seq<LinkId>, i: nat)
    requires PartlyCut(vnodes, links, v, incoming, s, i) && i < |s| && OnlyLists(n0, vnodes)
             && OnlyLinksOf(k0, links, v)
    ensures s[i] in links && links[s[i]].src in vnodes && links[s[i]].dest in vnodes
    ensures var vnodes' := Unlisted(Graph(vnodes, links), s[i]); var nodes := WithList(vnodes, v, incoming, s);
            && v in vnodes' && PartlyCut(vnodes', links - {s[i]}, v, incoming, s, i + 1)
            && OnlyLists(n0, vnodes') && OnlyLinksOf(k0, links - {s[i]}, v)
            && WithList(vnodes', v, incoming, s) == ErasedFar(nodes, links[s[i]], incoming, s[i])
  {
    var h, l := Graph(vnodes, links), s[i];
    assert l in ListOf(vnodes, v, incoming);
    assert incoming ==> l !in vnodes[v].outLinks;
    UnlinkLinked(h, l);
    UnlistedOnly(h, l);
    OnlyListsTrans(n0, vnodes, Unlisted(h, l));
    UnlistedAt(h, l, v);
    EraseFirst(s[i..]);
    FarEnd(h, v, incoming, s, l);
  }

  /** The list at the far end of a link without that link. */
  function ErasedFar(nodes: map<NodeId, Node>, link: Link, incoming: bool, l: LinkId): map<NodeId, Node>
    requires link.src in nodes && link.dest in nodes
  {
    if incoming then nodes[link.src := nodes[link.src].(outLinks := Erase(nodes[link.src].outLinks, l))]
    else nodes[link.dest := nodes[link.dest].(inLinks := Erase(nodes[link.dest].inLinks, l))]
  }

  lemma FarEnd(h: Graph, v: NodeId, incoming: bool, s: seq<LinkId>, l: LinkId)
    requires v in h.nodes && l in h.links && h.links[l].src in h.nodes && h.links[l].dest in h.nodes
    requires (if incoming then h.links[l].dest else h.links[l].src) == v
    ensures var n := WithList(h.nodes, v, incoming, s);
            h.links[l].src in n && h.links[l].dest in n && v in Unlisted(h, l)
            && WithList(Unlisted(h, l), v, incoming, s) == ErasedFar(n, h.links[l], incoming, l)
  {
  }

  lemma CutStart(nodes: map<NodeId, Node>, links: map<LinkId, Link>, v: NodeId, incoming: bool)
    requires Linked(Graph(nodes, links)) && v in nodes && (incoming ==> nodes[v].outLinks == [])
    ensures var s := ListOf(nodes, v, incoming);
            PartlyCut(nodes, links, v, incoming, s, 0) && nodes == WithList(nodes, v, incoming, s)
            && OnlyLists(nodes, nodes) && OnlyLinksOf(links, links, v)
  {
  }

  lemma CutEnd(vnodes: map<NodeId, Node>, links: map<LinkId, Link>, v: NodeId, incoming: bool, s: seq<LinkId>)
    requires PartlyCut(vnodes, links, v, incoming, s, |s|)
    ensures WithList(WithList(vnodes, v, incoming, s), v, incoming, []) == vnodes && ListOf(vnodes, v, incoming) == []
  {
  }

  /** The links left are those that do not touch v. */
  ghost predicate LinksWithout(links: map<LinkId, Link>, links': map<LinkId, Link>, v: NodeId) {
    && (forall l :: l in links' <==> l in links && links[l].src != v && links[l].dest != v)
    && (forall l :: l in links' && l in links ==> links'[l] == links[l])
  }

  lemma RemoveIsolated(n0: map<NodeId, Node>, k0: map<LinkId, Link>, n: map<NodeId, Node>, k: map<LinkId, Link>,
                       order: seq<NodeId>, v: NodeId)
    requires Linked(Graph(n, k)) && v in n && n[v].inLinks == [] && n[v].outLinks == []
    requires OnlyLists(n0, n) && OnlyLinksOf(k0, k, v)
    requires Ordered(order, n0)
    ensures Linked(Graph(n - {v}, k)) && LinksWithout(k0, k, v) && OnlyLists(n0 - {v}, n - {v})
    ensures Ordered(Erase(order, v), n - {v})
  {
    IsolatedRemoved(Graph(n, k), v);
    OrderErased(n0, n, order, v);
  }

  lemma OrderErased(n0: map<NodeId, Node>, n: map<NodeId, Node>, order: seq<NodeId>, v: NodeId)
    requires OnlyLists(n0, n) && Ordered(order, n0)
    ensures Ordered(Erase(order, v), n - {v})
  {
    EraseMembers(order, v);
    EraseOrder(order, n0, v);
    OnlyListsOrder(Erase(order, v), n0, n - {v});
  }

  lemma NodeRemoved(n0: map<NodeId, Node>, k0: map<LinkId, Link>, g: Graph, order: seq<NodeId>,
                    dist: map<NodeId, Num>, out: map<NodeId, seq<LinkId>>, v: NodeId)
    requires Linked(g) && v in g.nodes && g.nodes[v].inLinks == [] && g.nodes[v].outLinks == []
    requires OnlyLists(n0, g.nodes) && OnlyLinksOf(k0, g.links, v) && Ordered(order, n0)
    requires dist.Keys == g.nodes.Keys && out.Keys == g.nodes.Keys
    ensures Whole(Graph(g.nodes - {v}, g.links), Erase(order, v), dist - {v}, out - {v})
    ensures LinksWithout(k0, g.links, v) && OnlyLists(n0 - {v}, g.nodes - {v})
  {
    RemoveIsolated(n0, k0, g.nodes, g.links, order, v);
  }

  lemma PutAgain(k0: map<LinkId, Link>, k1: map<LinkId, Link>, l: LinkId, link: Link)
    requires k1 == k0 - {l}
    ensures k1[l := link] == k0[l := link]
  {
  }

  lemma StaysOrdered(order: seq<NodeId>, nodes: map<NodeId, Node>, nodes': map<NodeId, Node>)
    requires OnlyLists(nodes, nodes') && Ordered(order, nodes)
    ensures Ordered(order, nodes') && nodes'.Keys == nodes.Keys
  {
    OnlyListsOrder(order, nodes, nodes');
  }
}
