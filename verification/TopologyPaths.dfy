/** Graphs of nodes and directed links, routes through them and their costs. */
module TopologyPaths {
  import opened Lists

  type NodeId = nat
  type LinkId = nat

  type Int32 = x: int | -0x8000_0000 <= x < 0x8000_0000

  /** Weights and distances: exact numbers and infinity. */
  datatype Num = Fin(r: real) | Inf

  predicate Le(a: Num, b: Num) { b.Inf? || (a.Fin? && a.r <= b.r) }

  predicate Lt(a: Num, b: Num) { !Le(b, a) }

  function Plus(a: Num, b: Num): Num {
    if a.Fin? && b.Fin? then Fin(a.r + b.r) else Inf
  }

  datatype Node = Node(moduleId: Int32, weight: Num, enabled: bool, inLinks: seq<LinkId>, outLinks: seq<LinkId>)

  datatype Link = Link(src: NodeId, dest: NodeId, weight: Num, enabled: bool)

  datatype Graph = Graph(nodes: map<NodeId, Node>, links: map<LinkId, Link>)

  ghost predicate EndsExist(g: Graph) {
    forall l :: l in g.links ==> g.links[l].src in g.nodes && g.links[l].dest in g.nodes
  }

  ghost predicate ListedOnce(g: Graph) {
    forall v :: v in g.nodes ==> NoDup(g.nodes[v].inLinks) && NoDup(g.nodes[v].outLinks)
  }

  ghost predicate InListed(g: Graph) {
    forall v, l :: v in g.nodes ==> (l in g.nodes[v].inLinks <==> l in g.links && g.links[l].dest == v)
  }

  ghost predicate OutListed(g: Graph) {
    forall v, l :: v in g.nodes ==> (l in g.nodes[v].outLinks <==> l in g.links && g.links[l].src == v)
  }

  /** Links join nodes of the graph and are listed exactly once at each of their two ends. */
  ghost predicate Linked(g: Graph) {
    EndsExist(g) && ListedOnce(g) && InListed(g) && OutListed(g)
  }

  predicate IsInLink(g: Graph, v: NodeId, l: LinkId) {
    l in g.links && g.links[l].dest == v && g.links[l].src in g.nodes
  }

  /** What a search needs of that. */
  ghost predicate InLinksOk(g: Graph) {
    forall v, i :: v in g.nodes && 0 <= i < |g.nodes[v].inLinks| ==> IsInLink(g, v, g.nodes[v].inLinks[i])
  }

  lemma LinkedInLinks(g: Graph)
    requires Linked(g)
    ensures InLinksOk(g)
  {
    forall v, i | v in g.nodes && 0 <= i < |g.nodes[v].inLinks| ensures IsInLink(g, v, g.nodes[v].inLinks[i]) {
      assert g.nodes[v].inLinks[i] in g.nodes[v].inLinks;
    }
  }

  ghost predicate Positive(g: Graph) {
    && (forall l :: l in g.links ==> Lt(Fin(0.0), g.links[l].weight))
    && (forall v :: v in g.nodes ==> Le(Fin(0.0), g.nodes[v].weight))
  }

  /** A route may leave its source node over this link. */
  predicate Usable(g: Graph, l: LinkId) {
    && l in g.links && g.links[l].enabled && g.links[l].src in g.nodes && g.nodes[g.links[l].src].enabled
    && g.links[l].dest in g.nodes
  }

  /** Consecutive usable links from v to the target t. */
  predicate IsRoute(g: Graph, v: NodeId, ls: seq<LinkId>, t: NodeId)
    decreases |ls|
  {
    if ls == [] then v == t
    else Usable(g, ls[0]) && g.links[ls[0]].src == v && IsRoute(g, g.links[ls[0]].dest, ls[1..], t)
  }

  /** The distance over link l when its far end has distance d: passing through a node costs the
      node's weight, arriving at the target does not. */
  function Step(g: Graph, t: NodeId, l: LinkId, d: Num): Num
    requires Usable(g, l)
  {
    var u := g.links[l].dest;
    var n := Plus(d, g.links[l].weight);
    if u != t then Plus(n, g.nodes[u].weight) else n
  }

  function Cost(g: Graph, t: NodeId, v: NodeId, ls: seq<LinkId>): Num
    requires IsRoute(g, v, ls, t)
    decreases |ls|
  {
    if ls == [] then Fin(0.0) else Step(g, t, ls[0], Cost(g, t, g.links[ls[0]].dest, ls[1..]))
  }

  /** No route is cheaper than the distance. */
  ghost predicate Minimal(g: Graph, t: NodeId, dist: map<NodeId, Num>) {
    forall v, ls :: v in dist && IsRoute(g, v, ls, t) ==> Le(dist[v], Cost(g, t, v, ls))
  }

  /** Every finite distance is the cost of a route, which begins with the first recorded path. */
  ghost predicate Attained(g: Graph, t: NodeId, dist: map<NodeId, Num>, out: map<NodeId, seq<LinkId>>) {
    forall v :: v in dist && v in out && dist[v].Fin? ==>
      exists ls :: IsRoute(g, v, ls, t) && Cost(g, t, v, ls) == dist[v]
          && (v != t ==> out[v] != [] && ls != [] && ls[0] == out[v][0])
  }

  // ------------------------------------------------------------ why closed labels are distances

  lemma StepMonotone(g: Graph, t: NodeId, l: LinkId, d: Num, d': Num)
    requires Usable(g, l) && Le(d, d')
    ensures Le(Step(g, t, l, d), Step(g, t, l, d'))
  {
  }

  lemma StepGrows(g: Graph, t: NodeId, l: LinkId, d: Num)
    requires Positive(g) && Usable(g, l) && d.Fin?
    ensures Lt(d, Step(g, t, l, d))
  {
  }

  /** No usable link offers its source a shorter distance. */
  ghost predicate Closed(g: Graph, t: NodeId, dist: map<NodeId, Num>) {
    && t in dist && dist[t] == Fin(0.0)
    && forall l :: Usable(g, l) && g.links[l].src in dist && g.links[l].dest in dist ==>
         Le(dist[g.links[l].src], Step(g, t, l, dist[g.links[l].dest]))
  }

  lemma {:induction false} ClosedIsMinimal(g: Graph, t: NodeId, dist: map<NodeId, Num>, v: NodeId, ls: seq<LinkId>)
    requires dist.Keys == g.nodes.Keys && Closed(g, t, dist) && v in dist && IsRoute(g, v, ls, t)
    ensures Le(dist[v], Cost(g, t, v, ls))
    decreases |ls|
  {
    if ls != [] {
      var u := g.links[ls[0]].dest;
      ClosedIsMinimal(g, t, dist, u, ls[1..]);
      StepMonotone(g, t, ls[0], dist[u], Cost(g, t, u, ls[1..]));
    }
  }

  // ------------------------------------------------------------ labels while the search runs

  /** The finite label of a node other than the target comes over its first recorded path, from a
      node that is already done. */
  predicate HasParent(g: Graph, t: NodeId, dist: map<NodeId, Num>, out: map<NodeId, seq<LinkId>>, done: seq<NodeId>,
                      v: NodeId)
    requires v in dist && v in out
  {
    && out[v] != [] && Usable(g, out[v][0]) && g.links[out[v][0]].src == v
    && var u := g.links[out[v][0]].dest; u in done && u in dist && dist[v] == Step(g, t, out[v][0], dist[u])
  }

  ghost predicate Parents(g: Graph, t: NodeId, dist: map<NodeId, Num>, out: map<NodeId, seq<LinkId>>,
                          done: seq<NodeId>) {
    forall v :: v in dist && v in out && v != t && dist[v].Fin? ==> HasParent(g, t, dist, out, done, v)
  }

  /** The first n of the given in-links offer nothing shorter. */
  ghost predicate Relaxed(g: Graph, t: NodeId, dist: map<NodeId, Num>, ls: seq<LinkId>, n: nat) {
    forall i ::
      0 <= i < n && i < |ls| && Usable(g, ls[i]) && g.links[ls[i]].src in dist && g.links[ls[i]].dest in dist ==>
        Le(dist[g.links[ls[i]].src], Step(g, t, ls[i], dist[g.links[ls[i]].dest]))
  }

  /** So do all in-links of the given nodes. */
  ghost predicate AllRelaxed(g: Graph, t: NodeId, dist: map<NodeId, Num>, done: seq<NodeId>) {
    forall k :: 0 <= k < |done| && done[k] in g.nodes ==>
      Relaxed(g, t, dist, g.nodes[done[k]].inLinks, |g.nodes[done[k]].inLinks|)
  }

  /** Labels do not decrease along s. */
  ghost predicate Ascending(dist: map<NodeId, Num>, s: seq<NodeId>) {
    forall i, j :: 0 <= i < j < |s| && s[i] in dist && s[j] in dist ==> Le(dist[s[i]], dist[s[j]])
  }

  /** The nodes with finite labels: those done, then those waiting, each once and in ascending order. */
  ghost predicate Frontier(dist: map<NodeId, Num>, done: seq<NodeId>, q: seq<NodeId>) {
    && NoDup(done) && NoDup(q) && (forall v :: v in done ==> v !in q)
    && Ascending(dist, done) && Ascending(dist, q)
    && (forall v :: v in done || v in q <==> v in dist && dist[v].Fin?)
    && (forall a, b :: a in done && b in q && a in dist && b in dist ==> Le(dist[a], dist[b]))
  }

  lemma AscendingOrder(dist: map<NodeId, Num>, s: seq<NodeId>, j: nat, k: nat)
    requires Ascending(dist, s) && j < |s| && k < |s| && s[j] in dist && s[k] in dist && Lt(dist[s[j]], dist[s[k]])
    ensures j < k
  {
  }

  ghost predicate Labels(g: Graph, t: NodeId, dist: map<NodeId, Num>, out: map<NodeId, seq<LinkId>>) {
    dist.Keys == g.nodes.Keys && out.Keys == g.nodes.Keys && t in dist && dist[t] == Fin(0.0)
  }

  /** A parent was done before its child. */
  lemma {:induction false} RouteOf(g: Graph, t: NodeId, dist: map<NodeId, Num>, out: map<NodeId, seq<LinkId>>,
                                   done: seq<NodeId>, k: nat)
    returns (ls: seq<LinkId>)
    requires Positive(g) && Labels(g, t, dist, out) && Frontier(dist, done, []) && Parents(g, t, dist, out, done)
    requires k < |done|
    ensures var v := done[k]; v in dist && v in out && IsRoute(g, v, ls, t) && Cost(g, t, v, ls) == dist[v]
                              && (v != t ==> out[v] != [] && ls != [] && ls[0] == out[v][0])
    decreases k
  {
    var v := done[k];
    assert v in done;
    if v == t {
      ls := [];
    } else {
      assert HasParent(g, t, dist, out, done, v);
      var l := out[v][0];
      var u := g.links[l].dest;
      var j :| 0 <= j < |done| && done[j] == u;
      StepGrows(g, t, l, dist[u]);
      AscendingOrder(dist, done, j, k);
      var rest := RouteOf(g, t, dist, out, done, j);
      ls := [l] + rest;
      assert ls[1..] == rest;
    }
  }

  lemma AllAttained(g: Graph, t: NodeId, dist: map<NodeId, Num>, out: map<NodeId, seq<LinkId>>, done: seq<NodeId>)
    requires Positive(g) && Labels(g, t, dist, out) && Frontier(dist, done, []) && Parents(g, t, dist, out, done)
    ensures Attained(g, t, dist, out)
  {
    forall v | v in dist && v in out && dist[v].Fin?
      ensures exists ls :: IsRoute(g, v, ls, t) && Cost(g, t, v, ls) == dist[v]
                           && (v != t ==> out[v] != [] && ls != [] && ls[0] == out[v][0])
    {
      assert v in done || v in [];
      var k :| 0 <= k < |done| && done[k] == v;
      var ls := RouteOf(g, t, dist, out, done, k);
    }
  }

  lemma AllMinimal(g: Graph, t: NodeId, dist: map<NodeId, Num>, out: map<NodeId, seq<LinkId>>, done: seq<NodeId>)
    requires Linked(g) && Labels(g, t, dist, out) && Frontier(dist, done, []) && AllRelaxed(g, t, dist, done)
    ensures Minimal(g, t, dist)
  {
    forall l | Usable(g, l) && g.links[l].src in dist && g.links[l].dest in dist
      ensures Le(dist[g.links[l].src], Step(g, t, l, dist[g.links[l].dest]))
    {
      var u := g.links[l].dest;
      if dist[u].Fin? {
        assert u in done || u in [];
        var k :| 0 <= k < |done| && done[k] == u;
        var i :| 0 <= i < |g.nodes[u].inLinks| && g.nodes[u].inLinks[i] == l;
      }
    }
    forall v, ls | v in dist && IsRoute(g, v, ls, t) ensures Le(dist[v], Cost(g, t, v, ls)) {
      ClosedIsMinimal(g, t, dist, v, ls);
    }
  }

  // ------------------------------------------------------------ one step of a search

  /** Labels, waiting nodes and recorded paths fit together. */
  ghost predicate Searching(g: Graph, t: NodeId, dist: map<NodeId, Num>, out: map<NodeId, seq<LinkId>>,
                            done: seq<NodeId>, q: seq<NodeId>) {
    Labels(g, t, dist, out) && Frontier(dist, done, q) && Parents(g, t, dist, out, done)
  }

  lemma Popped(g: Graph, t: NodeId, dist: map<NodeId, Num>, out: map<NodeId, seq<LinkId>>, done: seq<NodeId>,
               q: seq<NodeId>)
    requires Searching(g, t, dist, out, done, q) && q != []
    ensures Searching(g, t, dist, out, done + [q[0]], q[1..]) && q[0] in dist && dist[q[0]].Fin?
  {
    var done', q' := done + [q[0]], q[1..];
    assert q == [q[0]] + q';
    forall v | v in dist && v in out && v != t && dist[v].Fin? ensures HasParent(g, t, dist, out, done', v) {
      assert HasParent(g, t, dist, out, done, v);
    }
  }

  lemma {:induction false} WithoutAscending(dist: map<NodeId, Num>, q: seq<NodeId>, x: NodeId)
    requires Ascending(dist, q)
    ensures Ascending(dist, Without(q, x))
  {
    if q != [] {
      WithoutAscending(dist, q[1..], x);
      WithoutMembers(q[1..], x);
      forall j | 0 <= j < |Without(q[1..], x)| && Without(q[1..], x)[j] in dist && q[0] in dist
        ensures Le(dist[q[0]], dist[Without(q[1..], x)[j]])
      {
        assert Without(q[1..], x)[j] in q[1..];
      }
    }
  }

  /** p is where a node with label d belongs. */
  ghost predicate Place(dist: map<NodeId, Num>, q: seq<NodeId>, p: nat, d: Num) {
    && p <= |q|
    && (forall j :: 0 <= j < p && q[j] in dist ==> Le(dist[q[j]], d))
    && (forall j :: p <= j < |q| && q[j] in dist ==> Le(d, dist[q[j]]))
  }

  lemma PutAscending(dist: map<NodeId, Num>, q: seq<NodeId>, p: nat, x: NodeId, d: Num)
    requires Ascending(dist, q) && Place(dist, q, p, d) && x !in q
    ensures Ascending(dist[x := d], PutAt(q, p, x))
  {
    PutPoints(q, p, x);
    var dist', r := dist[x := d], PutAt(q, p, x);
    forall i, j | 0 <= i < j < |r| && r[i] in dist' && r[j] in dist' ensures Le(dist'[r[i]], dist'[r[j]]) {
      if i != p { assert q[if i < p then i else i - 1] in q; }
      if j != p { assert q[if j < p then j else j - 1] in q; }
    }
  }

  /** A shorter label for src, found over a link to the last done node. */
  lemma Improved(dist: map<NodeId, Num>, done: seq<NodeId>, q: seq<NodeId>, src: NodeId, nd: Num, q': seq<NodeId>,
                 p: nat)
    requires Frontier(dist, done, q) && done != [] && src in dist && done[|done| - 1] in dist
    requires nd.Fin? && Lt(dist[done[|done| - 1]], nd) && Lt(nd, dist[src])
    requires Place(dist, Without(q, src), p, nd) && q' == PutAt(Without(q, src), p, src)
    ensures src !in done && Frontier(dist[src := nd], done, q')
  {
    NotDone(dist, done, q, src, nd);
    WithoutMembers(q, src);
    WithoutNoDup(q, src);
    WithoutAscending(dist, q, src);
    PutAscending(dist, Without(q, src), p, src, nd);
    PutNoDup(Without(q, src), p, src);
    PutMembers(Without(q, src), p, src);
    forall a, b | a in done && b in q' && a in dist && b in dist ensures Le(dist[a], dist[src := nd][b]) {
      LastIsGreatest(dist, done, a);
    }
  }

  lemma LastIsGreatest(dist: map<NodeId, Num>, done: seq<NodeId>, a: NodeId)
    requires Ascending(dist, done) && a in done && a in dist && done[|done| - 1] in dist
    ensures Le(dist[a], dist[done[|done| - 1]])
  {
    var i :| 0 <= i < |done| && done[i] == a;
  }

  lemma NotDone(dist: map<NodeId, Num>, done: seq<NodeId>, q: seq<NodeId>, src: NodeId, nd: Num)
    requires Frontier(dist, done, q) && done != [] && src in dist && done[|done| - 1] in dist
    requires Lt(dist[done[|done| - 1]], nd) && Lt(nd, dist[src])
    ensures src !in done
  {
    if src in done { LastIsGreatest(dist, done, src); }
  }

  /** The labels of done nodes, their recorded paths and what they offered stay as they are. */
  lemma ImprovedKeeps(g: Graph, t: NodeId, dist: map<NodeId, Num>, out: map<NodeId, seq<LinkId>>, done: seq<NodeId>,
                      l: LinkId, src: NodeId, outs: seq<LinkId>)
    requires Labels(g, t, dist, out) && Parents(g, t, dist, out, done) && src in dist && src !in done && src != t
    requires Usable(g, l) && g.links[l].src == src && g.links[l].dest in done && g.links[l].dest in dist
    requires outs != [] && outs[0] == l
    ensures var nd := Step(g, t, l, dist[g.links[l].dest]);
            Labels(g, t, dist[src := nd], out[src := outs]) && Parents(g, t, dist[src := nd], out[src := outs], done)
  {
    var nd := Step(g, t, l, dist[g.links[l].dest]);
    var dist', out' := dist[src := nd], out[src := outs];
    forall v | v in dist' && v in out' && v != t && dist'[v].Fin? ensures HasParent(g, t, dist', out', done, v) {
      if v != src { assert HasParent(g, t, dist, out, done, v); }
    }
  }

  lemma RelaxedLower(g: Graph, t: NodeId, dist: map<NodeId, Num>, src: NodeId, nd: Num, u: NodeId, ls: seq<LinkId>,
                     n: nat)
    requires Relaxed(g, t, dist, ls, n) && src in dist && Lt(nd, dist[src]) && u != src
    requires forall l :: l in ls && l in g.links ==> g.links[l].dest == u
    ensures Relaxed(g, t, dist[src := nd], ls, n)
  {
    var dist' := dist[src := nd];
    forall i | 0 <= i < n && i < |ls| && Usable(g, ls[i]) && g.links[ls[i]].src in dist' && g.links[ls[i]].dest in dist'
      ensures Le(dist'[g.links[ls[i]].src], Step(g, t, ls[i], dist'[g.links[ls[i]].dest]))
    {
      assert ls[i] in ls;
    }
  }

  lemma InLinksFrom(g: Graph, u: NodeId)
    requires InLinksOk(g) && u in g.nodes
    ensures forall l :: l in g.nodes[u].inLinks && l in g.links ==> g.links[l].dest == u
  {
    forall l | l in g.nodes[u].inLinks && l in g.links ensures g.links[l].dest == u {
      var i :| 0 <= i < |g.nodes[u].inLinks| && g.nodes[u].inLinks[i] == l;
      assert IsInLink(g, u, g.nodes[u].inLinks[i]);
    }
  }

  lemma AllRelaxedLower(g: Graph, t: NodeId, dist: map<NodeId, Num>, src: NodeId, nd: Num, done: seq<NodeId>)
    requires InLinksOk(g) && AllRelaxed(g, t, dist, done) && src in dist && Lt(nd, dist[src]) && src !in done
    ensures AllRelaxed(g, t, dist[src := nd], done)
  {
    forall k | 0 <= k < |done| && done[k] in g.nodes
      ensures Relaxed(g, t, dist[src := nd], g.nodes[done[k]].inLinks, |g.nodes[done[k]].inLinks|)
    {
      assert done[k] in done;
      InLinksFrom(g, done[k]);
      RelaxedLower(g, t, dist, src, nd, done[k], g.nodes[done[k]].inLinks, |g.nodes[done[k]].inLinks|);
    }
  }

  /** Another recorded path at the end changes no first one. */
  lemma RecordedKeeps(g: Graph, t: NodeId, dist: map<NodeId, Num>, out: map<NodeId, seq<LinkId>>, done: seq<NodeId>,
                      src: NodeId, l: LinkId)
    requires Labels(g, t, dist, out) && Parents(g, t, dist, out, done) && src in out
    ensures Labels(g, t, dist, out[src := out[src] + [l]]) && Parents(g, t, dist, out[src := out[src] + [l]], done)
  {
    var out' := out[src := out[src] + [l]];
    forall v | v in dist && v in out' && v != t && dist[v].Fin? ensures HasParent(g, t, dist, out', done, v) {
      assert HasParent(g, t, dist, out, done, v);
    }
  }

  /** The last done node is being visited and its first i in-links have been looked at. */
  ghost predicate Visiting(g: Graph, t: NodeId, dist: map<NodeId, Num>, out: map<NodeId, seq<LinkId>>,
                           done: seq<NodeId>, q: seq<NodeId>, i: nat) {
    && Searching(g, t, dist, out, done, q) && done != [] && done[|done| - 1] in g.nodes && t in done
    && AllRelaxed(g, t, dist, done[..|done| - 1]) && Relaxed(g, t, dist, g.nodes[done[|done| - 1]].inLinks, i)
  }

  /** Link i of the visited node. */
  predicate Current(g: Graph, done: seq<NodeId>, i: nat, l: LinkId) {
    done != [] && done[|done| - 1] in g.nodes && i < |g.nodes[done[|done| - 1]].inLinks|
        && l == g.nodes[done[|done| - 1]].inLinks[i]
  }

  lemma CurrentLink(g: Graph, dist: map<NodeId, Num>, done: seq<NodeId>, q: seq<NodeId>, i: nat, l: LinkId)
    requires InLinksOk(g) && Current(g, done, i, l) && Frontier(dist, done, q)
    ensures var u := done[|done| - 1];
            l in g.links && g.links[l].dest == u && g.links[l].src in g.nodes && u in done && u in dist && dist[u].Fin?
  {
    var u := done[|done| - 1];
    assert IsInLink(g, u, l) && u in done;
  }

  lemma QueueParts(dist: map<NodeId, Num>, done: seq<NodeId>, q: seq<NodeId>, src: NodeId)
    requires Frontier(dist, done, q)
    ensures Ascending(dist, Without(q, src)) && forall v :: v in Without(q, src) ==> v in dist
    ensures src in dist && dist[src] == Inf ==> Without(q, src) == q
  {
    WithoutMembers(q, src);
    WithoutAscending(dist, q, src);
    if src !in q { NothingWithout(q, src); }
  }

  /** The link offers nothing, or cannot be used. */
  lemma VisitNext(g: Graph, t: NodeId, dist: map<NodeId, Num>, out: map<NodeId, seq<LinkId>>, done: seq<NodeId>,
                  q: seq<NodeId>, i: nat, l: LinkId)
    requires InLinksOk(g) && Visiting(g, t, dist, out, done, q, i) && Current(g, done, i, l)
    requires Usable(g, l) && g.links[l].src in dist && g.links[l].dest in dist ==>
               Le(dist[g.links[l].src], Step(g, t, l, dist[g.links[l].dest]))
    ensures Visiting(g, t, dist, out, done, q, i + 1)
  {
  }

  lemma VisitRecorded(g: Graph, t: NodeId, dist: map<NodeId, Num>, out: map<NodeId, seq<LinkId>>, done: seq<NodeId>,
                      q: seq<NodeId>, i: nat, src: NodeId, l: LinkId)
    requires Visiting(g, t, dist, out, done, q, i) && src in out
    ensures Visiting(g, t, dist, out[src := out[src] + [l]], done, q, i)
  {
    RecordedKeeps(g, t, dist, out, done, src, l);
  }

  /** The link offers its source a shorter label. */
  lemma VisitImproved(g: Graph, t: NodeId, dist: map<NodeId, Num>, out: map<NodeId, seq<LinkId>>, done: seq<NodeId>,
                      q: seq<NodeId>, i: nat, l: LinkId, nd: Num, p: nat, outs: seq<LinkId>)
    requires InLinksOk(g) && Positive(g) && Visiting(g, t, dist, out, done, q, i) && Current(g, done, i, l)
    requires Usable(g, l) && g.links[l].src in dist && g.links[l].dest in dist
             && nd == Step(g, t, l, dist[g.links[l].dest])
    requires nd.Fin? && Lt(nd, dist[g.links[l].src]) && outs != [] && outs[0] == l
    requires Place(dist, Without(q, g.links[l].src), p, nd)
    ensures var src := g.links[l].src;
            Visiting(g, t, dist[src := nd], out[src := outs], done, PutAt(Without(q, src), p, src), i + 1)
  {
    var src, u := g.links[l].src, done[|done| - 1];
    CurrentLink(g, dist, done, q, i, l);
    StepGrows(g, t, l, dist[u]);
    Improved(dist, done, q, src, nd, PutAt(Without(q, src), p, src), p);
    ImprovedKeeps(g, t, dist, out, done, l, src, outs);
    AllRelaxedLower(g, t, dist, src, nd, done[..|done| - 1]);
    InLinksFrom(g, u);
    RelaxedLower(g, t, dist, src, nd, u, g.nodes[u].inLinks, i);
  }

  /** Only the target has a label, and no path is recorded. */
  ghost predicate Started(g: Graph, t: NodeId, dist: map<NodeId, Num>, out: map<NodeId, seq<LinkId>>) {
    && Labels(g, t, dist, out)
    && (forall v :: v in dist && v != t ==> dist[v] == Inf)
    && (forall v :: v in out ==> out[v] == [])
  }

  lemma SearchStarts(g: Graph, t: NodeId, dist: map<NodeId, Num>, out: map<NodeId, seq<LinkId>>)
    requires Started(g, t, dist, out)
    ensures Searching(g, t, dist, out, [], [t]) && AllRelaxed(g, t, dist, [])
  {
  }

  /** The next node is taken from the queue. */
  lemma VisitStarts(g: Graph, t: NodeId, dist: map<NodeId, Num>, out: map<NodeId, seq<LinkId>>, done: seq<NodeId>,
                    q: seq<NodeId>)
    requires Searching(g, t, dist, out, done, q) && AllRelaxed(g, t, dist, done) && q != []
    requires t in done || (done == [] && q == [t])
    ensures var done' := done + [q[0]];
            Visiting(g, t, dist, out, done', q[1..], 0) && |done'| <= |g.nodes|
  {
    Popped(g, t, dist, out, done, q);
    var done' := done + [q[0]];
    assert done'[..|done'| - 1] == done;
    NoDupBound(done', g.nodes.Keys);
  }

  lemma VisitEnds(g: Graph, t: NodeId, dist: map<NodeId, Num>, out: map<NodeId, seq<LinkId>>, done: seq<NodeId>,
                  q: seq<NodeId>)
    requires done != [] && done[|done| - 1] in g.nodes
    requires Visiting(g, t, dist, out, done, q, |g.nodes[done[|done| - 1]].inLinks|)
    ensures AllRelaxed(g, t, dist, done)
  {
    var before := done[..|done| - 1];
    assert done == before + [done[|done| - 1]];
  }

  /** When the queue is empty the labels are the distances. */
  lemma SearchEnds(g: Graph, t: NodeId, dist: map<NodeId, Num>, out: map<NodeId, seq<LinkId>>, done: seq<NodeId>)
    requires Linked(g) && Positive(g) && Searching(g, t, dist, out, done, []) && AllRelaxed(g, t, dist, done)
    ensures Minimal(g, t, dist) && Attained(g, t, dist, out)
  {
    AllAttained(g, t, dist, out, done);
    AllMinimal(g, t, dist, out, done);
  }

  // ------------------------------------------------------------ hops and uniqueness

  /** The graph with links of weight 1 and nodes of weight 0. */
  function Unit(g: Graph): Graph {
    Graph(map v | v in g.nodes :: g.nodes[v].(weight := Fin(0.0)), map l | l in g.links ::
        g.links[l].(weight := Fin(1.0)))
  }

  /** Its routes are those of the graph, and the cost of a route is its number of links. */
  lemma {:induction false} UnitCost(g: Graph, t: NodeId, v: NodeId, ls: seq<LinkId>)
    ensures IsRoute(Unit(g), v, ls, t) <==> IsRoute(g, v, ls, t)
    ensures IsRoute(g, v, ls, t) ==> Cost(Unit(g), t, v, ls) == Fin(|ls| as real)
    decreases |ls|
  {
    if ls != [] && Usable(g, ls[0]) {
      UnitCost(g, t, g.links[ls[0]].dest, ls[1..]);
    }
  }

  /** The distances of a graph are determined: two searches cannot disagree. */
  lemma DistancesUnique(g: Graph, t: NodeId, d: map<NodeId, Num>, o: map<NodeId, seq<LinkId>>, d': map<NodeId, Num>,
                        o': map<NodeId, seq<LinkId>>)
    requires d.Keys == d'.Keys == o.Keys == o'.Keys
    requires Minimal(g, t, d) && Attained(g, t, d, o) && Minimal(g, t, d') && Attained(g, t, d', o')
    ensures d == d'
  {
    forall v | v in d ensures d[v] == d'[v] {
      if d[v].Fin? {
        var ls :| IsRoute(g, v, ls, t) && Cost(g, t, v, ls) == d[v];
        assert Le(d'[v], Cost(g, t, v, ls));
      }
      if d'[v].Fin? {
        var ls :| IsRoute(g, v, ls, t) && Cost(g, t, v, ls) == d'[v];
        assert Le(d[v], Cost(g, t, v, ls));
      }
    }
  }

  lemma UnitLinked(g: Graph)
    requires Linked(g)
    ensures Linked(Unit(g)) && Positive(Unit(g))
  {
    var u := Unit(g);
    assert u.nodes.Keys == g.nodes.Keys && u.links.Keys == g.links.Keys;
    assert EndsExist(u);
    assert ListedOnce(u);
    UnitInListed(g);
    UnitOutListed(g);
  }

  lemma UnitPositive(g: Graph)
    ensures Positive(Unit(g))
  {
  }

  lemma UnitInListed(g: Graph)
    requires InListed(g)
    ensures InListed(Unit(g))
  {
    forall v, l | v in Unit(g).nodes
        ensures l in Unit(g).nodes[v].inLinks <==> l in Unit(g).links && Unit(g).links[l].dest == v {
      assert Unit(g).nodes[v].inLinks == g.nodes[v].inLinks;
    }
  }

  lemma UnitOutListed(g: Graph)
    requires OutListed(g)
    ensures OutListed(Unit(g))
  {
    forall v, l | v in Unit(g).nodes
        ensures l in Unit(g).nodes[v].outLinks <==> l in Unit(g).links && Unit(g).links[l].src == v {
      assert Unit(g).nodes[v].outLinks == g.nodes[v].outLinks;
    }
  }

  /** While node v is visited in the search by hops, no waiting node is more than one hop further. */
  ghost predicate OneLevel(dist: map<NodeId, Num>, q: seq<NodeId>, v: NodeId)
    requires v in dist
  {
    forall w :: w in q && w in dist ==> Le(dist[w], Plus(dist[v], Fin(1.0)))
  }

  /** Nothing is recorded for nodes without a label. */
  ghost predicate NoneRecorded(dist: map<NodeId, Num>, out: map<NodeId, seq<LinkId>>) {
    forall v :: v in dist && v in out && dist[v] == Inf ==> out[v] == []
  }

  /** A search by hops is a search with unit weights that also visits level by level. */
  ghost predicate Hopping(g: Graph, t: NodeId, dist: map<NodeId, Num>, out: map<NodeId, seq<LinkId>>,
                          done: seq<NodeId>, q: seq<NodeId>, i: nat) {
    && InLinksOk(Unit(g)) && Positive(Unit(g)) && Visiting(Unit(g), t, dist, out, done, q, i)
    && NoneRecorded(dist, out) && OneLevel(dist, q, done[|done| - 1])
  }

  /** A node reached for the first time goes to the end of the queue. */
  lemma HopReached(g: Graph, t: NodeId, dist: map<NodeId, Num>, out: map<NodeId, seq<LinkId>>, done: seq<NodeId>,
                   q: seq<NodeId>, i: nat, l: LinkId)
    requires Hopping(g, t, dist, out, done, q, i) && Current(Unit(g), done, i, l) && Usable(Unit(g), l)
    requires g.links[l].src in dist && dist[g.links[l].src] == Inf
    ensures var v, w := done[|done| - 1], g.links[l].src;
            && v in dist && w in out && out[w] == []
            && Hopping(g, t, dist[w := Plus(dist[v], Fin(1.0))], out[w := [l]], done, q + [w], i + 1)
  {
    var v, w := done[|done| - 1], g.links[l].src;
    var nd := Plus(dist[v], Fin(1.0));
    HopVisit(g, t, dist, out, done, q, i, l);
    LevelGrows(dist, q, v, w);
    RecordFirst(dist, out, w, nd, l);
  }

  lemma HopVisit(g: Graph, t: NodeId, dist: map<NodeId, Num>, out: map<NodeId, seq<LinkId>>, done: seq<NodeId>,
                 q: seq<NodeId>, i: nat, l: LinkId)
    requires InLinksOk(Unit(g)) && Positive(Unit(g)) && Visiting(Unit(g), t, dist, out, done, q, i)
    requires Current(Unit(g), done, i, l) && Usable(Unit(g), l)
    requires done[|done| - 1] in dist && OneLevel(dist, q, done[|done| - 1])
    requires g.links[l].src in dist && dist[g.links[l].src] == Inf
    ensures var v, w := done[|done| - 1], g.links[l].src; var nd := Plus(dist[v], Fin(1.0));
            && w in out && w !in q && w != v && nd.Fin?
            && Visiting(Unit(g), t, dist[w := nd], out[w := [l]], done, q + [w], i + 1)
  {
    var u, v := Unit(g), done[|done| - 1];
    UnitStep(g, t, l, dist[v]);
    CurrentLink(u, dist, done, q, i, l);
    AppendVisit(u, t, dist, out, done, q, i, l);
  }

  lemma UnitStep(g: Graph, t: NodeId, l: LinkId, d: Num)
    requires Usable(Unit(g), l)
    ensures Step(Unit(g), t, l, d) == Plus(d, Fin(1.0)) && Unit(g).links[l].src == g.links[l].src
  {
  }

  /** A visited link to a node without a label, when the new label is the greatest. */
  lemma AppendVisit(u: Graph, t: NodeId, dist: map<NodeId, Num>, out: map<NodeId, seq<LinkId>>, done: seq<NodeId>,
                    q: seq<NodeId>, i: nat, l: LinkId)
    requires InLinksOk(u) && Positive(u) && Visiting(u, t, dist, out, done, q, i) && Current(u, done, i, l)
             && Usable(u, l)
    requires done[|done| - 1] in dist && OneLevel(dist, q, done[|done| - 1]) && u.links[l].dest == done[|done| - 1]
    requires Step(u, t, l, dist[done[|done| - 1]]) == Plus(dist[done[|done| - 1]], Fin(1.0))
             && dist[done[|done| - 1]].Fin?
    requires u.links[l].src in dist && dist[u.links[l].src] == Inf
    ensures var v, w := done[|done| - 1], u.links[l].src; var nd := Plus(dist[v], Fin(1.0));
            && w in out && w !in q && w != v && nd.Fin?
            && Visiting(u, t, dist[w := nd], out[w := [l]], done, q + [w], i + 1)
  {
    var v, w := done[|done| - 1], u.links[l].src;
    var nd := Plus(dist[v], Fin(1.0));
    LastPlace(dist, done, q, w);
    AppendImproved(u, t, dist, out, done, q, i, l, w, nd);
  }

  lemma AppendImproved(u: Graph, t: NodeId, dist: map<NodeId, Num>, out: map<NodeId, seq<LinkId>>, done: seq<NodeId>,
                       q: seq<NodeId>, i: nat, l: LinkId, w: NodeId, nd: Num)
    requires InLinksOk(u) && Positive(u) && Visiting(u, t, dist, out, done, q, i) && Current(u, done, i, l)
    requires Usable(u, l) && u.links[l].src == w && w in dist && u.links[l].dest in dist
             && nd == Step(u, t, l, dist[u.links[l].dest])
    requires nd.Fin? && dist[w] == Inf && Without(q, w) == q && Place(dist, q, |q|, nd)
    ensures w in out && Visiting(u, t, dist[w := nd], out[w := [l]], done, q + [w], i + 1)
  {
    PutLast(q, w);
    VisitImproved(u, t, dist, out, done, q, i, l, nd, |q|, [l]);
  }

  lemma PutLast(q: seq<NodeId>, w: NodeId)
    ensures PutAt(q, |q|, w) == q + [w]
  {
  }

  /** The place of a node that is reached for the first time is at the end. */
  lemma LastPlace(dist: map<NodeId, Num>, done: seq<NodeId>, q: seq<NodeId>, w: NodeId)
    requires Frontier(dist, done, q) && done != [] && w in dist && dist[w] == Inf
    requires var v := done[|done| - 1]; v in dist && dist[v].Fin? && OneLevel(dist, q, v)
    ensures var v := done[|done| - 1]; var nd := Plus(dist[v], Fin(1.0));
            w !in q && w != v && nd.Fin? && Without(q, w) == q && Place(dist, q, |q|, nd)
  {
    var v := done[|done| - 1];
    QueueParts(dist, done, q, w);
    LevelPlace(dist, q, v);
    NotDone(dist, done, q, w, Plus(dist[v], Fin(1.0)));
  }

  lemma RecordFirst(dist: map<NodeId, Num>, out: map<NodeId, seq<LinkId>>, w: NodeId, nd: Num, l: LinkId)
    requires NoneRecorded(dist, out) && nd.Fin?
    ensures NoneRecorded(dist[w := nd], out[w := [l]])
  {
  }

  lemma LevelPlace(dist: map<NodeId, Num>, q: seq<NodeId>, v: NodeId)
    requires v in dist && OneLevel(dist, q, v)
    ensures Place(dist, q, |q|, Plus(dist[v], Fin(1.0)))
  {
    forall j | 0 <= j < |q| && q[j] in dist ensures Le(dist[q[j]], Plus(dist[v], Fin(1.0))) {
      assert q[j] in q;
    }
  }

  lemma LevelGrows(dist: map<NodeId, Num>, q: seq<NodeId>, v: NodeId, w: NodeId)
    requires v in dist && OneLevel(dist, q, v) && w !in q && w != v
    ensures OneLevel(dist[w := Plus(dist[v], Fin(1.0))], q + [w], v)
  {
  }

  /** A node reached before is not further than one hop. */
  lemma HopKnown(g: Graph, t: NodeId, dist: map<NodeId, Num>, out: map<NodeId, seq<LinkId>>, done: seq<NodeId>,
                 q: seq<NodeId>, i: nat, l: LinkId)
    requires Hopping(g, t, dist, out, done, q, i) && Current(Unit(g), done, i, l)
    requires Usable(Unit(g), l) ==> g.links[l].src in dist && dist[g.links[l].src].Fin?
    ensures Hopping(g, t, dist, out, done, q, i + 1)
  {
    var u, v := Unit(g), done[|done| - 1];
    CurrentLink(u, dist, done, q, i, l);
    if Usable(u, l) {
      var w := g.links[l].src;
      if w in done { LastIsGreatest(dist, done, w); }
      assert Le(dist[w], Plus(dist[v], Fin(1.0)));
    }
    VisitNext(u, t, dist, out, done, q, i, l);
  }

  lemma HopRecorded(g: Graph, t: NodeId, dist: map<NodeId, Num>, out: map<NodeId, seq<LinkId>>, done: seq<NodeId>,
                    q: seq<NodeId>, i: nat, w: NodeId, l: LinkId)
    requires Hopping(g, t, dist, out, done, q, i) && w in out && w in dist && dist[w].Fin?
    ensures Hopping(g, t, dist, out[w := out[w] + [l]], done, q, i)
  {
    VisitRecorded(Unit(g), t, dist, out, done, q, i, w, l);
  }

  /** Between two visits of a search by hops. */
  ghost predicate Leveled(t: NodeId, dist: map<NodeId, Num>, out: map<NodeId, seq<LinkId>>, done: seq<NodeId>,
                          q: seq<NodeId>) {
    && NoneRecorded(dist, out)
    && if done == [] then q == [t] else t in done && done[|done| - 1] in dist && OneLevel(dist, q, done[|done| - 1])
  }

  /** Between two visits of the search by hops. */
  ghost predicate HopSearching(g: Graph, t: NodeId, dist: map<NodeId, Num>, out: map<NodeId, seq<LinkId>>,
                               done: seq<NodeId>, q: seq<NodeId>) {
    && Searching(Unit(g), t, dist, out, done, q) && AllRelaxed(Unit(g), t, dist, done)
    && Leveled(t, dist, out, done, q)
  }

  lemma HopStarts(g: Graph, t: NodeId, dist: map<NodeId, Num>, out: map<NodeId, seq<LinkId>>, done: seq<NodeId>,
                  q: seq<NodeId>)
    requires InLinksOk(Unit(g)) && Searching(Unit(g), t, dist, out, done, q) && AllRelaxed(Unit(g), t, dist, done)
             && q != []
    requires Leveled(t, dist, out, done, q)
    ensures Hopping(g, t, dist, out, done + [q[0]], q[1..], 0) && |done| < |g.nodes|
  {
    UnitPositive(g);
    VisitStarts(Unit(g), t, dist, out, done, q);
    assert Unit(g).nodes.Keys == g.nodes.Keys;
    SameSize(Unit(g).nodes, g.nodes);
    LevelStarts(dist, done, q);
  }

  lemma HopEnds(g: Graph, t: NodeId, dist: map<NodeId, Num>, out: map<NodeId, seq<LinkId>>, done: seq<NodeId>,
                q: seq<NodeId>)
    requires done != [] && done[|done| - 1] in Unit(g).nodes
    requires Hopping(g, t, dist, out, done, q, |Unit(g).nodes[done[|done| - 1]].inLinks|)
    ensures Searching(Unit(g), t, dist, out, done, q) && AllRelaxed(Unit(g), t, dist, done)
            && Leveled(t, dist, out, done, q)
  {
    VisitEnds(Unit(g), t, dist, out, done, q);
  }

  /** The waiting nodes are within one hop of the first of them. */
  lemma LevelStarts(dist: map<NodeId, Num>, done: seq<NodeId>, q: seq<NodeId>)
    requires Frontier(dist, done, q) && q != []
    requires if done == [] then |q| == 1 else done[|done| - 1] in dist && OneLevel(dist, q, done[|done| - 1])
    ensures q[0] in dist && (done + [q[0]])[|done + [q[0]]| - 1] == q[0] && OneLevel(dist, q[1..], q[0])
  {
    var v, q' := q[0], q[1..];
    assert v in q;
    if done != [] {
      var before := done[|done| - 1];
      assert before in done && Le(dist[before], dist[v]);
      forall w | w in q' && w in dist ensures Le(dist[w], Plus(dist[v], Fin(1.0))) {
        assert w in q;
      }
    }
  }

  lemma SameSize(m: map<NodeId, Node>, m': map<NodeId, Node>)
    requires m.Keys == m'.Keys
    ensures |m| == |m'|
  {
    assert |m| == |m.Keys| && |m'| == |m'.Keys|;
  }

  /** The number of hops is the least possible, and is the length of a route over the first recorded path. */
  ghost predicate FewestHops(g: Graph, t: NodeId, dist: map<NodeId, Num>, out: map<NodeId, seq<LinkId>>) {
    && (forall v, ls :: v in dist && IsRoute(g, v, ls, t) ==> dist[v].Fin? && dist[v].r <= |ls| as real)
    && (forall v :: v in dist && v in out && dist[v].Fin? ==>
         exists ls :: IsRoute(g, v, ls, t) && dist[v] == Fin(|ls| as real)
             && (v != t ==> out[v] != [] && ls != [] && ls[0] == out[v][0]))
  }

  lemma HopSearchEnds(g: Graph, t: NodeId, dist: map<NodeId, Num>, out: map<NodeId, seq<LinkId>>, done: seq<NodeId>)
    requires Linked(Unit(g)) && Positive(Unit(g))
    requires Searching(Unit(g), t, dist, out, done, []) && AllRelaxed(Unit(g), t, dist, done)
    ensures Minimal(Unit(g), t, dist) && Attained(Unit(g), t, dist, out) && FewestHops(g, t, dist, out)
    ensures dist.Keys == g.nodes.Keys && out.Keys == g.nodes.Keys && t in dist && dist[t] == Fin(0.0)
  {
    SearchEnds(Unit(g), t, dist, out, done);
    UnitDistancesAreHops(g, t, dist, out);
    assert Unit(g).nodes.Keys == g.nodes.Keys;
  }

  /** Distances in the unit graph are numbers of hops: the two searches agree on it. */
  lemma UnitDistancesAreHops(g: Graph, t: NodeId, dist: map<NodeId, Num>, out: map<NodeId, seq<LinkId>>)
    ensures Minimal(Unit(g), t, dist) && Attained(Unit(g), t, dist, out) ==> FewestHops(g, t, dist, out)
  {
    if Minimal(Unit(g), t, dist) && Attained(Unit(g), t, dist, out) {
      forall v, ls | v in dist && IsRoute(g, v, ls, t) ensures dist[v].Fin? && dist[v].r <= |ls| as real {
        UnitCost(g, t, v, ls);
      }
      forall v | v in dist && v in out && dist[v].Fin?
        ensures exists ls ::
                  && IsRoute(g, v, ls, t) && dist[v] == Fin(|ls| as real)
                  && (v != t ==> out[v] != [] && ls != [] && ls[0] == out[v][0])
      {
        var ls :| IsRoute(Unit(g), v, ls, t) && Cost(Unit(g), t, v, ls) == dist[v]
            && (v != t ==> out[v] != [] && ls != [] && ls[0] == out[v][0]);
        UnitCost(g, t, v, ls);
      }
    }
  }
}
