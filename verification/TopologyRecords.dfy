/** Which links a search records as paths: while it runs, and in the end. */
module TopologyRecords {
  import opened Lists
  import opened TopologyPaths

  /** The search has looked at the usable link l: its end was visited before the last done node, or is
      that node and l is among its first i in-links. */
  predicate Seen(g: Graph, done: seq<NodeId>, i: nat, l: LinkId) {
    && Usable(g, l) && done != []
    && var u, last := g.links[l].dest, done[|done| - 1];
       u in done[..|done| - 1] || (u == last && i <= |g.nodes[u].inLinks| && l in g.nodes[u].inLinks[..i])
  }

  /** It is recorded at its source, once, and nothing else is recorded. */
  ghost predicate Recorded(g: Graph, out: map<NodeId, seq<LinkId>>, done: seq<NodeId>, i: nat) {
    && (forall v, l :: v in out ==> RecordedAt(g, out, done, i, v, l))
    && (forall v :: v in out ==> NoDup(out[v]))
  }

  predicate RecordedAt(g: Graph, out: map<NodeId, seq<LinkId>>, done: seq<NodeId>, i: nat, v: NodeId, l: LinkId)
    requires v in out
  {
    l in out[v] <==> Seen(g, done, i, l) && g.links[l].src == v
  }

  /** The same between two visits. */
  ghost predicate RecordedAll(g: Graph, out: map<NodeId, seq<LinkId>>, done: seq<NodeId>) {
    && (forall v, l :: v in out ==> (l in out[v] <==> Usable(g, l) && g.links[l].dest in done && g.links[l].src == v))
    && (forall v :: v in out ==> NoDup(out[v]))
  }

  /** The recorded paths of a node are its usable links to nodes with a distance, each once. */
  ghost predicate AllPaths(g: Graph, dist: map<NodeId, Num>, out: map<NodeId, seq<LinkId>>) {
    && (forall v, l :: v in out ==>
          (l in out[v] <==> && Usable(g, l) && g.links[l].src == v
                            && g.links[l].dest in dist && dist[g.links[l].dest] != Inf))
    && (forall v :: v in out ==> NoDup(out[v]))
  }

  lemma NothingYet(g: Graph, out: map<NodeId, seq<LinkId>>)
    requires forall v :: v in out ==> out[v] == []
    ensures RecordedAll(g, out, [])
  {
  }

  lemma VisitRecords(g: Graph, out: map<NodeId, seq<LinkId>>, done: seq<NodeId>, u: NodeId)
    requires RecordedAll(g, out, done)
    ensures Recorded(g, out, done + [u], 0)
  {
    var done' := done + [u];
    assert done'[..|done'| - 1] == done;
  }

  /** The links looked at are one more. */
  lemma SeenNext(g: Graph, done: seq<NodeId>, i: nat, l: LinkId, k: LinkId)
    requires Current(g, done, i, l) && l in g.links && g.links[l].dest == done[|done| - 1]
    ensures Seen(g, done, i + 1, k) <==> Seen(g, done, i, k) || (k == l && Usable(g, l))
  {
    var ls := g.nodes[done[|done| - 1]].inLinks;
    assert ls[..i + 1] == ls[..i] + [l];
  }

  lemma Unusable(g: Graph, out: map<NodeId, seq<LinkId>>, done: seq<NodeId>, i: nat, l: LinkId)
    requires Recorded(g, out, done, i) && Current(g, done, i, l) && l in g.links
    requires g.links[l].dest == done[|done| - 1] && !Usable(g, l)
    ensures Recorded(g, out, done, i + 1)
  {
    var j := i + 1;
    forall v, k | v in out ensures RecordedAt(g, out, done, j, v, k) {
      SeenNext(g, done, i, l, k);
      assert RecordedAt(g, out, done, i, v, k);
    }
  }

  /** outs is a list of the same links, and of l. */
  ghost predicate With(outs: seq<LinkId>, before: seq<LinkId>, l: LinkId) {
    NoDup(outs) && forall k :: k in outs <==> k in before || k == l
  }

  lemma RecordedNext(g: Graph, out: map<NodeId, seq<LinkId>>, done: seq<NodeId>, i: nat, l: LinkId, outs: seq<LinkId>)
    requires Recorded(g, out, done, i) && Current(g, done, i, l) && Usable(g, l)
    requires g.links[l].dest == done[|done| - 1] && g.links[l].src in out && With(outs, out[g.links[l].src], l)
    ensures Recorded(g, out[g.links[l].src := outs], done, i + 1)
  {
    var src, j := g.links[l].src, i + 1;
    var out' := out[src := outs];
    forall v, k | v in out' ensures RecordedAt(g, out', done, j, v, k) {
      SeenNext(g, done, i, l, k);
      assert RecordedAt(g, out, done, i, v, k);
    }
  }

  lemma AtEnd(outs: seq<LinkId>, l: LinkId)
    requires NoDup(outs)
    ensures With(if l in outs then outs else outs + [l], outs, l)
  {
  }

  lemma AtFront(outs: seq<LinkId>, l: LinkId)
    requires NoDup(outs)
    ensures With([l] + Without(outs, l), outs, l)
  {
    WithoutMembers(outs, l);
    WithoutNoDup(outs, l);
    var r := Without(outs, l);
    forall j | 0 <= j < |r| ensures r[j] != l { assert r[j] in r; }
  }

  /** A link that is not recorded yet is recorded last. */
  lemma RecordEnd(g: Graph, out: map<NodeId, seq<LinkId>>, done: seq<NodeId>, i: nat, l: LinkId)
    requires Recorded(g, out, done, i) && Current(g, done, i, l) && Usable(g, l)
    requires g.links[l].dest == done[|done| - 1] && g.links[l].src in out
    ensures var src := g.links[l].src;
            Recorded(g, if l in out[src] then out else out[src := out[src] + [l]], done, i + 1)
  {
    var src := g.links[l].src;
    AtEnd(out[src], l);
    RecordedNext(g, out, done, i, l, if l in out[src] then out[src] else out[src] + [l]);
    assert out[src := out[src]] == out;
  }

  /** One that improves the label is recorded first. */
  lemma RecordFront(g: Graph, out: map<NodeId, seq<LinkId>>, done: seq<NodeId>, i: nat, l: LinkId)
    requires Recorded(g, out, done, i) && Current(g, done, i, l) && Usable(g, l)
    requires g.links[l].dest == done[|done| - 1] && g.links[l].src in out
    ensures var src := g.links[l].src; Recorded(g, out[src := [l] + Without(out[src], l)], done, i + 1)
  {
    AtFront(out[g.links[l].src], l);
    RecordedNext(g, out, done, i, l, [l] + Without(out[g.links[l].src], l));
  }

  /** With the new label and the new place in the queue. */
  lemma ImprovedFirst(g: Graph, t: NodeId, dist: map<NodeId, Num>, out: map<NodeId, seq<LinkId>>, done: seq<NodeId>,
                      q: seq<NodeId>, i: nat, l: LinkId, nd: Num, p: nat)
    requires InLinksOk(g) && Positive(g) && Visiting(g, t, dist, out, done, q, i) && Current(g, done, i, l)
    requires Usable(g, l) && g.links[l].src in dist && g.links[l].dest in dist
             && nd == Step(g, t, l, dist[g.links[l].dest])
    requires nd.Fin? && Lt(nd, dist[g.links[l].src]) && Place(dist, Without(q, g.links[l].src), p, nd)
    requires Recorded(g, out, done, i)
    ensures g.links[l].src in out
    ensures var src := g.links[l].src; var outs := [l] + Without(out[src], l);
            && Visiting(g, t, dist[src := nd], out[src := outs], done, PutAt(Without(q, src), p, src), i + 1)
            && Recorded(g, out[src := outs], done, i + 1)
  {
    var src := g.links[l].src;
    CurrentLink(g, dist, done, q, i, l);
    RecordFront(g, out, done, i, l);
    VisitImproved(g, t, dist, out, done, q, i, l, nd, p, [l] + Without(out[src], l));
  }

  /** The same for a link that does not improve it. */
  lemma RecordLast(g: Graph, t: NodeId, dist: map<NodeId, Num>, out: map<NodeId, seq<LinkId>>, done: seq<NodeId>,
                   q: seq<NodeId>, i: nat, l: LinkId)
    requires Visiting(g, t, dist, out, done, q, i + 1) && Recorded(g, out, done, i) && Current(g, done, i, l)
    requires Usable(g, l) && g.links[l].dest == done[|done| - 1]
    ensures g.links[l].src in out
    ensures var src := g.links[l].src; var out' := if l in out[src] then out else out[src := out[src] + [l]];
            Visiting(g, t, dist, out', done, q, i + 1) && Recorded(g, out', done, i + 1)
  {
    RecordEnd(g, out, done, i, l);
    VisitRecorded(g, t, dist, out, done, q, i + 1, g.links[l].src, l);
  }

  /** The link of the search by hops that is looked at; one that cannot be used changes nothing. */
  lemma HopCurrent(g: Graph, t: NodeId, dist: map<NodeId, Num>, out: map<NodeId, seq<LinkId>>, done: seq<NodeId>,
                   q: seq<NodeId>, i: nat, l: LinkId)
    requires Hopping(g, t, dist, out, done, q, i) && Recorded(g, out, done, i) && Current(Unit(g), done, i, l)
    ensures l in g.links && g.links[l].dest == done[|done| - 1] && g.links[l].src in g.nodes
    ensures g.links[l].enabled && g.nodes[g.links[l].src].enabled ==> Usable(g, l)
    ensures !Usable(g, l) ==> Hopping(g, t, dist, out, done, q, i + 1) && Recorded(g, out, done, i + 1)
  {
    CurrentLink(Unit(g), dist, done, q, i, l);
    if !Usable(g, l) {
      HopKnown(g, t, dist, out, done, q, i, l);
      Unusable(g, out, done, i, l);
    }
  }

  /** A usable link of the search by hops: its source is reached, if it is not yet, and it is recorded. */
  lemma HopLooked(g: Graph, t: NodeId, dist: map<NodeId, Num>, out: map<NodeId, seq<LinkId>>, done: seq<NodeId>,
                  q: seq<NodeId>, i: nat, l: LinkId)
    requires Hopping(g, t, dist, out, done, q, i) && Recorded(g, out, done, i)
    requires Current(Unit(g), done, i, l) && Usable(g, l) && g.links[l].dest == done[|done| - 1]
    ensures g.links[l].src in out && g.links[l].src in dist && done[|done| - 1] in dist
    ensures var v, w := done[|done| - 1], g.links[l].src;
            var first := dist[w] == Inf;
            var out' := if l in out[w] then out else out[w := out[w] + [l]];
            && Hopping(g, t, if first then dist[w := Plus(dist[v], Fin(1.0))] else dist, out', done,
                       if first then q + [w] else q, i + 1)
            && Recorded(g, out', done, i + 1)
  {
    var w := g.links[l].src;
    RecordEnd(g, out, done, i, l);
    if dist[w] == Inf {
      HopReached(g, t, dist, out, done, q, i, l);
      assert [] + [l] == [l];
    } else {
      HopKnown(g, t, dist, out, done, q, i, l);
      HopRecorded(g, t, dist, out, done, q, i + 1, w, l);
    }
  }

  lemma RecordsOfVisit(g: Graph, out: map<NodeId, seq<LinkId>>, done: seq<NodeId>)
    requires InListed(g) && done != [] && done[|done| - 1] in g.nodes
    requires Recorded(g, out, done, |g.nodes[done[|done| - 1]].inLinks|)
    ensures RecordedAll(g, out, done)
  {
    var u, before := done[|done| - 1], done[..|done| - 1];
    var n := |g.nodes[u].inLinks|;
    assert done == before + [u] && g.nodes[u].inLinks[..n] == g.nodes[u].inLinks;
    forall v, l | v in out
      ensures l in out[v] <==> Usable(g, l) && g.links[l].dest in done && g.links[l].src == v
    {
      assert l in g.nodes[u].inLinks <==> l in g.links && g.links[l].dest == u;
      assert RecordedAt(g, out, done, n, v, l);
    }
  }

  lemma RecordsEnd(g: Graph, t: NodeId, dist: map<NodeId, Num>, out: map<NodeId, seq<LinkId>>, done: seq<NodeId>)
    requires Frontier(dist, done, []) && dist.Keys == g.nodes.Keys && RecordedAll(g, out, done)
    ensures AllPaths(g, dist, out)
  {
    forall v | v in g.nodes ensures v in done <==> v in dist && dist[v] != Inf {
      assert v in done || v in [] <==> v in dist && dist[v].Fin?;
    }
  }
}
