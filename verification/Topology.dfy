/** The topology graph: editing its nodes and links, and the two single-target shortest-path searches. */
module Topologies {
  import opened Wrappers
  import opened Lists
  import opened TopologyPaths
  import opened TopologyLists
  import opened TopologyRecords

  class Topology {
    /** Nodes in the order of their module ids. */
    var order: seq<NodeId>
    var nodes: map<NodeId, Node>
    var links: map<LinkId, Link>

    /** Results of the last search. */
    var dist: map<NodeId, Num>
    var outPaths: map<NodeId, seq<LinkId>>

    ghost function G(): Graph
      reads this`nodes, this`links
    {
      Graph(nodes, links)
    }

    ghost predicate Valid()
      reads this
    {
      Whole(G(), order, dist, outPaths)
    }

    // ---------------------------------------------------------- searches

    method ClearLabels()
      requires (forall v :: v in order <==> v in nodes) && dist.Keys == nodes.Keys && outPaths.Keys == nodes.Keys
      modifies this`dist, this`outPaths
      ensures dist.Keys == nodes.Keys && outPaths.Keys == nodes.Keys
      ensures forall v :: v in order ==> dist[v] == Inf && outPaths[v] == []
    {
      for i := 0 to |order|
        invariant dist.Keys == nodes.Keys && outPaths.Keys == nodes.Keys
        invariant forall v :: v in order[..i] ==> v in dist && dist[v] == Inf && outPaths[v] == []
      {
        assert order[i] in order && order[..i + 1] == order[..i] + [order[i]];
        dist := dist[order[i] := Inf];
        outPaths := outPaths[order[i] := []];
      }
      assert order[..|order|] == order;
    }

    /** Where a node with label d is inserted into the ordered queue. */
    method FindPlace(q: seq<NodeId>, d: Num) returns (p: nat)
      requires (forall v :: v in q ==> v in dist) && Ascending(dist, q)
      ensures Place(dist, q, p, d)
    {
      p := 0;
      while p < |q|
        invariant p <= |q| && forall j :: 0 <= j < p && q[j] in dist ==> Le(dist[q[j]], d)
      {
        if Lt(d, dist[q[p]]) { break; }
        p := p + 1;
      }
    }

    /** Dijkstra's search from the target against the direction of the links. */
    method WeightedSearch(target: NodeId)
      requires Valid() && Positive(G()) && target in nodes
      modifies this`dist, this`outPaths
      ensures Valid() && dist[target] == Fin(0.0)
      ensures Minimal(G(), target, dist) && Attained(G(), target, dist, outPaths)
      ensures AllPaths(G(), dist, outPaths)
    {
      ClearLabels();
      dist := dist[target := Fin(0.0)];
      LinkedInLinks(G());
      ghost var done := RunWeighted(target);
      SearchEnds(G(), target, dist, outPaths, done);
      RecordsEnd(G(), target, dist, outPaths, done);
    }

    /** Its loop over the queue. */
    method RunWeighted(target: NodeId) returns (ghost done: seq<NodeId>)
      requires InLinksOk(G()) && InListed(G()) && Positive(G()) && Started(G(), target, dist, outPaths)
      modifies this`dist, this`outPaths
      ensures Searching(G(), target, dist, outPaths, done, []) && AllRelaxed(G(), target, dist, done)
      ensures RecordedAll(G(), outPaths, done)
    {
      var q := [target];
      done := [];
      ghost var g := G();
      SearchStarts(g, target, dist, outPaths);
      NothingYet(g, outPaths);
      while q != []
        invariant Searching(g, target, dist, outPaths, done, q) && AllRelaxed(g, target, dist, done)
        invariant RecordedAll(g, outPaths, done)
        invariant target in done || (done == [] && q == [target])
        decreases |nodes| - |done|
      {
        q, done := VisitWeighted(target, q, done);
      }
    }

    /** Looks at all in-links of the node taken from the queue. */
    method VisitWeighted(target: NodeId, q: seq<NodeId>, ghost done: seq<NodeId>)
        returns (q': seq<NodeId>, ghost done': seq<NodeId>)
      requires InLinksOk(G()) && Positive(G()) && Searching(G(), target, dist, outPaths, done, q)
               && AllRelaxed(G(), target, dist, done)
      requires q != [] && (target in done || (done == [] && q == [target]))
      requires InListed(G()) && RecordedAll(G(), outPaths, done)
      modifies this`dist, this`outPaths
      ensures Searching(G(), target, dist, outPaths, done', q') && AllRelaxed(G(), target, dist, done')
      ensures RecordedAll(G(), outPaths, done')
      ensures target in done' && |done| < |done'| <= |nodes|
    {
      VisitStarts(G(), target, dist, outPaths, done, q);
      VisitRecords(G(), outPaths, done, q[0]);
      done' := done + [q[0]];
      q' := VisitLinksWeighted(q[0], target, q[1..], done');
      VisitEnds(G(), target, dist, outPaths, done', q');
      RecordsOfVisit(G(), outPaths, done');
    }

    method VisitLinksWeighted(dest: NodeId, target: NodeId, q: seq<NodeId>, ghost done: seq<NodeId>)
        returns (q': seq<NodeId>)
      requires InLinksOk(G()) && Positive(G()) && Visiting(G(), target, dist, outPaths, done, q, 0)
      requires dest == done[|done| - 1] && Recorded(G(), outPaths, done, 0)
      modifies this`dist, this`outPaths
      ensures Visiting(G(), target, dist, outPaths, done, q', |nodes[dest].inLinks|)
      ensures Recorded(G(), outPaths, done, |nodes[dest].inLinks|)
    {
      q' := q;
      ghost var g := G();
      var ins := nodes[dest].inLinks;
      for i := 0 to |ins|
        invariant g == G() && Visiting(g, target, dist, outPaths, done, q', i) && Recorded(g, outPaths, done, i)
      {
        q' := RelaxWeighted(ins[i], dest, target, q', done, i);
      }
    }

    /** Looks at one in-link of the node taken from the queue. */
    method RelaxWeighted(l: LinkId, dest: NodeId, target: NodeId, q: seq<NodeId>, ghost done: seq<NodeId>, ghost i: nat)
      returns (q': seq<NodeId>)
      requires InLinksOk(G()) && Positive(G()) && Visiting(G(), target, dist, outPaths, done, q, i)
               && Current(G(), done, i, l)
      requires dest == done[|done| - 1] && Recorded(G(), outPaths, done, i)
      modifies this`dist, this`outPaths
      ensures Visiting(G(), target, dist, outPaths, done, q', i + 1) && Recorded(G(), outPaths, done, i + 1)
      ensures l in links && links[l].src in old(outPaths)
      ensures outPaths == old(outPaths) || dist != old(dist)
              || outPaths == old(outPaths)[links[l].src := old(outPaths)[links[l].src] + [l]]
    {
      q' := q;
      CurrentLink(G(), dist, done, q, i, l);
      var src := links[l].src;
      if !links[l].enabled || !nodes[src].enabled {
        VisitNext(G(), target, dist, outPaths, done, q, i, l);
        Unusable(G(), outPaths, done, i, l);
        return;
      }
      var newdist := Plus(dist[dest], links[l].weight);
      if dest != target {
        newdist := Plus(newdist, nodes[dest].weight);
      }
      if newdist != Inf && Lt(newdist, dist[src]) {
        q' := Improve(l, src, newdist, target, q, done, i);
      } else {
        VisitNext(G(), target, dist, outPaths, done, q, i, l);
        RecordLast(G(), target, dist, outPaths, done, q, i, l);
        if l !in outPaths[src] {
          outPaths := outPaths[src := outPaths[src] + [l]];
        }
      }
    }

    /** A shorter path: src is moved to its new place in the queue and l becomes its first path. */
    method Improve(l: LinkId, src: NodeId, newdist: Num, target: NodeId, q: seq<NodeId>, ghost done: seq<NodeId>,
                   ghost i: nat)
      returns (q': seq<NodeId>)
      requires InLinksOk(G()) && Positive(G()) && Visiting(G(), target, dist, outPaths, done, q, i)
               && Current(G(), done, i, l)
      requires Usable(G(), l) && src == links[l].src && links[l].dest in dist && src in dist
      requires newdist == Step(G(), target, l, dist[links[l].dest]) && newdist.Fin? && Lt(newdist, dist[src])
      requires Recorded(G(), outPaths, done, i)
      modifies this`dist, this`outPaths
      ensures Visiting(G(), target, dist, outPaths, done, q', i + 1) && Recorded(G(), outPaths, done, i + 1)
      ensures src in old(outPaths) && dist == old(dist)[src := newdist]
      ensures outPaths == old(outPaths)[src := [l] + Without(old(outPaths)[src], l)]
    {
      QueueParts(dist, done, q, src);
      q' := if dist[src] != Inf then Without(q, src) else q;
      var p := FindPlace(q', newdist);
      ImprovedFirst(G(), target, dist, outPaths, done, q, i, l, newdist, p);
      Relabel(src, newdist, [l] + Without(outPaths[src], l));
      q' := PutAt(q', p, src);
    }

    /** The new label of a node, and its recorded paths. */
    method Relabel(v: NodeId, d: Num, outs: seq<LinkId>)
      modifies this`dist, this`outPaths
      ensures dist == old(dist)[v := d] && outPaths == old(outPaths)[v := outs]
    {
      dist := dist[v := d];
      outPaths := outPaths[v := outs];
    }

    /** Breadth-first search from the target against the direction of the links. */
    method UnweightedSearch(target: NodeId)
      requires Valid() && target in nodes
      modifies this`dist, this`outPaths
      ensures Valid() && dist[target] == Fin(0.0)
      ensures Minimal(Unit(G()), target, dist) && Attained(Unit(G()), target, dist, outPaths)
      ensures FewestHops(G(), target, dist, outPaths) && AllPaths(G(), dist, outPaths)
    {
      LabelUnweighted(target);
      Relabelled(G(), order, old(dist), old(outPaths), dist, outPaths);
    }

    method LabelUnweighted(target: NodeId)
      requires Valid() && target in nodes
      modifies this`dist, this`outPaths
      ensures dist.Keys == nodes.Keys && outPaths.Keys == nodes.Keys && dist[target] == Fin(0.0)
      ensures Minimal(Unit(G()), target, dist) && Attained(Unit(G()), target, dist, outPaths)
      ensures FewestHops(G(), target, dist, outPaths) && AllPaths(G(), dist, outPaths)
    {
      ghost var g := G();
      StartUnweighted(target);
      ghost var done := RunUnweighted(target);
      HopSearchEnds(g, target, dist, outPaths, done);
      RecordsEnd(g, target, dist, outPaths, done);
    }

    method StartUnweighted(target: NodeId)
      requires Valid() && target in nodes
      modifies this`dist, this`outPaths
      ensures Linked(Unit(G())) && Positive(Unit(G())) && InLinksOk(Unit(G()))
      ensures Started(Unit(G()), target, dist, outPaths)
    {
      ClearLabels();
      dist := dist[target := Fin(0.0)];
      UnitLinked(G());
      LinkedInLinks(Unit(G()));
    }

    method RunUnweighted(target: NodeId) returns (ghost done: seq<NodeId>)
      requires InLinksOk(Unit(G())) && InListed(G()) && Started(Unit(G()), target, dist, outPaths)
      modifies this`dist, this`outPaths
      ensures Searching(Unit(G()), target, dist, outPaths, done, []) && AllRelaxed(Unit(G()), target, dist, done)
      ensures RecordedAll(G(), outPaths, done)
    {
      var q := [target];
      done := [];
      SearchStarts(Unit(G()), target, dist, outPaths);
      NothingYet(G(), outPaths);
      while q != []
        invariant HopSearching(G(), target, dist, outPaths, done, q) && RecordedAll(G(), outPaths, done)
        decreases |nodes| - |done|
      {
        q, done := VisitUnweighted(target, q, done);
      }
    }

    method VisitUnweighted(target: NodeId, q: seq<NodeId>, ghost done: seq<NodeId>)
        returns (q': seq<NodeId>, ghost done': seq<NodeId>)
      requires InLinksOk(Unit(G())) && HopSearching(G(), target, dist, outPaths, done, q) && q != []
      requires InListed(G()) && RecordedAll(G(), outPaths, done)
      modifies this`dist, this`outPaths
      ensures HopSearching(G(), target, dist, outPaths, done', q') && |done| < |done'| <= |nodes|
      ensures RecordedAll(G(), outPaths, done')
    {
      ghost var g := G();
      HopStarts(g, target, dist, outPaths, done, q);
      VisitRecords(g, outPaths, done, q[0]);
      done' := done + [q[0]];
      q' := VisitLinksUnweighted(q[0], target, q[1..], done');
      HopEnds(g, target, dist, outPaths, done', q');
      RecordsOfVisit(g, outPaths, done');
    }

    method VisitLinksUnweighted(v: NodeId, target: NodeId, q: seq<NodeId>, ghost done: seq<NodeId>)
        returns (q': seq<NodeId>)
      requires Hopping(G(), target, dist, outPaths, done, q, 0) && v == done[|done| - 1]
      requires Recorded(G(), outPaths, done, 0)
      modifies this`dist, this`outPaths
      ensures Hopping(G(), target, dist, outPaths, done, q', |Unit(G()).nodes[v].inLinks|)
      ensures Recorded(G(), outPaths, done, |nodes[v].inLinks|)
    {
      q' := q;
      ghost var g := G();
      var ins := nodes[v].inLinks;
      for i := 0 to |ins|
        invariant g == G() && Hopping(g, target, dist, outPaths, done, q', i) && Recorded(g, outPaths, done, i)
      {
        q' := RelaxUnweighted(ins[i], v, target, q', done, i);
      }
    }

    method RelaxUnweighted(l: LinkId, v: NodeId, target: NodeId, q: seq<NodeId>, ghost done: seq<NodeId>, ghost i: nat)
      returns (q': seq<NodeId>)
      requires Hopping(G(), target, dist, outPaths, done, q, i) && Current(Unit(G()), done, i, l)
      requires v == done[|done| - 1] && Recorded(G(), outPaths, done, i)
      modifies this`dist, this`outPaths
      ensures Hopping(G(), target, dist, outPaths, done, q', i + 1) && Recorded(G(), outPaths, done, i + 1)
    {
      q' := q;
      ghost var g := G();
      HopCurrent(g, target, dist, outPaths, done, q, i, l);
      var w := links[l].src;
      if !links[l].enabled || !nodes[w].enabled { return; }
      HopLooked(g, target, dist, outPaths, done, q, i, l);
      q' := Reach(l, v, w, q);
    }

    /** The source of a link that is looked at is reached, and has the link among its paths. */
    method Reach(l: LinkId, v: NodeId, w: NodeId, q: seq<NodeId>) returns (q': seq<NodeId>)
      requires v in dist && w in dist && w in outPaths
      modifies this`dist, this`outPaths
      ensures var first := old(dist)[w] == Inf;
              && dist == (if first then old(dist)[w := Plus(old(dist)[v], Fin(1.0))] else old(dist))
              && q' == (if first then q + [w] else q)
      ensures outPaths == var outs := old(outPaths)[w];
                          if l in outs then old(outPaths) else old(outPaths)[w := outs + [l]]
    {
      q' := q;
      if dist[w] == Inf {
        dist := dist[w := Plus(dist[v], Fin(1.0))];
        q' := q' + [w];
      }
      if l !in outPaths[w] {
        outPaths := outPaths[w := outPaths[w] + [l]];
      }
    }

    // ---------------------------------------------------------- editing

    constructor ()
      ensures Valid() && nodes == map[] && links == map[]
    {
      order, nodes, links, dist, outPaths := [], map[], map[], map[], map[];
    }

    /** The first place whose node's module id is not less. */
    method LowerBound(moduleId: Int32) returns (first: nat)
      requires forall v :: v in order ==> v in nodes
      requires ById(order, nodes)
      ensures first <= |order|
      ensures forall i :: 0 <= i < first ==> Key(nodes[order[i]].moduleId) < Key(moduleId)
      ensures forall i :: first <= i < |order| ==> Key(moduleId) <= Key(nodes[order[i]].moduleId)
    {
      first := 0;
      var count: nat := |order|;
      while count > 0
        invariant first + count <= |order|
        invariant forall i :: 0 <= i < first ==> Key(nodes[order[i]].moduleId) < Key(moduleId)
        invariant forall i :: first + count <= i < |order| ==> Key(moduleId) <= Key(nodes[order[i]].moduleId)
      {
        var step := count / 2;
        var it := first + step;
        if Key(nodes[order[it]].moduleId) < Key(moduleId) {
          first := it + 1;
          count := count - (step + 1);
        } else {
          count := step;
        }
      }
    }

    /** Finds a node by its module id, if there is one. */
    method GetNodeFor(moduleId: Int32) returns (r: Option<NodeId>)
      requires Valid()
      ensures r.Some? ==> r.value in nodes && nodes[r.value].moduleId == moduleId
      ensures r.Some? ==> exists i :: 0 <= i < |order| && order[i] == r.value
                            && forall j :: 0 <= j < i && order[j] in nodes ==> nodes[order[j]].moduleId != moduleId
      ensures r.None? ==> forall v :: v in nodes ==> nodes[v].moduleId != moduleId
    {
      var it := LowerBound(moduleId);
      if it == |order| || nodes[order[it]].moduleId != moduleId {
        r := None;
        forall v | v in nodes ensures nodes[v].moduleId != moduleId {
          var i :| 0 <= i < |order| && order[i] == v;
          if i >= it { assert Key(nodes[order[it]].moduleId) <= Key(nodes[order[i]].moduleId); }
        }
      } else {
        r := Some(order[it]);
        assert order[it] in order;
      }
    }

    /** Adds a node without links at its place in the order. */
    method AddNode(v: NodeId, moduleId: Int32, weight: Num) returns (index: nat)
      requires Valid() && v !in nodes
      modifies this
      ensures Valid() && nodes == old(nodes)[v := Node(moduleId, weight, true, [], [])] && links == old(links)
      ensures index <= |old(order)| && order == PutAt(old(order), index, v)
    {
      index := PlaceFor(moduleId);
      var n := Node(moduleId, weight, true, [], []);
      NodeAdded(G(), order, dist, outPaths, index, v, n);
      Become(PutAt(order, index, v), nodes[v := n], dist[v := Inf], outPaths[v := []]);
    }

    /** A module id of -1 goes last. */
    method PlaceFor(moduleId: Int32) returns (index: nat)
      requires Valid()
      ensures InPlace(order, nodes, index, moduleId)
    {
      index := |order|;
      if moduleId != -1 {
        index := LowerBound(moduleId);
      }
    }

    /** The new nodes, their order and their labels. */
    method Become(o: seq<NodeId>, n: map<NodeId, Node>, d: map<NodeId, Num>, out: map<NodeId, seq<LinkId>>)
      requires Whole(Graph(n, links), o, d, out)
      modifies this`order, this`nodes, this`dist, this`outPaths
      ensures Valid() && order == o && nodes == n && dist == d && outPaths == out
    {
      order, nodes, dist, outPaths := o, n, d, out;
    }

    /** Takes a link out of the lists of its two ends. */
    method Unlink(l: LinkId)
      requires l in links && links[l].src in nodes && links[l].dest in nodes
      modifies this`nodes
      ensures nodes == Unlisted(old(G()), l)
    {
      var s, d := links[l].src, links[l].dest;
      nodes := nodes[s := nodes[s].(outLinks := Erase(nodes[s].outLinks, l))];
      nodes := nodes[d := nodes[d].(inLinks := Erase(nodes[d].inLinks, l))];
    }

    /** Takes a link out of the graph. */
    method Detach(l: LinkId)
      requires Linked(G()) && l in links
      modifies this`nodes, this`links
      ensures Linked(G()) && links == old(links) - {l} && OnlyLists(old(nodes), nodes)
    {
      UnlinkLinked(G(), l);
      UnlistedOnly(G(), l);
      Unlink(l);
      links := links - {l};
    }

    /** Puts a link into the graph. */
    method Attach(l: LinkId, link: Link)
      requires Linked(G()) && l !in links && link.src in nodes && link.dest in nodes
      modifies this`nodes, this`links
      ensures Linked(G()) && links == old(links)[l := link] && OnlyLists(old(nodes), nodes)
      ensures LastListed(nodes, link.src, link.dest, l)
    {
      AttachLinked(G(), l, link);
      ListedLast(nodes, l, link.src, link.dest);
      links := links[l := link];
      nodes := nodes[link.src := nodes[link.src].(outLinks := nodes[link.src].outLinks + [l])];
      nodes := nodes[link.dest := nodes[link.dest].(inLinks := nodes[link.dest].inLinks + [l])];
    }

    /** Puts a link between two nodes; a link that is in the graph already is moved, with its attributes. */
    method AddLink(l: LinkId, weight: Num, enabled: bool, src: NodeId, dest: NodeId)
      requires Valid() && src in nodes && dest in nodes
      requires l in links ==> links[l].weight == weight && links[l].enabled == enabled
      modifies this`nodes, this`links
      ensures Valid() && links == old(links)[l := Link(src, dest, weight, enabled)]
      ensures OnlyLists(old(nodes), nodes) && LastListed(nodes, src, dest, l)
    {
      Move(l, Link(src, dest, weight, enabled));
      StaysOrdered(order, old(nodes), nodes);
    }

    method Move(l: LinkId, link: Link)
      requires Linked(G()) && link.src in nodes && link.dest in nodes
      modifies this`nodes, this`links
      ensures Linked(G()) && links == old(links)[l := link] && OnlyLists(old(nodes), nodes)
      ensures LastListed(nodes, link.src, link.dest, l)
    {
      if l in links {
        Detach(l);
      }
      ghost var n1, k1 := nodes, links;
      Attach(l, link);
      OnlyListsTrans(old(nodes), n1, nodes);
      PutAgain(old(links), k1, l, link);
    }

    /** Removes a link from the graph. */
    method DeleteLink(l: LinkId)
      requires Valid() && l in links
      modifies this`nodes, this`links
      ensures Valid() && links == old(links) - {l} && OnlyLists(old(nodes), nodes)
    {
      Detach(l);
      StaysOrdered(order, old(nodes), nodes);
    }

    /** Takes a link out of the list at its far end and deletes it. */
    method DropLink(l: LinkId, incoming: bool)
      requires l in links && links[l].src in nodes && links[l].dest in nodes
      modifies this`nodes, this`links
      ensures nodes == ErasedFar(old(nodes), old(links)[l], incoming, l) && links == old(links) - {l}
    {
      var s, d := links[l].src, links[l].dest;
      if incoming {
        nodes := nodes[s := nodes[s].(outLinks := Erase(nodes[s].outLinks, l))];
      } else {
        nodes := nodes[d := nodes[d].(inLinks := Erase(nodes[d].inLinks, l))];
      }
      links := links - {l};
    }

    /** Deletes the outgoing links of a node. */
    method DeleteOutLinks(v: NodeId)
      requires Linked(G()) && v in nodes
      modifies this`nodes, this`links
      ensures Linked(G()) && v in nodes && nodes[v].outLinks == []
      ensures OnlyLists(old(nodes), nodes) && OnlyLinksOf(old(links), links, v)
    {
      var outs := nodes[v].outLinks;
      ghost var vnodes: map<NodeId, Node> := nodes;
      CutStart(nodes, links, v, false);
      for i := 0 to |outs|
        invariant PartlyCut(vnodes, links, v, false, outs, i) && nodes == WithList(vnodes, v, false, outs)
        invariant OnlyLists(old(nodes), vnodes) && OnlyLinksOf(old(links), links, v)
      {
        CutStep(old(nodes), old(links), vnodes, links, v, false, outs, i);
        vnodes := Unlisted(Graph(vnodes, links), outs[i]);
        DropLink(outs[i], false);
      }
      CutEnd(vnodes, links, v, false, outs);
      nodes := nodes[v := nodes[v].(outLinks := [])];
      assert G() == Graph(vnodes, links);
    }

    /** Deletes the incoming links of a node. */
    method DeleteInLinks(v: NodeId)
      requires Linked(G()) && v in nodes && nodes[v].outLinks == []
      modifies this`nodes, this`links
      ensures Linked(G()) && v in nodes && nodes[v].outLinks == [] && nodes[v].inLinks == []
      ensures OnlyLists(old(nodes), nodes) && OnlyLinksOf(old(links), links, v)
    {
      var ins := nodes[v].inLinks;
      ghost var vnodes: map<NodeId, Node> := nodes;
      CutStart(nodes, links, v, true);
      for i := 0 to |ins|
        invariant PartlyCut(vnodes, links, v, true, ins, i) && nodes == WithList(vnodes, v, true, ins)
        invariant OnlyLists(old(nodes), vnodes) && OnlyLinksOf(old(links), links, v)
      {
        CutStep(old(nodes), old(links), vnodes, links, v, true, ins, i);
        vnodes := Unlisted(Graph(vnodes, links), ins[i]);
        DropLink(ins[i], true);
      }
      CutEnd(vnodes, links, v, true, ins);
      nodes := nodes[v := nodes[v].(inLinks := [])];
      assert G() == Graph(vnodes, links);
    }

    /** Deletes all links of a node. */
    method DeleteLinksOf(v: NodeId)
      requires Linked(G()) && v in nodes
      modifies this`nodes, this`links
      ensures Linked(G()) && v in nodes && nodes[v].outLinks == [] && nodes[v].inLinks == []
      ensures OnlyLists(old(nodes), nodes) && OnlyLinksOf(old(links), links, v)
    {
      DeleteOutLinks(v);
      ghost var n1, l1 := nodes, links;
      DeleteInLinks(v);
      OnlyListsTrans(old(nodes), n1, nodes);
      OnlyLinksTrans(old(links), l1, links, v);
    }

    /** Removes a node and exactly the links that begin or end there. */
    method DeleteNode(v: NodeId)
      requires Valid() && v in nodes
      modifies this
      ensures Valid() && v !in nodes && OnlyLists(old(nodes) - {v}, nodes) && LinksWithout(old(links), links, v)
    {
      ghost var n0 := nodes;
      DeleteLinksOf(v);
      DropNode(v, n0, old(links));
    }

    /** Forgets a node without links. */
    method DropNode(v: NodeId, ghost n0: map<NodeId, Node>, ghost k0: map<LinkId, Link>)
      requires Linked(G()) && v in nodes && nodes[v].outLinks == [] && nodes[v].inLinks == []
      requires OnlyLists(n0, nodes) && OnlyLinksOf(k0, links, v)
      requires Ordered(order, n0)
      requires dist.Keys == nodes.Keys && outPaths.Keys == nodes.Keys
      modifies this
      ensures Valid() && links == old(links) && v !in nodes && OnlyLists(n0 - {v}, nodes) && LinksWithout(k0, links, v)
    {
      NodeRemoved(n0, k0, G(), order, dist, outPaths, v);
      Become(Erase(order, v), nodes - {v}, dist - {v}, outPaths - {v});
    }
  }
}
