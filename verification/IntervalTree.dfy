/** The red-black interval tree: nodes linked by parent and child links, changed in place.

    A node address is an id in the pool `nodes`. The mirror-image branches of the fixup loops are
    one branch here, with the side on which the node hangs as a variable. */
module IntervalTrees {
  import opened IntervalShape
  import opened IntervalHeap
  import opened IntervalColour
  import opened IntervalEdit
  import opened IntervalQuery

  ghost function Depth(c: Ctx): nat { if c.Top? then 0 else 1 + Depth(c.up) }

  class IntervalTree {
    var nodes: Pool
    var next: Id

    /** The nodes that a query has open; its bottom entry stands for none. */
    var stack: seq<Visit>
    var top: nat
    var currentParent: nat

    /** The tree that the nodes represent. */
    ghost var tree: Tree

    ghost predicate Valid()
      reads this
    {
      && ZipShape(nodes, Top, tree)
      && RedBlack(tree) && MaxOk(tree) && Sorted(Inorder(tree))
      && nodes.Keys == TreeIds(tree) + {NIL, ROOT}
      && (forall i :: i in nodes ==> i < next)
      && top == 1 <= |stack|
    }

    /** The stored entries in key order. */
    ghost function Contents(): seq<Entry>
      reads this
    {
      Inorder(tree)
    }

    constructor ()
      ensures Valid() && Contents() == []
    {
      var empty := Interval(-MAXTIME, -MAXTIME, 0);
      nodes := map[NIL := Rec(empty, -MAXTIME, false, NIL, NIL, NIL),
                   ROOT := Rec(Interval(MAXTIME, MAXTIME, 0), MAXTIME, false, NIL, NIL, NIL)];
      next := 2;
      stack := seq(128, _ => Visit(NIL, 0, false));
      top := 1;
      currentParent := 0;
      tree := Leaf;
      assert Balanced(Leaf, 0);
    }

    /** leftRotate (s = Left) and rightRotate (s = Right). */
    method Rotate(s: Side, x: Id, ghost c: Ctx, ghost t: Tree)
      requires ZipShape(nodes, c, t) && t.Node? && t.id == x && Sub(t, Other(s)).Node?
      modifies this`nodes
      ensures ZipShape(nodes, c, RotTree(t, s)) && Kept(Plug(c, t), Plug(c, RotTree(t, s)))
      ensures nodes.Keys == old(nodes.Keys) && nodes[NIL] == old(nodes[NIL])
    {
      TurnZip(nodes, c, t, s);
      RotTreeKeeps(c, t, s);
      var y := Child(nodes[x], Other(s));
      Relink(s, x, y);
      UpdateMaxHigh(x);
      UpdateMaxHigh(y);
    }

    /** The link assignments of a rotation, in order. */
    method Relink(s: Side, x: Id, y: Id)
      requires CanRotate(nodes, s, x) && y == Child(nodes[x], Other(s))
      modifies this`nodes
      ensures nodes == Rotated(old(nodes), s, x)
    {
      var b := Child(nodes[y], s);
      nodes := nodes[x := WithChild(nodes[x], Other(s), b)];
      if b != NIL {
        nodes := nodes[b := nodes[b].(parent := x)];
      }
      nodes := nodes[y := nodes[y].(parent := nodes[x].parent)];
      var p := nodes[x].parent;
      if nodes[p].left == x {
        nodes := nodes[p := nodes[p].(left := y)];
      } else {
        nodes := nodes[p := nodes[p].(right := y)];
      }
      nodes := nodes[y := WithChild(nodes[y], s, x)];
      nodes := nodes[x := nodes[x].(parent := y)];
    }

    /** One recomputation of max_high from the children. */
    method UpdateMaxHigh(x: Id)
      requires x in nodes && nodes[x].left in nodes && nodes[x].right in nodes
      modifies this`nodes
      ensures nodes == Remax(old(nodes), x)
    {
      nodes := nodes[x := nodes[x].(maxHigh := Max(nodes[nodes[x].left].maxHigh,
          Max(nodes[nodes[x].right].maxHigh, nodes[x].item.high)))];
    }

    method Paint(x: Id, red: bool, ghost c: Ctx, ghost t: Tree)
      requires ZipShape(nodes, c, t) && t.Node? && t.id == x
      modifies this`nodes
      ensures ZipShape(nodes, c, t.(red := red)) && Kept(Plug(c, t), Plug(c, t.(red := red)))
      ensures x in old(nodes) && nodes == old(nodes)[x := old(nodes)[x].(red := red)]
      ensures x != NIL && nodes.Keys == old(nodes.Keys)
    {
      Links(nodes, c, t);
      RootUpdated(nodes, c, t, t.maxHigh, red);
      PaintKeeps(c, t, red);
      nodes := nodes[x := nodes[x].(red := red)];
    }

    /** Walks from the node above the hole to the root, recomputing max_high. */
    method FixupMaxHigh(start: Id, ghost c: Ctx, ghost t: Tree)
      requires ZipShape(nodes, c, t) && start == CtxId(c)
      modifies this`nodes
      ensures ZipShape(nodes, FixCtx(c, MaxOf(t)), t) && OnlyMaxima(old(nodes), nodes)
    {
      var x := start;
      ghost var c', t' := c, t;
      while x != ROOT
        invariant ZipShape(nodes, c', t') && x == CtxId(c')
        invariant Plug(FixCtx(c', MaxOf(t')), t') == Plug(FixCtx(c, MaxOf(t)), t)
        invariant OnlyMaxima(old(nodes), nodes)
        decreases c'
      {
        MaxStep(nodes, c', t');
        UpdateMaxHigh(x);
        c', t' := c'.up, Remaxed(c', t');
        x := nodes[x].parent;
      }
      Links(nodes, c', t');
      assert c'.Top?;
      ZipMove(nodes, c', t', FixCtx(c, MaxOf(t)), t);
    }

    /** The node below which a search for the key ends. */
    method FindPlace(key: Time) returns (y: Id, ghost c: Ctx)
      requires ZipShape(nodes, Top, tree) && Sorted(Inorder(tree))
      ensures ZipShape(nodes, c, Leaf) && Plug(c, Leaf) == tree && y == CtxId(c) && Placed(c, key)
      ensures c.Frame? ==> (c.s.Left? <==> c.item.low > key)
    {
      Links(nodes, Top, tree);
      var x := nodes[ROOT].left;
      y := ROOT;
      c := Top;
      ghost var t := tree;
      while x != NIL
        invariant ZipShape(nodes, c, t) && x == RootId(t) && y == CtxId(c) && Plug(c, t) == tree
        invariant Placed(c, key) && (c.Frame? ==> (c.s.Left? <==> c.item.low > key))
        decreases t
      {
        Links(nodes, c, t);
        SubSorted(c, t);
        StepDown(c, t, key);
        ZipDown(nodes, c, t, Turning(t, key));
        y := x;
        x := if nodes[x].item.low > key then nodes[x].left else nodes[x].right;
        c, t := DownCtx(c, t, Turning(t, key)), Sub(t, Turning(t, key));
      }
      Links(nodes, c, t);
    }

    /** Hangs z below the node where a search for its key ends. */
    method RecursiveInsert(z: Id) returns (ghost c: Ctx, ghost t: Tree)
      requires ZipShape(nodes, Top, tree) && Sorted(Inorder(tree))
      requires z in nodes && z !in TreeIds(tree) && z != NIL && z != ROOT
      modifies this`nodes
      ensures Plug(c, Leaf) == tree && ZipShape(nodes, c, t) && nodes.Keys == old(nodes.Keys)
      ensures var r := old(nodes[z]); Placed(c, r.item.low) && t == Node(Leaf, z, r.item, r.maxHigh, r.red, Leaf)
    {
      ghost var r := nodes[z];
      OutsideUpdate(nodes, tree, z, r.(left := NIL, right := NIL));
      nodes := nodes[z := nodes[z].(left := NIL, right := NIL)];
      var key := nodes[z].item.low;
      var y;
      y, c := FindPlace(key);
      Links(nodes, c, Leaf);
      DistinctPlug(c, Leaf);
      t := Node(Leaf, z, r.item, r.maxHigh, r.red, Leaf);
      HungZip(nodes, c, t);
      var s := if y == ROOT || nodes[y].item.low > key then Left else Right;
      nodes := nodes[z := nodes[z].(parent := y)];
      nodes := nodes[y := WithChild(nodes[y], s, z)];
    }

    /** Paints the other child of the parent. */
    method PaintSibling(w: Id, red: bool, ghost c: Ctx, ghost t: Tree)
      requires ZipShape(nodes, c, t) && c.Frame? && c.sib.Node? && c.sib.id == w
      modifies this`nodes
      ensures var c' := c.(sib := c.sib.(red := red)); ZipShape(nodes, c', t) && Kept(Plug(c, t), Plug(c', t))
      ensures w in old(nodes) && w != NIL && nodes == old(nodes)[w := old(nodes)[w].(red := red)]
              && nodes.Keys == old(nodes.Keys)
    {
      ghost var p := UpTree(c, t);
      ghost var d := DownCtx(c.up, p, Other(c.s));
      ghost var w' := c.sib.(red := red);
      ghost var c' := c.(sib := w');
      ZipUp(nodes, c, t);
      ZipDown(nodes, c.up, p, Other(c.s));
      Paint(w, red, d, c.sib);
      assert UpTree(d, w') == UpTree(c', t);
      ZipMove(nodes, d, w', c', t);
    }

    /** The new node's uncle is red: recolour and go on two levels up. */
    method Recolour(p: Id, g: Id, u: Id, ghost c: Ctx, ghost t: Tree)
      requires ZipShape(nodes, c, t) && c.Frame? && c.up.Frame? && c.up.sib.Node?
      requires p == c.id && g == c.up.id && u == c.up.sib.id
      modifies this`nodes
      ensures ZipShape(nodes, c.up.up, Recoloured(c, t)) && Kept(Plug(c, t), Plug(c.up.up, Recoloured(c, t)))
      ensures nodes.Keys == old(nodes.Keys)
    {
      ghost var p' := UpTree(c.(red := false), t);
      ghost var d := c.up.(sib := Black(c.up.sib));
      RecolouredBy(c, t);
      ZipUp(nodes, c, t);
      Paint(p, false, c.up, UpTree(c, t));
      PaintSibling(u, false, c.up, p');
      ZipUp(nodes, d, p');
      Paint(g, true, c.up.up, UpTree(d, p'));
    }

    /** The new node is an inner grandchild: rotate its parent. */
    method TurnInner(s: Side, p: Id, ghost c: Ctx, ghost t: Tree)
      requires ZipShape(nodes, c, t) && c.Frame? && c.s == Other(s) && t.Node? && p == c.id
      modifies this`nodes
      ensures var r := RotTree(UpTree(c, t), s);
              ZipShape(nodes, DownCtx(c.up, r, s), Sub(r, s)) && Kept(Plug(c, t), Plug(DownCtx(c.up, r, s), Sub(r, s)))
      ensures nodes.Keys == old(nodes.Keys)
    {
      ghost var r := RotTree(UpTree(c, t), s);
      ZipUp(nodes, c, t);
      Rotate(s, p, c.up, UpTree(c, t));
      ZipDown(nodes, c.up, r, s);
    }

    /** The new node is an outer grandchild: recolour and rotate its grandparent. */
    method TurnOuter(s: Side, p: Id, g: Id, ghost c: Ctx, ghost t: Tree)
      requires ZipShape(nodes, c, t) && c.Frame? && c.up.Frame? && c.s == s && c.up.s == s && p == c.id && g == c.up.id
      modifies this`nodes
      ensures var r := RotTree(Repainted(c, t), Other(s));
              ZipShape(nodes, DownCtx(c.up.up, r, s), Sub(r, s))
                  && Kept(Plug(c, t), Plug(DownCtx(c.up.up, r, s), Sub(r, s)))
      ensures nodes.Keys == old(nodes.Keys)
    {
      ZipUp(nodes, c, t);
      Paint(p, false, c.up, UpTree(c, t));
      ghost var p' := UpTree(c.(red := false), t);
      ZipUp(nodes, c.up, p');
      Paint(g, true, c.up.up, UpTree(c.up, p'));
      Rotate(Other(s), g, c.up.up, Repainted(c, t));
      ghost var r := RotTree(Repainted(c, t), Other(s));
      ZipDown(nodes, c.up.up, r, s);
    }

    /** One round of the loop that repairs the colours after an insertion. */
    method RepairInsert(x: Id, ghost c: Ctx, ghost t: Tree, ghost n: nat)
      returns (x': Id, ghost c': Ctx, ghost t': Tree, ghost n': nat)
      requires ZipShape(nodes, c, t) && Rising(c, t, n) && x == t.id && c.Frame? && c.red
      modifies this`nodes
      ensures ZipShape(nodes, c', t') && Rising(c', t', n') && x' == t'.id && Depth(c') < Depth(c)
      ensures Kept(Plug(c, t), Plug(c', t')) && nodes.Keys == old(nodes.Keys)
    {
      HasGrandparent(c, t, n);
      ZipUp(nodes, c, t);
      Links(nodes, c, t);
      Links(nodes, c.up, UpTree(c, t));
      var p := nodes[x].parent;
      var g := nodes[p].parent;
      var s := if p == nodes[g].left then Left else Right;
      var u := Child(nodes[g], Other(s));
      UncleLinks(nodes, c, t);
      if nodes[u].red {
        UncleRed(c, t, n);
        Recolour(p, g, u, c, t);
        x', c', t', n' := g, c.up.up, Recoloured(c, t), n + 1;
      } else {
        x', c', t' := TurnTwice(s, x, p, g, c, t, n);
        n' := n;
      }
    }

    /** The rotations of a round whose uncle is black. */
    method TurnTwice(s: Side, x: Id, p: Id, g: Id, ghost c: Ctx, ghost t: Tree, ghost n: nat)
      returns (x': Id, ghost c': Ctx, ghost t': Tree)
      requires ZipShape(nodes, c, t) && Rising(c, t, n) && x == t.id && c.Frame? && c.red
      requires c.up.Frame? && c.up.s == s && p == c.id && g == c.up.id && !IsRed(c.up.sib)
      modifies this`nodes
      ensures ZipShape(nodes, c', t') && Rising(c', t', n) && x' == t'.id && Depth(c') < Depth(c)
      ensures Kept(Plug(c, t), Plug(c', t')) && nodes.Keys == old(nodes.Keys)
    {
      Links(nodes, c, t);
      x', c', t' := x, c, t;
      if x == Child(nodes[p], Other(s)) {
        InnerChild(c, t, n);
        TurnInner(s, p, c, t);
        ghost var r := RotTree(UpTree(c, t), s);
        x', c', t' := p, DownCtx(c.up, r, s), Sub(r, s);
        Links(nodes, c', t');
      }
      OuterChild(c', t', n);
      TurnOuter(s, nodes[x'].parent, g, c', t');
      c' := DownCtx(c'.up.up, RotTree(Repainted(c', t'), Other(s)), s);
    }

    /** Restores the colours above a red node x. */
    method RepairColours(start: Id, ghost c0: Ctx, ghost t0: Tree)
      requires ZipShape(nodes, c0, t0) && Rising(c0, t0, 0) && start == t0.id
      modifies this`nodes, this`tree
      ensures ZipShape(nodes, Top, tree) && RedBlack(tree) && Kept(Plug(c0, t0), tree) && nodes.Keys == old(nodes.Keys)
    {
      var x := start;
      ghost var c, t, n := c0, t0, 0;
      Links(nodes, c, t);
      while nodes[nodes[x].parent].red
        invariant ZipShape(nodes, c, t) && Rising(c, t, n) && x == t.id
        invariant x in nodes && nodes[x].parent in nodes && nodes[nodes[x].parent].red == (c.Frame? && c.red)
        invariant Kept(Plug(c0, t0), Plug(c, t)) && nodes.Keys == old(nodes.Keys)
        decreases Depth(c)
      {
        x, c, t, n := RepairInsert(x, c, t, n);
        Links(nodes, c, t);
      }
      RisingEnd(c, t, n);
      tree := Plug(c, t);
      ZipMove(nodes, c, t, Top, tree);
      Links(nodes, Top, tree);
      Paint(nodes[ROOT].left, false, Top, tree);
      tree := Black(tree);
    }

    /** Stores an interval behind all those whose low end is not greater. */
    method Insert(item: Interval) returns (x: Id, ghost k: nat)
      requires Valid()
      modifies this
      ensures Valid() && x !in old(nodes) && InsertedAt(old(Contents()), Contents(), k, Entry(x, item))
    {
      ghost var c, t;
      x, c, t := Attach(item);
      k := |Before(c)|;
      NewLeafRises(tree, c, t);
      RepairColours(x, FixCtx(c, MaxOf(t)), t.(red := true));
      LeafKept(old(tree), tree, c, t);
      assert TreeIds(old(tree)) + {NIL, ROOT} + {x} == TreeIds(tree) + {NIL, ROOT};
    }

    /** A new red leaf, hung where it belongs, with the maxima above it recomputed. */
    method Attach(item: Interval) returns (x: Id, ghost c: Ctx, ghost t: Tree)
      requires Valid()
      modifies this`nodes, this`next
      ensures x == old(next) && next == x + 1 && nodes.Keys == old(nodes.Keys) + {x}
      ensures t == Node(Leaf, x, item, item.high, false, Leaf) && Plug(c, Leaf) == tree && Placed(c, item.low)
      ensures ZipShape(nodes, FixCtx(c, MaxOf(t)), t.(red := true))
    {
      x := next;
      next := next + 1;
      OutsideUpdate(nodes, tree, x, Rec(item, item.high, false, NIL, NIL, NIL));
      nodes := nodes[x := Rec(item, item.high, false, NIL, NIL, NIL)];
      c, t := RecursiveInsert(x);
      Links(nodes, c, t);
      FixupMaxHigh(nodes[x].parent, c, t);
      Paint(x, true, FixCtx(c, MaxOf(t)), t);
    }

    // ---------------------------------------------------------- removal

    /** Paints a child of the sibling. */
    method PaintNephew(v: Id, red: bool, ghost o: Side, ghost c: Ctx, ghost t: Tree)
      requires ZipShape(nodes, c, t) && c.Frame? && c.sib.Node? && Sub(c.sib, o).Node? && Sub(c.sib, o).id == v
      modifies this`nodes
      ensures var c' := c.(sib := WithSub(c.sib, o, Sub(c.sib, o).(red := red)));
              ZipShape(nodes, c', t) && Kept(Plug(c, t), Plug(c', t))
      ensures nodes.Keys == old(nodes.Keys) && nodes[NIL] == old(nodes[NIL])
    {
      ghost var p := UpTree(c, t);
      ghost var d := DownCtx(c.up, p, Other(c.s));
      ghost var e := DownCtx(d, c.sib, o);
      ghost var v' := Sub(c.sib, o).(red := red);
      ghost var c' := c.(sib := WithSub(c.sib, o, v'));
      ZipUp(nodes, c, t);
      ZipDown(nodes, c.up, p, Other(c.s));
      ZipDown(nodes, d, c.sib, o);
      Paint(v, red, e, Sub(c.sib, o));
      NephewMoves(c, t, o, v');
      ZipMove(nodes, e, v', c', t);
    }

    /** Red sibling. */
    method TurnRedSibling(s: Side, p: Id, w: Id, ghost c: Ctx, ghost t: Tree)
      requires ZipShape(nodes, c, t) && c.Frame? && c.s == s && p == c.id && c.sib.Node? && w == c.sib.id
      modifies this`nodes
      ensures var r := RotTree(Exchanged(c, t), s);
              && ZipShape(nodes, DownCtx(DownCtx(c.up, r, s), Sub(r, s), s), Sub(Sub(r, s), s))
              && Kept(Plug(c, t), Plug(DownCtx(DownCtx(c.up, r, s), Sub(r, s), s), Sub(Sub(r, s), s)))
      ensures nodes.Keys == old(nodes.Keys) && nodes[NIL] == old(nodes[NIL])
    {
      ghost var c1 := c.(sib := c.sib.(red := false));
      ExchangedBy(c, t);
      PaintSibling(w, false, c, t);
      ZipUp(nodes, c1, t);
      Paint(p, true, c.up, UpTree(c1, t));
      Rotate(s, p, c.up, Exchanged(c, t));
      ghost var r := RotTree(Exchanged(c, t), s);
      ZipDown(nodes, c.up, r, s);
      ZipDown(nodes, DownCtx(c.up, r, s), Sub(r, s), s);
    }

    /** Only the near nephew is red. */
    method TurnNearNephew(s: Side, w: Id, v: Id, ghost c: Ctx, ghost t: Tree)
      requires ZipShape(nodes, c, t) && c.Frame? && c.s == s && c.sib.Node? && w == c.sib.id
      requires Sub(c.sib, s).Node? && Sub(c.sib, s).id == v
      modifies this`nodes
      ensures var c' := c.(sib := RotTree(NearPainted(c), Other(s)));
              ZipShape(nodes, c', t) && Kept(Plug(c, t), Plug(c', t))
      ensures nodes.Keys == old(nodes.Keys) && nodes[NIL] == old(nodes[NIL])
    {
      NearPaintedBy(c);
      PaintNephew(v, false, s, c, t);
      ghost var c1 := c.(sib := WithSub(c.sib, s, Black(Sub(c.sib, s))));
      PaintSibling(w, true, c1, t);
      RotateSibling(Other(s), w, c.(sib := NearPainted(c)), t);
    }

    method RotateSibling(o: Side, w: Id, ghost c: Ctx, ghost t: Tree)
      requires ZipShape(nodes, c, t) && c.Frame? && c.s == Other(o) && c.sib.Node? && w == c.sib.id
               && Sub(c.sib, Other(o)).Node?
      modifies this`nodes
      ensures var c' := c.(sib := RotTree(c.sib, o)); ZipShape(nodes, c', t) && Kept(Plug(c, t), Plug(c', t))
      ensures nodes.Keys == old(nodes.Keys) && nodes[NIL] == old(nodes[NIL])
    {
      ghost var p := UpTree(c, t);
      ghost var d := DownCtx(c.up, p, o);
      ghost var w' := RotTree(c.sib, o);
      ghost var c' := c.(sib := w');
      ZipUp(nodes, c, t);
      ZipDown(nodes, c.up, p, o);
      Rotate(o, w, d, c.sib);
      assert UpTree(d, w') == UpTree(c', t);
      ZipMove(nodes, d, w', c', t);
    }

    /** The far nephew is red. */
    method TurnFarNephew(s: Side, p: Id, w: Id, v: Id, ghost c: Ctx, ghost t: Tree)
      requires ZipShape(nodes, c, t) && c.Frame? && c.s == s && p == c.id && c.sib.Node? && w == c.sib.id
      requires Sub(c.sib, Other(s)).Node? && Sub(c.sib, Other(s)).id == v
      modifies this`nodes
      ensures var r := RotTree(FarPainted(c, t), s); ZipShape(nodes, c.up, r) && Kept(Plug(c, t), Plug(c.up, r))
      ensures nodes.Keys == old(nodes.Keys)
    {
      FarPaintedBy(c, t);
      Links(nodes, c, t);
      ghost var c1 := c.(sib := c.sib.(red := c.red));
      PaintSibling(w, nodes[p].red, c, t);
      ghost var c2 := c1.(red := false);
      ZipUp(nodes, c1, t);
      Paint(p, false, c.up, UpTree(c1, t));
      assert UpTree(c1, t).(red := false) == UpTree(c2, t);
      ZipMove(nodes, c.up, UpTree(c2, t), c2, t);
      PaintNephew(v, false, Other(s), c2, t);
      ZipUp(nodes, c2.(sib := WithSub(c2.sib, Other(s), Black(Sub(c2.sib, Other(s))))), t);
      Rotate(s, p, c.up, FarPainted(c, t));
    }

    /** The sibling of the short node x, made black first if it is red. */
    method BlackSibling(s: Side, x: Id, ghost c: Ctx, ghost t: Tree, ghost n: nat) returns (w: Id, ghost c': Ctx)
      requires ZipShape(nodes, c, t) && Short(c, t, n) && c.Frame? && c.s == s && !IsRed(t)
      requires x == RootId(t) && x in nodes && nodes[x].parent == c.id
      modifies this`nodes
      ensures ZipShape(nodes, c', t) && Short(c', t, n) && Kept(Plug(c, t), Plug(c', t))
              && nodes.Keys == old(nodes.Keys)
      ensures c'.Frame? && c'.s == s && c'.id == c.id && c'.sib.Node? && !c'.sib.red && w == c'.sib.id
      ensures x in nodes && nodes[x].parent == c'.id
      ensures c' == c || (c'.red && c'.up.Frame? && c'.up.up == c.up)
    {
      SiblingExists(c, t, n);
      Links(nodes, c, t);
      SiblingLinks(nodes, c, t);
      var p := nodes[x].parent;
      w := Child(nodes[p], Other(s));
      c' := c;
      if nodes[w].red {
        SiblingRed(c, t, n);
        TurnRedSibling(s, p, w, c, t);
        ghost var r := RotTree(Exchanged(c, t), s);
        c' := DownCtx(DownCtx(c.up, r, s), Sub(r, s), s);
        Links(nodes, c', t);
        SiblingExists(c', t, n);
        w := Child(nodes[nodes[x].parent], Other(s));
      }
    }

    /** Black sibling, at least one red nephew: one or two rotations end the repair. */
    method TurnNephews(s: Side, x: Id, w0: Id, ghost c: Ctx, ghost t: Tree, ghost n: nat)
      requires ZipShape(nodes, c, t) && Short(c, t, n) && c.Frame? && c.s == s && !IsRed(t)
      requires x == RootId(t) && x in nodes && nodes[x].parent == c.id
      requires c.sib.Node? && !c.sib.red && w0 == c.sib.id && (IsRed(Sub(c.sib, s)) || IsRed(Sub(c.sib, Other(s))))
      modifies this`nodes, this`tree
      ensures ZipShape(nodes, Top, tree) && RedBlack(tree) && Kept(Plug(c, t), tree) && nodes.Keys == old(nodes.Keys)
      ensures c.id in nodes && !nodes[c.id].red && (c.up.Frame? ==> RootId(tree) == RootId(Plug(c, t)))
    {
      var w := w0;
      ghost var c' := c;
      NephewLinks(nodes, c, t);
      if !nodes[Child(nodes[w], Other(s))].red {
        NearRed(c, t, n);
        TurnNearNephew(s, w, Child(nodes[w], s), c, t);
        c' := c.(sib := RotTree(NearPainted(c), Other(s)));
        Links(nodes, c', t);
        w := Child(nodes[nodes[x].parent], Other(s));
        NephewLinks(nodes, c', t);
      }
      FarRed(c', t, n);
      TurnFarNephew(s, nodes[x].parent, w, Child(nodes[w], Other(s)), c', t);
      ghost var r := RotTree(FarPainted(c', t), s);
      tree := Plug(c.up, r);
      ZipDown(nodes, c.up, r, s);
      Links(nodes, DownCtx(c.up, r, s), Sub(r, s));
      ZipMove(nodes, c.up, r, Top, tree);
      if c.up.Frame? { RootFixed(c.up, r, UpTree(c, t)); }
    }

    /** Black sibling, black nephews: the sibling becomes red and the parent is short. */
    method ReddenSibling(x: Id, w: Id, ghost c: Ctx, ghost t: Tree, ghost n: nat)
      returns (x': Id, ghost c': Ctx, ghost t': Tree, ghost n': nat)
      requires ZipShape(nodes, c, t) && Short(c, t, n) && c.Frame? && !IsRed(t)
      requires x == RootId(t) && x in nodes && nodes[x].parent == c.id
      requires c.sib.Node? && w == c.sib.id && !c.sib.red && !IsRed(c.sib.left) && !IsRed(c.sib.right)
      modifies this`nodes
      ensures ZipShape(nodes, c', t') && Short(c', t', n') && Kept(Plug(c, t), Plug(c', t'))
              && nodes.Keys == old(nodes.Keys)
      ensures c' == c.up && t'.Node? && t'.id == c.id && t'.red == c.red
      ensures x' == c.id && x' in nodes && nodes[x'].parent == CtxId(c') && nodes[x'].red == c.red
    {
      NephewsBlack(c, t, n);
      Links(nodes, c, t);
      SiblingLinks(nodes, c, t);
      PaintSibling(w, true, c, t);
      ghost var d := c.(sib := c.sib.(red := true));
      ZipUp(nodes, d, t);
      c', t', n' := c.up, UpTree(d, t), if c.red then n else n + 1;
      Links(nodes, c', t');
      x' := nodes[x].parent;
    }

    /** One round of the loop that repairs the colours after a removal; r0 is the remembered child of the root. */
    method RepairDelete(x: Id, r0: Id, ghost c: Ctx, ghost t: Tree, ghost n: nat)
      returns (x': Id, ghost done: bool, ghost c': Ctx, ghost t': Tree, ghost n': nat)
      requires ZipShape(nodes, c, t) && Short(c, t, n) && c.Frame? && !IsRed(t)
      requires x == RootId(t) && x in nodes && nodes[x].parent == c.id && RootId(Plug(c, t)) == r0
      modifies this`nodes, this`tree
      ensures nodes.Keys == old(nodes.Keys)
      ensures done ==> x' == r0 && Repaired(Plug(c, t), x')
      ensures !done ==> Repairing(Plug(c, t), x', r0, c', t', n') && Effort(c', t') < Effort(c, t)
    {
      SiblingExists(c, t, n);
      Links(nodes, c, t);
      SiblingSide(nodes, c, t);
      var s := if x == nodes[nodes[x].parent].left then Left else Right;
      var w;
      ghost var d;
      w, d := BlackSibling(s, x, c, t, n);
      NephewLinks(nodes, d, t);
      if !nodes[nodes[w].right].red && !nodes[nodes[w].left].red {
        done := false;
        x', c', t', n' := ReddenSibling(x, w, d, t, n);
        StillAnchored(c, d, t, t');
      } else {
        TurnNephews(s, x, w, d, t, n);
        x', done := r0, true;
        c', t', n' := c, t, n;
        Links(nodes, Top, tree);
        StaleRoot(c, d, t);
      }
    }

    /** All colours are right again and x is black. */
    ghost predicate Repaired(t0: Tree, x: Id)
      reads this
    {
      ZipShape(nodes, Top, tree) && RedBlack(tree) && Kept(t0, tree) && x in nodes && !nodes[x].red
    }

    /** The subtree of x is one black node short. */
    ghost predicate Repairing(t0: Tree, x: Id, r0: Id, c: Ctx, t: Tree, n: nat)
      reads this
    {
      && ZipShape(nodes, c, t) && Short(c, t, n) && Kept(t0, Plug(c, t))
      && x == RootId(t) && x in nodes && nodes[x].parent == CtxId(c) && nodes[x].red == IsRed(t)
      && Anchored(r0, c, t)
    }

    /** Restores the colours when the subtree of start is one black node short. */
    method DeleteFixup(start: Id, ghost c0: Ctx, ghost t0: Tree, ghost n0: nat)
      requires ZipShape(nodes, c0, t0) && Short(c0, t0, n0)
      requires start == RootId(t0) && start in nodes && nodes[start].parent == CtxId(c0)
      modifies this`nodes, this`tree
      ensures ZipShape(nodes, Top, tree) && RedBlack(tree) && Kept(Plug(c0, t0), tree) && nodes.Keys == old(nodes.Keys)
    {
      var x := start;
      ghost var t1 := Plug(c0, t0);
      ZipPlug(nodes, c0, t0);
      Links(nodes, Top, t1);
      Links(nodes, c0, t0);
      var rootLeft := nodes[ROOT].left;
      ghost var done, c, t, n := false, c0, t0, n0;
      while !nodes[x].red && rootLeft != x
        invariant x in nodes && nodes.Keys == old(nodes.Keys)
        invariant done ==> x == rootLeft && Repaired(t1, x)
        invariant !done ==> Repairing(t1, x, rootLeft, c, t, n)
        decreases !done, Effort(c, t)
      {
        x, done, c, t, n := RepairDelete(x, rootLeft, c, t, n);
      }
      if !done {
        LastPaint(nodes, c, t, n, rootLeft);
        tree := Plug(c, Black(t));
      } else {
        assert nodes[x := nodes[x].(red := false)] == nodes;
      }
      nodes := nodes[x := nodes[x].(red := false)];
    }

    /** The leftmost node of a subtree. */
    method GetMinimum(x: Id, ghost c: Ctx, ghost t: Tree) returns (y: Id, ghost cr: Ctx, ghost ty: Tree)
      requires ZipShape(nodes, c, t) && t.Node? && x == t.id
      ensures ty.Node? && Plug(cr, ty) == t && ty.left.Leaf? && Before(cr) == [] && y == ty.id
      ensures ZipShape(nodes, Graft(cr, c), ty)
    {
      y, cr, ty := x, Top, t;
      Links(nodes, c, t);
      while nodes[y].left != NIL
        invariant ty.Node? && y == ty.id && y in nodes && nodes[y].left == RootId(ty.left)
        invariant Plug(cr, ty) == t && Before(cr) == [] && ZipShape(nodes, Graft(cr, c), ty)
        decreases ty
      {
        ZipDown(nodes, Graft(cr, c), ty, Left);
        y := nodes[y].left;
        cr, ty := DownCtx(cr, ty, Left), ty.left;
        Links(nodes, Graft(cr, c), ty);
      }
      ZipDown(nodes, Graft(cr, c), ty, Left);
      Links(nodes, DownCtx(Graft(cr, c), ty, Left), ty.left);
    }

    /** The node of the next entry, or the root sentinel behind the last one. */
    method GetSuccessor(x0: Id, ghost c: Ctx, ghost t: Tree) returns (y: Id, ghost cr: Ctx, ghost ty: Tree)
      requires ZipShape(nodes, c, t) && t.Node? && x0 == t.id
      ensures var rest := Inorder(t.right) + Behind(c); y == if rest == [] then ROOT else rest[0].id
      ensures t.right.Node? ==>
                LeftmostOf(t.right, cr, ty) && y == ty.id && ZipShape(nodes, Graft(cr, DownCtx(c, t, Right)), ty)
    {
      var x := x0;
      cr, ty := Top, Leaf;
      Links(nodes, c, t);
      ZipDown(nodes, c, t, Right);
      Links(nodes, DownCtx(c, t, Right), t.right);
      if nodes[x].right != NIL {
        y, cr, ty := GetMinimum(nodes[x].right, DownCtx(c, t, Right), t.right);
        LeftmostFirst(t.right, cr, ty);
      } else {
        y := nodes[x].parent;
        ghost var d, u := c, t;
        while y != NIL && x == nodes[y].right
          invariant ZipShape(nodes, d, u) && u.Node? && x == u.id && y == CtxId(d) && y in nodes
                    && Behind(d) == Behind(c)
          decreases d
        {
          Links(nodes, d, u);
          assert d.Frame? && d.s.Right?;
          x := y;
          ZipUp(nodes, d, u);
          d, u := d.up, UpTree(d, u);
          Links(nodes, d, u);
          y := nodes[y].parent;
        }
        Links(nodes, d, u);
      }
    }

    /** Takes a node with at most one child out of the links. */
    method SpliceOut(y: Id, ghost c: Ctx, ghost t: Tree) returns (x: Id, ghost u: Tree)
      requires ZipShape(nodes, c, t) && t.Node? && y == t.id && (t.left.Leaf? || t.right.Leaf?)
      modifies this`nodes
      ensures OnlyChild(t, u) && ZipShape(nodes, c, u) && x == RootId(u) && x in nodes && nodes[x].parent == CtxId(c)
      ensures nodes.Keys == old(nodes.Keys) && y in nodes && nodes[y] == old(nodes[y])
    {
      u := if t.left.Leaf? then t.right else t.left;
      Links(nodes, c, t);
      ChildLinks(nodes, c, t);
      SpliceApart(nodes, c, t);
      x := if nodes[y].left == NIL then nodes[y].right else nodes[y].left;
      var p := nodes[y].parent;
      nodes := nodes[x := nodes[x].(parent := p)];
      if p == ROOT {
        nodes := nodes[ROOT := nodes[ROOT].(left := x)];
      } else if y == nodes[p].left {
        nodes := nodes[p := nodes[p].(left := x)];
      } else {
        nodes := nodes[p := nodes[p].(right := x)];
      }
      Spliced(old(nodes), nodes, c, t, u);
    }

    /** Puts y, which is no longer linked, in the place of z. */
    method ReplaceNode(z: Id, y: Id, ghost c: Ctx, ghost t: Tree)
      requires ZipShape(nodes, c, t) && t.Node? && z == t.id && t.left.Node?
      requires y in nodes && y != NIL && y != ROOT && y !in TreeIds(t) && y !in CtxIds(c)
      modifies this`nodes
      ensures ZipShape(nodes, c, Node(t.left, y, old(nodes[y]).item, -MAXTIME, old(nodes[y]).red, t.right))
      ensures nodes.Keys == old(nodes.Keys) && z in nodes && nodes[z] == old(nodes[z])
      ensures y in nodes && nodes[y].red == old(nodes[y]).red
      ensures nodes[NIL].parent == if t.right.Leaf? then y else old(nodes[NIL].parent)
    {
      SwappedZip(nodes, c, t, y);
      Exchange(z, y);
    }

    /** The assignments of that replacement. */
    method Exchange(z: Id, y: Id)
      requires CanSwap(nodes, z, y)
      modifies this`nodes
      ensures nodes == Swapped(old(nodes), z, y)
    {
      var l, r, p := nodes[z].left, nodes[z].right, nodes[z].parent;
      nodes := nodes[y := nodes[y].(maxHigh := -MAXTIME, left := l, right := r, parent := p)];
      nodes := nodes[r := nodes[r].(parent := y)];
      nodes := nodes[l := nodes[l].(parent := y)];
      if z == nodes[p].left {
        nodes := nodes[p := nodes[p].(left := y)];
      } else {
        nodes := nodes[p := nodes[p].(right := y)];
      }
    }

    /** Ends a removal: repairs the colours if a black node is missing above u. */
    method FinishRemoval(x: Id, short: bool, ghost c: Ctx, ghost u: Tree)
      requires ZipShape(nodes, c, u) && x == RootId(u) && x in nodes && nodes[x].parent == CtxId(c)
      requires if short then exists n: nat :: Short(c, u, n) else RedBlack(Plug(c, u))
      modifies this`nodes, this`tree
      ensures ZipShape(nodes, Top, tree) && RedBlack(tree) && Kept(Plug(c, u), tree) && nodes.Keys == old(nodes.Keys)
    {
      if short {
        ghost var n: nat :| Short(c, u, n);
        DeleteFixup(x, c, u, n);
      } else {
        tree := Plug(c, u);
        ZipPlug(nodes, c, u);
      }
    }

    /** Removal of a node with at most one child. */
    method RemoveHere(z: Id, ghost c: Ctx, ghost t: Tree) returns (ghost k: nat)
      requires ZipShape(nodes, c, t) && t.Node? && z == t.id && (t.left.Leaf? || t.right.Leaf?)
      requires RedBlack(Plug(c, t)) && MaxOk(Plug(c, t))
      modifies this`nodes, this`tree
      ensures ZipShape(nodes, Top, tree) && RedBlack(tree) && MaxOk(tree) && nodes.Keys == old(nodes.Keys)
      ensures RemovedAt(Inorder(Plug(c, t)), Inorder(tree), k, Entry(z, t.item))
    {
      var x;
      ghost var u;
      x, u := SpliceOut(z, c, t);
      k := SpliceContents(c, t, u);
      HoleMax(c, t);
      FixupMaxHigh(nodes[x].parent, c, u);
      ghost var c' := FixCtx(c, MaxOf(u));
      FixedUp(c, u);
      FixAlike(c, MaxOf(u));
      FixCtxOrder(c, MaxOf(u));
      SpliceColours(c, c', t, u);
      Links(nodes, c', u);
      FinishRemoval(x, !nodes[z].red, c', u);
    }

    /** Moves the successor of z, spliced out of its place, into the place of z. */
    method MoveSuccessor(z: Id, ghost cz: Ctx, ghost tz: Tree)
      returns (y: Id, x: Id, ghost cr: Ctx, ghost ty: Tree, ghost u: Tree)
      requires ZipShape(nodes, cz, tz) && tz.Node? && z == tz.id && tz.left.Node? && tz.right.Node?
      modifies this`nodes
      ensures LeftmostOf(tz.right, cr, ty) && u == ty.right && y == ty.id
      ensures ZipShape(nodes, Graft(cr, Heir(cz, tz, ty)), u) && nodes.Keys == old(nodes.Keys)
      ensures x == RootId(u) && x in nodes && nodes[x].parent == CtxId(Graft(cr, Heir(cz, tz, ty)))
      ensures z in nodes && nodes[z].red == tz.red && y in nodes && nodes[y].red == ty.red
    {
      y, cr, ty := GetSuccessor(z, cz, tz);
      ghost var d := DownCtx(cz, tz, Right);
      Links(nodes, cz, tz);
      Links(nodes, Graft(cr, d), ty);
      x, u := SpliceOut(y, Graft(cr, d), ty);
      ghost var r := Plug(cr, u);
      ghost var t1 := Node(tz.left, tz.id, tz.item, tz.maxHigh, tz.red, r);
      HeirOutside(cz, tz, cr, ty);
      GraftPlug(cr, d, u);
      ZipMove(nodes, Graft(cr, d), u, cz, t1);
      Links(nodes, cz, t1);
      ReplaceNode(z, y, cz, t1);
      ghost var h := Heir(cz, tz, ty);
      GraftPlug(cr, h, u);
      ZipMove(nodes, cz, Node(tz.left, y, ty.item, -MAXTIME, ty.red, r), Graft(cr, h), u);
      Links(nodes, Graft(cr, h), u);
      PlugNode(cr, u);
    }

    /** Removal of a node with two children: its successor takes its place and colour. */
    method RemoveBySuccessor(z: Id, ghost cz: Ctx, ghost tz: Tree) returns (ghost k: nat)
      requires ZipShape(nodes, cz, tz) && tz.Node? && z == tz.id && tz.left.Node? && tz.right.Node?
      requires RedBlack(Plug(cz, tz)) && MaxOk(Plug(cz, tz))
      modifies this`nodes, this`tree
      ensures ZipShape(nodes, Top, tree) && RedBlack(tree) && MaxOk(tree) && nodes.Keys == old(nodes.Keys)
      ensures RemovedAt(Inorder(Plug(cz, tz)), Inorder(tree), k, Entry(z, tz.item))
    {
      var y, x;
      ghost var cr, ty, u;
      y, x, cr, ty, u := MoveSuccessor(z, cz, tz);
      k := HeirContents(cz, tz, cr, ty);
      HeirMax(cz, tz, cr, ty);
      FixedUp(Graft(cr, Heir(cz, tz, ty)), u);
      FixupMaxHigh(nodes[x].parent, Graft(cr, Heir(cz, tz, ty)), u);
      SettleSuccessor(z, y, x, cz, tz, cr, ty);
    }

    /** The successor gets z's colour; its own is missing below if it was black. */
    method SettleSuccessor(z: Id, y: Id, x: Id, ghost cz: Ctx, ghost tz: Tree, ghost cr: Ctx, ghost ty: Tree)
      requires tz.Node? && LeftmostOf(tz.right, cr, ty) && RedBlack(Plug(cz, tz))
      requires z in nodes && nodes[z].red == tz.red && y == ty.id && y in nodes && nodes[y].red == ty.red
      requires var u := ty.right; var c := Graft(cr, Heir(cz, tz, ty));
               && ZipShape(nodes, FixCtx(c, MaxOf(u)), u)
               && x == RootId(u) && x in nodes && nodes[x].parent == CtxId(c)
      modifies this`nodes, this`tree
      ensures ZipShape(nodes, Top, tree) && RedBlack(tree) && nodes.Keys == old(nodes.Keys)
      ensures var u := ty.right; var c := Graft(cr, Heir(cz, tz, ty)); Kept(Plug(FixCtx(c, MaxOf(u)), u), tree)
    {
      HeirPainted(nodes, cr, cz, tz, ty);
      var short := !nodes[y].red;
      nodes := nodes[y := nodes[y].(red := nodes[z].red)];
      FinishRemoval(x, short, HeirFrames(cr, cz, tz, ty, MaxOf(ty.right)), ty.right);
    }

    /** Removes the node z and its entry, and nothing else. */
    method DeleteNode(z: Id) returns (item: Interval, ghost k: nat)
      requires Valid() && z in nodes && z != NIL && z != ROOT
      modifies this
      ensures Valid() && z !in nodes && RemovedAt(old(Contents()), Contents(), k, Entry(z, item))
    {
      ghost var t0 := tree;
      ghost var c, t := Locate(Top, tree, z);
      ZipMove(nodes, Top, tree, c, t);
      ChildPresence(nodes, c, t);
      item := nodes[z].item;
      if nodes[z].left == NIL || nodes[z].right == NIL {
        k := RemoveHere(z, c, t);
      } else {
        k := RemoveBySuccessor(z, c, t);
      }
      RemovedOnce(t0, tree, k, Entry(z, item));
      OutsideRemoved(nodes, tree, z);
      nodes := nodes - {z};
    }

    // ---------------------------------------------------------- search

    /** The node that stores the interval, or nil. */
    method RecursiveSearch(node: Id, ivl: Interval, ghost t: Tree) returns (r: Id)
      requires Readable(nodes, t) && node == RootId(t)
      ensures r == NIL ==> forall i :: 0 <= i < |Inorder(t)| ==> Inorder(t)[i].item != ivl
      ensures r != NIL ==> exists i :: 0 <= i < |Inorder(t)| && Inorder(t)[i] == Entry(r, ivl)
      decreases t
    {
      r := NIL;
      OpenNode(t);
      if node != NIL {
        ReadNode(nodes, t);
        NodeEntries(t);
        if nodes[node].item == ivl {
          return node;
        }
        var left := RecursiveSearch(nodes[node].left, ivl, t.left);
        if left != NIL {
          return left;
        }
        var right := RecursiveSearch(nodes[node].right, ivl, t.right);
        if right != NIL {
          return right;
        }
      }
    }

    /** Removes one entry that stores the interval, if there is one. */
    method DeleteInterval(ivl: Interval) returns (ghost k: nat)
      requires Valid()
      modifies this
      ensures Valid()
      ensures if exists i :: 0 <= i < |old(Contents())| && old(Contents())[i].item == ivl
              then k < |old(Contents())| && RemovedAt(old(Contents()), Contents(), k, Entry(old(Contents())[k].id, ivl))
              else Contents() == old(Contents())
    {
      k := 0;
      assert Readable(nodes, tree);
      Links(nodes, Top, tree);
      var node := RecursiveSearch(nodes[ROOT].left, ivl, tree);
      if node != NIL {
        ghost var i :| 0 <= i < |Inorder(tree)| && Inorder(tree)[i] == Entry(node, ivl);
        IdsAreEntries(tree);
        NotSentinel(tree);
        var item;
        item, k := DeleteNode(node);
        SameEntry(old(tree), i, k);
      }
    }

    /** One visited node of a query: collects it and goes to its left or right subtree. */
    method VisitNode(x: Id, low: Time, high: Time, result: seq<Interval>, ghost t: Tree, ghost st: seq<Open>)
      returns (x': Id, result': seq<Interval>, ghost t': Tree, ghost st': seq<Open>)
      requires At(x, t, st) && t.Node?
      modifies this`stack, this`top, this`currentParent
      ensures At(x', t', st')
      ensures result' + Rest(t', st', low, high) == result + Rest(t, st, low, high) && Work(t', st') < Work(t, st)
    {
      ReadNode(nodes, t);
      VisitStep(t, st, low, high);
      VisitWork(t, st, Meets(t.item, low, high));
      result' := result;
      if Overlap(low, high, nodes[x].item.low, nodes[x].item.high) {
        result' := result' + [nodes[x].item];
        MarkTop(st);
      }
      st' := MarkIf(Meets(t.item, low, high), st);
      assert result' == result + Own(t.item, low, high);
      if nodes[nodes[x].left].maxHigh >= low {
        Push(x, t, st');
        x', t', st' := nodes[x].left, t.left, st' + [Open(t, false)];
      } else {
        x', t' := nodes[x].right, t.right;
      }
      Shift(result, Own(t.item, low, high), Rest(t', st', low, high));
    }

    /** Opens a node: its left subtree is searched first. */
    method Push(x: Id, ghost t: Tree, ghost st: seq<Open>)
      requires Mirrors(nodes, stack, top, st) && currentParent == top - 1
      requires t.Node? && Readable(nodes, t) && x == t.id
      modifies this`stack, this`top, this`currentParent
      ensures Mirrors(nodes, stack, top, st + [Open(t, false)]) && currentParent == top - 1
    {
      if top == |stack| {
        stack := stack + seq(|stack|, _ => Visit(NIL, 0, false));
      }
      PushMirrors(nodes, stack, top, st, t);
      stack := stack[top := Visit(x, currentParent, false)];
      currentParent := top;
      top := top + 1;
    }

    /** The search is at x, the root of t, with the nodes st open. */
    ghost predicate At(x: Id, t: Tree, st: seq<Open>)
      reads this
    {
      && Mirrors(nodes, stack, top, st) && Readable(nodes, t) && x == RootId(t) && (x == NIL <==> t.Leaf?)
      && (x != NIL ==> currentParent == top - 1)
    }

    /** Closes the innermost open node, and goes to its right subtree if its left one had a match. */
    method Close(ghost low: Time, ghost high: Time, ghost st: seq<Open>)
      returns (x': Id, ghost t': Tree, ghost st': seq<Open>)
      requires At(NIL, Leaf, st) && st != []
      modifies this`stack, this`top, this`currentParent
      ensures At(x', t', st') && |st'| == |st| - 1
      ensures Rest(t', st', low, high) == Rest(Leaf, st, low, high) && Work(t', st') <= Work(Leaf, st)
    {
      PopMirrors(nodes, stack, top, st);
      PopStep(st, low, high);
      ghost var o := st[|st| - 1];
      ReadNode(nodes, o.node);
      LeafReadable(nodes, o.node);
      x', t', st' := NIL, Leaf, st[..|st| - 1];
      top := top - 1;
      if stack[top].tryRight {
        x', t' := nodes[stack[top].startNode].right, o.node.right;
        currentParent := stack[top].parentIndex;
        MarkTop(st');
        st' := Mark(st');
      }
    }

    /** Notes that the innermost open node has a match below it. */
    method MarkTop(ghost st: seq<Open>)
      requires Mirrors(nodes, stack, top, st) && currentParent == top - 1
      modifies this`stack
      ensures Mirrors(nodes, stack, top, Mark(st))
    {
      MarkMirrors(nodes, stack, top, st);
      stack := stack[currentParent := stack[currentParent].(tryRight := true)];
    }

    /** Goes back to the innermost open node whose right subtree is to be searched. */
    method Backtrack(x: Id, ghost low: Time, ghost high: Time, ghost t: Tree, ghost st: seq<Open>)
      returns (x': Id, ghost t': Tree, ghost st': seq<Open>)
      requires At(x, t, st)
      modifies this`stack, this`top, this`currentParent
      ensures At(x', t', st') && (x' == NIL ==> st' == [])
      ensures Rest(t', st', low, high) == Rest(t, st, low, high) && Work(t', st') <= Work(t, st)
    {
      x', t', st' := x, t, st;
      while x' == NIL && top > 1
        invariant At(x', t', st')
        invariant Rest(t', st', low, high) == Rest(t, st, low, high) && Work(t', st') <= Work(t, st)
        decreases |st'|
      {
        x', t', st' := Close(low, high, st');
      }
    }

    /** The stored intervals that overlap [low, high]; the stack is ready for the next query. */
    method Query(low: Time, high: Time) returns (result: seq<Interval>)
      requires Valid()
      modifies this`stack, this`top, this`currentParent
      ensures Valid() && Contents() == old(Contents())
      ensures WellFormed(Contents()) ==> Exhaustive(result, tree, low, high)
    {
      assert Readable(nodes, tree);
      Links(nodes, Top, tree);
      OpenNode(tree);
      result := Collect(low, high);
      if WellFormed(Contents()) { QueryComplete(tree, low, high); }
    }

    /** The loop of the query. */
    method Collect(low: Time, high: Time) returns (result: seq<Interval>)
      requires Readable(nodes, tree) && ROOT in nodes && nodes[ROOT].left == RootId(tree)
      requires (RootId(tree) == NIL <==> tree.Leaf?) && top == 1 <= |stack|
      modifies this`stack, this`top, this`currentParent
      ensures result == Found(tree, low, high) && top == 1 <= |stack|
    {
      result := [];
      ghost var t, st: seq<Open> := tree, [];
      var x := nodes[ROOT].left;
      currentParent := 0;
      RestAlone(tree, low, high);
      Nothing(Found(tree, low, high));
      while x != NIL
        invariant At(x, t, st) && (x == NIL ==> st == [])
        invariant result + Rest(t, st, low, high) == Found(tree, low, high)
        decreases Work(t, st)
      {
        x, result, t, st := VisitNode(x, low, high, result, t, st);
        x, t, st := Backtrack(x, low, high, t, st);
      }
      RestAlone(t, low, high);
      assert result + [] == result;
    }
  }

  /** The node at the hole, possibly nil, is painted black when the repair stops there. */
  lemma LastPaint(nodes: Pool, c: Ctx, t: Tree, n: nat, r0: Id)
    requires ZipShape(nodes, c, t) && Short(c, t, n) && Anchored(r0, c, t) && (IsRed(t) || RootId(t) == r0)
    ensures RootId(t) in nodes && ZipShape(nodes[RootId(t) := nodes[RootId(t)].(red := false)], Top, Plug(c, Black(t)))
    ensures RedBlack(Plug(c, Black(t))) && Kept(Plug(c, t), Plug(c, Black(t)))
  {
    if !IsRed(t) { RootAtTop(c, t); }
    ShortEnd(c, t, n);
    Links(nodes, c, t);
    var nodes' := nodes[RootId(t) := nodes[RootId(t)].(red := false)];
    if t.Node? {
      RootUpdated(nodes, c, t, t.maxHigh, false);
      PaintKeeps(c, t, false);
    } else {
      assert nodes' == nodes;
    }
    ZipPlug(nodes', c, Black(t));
  }

  ghost function Effort(c: Ctx, t: Tree): nat { if IsRed(t) then 0 else 1 + Depth(c) }

  /** The remembered child of the root is still the top node, or it is the red node at the hole. */
  predicate Anchored(r0: Id, c: Ctx, t: Tree) {
    RootId(Plug(c, t)) == r0 || (RootId(t) == r0 && IsRed(t))
  }

  lemma StillAnchored(c: Ctx, d: Ctx, t: Tree, t': Tree)
    requires c.Frame? && d.Frame? && d.id == c.id && t'.Node? && t'.id == d.id && t'.red == d.red
    requires d == c || (d.red && d.up.Frame? && d.up.up == c.up)
    ensures Anchored(RootId(Plug(c, t)), d.up, t')
    ensures Effort(d.up, t') < 1 + Depth(c)
  {
    if d == c {
      RootFixed(c.up, UpTree(c, t), t');
    } else if c.up.Frame? {
      RootFixed(c.up, UpTree(c, t), UpTree(d.up, t'));
    }
  }

  /** The top node is the parent of the hole, or it is above the hole's grandparent. */
  lemma StaleRoot(c: Ctx, d: Ctx, t: Tree)
    requires c.Frame? && d.Frame? && d.id == c.id
    requires d == c || (d.red && d.up.Frame? && d.up.up == c.up)
    ensures RootId(Plug(c, t)) == d.id || (d.up.Frame? && RootId(Plug(c, t)) == RootId(Plug(d, t)))
  {
    if d != c && c.up.Frame? {
      RootFixed(c.up, UpTree(c, t), UpTree(d.up, UpTree(d, t)));
    }
  }
}
