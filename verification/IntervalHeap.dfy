/** The node pool of an interval tree: when a set of linked nodes represents a zipper, and what
    the link assignments of a rotation and of single-field updates do to it. */
module IntervalHeap {
  import opened IntervalShape

  /** The fields of a node; links are node ids. */
  datatype Rec = Rec(item: Interval, maxHigh: Time, red: bool, left: Id, right: Id, parent: Id)

  type Pool = map<Id, Rec>

  function Child(r: Rec, s: Side): Id { if s.Left? then r.left else r.right }

  function WithChild(r: Rec, s: Side, c: Id): Rec {
    if s.Left? then r.(left := c) else r.(right := c)
  }

  /** nil and the root sentinel. */
  predicate Sentinels(n: Pool) {
    && NIL in n && !n[NIL].red && n[NIL].maxHigh == -MAXTIME && n[NIL].left == NIL && n[NIL].right == NIL
    && ROOT in n && !n[ROOT].red && n[ROOT].right == NIL && n[ROOT].parent == NIL
  }

  /** The pool links up tree t below parent p. */
  predicate Shape(n: Pool, t: Tree, p: Id) {
    t.Leaf?
    || (&& t.id in n && n[t.id] == Rec(t.item, t.maxHigh, t.red, RootId(t.left), RootId(t.right), p)
        && Shape(n, t.left, t.id) && Shape(n, t.right, t.id))
  }

  /** The record of a frame whose hole is filled by hole. */
  function FrameRec(c: Ctx, hole: Id): Rec
    requires c.Frame?
  {
    WithChild(WithChild(Rec(c.item, c.maxHigh, c.red, NIL, NIL, CtxId(c.up)), c.s, hole), Other(c.s), RootId(c.sib))
  }

  /** The pool links up the frames of c with the given node in the hole. */
  predicate CtxShape(n: Pool, c: Ctx, hole: Id) {
    if c.Top? then ROOT in n && n[ROOT].left == hole
    else c.id in n && n[c.id] == FrameRec(c, hole) && Shape(n, c.sib, c.id) && CtxShape(n, c.up, c.id)
  }

  predicate ZipShape(n: Pool, c: Ctx, t: Tree) {
    Sentinels(n) && CtxShape(n, c, RootId(t)) && Shape(n, t, CtxId(c)) && ZipDistinct(c, t)
  }

  // ------------------------------------------------------------ frames

  /** n' agrees with n on ids. */
  predicate Agree(n: Pool, n': Pool, ids: set<Id>) {
    forall i :: i in ids ==> i in n && i in n' && n'[i] == n[i]
  }

  lemma {:induction false} ShapeFrame(n: Pool, n': Pool, t: Tree, p: Id)
    requires Shape(n, t, p) && Agree(n, n', TreeIds(t))
    ensures Shape(n', t, p)
    decreases t
  {
    if t.Node? {
      ShapeFrame(n, n', t.left, t.id);
      ShapeFrame(n, n', t.right, t.id);
    }
  }

  lemma {:induction false} CtxFrame(n: Pool, n': Pool, c: Ctx, hole: Id)
    requires CtxShape(n, c, hole) && Agree(n, n', CtxIds(c)) && Agree(n, n', {ROOT})
    ensures CtxShape(n', c, hole)
    decreases c
  {
    if c.Frame? {
      ShapeFrame(n, n', c.sib, c.id);
      CtxFrame(n, n', c.up, c.id);
    } else {
      assert ROOT in {ROOT};
    }
  }

  /** The subtree's root gets a new parent, nothing else in it changes. */
  lemma Reparented(n: Pool, n': Pool, t: Tree, p: Id, p': Id)
    requires Shape(n, t, p) && Distinct(t) && Agree(n, n', TreeIds(t) - {RootId(t)})
    requires t.Node? ==> t.id in n' && n'[t.id] == n[t.id].(parent := p')
    ensures Shape(n', t, p')
  {
    if t.Node? {
      ShapeFrame(n, n', t.left, t.id);
      ShapeFrame(n, n', t.right, t.id);
    }
  }

  /** The hole is filled by another node; the frame above links to it. */
  lemma Refilled(n: Pool, n': Pool, c: Ctx, hole: Id, hole': Id)
    requires CtxShape(n, c, hole) && CtxDistinct(c) && CtxId(c) in n && CtxId(c) in n'
    requires Agree(n, n', CtxIds(c) - {CtxId(c)})
    requires if c.Top? then n'[ROOT].left == hole' else n'[c.id] == FrameRec(c, hole') && Agree(n, n', {ROOT})
    ensures CtxShape(n', c, hole')
  {
    if c.Frame? {
      ShapeFrame(n, n', c.sib, c.id);
      CtxFrame(n, n', c.up, c.id);
    }
  }

  lemma {:induction false} ShapeIdsInPool(n: Pool, t: Tree, p: Id)
    requires Shape(n, t, p)
    ensures forall i :: i in TreeIds(t) ==> i in n
  {
    if t.Node? {
      ShapeIdsInPool(n, t.left, t.id);
      ShapeIdsInPool(n, t.right, t.id);
    }
  }

  lemma {:induction false} CtxIdsInPool(n: Pool, c: Ctx, hole: Id)
    requires CtxShape(n, c, hole)
    ensures forall i :: i in CtxIds(c) ==> i in n
    ensures CtxId(c) in n
  {
    if c.Frame? {
      ShapeIdsInPool(n, c.sib, c.id);
      CtxIdsInPool(n, c.up, c.id);
    }
  }

  /** Opening and closing a zipper step. */
  lemma {:induction false} ShapePlug(n: Pool, c: Ctx, t: Tree)
    ensures CtxShape(n, c, RootId(t)) && Shape(n, t, CtxId(c))
            <==> CtxShape(n, Top, RootId(Plug(c, t))) && Shape(n, Plug(c, t), ROOT)
    decreases c
  {
    if c.Frame? {
      ShapePlug(n, c.up, Mk(c.s, t, c.id, c.item, c.maxHigh, c.red, c.sib));
    }
  }

  lemma ZipPlug(n: Pool, c: Ctx, t: Tree)
    ensures ZipShape(n, c, t) <==> ZipShape(n, Top, Plug(c, t))
  {
    ShapePlug(n, c, t);
    DistinctPlug(c, t);
  }

  lemma ZipMove(n: Pool, c: Ctx, t: Tree, c': Ctx, t': Tree)
    requires ZipShape(n, c, t) && Plug(c, t) == Plug(c', t')
    ensures ZipShape(n, c', t')
  {
    ZipPlug(n, c, t);
    ZipPlug(n, c', t');
  }

  // ------------------------------------------------------------ rotation

  /** The pool after rotating x toward side s: its other child takes its place.
      One let per assignment of leftRotate / rightRotate, in order. */
  function Rotated(n: Pool, s: Side, x: Id): (r: Pool)
    requires CanRotate(n, s, x)
    ensures r.Keys == n.Keys
  {
    var o := Other(s);
    var y := Child(n[x], o);
    var b := Child(n[y], s);
    var n1 := n[x := WithChild(n[x], o, b)];
    var n2 := if b != NIL then n1[b := n1[b].(parent := x)] else n1;
    var n3 := n2[y := n2[y].(parent := n2[x].parent)];
    var p := n3[x].parent;
    var n4 := if n3[p].left == x then n3[p := n3[p].(left := y)] else n3[p := n3[p].(right := y)];
    var n5 := n4[y := WithChild(n4[y], s, x)];
    n5[x := n5[x].(parent := y)]
  }

  /** A node x whose other child y will take its place. */
  function Lower(s: Side, a: Tree, x: Tree, b: Tree, y: Tree, c: Tree): Tree
    requires x.Node? && y.Node?
  {
    Mk(s, a, x.id, x.item, x.maxHigh, x.red, Mk(s, b, y.id, y.item, y.maxHigh, y.red, c))
  }

  function Upper(s: Side, a: Tree, x: Tree, b: Tree, y: Tree, c: Tree): Tree
    requires x.Node? && y.Node?
  {
    Mk(s, Mk(s, a, x.id, x.item, x.maxHigh, x.red, b), y.id, y.item, y.maxHigh, y.red, c)
  }

  lemma MkIds(s: Side, a: Tree, x: Tree, b: Tree)
    requires x.Node?
    ensures var t := Mk(s, a, x.id, x.item, x.maxHigh, x.red, b);
            && TreeIds(t) == TreeIds(a) + {x.id} + TreeIds(b)
            && (Distinct(t) <==> && x.id != NIL && x.id != ROOT && x.id !in TreeIds(a) && x.id !in TreeIds(b)
                                 && TreeIds(a) !! TreeIds(b) && Distinct(a) && Distinct(b))
  {
  }

  /** The record of a node with the given subtrees. */
  function NodeRec(s: Side, a: Tree, x: Tree, b: Tree, p: Id): Rec
    requires x.Node?
  {
    WithChild(WithChild(Rec(x.item, x.maxHigh, x.red, NIL, NIL, p), s, RootId(a)), Other(s), RootId(b))
  }

  lemma MkShape(n: Pool, s: Side, a: Tree, x: Tree, b: Tree, p: Id)
    requires x.Node?
    ensures Shape(n, Mk(s, a, x.id, x.item, x.maxHigh, x.red, b), p)
            <==> x.id in n && n[x.id] == NodeRec(s, a, x, b, p) && Shape(n, a, x.id) && Shape(n, b, x.id)
  {
  }

  /** x, y, the three subtrees and the frames have no node in common. */
  predicate Site(ctx: Ctx, a: Tree, x: Tree, b: Tree, y: Tree, c: Tree)
    requires x.Node? && y.Node?
  {
    && x.id != y.id && {x.id, y.id} !! {NIL, ROOT}
    && {x.id, y.id} !! TreeIds(a) && {x.id, y.id} !! TreeIds(b) && {x.id, y.id} !! TreeIds(c)
        && {x.id, y.id} !! CtxIds(ctx)
    && TreeIds(a) !! TreeIds(b) && TreeIds(a) !! TreeIds(c) && TreeIds(b) !! TreeIds(c)
    && TreeIds(a) !! CtxIds(ctx) && TreeIds(b) !! CtxIds(ctx) && TreeIds(c) !! CtxIds(ctx)
    && Distinct(a) && Distinct(b) && Distinct(c) && CtxDistinct(ctx)
  }

  lemma LowerSite(ctx: Ctx, s: Side, a: Tree, x: Tree, b: Tree, y: Tree, c: Tree)
    requires x.Node? && y.Node?
    ensures ZipDistinct(ctx, Lower(s, a, x, b, y, c)) <==> Site(ctx, a, x, b, y, c)
  {
    MkIds(s, b, y, c);
    MkIds(s, a, x, Mk(s, b, y.id, y.item, y.maxHigh, y.red, c));
  }

  lemma UpperSite(ctx: Ctx, s: Side, a: Tree, x: Tree, b: Tree, y: Tree, c: Tree)
    requires x.Node? && y.Node?
    ensures ZipDistinct(ctx, Upper(s, a, x, b, y, c)) <==> Site(ctx, a, x, b, y, c)
  {
    MkIds(s, a, x, b);
    MkIds(s, Mk(s, a, x.id, x.item, x.maxHigh, x.red, b), y, c);
  }

  /** The links around a rotation, before it. */
  predicate LowerLinks(n: Pool, ctx: Ctx, s: Side, a: Tree, x: Tree, b: Tree, y: Tree, c: Tree)
    requires x.Node? && y.Node?
  {
    && Sentinels(n) && CtxShape(n, ctx, x.id)
    && x.id in n && y.id in n && RootId(b) in n && CtxId(ctx) in n
    && (var x0 := Rec(x.item, x.maxHigh, x.red, NIL, NIL, CtxId(ctx));
        n[x.id] == WithChild(WithChild(x0, s, RootId(a)), Other(s), y.id))
    && n[y.id] == NodeRec(s, b, y, c, x.id)
    && Shape(n, a, x.id) && Shape(n, b, y.id) && Shape(n, c, y.id)
  }

  lemma LowerOpen(n: Pool, ctx: Ctx, s: Side, a: Tree, x: Tree, b: Tree, y: Tree, c: Tree)
    requires x.Node? && y.Node? && ZipShape(n, ctx, Lower(s, a, x, b, y, c))
    ensures LowerLinks(n, ctx, s, a, x, b, y, c) && Site(ctx, a, x, b, y, c)
  {
    LowerSite(ctx, s, a, x, b, y, c);
    MkShape(n, s, b, y, c, x.id);
    MkShape(n, s, a, x, Mk(s, b, y.id, y.item, y.maxHigh, y.red, c), CtxId(ctx));
    CtxIdsInPool(n, ctx, x.id);
  }

  lemma {:induction false} NotSentinel(t: Tree)
    requires Distinct(t)
    ensures NIL !in TreeIds(t) && ROOT !in TreeIds(t)
  {
    if t.Node? {
      NotSentinel(t.left);
      NotSentinel(t.right);
    }
  }

  lemma {:induction false} CtxNotSentinel(c: Ctx)
    requires CtxDistinct(c)
    ensures NIL !in CtxIds(c) && ROOT !in CtxIds(c)
  {
    if c.Frame? {
      NotSentinel(c.sib);
      CtxNotSentinel(c.up);
    }
  }

  /** The four changed records are four different ones. */
  lemma SiteApart(ctx: Ctx, a: Tree, x: Tree, b: Tree, y: Tree, c: Tree)
    requires x.Node? && y.Node? && Site(ctx, a, x, b, y, c)
    ensures RootId(b) != x.id && RootId(b) != y.id && RootId(b) != CtxId(ctx)
    ensures CtxId(ctx) != x.id && CtxId(ctx) != y.id
    ensures ctx.Frame? ==> RootId(ctx.sib) != x.id && ctx.id in CtxIds(ctx)
  {
    NotSentinel(b);
    CtxNotSentinel(ctx);
    if ctx.Frame? && ctx.sib.Node? {
      assert ctx.sib.id in CtxIds(ctx);
    }
  }

  predicate CanRotate(n: Pool, s: Side, x: Id) {
    && x in n && Child(n[x], Other(s)) in n && n[x].parent in n
    && var y := Child(n[x], Other(s)); x != y && Child(n[y], s) in n && Child(n[y], s) != x && Child(n[y], s) != y
  }

  /** The pool after a rotation, record by record. */
  lemma RotatedPoints(n: Pool, s: Side, x: Id, y: Id, b: Id, p: Id)
    requires CanRotate(n, s, x) && y == Child(n[x], Other(s)) && b == Child(n[y], s) && p == n[x].parent
    requires x != y && b != x && b != y && b != p && p != x && p != y
    ensures var n' := Rotated(n, s, x);
            && n'.Keys == n.Keys
            && n'[x] == WithChild(n[x], Other(s), b).(parent := y)
            && n'[y] == WithChild(n[y].(parent := p), s, x)
            && (b != NIL ==> n'[b] == n[b].(parent := x))
            && n'[p] == (if n[p].left == x then n[p].(left := y) else n[p].(right := y))
            && forall i :: i in n && i != x && i != y && i != p && (b == NIL || i != b) ==> n'[i] == n[i]
  {
  }

  /** The records a rotation changes, and that it changes no others. */
  lemma RotatedRecords(n: Pool, ctx: Ctx, s: Side, a: Tree, x: Tree, b: Tree, y: Tree, c: Tree)
    requires x.Node? && y.Node? && LowerLinks(n, ctx, s, a, x, b, y, c) && Site(ctx, a, x, b, y, c)
    ensures CanRotate(n, s, x.id)
    ensures var n' := Rotated(n, s, x.id);
            && OnlySite(n, n', ctx, x, b, y)
            && n'[x.id] == NodeRec(s, a, x, b, y.id)
            && (var y0 := Rec(y.item, y.maxHigh, y.red, NIL, NIL, CtxId(ctx));
                n'[y.id] == WithChild(WithChild(y0, s, x.id), Other(s), RootId(c)))
            && (b.Node? ==> n'[b.id] == n[b.id].(parent := x.id))
            && n'[CtxId(ctx)] == (if ctx.Top? then n[ROOT].(left := y.id) else FrameRec(ctx, y.id))
  {
    SiteApart(ctx, a, x, b, y, c);
    NotSentinel(b);
    RotatedPoints(n, s, x.id, y.id, RootId(b), CtxId(ctx));
  }

  /** The rotation turns the lower shape into the upper one, in place. */
  lemma RotatedZip(n: Pool, ctx: Ctx, s: Side, a: Tree, x: Tree, b: Tree, y: Tree, c: Tree)
    requires x.Node? && y.Node? && ZipShape(n, ctx, Lower(s, a, x, b, y, c))
    ensures CanRotate(n, s, x.id)
    ensures ZipShape(Rotated(n, s, x.id), ctx, Upper(s, a, x, b, y, c))
  {
    LowerOpen(n, ctx, s, a, x, b, y, c);
    RotatedRecords(n, ctx, s, a, x, b, y, c);
    var n' := Rotated(n, s, x.id);
    RotatedParts(n, n', ctx, s, a, x, b, y, c);
    RotatedSentinels(n, n', ctx, a, x, b, y, c);
    UpperSite(ctx, s, a, x, b, y, c);
    MkShape(n', s, a, x, b, y.id);
    MkShape(n', s, Mk(s, a, x.id, x.item, x.maxHigh, x.red, b), y, c, CtxId(ctx));
  }

  predicate OnlySite(n: Pool, n': Pool, ctx: Ctx, x: Tree, b: Tree, y: Tree)
    requires x.Node? && y.Node?
  {
    && n'.Keys == n.Keys
    && forall i :: i in n && i != x.id && i != y.id && i != CtxId(ctx) && (b.Leaf? || i != b.id) ==> n'[i] == n[i]
  }

  lemma RotatedSentinels(n: Pool, n': Pool, ctx: Ctx, a: Tree, x: Tree, b: Tree, y: Tree, c: Tree)
    requires x.Node? && y.Node? && Site(ctx, a, x, b, y, c) && Sentinels(n) && OnlySite(n, n', ctx, x, b, y)
    requires ctx.Top? ==> n'[ROOT] == n[ROOT].(left := y.id)
    ensures Sentinels(n')
  {
    NotSentinel(b);
    CtxNotSentinel(ctx);
  }

  lemma RotatedParts(n: Pool, n': Pool, ctx: Ctx, s: Side, a: Tree, x: Tree, b: Tree, y: Tree, c: Tree)
    requires x.Node? && y.Node? && LowerLinks(n, ctx, s, a, x, b, y, c) && Site(ctx, a, x, b, y, c)
    requires OnlySite(n, n', ctx, x, b, y)
    requires b.Node? ==> n'[b.id] == n[b.id].(parent := x.id)
    requires n'[CtxId(ctx)] == (if ctx.Top? then n[ROOT].(left := y.id) else FrameRec(ctx, y.id))
    ensures Shape(n', a, x.id) && Shape(n', c, y.id) && Shape(n', b, x.id) && CtxShape(n', ctx, y.id)
  {
    PartFrame(n, n', ctx, x, b, y, a, x.id);
    PartFrame(n, n', ctx, x, b, y, c, y.id);
    RotatedMiddle(n, n', ctx, x, b, y);
    RotatedFrames(n, n', ctx, x, b, y);
  }

  /** The middle subtree gets its new parent. */
  lemma RotatedMiddle(n: Pool, n': Pool, ctx: Ctx, x: Tree, b: Tree, y: Tree)
    requires x.Node? && y.Node? && OnlySite(n, n', ctx, x, b, y) && Shape(n, b, y.id) && Distinct(b)
    requires {x.id, y.id} !! TreeIds(b) && TreeIds(b) !! CtxIds(ctx)
    requires b.Node? ==> n'[b.id] == n[b.id].(parent := x.id)
    ensures Shape(n', b, x.id)
  {
    NotSentinel(b);
    ShapeIdsInPool(n, b, y.id);
    assert ctx.Frame? ==> ctx.id in CtxIds(ctx);
    assert Agree(n, n', TreeIds(b) - {RootId(b)});
    Reparented(n, n', b, y.id, x.id);
  }

  /** The frames get the new node in their hole. */
  lemma RotatedFrames(n: Pool, n': Pool, ctx: Ctx, x: Tree, b: Tree, y: Tree)
    requires x.Node? && y.Node? && OnlySite(n, n', ctx, x, b, y) && CtxShape(n, ctx, x.id) && CtxDistinct(ctx)
    requires {x.id, y.id} !! CtxIds(ctx) && TreeIds(b) !! CtxIds(ctx) && {x.id, y.id} !! {NIL, ROOT} && Distinct(b)
    requires ROOT in n && CtxId(ctx) in n
             && n'[CtxId(ctx)] == (if ctx.Top? then n[ROOT].(left := y.id) else FrameRec(ctx, y.id))
    ensures CtxShape(n', ctx, y.id)
  {
    NotSentinel(b);
    CtxNotSentinel(ctx);
    CtxIdsInPool(n, ctx, x.id);
    assert b.Node? ==> b.id in TreeIds(b);
    assert Agree(n, n', CtxIds(ctx) - {CtxId(ctx)});
    Refilled(n, n', ctx, x.id, y.id);
  }

  /** A subtree away from the site is untouched. */
  lemma PartFrame(n: Pool, n': Pool, ctx: Ctx, x: Tree, b: Tree, y: Tree, t: Tree, p: Id)
    requires x.Node? && y.Node? && OnlySite(n, n', ctx, x, b, y) && Shape(n, t, p) && Distinct(t)
    requires {x.id, y.id} !! TreeIds(t) && TreeIds(b) !! TreeIds(t) && TreeIds(t) !! CtxIds(ctx)
    ensures Shape(n', t, p)
  {
    NotSentinel(t);
    ShapeIdsInPool(n, t, p);
    assert b.Node? ==> b.id in TreeIds(b);
    assert ctx.Frame? ==> ctx.id in CtxIds(ctx);
    ShapeFrame(n, n', t, p);
  }

  // ------------------------------------------------------------ single-node updates

  /** The zipper one step down at t's child on side s. */
  function DownCtx(c: Ctx, t: Tree, s: Side): Ctx
    requires t.Node?
  {
    Frame(s, t.id, t.item, t.maxHigh, t.red, Sub(t, Other(s)), c)
  }

  /** The subtree one step up. */
  function UpTree(c: Ctx, t: Tree): (r: Tree)
    requires c.Frame?
    ensures r.Node?
  {
    Mk(c.s, t, c.id, c.item, c.maxHigh, c.red, c.sib)
  }

  lemma ZipDown(n: Pool, c: Ctx, t: Tree, s: Side)
    requires ZipShape(n, c, t) && t.Node?
    ensures ZipShape(n, DownCtx(c, t, s), Sub(t, s)) && Plug(DownCtx(c, t, s), Sub(t, s)) == Plug(c, t)
  {
    ZipMove(n, c, t, DownCtx(c, t, s), Sub(t, s));
  }

  lemma ZipUp(n: Pool, c: Ctx, t: Tree)
    requires ZipShape(n, c, t) && c.Frame?
    ensures ZipShape(n, c.up, UpTree(c, t)) && Plug(c.up, UpTree(c, t)) == Plug(c, t)
  {
    ZipMove(n, c, t, c.up, UpTree(c, t));
  }

  /** Colour and maximum of the focused node may change. */
  lemma RootUpdated(n: Pool, c: Ctx, t: Tree, m: Time, red: bool)
    requires ZipShape(n, c, t) && t.Node?
    ensures t.id in n && ZipShape(n[t.id := n[t.id].(maxHigh := m, red := red)], c, t.(maxHigh := m, red := red))
  {
    var n' := n[t.id := n[t.id].(maxHigh := m, red := red)];
    ShapeIdsInPool(n, t, CtxId(c));
    CtxIdsInPool(n, c, t.id);
    CtxNotSentinel(c);
    ShapeFrame(n, n', t.left, t.id);
    ShapeFrame(n, n', t.right, t.id);
    CtxFrame(n, n', c, t.id);
  }

  /** The links a focused node shows. */
  lemma Links(n: Pool, c: Ctx, t: Tree)
    requires ZipShape(n, c, t)
    ensures RootId(t) in n && CtxId(c) in n
    ensures t.Node? ==> t.id != NIL && t.id != ROOT
                        && n[t.id] == Rec(t.item, t.maxHigh, t.red, RootId(t.left), RootId(t.right), CtxId(c))
    ensures c.Frame? ==> c.id != NIL && c.id != ROOT && n[c.id] == FrameRec(c, RootId(t)) && CtxId(c.up) in n
    ensures c.Top? ==> n[ROOT].left == RootId(t)
    ensures n[RootId(t)].maxHigh == MaxOf(t) && n[RootId(t)].red == IsRed(t)
    ensures c.Frame? && t.Node? ==> RootId(c.sib) != t.id
  {
    CtxIdsInPool(n, c, RootId(t));
    if c.Frame? {
      CtxIdsInPool(n, c.up, c.id);
      assert c.sib.Node? ==> c.sib.id in CtxIds(c);
    }
  }

  /** The children's links and maxima as the pool shows them. */
  lemma ChildLinks(n: Pool, c: Ctx, t: Tree)
    requires ZipShape(n, c, t) && t.Node?
    ensures RootId(t.left) in n && n[RootId(t.left)].maxHigh == MaxOf(t.left) && n[RootId(t.left)].red == IsRed(t.left)
    ensures RootId(t.right) in n && n[RootId(t.right)].maxHigh == MaxOf(t.right)
            && n[RootId(t.right)].red == IsRed(t.right)
  {
    ZipDown(n, c, t, Left);
    Links(n, DownCtx(c, t, Left), t.left);
    ZipDown(n, c, t, Right);
    Links(n, DownCtx(c, t, Right), t.right);
  }

  /** The link of the frame above the hole. */
  function Relinked(n: Pool, c: Ctx, hole: Id): Rec
    requires ROOT in n
  {
    if c.Top? then n[ROOT].(left := hole) else FrameRec(c, hole)
  }

  /** What the grandparent's link to the uncle shows. */
  lemma UncleLinks(n: Pool, c: Ctx, t: Tree)
    requires ZipShape(n, c, t) && c.Frame? && c.up.Frame?
    ensures RootId(c.up.sib) in n && n[RootId(c.up.sib)].red == IsRed(c.up.sib)
  {
    ZipUp(n, c, t);
    SiblingLinks(n, c.up, UpTree(c, t));
  }

  lemma SiblingLinks(n: Pool, c: Ctx, t: Tree)
    requires ZipShape(n, c, t) && c.Frame?
    ensures RootId(c.sib) in n && n[RootId(c.sib)].red == IsRed(c.sib)
  {
    ZipUp(n, c, t);
    ChildLinks(n, c.up, UpTree(c, t));
  }

  /** The hole's node, even nil, is not confused with its sibling. */
  lemma SiblingSide(n: Pool, c: Ctx, t: Tree)
    requires ZipShape(n, c, t) && c.Frame? && c.sib.Node?
    ensures c.id in n && (n[c.id].left == RootId(t) <==> c.s.Left?)
  {
    Links(n, c, t);
    CtxNotSentinel(c);
    assert c.sib.id in CtxIds(c);
  }

  /** What the sibling's links show. */
  lemma NephewLinks(n: Pool, c: Ctx, t: Tree)
    requires ZipShape(n, c, t) && c.Frame? && c.sib.Node?
    ensures c.sib.id in n && n[c.sib.id].left == RootId(c.sib.left) && n[c.sib.id].right == RootId(c.sib.right)
    ensures RootId(c.sib.left) in n && n[RootId(c.sib.left)].red == IsRed(c.sib.left)
    ensures RootId(c.sib.right) in n && n[RootId(c.sib.right)].red == IsRed(c.sib.right)
  {
    var p := UpTree(c, t);
    ZipUp(n, c, t);
    ZipDown(n, c.up, p, Other(c.s));
    Links(n, DownCtx(c.up, p, Other(c.s)), c.sib);
    ChildLinks(n, DownCtx(c.up, p, Other(c.s)), c.sib);
  }

  /** A new leaf in an empty hole. */
  lemma LeafLinked(n: Pool, n': Pool, c: Ctx, t: Tree)
    requires ZipShape(n, c, Leaf) && t.Node? && t.left.Leaf? && t.right.Leaf?
    requires t.id !in CtxIds(c) && t.id != NIL && t.id != ROOT
    requires n'.Keys == n.Keys + {t.id} && n'[t.id] == Rec(t.item, t.maxHigh, t.red, NIL, NIL, CtxId(c))
    requires CtxId(c) in n && n'[CtxId(c)] == Relinked(n, c, t.id)
    requires forall i :: i in n && i != CtxId(c) && i != t.id ==> n'[i] == n[i]
    ensures ZipShape(n', c, t)
  {
    CtxIdsInPool(n, c, NIL);
    CtxNotSentinel(c);
    assert Agree(n, n', CtxIds(c) - {CtxId(c)});
    Refilled(n, n', c, NIL, t.id);
  }

  /** z is made the child of y on side s. */
  function Hung(n: Pool, z: Id, y: Id, s: Side): Pool
    requires z in n && y in n
  {
    var n1 := n[z := n[z].(parent := y)];
    n1[y := WithChild(n1[y], s, z)]
  }

  lemma HungZip(n: Pool, c: Ctx, t: Tree)
    requires ZipShape(n, c, Leaf) && t.Node? && t.left.Leaf? && t.right.Leaf?
    requires t.id !in CtxIds(c) && t.id != NIL && t.id != ROOT && t.id in n
    requires n[t.id].(parent := NIL) == Rec(t.item, t.maxHigh, t.red, NIL, NIL, NIL)
    ensures CtxId(c) in n
    ensures ZipShape(Hung(n, t.id, CtxId(c), if c.Top? then Left else c.s), c, t)
  {
    Links(n, c, Leaf);
    LeafLinked(n, Hung(n, t.id, CtxId(c), if c.Top? then Left else c.s), c, t);
  }

  /** The records that a splice touches are not the spliced node's. */
  lemma SpliceApart(n: Pool, c: Ctx, t: Tree)
    requires ZipShape(n, c, t) && t.Node?
    ensures CtxId(c) != t.id && CtxId(c) != NIL && RootId(t.left) != t.id && RootId(t.right) != t.id
    ensures CtxId(c) != RootId(t.left) && CtxId(c) != RootId(t.right)
    ensures c.Top? ==> t.id != n[ROOT].right
  {
    CtxNotSentinel(c);
    NotSentinel(t);
    assert c.Frame? ==> c.id in CtxIds(c);
    assert t.left.Node? ==> t.left.id in TreeIds(t.left) && t.left.id in TreeIds(t);
    assert t.right.Node? ==> t.right.id in TreeIds(t.right) && t.right.id in TreeIds(t);
  }

  /** Nor does a replacement confuse the nodes around z. */
  lemma ReplaceApart(n: Pool, c: Ctx, t: Tree)
    requires ZipShape(n, c, t) && t.Node? && t.left.Node?
    ensures CtxId(c) != t.id && CtxId(c) != NIL && t.left.id != t.id && RootId(t.right) != t.id
            && t.left.id != RootId(t.right)
    ensures CtxId(c) != t.left.id && CtxId(c) != RootId(t.right)
    ensures t.left.id in TreeIds(t) && (t.right.Node? ==> t.right.id in TreeIds(t)) && (c.Frame? ==> c.id in CtxIds(c))
  {
    SpliceApart(n, c, t);
    NotSentinel(t);
    assert t.left.id in TreeIds(t.left) && (t.right.Node? ==> t.right.id in TreeIds(t.right));
  }

  /** Node t with one child missing is replaced by its other child x. */
  lemma Spliced(n: Pool, n': Pool, c: Ctx, t: Tree, x: Tree)
    requires ZipShape(n, c, t) && t.Node? && ((t.left.Leaf? && t.right == x) || (t.right.Leaf? && t.left == x))
    requires n'.Keys == n.Keys && RootId(x) in n && CtxId(c) in n
    requires n'[RootId(x)] == n[RootId(x)].(parent := CtxId(c))
    requires n'[CtxId(c)] == Relinked(n, c, RootId(x))
    requires forall i :: i in n && i != CtxId(c) && i != RootId(x) ==> n'[i] == n[i]
    ensures ZipShape(n', c, x)
  {
    assert Shape(n, x, t.id) && TreeIds(x) <= TreeIds(t);
    assert x.Node? ==> x.id in TreeIds(x);
    NotSentinel(x);
    CtxNotSentinel(c);
    ShapeIdsInPool(n, x, t.id);
    CtxIdsInPool(n, c, t.id);
    assert c.Frame? ==> c.id in CtxIds(c);
    assert Agree(n, n', TreeIds(x) - {RootId(x)});
    Reparented(n, n', x, t.id, CtxId(c));
    assert Agree(n, n', CtxIds(c) - {CtxId(c)});
    Refilled(n, n', c, t.id, RootId(x));
  }

  /** Node z is replaced by a node that is not in the tree; its subtrees stay. */
  lemma Replaced(n: Pool, n': Pool, c: Ctx, z: Tree, y: Tree)
    requires ZipShape(n, c, z) && z.Node? && y.Node? && y.left == z.left && y.right == z.right && z.left.Node?
    requires y.id != NIL && y.id != ROOT && y.id !in TreeIds(z) && y.id !in CtxIds(c)
    requires n'.Keys == n.Keys && y.id in n && RootId(z.left) in n && RootId(z.right) in n && CtxId(c) in n
    requires n'[y.id] == Rec(y.item, y.maxHigh, y.red, RootId(z.left), RootId(z.right), CtxId(c))
    requires n'[RootId(z.left)] == n[RootId(z.left)].(parent := y.id)
    requires n'[RootId(z.right)] == n[RootId(z.right)].(parent := y.id)
    requires n'[CtxId(c)] == Relinked(n, c, y.id)
    requires forall i ::
               i in n && i != CtxId(c) && i != RootId(z.left) && i != RootId(z.right) && i != y.id ==> n'[i] == n[i]
    ensures ZipShape(n', c, y)
  {
    NotSentinel(z);
    CtxNotSentinel(c);
    ShapeIdsInPool(n, z, CtxId(c));
    CtxIdsInPool(n, c, z.id);
    assert c.Frame? ==> c.id in CtxIds(c);
    ReplacedSide(n, n', c, z, y, Left);
    ReplacedSide(n, n', c, z, y, Right);
    assert z.right.Node? ==> z.right.id in TreeIds(z);
    assert Agree(n, n', CtxIds(c) - {CtxId(c)});
    Refilled(n, n', c, z.id, y.id);
  }

  lemma ReplacedSide(n: Pool, n': Pool, c: Ctx, z: Tree, y: Tree, s: Side)
    requires z.Node? && Distinct(z) && Shape(n, z, CtxId(c)) && y.Node? && y.id !in TreeIds(z)
    requires CtxId(c) !in TreeIds(z)
    requires n'.Keys == n.Keys && RootId(Sub(z, s)) in n
             && n'[RootId(Sub(z, s))] == n[RootId(Sub(z, s))].(parent := y.id)
    requires forall i ::
               i in n && i != CtxId(c) && i != RootId(z.left) && i != RootId(z.right) && i != y.id ==> n'[i] == n[i]
    ensures Shape(n', Sub(z, s), y.id)
  {
    var t := Sub(z, s);
    var u := Sub(z, Other(s));
    NotSentinel(z);
    ShapeIdsInPool(n, t, z.id);
    assert u.Node? ==> u.id in TreeIds(u);
    assert TreeIds(t) !! TreeIds(u) && TreeIds(t) <= TreeIds(z);
    assert Agree(n, n', TreeIds(t) - {RootId(t)});
    Reparented(n, n', t, z.id, y.id);
  }

  predicate CanSwap(n: Pool, z: Id, y: Id) {
    && z in n && y in n && z != y && n[z].left in n && n[z].right in n && n[z].parent in n
    && n[z].left != z && n[z].right != z && n[z].parent != z
  }

  /** The pool after y took the links of z. */
  function Swapped(n: Pool, z: Id, y: Id): Pool
    requires CanSwap(n, z, y)
  {
    var r := n[z];
    var n1 := n[y := Rec(n[y].item, -MAXTIME, n[y].red, r.left, r.right, r.parent)];
    var n2 := n1[r.right := n1[r.right].(parent := y)];
    var n3 := n2[r.left := n2[r.left].(parent := y)];
    if n3[r.parent].left == z then n3[r.parent := n3[r.parent].(left := y)]
    else n3[r.parent := n3[r.parent].(right := y)]
  }

  /** That pool, record by record. */
  lemma SwappedPoints(n: Pool, z: Id, y: Id, l: Id, r: Id, p: Id)
    requires CanSwap(n, z, y) && l == n[z].left && r == n[z].right && p == n[z].parent
    requires y != l && y != r && y != p && l != r && l != p && r != p
    ensures var n' := Swapped(n, z, y);
            && n'.Keys == n.Keys
            && n'[y] == Rec(n[y].item, -MAXTIME, n[y].red, l, r, p)
            && n'[l] == n[l].(parent := y) && n'[r] == n[r].(parent := y)
            && n'[p] == (if n[p].left == z then n[p].(left := y) else n[p].(right := y))
            && forall i :: i in n && i != y && i != l && i != r && i != p ==> n'[i] == n[i]
  {
  }

  lemma SwappedZip(n: Pool, c: Ctx, t: Tree, y: Id)
    requires ZipShape(n, c, t) && t.Node? && t.left.Node?
    requires y in n && y != NIL && y != ROOT && y !in TreeIds(t) && y !in CtxIds(c)
    ensures CanSwap(n, t.id, y)
    ensures var n' := Swapped(n, t.id, y);
            && ZipShape(n', c, Node(t.left, y, n[y].item, -MAXTIME, n[y].red, t.right))
            && n'.Keys == n.Keys && n'[t.id] == n[t.id] && n'[y].red == n[y].red
            && n'[NIL].parent == (if t.right.Leaf? then y else n[NIL].parent)
  {
    Links(n, c, t);
    ChildLinks(n, c, t);
    ReplaceApart(n, c, t);
    NotSentinel(t);
    SwappedPoints(n, t.id, y, t.left.id, RootId(t.right), CtxId(c));
    Replaced(n, Swapped(n, t.id, y), c, t, Node(t.left, y, n[y].item, -MAXTIME, n[y].red, t.right));
  }

  /** Nodes outside the tree do not matter. */
  lemma Outside(n: Pool, n': Pool, c: Ctx, t: Tree)
    requires ZipShape(n, c, t) && Agree(n, n', TreeIds(t) + CtxIds(c) + {NIL, ROOT})
    ensures ZipShape(n', c, t)
  {
    ShapeFrame(n, n', t, CtxId(c));
    assert ROOT in TreeIds(t) + CtxIds(c) + {NIL, ROOT} && NIL in TreeIds(t) + CtxIds(c) + {NIL, ROOT};
    CtxFrame(n, n', c, RootId(t));
  }

  /** A record for a node outside the tree. */
  lemma OutsideUpdate(n: Pool, t: Tree, z: Id, r: Rec)
    requires ZipShape(n, Top, t) && z !in TreeIds(t) && z != NIL && z != ROOT
    ensures ZipShape(n[z := r], Top, t)
  {
    ShapeIdsInPool(n, t, ROOT);
    Outside(n, n[z := r], Top, t);
  }

  lemma OutsideRemoved(n: Pool, t: Tree, z: Id)
    requires ZipShape(n, Top, t) && z !in TreeIds(t) && z != NIL && z != ROOT
    ensures ZipShape(n - {z}, Top, t)
  {
    ShapeIdsInPool(n, t, ROOT);
    Outside(n, n - {z}, Top, t);
  }

  /** A link is nil exactly when the subtree is empty. */
  lemma ChildPresence(n: Pool, c: Ctx, t: Tree)
    requires ZipShape(n, c, t) && t.Node?
    ensures t.id in n && n[t.id].item == t.item
    ensures (n[t.id].left == NIL <==> t.left.Leaf?) && (n[t.id].right == NIL <==> t.right.Leaf?)
  {
    ZipDown(n, c, t, Left);
    Links(n, DownCtx(c, t, Left), t.left);
    ZipDown(n, c, t, Right);
    Links(n, DownCtx(c, t, Right), t.right);
  }

  // ------------------------------------------------------------ rotation with its two maxima

  function MaxAt(item: Interval, l: Tree, r: Tree): Time {
    Max(item.high, Max(MaxOf(l), MaxOf(r)))
  }

  function Turned(s: Side, a: Tree, x: Tree, b: Tree, y: Tree, c: Tree): Tree
    requires x.Node? && y.Node?
  {
    var x' := Mk(s, a, x.id, x.item, MaxAt(x.item, a, b), x.red, b);
    Mk(s, x', y.id, y.item, MaxAt(y.item, x', c), y.red, c)
  }

  /** x->max_high = max(left, max(right, high)) on the pool. */
  function Remax(n: Pool, x: Id): Pool
    requires x in n && n[x].left in n && n[x].right in n
  {
    n[x := n[x].(maxHigh := Max(n[n[x].left].maxHigh, Max(n[n[x].right].maxHigh, n[x].item.high)))]
  }

  /** Nothing but max_high fields differ. */
  ghost predicate OnlyMaxima(n: Pool, n': Pool) {
    n'.Keys == n.Keys && forall i :: i in n ==> n'[i] == n[i].(maxHigh := n'[i].maxHigh)
  }

  lemma RemaxZip(n: Pool, c: Ctx, t: Tree)
    requires ZipShape(n, c, t) && t.Node?
    ensures t.id in n && n[t.id].left in n && n[t.id].right in n
    ensures ZipShape(Remax(n, t.id), c, t.(maxHigh := MaxAt(t.item, t.left, t.right)))
  {
    Links(n, c, t);
    ChildLinks(n, c, t);
    RootUpdated(n, c, t, MaxAt(t.item, t.left, t.right), t.red);
  }

  /** Both maxima recomputed, lower node first. */
  lemma RemaxBoth(n1: Pool, ctx: Ctx, s: Side, a: Tree, x: Tree, b: Tree, y: Tree, c: Tree)
    requires x.Node? && y.Node? && ZipShape(n1, ctx, Upper(s, a, x, b, y, c))
    ensures x.id in n1 && n1[x.id].left in n1 && n1[x.id].right in n1
    ensures var n2 := Remax(n1, x.id);
            && y.id in n2 && n2[y.id].left in n2 && n2[y.id].right in n2
            && ZipShape(Remax(n2, y.id), ctx, Turned(s, a, x, b, y, c))
  {
    RemaxLower(n1, ctx, s, a, x, b, y, c);
    var x' := Mk(s, a, x.id, x.item, MaxAt(x.item, a, b), x.red, b);
    RemaxZip(Remax(n1, x.id), ctx, Mk(s, x', y.id, y.item, y.maxHigh, y.red, c));
    RemaxedMk(s, x', y, c);
  }

  lemma RemaxLower(n1: Pool, ctx: Ctx, s: Side, a: Tree, x: Tree, b: Tree, y: Tree, c: Tree)
    requires x.Node? && y.Node? && ZipShape(n1, ctx, Upper(s, a, x, b, y, c))
    ensures x.id in n1 && n1[x.id].left in n1 && n1[x.id].right in n1
    ensures var x' := Mk(s, a, x.id, x.item, MaxAt(x.item, a, b), x.red, b);
            ZipShape(Remax(n1, x.id), ctx, Mk(s, x', y.id, y.item, y.maxHigh, y.red, c))
  {
    var u := Upper(s, a, x, b, y, c);
    var d := DownCtx(ctx, u, s);
    assert d == Frame(s, y.id, y.item, y.maxHigh, y.red, c, ctx);
    ZipDown(n1, ctx, u, s);
    RemaxZip(n1, d, Mk(s, a, x.id, x.item, x.maxHigh, x.red, b));
    RemaxedMk(s, a, x, b);
    ZipUp(Remax(n1, x.id), d, Mk(s, a, x.id, x.item, MaxAt(x.item, a, b), x.red, b));
  }

  lemma RemaxedMk(s: Side, a: Tree, x: Tree, b: Tree)
    requires x.Node?
    ensures var t := Mk(s, a, x.id, x.item, x.maxHigh, x.red, b);
            t.(maxHigh := MaxAt(t.item, t.left, t.right))
            == Mk(s, a, x.id, x.item, MaxAt(x.item, a, b), x.red, b)
  {
    MaxSides(x.item, a, b);
  }

  predicate CanTurn(n: Pool, s: Side, x: Id) {
    && CanRotate(n, s, x)
    && var y := Child(n[x], Other(s)); var n1 := Rotated(n, s, x);
       && x in n1 && n1[x].left in n1 && n1[x].right in n1
       && var n2 := Remax(n1, x); y in n2 && n2[y].left in n2 && n2[y].right in n2
  }

  /** leftRotate / rightRotate as a whole, on the pool. */
  function Turn(n: Pool, s: Side, x: Id): Pool
    requires CanTurn(n, s, x)
  {
    Remax(Remax(Rotated(n, s, x), x), Child(n[x], Other(s)))
  }

  /** The same on the tree. */
  function RotTree(t: Tree, s: Side): Tree
    requires t.Node? && Sub(t, Other(s)).Node?
  {
    var y := Sub(t, Other(s));
    Turned(s, Sub(t, s), t, Sub(y, s), y, Sub(y, Other(s)))
  }

  lemma LowerOf(t: Tree, s: Side)
    requires t.Node? && Sub(t, Other(s)).Node?
    ensures var y := Sub(t, Other(s)); t == Lower(s, Sub(t, s), t, Sub(y, s), y, Sub(y, Other(s)))
  {
  }

  /** Rotating a node of the tree rotates the tree and does not touch nil. */
  lemma TurnZip(n: Pool, ctx: Ctx, t: Tree, s: Side)
    requires ZipShape(n, ctx, t) && t.Node? && Sub(t, Other(s)).Node?
    ensures CanTurn(n, s, t.id) && ZipShape(Turn(n, s, t.id), ctx, RotTree(t, s))
    ensures Turn(n, s, t.id)[NIL] == n[NIL]
  {
    var y := Sub(t, Other(s));
    LowerOf(t, s);
    RotatedZip(n, ctx, s, Sub(t, s), t, Sub(y, s), y, Sub(y, Other(s)));
    RemaxBoth(Rotated(n, s, t.id), ctx, s, Sub(t, s), t, Sub(y, s), y, Sub(y, Other(s)));
    Links(n, ctx, t);
    ZipDown(n, ctx, t, Other(s));
    Links(n, DownCtx(ctx, t, Other(s)), y);
    TurnNil(n, s, t.id);
  }

  lemma TurnNil(n: Pool, s: Side, x: Id)
    requires CanTurn(n, s, x) && NIL in n && x != NIL && Child(n[x], Other(s)) != NIL && n[x].parent != NIL
    ensures NIL in Turn(n, s, x) && Turn(n, s, x)[NIL] == n[NIL]
  {
  }

  lemma MaxSides(item: Interval, l: Tree, r: Tree)
    ensures MaxAt(item, l, r) == MaxAt(item, r, l)
  {
  }

  /** A rotation keeps the order of the entries. */
  lemma TurnedInorder(s: Side, a: Tree, x: Tree, b: Tree, y: Tree, c: Tree)
    requires x.Node? && y.Node?
    ensures Inorder(Turned(s, a, x, b, y, c)) == Inorder(Lower(s, a, x, b, y, c))
  {
    InorderMk(s, b, y.id, y.item, y.maxHigh, y.red, c);
    InorderMk(s, a, x.id, x.item, x.maxHigh, x.red, Mk(s, b, y.id, y.item, y.maxHigh, y.red, c));
    InorderMk(s, a, x.id, x.item, MaxAt(x.item, a, b), x.red, b);
    var x' := Mk(s, a, x.id, x.item, MaxAt(x.item, a, b), x.red, b);
    InorderMk(s, x', y.id, y.item, MaxAt(y.item, x', c), y.red, c);
    var ex, ey := [Entry(x.id, x.item)], [Entry(y.id, y.item)];
    if s.Left? {
      EntriesTurn(Inorder(a), ex, Inorder(b), ey, Inorder(c));
    } else {
      EntriesTurn(Inorder(c), ey, Inorder(b), ex, Inorder(a));
    }
  }

  lemma EntriesTurn(a: seq<Entry>, x: seq<Entry>, b: seq<Entry>, y: seq<Entry>, c: seq<Entry>)
    ensures (a + x + b) + y + c == a + x + (b + y + c)
  {
  }

  /** A rotation keeps the maxima right. */
  lemma TurnedMax(s: Side, a: Tree, x: Tree, b: Tree, y: Tree, c: Tree)
    requires x.Node? && y.Node? && MaxOk(Lower(s, a, x, b, y, c))
    ensures MaxOk(Turned(s, a, x, b, y, c)) && MaxOf(Turned(s, a, x, b, y, c)) == MaxOf(Lower(s, a, x, b, y, c))
  {
    MaxMk(s, b, y.id, y.item, y.maxHigh, y.red, c);
    MaxMk(s, a, x.id, x.item, x.maxHigh, x.red, Mk(s, b, y.id, y.item, y.maxHigh, y.red, c));
    MaxMk(s, a, x.id, x.item, MaxAt(x.item, a, b), x.red, b);
    var x' := Mk(s, a, x.id, x.item, MaxAt(x.item, a, b), x.red, b);
    MaxMk(s, x', y.id, y.item, MaxAt(y.item, x', c), y.red, c);
    MaxTurns(x.item.high, y.item.high, MaxOf(a), MaxOf(b), MaxOf(c));
  }

  lemma MaxTurns(x: Time, y: Time, a: Time, b: Time, c: Time)
    ensures Max(y, Max(Max(x, Max(a, b)), c)) == Max(x, Max(a, Max(y, Max(b, c))))
  {
  }

  lemma MaxMk(s: Side, a: Tree, id: Id, item: Interval, m: Time, red: bool, b: Tree)
    ensures MaxOk(Mk(s, a, id, item, m, red, b)) <==> m == MaxAt(item, a, b) && MaxOk(a) && MaxOk(b)
  {
  }

  /** A rotation anywhere in the tree keeps contents and maxima. */
  lemma RotTreeKeeps(ctx: Ctx, t: Tree, s: Side)
    requires t.Node? && Sub(t, Other(s)).Node?
    ensures Inorder(Plug(ctx, RotTree(t, s))) == Inorder(Plug(ctx, t))
    ensures MaxOk(Plug(ctx, t)) ==> MaxOk(Plug(ctx, RotTree(t, s)))
    ensures MaxOk(t) ==> MaxOf(RotTree(t, s)) == MaxOf(t)
  {
    var y := Sub(t, Other(s));
    LowerOf(t, s);
    TurnedInorder(s, Sub(t, s), t, Sub(y, s), y, Sub(y, Other(s)));
    InorderPlug(ctx, t);
    InorderPlug(ctx, RotTree(t, s));
    MaxPlug(ctx, t);
    MaxPlug(ctx, RotTree(t, s));
    if MaxOk(t) {
      TurnedMax(s, Sub(t, s), t, Sub(y, s), y, Sub(y, Other(s)));
    }
  }

  /** So does a change of colour. */
  lemma PaintKeeps(ctx: Ctx, t: Tree, red: bool)
    requires t.Node?
    ensures Inorder(Plug(ctx, t.(red := red))) == Inorder(Plug(ctx, t))
    ensures MaxOk(Plug(ctx, t.(red := red))) == MaxOk(Plug(ctx, t))
  {
    InorderPlug(ctx, t);
    InorderPlug(ctx, t.(red := red));
    MaxPlug(ctx, t);
    MaxPlug(ctx, t.(red := red));
  }
}
