/** The red-black repair steps on trees: each case of the two fixup loops, seen from the zipper. */
module IntervalColour {
  import opened IntervalShape
  import opened IntervalHeap

  lemma BalMk(s: Side, a: Tree, id: Id, item: Interval, m: Time, red: bool, b: Tree, n: nat)
    ensures Balanced(Mk(s, a, id, item, m, red, b), n)
            <==> if red then Balanced(a, n) && Balanced(b, n) else n > 0 && Balanced(a, n - 1) && Balanced(b, n - 1)
  {
  }

  lemma RedMk(s: Side, a: Tree, id: Id, item: Interval, m: Time, red: bool, b: Tree)
    ensures NoRedRed(Mk(s, a, id, item, m, red, b))
            <==> NoRedRed(a) && NoRedRed(b) && (red ==> !IsRed(a) && !IsRed(b))
    ensures IsRed(Mk(s, a, id, item, m, red, b)) == red
  {
  }

  lemma BalSub(t: Tree, s: Side, n: nat)
    requires t.Node?
    ensures Balanced(t, n)
            <==> if t.red then Balanced(Sub(t, s), n) && Balanced(Sub(t, Other(s)), n)
                 else n > 0 && Balanced(Sub(t, s), n - 1) && Balanced(Sub(t, Other(s)), n - 1)
  {
  }

  lemma RedSub(t: Tree, s: Side)
    requires t.Node?
    ensures NoRedRed(t)
            <==> && NoRedRed(Sub(t, s)) && NoRedRed(Sub(t, Other(s)))
                 && (t.red ==> !IsRed(Sub(t, s)) && !IsRed(Sub(t, Other(s))))
  {
  }

  /** One frame of the two conditions on contexts. */
  lemma OpenFrame(c: Ctx, n: nat, holeRed: bool)
    requires c.Frame?
    ensures CtxBalanced(c, n) <==> Balanced(c.sib, n) && CtxBalanced(c.up, if c.red then n else n + 1)
    ensures CtxNoRedRed(c, holeRed)
            <==> !(c.red && holeRed) && !(c.red && IsRed(c.sib)) && NoRedRed(c.sib) && CtxNoRedRed(c.up, c.red)
  {
  }

  function Black(t: Tree): Tree { if t.Leaf? then Leaf else t.(red := false) }

  /** What a rotation yields, part by part. */
  lemma RotParts(t: Tree, s: Side)
    requires t.Node? && Sub(t, Other(s)).Node?
    ensures var y := Sub(t, Other(s)); var r := RotTree(t, s);
            && r.Node? && r.id == y.id && r.red == y.red && Sub(r, Other(s)) == Sub(y, Other(s))
            && Sub(r, s).Node? && Sub(r, s).id == t.id && Sub(r, s).red == t.red
            && Sub(Sub(r, s), s) == Sub(t, s) && Sub(Sub(r, s), Other(s)) == Sub(y, s)
  {
  }

  // ------------------------------------------------------------ insertion

  /** A red subtree t in the hole; only its colour may clash with its parent's. */
  predicate Rising(c: Ctx, t: Tree, n: nat) {
    IsRed(t) && NoRedRed(t) && Balanced(t, n) && CtxBalanced(c, n) && CtxNoRedRed(c, false)
  }

  /** A red parent is never the root's child. */
  lemma HasGrandparent(c: Ctx, t: Tree, n: nat)
    requires Rising(c, t, n) && c.Frame? && c.red
    ensures c.up.Frame? && !c.up.red
  {
    OpenFrame(c, n, false);
    if c.up.Frame? { OpenFrame(c.up, n, true); }
  }

  /** The node after its parent and uncle became black and its grandparent red. */
  function Recoloured(c: Ctx, t: Tree): Tree
    requires c.Frame? && c.up.Frame?
  {
    UpTree(c.up.(red := true, sib := Black(c.up.sib)), UpTree(c.(red := false), t))
  }

  lemma RecolouredBy(c: Ctx, t: Tree)
    requires c.Frame? && c.up.Frame? && c.up.sib.Node?
    ensures var p := UpTree(c, t); p.(red := false) == UpTree(c.(red := false), t)
    ensures var g := UpTree(c.up.(sib := Black(c.up.sib)), UpTree(c.(red := false), t));
            g.(red := true) == Recoloured(c, t)
  {
  }

  /** Red uncle: the clash moves two levels up. */
  lemma UncleRed(c: Ctx, t: Tree, n: nat)
    requires Rising(c, t, n) && c.Frame? && c.red && c.up.Frame? && IsRed(c.up.sib)
    ensures Rising(c.up.up, Recoloured(c, t), n + 1)
  {
    OpenFrame(c, n, false);
    OpenFrame(c.up, n, true);
    var g := c.up;
    BalSub(g.sib, Left, n);
    BalSub(Black(g.sib), Left, n + 1);
    RedSub(g.sib, Left);
    RedSub(Black(g.sib), Left);
    var p' := UpTree(c.(red := false), t);
    BalMk(c.s, t, c.id, c.item, c.maxHigh, false, c.sib, n + 1);
    RedMk(c.s, t, c.id, c.item, c.maxHigh, false, c.sib);
    BalMk(g.s, p', g.id, g.item, g.maxHigh, true, Black(g.sib), n + 1);
    RedMk(g.s, p', g.id, g.item, g.maxHigh, true, Black(g.sib));
  }

  /** Inner grandchild: rotating the parent makes it an outer one. */
  lemma InnerChild(c: Ctx, t: Tree, n: nat)
    requires Rising(c, t, n) && c.Frame? && c.red && c.up.Frame? && c.s != c.up.s
    ensures var r := RotTree(UpTree(c, t), c.up.s); var c' := DownCtx(c.up, r, c.up.s);
            && Rising(c', Sub(r, c.up.s), n) && c'.red && c'.s == c.up.s && c'.up == c.up
            && Sub(r, c.up.s).id == c.id
  {
    var s := c.up.s;
    var p := UpTree(c, t);
    RotParts(p, s);
    var r := RotTree(p, s);
    BalSub(t, s, n);
    RedSub(t, s);
    BalSub(Sub(r, s), s, n);
    RedSub(Sub(r, s), s);
  }

  /** The grandparent with the colours of the last step, before its rotation. */
  function Repainted(c: Ctx, t: Tree): Tree
    requires c.Frame? && c.up.Frame?
  {
    UpTree(c.up.(red := true), UpTree(c.(red := false), t))
  }

  /** Outer grandchild and black uncle: rotating the grandparent ends the repair. */
  lemma OuterChild(c: Ctx, t: Tree, n: nat)
    requires Rising(c, t, n) && c.Frame? && c.red && c.up.Frame? && c.s == c.up.s && !IsRed(c.up.sib)
    ensures var g := Repainted(c, t);
            && Sub(g, c.s).Node?
            && var r := RotTree(g, Other(c.s)); var c' := DownCtx(c.up.up, r, c.s);
               Rising(c', t, n) && !c'.red && Sub(r, c.s) == t && c'.id == c.id
  {
    var s := c.s;
    var g := Repainted(c, t);
    OpenFrame(c, n, false);
    OpenFrame(c.up, n, true);
    RotParts(g, Other(s));
    var r := RotTree(g, Other(s));
    BalSub(Sub(r, Other(s)), s, n);
    RedSub(Sub(r, Other(s)), s);
    OpenFrame(DownCtx(c.up.up, r, s), n, false);
  }

  /** At the end the root's child is made black. */
  lemma RisingEnd(c: Ctx, t: Tree, n: nat)
    requires Rising(c, t, n) && (c.Frame? ==> !c.red)
    ensures Plug(c, t).Node? && RedBlack(Black(Plug(c, t)))
  {
    PlugNode(c, t);
    if c.Top? {
      BalSub(Black(t), Left, n + 1);
    } else {
      RedBlackPlug(c, t, n);
    }
  }

  lemma {:induction false} PlugNode(c: Ctx, t: Tree)
    ensures c.Frame? || t.Node? ==> Plug(c, t).Node?
    ensures c.Frame? ==> RootId(Plug(c, t)) in CtxIds(c)
    decreases c
  {
    if c.Frame? {
      PlugNode(c.up, UpTree(c, t));
    }
  }

  // ------------------------------------------------------------ deletion

  /** The subtree in the hole is one black node short. */
  predicate Short(c: Ctx, t: Tree, n: nat) {
    Balanced(t, n) && CtxBalanced(c, n + 1) && NoRedRed(Black(t)) && CtxNoRedRed(c, false)
  }

  /** Painting a red node, or the root's child, black ends the repair. */
  lemma ShortEnd(c: Ctx, t: Tree, n: nat)
    requires Short(c, t, n) && (IsRed(t) || c.Top?)
    ensures RedBlack(Plug(c, Black(t)))
  {
    if IsRed(t) {
      BalSub(Black(t), Left, n + 1);
      RedBlackPlug(c, Black(t), n + 1);
    }
  }

  /** A short black node has a sibling, and a red sibling has two black children. */
  lemma SiblingExists(c: Ctx, t: Tree, n: nat)
    requires Short(c, t, n) && c.Frame?
    ensures c.sib.Node?
    ensures c.sib.red ==> Sub(c.sib, c.s).Node? && !Sub(c.sib, c.s).red && !c.red
  {
    BalSub(c.sib, c.s, n + 1);
    RedSub(c.sib, c.s);
  }

  /** The parent with its red sibling's colour exchanged for its own. */
  function Exchanged(c: Ctx, t: Tree): Tree
    requires c.Frame?
  {
    UpTree(c.(red := true, sib := Black(c.sib)), t)
  }

  /** Red sibling: rotating the parent gives a black sibling. */
  lemma SiblingRed(c: Ctx, t: Tree, n: nat)
    requires Short(c, t, n) && c.Frame? && IsRed(c.sib)
    ensures var r := RotTree(Exchanged(c, t), c.s);
            var c1 := DownCtx(c.up, r, c.s);
            var c2 := DownCtx(c1, Sub(r, c.s), c.s);
            && Short(c2, t, n) && !IsRed(c2.sib) && c2.red && c2.id == c.id && Sub(Sub(r, c.s), c.s) == t
                && c1.id == c.sib.id
  {
    RotParts(Exchanged(c, t), c.s);
    BalSub(c.sib, c.s, n + 1);
    RedSub(c.sib, c.s);
  }

  /** Black nephews: the sibling becomes red and the parent is short. */
  lemma NephewsBlack(c: Ctx, t: Tree, n: nat)
    requires Short(c, t, n) && c.Frame? && !IsRed(t) && c.sib.Node? && !c.sib.red
    requires !IsRed(c.sib.left) && !IsRed(c.sib.right)
    ensures Short(c.up, UpTree(c.(sib := c.sib.(red := true)), t), if c.red then n else n + 1)
  {
    var w := c.sib.(red := true);
    OpenFrame(c, n + 1, false);
    if c.red { CtxBlackHole(c.up); }
    BalSub(c.sib, Left, n + 1);
    BalSub(w, Left, n);
    RedSub(c.sib, Left);
    RedSub(w, Left);
    BalMk(c.s, t, c.id, c.item, c.maxHigh, c.red, w, if c.red then n else n + 1);
    RedMk(c.s, t, c.id, c.item, c.maxHigh, false, w);
  }

  /** The sibling with its near child's colour exchanged for its own. */
  function NearPainted(c: Ctx): Tree
    requires c.Frame? && c.sib.Node? && Sub(c.sib, c.s).Node?
  {
    Mk(c.s, Sub(c.sib, c.s).(red := false), c.sib.id, c.sib.item, c.sib.maxHigh, true, Sub(c.sib, Other(c.s)))
  }

  /** Near nephew red, far one black: rotating the sibling makes the far one red. */
  lemma NearRed(c: Ctx, t: Tree, n: nat)
    requires Short(c, t, n) && c.Frame? && c.sib.Node? && !c.sib.red
    requires IsRed(Sub(c.sib, c.s)) && !IsRed(Sub(c.sib, Other(c.s)))
    ensures var w := RotTree(NearPainted(c), Other(c.s));
            && w.Node? && !w.red && IsRed(Sub(w, Other(c.s))) && Short(c.(sib := w), t, n)
            && w.id == Sub(c.sib, c.s).id && Sub(w, Other(c.s)).id == c.sib.id
  {
    var s := c.s;
    RotParts(NearPainted(c), Other(s));
    var w := RotTree(NearPainted(c), Other(s));
    BalSub(c.sib, s, n + 1);
    BalSub(Sub(c.sib, s), s, n);
    RedSub(c.sib, s);
    RedSub(Sub(c.sib, s), s);
    var v := Sub(w, Other(s));
    BalSub(v, s, n);
    RedSub(v, s);
    BalSub(w, s, n + 1);
    RedSub(w, s);
  }

  /** The parent with the colours of the last step, before its rotation. */
  function FarPainted(c: Ctx, t: Tree): Tree
    requires c.Frame? && c.sib.Node? && Sub(c.sib, Other(c.s)).Node?
  {
    var w := Mk(c.s, Sub(c.sib, c.s), c.sib.id, c.sib.item, c.sib.maxHigh, c.red,
        Sub(c.sib, Other(c.s)).(red := false));
    UpTree(c.(red := false, sib := w), t)
  }

  /** Far nephew red: rotating the parent ends the repair. */
  lemma FarRed(c: Ctx, t: Tree, n: nat)
    requires Short(c, t, n) && c.Frame? && !IsRed(t) && c.sib.Node? && !c.sib.red && IsRed(Sub(c.sib, Other(c.s)))
    ensures var r := RotTree(FarPainted(c, t), c.s);
            RedBlack(Plug(c.up, r)) && r.red == c.red && Sub(r, c.s).Node? && Sub(r, c.s).id == c.id && !Sub(r, c.s).red
  {
    var s := c.s;
    RotParts(FarPainted(c, t), s);
    var r := RotTree(FarPainted(c, t), s);
    var far := Sub(c.sib, Other(s));
    BalSub(c.sib, s, n + 1);
    RedSub(c.sib, s);
    BalSub(far, s, n);
    RedSub(far, s);
    BalSub(Black(far), s, n + 1);
    RedSub(Black(far), s);
    var p := Sub(r, s);
    BalSub(p, s, n + 1);
    RedSub(p, s);
    var m := if c.red then n + 1 else n + 2;
    BalSub(r, s, m);
    RedSub(r, s);
    RedBlackPlug(c.up, r, m);
  }

  // ------------------------------------------------------------ the same paintings one node at a time

  function WithSub(t: Tree, s: Side, a: Tree): (r: Tree)
    requires t.Node?
    ensures r.Node?
  {
    if s.Left? then t.(left := a) else t.(right := a)
  }

  /** Repainting a child of the sibling, seen from that child and from the hole. */
  lemma NephewMoves(c: Ctx, t: Tree, o: Side, v: Tree)
    requires c.Frame? && c.sib.Node?
    ensures var d := DownCtx(c.up, UpTree(c, t), Other(c.s)); var e := DownCtx(d, c.sib, o);
            Plug(e, v) == Plug(c.(sib := WithSub(c.sib, o, v)), t)
  {
    var d := DownCtx(c.up, UpTree(c, t), Other(c.s));
    var e := DownCtx(d, c.sib, o);
    var c' := c.(sib := WithSub(c.sib, o, v));
    assert UpTree(e, v) == c'.sib;
    assert UpTree(d, c'.sib) == UpTree(c', t);
  }

  lemma ExchangedBy(c: Ctx, t: Tree)
    requires c.Frame? && c.sib.Node?
    ensures var p := UpTree(c.(sib := c.sib.(red := false)), t); p.(red := true) == Exchanged(c, t)
  {
  }

  lemma NearPaintedBy(c: Ctx)
    requires c.Frame? && c.sib.Node? && Sub(c.sib, c.s).Node?
    ensures var w := WithSub(c.sib, c.s, Black(Sub(c.sib, c.s))); w.(red := true) == NearPainted(c)
  {
  }

  lemma FarPaintedBy(c: Ctx, t: Tree)
    requires c.Frame? && c.sib.Node? && Sub(c.sib, Other(c.s)).Node?
    ensures var w := c.sib.(red := c.red);
            var w' := WithSub(w, Other(c.s), Black(Sub(w, Other(c.s))));
            UpTree(c.(red := false, sib := w'), t) == FarPainted(c, t)
  {
  }

  /** The whole tree's root is where the hole is only if the hole is at the top. */
  lemma RootAtTop(c: Ctx, t: Tree)
    requires ZipDistinct(c, t) && RootId(Plug(c, t)) == RootId(t)
    ensures c.Top?
  {
    PlugNode(c, t);
    CtxNotSentinel(c);
    assert t.Node? ==> t.id in TreeIds(t);
  }

  /** The root of the whole tree does not depend on what is below a frame. */
  lemma {:induction false} RootFixed(c: Ctx, t: Tree, t': Tree)
    requires c.Frame? || RootId(t) == RootId(t')
    ensures RootId(Plug(c, t)) == RootId(Plug(c, t'))
    decreases c
  {
    if c.Frame? {
      assert RootId(UpTree(c, t)) == c.id && RootId(UpTree(c, t')) == c.id;
      RootFixed(c.up, UpTree(c, t), UpTree(c, t'));
    }
  }
}
