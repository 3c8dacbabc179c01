/** What insertion and removal do to the stored entries, the maxima and the frames of a zipper. */
module IntervalEdit {
  import opened IntervalShape
  import opened IntervalHeap
  import opened IntervalColour

  // ------------------------------------------------------------ order

  /** Everything before the hole has a key up to key, everything behind a greater one. */
  ghost predicate Placed(c: Ctx, key: Time) {
    && (forall i :: 0 <= i < |Before(c)| ==> Before(c)[i].item.low <= key)
    && (forall i :: 0 <= i < |Behind(c)| ==> key < Behind(c)[i].item.low)
  }

  function Turning(t: Tree, key: Time): Side
    requires t.Node?
  {
    if t.item.low > key then Left else Right
  }

  lemma SortedParts(a: seq<Entry>, b: seq<Entry>, c: seq<Entry>)
    requires Sorted(a + b + c)
    ensures Sorted(a) && Sorted(b) && Sorted(c)
  {
    var s := a + b + c;
    assert a == s[..|a|] && b == s[|a|..|a| + |b|] && c == s[|a| + |b|..];
  }

  lemma SortedMiddle(l: seq<Entry>, e: Entry, r: seq<Entry>)
    requires Sorted(l + [e] + r)
    ensures forall i :: 0 <= i < |l| ==> l[i].item.low <= e.item.low
    ensures forall i :: 0 <= i < |r| ==> e.item.low <= r[i].item.low
    ensures Sorted(l) && Sorted(r)
  {
    var s := l + [e] + r;
    assert s[|l|] == e;
    assert forall i :: 0 <= i < |l| ==> s[i] == l[i];
    assert forall i :: 0 <= i < |r| ==> s[|l| + 1 + i] == r[i];
    SortedParts(l, [e], r);
  }

  lemma SortedNode(t: Tree)
    requires t.Node? && Sorted(Inorder(t))
    ensures forall i :: 0 <= i < |Inorder(t.left)| ==> Inorder(t.left)[i].item.low <= t.item.low
    ensures forall i :: 0 <= i < |Inorder(t.right)| ==> t.item.low <= Inorder(t.right)[i].item.low
    ensures Sorted(Inorder(t.left)) && Sorted(Inorder(t.right))
  {
    SortedMiddle(Inorder(t.left), Entry(t.id, t.item), Inorder(t.right));
  }

  lemma SubSorted(c: Ctx, t: Tree)
    requires Sorted(Inorder(Plug(c, t)))
    ensures Sorted(Inorder(t))
  {
    InorderPlug(c, t);
    SortedParts(Before(c), Inorder(t), Behind(c));
  }

  /** A step of the descent. */
  lemma StepDown(c: Ctx, t: Tree, key: Time)
    requires t.Node? && Sorted(Inorder(t)) && Placed(c, key)
    ensures Placed(DownCtx(c, t, Turning(t, key)), key)
  {
    SortedNode(t);
    var d, e := DownCtx(c, t, Turning(t, key)), [Entry(t.id, t.item)];
    if t.item.low > key {
      assert Before(d) == Before(c) && Behind(d) == e + Inorder(t.right) + Behind(c);
    } else {
      assert Before(d) == Before(c) + Inorder(t.left) + e && Behind(d) == Behind(c);
    }
  }

  /** es' is es with e put at k, behind every entry whose low end is not greater. */
  ghost predicate InsertedAt(es: seq<Entry>, es': seq<Entry>, k: nat, e: Entry) {
    && k <= |es| && es' == es[..k] + [e] + es[k..]
    && (forall i :: 0 <= i < k ==> es[i].item.low <= e.item.low)
    && (forall i :: k <= i < |es| ==> e.item.low < es[i].item.low)
  }

  /** An entry put where it belongs keeps the order. */
  lemma InsertedSorted(a: seq<Entry>, b: seq<Entry>, e: Entry)
    requires Sorted(a + b)
    requires forall i :: 0 <= i < |a| ==> a[i].item.low <= e.item.low
    requires forall i :: 0 <= i < |b| ==> e.item.low < b[i].item.low
    ensures Sorted(a + [e] + b) && InsertedAt(a + b, a + [e] + b, |a|, e)
  {
    var s := a + b;
    assert s[..|a|] == a && s[|a|..] == b;
    assert forall i :: 0 <= i < |a| ==> s[i] == a[i];
    assert forall i :: 0 <= i < |b| ==> s[|a| + i] == b[i];
  }

  lemma RemovedSorted(es: seq<Entry>, k: nat)
    requires Sorted(es) && k < |es|
    ensures Sorted(es[..k] + es[k + 1..])
  {
  }

  // ------------------------------------------------------------ maxima

  /** The frames with their maxima recomputed from the hole upward. */
  function FixCtx(c: Ctx, m: Time): (r: Ctx)
    ensures r.Frame? == c.Frame?
  {
    if c.Top? then Top
    else
      var m' := Max(c.item.high, Max(m, MaxOf(c.sib)));
      c.(maxHigh := m', up := FixCtx(c.up, m'))
  }

  predicate SibsMaxOk(c: Ctx) {
    c.Top? || (MaxOk(c.sib) && SibsMaxOk(c.up))
  }

  lemma {:induction false} CtxMaxSibs(c: Ctx, m: Time)
    requires CtxMaxOk(c, m)
    ensures SibsMaxOk(c)
  {
    if c.Frame? { CtxMaxSibs(c.up, c.maxHigh); }
  }

  lemma {:induction false} FixCtxMax(c: Ctx, m: Time)
    requires SibsMaxOk(c)
    ensures CtxMaxOk(FixCtx(c, m), m)
  {
    if c.Frame? { FixCtxMax(c.up, Max(c.item.high, Max(m, MaxOf(c.sib)))); }
  }

  lemma {:induction false} FixCtxOrder(c: Ctx, m: Time)
    ensures Before(FixCtx(c, m)) == Before(c) && Behind(FixCtx(c, m)) == Behind(c) && CtxIds(FixCtx(c, m)) == CtxIds(c)
    ensures CtxId(FixCtx(c, m)) == CtxId(c)
  {
    if c.Frame? { FixCtxOrder(c.up, Max(c.item.high, Max(m, MaxOf(c.sib)))); }
  }

  /** After the walk to the root all maxima are right and the contents are as before. */
  lemma FixedUp(c: Ctx, t: Tree)
    requires SibsMaxOk(c) && MaxOk(t)
    ensures MaxOk(Plug(FixCtx(c, MaxOf(t)), t)) && Inorder(Plug(FixCtx(c, MaxOf(t)), t)) == Inorder(Plug(c, t))
    ensures TreeIds(Plug(FixCtx(c, MaxOf(t)), t)) == TreeIds(Plug(c, t))
  {
    var c' := FixCtx(c, MaxOf(t));
    FixCtxMax(c, MaxOf(t));
    MaxPlug(c', t);
    FixCtxOrder(c, MaxOf(t));
    InorderPlug(c, t);
    InorderPlug(c', t);
    DistinctPlug(c, t);
    DistinctPlug(c', t);
  }

  /** One step of that walk. */
  function Remaxed(c: Ctx, t: Tree): Tree
    requires c.Frame?
  {
    var u := UpTree(c, t);
    u.(maxHigh := MaxAt(u.item, u.left, u.right))
  }

  lemma FixStep(c: Ctx, t: Tree)
    requires c.Frame?
    ensures var u := Remaxed(c, t); Plug(FixCtx(c.up, MaxOf(u)), u) == Plug(FixCtx(c, MaxOf(t)), t)
  {
  }

  lemma MaxStep(n: Pool, c: Ctx, t: Tree)
    requires ZipShape(n, c, t) && c.Frame?
    ensures c.id in n && n[c.id].left in n && n[c.id].right in n && n[c.id].parent == CtxId(c.up)
    ensures ZipShape(Remax(n, c.id), c.up, Remaxed(c, t)) && OnlyMaxima(n, Remax(n, c.id))
    ensures var u := Remaxed(c, t); Plug(FixCtx(c.up, MaxOf(u)), u) == Plug(FixCtx(c, MaxOf(t)), t)
  {
    ZipUp(n, c, t);
    Links(n, c.up, UpTree(c, t));
    RemaxZip(n, c.up, UpTree(c, t));
    RemaxOnly(n, c.id);
    FixStep(c, t);
  }

  lemma RemaxOnly(n: Pool, x: Id)
    requires x in n && n[x].left in n && n[x].right in n
    ensures OnlyMaxima(n, Remax(n, x))
  {
  }

  /** Same contents, and the maxima stay right. */
  ghost predicate Kept(t: Tree, t': Tree) {
    Inorder(t') == Inorder(t) && (MaxOk(t) ==> MaxOk(t'))
  }

  // ------------------------------------------------------------ contexts on top of each other

  /** c with its top at the hole of d. */
  function Graft(c: Ctx, d: Ctx): Ctx {
    if c.Top? then d else c.(up := Graft(c.up, d))
  }

  lemma {:induction false} GraftPlug(c: Ctx, d: Ctx, t: Tree)
    ensures Plug(Graft(c, d), t) == Plug(d, Plug(c, t))
    decreases c
  {
    if c.Frame? { GraftPlug(c.up, d, UpTree(c, t)); }
  }

  lemma {:induction false} GraftSibs(c: Ctx, d: Ctx)
    ensures SibsMaxOk(Graft(c, d)) <==> SibsMaxOk(c) && SibsMaxOk(d)
  {
    if c.Frame? { GraftSibs(c.up, d); }
  }

  /** The maximum that c passes on when its hole has maximum m. */
  function PassedOn(c: Ctx, m: Time): Time {
    if c.Top? then m else PassedOn(c.up, Max(c.item.high, Max(m, MaxOf(c.sib))))
  }

  lemma {:induction false} FixGraft(c: Ctx, d: Ctx, m: Time)
    ensures FixCtx(Graft(c, d), m) == Graft(FixCtx(c, m), FixCtx(d, PassedOn(c, m)))
  {
    if c.Frame? { FixGraft(c.up, d, Max(c.item.high, Max(m, MaxOf(c.sib)))); }
  }

  /** Same sides, colours and siblings. */
  predicate Alike(c: Ctx, d: Ctx) {
    c.Top? == d.Top? && (c.Frame? ==> c.s == d.s && c.red == d.red && c.sib == d.sib && Alike(c.up, d.up))
  }

  lemma {:induction false} AlikeColours(c: Ctx, d: Ctx, n: nat, holeRed: bool)
    requires Alike(c, d)
    ensures CtxBalanced(c, n) == CtxBalanced(d, n) && CtxNoRedRed(c, holeRed) == CtxNoRedRed(d, holeRed)
  {
    if c.Frame? { AlikeColours(c.up, d.up, if c.red then n else n + 1, c.red); }
  }

  lemma {:induction false} FixAlike(c: Ctx, m: Time)
    ensures Alike(FixCtx(c, m), c)
  {
    if c.Frame? { FixAlike(c.up, Max(c.item.high, Max(m, MaxOf(c.sib)))); }
  }

  lemma {:induction false} GraftAlike(c: Ctx, c': Ctx, d: Ctx, d': Ctx)
    requires Alike(c, c') && Alike(d, d')
    ensures Alike(Graft(c, d), Graft(c', d'))
  {
    if c.Frame? { GraftAlike(c.up, c'.up, d, d'); }
  }

  // ------------------------------------------------------------ splicing

  /** A node with at most one child gives way to that child. */
  predicate OnlyChild(t: Tree, x: Tree) {
    t.Node? && ((t.left.Leaf? && t.right == x) || (t.right.Leaf? && t.left == x))
  }

  /** Its removal leaves the place one black node short, or is harmless. */
  lemma SpliceColours(c: Ctx, c': Ctx, t: Tree, x: Tree)
    requires RedBlack(Plug(c, t)) && OnlyChild(t, x) && Alike(c', c)
    ensures t.red ==> RedBlack(Plug(c', x))
    ensures !t.red ==> exists n: nat :: Short(c', x, n)
  {
    var m: nat :| Balanced(Plug(c, t), m);
    var n := BalancedUnplug(c, t, m);
    NoRedRedPlug(c, t);
    AlikeColours(c', c, n, t.red);
    AlikeColours(c', c, n, false);
    if t.red {
      CtxBlackHole(c');
      RedBlackPlug(c', x, n);
    } else {
      assert Short(c', x, n - 1);
    }
  }

  lemma SpliceContents(c: Ctx, t: Tree, x: Tree) returns (k: nat)
    requires OnlyChild(t, x)
    ensures RemovedAt(Inorder(Plug(c, t)), Inorder(Plug(c, x)), k, Entry(t.id, t.item))
  {
    InorderPlug(c, t);
    InorderPlug(c, x);
    k := CutOut(Before(c), Inorder(t.left), Entry(t.id, t.item), Inorder(t.right), Behind(c));
    assert Inorder(x) == Inorder(t.left) + Inorder(t.right);
  }

  /** The node z takes the entry of its successor y, which is spliced out of z's right subtree. */
  lemma ReplaceContents(cz: Ctx, z: Tree, y: Tree, cr: Ctx, ty: Tree, x: Tree) returns (k: nat)
    requires z.Node? && z.right == Plug(cr, ty) && ty.Node? && ty.left.Leaf? && ty.right == x && Before(cr) == []
    requires y.Node? && y.left == z.left && y.right == Plug(cr, x) && y.id == ty.id && y.item == ty.item
    ensures RemovedAt(Inorder(Plug(cz, z)), Inorder(Plug(cz, y)), k, Entry(z.id, z.item))
  {
    InorderPlug(cz, z);
    InorderPlug(cz, y);
    LeftmostCut(cr, ty);
    HeirOrder(z, y);
    k := CutOut(Before(cz), Inorder(z.left), Entry(z.id, z.item), Inorder(z.right), Behind(cz));
  }

  lemma LeftmostCut(cr: Ctx, ty: Tree)
    requires ty.Node? && ty.left.Leaf? && Before(cr) == []
    ensures Inorder(Plug(cr, ty)) == [Entry(ty.id, ty.item)] + Inorder(Plug(cr, ty.right))
  {
    LeftPlug(cr, ty);
    LeftPlug(cr, ty.right);
    Regroup([Entry(ty.id, ty.item)], Inorder(ty.right), Behind(cr));
    assert Inorder(ty) == [Entry(ty.id, ty.item)] + Inorder(ty.right);
  }

  lemma LeftPlug(cr: Ctx, t: Tree)
    requires Before(cr) == []
    ensures Inorder(Plug(cr, t)) == Inorder(t) + Behind(cr)
  {
    InorderPlug(cr, t);
    assert [] + Inorder(t) == Inorder(t);
  }

  lemma Regroup(a: seq<Entry>, b: seq<Entry>, c: seq<Entry>)
    ensures a + b + c == a + (b + c)
  {
  }

  lemma HeirOrder(z: Tree, y: Tree)
    requires z.Node? && y.Node? && y.left == z.left && Inorder(z.right) == [Entry(y.id, y.item)] + Inorder(y.right)
    ensures Inorder(y) == Inorder(z.left) + Inorder(z.right)
  {
    Regroup(Inorder(y.left), [Entry(y.id, y.item)], Inorder(y.right));
  }

  lemma CutOut(a: seq<Entry>, l: seq<Entry>, e: Entry, r: seq<Entry>, b: seq<Entry>) returns (k: nat)
    ensures var es := a + (l + [e] + r) + b;
            k < |es| && es[k] == e && a + (l + r) + b == es[..k] + es[k + 1..]
  {
    k := |a| + |l|;
  }

  function EntryIds(es: seq<Entry>): set<Id> {
    set i | 0 <= i < |es| :: es[i].id
  }

  lemma EntryIdsConcat(a: seq<Entry>, b: seq<Entry>)
    ensures EntryIds(a + b) == EntryIds(a) + EntryIds(b)
  {
    assert forall i :: 0 <= i < |a| ==> (a + b)[i] == a[i];
    assert forall i :: 0 <= i < |b| ==> (a + b)[|a| + i] == b[i];
  }

  /** A tree's ids are those of its entries. */
  lemma {:induction false} IdsAreEntries(t: Tree)
    ensures TreeIds(t) == EntryIds(Inorder(t))
  {
    if t.Node? {
      IdsAreEntries(t.left);
      IdsAreEntries(t.right);
      EntryIdsConcat(Inorder(t.left) + [Entry(t.id, t.item)], Inorder(t.right));
      EntryIdsConcat(Inorder(t.left), [Entry(t.id, t.item)]);
      OneId(Entry(t.id, t.item));
    }
  }

  // ------------------------------------------------------------ a new leaf

  predicate IsLeafNode(t: Tree) {
    t.Node? && t.left.Leaf? && t.right.Leaf?
  }

  lemma LeafOrder(c: Ctx, t: Tree)
    requires IsLeafNode(t)
    ensures Inorder(Plug(c, Leaf)) == Before(c) + Behind(c)
    ensures Inorder(Plug(c, t)) == Before(c) + [Entry(t.id, t.item)] + Behind(c)
  {
    InorderPlug(c, Leaf);
    InorderPlug(c, t);
    assert Inorder(t) == [Entry(t.id, t.item)];
    assert Before(c) + [] == Before(c);
  }

  /** The new leaf among the old entries, with the maxima above it recomputed. */
  lemma LeafEntry(t0: Tree, c: Ctx, t: Tree)
    requires Plug(c, Leaf) == t0 && MaxOk(t0) && Sorted(Inorder(t0))
    requires IsLeafNode(t) && t.maxHigh == t.item.high && Placed(c, t.item.low)
    ensures var t' := Plug(FixCtx(c, MaxOf(t)), t);
            MaxOk(t') && Sorted(Inorder(t')) && InsertedAt(Inorder(t0), Inorder(t'), |Before(c)|, Entry(t.id, t.item))
  {
    MaxPlug(c, Leaf);
    CtxMaxSibs(c, -MAXTIME);
    assert MaxOk(t);
    FixedUp(c, t);
    LeafOrder(c, t);
    InsertedSorted(Before(c), Behind(c), Entry(t.id, t.item));
  }

  /** The same after its colour was set and the colours above repaired. */
  lemma LeafKept(t0: Tree, t': Tree, c: Ctx, t: Tree)
    requires Plug(c, Leaf) == t0 && MaxOk(t0) && Sorted(Inorder(t0))
    requires IsLeafNode(t) && t.maxHigh == t.item.high && Placed(c, t.item.low)
    requires Kept(Plug(FixCtx(c, MaxOf(t)), t.(red := true)), t')
    ensures MaxOk(t') && Sorted(Inorder(t')) && TreeIds(t') == TreeIds(t0) + {t.id}
    ensures InsertedAt(Inorder(t0), Inorder(t'), |Before(c)|, Entry(t.id, t.item))
  {
    LeafEntry(t0, c, t);
    PaintKeeps(FixCtx(c, MaxOf(t)), t, true);
    InsertedIds(t0, t', |Before(c)|, Entry(t.id, t.item));
  }

  /** A red leaf clashes with nothing but a red parent. */
  lemma LeafRises(t0: Tree, c: Ctx, c': Ctx, t: Tree)
    requires Plug(c, Leaf) == t0 && RedBlack(t0) && Alike(c', c) && IsLeafNode(t) && t.red
    ensures Rising(c', t, 0)
  {
    var m: nat :| Balanced(t0, m);
    var n := BalancedUnplug(c, Leaf, m);
    NoRedRedPlug(c, Leaf);
    AlikeColours(c', c, 0, false);
  }

  /** So does a new one below the frames with their maxima recomputed. */
  lemma NewLeafRises(t0: Tree, c: Ctx, t: Tree)
    requires Plug(c, Leaf) == t0 && RedBlack(t0) && IsLeafNode(t)
    ensures Rising(FixCtx(c, MaxOf(t)), t.(red := true), 0)
  {
    FixAlike(c, MaxOf(t));
    LeafRises(t0, c, FixCtx(c, MaxOf(t)), t.(red := true));
  }

  lemma EntryIdsInsert(a: seq<Entry>, e: Entry, b: seq<Entry>)
    ensures EntryIds(a + [e] + b) == EntryIds(a + b) + {e.id}
  {
    EntryIdsConcat(a + [e], b);
    EntryIdsConcat(a, [e]);
    EntryIdsConcat(a, b);
    OneId(e);
  }

  lemma InsertedIds(t: Tree, t': Tree, k: nat, e: Entry)
    requires k <= |Inorder(t)| && Inorder(t') == Inorder(t)[..k] + [e] + Inorder(t)[k..]
    ensures TreeIds(t') == TreeIds(t) + {e.id}
  {
    IdsAreEntries(t);
    IdsAreEntries(t');
    assert Inorder(t)[..k] + Inorder(t)[k..] == Inorder(t);
    EntryIdsInsert(Inorder(t)[..k], e, Inorder(t)[k..]);
  }

  lemma OneId(e: Entry)
    ensures EntryIds([e]) == {e.id}
  {
    assert [e][0].id in EntryIds([e]);
  }

  // ------------------------------------------------------------ removal

  /** es' is es without its entry k. */
  ghost predicate RemovedAt(es: seq<Entry>, es': seq<Entry>, k: nat, e: Entry) {
    k < |es| && es[k] == e && es' == es[..k] + es[k + 1..]
  }

  lemma RemovedIds(t: Tree, t': Tree, k: nat, e: Entry)
    requires RemovedAt(Inorder(t), Inorder(t'), k, e)
    ensures TreeIds(t) == TreeIds(t') + {e.id}
  {
    var es, es' := Inorder(t), Inorder(t');
    assert es'[..k] == es[..k] && es'[k..] == es[k + 1..];
    assert es == es'[..k] + [e] + es'[k..];
    InsertedIds(t', t, k, e);
  }

  lemma GraftId(c: Ctx, d: Ctx)
    ensures CtxId(Graft(c, d)) == if c.Top? then CtxId(d) else CtxId(c)
  {
  }

  /** The maxima beside the hole are right when the whole tree's are. */
  lemma HoleMax(c: Ctx, t: Tree)
    requires MaxOk(Plug(c, t))
    ensures SibsMaxOk(c) && MaxOk(t)
  {
    MaxPlug(c, t);
    CtxMaxSibs(c, MaxOf(t));
  }

  /** The frame of the node that takes z's place, with z's right subtree below it. */
  function Heir(cz: Ctx, z: Tree, y: Tree): Ctx
    requires z.Node? && y.Node?
  {
    Frame(Right, y.id, y.item, -MAXTIME, y.red, z.left, cz)
  }

  /** After the heir took z's colour the frames have the colours they had before. */
  lemma HeirAlike(cr: Ctx, cz: Ctx, z: Tree, y: Tree, m: Time)
    requires z.Node? && y.Node?
    ensures var f := FixCtx(Heir(cz, z, y), PassedOn(cr, m));
            && f.Frame? && f.id == y.id && FixCtx(Graft(cr, Heir(cz, z, y)), m) == Graft(FixCtx(cr, m), f)
            && Alike(Graft(FixCtx(cr, m), f.(red := z.red)), Graft(cr, DownCtx(cz, z, Right)))
  {
    FixGraft(cr, Heir(cz, z, y), m);
    var f := FixCtx(Heir(cz, z, y), PassedOn(cr, m));
    FixAlike(cr, m);
    FixAlike(Heir(cz, z, y), PassedOn(cr, m));
    GraftAlike(FixCtx(cr, m), cr, f.(red := z.red), DownCtx(cz, z, Right));
  }

  /** The colour of a frame may change. */
  lemma FramePainted(n: Pool, c: Ctx, d: Ctx, t: Tree, red: bool)
    requires d.Frame? && ZipShape(n, Graft(c, d), t)
    ensures d.id in n && ZipShape(n[d.id := n[d.id].(red := red)], Graft(c, d.(red := red)), t)
    ensures Kept(Plug(Graft(c, d), t), Plug(Graft(c, d.(red := red)), t))
  {
    var u := Plug(c, t);
    GraftPlug(c, d, t);
    GraftPlug(c, d.(red := red), t);
    ZipMove(n, Graft(c, d), t, d.up, UpTree(d, u));
    RootUpdated(n, d.up, UpTree(d, u), d.maxHigh, red);
    PaintKeeps(d.up, UpTree(d, u), red);
    var n' := n[d.id := n[d.id].(red := red)];
    ZipMove(n', d.up, UpTree(d.(red := red), u), Graft(c, d.(red := red)), t);
  }

  /** ty is the leftmost node of t. */
  predicate LeftmostOf(t: Tree, cr: Ctx, ty: Tree) {
    ty.Node? && Plug(cr, ty) == t && ty.left.Leaf? && Before(cr) == []
  }

  lemma LeftmostFirst(t: Tree, cr: Ctx, ty: Tree)
    requires LeftmostOf(t, cr, ty)
    ensures Inorder(t) != [] && Inorder(t)[0] == Entry(ty.id, ty.item)
  {
    InorderPlug(cr, ty);
  }

  /** A node spliced out of z's right subtree occurs nowhere else. */
  lemma HeirOutside(cz: Ctx, tz: Tree, cr: Ctx, ty: Tree)
    requires tz.Node? && ty.Node? && ZipDistinct(Graft(cr, DownCtx(cz, tz, Right)), ty)
    ensures var t1 := Node(tz.left, tz.id, tz.item, tz.maxHigh, tz.red, Plug(cr, ty.right));
            ty.id !in TreeIds(t1) && ty.id !in CtxIds(cz) && ty.id != NIL && ty.id != ROOT
  {
    var d := DownCtx(cz, tz, Right);
    var t1 := Node(tz.left, tz.id, tz.item, tz.maxHigh, tz.red, Plug(cr, ty.right));
    DistinctPlug(Graft(cr, d), ty.right);
    GraftPlug(cr, d, ty.right);
    DistinctPlug(cz, t1);
    assert ty.id in TreeIds(ty) && ty.id !in CtxIds(Graft(cr, d)) && ty.id !in TreeIds(ty.right);
  }

  /** The removed node is gone: every id occurs once. */
  lemma RemovedOnce(t: Tree, t': Tree, k: nat, e: Entry)
    requires RemovedAt(Inorder(t), Inorder(t'), k, e) && Distinct(t) && Sorted(Inorder(t))
    ensures Sorted(Inorder(t')) && TreeIds(t') == TreeIds(t) - {e.id} && e.id in TreeIds(t)
  {
    RemovedSorted(Inorder(t), k);
    RemovedIds(t, t', k, e);
    IdsAreEntries(t');
    OthersDiffer(t, Inorder(t'), k, e);
  }

  lemma OthersDiffer(t: Tree, es: seq<Entry>, k: nat, e: Entry)
    requires RemovedAt(Inorder(t), es, k, e) && Distinct(t)
    ensures forall i :: 0 <= i < |es| ==> es[i].id != e.id
  {
    forall i | 0 <= i < |es| ensures es[i].id != e.id {
      OnceEach(t, k, if i < k then i else i + 1);
    }
  }

  /** Entries at different places belong to different nodes. */
  lemma {:induction false} OnceEach(t: Tree, i: nat, j: nat)
    requires Distinct(t) && i < |Inorder(t)| && j < |Inorder(t)| && i != j
    ensures Inorder(t)[i].id != Inorder(t)[j].id
  {
    var l := |Inorder(t.left)|;
    EntryAt(t, i);
    EntryAt(t, j);
    if i < l && j < l {
      OnceEach(t.left, i, j);
    } else if i > l && j > l {
      OnceEach(t.right, i - l - 1, j - l - 1);
    }
  }

  /** Where the entries of a node and its subtrees stand. */
  lemma EntryAt(t: Tree, i: nat)
    requires i < |Inorder(t)|
    ensures t.Node?
    ensures var l := |Inorder(t.left)|; var e := Inorder(t)[i];
            if i < l then e == Inorder(t.left)[i] && e.id in TreeIds(t.left)
            else if i == l then e == Entry(t.id, t.item)
            else i - l - 1 < |Inorder(t.right)| && e == Inorder(t.right)[i - l - 1] && e.id in TreeIds(t.right)
  {
    IdsAreEntries(t.left);
    IdsAreEntries(t.right);
  }

  lemma HeirContents(cz: Ctx, tz: Tree, cr: Ctx, ty: Tree) returns (k: nat)
    requires tz.Node? && LeftmostOf(tz.right, cr, ty)
    ensures RemovedAt(Inorder(Plug(cz, tz)), Inorder(Plug(Graft(cr, Heir(cz, tz, ty)), ty.right)), k,
            Entry(tz.id, tz.item))
  {
    var y := Node(tz.left, ty.id, ty.item, -MAXTIME, ty.red, Plug(cr, ty.right));
    k := ReplaceContents(cz, tz, y, cr, ty, ty.right);
    GraftPlug(cr, Heir(cz, tz, ty), ty.right);
  }

  lemma HeirMax(cz: Ctx, tz: Tree, cr: Ctx, ty: Tree)
    requires tz.Node? && LeftmostOf(tz.right, cr, ty) && MaxOk(Plug(cz, tz))
    ensures SibsMaxOk(Graft(cr, Heir(cz, tz, ty))) && MaxOk(ty.right)
  {
    HoleMax(cz, tz);
    HoleMax(cr, ty);
    GraftSibs(cr, Heir(cz, tz, ty));
  }

  /** The recomputed and repainted frames are still the same nodes. */
  lemma HeirParent(cr: Ctx, cz: Ctx, z: Tree, y: Tree, m: Time)
    requires z.Node? && y.Node?
    ensures var f := FixCtx(Heir(cz, z, y), PassedOn(cr, m));
            f.Frame? && CtxId(Graft(FixCtx(cr, m), f.(red := z.red))) == CtxId(Graft(cr, Heir(cz, z, y)))
  {
    var f := FixCtx(Heir(cz, z, y), PassedOn(cr, m));
    GraftId(FixCtx(cr, m), f.(red := z.red));
    GraftId(cr, Heir(cz, z, y));
  }

  /** The frames above the hole after the heir's maxima and colour are set. */
  function HeirFrames(cr: Ctx, cz: Ctx, z: Tree, y: Tree, m: Time): Ctx
    requires z.Node? && y.Node?
  {
    var f := FixCtx(Heir(cz, z, y), PassedOn(cr, m));
    Graft(FixCtx(cr, m), f.(red := z.red))
  }

  lemma HeirPainted(n: Pool, cr: Ctx, cz: Ctx, tz: Tree, ty: Tree)
    requires tz.Node? && ty.Node? && Plug(cr, ty) == tz.right && RedBlack(Plug(cz, tz)) && ty.left.Leaf?
    requires var u := ty.right; ZipShape(n, FixCtx(Graft(cr, Heir(cz, tz, ty)), MaxOf(u)), u)
    ensures var u := ty.right; var c := Graft(cr, Heir(cz, tz, ty)); var c' := HeirFrames(cr, cz, tz, ty, MaxOf(u));
            && ty.id in n && ZipShape(n[ty.id := n[ty.id].(red := tz.red)], c', u)
            && Kept(Plug(FixCtx(c, MaxOf(u)), u), Plug(c', u)) && CtxId(c') == CtxId(c)
            && (ty.red ==> RedBlack(Plug(c', u))) && (!ty.red ==> exists k: nat :: Short(c', u, k))
  {
    var m := MaxOf(ty.right);
    HeirAlike(cr, cz, tz, ty, m);
    FramePainted(n, FixCtx(cr, m), FixCtx(Heir(cz, tz, ty), PassedOn(cr, m)), ty.right, tz.red);
    GraftPlug(cr, DownCtx(cz, tz, Right), ty);
    SpliceColours(Graft(cr, DownCtx(cz, tz, Right)), HeirFrames(cr, cz, tz, ty, m), ty, ty.right);
    HeirParent(cr, cz, tz, ty, m);
  }

  /** The right subtree and what lies behind the node's place hold exactly the entries after its own. */
  lemma NextEntries(c: Ctx, t: Tree, k: nat)
    requires t.Node? && Distinct(Plug(c, t)) && k < |Inorder(Plug(c, t))| && Inorder(Plug(c, t))[k].id == t.id
    ensures Inorder(t.right) + Behind(c) == Inorder(Plug(c, t))[k + 1..]
  {
    var a, b := Before(c) + Inorder(t.left), Inorder(t.right) + Behind(c);
    InorderPlug(c, t);
    Around(Before(c), Inorder(t.left), Entry(t.id, t.item), Inorder(t.right), Behind(c));
    if k != |a| { OnceEach(Plug(c, t), k, |a|); }
  }

  lemma Around(p: seq<Entry>, l: seq<Entry>, e: Entry, r: seq<Entry>, q: seq<Entry>)
    ensures var s, k := p + (l + [e] + r) + q, |p + l|; k < |s| && s[k] == e && s[k + 1..] == r + q
  {
  }
}
