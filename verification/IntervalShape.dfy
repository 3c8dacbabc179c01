/** Interval trees as values, and zippers into them: the mathematics behind the linked nodes. */
module IntervalShape {

  type Id = nat

  /** Simulation times are 64-bit ticks between plus and minus the greatest time. */
  const MAXTIME: int := 0x7FFF_FFFF_FFFF_FFFF
  type Time = t: int | -0x7FFF_FFFF_FFFF_FFFF <= t <= 0x7FFF_FFFF_FFFF_FFFF

  /** Sentinel nodes. */
  const NIL: Id := 0
  const ROOT: Id := 1

  datatype Interval = Interval(low: Time, high: Time, value: nat)

  datatype Side = Left | Right

  function Other(s: Side): Side { if s.Left? then Right else Left }

  datatype Tree = Leaf | Node(left: Tree, id: Id, item: Interval, maxHigh: Time, red: bool, right: Tree)

  /** A node with subtree a on side s and b on the other. */
  function Mk(s: Side, a: Tree, id: Id, item: Interval, maxHigh: Time, red: bool, b: Tree): (r: Tree)
    ensures r.Node?
  {
    if s.Left? then Node(a, id, item, maxHigh, red, b) else Node(b, id, item, maxHigh, red, a)
  }

  function Sub(t: Tree, s: Side): Tree
    requires t.Node?
  {
    if s.Left? then t.left else t.right
  }

  function RootId(t: Tree): Id { if t.Leaf? then NIL else t.id }

  predicate IsRed(t: Tree) { t.Node? && t.red }

  /** The way from a hole up to the root: at each frame the hole is on side s, sib on the other. */
  datatype Ctx = Top | Frame(s: Side, id: Id, item: Interval, maxHigh: Time, red: bool, sib: Tree, up: Ctx)

  function CtxId(c: Ctx): Id { if c.Top? then ROOT else c.id }

  function Plug(c: Ctx, t: Tree): Tree
    decreases c
  {
    if c.Top? then t else Plug(c.up, Mk(c.s, t, c.id, c.item, c.maxHigh, c.red, c.sib))
  }

  // ------------------------------------------------------------ contents

  datatype Entry = Entry(id: Id, item: Interval)

  function Inorder(t: Tree): seq<Entry> {
    if t.Leaf? then [] else Inorder(t.left) + [Entry(t.id, t.item)] + Inorder(t.right)
  }

  /** The entries before and after the hole. */
  function Before(c: Ctx): seq<Entry> {
    if c.Top? then []
    else if c.s.Left? then Before(c.up)
    else Before(c.up) + Inorder(c.sib) + [Entry(c.id, c.item)]
  }

  function Behind(c: Ctx): seq<Entry> {
    if c.Top? then []
    else if c.s.Left? then [Entry(c.id, c.item)] + Inorder(c.sib) + Behind(c.up)
    else Behind(c.up)
  }

  lemma InorderMk(s: Side, a: Tree, id: Id, item: Interval, m: Time, red: bool, b: Tree)
    ensures Inorder(Mk(s, a, id, item, m, red, b))
            == if s.Left? then Inorder(a) + [Entry(id, item)] + Inorder(b)
                else Inorder(b) + [Entry(id, item)] + Inorder(a)
  {
  }

  lemma {:induction false} InorderPlug(c: Ctx, t: Tree)
    ensures Inorder(Plug(c, t)) == Before(c) + Inorder(t) + Behind(c)
    decreases c
  {
    if c.Frame? {
      InorderPlug(c.up, Mk(c.s, t, c.id, c.item, c.maxHigh, c.red, c.sib));
      InorderMk(c.s, t, c.id, c.item, c.maxHigh, c.red, c.sib);
      var e := [Entry(c.id, c.item)];
      if c.s.Left? {
        LeftOf(Before(c.up), Inorder(t), e, Inorder(c.sib), Behind(c.up));
      } else {
        RightOf(Before(c.up), Inorder(c.sib), e, Inorder(t), Behind(c.up));
      }
    }
  }

  lemma LeftOf(before: seq<Entry>, t: seq<Entry>, e: seq<Entry>, sib: seq<Entry>, behind: seq<Entry>)
    ensures before + (t + e + sib) + behind == before + t + (e + sib + behind)
  {
  }

  lemma RightOf(before: seq<Entry>, sib: seq<Entry>, e: seq<Entry>, t: seq<Entry>, behind: seq<Entry>)
    ensures before + (sib + e + t) + behind == (before + sib + e) + t + behind
  {
  }

  predicate Sorted(es: seq<Entry>) {
    forall i, j :: 0 <= i < j < |es| ==> es[i].item.low <= es[j].item.low
  }

  // ------------------------------------------------------------ maxima

  function Max(a: Time, b: Time): Time { if a >= b then a else b }

  function MaxOf(t: Tree): Time { if t.Leaf? then -MAXTIME else t.maxHigh }

  /** Every node carries the greatest high of its subtree. */
  predicate MaxOk(t: Tree) {
    t.Leaf? || (t.maxHigh == Max(t.item.high, Max(MaxOf(t.left), MaxOf(t.right))) && MaxOk(t.left) && MaxOk(t.right))
  }

  /** The frames carry the right maxima when the hole's subtree has maximum m. */
  predicate CtxMaxOk(c: Ctx, m: Time) {
    c.Top? || (c.maxHigh == Max(c.item.high, Max(m, MaxOf(c.sib))) && MaxOk(c.sib) && CtxMaxOk(c.up, c.maxHigh))
  }

  lemma {:induction false} MaxPlug(c: Ctx, t: Tree)
    ensures MaxOk(Plug(c, t)) <==> MaxOk(t) && CtxMaxOk(c, MaxOf(t))
    decreases c
  {
    if c.Frame? {
      MaxPlug(c.up, Mk(c.s, t, c.id, c.item, c.maxHigh, c.red, c.sib));
    }
  }

  // ------------------------------------------------------------ colours

  /** Every way down meets n black nodes. */
  predicate Balanced(t: Tree, n: nat) {
    if t.Leaf? then n == 0
    else if t.red then Balanced(t.left, n) && Balanced(t.right, n)
    else n > 0 && Balanced(t.left, n - 1) && Balanced(t.right, n - 1)
  }

  predicate NoRedRed(t: Tree) {
    t.Leaf? || (NoRedRed(t.left) && NoRedRed(t.right) && (t.red ==> !IsRed(t.left) && !IsRed(t.right)))
  }

  /** The hole expects a subtree of black height n. */
  predicate CtxBalanced(c: Ctx, n: nat) {
    c.Top? || (Balanced(c.sib, n) && CtxBalanced(c.up, if c.red then n else n + 1))
  }

  /** No red node with a red child among the frames, if the hole's subtree is red or not as given;
      the root's child is never red. */
  predicate CtxNoRedRed(c: Ctx, holeRed: bool) {
    if c.Top? then !holeRed
    else !(c.red && holeRed) && !(c.red && IsRed(c.sib)) && NoRedRed(c.sib) && CtxNoRedRed(c.up, c.red)
  }

  /** A red-black tree with a black root. */
  ghost predicate RedBlack(t: Tree) {
    NoRedRed(t) && !IsRed(t) && exists n: nat :: Balanced(t, n)
  }

  lemma {:induction false} BalancedPlug(c: Ctx, t: Tree, n: nat) returns (m: nat)
    requires CtxBalanced(c, n) && Balanced(t, n)
    ensures Balanced(Plug(c, t), m)
    decreases c
  {
    if c.Top? {
      m := n;
    } else {
      m := BalancedPlug(c.up, Mk(c.s, t, c.id, c.item, c.maxHigh, c.red, c.sib), if c.red then n else n + 1);
    }
  }

  lemma {:induction false} NoRedRedPlug(c: Ctx, t: Tree)
    ensures NoRedRed(Plug(c, t)) && !IsRed(Plug(c, t)) <==> NoRedRed(t) && CtxNoRedRed(c, IsRed(t))
    decreases c
  {
    if c.Frame? {
      NoRedRedPlug(c.up, Mk(c.s, t, c.id, c.item, c.maxHigh, c.red, c.sib));
    }
  }

  lemma RedBlackPlug(c: Ctx, t: Tree, n: nat)
    requires CtxBalanced(c, n) && Balanced(t, n) && NoRedRed(t) && CtxNoRedRed(c, IsRed(t))
    ensures RedBlack(Plug(c, t))
  {
    var m := BalancedPlug(c, t, n);
    NoRedRedPlug(c, t);
  }

  lemma {:induction false} BalancedUnplug(c: Ctx, t: Tree, m: nat) returns (n: nat)
    requires Balanced(Plug(c, t), m)
    ensures CtxBalanced(c, n) && Balanced(t, n)
    decreases c
  {
    if c.Top? {
      n := m;
    } else {
      n := BalancedUnplug(c.up, Mk(c.s, t, c.id, c.item, c.maxHigh, c.red, c.sib), m);
      if !c.red { n := n - 1; }
    }
  }

  /** The colour condition of a hole does not depend on a black hole. */
  lemma CtxBlackHole(c: Ctx)
    requires CtxNoRedRed(c, true)
    ensures CtxNoRedRed(c, false)
  {
  }

  // ------------------------------------------------------------ identity of nodes

  function TreeIds(t: Tree): set<Id> {
    if t.Leaf? then {} else TreeIds(t.left) + {t.id} + TreeIds(t.right)
  }

  function CtxIds(c: Ctx): set<Id> {
    if c.Top? then {} else {c.id} + TreeIds(c.sib) + CtxIds(c.up)
  }

  predicate Distinct(t: Tree) {
    t.Leaf? || (&& t.id != NIL && t.id != ROOT
                && t.id !in TreeIds(t.left) && t.id !in TreeIds(t.right) && TreeIds(t.left) !! TreeIds(t.right)
                && Distinct(t.left) && Distinct(t.right))
  }

  predicate CtxDistinct(c: Ctx) {
    c.Top? || (&& c.id != NIL && c.id != ROOT
               && c.id !in TreeIds(c.sib) && c.id !in CtxIds(c.up) && TreeIds(c.sib) !! CtxIds(c.up)
               && Distinct(c.sib) && CtxDistinct(c.up))
  }

  /** All nodes of the plugged tree are different. */
  predicate ZipDistinct(c: Ctx, t: Tree) {
    Distinct(t) && CtxDistinct(c) && TreeIds(t) !! CtxIds(c)
  }

  lemma {:induction false} DistinctPlug(c: Ctx, t: Tree)
    ensures TreeIds(Plug(c, t)) == TreeIds(t) + CtxIds(c)
    ensures Distinct(Plug(c, t)) <==> ZipDistinct(c, t)
    decreases c
  {
    if c.Frame? {
      DistinctPlug(c.up, Mk(c.s, t, c.id, c.item, c.maxHigh, c.red, c.sib));
    }
  }

  /** The zipper at node id. */
  lemma {:induction false} Locate(c: Ctx, t: Tree, id: Id) returns (c': Ctx, t': Tree)
    requires id in TreeIds(t)
    ensures t'.Node? && t'.id == id && Plug(c', t') == Plug(c, t)
    decreases t
  {
    if t.id == id {
      c', t' := c, t;
    } else if id in TreeIds(t.left) {
      c', t' := Locate(Frame(Left, t.id, t.item, t.maxHigh, t.red, t.right, c), t.left, id);
    } else {
      c', t' := Locate(Frame(Right, t.id, t.item, t.maxHigh, t.red, t.left, c), t.right, id);
    }
  }

  lemma {:induction false} IdsOfInorder(t: Tree, e: Entry)
    requires e in Inorder(t)
    ensures e.id in TreeIds(t)
  {
    if e in Inorder(t.left) {
      IdsOfInorder(t.left, e);
    } else if e in Inorder(t.right) {
      IdsOfInorder(t.right, e);
    }
  }
}
