/** What a range query finds: the pruned search on trees, its reference, and when they agree. */
module IntervalQuery {
  import opened IntervalShape
  import opened IntervalHeap
  import opened IntervalEdit

  predicate Overlap(a1: Time, a2: Time, b1: Time, b2: Time) {
    if a1 <= b1 then b1 <= a2 else a1 <= b2
  }

  predicate Meets(item: Interval, low: Time, high: Time) {
    Overlap(low, high, item.low, item.high)
  }

  predicate Within(p: Time, low: Time, high: Time) { low <= p <= high }

  /** For intervals and ranges that are not empty, overlap means having a point in common. */
  lemma OverlapMeansCommonPoint(a1: Time, a2: Time, b1: Time, b2: Time)
    requires a1 <= a2 && b1 <= b2
    ensures Overlap(a1, a2, b1, b2) <==> exists p: Time :: Within(p, a1, a2) && Within(p, b1, b2)
  {
    if Overlap(a1, a2, b1, b2) {
      var p: Time := if a1 <= b1 then b1 else a1;
      assert Within(p, a1, a2) && Within(p, b1, b2);
    }
  }

  function Own(item: Interval, low: Time, high: Time): seq<Interval> {
    if Meets(item, low, high) then [item] else []
  }

  /** The reference: the items of all entries that meet the range. */
  function Matching(es: seq<Entry>, low: Time, high: Time): seq<Interval> {
    if es == [] then [] else Own(es[0].item, low, high) + Matching(es[1..], low, high)
  }

  /** The same, in the order in which a search visits the nodes. */
  function Hits(t: Tree, low: Time, high: Time): seq<Interval> {
    if t.Leaf? then [] else Own(t.item, low, high) + Hits(t.left, low, high) + Hits(t.right, low, high)
  }

  /** What the query finds: a left subtree is skipped when it ends too early, the right subtree
      of a node with a searched left one is skipped when nothing was found there. */
  function Found(t: Tree, low: Time, high: Time): seq<Interval> {
    if t.Leaf? then []
    else if MaxOf(t.left) >= low then
      var l := Found(t.left, low, high);
      Own(t.item, low, high) + l + (if l != [] then Found(t.right, low, high) else [])
    else Own(t.item, low, high) + Found(t.right, low, high)
  }

  // ------------------------------------------------------------ the reference

  lemma {:induction false} MatchingConcat(a: seq<Entry>, b: seq<Entry>, low: Time, high: Time)
    ensures Matching(a + b, low, high) == Matching(a, low, high) + Matching(b, low, high)
  {
    if a == [] {
      assert a + b == b;
    } else {
      assert (a + b)[1..] == a[1..] + b;
      MatchingConcat(a[1..], b, low, high);
    }
  }

  /** A full search yields each matching entry as often as it is stored. */
  lemma {:induction false} HitsAreMatching(t: Tree, low: Time, high: Time)
    ensures multiset(Hits(t, low, high)) == multiset(Matching(Inorder(t), low, high))
  {
    if t.Node? {
      HitsAreMatching(t.left, low, high);
      HitsAreMatching(t.right, low, high);
      MatchingNode(t, low, high);
    }
  }

  lemma MatchingNode(t: Tree, low: Time, high: Time)
    requires t.Node?
    ensures Matching(Inorder(t), low, high)
            == Matching(Inorder(t.left), low, high) + Own(t.item, low, high) + Matching(Inorder(t.right), low, high)
  {
    var e := Entry(t.id, t.item);
    MatchingConcat(Inorder(t.left) + [e], Inorder(t.right), low, high);
    MatchingConcat(Inorder(t.left), [e], low, high);
    assert Matching([e], low, high) == Own(t.item, low, high) + Matching([e][1..], low, high);
  }

  /** No entry meets the range. */
  ghost predicate Misses(t: Tree, low: Time, high: Time) {
    forall i :: 0 <= i < |Inorder(t)| ==> !Meets(Inorder(t)[i].item, low, high)
  }

  lemma {:induction false} NoHits(t: Tree, low: Time, high: Time)
    ensures Hits(t, low, high) == [] <==> Misses(t, low, high)
  {
    if t.Node? {
      NoHits(t.left, low, high);
      NoHits(t.right, low, high);
      MissesNode(t, low, high);
    }
  }

  lemma MissesNode(t: Tree, low: Time, high: Time)
    requires t.Node?
    ensures Misses(t, low, high)
            <==> !Meets(t.item, low, high) && Misses(t.left, low, high) && Misses(t.right, low, high)
  {
    NodeEntries(t);
  }

  // ------------------------------------------------------------ pruning

  /** Stored intervals do not end before they begin. */
  ghost predicate WellFormed(es: seq<Entry>) {
    forall i :: 0 <= i < |es| ==> es[i].item.low <= es[i].item.high
  }

  /** max_high is the high end of some entry, or nil's. */
  lemma {:induction false} MaxIsReached(t: Tree)
    requires MaxOk(t)
    ensures MaxOf(t) == -MAXTIME || exists i :: 0 <= i < |Inorder(t)| && Inorder(t)[i].item.high == MaxOf(t)
    ensures forall i :: 0 <= i < |Inorder(t)| ==> Inorder(t)[i].item.high <= MaxOf(t)
  {
    if t.Node? {
      MaxIsReached(t.left);
      MaxIsReached(t.right);
      NodeEntries(t);
    }
  }

  /** A subtree that ends before the range begins has nothing to offer. */
  lemma EndsTooEarly(t: Tree, low: Time, high: Time)
    requires MaxOk(t) && WellFormed(Inorder(t)) && MaxOf(t) < low
    ensures Misses(t, low, high)
  {
    MaxIsReached(t);
  }

  /** If the left subtree reaches the range but has nothing in it, the keys on the right are beyond it. */
  lemma BeginsTooLate(t: Tree, low: Time, high: Time)
    requires t.Node? && MaxOk(t) && Sorted(Inorder(t)) && t.left.Node?
    requires MaxOf(t.left) >= low && Misses(t.left, low, high)
    ensures Misses(t.right, low, high)
  {
    var l, r := Inorder(t.left), Inorder(t.right);
    MaxIsReached(t.left);
    SortedNode(t);
    assert |l| > 0;
    var i :| 0 <= i < |l| && l[i].item.high >= low;
  }

  /** Some node without a left child has a match to its right. */
  predicate Skips(t: Tree, low: Time, high: Time) {
    t.Node? && ((t.left.Leaf? && Hits(t.right, low, high) != []) || Skips(t.left, low, high)
        || Skips(t.right, low, high))
  }

  lemma {:induction false} SkipsHit(t: Tree, low: Time, high: Time)
    requires Skips(t, low, high)
    ensures Hits(t, low, high) != []
  {
    if Skips(t.left, low, high) {
      SkipsHit(t.left, low, high);
    } else if Skips(t.right, low, high) {
      SkipsHit(t.right, low, high);
    }
  }

  /** The query finds every match, except that a range from the smallest time on loses the matches
      to the right of a node without a left child. */
  lemma {:induction false} FoundComplete(t: Tree, low: Time, high: Time)
    requires MaxOk(t) && Sorted(Inorder(t)) && WellFormed(Inorder(t))
    ensures |Found(t, low, high)| <= |Hits(t, low, high)|
    ensures low == -MAXTIME && Skips(t, low, high) ==> |Found(t, low, high)| < |Hits(t, low, high)|
    ensures low > -MAXTIME || !Skips(t, low, high) ==> Found(t, low, high) == Hits(t, low, high)
  {
    if t.Node? {
      WellFormedNode(t);
      SortedNode(t);
      FoundComplete(t.left, low, high);
      FoundComplete(t.right, low, high);
      NoHits(t.left, low, high);
      NoHits(t.right, low, high);
      FoundNode(t, low, high);
      if Skips(t.right, low, high) { SkipsHit(t.right, low, high); }
    }
  }

  lemma WellFormedNode(t: Tree)
    requires t.Node? && WellFormed(Inorder(t))
    ensures WellFormed(Inorder(t.left)) && WellFormed(Inorder(t.right))
  {
    WellFormedParts(Inorder(t.left), Entry(t.id, t.item), Inorder(t.right));
  }

  lemma WellFormedParts(l: seq<Entry>, e: Entry, r: seq<Entry>)
    requires WellFormed(l + [e] + r)
    ensures WellFormed(l) && WellFormed(r)
  {
    var s := l + [e] + r;
    assert forall i :: 0 <= i < |l| ==> s[i] == l[i];
    assert forall i :: 0 <= i < |r| ==> s[|l| + 1 + i] == r[i];
  }

  /** What pruning one node relies on. */
  lemma FoundNode(t: Tree, low: Time, high: Time)
    requires t.Node? && MaxOk(t) && Sorted(Inorder(t)) && WellFormed(Inorder(t))
    ensures MaxOf(t.left) < low ==> Misses(t.left, low, high)
    ensures t.left.Node? && MaxOf(t.left) >= low && Misses(t.left, low, high) ==> Misses(t.right, low, high)
    ensures t.left.Leaf? ==> (MaxOf(t.left) >= low <==> low == -MAXTIME)
  {
    WellFormedNode(t);
    if MaxOf(t.left) < low {
      EndsTooEarly(t.left, low, high);
    } else if t.left.Node? && Misses(t.left, low, high) {
      BeginsTooLate(t, low, high);
    }
  }

  /** The query is complete exactly if the range begins after the smallest time or no node without
      a left child has a match to its right. */
  lemma QueryComplete(t: Tree, low: Time, high: Time)
    requires MaxOk(t) && Sorted(Inorder(t)) && WellFormed(Inorder(t))
    ensures multiset(Found(t, low, high)) == multiset(Matching(Inorder(t), low, high))
            <==> low > -MAXTIME || !Skips(t, low, high)
  {
    FoundComplete(t, low, high);
    HitsAreMatching(t, low, high);
    assert |multiset(Found(t, low, high))| == |Found(t, low, high)|;
    assert |multiset(Hits(t, low, high))| == |Hits(t, low, high)|;
  }

  /** A tree of two intervals, both within the range: the query returns one of them. */
  lemma QueryIncompleteExample() returns (t: Tree)
    ensures RedBlack(t) && MaxOk(t) && Sorted(Inorder(t)) && WellFormed(Inorder(t))
    ensures Matching(Inorder(t), -MAXTIME, 10) == [Interval(0, 1, 0), Interval(5, 6, 1)]
    ensures Found(t, -MAXTIME, 10) == [Interval(0, 1, 0)]
  {
    var a, b := Interval(0, 1, 0), Interval(5, 6, 1);
    var r := Node(Leaf, 3, b, 6, true, Leaf);
    t := Node(Leaf, 2, a, 6, false, r);
    assert Balanced(r, 0);
    assert Balanced(t, 1);
    assert Inorder(r) == [Entry(3, b)];
    assert Inorder(t) == [Entry(2, a), Entry(3, b)];
    assert [Entry(2, a), Entry(3, b)][1..] == [Entry(3, b)];
    assert Matching([Entry(3, b)], -MAXTIME, 10) == [b];
  }

  // ------------------------------------------------------------ the search as a stack of open nodes

  /** A node whose left subtree is being searched. */
  datatype Open = Open(node: Tree, tryRight: bool)

  /** Something was found below the innermost open node. */
  function Mark(st: seq<Open>): (r: seq<Open>)
    ensures |r| == |st|
  {
    if st == [] then [] else st[|st| - 1 := st[|st| - 1].(tryRight := true)]
  }

  predicate AllNodes(st: seq<Open>) {
    forall i :: 0 <= i < |st| ==> st[i].node.Node?
  }

  function MarkIf(found: bool, st: seq<Open>): (r: seq<Open>)
    ensures |r| == |st|
  {
    if found then Mark(st) else st
  }

  /** What is still found after the subtree t, then the open nodes from the innermost outward. */
  function Rest(t: Tree, st: seq<Open>, low: Time, high: Time): seq<Interval>
    requires AllNodes(st)
    decreases |st|, 1
  {
    Found(t, low, high) + Unwind(MarkIf(Found(t, low, high) != [], st), low, high)
  }

  function Unwind(st: seq<Open>, low: Time, high: Time): seq<Interval>
    requires AllNodes(st)
    decreases |st|, 0
  {
    if st == [] then []
    else
      var o, st' := st[|st| - 1], st[..|st| - 1];
      if o.tryRight then Rest(o.node.right, Mark(st'), low, high) else Unwind(st', low, high)
  }

  lemma MarkTwice(st: seq<Open>)
    ensures Mark(Mark(st)) == Mark(st)
  {
  }

  /** One visited node. */
  lemma VisitStep(t: Tree, st: seq<Open>, low: Time, high: Time)
    requires t.Node? && AllNodes(st)
    ensures var st1 := MarkIf(Meets(t.item, low, high), st);
            Rest(t, st, low, high) == Own(t.item, low, high)
              + if MaxOf(t.left) >= low then Rest(t.left, st1 + [Open(t, false)], low, high)
                  else Rest(t.right, st1, low, high)
  {
    var st1 := MarkIf(Meets(t.item, low, high), st);
    var own, r := Own(t.item, low, high), Found(t.right, low, high);
    MarkTwice(st);
    if MaxOf(t.left) >= low {
      var l := Found(t.left, low, high);
      var st2 := st1 + [Open(t, false)];
      assert MarkIf(l != [], st2) == st1 + [Open(t, l != [])];
      UnwindLast(st1, Open(t, l != []), low, high);
      if l == [] {
        Joined(own, [], [], Unwind(st1, low, high));
      } else {
        assert own + l + r != [];
        Joined(own, l, r, Unwind(Mark(st), low, high));
      }
    } else {
      assert own + r == [] <==> own == [] && r == [];
      Joined(own, [], r, Unwind(MarkIf(r != [], st1), low, high));
    }
  }

  lemma Joined(a: seq<Interval>, b: seq<Interval>, c: seq<Interval>, d: seq<Interval>)
    ensures a + b + c + d == a + (b + (c + d))
    ensures b == [] ==> a + c + d == a + (c + d)
    ensures b == [] && c == [] ==> a + b + c + d == a + (b + d) && a + b + c == a
  {
  }

  lemma UnwindLast(st: seq<Open>, o: Open, low: Time, high: Time)
    requires AllNodes(st) && o.node.Node?
    ensures Unwind(st + [o], low, high)
            == if o.tryRight then Rest(o.node.right, Mark(st), low, high) else Unwind(st, low, high)
  {
    assert (st + [o])[..|st|] == st;
  }

  function Size(t: Tree): nat { if t.Leaf? then 0 else 1 + Size(t.left) + Size(t.right) }

  /** Nodes that may still be visited. */
  function Work(t: Tree, st: seq<Open>): nat
    requires AllNodes(st)
    decreases |st|
  {
    if st == [] then Size(t) else Size(st[|st| - 1].node.right) + Work(t, st[..|st| - 1])
  }

  lemma {:induction false} WorkMark(t: Tree, t': Tree, st: seq<Open>, found: bool)
    requires AllNodes(st)
    ensures Work(t, MarkIf(found, st)) + Size(t') == Work(t', st) + Size(t)
    decreases |st|
  {
    if st != [] {
      var st1 := MarkIf(found, st);
      assert st1[..|st| - 1] == st[..|st| - 1];
      WorkMark(t, t', st[..|st| - 1], false);
    }
  }

  lemma WorkPush(t: Tree, st: seq<Open>, o: Open)
    requires AllNodes(st) && o.node.Node?
    ensures Work(t, st + [o]) == Size(o.node.right) + Work(t, st)
  {
    assert (st + [o])[..|st|] == st;
  }

  /** Going back from an exhausted subtree to the innermost open node. */
  lemma PopStep(st: seq<Open>, low: Time, high: Time)
    requires AllNodes(st) && st != []
    ensures var o, st' := st[|st| - 1], st[..|st| - 1];
            && Rest(Leaf, st, low, high) == (if o.tryRight then Rest(o.node.right, Mark(st'), low, high)
                else Rest(Leaf, st', low, high))
            && Work(o.node.right, Mark(st')) <= Work(Leaf, st) && Work(Leaf, st') <= Work(Leaf, st)
  {
    var o, st' := st[|st| - 1], st[..|st| - 1];
    WorkMark(o.node.right, Leaf, st', true);
    Nothing(Unwind(st, low, high));
    Nothing(Unwind(st', low, high));
  }

  lemma Nothing(a: seq<Interval>)
    ensures [] + a == a
  {
  }

  /** A visit leaves less to do. */
  lemma VisitWork(t: Tree, st: seq<Open>, found: bool)
    requires t.Node? && AllNodes(st)
    ensures Work(t.left, MarkIf(found, st) + [Open(t, false)]) < Work(t, st)
    ensures Work(t.right, MarkIf(found, st)) < Work(t, st)
  {
    WorkPush(t.left, MarkIf(found, st), Open(t, false));
    WorkMark(t.left, t, st, found);
    WorkMark(t.right, t, st, found);
  }

  // ------------------------------------------------------------ the stack in memory

  datatype Visit = Visit(startNode: Id, parentIndex: nat, tryRight: bool)

  /** The pool links up t somewhere. */
  ghost predicate Readable(n: Pool, t: Tree) {
    Sentinels(n) && Distinct(t) && exists p: Id :: Shape(n, t, p)
  }

  lemma ReadNode(n: Pool, t: Tree)
    requires Readable(n, t) && t.Node?
    ensures t.id in n && n[t.id].item == t.item && n[t.id].left == RootId(t.left) && n[t.id].right == RootId(t.right)
    ensures Readable(n, t.left) && Readable(n, t.right)
    ensures RootId(t.left) in n && n[RootId(t.left)].maxHigh == MaxOf(t.left)
    ensures RootId(t.left) == NIL <==> t.left.Leaf?
    ensures RootId(t.right) == NIL <==> t.right.Leaf?
  {
    var p: Id :| Shape(n, t, p);
    assert Shape(n, t.left, t.id) && Shape(n, t.right, t.id);
    OpenNode(t.left);
    OpenNode(t.right);
    if t.left.Node? { ShapeRoot(n, t.left, t.id); }
  }

  lemma LeafReadable(n: Pool, t: Tree)
    requires Readable(n, t)
    ensures Readable(n, Leaf)
  {
    assert Shape(n, Leaf, NIL);
  }

  lemma ShapeRoot(n: Pool, t: Tree, p: Id)
    requires Shape(n, t, p) && t.Node?
    ensures t.id in n && n[t.id].maxHigh == t.maxHigh
  {
  }

  lemma OpenNode(t: Tree)
    requires Distinct(t)
    ensures t.Node? ==> t.id != NIL
  {
  }

  /** The stack holds the open nodes above its bottom entry, each pointing to the one below. */
  ghost predicate Mirrors(n: Pool, stack: seq<Visit>, top: nat, st: seq<Open>) {
    && AllNodes(st) && top == |st| + 1 <= |stack|
    && (forall i :: 0 <= i < |st| ==> Readable(n, st[i].node))
    && (forall i :: 0 <= i < |st| ==> stack[i + 1] == Visit(st[i].node.id, i, st[i].tryRight))
  }

  lemma MarkMirrors(n: Pool, stack: seq<Visit>, top: nat, st: seq<Open>)
    requires Mirrors(n, stack, top, st)
    ensures Mirrors(n, stack[top - 1 := stack[top - 1].(tryRight := true)], top, Mark(st))
  {
  }

  lemma PushMirrors(n: Pool, stack: seq<Visit>, top: nat, st: seq<Open>, t: Tree)
    requires Mirrors(n, stack, top, st) && top < |stack| && t.Node? && Readable(n, t)
    ensures Mirrors(n, stack[top := Visit(t.id, top - 1, false)], top + 1, st + [Open(t, false)])
  {
  }

  lemma PopMirrors(n: Pool, stack: seq<Visit>, top: nat, st: seq<Open>)
    requires Mirrors(n, stack, top, st) && st != []
    ensures Mirrors(n, stack, top - 1, st[..|st| - 1])
    ensures stack[top - 1] == Visit(st[|st| - 1].node.id, top - 2, st[|st| - 1].tryRight)
    ensures Readable(n, st[|st| - 1].node)
  {
  }

  lemma RestAlone(t: Tree, low: Time, high: Time)
    ensures Rest(t, [], low, high) == Found(t, low, high)
  {
    assert Found(t, low, high) + [] == Found(t, low, high);
  }

  /** s consists of l, e and r, place by place. */
  ghost predicate ArePartsOf(s: seq<Entry>, l: seq<Entry>, e: Entry, r: seq<Entry>) {
    && |s| == |l| + 1 + |r| && s[|l|] == e
    && (forall i :: 0 <= i < |l| ==> s[i] == l[i])
    && (forall i :: 0 <= i < |r| ==> s[|l| + 1 + i] == r[i])
    && (forall i :: |l| < i < |s| ==> s[i] == r[i - |l| - 1])
  }

  lemma Parts(l: seq<Entry>, e: Entry, r: seq<Entry>)
    ensures ArePartsOf(l + [e] + r, l, e, r)
  {
  }

  /** A node's entries are its subtrees' and its own. */
  lemma NodeEntries(t: Tree)
    requires t.Node?
    ensures ArePartsOf(Inorder(t), Inorder(t.left), Entry(t.id, t.item), Inorder(t.right))
  {
    Parts(Inorder(t.left), Entry(t.id, t.item), Inorder(t.right));
  }

  lemma Shift(a: seq<Interval>, b: seq<Interval>, c: seq<Interval>)
    ensures (a + b) + c == a + (b + c)
  {
  }

  /** The result holds every match exactly once unless the range begins at the smallest time and
      some node without a left child has a match to its right. */
  ghost predicate Exhaustive(result: seq<Interval>, t: Tree, low: Time, high: Time) {
    multiset(result) == multiset(Matching(Inorder(t), low, high)) <==> low > -MAXTIME || !Skips(t, low, high)
  }

  lemma SameEntry(t: Tree, i: nat, j: nat)
    requires Distinct(t) && i < |Inorder(t)| && j < |Inorder(t)| && Inorder(t)[i].id == Inorder(t)[j].id
    ensures i == j
  {
    if i != j { OnceEach(t, i, j); }
  }
}
