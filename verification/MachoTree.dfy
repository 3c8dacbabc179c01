/** State hierarchies: paths, descent, and which states a transition leaves and enters. */
module MachoTree {
  import opened Wrappers
  import opened Lists

  type State = nat

  /** The state that contains all others; it is never entered or left itself. */
  const ROOT: State := 0

  /** How a state records the substate that was current before a transition. */
  datatype Strategy = NoHistory | Shallow | Deep

  datatype Hierarchy = Hierarchy(parent: map<State, State>, depth: map<State, nat>, strategy: map<State, Strategy>,
      persistent: set<State>)

  /** Every state but the root has a parent one level up. */
  ghost predicate IsTree(h: Hierarchy) {
    && ROOT !in h.parent && h.depth.Keys == h.parent.Keys && h.strategy.Keys == h.parent.Keys
    && forall s :: s in h.parent ==>
        Up(h, s) && h.depth[s] == 1 + (if h.parent[s] == ROOT then 0 else h.depth[h.parent[s]])
  }

  predicate Up(h: Hierarchy, s: State)
    requires s in h.parent
  {
    s in h.depth && (h.parent[s] == ROOT || (h.parent[s] in h.parent && h.parent[s] in h.depth))
  }

  predicate IsState(h: Hierarchy, s: State) { s == ROOT || s in h.parent }

  function Depth(h: Hierarchy, s: State): nat { if s in h.depth then h.depth[s] else 0 }

  /** The states from the outermost one down to s. */
  function Path(h: Hierarchy, s: State): (p: seq<State>)
    requires IsTree(h) && IsState(h, s)
    ensures |p| == Depth(h, s) && (s != ROOT ==> p != [] && p[|p| - 1] == s)
    decreases Depth(h, s)
  {
    if s == ROOT then [] else assert Up(h, s); Path(h, h.parent[s]) + [s]
  }

  /** s is a or below it. */
  predicate IsChild(h: Hierarchy, s: State, a: State)
    requires IsTree(h) && IsState(h, s)
    decreases Depth(h, s)
  {
    s == a || (s != ROOT && (assert Up(h, s); IsChild(h, h.parent[s], a)))
  }

  lemma {:induction false} ChildOnPath(h: Hierarchy, s: State, a: State)
    requires IsTree(h) && IsState(h, s) && IsState(h, a)
    ensures IsChild(h, s, a) <==> a == ROOT || a in Path(h, s)
    decreases Depth(h, s)
  {
    if s != ROOT {
      assert Up(h, s);
      ChildOnPath(h, h.parent[s], a);
    }
  }

  /** The path of a state on the path is its front part. */
  lemma {:induction false} PathPrefix(h: Hierarchy, s: State, a: State)
    requires IsTree(h) && IsState(h, s) && a in Path(h, s)
    ensures a != ROOT && IsState(h, a) && Depth(h, a) <= Depth(h, s) && Path(h, s)[..Depth(h, a)] == Path(h, a)
    decreases Depth(h, s)
  {
    assert Up(h, s);
    if a != s {
      PathPrefix(h, h.parent[s], a);
      assert Path(h, s)[..Depth(h, a)] == Path(h, h.parent[s])[..Depth(h, a)];
    } else {
      assert Path(h, s)[..Depth(h, s)] == Path(h, s);
    }
  }

  lemma PathMembers(h: Hierarchy, s: State, i: nat)
    requires IsTree(h) && IsState(h, s) && i < |Path(h, s)|
    ensures var a := Path(h, s)[i]; a in Path(h, s) && IsState(h, a) && Depth(h, a) == i + 1 && a != ROOT
    decreases Depth(h, s)
  {
    assert Up(h, s);
    if i < |Path(h, s)| - 1 { PathMembers(h, h.parent[s], i); }
  }

  // ------------------------------------------------------------ what a transition does

  /** exit(): from s upward as long as next is not properly below. */
  function Exits(h: Hierarchy, s: State, next: State): seq<State>
    requires IsTree(h) && IsState(h, s) && IsState(h, next)
    decreases Depth(h, s)
  {
    if s == ROOT then []
    else if s == next || !IsChild(h, next, s) then assert Up(h, s); [s] + Exits(h, h.parent[s], next)
    else []
  }

  /** entry(): s and, before it, its parents as long as previous is not below them. */
  function Entries(h: Hierarchy, s: State, previous: State, first: bool): seq<State>
    requires IsTree(h) && IsState(h, s) && IsState(h, previous)
    decreases Depth(h, s)
  {
    if s == ROOT then []
    else if first || !IsChild(h, previous, s) then assert Up(h, s); Entries(h, h.parent[s], previous, false) + [s]
    else []
  }

  /** Length of the longest common front part. */
  function Common(p: seq<State>, q: seq<State>): (k: nat)
    ensures k <= |p| && k <= |q| && p[..k] == q[..k]
  {
    if p == [] || q == [] || p[0] != q[0] then 0
    else
      var k := 1 + Common(p[1..], q[1..]);
      assert p[..k] == [p[0]] + p[1..][..k - 1] && q[..k] == [q[0]] + q[1..][..k - 1];
      k
  }

  lemma {:induction false} CommonIs(p: seq<State>, q: seq<State>, k: nat)
    requires k <= |p| && k <= |q| && p[..k] == q[..k] && (k == |p| || k == |q| || p[k] != q[k])
    ensures Common(p, q) == k
  {
    if k > 0 {
      assert p[0] == p[..k][0] && q[0] == q[..k][0];
      assert p[1..][..k - 1] == p[..k][1..] && q[1..][..k - 1] == q[..k][1..];
      CommonIs(p[1..], q[1..], k - 1);
    }
  }

  function Reversed(p: seq<State>): (r: seq<State>)
    ensures |r| == |p|
  {
    if p == [] then [] else Reversed(p[1..]) + [p[0]]
  }

  lemma {:induction false} ReversedLast(p: seq<State>, x: State)
    ensures Reversed(p + [x]) == [x] + Reversed(p)
  {
    if p == [] {
      assert [] + [x] == [x] && [x][1..] == [];
    } else {
      assert (p + [x])[1..] == p[1..] + [x];
      ReversedLast(p[1..], x);
    }
  }

  /** The path of the states strictly above s. */
  function Above(h: Hierarchy, s: State): seq<State>
    requires IsTree(h) && IsState(h, s)
  {
    if s == ROOT then [] else assert Up(h, s); Path(h, h.parent[s])
  }

  /** next is properly below s exactly if s is among the states above next. */
  lemma ProperlyBelow(h: Hierarchy, s: State, next: State)
    requires IsTree(h) && IsState(h, s) && IsState(h, next) && s != ROOT
    ensures s != next && IsChild(h, next, s) <==> s in Above(h, next)
  {
    ChildOnPath(h, next, s);
    if next != ROOT {
      assert Up(h, next);
      if s == next && s in Above(h, next) { PathPrefix(h, h.parent[next], s); }
    }
  }

  /** The states left are those of the current path outside the common part, innermost first. */
  lemma {:induction false} ExitsArePath(h: Hierarchy, s: State, next: State)
    requires IsTree(h) && IsState(h, s) && IsState(h, next)
    ensures var k := Common(Path(h, s), Above(h, next)); Exits(h, s, next) == Reversed(Path(h, s)[k..])
    decreases Depth(h, s)
  {
    if s != ROOT {
      assert Up(h, s);
      var p, a := Path(h, s), Above(h, next);
      ProperlyBelow(h, s, next);
      if s in a {
        AboveOf(h, next, s);
        CommonIs(p, a, |p|);
      } else {
        var u := Path(h, h.parent[s]);
        ExitsArePath(h, h.parent[s], next);
        LastDiffers(u, s, a);
        ReversedTail(u, s, Common(u, a));
      }
    }
  }

  lemma ReversedTail(u: seq<State>, s: State, k: nat)
    requires k <= |u|
    ensures Reversed((u + [s])[k..]) == [s] + Reversed(u[k..])
  {
    assert (u + [s])[k..] == u[k..] + [s];
    ReversedLast(u[k..], s);
  }

  /** Adding an element that the other sequence lacks does not lengthen the common part. */
  lemma LastDiffers(u: seq<State>, s: State, a: seq<State>)
    requires s !in a
    ensures Common(u + [s], a) == Common(u, a)
  {
    var k := Common(u, a);
    CommonExact(u, a);
    assert (u + [s])[..k] == u[..k];
    CommonIs(u + [s], a, k);
  }

  lemma {:induction false} CommonExact(p: seq<State>, q: seq<State>)
    ensures var k := Common(p, q); k == |p| || k == |q| || p[k] != q[k]
  {
    if p != [] && q != [] && p[0] == q[0] { CommonExact(p[1..], q[1..]); }
  }

  lemma AboveOf(h: Hierarchy, next: State, s: State)
    requires IsTree(h) && IsState(h, next) && s in Above(h, next)
    ensures IsState(h, s) && |Path(h, s)| <= |Above(h, next)| && Above(h, next)[..|Path(h, s)|] == Path(h, s)
  {
    assert next != ROOT && Up(h, next);
    PathPrefix(h, h.parent[next], s);
  }

  /** The states entered are those of the new path outside the common part, outermost first. */
  lemma {:induction false} EntriesArePath(h: Hierarchy, s: State, previous: State)
    requires IsTree(h) && IsState(h, s) && IsState(h, previous)
    ensures var k := Common(Path(h, previous), Path(h, s)); Entries(h, s, previous, false) == Path(h, s)[k..]
    decreases Depth(h, s)
  {
    if s != ROOT {
      assert Up(h, s);
      var p, q := Path(h, s), Path(h, previous);
      ChildOnPath(h, previous, s);
      CommonSymmetric(q, p);
      if s in q {
        PathPrefix(h, previous, s);
        CommonIs(p, q, |p|);
      } else {
        var u := Path(h, h.parent[s]);
        EntriesArePath(h, h.parent[s], previous);
        CommonSymmetric(q, u);
        LastDiffers(u, s, q);
        var k := Common(u, q);
        assert p[k..] == u[k..] + [s];
      }
    }
  }

  lemma CommonSymmetric(p: seq<State>, q: seq<State>)
    ensures Common(p, q) == Common(q, p)
  {
    var k := Common(p, q);
    CommonExact(p, q);
    CommonIs(q, p, k);
  }

  /** A transition keeps the common part of the two paths and exchanges the rest. */
  lemma TransitionExchangesPaths(h: Hierarchy, s: State, next: State)
    requires IsTree(h) && IsState(h, s) && IsState(h, next)
    ensures var k := Common(Path(h, s), Above(h, next));
            && k <= |Path(h, next)| && Path(h, s)[..k] == Path(h, next)[..k] && (next != ROOT ==> k < |Path(h, next)|)
            && Exits(h, s, next) == Reversed(Path(h, s)[k..])
            && Entries(h, next, s, true) == Path(h, next)[k..]
  {
    ExitsArePath(h, s, next);
    if next != ROOT {
      assert Up(h, next);
      EntriesArePath(h, h.parent[next], s);
      AddedLast(Above(h, next), next, Common(Path(h, s), Above(h, next)));
    }
  }

  lemma AddedLast(p: seq<State>, s: State, k: nat)
    requires k <= |p|
    ensures (p + [s])[..k] == p[..k] && (p + [s])[k..] == p[k..] + [s]
  {
  }

  // ------------------------------------------------------------ replaying a trace

  datatype Action = Entry(state: State) | Exit(state: State)

  /** The configuration after an action, if the action is allowed: only the innermost state may be
      left, only a direct substate of it may be entered. */
  function After(h: Hierarchy, config: seq<State>, a: Action): Option<seq<State>> {
    match a
    case Exit(s) => if config != [] && config[|config| - 1] == s then Some(config[..|config| - 1]) else None
    case Entry(s) =>
      if s in h.parent && h.parent[s] == (if config == [] then ROOT else config[|config| - 1]) then Some(config + [s])
          else None
  }

  function Replay(h: Hierarchy, config: seq<State>, trace: seq<Action>): Option<seq<State>>
    decreases |trace|
  {
    if trace == [] then Some(config)
    else
      var c := After(h, config, trace[0]);
      if c.None? then None else Replay(h, c.value, trace[1..])
  }

  lemma {:induction false} ReplayConcat(h: Hierarchy, config: seq<State>, a: seq<Action>, b: seq<Action>)
    requires Replay(h, config, a).Some?
    ensures Replay(h, config, a + b) == Replay(h, Replay(h, config, a).value, b)
    decreases |a|
  {
    if a == [] {
      assert a + b == b;
    } else {
      assert (a + b)[1..] == a[1..] + b;
      ReplayConcat(h, After(h, config, a[0]).value, a[1..], b);
    }
  }

  function ExitActions(p: seq<State>): (r: seq<Action>)
    ensures |r| == |p|
  {
    if p == [] then [] else [Exit(p[0])] + ExitActions(p[1..])
  }

  function EntryActions(p: seq<State>): (r: seq<Action>)
    ensures |r| == |p|
  {
    if p == [] then [] else [Entry(p[0])] + EntryActions(p[1..])
  }

  lemma {:induction false} ReplayExits(h: Hierarchy, p: seq<State>, k: nat)
    requires k <= |p|
    ensures Replay(h, p, ExitActions(Reversed(p[k..]))) == Some(p[..k])
    decreases |p| - k
  {
    if k < |p| {
      var q, x := p[..|p| - 1], p[|p| - 1];
      assert p[k..] == q[k..] + [x];
      ReversedLast(q[k..], x);
      assert ([x] + Reversed(q[k..]))[1..] == Reversed(q[k..]);
      ReplayExits(h, q, k);
      assert p[..k] == q[..k];
    } else {
      assert p[..k] == p;
    }
  }

  predicate Enterable(h: Hierarchy, p: seq<State>, k: nat)
    requires k < |p|
  {
    p[k] in h.parent && h.parent[p[k]] == if k == 0 then ROOT else p[k - 1]
  }

  lemma {:induction false} ReplayEntries(h: Hierarchy, p: seq<State>, k: nat)
    requires k <= |p| && forall i :: k <= i < |p| ==> Enterable(h, p, i)
    ensures Replay(h, p[..k], EntryActions(p[k..])) == Some(p)
    decreases |p| - k
  {
    if k < |p| {
      ReplayEntries(h, p, k + 1);
      assert Enterable(h, p, k);
      assert p[k..][1..] == p[k + 1..];
      assert p[..k] + [p[k]] == p[..k + 1];
    } else {
      assert p[..k] == p;
    }
  }

  lemma {:induction false} EnterNext(h: Hierarchy, s: State, k: nat)
    requires IsTree(h) && IsState(h, s) && k < |Path(h, s)|
    ensures Enterable(h, Path(h, s), k)
    decreases Depth(h, s)
  {
    assert Up(h, s);
    if k < |Path(h, s)| - 1 { EnterNext(h, h.parent[s], k); }
  }

  /** The actions of a transition lead from one chain of ancestors to the other. */
  lemma ReplayTransition(h: Hierarchy, s: State, next: State)
    requires IsTree(h) && IsState(h, s) && IsState(h, next)
    ensures Replay(h, Path(h, s), ExitActions(Exits(h, s, next)) + EntryActions(Entries(h, next, s, true)))
            == Some(Path(h, next))
  {
    TransitionExchangesPaths(h, s, next);
    var k := Common(Path(h, s), Above(h, next));
    ReplayExits(h, Path(h, s), k);
    forall i | k <= i < |Path(h, next)| ensures Enterable(h, Path(h, next), i) {
      EnterNext(h, next, i);
    }
    ReplayEntries(h, Path(h, next), k);
    ReplayConcat(h, Path(h, s), ExitActions(Exits(h, s, next)), EntryActions(Entries(h, next, s, true)));
  }

  /** No state occurs twice on a path, so a transition leaves and enters each state at most once. */
  lemma PathOnce(h: Hierarchy, s: State, i: nat, j: nat)
    requires IsTree(h) && IsState(h, s) && i < |Path(h, s)| && j < |Path(h, s)| && Path(h, s)[i] == Path(h, s)[j]
    ensures i == j
  {
    PathMembers(h, s, i);
    PathMembers(h, s, j);
  }

  /** Depths are bounded by the number of states. */
  lemma DepthBound(h: Hierarchy, s: State)
    requires IsTree(h) && IsState(h, s)
    ensures Depth(h, s) <= |h.parent|
  {
    var p := Path(h, s);
    forall i, j | 0 <= i < j < |p| ensures p[i] != p[j] {
      if p[i] == p[j] { PathOnce(h, s, i, j); }
    }
    forall x | x in p ensures x in h.parent.Keys {
      var i :| 0 <= i < |p| && p[i] == x;
      PathMembers(h, s, i);
    }
    NoDupBound(p, h.parent.Keys);
  }

  // ------------------------------------------------------------ history

  function StrategyOf(h: Hierarchy, s: State): Strategy { if s in h.strategy then h.strategy[s] else NoHistory }

  /** Some state above s records history; otherwise recording stops there. */
  predicate HistoryAbove(h: Hierarchy, s: State)
    requires IsTree(h) && IsState(h, s)
    decreases Depth(h, s)
  {
    s != ROOT && (assert Up(h, s); StrategyOf(h, h.parent[s]) != NoHistory || HistoryAbove(h, h.parent[s]))
  }

  type History = map<State, Option<State>>

  /** setHistorySuper of s: the parent records its direct substate or the deep one, and passes on. */
  function SaveUp(h: Hierarchy, history: History, s: State, deep: State): History
    requires IsTree(h) && IsState(h, s)
    decreases Depth(h, s)
  {
    if s == ROOT then history
    else
      assert Up(h, s);
      var p := h.parent[s];
      var recorded := match StrategyOf(h, p)
        case NoHistory => history
        case Shallow => history[p := Some(s)]
        case Deep => history[p := Some(deep)];
      if HistoryAbove(h, p) then SaveUp(h, recorded, p, deep) else recorded
  }

  /** What state a records when the machine leaves s: nothing unless a is above s. */
  function Recorded(h: Hierarchy, s: State, deep: State, a: State): Option<State>
    requires IsTree(h) && IsState(h, s)
  {
    if a in Above(h, s) && Depth(h, a) < |Path(h, s)|
    then Remembered(StrategyOf(h, a), Path(h, s)[Depth(h, a)], deep)
    else None
  }

  /** What a strategy records of the direct substate and of the innermost state that is left. */
  function Remembered(strategy: Strategy, substate: State, deep: State): Option<State> {
    match strategy
    case NoHistory => None
    case Shallow => Some(substate)
    case Deep => Some(deep)
  }

  lemma {:induction false} NothingAbove(h: Hierarchy, s: State, a: State)
    requires IsTree(h) && IsState(h, s) && !HistoryAbove(h, s) && a in Above(h, s)
    ensures StrategyOf(h, a) == NoHistory
    decreases Depth(h, s)
  {
    assert s != ROOT && Up(h, s);
    var p := h.parent[s];
    if a != p {
      assert p != ROOT && Path(h, p) == Above(h, p) + [p];
      NothingAbove(h, p, a);
    }
  }

  /** Exactly the states above s with a history record; the walk that stops early misses none. */
  lemma {:induction false} SaveUpIs(h: Hierarchy, history: History, s: State, deep: State, a: State)
    requires IsTree(h) && IsState(h, s) && a in history && a != ROOT
    ensures var r := Recorded(h, s, deep, a); var after := SaveUp(h, history, s, deep);
            a in after && after[a] == if r.Some? then r else history[a]
    decreases Depth(h, s)
  {
    if s != ROOT {
      assert Up(h, s);
      var p := h.parent[s];
      var recorded := match StrategyOf(h, p)
        case NoHistory => history
        case Shallow => history[p := Some(s)]
        case Deep => history[p := Some(deep)];
      RecordedStep(h, s, deep, a);
      if HistoryAbove(h, p) {
        SaveUpIs(h, recorded, p, deep, a);
      } else if a in Above(h, p) {
        NothingAbove(h, p, a);
      }
    }
  }

  /** What the parent adds to what is recorded further up. */
  lemma RecordedStep(h: Hierarchy, s: State, deep: State, a: State)
    requires IsTree(h) && IsState(h, s) && s != ROOT && a != ROOT
    ensures Up(h, s)
    ensures var p := h.parent[s];
            Recorded(h, s, deep, a)
            == if a == p then Remembered(StrategyOf(h, p), s, deep) else Recorded(h, p, deep, a)
    ensures h.parent[s] != ROOT ==> h.parent[s] !in Above(h, h.parent[s])
  {
    assert Up(h, s);
    var p := h.parent[s];
    assert Path(h, s) == Path(h, p) + [s] && Above(h, s) == Path(h, p);
    if p != ROOT {
      assert Up(h, p);
      assert Path(h, p) == Above(h, p) + [p];
      if p in Above(h, p) { PathPrefix(h, h.parent[p], p); }
      if a in Above(h, p) { RecordedAbove(h, s, deep, a); }
    }
  }

  /** Further up the parent's path decides. */
  lemma RecordedAbove(h: Hierarchy, s: State, deep: State, a: State)
    requires IsTree(h) && IsState(h, s) && s != ROOT
    requires assert Up(h, s); a in Above(h, h.parent[s])
    ensures assert Up(h, s); Recorded(h, s, deep, a) == Recorded(h, h.parent[s], deep, a)
  {
    assert Up(h, s);
    var p := h.parent[s];
    assert p != ROOT && Up(h, p);
    PathPrefix(h, h.parent[p], a);
    assert Path(h, s) == Path(h, p) + [s] && Above(h, s) == Path(h, p) && Path(h, p) == Above(h, p) + [p];
  }

  /** A record points to a state properly below. */
  lemma RecordedBelow(h: Hierarchy, s: State, a: State)
    requires IsTree(h) && IsState(h, s) && Recorded(h, s, s, a).Some?
    ensures var d := Recorded(h, s, s, a).value; IsState(h, d) && d != a && IsChild(h, d, a)
  {
    assert s != ROOT && Up(h, s);
    PathPrefix(h, h.parent[s], a);
    ChildOnPath(h, s, a);
    if StrategyOf(h, a).Shallow? {
      var d := Path(h, s)[Depth(h, a)];
      PathMembers(h, s, Depth(h, a));
      PathPrefix(h, s, d);
      assert Path(h, s)[..Depth(h, a) + 1][Depth(h, a) - 1] == Path(h, s)[Depth(h, a) - 1];
      assert Path(h, s)[..Depth(h, a)][Depth(h, a) - 1] == a;
      ChildOnPath(h, d, a);
    }
  }
}
