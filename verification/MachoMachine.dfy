/** The state machine object: performing transitions, histories, and the loop that settles it. */
module MachoMachine {
  import opened Wrappers
  import opened MachoTree

  /** A requested state, and whether its history decides where to go on. */
  datatype Request = Request(target: State, useHistory: bool)

  /** What an event handler asks for: a transition, another event. */
  datatype Decision = Decision(request: Option<Request>, event: bool)

  ghost predicate HistorySound(h: Hierarchy, history: History)
    requires IsTree(h)
  {
    && (forall s :: s in h.parent ==> s in history)
    && (forall s :: s in history ==> IsState(h, s) && (history[s].Some? ==> ProperBelow(h, history[s].value, s)))
  }

  predicate ProperBelow(h: Hierarchy, d: State, s: State)
    requires IsTree(h)
  {
    IsState(h, d) && d != s && IsChild(h, d, s)
  }

  predicate ValidRequest(h: Hierarchy, r: Option<Request>) { r.Some? ==> IsState(h, r.value.target) }

  lemma {:induction false} ExitsAreAbove(h: Hierarchy, s: State, next: State, x: State)
    requires IsTree(h) && IsState(h, s) && IsState(h, next) && x in Exits(h, s, next)
    ensures Depth(h, x) <= Depth(h, s) && x in Path(h, s)
    decreases Depth(h, s)
  {
    assert s != ROOT && Up(h, s);
    if x != s { ExitsAreAbove(h, h.parent[s], next, x); }
  }

  /** How much deeper a pending transition can still lead. */
  function Remaining(h: Hierarchy, pending: Option<Request>): nat {
    if pending.None? then 0
    else if Depth(h, pending.value.target) <= |h.parent| then 1 + |h.parent| - Depth(h, pending.value.target)
    else 1
  }

  /** Boxes of the current states exist, others only if they are kept. */
  ghost predicate BoxesFit(h: Hierarchy, boxes: set<State>, path: seq<State>) {
    && (forall s :: s in path ==> s in boxes)
    && (forall s :: s in boxes ==> s in path || s in h.persistent)
  }

  function Dropped(h: Hierarchy, left: seq<State>): set<State> { set x | x in left && x !in h.persistent }

  /** The listed states that are instance or below it have no history any more; the others keep theirs. */
  ghost predicate Cleared(h: Hierarchy, before: History, after: History, listed: seq<State>, instance: State)
    requires IsTree(h)
  {
    forall s :: s in after && s in before && IsState(h, s) ==>
      after[s] == if s in listed && IsChild(h, s, instance) then None else before[s]
  }

  lemma ClearedNext(h: Hierarchy, before: History, now: History, listed: seq<State>, s: State, instance: State)
    requires IsTree(h) && HistorySound(h, now) && now.Keys == before.Keys && s in h.parent
    requires Cleared(h, before, now, listed, instance)
    ensures IsState(h, s) && s in now
    ensures var next := if IsChild(h, s, instance) then now[s := None] else now;
            HistorySound(h, next) && next.Keys == before.Keys && Cleared(h, before, next, listed + [s], instance)
  {
  }

  function Members(p: seq<State>): set<State> { set x | x in p }

  lemma BoxesAfter(h: Hierarchy, boxes: set<State>, s: State, next: State)
    requires IsTree(h) && IsState(h, s) && IsState(h, next) && BoxesFit(h, boxes, Path(h, s))
    ensures BoxesFit(h, boxes - Dropped(h, Exits(h, s, next)) + Members(Entries(h, next, s, true)), Path(h, next))
  {
    TransitionExchangesPaths(h, s, next);
    var k := Common(Path(h, s), Above(h, next));
    PathSplit(h, s, k);
    BoxesOfPaths(h, boxes, Path(h, s), Path(h, next), k);
  }

  lemma BoxesOfPaths(h: Hierarchy, boxes: set<State>, p: seq<State>, q: seq<State>, k: nat)
    requires BoxesFit(h, boxes, p) && k <= |p| && k <= |q| && p[..k] == q[..k]
             && forall x :: x in p[..k] ==> x !in p[k..]
    ensures BoxesFit(h, boxes - Dropped(h, Reversed(p[k..])) + Members(q[k..]), q)
  {
    assert p == p[..k] + p[k..] && q == p[..k] + q[k..];
    BoxesExchange(h, boxes, p[..k], p[k..], q[k..]);
  }

  /** The front and the rest of a path have no state in common. */
  lemma PathSplit(h: Hierarchy, s: State, k: nat)
    requires IsTree(h) && IsState(h, s) && k <= |Path(h, s)|
    ensures forall x :: x in Path(h, s)[..k] ==> x !in Path(h, s)[k..]
  {
    var p := Path(h, s);
    forall x | x in p[..k] ensures x !in p[k..] {
      if x in p[k..] {
        var i :| 0 <= i < k && p[i] == x;
        var j :| k <= j < |p| && p[j] == x;
        PathOnce(h, s, i, j);
      }
    }
  }

  lemma BoxesExchange(h: Hierarchy, boxes: set<State>, kept: seq<State>, left: seq<State>, entered: seq<State>)
    requires BoxesFit(h, boxes, kept + left) && forall x :: x in kept ==> x !in left
    ensures BoxesFit(h, boxes - Dropped(h, Reversed(left)) + Members(entered), kept + entered)
  {
    ReversedMembers(left);
    assert forall x :: x in kept ==> x in kept + left;
  }

  lemma DroppedStep(h: Hierarchy, boxes: set<State>, s: State, rest: seq<State>)
    ensures (if s in h.persistent then boxes else boxes - {s}) - Dropped(h, rest) == boxes - Dropped(h, [s] + rest)
  {
  }

  lemma {:induction false} ReversedMembers(p: seq<State>)
    ensures forall x :: x in Reversed(p) <==> x in p
  {
    if p != [] {
      ReversedMembers(p[1..]);
      assert p == [p[0]] + p[1..];
    }
  }

  lemma SaveUpSound(h: Hierarchy, history: History, s: State)
    requires IsTree(h) && IsState(h, s) && HistorySound(h, history)
    ensures HistorySound(h, SaveUp(h, history, s, s))
  {
    SaveUpKeys(h, history, s, s);
    var after := SaveUp(h, history, s, s);
    forall a | a in after ensures IsState(h, a) && (after[a].Some? ==> ProperBelow(h, after[a].value, a)) {
      if a != ROOT {
        SaveUpIs(h, history, s, s, a);
        if Recorded(h, s, s, a).Some? { RecordedBelow(h, s, a); }
      } else {
        SaveUpRoot(h, history, s, s);
      }
    }
  }

  lemma {:induction false} SaveUpKeys(h: Hierarchy, history: History, s: State, deep: State)
    requires IsTree(h) && IsState(h, s) && forall a :: a in h.parent ==> a in history
    ensures SaveUp(h, history, s, deep).Keys == history.Keys
    decreases Depth(h, s)
  {
    if s != ROOT {
      assert Up(h, s);
      var p := h.parent[s];
      var recorded := match StrategyOf(h, p)
        case NoHistory => history
        case Shallow => history[p := Some(s)]
        case Deep => history[p := Some(deep)];
      if HistoryAbove(h, p) { SaveUpKeys(h, recorded, p, deep); }
    }
  }

  lemma {:induction false} SaveUpRoot(h: Hierarchy, history: History, s: State, deep: State)
    requires IsTree(h) && IsState(h, s)
    ensures ROOT in history ==>
              ROOT in SaveUp(h, history, s, deep) && SaveUp(h, history, s, deep)[ROOT] == history[ROOT]
    decreases Depth(h, s)
  {
    if s != ROOT {
      assert Up(h, s);
      var p := h.parent[s];
      var recorded := match StrategyOf(h, p)
        case NoHistory => history
        case Shallow => history[p := Some(s)]
        case Deep => history[p := Some(deep)];
      if HistoryAbove(h, p) { SaveUpRoot(h, recorded, p, deep); }
    }
  }

  /** After leaving s, a state above it with deep history remembers s itself, one with shallow
      history the direct substate on the way to s. */
  lemma RemembersLast(h: Hierarchy, history: History, s: State, a: State)
    requires IsTree(h) && IsState(h, s) && HistorySound(h, history) && a in Above(h, s)
    ensures a in history && a in SaveUp(h, history, s, s) && Depth(h, a) < |Path(h, s)|
    ensures StrategyOf(h, a).Deep? ==> SaveUp(h, history, s, s)[a] == Some(s)
    ensures StrategyOf(h, a).Shallow? ==> SaveUp(h, history, s, s)[a] == Some(Path(h, s)[Depth(h, a)])
    ensures StrategyOf(h, a).NoHistory? ==> SaveUp(h, history, s, s)[a] == history[a]
  {
    assert s != ROOT && Up(h, s);
    PathPrefix(h, h.parent[s], a);
    assert a in h.parent;
    SaveUpIs(h, history, s, s, a);
  }

  ghost predicate ConsistentAt(h: Hierarchy, current: State, history: History, trace: seq<Action>, boxes: set<State>) {
    && IsTree(h) && IsState(h, current) && HistorySound(h, history)
    && Replay(h, [], trace) == Some(Path(h, current))
    && BoxesFit(h, boxes, Path(h, current))
  }

  /** Actions of the transition from s to next. */
  function Actions(h: Hierarchy, s: State, next: State): seq<Action>
    requires IsTree(h) && IsState(h, s) && IsState(h, next)
  {
    ExitActions(Exits(h, s, next)) + EntryActions(Entries(h, next, s, true))
  }

  /** A transition keeps the configuration consistent. */
  lemma TransitionConsistent(h: Hierarchy, s: State, next: State, history: History, trace: seq<Action>,
                             boxes: set<State>)
    requires ConsistentAt(h, s, history, trace, boxes) && IsState(h, next)
    ensures ConsistentAt(h, next, SaveUp(h, history, s, s), trace + Actions(h, s, next),
                         boxes - Dropped(h, Exits(h, s, next)) + Members(Entries(h, next, s, true)))
  {
    BoxesAfter(h, boxes, s, next);
    ReplayTransition(h, s, next);
    ReplayConcat(h, [], trace, Actions(h, s, next));
    SaveUpSound(h, history, s);
  }

  // ------------------------------------------------------------ what a machine does until it is settled

  /** What decides how a machine goes on. */
  datatype Setup = Setup(current: State, history: History, pending: Option<Request>, event: bool)

  /** A transition and what the init action after it leads to, which the state itself decides if it is
      asked; or an event given to its handler, and what that asks for. */
  datatype Deed = Go(request: Request, next: Option<Request>, asked: bool) | Dispatch(decision: Decision)

  predicate InTree(h: Hierarchy, deeds: seq<Deed>) {
    forall i :: 0 <= i < |deeds| && deeds[i].Go? ==> IsState(h, deeds[i].request.target)
  }

  /** The histories when target has been entered from s. */
  function Arrived(h: Hierarchy, history: History, s: State, target: State): History
    requires IsTree(h) && IsState(h, s)
  {
    SaveUp(h, history, s, s)[target := None]
  }

  function Perform(h: Hierarchy, c: Setup, d: Deed): Setup
    requires IsTree(h) && IsState(h, c.current)
  {
    match d
    case Go(r, next, _) => Setup(r.target, Arrived(h, c.history, c.current, r.target), next, c.event)
    case Dispatch(decision) => c.(pending := decision.request, event := decision.event)
  }

  function Along(h: Hierarchy, c: Setup, deeds: seq<Deed>): (r: Setup)
    requires IsTree(h) && IsState(h, c.current) && InTree(h, deeds)
    ensures IsState(h, r.current)
  {
    if deeds == [] then c else Perform(h, Along(h, c, deeds[..|deeds| - 1]), deeds[|deeds| - 1])
  }

  /** The exit and entry actions on the way. */
  function ActionsAlong(h: Hierarchy, c: Setup, deeds: seq<Deed>): seq<Action>
    requires IsTree(h) && IsState(h, c.current) && InTree(h, deeds)
  {
    if deeds == [] then []
    else
      var before, d := deeds[..|deeds| - 1], deeds[|deeds| - 1];
      ActionsAlong(h, c, before) + if d.Go? then Actions(h, Along(h, c, before).current, d.request.target) else []
  }

  function InitsAsked(deeds: seq<Deed>): nat {
    if deeds == [] then 0
    else InitsAsked(deeds[..|deeds| - 1]) + if deeds[|deeds| - 1].Go? && deeds[|deeds| - 1].asked then 1 else 0
  }

  function Dispatched(deeds: seq<Deed>): nat {
    if deeds == [] then 0
    else Dispatched(deeds[..|deeds| - 1]) + if deeds[|deeds| - 1].Dispatch? then 1 else 0
  }

  /** Answer number n of the init actions; those not given ask for nothing. */
  function InitAnswer(inits: seq<Option<Request>>, n: nat): Option<Request> {
    if n < |inits| then inits[n] else None
  }

  function HandlerAnswer(decisions: seq<Decision>, k: nat): Decision {
    if k < |decisions| then decisions[k] else Decision(None, false)
  }

  /** Where the history of the state that is entered leads, if it is asked for and recorded. */
  function Recalled(h: Hierarchy, c: Setup, r: Request): Option<State>
    requires IsTree(h) && IsState(h, c.current)
  {
    var saved := SaveUp(h, c.history, c.current, c.current);
    if r.useHistory && r.target in saved then saved[r.target] else None
  }

  /** d is what comes next: the pending transition, then its history or else init answer n; with none
      pending, the event with handler answer k. */
  predicate Due(h: Hierarchy, c: Setup, inits: seq<Option<Request>>, n: nat, decisions: seq<Decision>, k: nat, d: Deed)
    requires IsTree(h) && IsState(h, c.current)
  {
    match d
    case Go(r, next, asked) =>
      && c.pending == Some(r) && asked == Recalled(h, c, r).None?
      && next == if asked then InitAnswer(inits, n) else Some(Request(Recalled(h, c, r).value, false))
    case Dispatch(decision) => c.pending.None? && c.event && decision == HandlerAnswer(decisions, k)
  }

  /** Every deed is the one that is due; every answer is used once, in order. */
  ghost predicate Course(h: Hierarchy, c: Setup, inits: seq<Option<Request>>, decisions: seq<Decision>,
                         deeds: seq<Deed>)
  {
    && IsTree(h) && IsState(h, c.current) && InTree(h, deeds)
    && forall i :: 0 <= i < |deeds| ==> DueAt(h, c, inits, decisions, deeds, i)
  }

  predicate DueAt(h: Hierarchy, c: Setup, inits: seq<Option<Request>>, decisions: seq<Decision>, deeds: seq<Deed>,
                  i: nat)
    requires IsTree(h) && IsState(h, c.current) && InTree(h, deeds) && i < |deeds|
  {
    var before := deeds[..i];
    Due(h, Along(h, c, before), inits, InitsAsked(before), decisions, Dispatched(before), deeds[i])
  }

  /** No init action has led anywhere but to a proper substate. */
  ghost predicate RuleKept(h: Hierarchy, deeds: seq<Deed>)
    requires IsTree(h)
  {
    forall i :: 0 <= i < |deeds| ==> LedBelow(h, deeds[i])
  }

  predicate LedBelow(h: Hierarchy, d: Deed)
    requires IsTree(h)
  {
    d.Go? && d.next.Some? ==> ProperBelow(h, d.next.value.target, d.request.target)
  }

  /** Everything was done as it was due, with these answers, and led to c'. */
  ghost predicate Went(h: Hierarchy, c: Setup, inits: seq<Option<Request>>, decisions: seq<Decision>, deeds: seq<Deed>,
                       c': Setup)
  {
    Course(h, c, inits, decisions, deeds) && Along(h, c, deeds) == c'
  }

  lemma WentOn(h: Hierarchy, c: Setup, inits: seq<Option<Request>>, decisions: seq<Decision>, deeds: seq<Deed>,
               c1: Setup, d: Deed)
    requires Went(h, c, inits, decisions, deeds, c1)
    requires d.Go? ==> IsState(h, d.request.target)
    requires Due(h, c1, inits, InitsAsked(deeds), decisions, Dispatched(deeds), d)
    ensures Went(h, c, inits, decisions, deeds + [d], Perform(h, c1, d))
    ensures ActionsAlong(h, c, deeds + [d])
            == ActionsAlong(h, c, deeds) + if d.Go? then Actions(h, c1.current, d.request.target) else []
    ensures InitsAsked(deeds + [d]) == InitsAsked(deeds) + if d.Go? && d.asked then 1 else 0
    ensures Dispatched(deeds + [d]) == Dispatched(deeds) + if d.Dispatch? then 1 else 0
  {
    var all := deeds + [d];
    assert all[..|all| - 1] == deeds;
    forall i | 0 <= i < |all| ensures DueAt(h, c, inits, decisions, all, i) {
      if i < |deeds| {
        assert all[..i] == deeds[..i];
        assert DueAt(h, c, inits, decisions, deeds, i);
      }
    }
  }

  /** The loops have ended: nothing is pending, or the last init action broke the rule. */
  ghost predicate Ended(h: Hierarchy, deeds: seq<Deed>, ok: bool)
    requires IsTree(h)
  {
    if ok then RuleKept(h, deeds)
    else deeds != [] && RuleKept(h, deeds[..|deeds| - 1]) && !LedBelow(h, deeds[|deeds| - 1])
  }

  /** The loops have led from c to c1, with the trace and the numbers of answers used. */
  ghost predicate LedTo(h: Hierarchy, c: Setup, inits: seq<Option<Request>>, decisions: seq<Decision>, deeds: seq<Deed>,
                        used: nat, heard: nat, c1: Setup, t0: seq<Action>, t1: seq<Action>)
  {
    && Went(h, c, inits, decisions, deeds, c1) && t1 == t0 + ActionsAlong(h, c, deeds)
    && used == InitsAsked(deeds) && heard == Dispatched(deeds)
  }

  lemma LedNowhere(h: Hierarchy, c: Setup, inits: seq<Option<Request>>, decisions: seq<Decision>, t: seq<Action>)
    requires IsTree(h) && IsState(h, c.current)
    ensures LedTo(h, c, inits, decisions, [], 0, 0, c, t, t) && RuleKept(h, [])
  {
  }

  /** One more transition of the inner loop. */
  lemma SettlesOn(h: Hierarchy, c: Setup, inits: seq<Option<Request>>, decisions: seq<Decision>, deeds: seq<Deed>,
                  used: nat, heard: nat, c1: Setup, t0: seq<Action>, t1: seq<Action>, c2: Setup, asked: bool, ok: bool)
    requires LedTo(h, c, inits, decisions, deeds, used, heard, c1, t0, t1) && RuleKept(h, deeds)
    requires c1.pending.Some? && IsState(h, c1.pending.value.target)
    requires asked == Recalled(h, c1, c1.pending.value).None?
    requires c2 == Perform(h, c1, Go(c1.pending.value, c2.pending, asked))
    requires c2.pending == if asked then InitAnswer(inits, used)
                           else Some(Request(Recalled(h, c1, c1.pending.value).value, false))
    requires ok <==> LedBelow(h, Go(c1.pending.value, c2.pending, asked))
    ensures var all := deeds + [Go(c1.pending.value, c2.pending, asked)];
            && LedTo(h, c, inits, decisions, all, used + (if asked then 1 else 0), heard, c2, t0,
                     t1 + Actions(h, c1.current, c2.current))
            && Ended(h, all, ok)
  {
    var d := Go(c1.pending.value, c2.pending, asked);
    GoesOn(h, c, inits, decisions, deeds, used, heard, c1, t0, t1, d);
    OneMore(h, deeds, d, ok);
  }

  lemma GoesOn(h: Hierarchy, c: Setup, inits: seq<Option<Request>>, decisions: seq<Decision>, deeds: seq<Deed>,
               used: nat, heard: nat, c1: Setup, t0: seq<Action>, t1: seq<Action>, d: Deed)
    requires LedTo(h, c, inits, decisions, deeds, used, heard, c1, t0, t1)
    requires d.Go? && IsState(h, d.request.target) && Due(h, c1, inits, used, decisions, heard, d)
    ensures LedTo(h, c, inits, decisions, deeds + [d], used + (if d.asked then 1 else 0), heard, Perform(h, c1, d), t0,
                  t1 + Actions(h, c1.current, d.request.target))
  {
    WentOn(h, c, inits, decisions, deeds, c1, d);
    Concat(t0, ActionsAlong(h, c, deeds), Actions(h, c1.current, d.request.target));
  }

  lemma OneMore(h: Hierarchy, deeds: seq<Deed>, d: Deed, ok: bool)
    requires IsTree(h) && RuleKept(h, deeds) && (ok <==> LedBelow(h, d))
    ensures Ended(h, deeds + [d], ok)
  {
    assert (deeds + [d])[..|deeds|] == deeds;
  }

  /** The pending event goes to its handler. */
  lemma DispatchesOn(h: Hierarchy, c: Setup, inits: seq<Option<Request>>, decisions: seq<Decision>, deeds: seq<Deed>,
                     used: nat, heard: nat, c1: Setup, t0: seq<Action>, t1: seq<Action>)
    requires LedTo(h, c, inits, decisions, deeds, used, heard, c1, t0, t1) && RuleKept(h, deeds)
    requires c1.pending.None? && c1.event
    ensures var answer := HandlerAnswer(decisions, heard); var all := deeds + [Dispatch(answer)];
            && LedTo(h, c, inits, decisions, all, used, heard + 1,
                     c1.(pending := answer.request, event := answer.event), t0, t1)
            && RuleKept(h, all)
  {
    var answer := HandlerAnswer(decisions, heard);
    WentOn(h, c, inits, decisions, deeds, c1, Dispatch(answer));
    OneMore(h, deeds, Dispatch(answer), true);
  }

  /** Without answers a transition that no history goes before is all that is done. */
  lemma GoesOnce(h: Hierarchy, c: Setup, deeds: seq<Deed>, c': Setup, ok: bool)
    requires Went(h, c, [], [], deeds, c') && c.pending.Some? && !c.pending.value.useHistory && !c.event
    requires ok ==> c'.pending.None?
    requires Ended(h, deeds, ok)
    ensures ok && deeds == [Go(c.pending.value, None, true)]
  {
    if deeds != [] {
      assert DueAt(h, c, [], [], deeds, 0) && deeds[..0] == [];
      var d := Go(c.pending.value, None, true);
      assert deeds[0] == d;
      assert |deeds| > 1 ==> deeds[..1] == [d] && [d][..0] == [] && DueAt(h, c, [], [], deeds, 1);
    }
  }

  /** What a deed asks for: the answer of the init action, the history, or the handler. */
  function Asks(d: Deed): Option<Request> {
    match d
    case Go(_, next, _) => next
    case Dispatch(decision) => decision.request
  }

  /** A request is never dropped: the very next deed is the transition it asks for. */
  lemma RequestsArePerformed(h: Hierarchy, c: Setup, inits: seq<Option<Request>>, decisions: seq<Decision>,
                             deeds: seq<Deed>, c': Setup, i: nat)
    requires Went(h, c, inits, decisions, deeds, c') && i < |deeds| && Asks(deeds[i]).Some?
    ensures if i + 1 < |deeds| then deeds[i + 1].Go? && deeds[i + 1].request == Asks(deeds[i]).value
            else c'.pending == Asks(deeds[i])
  {
    var front := deeds[..i + 1];
    assert front[..|front| - 1] == deeds[..i];
    if i + 1 < |deeds| {
      assert DueAt(h, c, inits, decisions, deeds, i + 1);
    } else {
      assert front == deeds;
    }
  }

  /** A machine stands at the target of its last transition. */
  lemma {:induction false} StandsAtLast(h: Hierarchy, c: Setup, deeds: seq<Deed>, i: nat)
    requires IsTree(h) && IsState(h, c.current) && InTree(h, deeds) && i < |deeds| && deeds[i].Go?
    requires forall j :: i < j < |deeds| ==> !deeds[j].Go?
    ensures Along(h, c, deeds).current == deeds[i].request.target
    decreases |deeds|
  {
    if i < |deeds| - 1 { StandsAtLast(h, c, deeds[..|deeds| - 1], i); }
  }

  lemma ExitFirst(trace: seq<Action>, s: State, rest: seq<State>)
    ensures trace + [Exit(s)] + ExitActions(rest) == trace + ExitActions([s] + rest)
  {
    assert ([s] + rest)[1..] == rest;
  }

  lemma Concat(a: seq<Action>, b: seq<Action>, c: seq<Action>)
    ensures a + b + c == a + (b + c)
  {
  }

  class Machine {
    const h: Hierarchy
    var current: State
    var pending: Option<Request>
    var eventPending: bool
    var history: History
    var boxes: set<State>

    /** The entry and exit actions performed so far. */
    var trace: seq<Action>

    /** The states entered and not left are exactly the current state and those above it. */
    ghost predicate Consistent()
      reads this
    {
      ConsistentAt(h, current, history, trace, boxes)
    }

    /** What decides how it goes on. */
    function Now(): Setup
      reads this
    {
      Setup(current, history, pending, eventPending)
    }

    constructor (tree: Hierarchy)
      requires IsTree(tree)
      ensures Consistent() && h == tree && current == ROOT && pending == None && !eventPending && trace == []
    {
      h := tree;
      current, pending, eventPending, boxes, trace := ROOT, None, false, {}, [];
      history := map s | s in tree.parent :: None;
    }

    method DeleteBox(s: State)
      requires s in boxes
      modifies this`boxes
      ensures boxes == if s in h.persistent then old(boxes) else old(boxes) - {s}
    {
      if s !in h.persistent {
        boxes := boxes - {s};
      }
    }

    method ExitState(s: State, next: State)
      requires IsTree(h) && IsState(h, s) && IsState(h, next) && forall x :: x in Exits(h, s, next) ==> x in boxes
      modifies this`trace, this`boxes
      ensures trace == old(trace) + ExitActions(Exits(h, s, next))
      ensures boxes == old(boxes) - Dropped(h, Exits(h, s, next))
      decreases Depth(h, s)
    {
      if s == ROOT { return; }
      if s == next || !IsChild(h, next, s) {
        assert Up(h, s);
        var p := h.parent[s];
        assert Exits(h, s, next) == [s] + Exits(h, p, next);
        trace := trace + [Exit(s)];
        DeleteBox(s);
        forall x | x in Exits(h, p, next) ensures x in boxes {
          ExitsAreAbove(h, p, next, x);
        }
        DroppedStep(h, old(boxes), s, Exits(h, p, next));
        ExitFirst(old(trace), s, Exits(h, p, next));
        ExitState(p, next);
      }
    }

    method EntryState(s: State, previous: State, first: bool)
      requires IsTree(h) && IsState(h, s) && IsState(h, previous)
      modifies this`trace, this`boxes
      ensures trace == old(trace) + EntryActions(Entries(h, s, previous, first))
      ensures boxes == old(boxes) + Members(Entries(h, s, previous, first))
      decreases Depth(h, s)
    {
      if s == ROOT { return; }
      if first || !IsChild(h, previous, s) {
        assert Up(h, s);
        EntryState(h.parent[s], previous, false);
        if s !in boxes {
          boxes := boxes + {s};
        }
        trace := trace + [Entry(s)];
        EntryLast(Entries(h, h.parent[s], previous, false), s);
      }
    }

    /** Leaves the current state for the requested one. */
    method Transition()
      requires Consistent() && pending.Some? && IsState(h, pending.value.target)
      modifies this
      ensures Consistent() && current == old(pending).value.target && pending == None
              && eventPending == old(eventPending)
      ensures trace == old(trace) + Actions(h, old(current), current)
      ensures history == SaveUp(h, old(history), old(current), old(current))
    {
      var next := pending.value.target;
      TransitionConsistent(h, current, next, history, trace, boxes);
      ExitsHaveBoxes(h, boxes, current, next);
      GoTo(next);
    }

    /** Exit actions, history, entry actions. */
    method GoTo(next: State)
      requires IsTree(h) && IsState(h, current) && IsState(h, next)
      requires forall x :: x in Exits(h, current, next) ==> x in boxes
      modifies this
      ensures current == next && pending == None && eventPending == old(eventPending)
      ensures trace == old(trace) + Actions(h, old(current), next)
      ensures boxes == old(boxes) - Dropped(h, Exits(h, old(current), next))
                       + Members(Entries(h, next, old(current), true))
      ensures history == SaveUp(h, old(history), old(current), old(current))
    {
      var previous := current;
      Concat(trace, ExitActions(Exits(h, current, next)), EntryActions(Entries(h, next, current, true)));
      ExitState(current, next);
      history := SaveUp(h, history, current, current);
      current := next;
      EntryState(current, previous, true);
      pending := None;
    }

    /** The init action: the recorded history if it is asked for, else what the state decides; the
        record is used up. */
    method Init(useHistory: bool, choice: Option<Request>) returns (used: bool)
      requires Consistent() && pending == None && ValidRequest(h, choice)
      modifies this`pending, this`history
      ensures Consistent() && ValidRequest(h, pending)
      ensures history == old(history)[current := None]
      ensures used ==> pending == choice
      ensures !used <==> useHistory && current in old(history) && old(history)[current].Some?
      ensures !used ==>
                && pending == Some(Request(old(history)[current].value, false))
                && ProperBelow(h, pending.value.target, current)
    {
      used := true;
      if useHistory && current in history && history[current].Some? {
        pending := Some(Request(history[current].value, false));
        used := false;
      } else {
        pending := choice;
      }
      history := history[current := None];
    }

    /** Performs pending transitions and events until none is left. The init actions and event
        handlers of the states answer in the given order. It stops with false where the rule that
        init only goes to proper substates is broken. */
    method RattleOn(inits: seq<Option<Request>>, decisions: seq<Decision>) returns (ok: bool, ghost deeds: seq<Deed>)
      requires Consistent() && ValidRequest(h, pending)
      requires forall i :: 0 <= i < |inits| ==> ValidRequest(h, inits[i])
      requires forall i :: 0 <= i < |decisions| ==> ValidRequest(h, decisions[i].request)
      modifies this
      ensures Consistent()
      ensures ok ==> pending == None && !eventPending
      ensures !ok ==> pending.Some? && !ProperBelow(h, pending.value.target, current)
      ensures Went(h, old(Now()), inits, decisions, deeds, Now()) && Ended(h, deeds, ok)
      ensures trace == old(trace) + ActionsAlong(h, old(Now()), deeds)
    {
      ghost var c, t := Now(), trace;
      var d, n := 0, 0;
      deeds := [];
      LedNowhere(h, c, inits, decisions, t);
      while pending.Some? || eventPending
        invariant Consistent() && ValidRequest(h, pending)
        invariant LedTo(h, c, inits, decisions, deeds, n, d, Now(), t, trace) && RuleKept(h, deeds)
        invariant d <= |decisions| + 1 && (d > |decisions| ==> pending.None? && !eventPending)
        decreases 2 * (|decisions| + 1 - d) + (if eventPending then 1 else 0), pending.Some?
      {
        ok, n, deeds := Settle(inits, n, decisions, d, c, t, deeds);
        if !ok { return; }
        if eventPending {
          deeds := HandleEvent(inits, decisions, n, d, c, t, deeds);
          d := d + 1;
        }
      }
      ok := true;
    }

    /** Gives the pending event to the handler of the current state. */
    method HandleEvent(ghost inits: seq<Option<Request>>, decisions: seq<Decision>, ghost n: nat, d: nat,
                       ghost c: Setup, ghost t: seq<Action>, ghost deeds: seq<Deed>)
      returns (ghost deeds': seq<Deed>)
      requires Consistent() && pending.None? && eventPending
      requires forall i :: 0 <= i < |decisions| ==> ValidRequest(h, decisions[i].request)
      requires LedTo(h, c, inits, decisions, deeds, n, d, Now(), t, trace) && RuleKept(h, deeds)
      modifies this`pending, this`eventPending
      ensures Consistent() && ValidRequest(h, pending)
      ensures deeds' == deeds + [Dispatch(HandlerAnswer(decisions, d))]
      ensures LedTo(h, c, inits, decisions, deeds', n, d + 1, Now(), t, trace) && RuleKept(h, deeds')
      ensures d >= |decisions| ==> pending.None? && !eventPending
    {
      DispatchesOn(h, c, inits, decisions, deeds, n, d, Now(), t, trace);
      eventPending := false;
      if d < |decisions| {
        pending, eventPending := decisions[d].request, decisions[d].event;
      }
      deeds' := deeds + [Dispatch(HandlerAnswer(decisions, d))];
    }

    /** The inner loop: every init action leads deeper, so it ends. It goes on from what has been done
        since c, and dispatches no event. */
    method Settle(inits: seq<Option<Request>>, n: nat, ghost decisions: seq<Decision>, ghost d: nat,
                  ghost c: Setup, ghost t: seq<Action>, ghost deeds: seq<Deed>)
      returns (ok: bool, n': nat, ghost deeds': seq<Deed>)
      requires Consistent() && ValidRequest(h, pending)
      requires forall i :: 0 <= i < |inits| ==> ValidRequest(h, inits[i])
      requires LedTo(h, c, inits, decisions, deeds, n, d, Now(), t, trace) && RuleKept(h, deeds)
      modifies this
      ensures Consistent() && eventPending == old(eventPending) && ValidRequest(h, pending)
      ensures ok ==> pending == None
      ensures !ok ==> pending.Some? && !ProperBelow(h, pending.value.target, current)
      ensures LedTo(h, c, inits, decisions, deeds', n', d, Now(), t, trace) && Ended(h, deeds', ok) && deeds <= deeds'
    {
      n', deeds' := n, deeds;
      while pending.Some?
        invariant Consistent() && ValidRequest(h, pending) && eventPending == old(eventPending)
        invariant LedTo(h, c, inits, decisions, deeds', n', d, Now(), t, trace) && RuleKept(h, deeds')
        invariant deeds <= deeds'
        decreases Remaining(h, pending)
      {
        ok, n', deeds' := StepOn(inits, n', decisions, d, c, t, deeds');
        if !ok { return; }
      }
      ok := true;
    }

    /** One round of it. */
    method StepOn(inits: seq<Option<Request>>, n: nat, ghost decisions: seq<Decision>, ghost d: nat, ghost c: Setup,
                  ghost t: seq<Action>, ghost deeds: seq<Deed>)
      returns (ok: bool, n': nat, ghost deeds': seq<Deed>)
      requires Consistent() && pending.Some? && ValidRequest(h, pending)
      requires forall i :: 0 <= i < |inits| ==> ValidRequest(h, inits[i])
      requires LedTo(h, c, inits, decisions, deeds, n, d, Now(), t, trace) && RuleKept(h, deeds)
      modifies this
      ensures Consistent() && eventPending == old(eventPending) && ValidRequest(h, pending)
      ensures ok ==> Remaining(h, pending) < Remaining(h, old(pending))
      ensures !ok ==> pending.Some? && !ProperBelow(h, pending.value.target, current)
      ensures LedTo(h, c, inits, decisions, deeds', n', d, Now(), t, trace) && Ended(h, deeds', ok) && deeds <= deeds'
    {
      var asked;
      ghost var c1, t1 := Now(), trace;
      ok, asked := Step(InitAnswer(inits, n));
      SettlesOn(h, c, inits, decisions, deeds, n, d, c1, t, t1, Now(), asked, ok);
      n' := if asked then n + 1 else n;
      deeds' := deeds + [Go(c1.pending.value, pending, asked)];
    }

    /** One transition with its init action. */
    method Step(choice: Option<Request>) returns (ok: bool, asked: bool)
      requires Consistent() && pending.Some? && ValidRequest(h, pending) && ValidRequest(h, choice)
      modifies this
      ensures Consistent() && eventPending == old(eventPending) && ValidRequest(h, pending)
      ensures current == old(pending).value.target && trace == old(trace) + Actions(h, old(current), current)
      ensures asked <==> Recalled(h, old(Now()), old(pending).value).None?
      ensures pending == if asked then choice
                         else Some(Request(Recalled(h, old(Now()), old(pending).value).value, false))
      ensures history == Arrived(h, old(history), old(current), current)
      ensures ok <==> pending.None? || ProperBelow(h, pending.value.target, current)
      ensures ok ==> Remaining(h, pending) < Remaining(h, old(pending))
    {
      var useHistory := pending.value.useHistory;
      Transition();
      asked := Init(useHistory, choice);
      ok := LeadsBelow();
      if ok { LeadsDeeper(h, old(pending), pending); }
    }

    /** Whether the state that init asks for, if any, is a proper substate. */
    predicate LeadsBelow()
      requires IsTree(h) && IsState(h, current) && ValidRequest(h, pending)
      reads this
    {
      pending.None? || (IsChild(h, pending.value.target, current) && pending.value.target != current)
    }

    /** Going to the root leaves every state. */
    method Shutdown()
      requires Consistent() && pending == None && !eventPending
      modifies this
      ensures Consistent() && current == ROOT && Replay(h, [], trace) == Some([])
    {
      pending := Some(Request(ROOT, false));
      ghost var c := Now();
      var ok;
      ghost var deeds;
      ok, deeds := RattleOn([], []);
      GoesOnce(h, c, deeds, Now(), ok);
    }

    /** Forgets the histories of a state and of all states below it. */
    method ClearHistoryDeep(instances: seq<State>, instance: State)
      requires Consistent() && forall i :: 0 <= i < |instances| ==> instances[i] in h.parent
      modifies this`history
      ensures Consistent() && history.Keys == old(history).Keys
      ensures Cleared(h, old(history), history, instances, instance)
    {
      for i := 0 to |instances|
        invariant HistorySound(h, history) && history.Keys == old(history).Keys
        invariant Cleared(h, old(history), history, instances[..i], instance)
      {
        assert instances[..i + 1] == instances[..i] + [instances[i]];
        ClearedNext(h, old(history), history, instances[..i], instances[i], instance);
        if IsChild(h, instances[i], instance) {
          history := history[instances[i] := None];
        }
      }
      assert instances[..|instances|] == instances;
    }
  }

  lemma LeadsDeeper(h: Hierarchy, before: Option<Request>, after: Option<Request>)
    requires IsTree(h) && before.Some? && ValidRequest(h, before) && ValidRequest(h, after)
    requires after.Some? ==> ProperBelow(h, after.value.target, before.value.target)
    ensures Remaining(h, after) < Remaining(h, before)
  {
    if after.Some? {
      ProperDeeper(h, after.value.target, before.value.target);
      DepthBound(h, after.value.target);
    }
  }

  lemma ProperDeeper(h: Hierarchy, d: State, s: State)
    requires IsTree(h) && IsState(h, d) && IsState(h, s) && d != s && IsChild(h, d, s)
    ensures Depth(h, d) > Depth(h, s)
  {
    ChildOnPath(h, d, s);
    assert d != ROOT && Up(h, d);
    if s != ROOT { PathPrefix(h, h.parent[d], s); }
  }

  lemma ExitsHaveBoxes(h: Hierarchy, boxes: set<State>, s: State, next: State)
    requires IsTree(h) && IsState(h, s) && IsState(h, next) && BoxesFit(h, boxes, Path(h, s))
    ensures forall x :: x in Exits(h, s, next) ==> x in boxes
  {
    forall x | x in Exits(h, s, next) ensures x in boxes { ExitsAreAbove(h, s, next, x); }
  }

  lemma {:induction false} EntryLast(p: seq<State>, s: State)
    ensures EntryActions(p + [s]) == EntryActions(p) + [Entry(s)]
  {
    if p == [] {
      assert [] + [s] == [s] && [s][1..] == [];
    } else {
      assert (p + [s])[1..] == p[1..] + [s];
      EntryLast(p[1..], s);
    }
  }
}
