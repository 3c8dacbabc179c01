/** The round's guarantees, for every run from the start of a round. */
module FadiaTheorems {
  import opened Wrappers
  import opened FadiaReport
  import opened FadiaProver
  import opened FadiaRound
  import opened FadiaLocal
  import opened FadiaFrame
  import opened FadiaHandshake
  import opened FadiaRecords

  // ------------------------------------------------------------ the invariant is inductive

  lemma InitHandshake(sys: System, w: World)
    requires ValidSystem(sys) && Init(sys, w)
    ensures HandshakeInv(sys, w)
  {
    forall u | u in w.provers
      ensures u in sys.cfg && u in sys.start && LocalInv(sys.cfg[u], sys.start[u], w.provers[u])
    {
      assert w.provers[u] == FreshProver(sys.start[u]);
    }
  }

  lemma InitRecords(sys: System, w: World)
    requires ValidSystem(sys) && Init(sys, w)
    ensures RecordsInv(sys, w)
  {
    forall h: Holder
      ensures Held(sys, w, h) == multiset{}
    {
    }
  }

  lemma InitInv(sys: System, w: World)
    requires ValidSystem(sys) && Init(sys, w)
    ensures Inv(sys, w)
  {
    InitHandshake(sys, w);
    InitRecords(sys, w);
  }

  /** Consuming a message keeps every other fact; replacing an update by its diverted copy, too. */
  lemma NetEdit(sys: System, w: World, w': World, k: nat)
    requires HandshakeInv(sys, w) && InFlight(w, k)
    requires w'.provers == w.provers && w'.grants == w.grants && w'.links == w.links
    requires |w'.net| == |w.net| && forall j :: 0 <= j < |w.net| && j != k ==> w'.net[j] == w.net[j]
    requires w'.net[k].None? || (w'.net[k].value.msg.UpdateReq? && EnvOk(sys, w, w'.net[k].value))
    ensures HandshakeInv(sys, w')
  {
    EditNet(sys, w, w', k);
    EditPairs(sys, w, w', k);
    EditParents(sys, w, w');
    EditLinks(sys, w, w');
    EditGrants(sys, w, w');
  }

  lemma SameEnvOk(sys: System, w: World, w': World, e: Envelope)
    requires w'.provers == w.provers && w'.grants == w.grants && w'.links == w.links
    ensures EnvOk(sys, w, e) ==> EnvOk(sys, w', e)
  {
  }

  lemma EditNet(sys: System, w: World, w': World, k: nat)
    requires NetInv(sys, w) && InFlight(w, k)
    requires w'.provers == w.provers && w'.grants == w.grants && w'.links == w.links
    requires |w'.net| == |w.net| && forall j :: 0 <= j < |w.net| && j != k ==> w'.net[j] == w.net[j]
    requires w'.net[k].None? || EnvOk(sys, w, w'.net[k].value)
    ensures NetInv(sys, w')
  {
    forall j: nat | InFlight(w', j)
      ensures EnvOk(sys, w', w'.net[j].value)
    {
      if j != k {
        assert InFlight(w, j);
      }
      SameEnvOk(sys, w, w', w'.net[j].value);
    }
  }

  lemma EditPairs(sys: System, w: World, w': World, k: nat)
    requires OneMessagePerPair(w) && InFlight(w, k)
    requires |w'.net| == |w.net| && forall j :: 0 <= j < |w.net| && j != k ==> w'.net[j] == w.net[j]
    requires w'.net[k].None? || w'.net[k].value.msg.UpdateReq?
    ensures OneMessagePerPair(w')
  {
    forall i: nat, j: nat | InFlight(w', i) && InFlight(w', j) && SamePair(w'.net[i].value, w'.net[j].value)
      ensures i == j
    {
      assert i != k && j != k;
      assert InFlight(w, i) && InFlight(w, j);
    }
  }

  lemma EditParents(sys: System, w: World, w': World)
    requires ParentsInv(sys, w) && w'.provers == w.provers && w'.links == w.links
    ensures ParentsInv(sys, w')
  {
    forall u | u in w'.provers ensures ParentOk(sys, w', u) { assert ParentOk(sys, w, u); }
  }

  lemma SameLinkOk(sys: System, w: World, w': World, u: Uid)
    requires w'.provers == w.provers && w'.grants == w.grants && w'.links == w.links && u in w.links
    ensures LinkOk(sys, w, u) ==> LinkOk(sys, w', u)
  {
  }

  lemma EditLinks(sys: System, w: World, w': World)
    requires LinksInv(sys, w) && w'.provers == w.provers && w'.grants == w.grants && w'.links == w.links
    ensures LinksInv(sys, w')
  {
    forall u | u in w'.links ensures LinkOk(sys, w', u) { SameLinkOk(sys, w, w', u); }
  }

  lemma EditGrants(sys: System, w: World, w': World)
    requires GrantsInv(sys, w) && w'.provers == w.provers && w'.grants == w.grants
    ensures GrantsInv(sys, w')
  {
    forall g | g in w'.grants ensures GrantOk(sys, w', g) { assert GrantOk(sys, w, g); }
  }

  /** What losing, diverting or collecting message k leaves behind. */
  lemma OtherNet(sys: System, w: World, ev: Event)
    requires Enabled(sys, w, ev) && Actor(w, ev).None? && EnvOk(sys, w, w.net[ev.k].value)
    ensures var w', k := Step(sys, w, ev), ev.k;
            && w'.provers == w.provers && w'.grants == w.grants && w'.links == w.links
            && |w'.net| == |w.net| && (forall j :: 0 <= j < |w.net| && j != k ==> w'.net[j] == w.net[j])
            && (w'.net[k].None? || (w'.net[k].value.msg.UpdateReq? && EnvOk(sys, w, w'.net[k].value)))
            && (ev.Deliver? ==> w'.net[k].None? && w'.collected <= w.collected + RecordsOf(w.net[k].value.msg))
            && (!ev.Deliver? ==> w'.collected == w.collected)
            && (w'.net[k].Some? ==> RecordsOf(w'.net[k].value.msg) == RecordsOf(w.net[k].value.msg))
  {
  }

  /** Losing, diverting or collecting a message. */
  lemma OtherEvents(sys: System, w: World, ev: Event)
    requires ValidSystem(sys) && HandshakeInv(sys, w) && Enabled(sys, w, ev) && Actor(w, ev).None?
    ensures HandshakeInv(sys, Step(sys, w, ev))
  {
    EnvAt(sys, w, ev.k);
    OtherNet(sys, w, ev);
    NetEdit(sys, w, Step(sys, w, ev), ev.k);
  }

  lemma OtherGathers(sys: System, w: World, ev: Event)
    requires Enabled(sys, w, ev) && Actor(w, ev).None? && EnvOk(sys, w, w.net[ev.k].value)
    ensures var w', k := Step(sys, w, ev), ev.k;
            && ReportedStays(sys, w, w')
            && if ev.Deliver? then Gathers(sys, w, w', AtSink, AtSink, InNet(k), multiset{})
               else Gathers(sys, w, w', InNet(k), InNet(k), InNet(|w.net|), multiset{})
  {
    OtherNet(sys, w, ev);
    if ev.Deliver? {
      CollectedGathers(sys, w, Step(sys, w, ev), ev.k);
    } else {
      EditedGathers(sys, w, Step(sys, w, ev), ev.k);
    }
  }

  lemma CollectedGathers(sys: System, w: World, w': World, k: nat)
    requires w'.provers == w.provers && k < |w.net| == |w'.net| && w.net[k].Some? && w'.net[k].None?
    requires forall j :: 0 <= j < |w.net| && j != k ==> w'.net[j] == w.net[j]
    requires w'.collected <= w.collected + RecordsOf(w.net[k].value.msg)
    ensures Gathers(sys, w, w', AtSink, AtSink, InNet(k), multiset{})
  {
    forall h: Holder | h != AtSink && h != InNet(k) ensures Held(sys, w', h) == Held(sys, w, h) {
    }
  }

  lemma EditedGathers(sys: System, w: World, w': World, k: nat)
    requires w'.provers == w.provers && k < |w.net| == |w'.net| && w.net[k].Some? && w'.collected == w.collected
    requires forall j :: 0 <= j < |w.net| && j != k ==> w'.net[j] == w.net[j]
    requires w'.net[k].Some? ==> RecordsOf(w'.net[k].value.msg) == RecordsOf(w.net[k].value.msg)
    ensures Gathers(sys, w, w', InNet(k), InNet(k), InNet(|w.net|), multiset{})
  {
    forall h: Holder | h != InNet(k) ensures Held(sys, w', h) == Held(sys, w, h) {
    }
  }

  lemma OtherRecords(sys: System, w: World, ev: Event)
    requires HandshakeInv(sys, w) && RecordsInv(sys, w) && Enabled(sys, w, ev) && Actor(w, ev).None?
    ensures RecordsInv(sys, Step(sys, w, ev))
  {
    EnvAt(sys, w, ev.k);
    OtherGathers(sys, w, ev);
    if ev.Deliver? {
      GatherKeeps(sys, w, Step(sys, w, ev), AtSink, AtSink, InNet(ev.k), NOID, multiset{});
    } else {
      GatherKeeps(sys, w, Step(sys, w, ev), InNet(ev.k), InNet(ev.k), InNet(|w.net|), NOID, multiset{});
    }
  }

  lemma {:induction false} RecordsCard(uids: seq<nat>, counters: seq<nat>)
    requires |uids| == |counters|
    ensures |Records(uids, counters)| == |uids| - Separators(uids)
  {
    if uids != [] {
      RecordsCard(uids[1..], counters[1..]);
    }
  }

  lemma SumStep(sys: System, w: World, ev: Event)
    requires HandshakeInv(sys, w) && w.sum == |w.collected| && Enabled(sys, w, ev)
    ensures Step(sys, w, ev).sum == |Step(sys, w, ev).collected|
  {
    if ev.Deliver? && w.net[ev.k].value.to.AtCollector? {
      EnvAt(sys, w, ev.k);
      CollectCounts(Consume(w, ev.k), w.net[ev.k].value.msg);
    } else {
      SumStays(sys, w, ev);
    }
  }

  lemma CollectCounts(w: World, m: Message)
    requires w.sum == |w.collected| && (m.UpdateReq? ==> |m.uids| == |m.counters|)
    ensures Collect(w, m).sum == |Collect(w, m).collected|
  {
    if m.UpdateReq? { RecordsCard(m.uids, m.counters); }
  }

  lemma SumStays(sys: System, w: World, ev: Event)
    requires Enabled(sys, w, ev) && !(ev.Deliver? && w.net[ev.k].value.to.AtCollector?)
    ensures Step(sys, w, ev).sum == w.sum && Step(sys, w, ev).collected == w.collected
  {
  }

  lemma StepInv(sys: System, w: World, ev: Event)
    requires ValidSystem(sys) && Inv(sys, w) && Enabled(sys, w, ev)
    ensures Inv(sys, Step(sys, w, ev))
  {
    SumStep(sys, w, ev);
    if Actor(w, ev).Some? {
      GoodEvent(sys, w, ev);
      EventRecords(sys, w, ev);
    } else {
      OtherEvents(sys, w, ev);
      OtherRecords(sys, w, ev);
    }
  }

  // ------------------------------------------------------------ runs

  predicate CanRun(sys: System, w: World, evs: seq<Event>)
    decreases |evs|
  {
    evs == [] || (Enabled(sys, w, evs[0]) && CanRun(sys, Step(sys, w, evs[0]), evs[1..]))
  }

  function Run(sys: System, w: World, evs: seq<Event>): World
    requires CanRun(sys, w, evs)
    decreases |evs|
  {
    if evs == [] then w else Run(sys, Step(sys, w, evs[0]), evs[1..])
  }

  /** w is reached from the start of a round. */
  ghost predicate Reached(sys: System, w0: World, evs: seq<Event>, w: World) {
    ValidSystem(sys) && Init(sys, w0) && CanRun(sys, w0, evs) && w == Run(sys, w0, evs)
  }

  lemma {:induction false} RunInv(sys: System, w: World, evs: seq<Event>)
    requires ValidSystem(sys) && Inv(sys, w) && CanRun(sys, w, evs)
    ensures Inv(sys, Run(sys, w, evs))
    decreases |evs|
  {
    if evs != [] {
      StepInv(sys, w, evs[0]);
      RunInv(sys, Step(sys, w, evs[0]), evs[1..]);
    }
  }

  lemma ReachedInv(sys: System, w0: World, evs: seq<Event>, w: World)
    requires Reached(sys, w0, evs, w)
    ensures Inv(sys, w)
  {
    InitInv(sys, w0);
    RunInv(sys, w0, evs);
  }

  // ------------------------------------------------------------ theorems

  /** In no reachable state does any enabled event raise an alert, dereference a missing session,
      touch an empty proof vector or schedule a pending timer: in particular the "wrong tid",
      "wrong destination", "unexpected state" and "wrong data" branches are dead. */
  lemma NoAlertNoFault(sys: System, w0: World, evs: seq<Event>, w: World, ev: Event)
    requires Reached(sys, w0, evs, w) && Enabled(sys, w, ev) && Actor(w, ev).Some?
    ensures !EffectOf(sys, w, ev).alert && !EffectOf(sys, w, ev).fault
  {
    ReachedInv(sys, w0, evs, w);
    GoodEvent(sys, w, ev);
  }

  /** A path upward along accepted parents. */
  ghost predicate UpwardPath(w: World, path: seq<Uid>) {
    forall i :: 0 <= i < |path| - 1 ==> path[i] in w.links && w.links[path[i]].parent == path[i + 1]
  }

  /** Along a path the depth budget grows by one per hop. */
  lemma {:induction false} DepthAlongPath(sys: System, w: World, path: seq<Uid>, i: nat)
    requires Inv(sys, w) && UpwardPath(w, path) && i + 1 < |path|
    ensures path[0] in w.links && path[i] in w.links
    ensures w.links[path[i]].depth == w.links[path[0]].depth + i
    decreases i
  {
    if i > 0 {
      DepthAlongPath(sys, w, path, i - 1);
      HopDepth(sys, w, path, i);
    }
  }

  lemma HopDepth(sys: System, w: World, path: seq<Uid>, i: nat)
    requires Inv(sys, w) && UpwardPath(w, path) && 0 < i && i + 1 < |path|
    ensures path[i - 1] in w.links && path[i] in w.links && w.links[path[i]].depth == w.links[path[i - 1]].depth + 1
  {
    assert LinkOk(sys, w, path[i - 1]) && LinkOk(sys, w, path[i]);
  }

  /** The parent of the last link of a path stands one level above it. */
  lemma PathDepthBound(sys: System, w: World, path: seq<Uid>)
    requires ValidSystem(sys) && Inv(sys, w) && UpwardPath(w, path)
    ensures |path| <= sys.maxDepth + 1
  {
    if |path| >= 2 {
      var n := |path| - 2;
      DepthAlongPath(sys, w, path, n);
      assert LinkOk(sys, w, path[n]) && LinkOk(sys, w, path[0]);
    }
  }

  /** The accepted parents form a forest no deeper than maxDepth: an upward path never
      returns to a prover it has passed and has at most maxDepth hops. */
  lemma ParentsFormForest(sys: System, w0: World, evs: seq<Event>, w: World, path: seq<Uid>)
    requires Reached(sys, w0, evs, w) && UpwardPath(w, path)
    ensures |path| <= sys.maxDepth + 1
    ensures forall i, j :: 0 <= i < j < |path| ==> path[i] != path[j]
  {
    ReachedInv(sys, w0, evs, w);
    PathDepthBound(sys, w, path);
    forall i, j | 0 <= i < j < |path|
      ensures path[i] != path[j]
    {
      PathNoReturn(sys, w, path, i, j);
    }
  }

  lemma PathNoReturn(sys: System, w: World, path: seq<Uid>, i: nat, j: nat)
    requires ValidSystem(sys) && Inv(sys, w) && UpwardPath(w, path) && i < j < |path|
    ensures path[i] != path[j]
  {
    DepthAlongPath(sys, w, path, i);
    DepthAlongPath(sys, w, path, j - 1);
    assert LinkOk(sys, w, path[j - 1]);
    assert path[j] in w.links ==> LinkOk(sys, w, path[j]);
  }

  lemma PhaseChildren(c: Config, st: Start, p: Prover)
    requires PhaseInv(c, st, p)
    ensures |p.children| <= c.maxChildren + 1 && (NOID in p.children || p.children == map[])
  {
  }

  lemma BoundsAt(sys: System, w: World, u: Uid)
    requires AtOk(sys, w, u) && PhaseInv(sys.cfg[u], sys.start[u], w.provers[u])
    ensures |w.provers[u].children - {NOID}| <= sys.cfg[u].maxChildren
    ensures w.provers[u].session.Some? ==> 1 <= w.provers[u].session.value.depth <= sys.maxDepth
    ensures w.provers[u].offer.Some? ==> 1 <= w.provers[u].offer.value.depth <= sys.maxDepth
  {
    var p := w.provers[u];
    PhaseChildren(sys.cfg[u], sys.start[u], p);
    if NOID in p.children {
      CardRemove(p.children, NOID);
    } else {
      assert |p.children - {NOID}| == 0;
    }
  }

  /** Every committed depth lies in 1..maxDepth, so depth - 1 never wraps, and no prover ever
      has more than maxChildren children on record. */
  lemma DepthsAndChildrenBounded(sys: System, w0: World, evs: seq<Event>, w: World, u: Uid)
    requires Reached(sys, w0, evs, w) && u in w.provers
    ensures u in sys.cfg
    ensures var p := w.provers[u];
            && (p.session.Some? ==>
                1 <= p.session.value.depth <= sys.maxDepth && Below(p.session.value.depth) == p.session.value.depth - 1)
            && (p.offer.Some? ==> 1 <= p.offer.value.depth <= sys.maxDepth)
            && |p.children - {NOID}| <= sys.cfg[u].maxChildren
  {
    ReachedInv(sys, w0, evs, w);
    At(sys, w, u);
    BoundsAt(sys, w, u);
  }

  ghost predicate Agrees(sys: System, w: World, u: Uid)
    requires u in w.provers && w.provers[u].session.Some?
  {
    var p := w.provers[u];
    var s := p.session.value;
    && p.parent in w.provers && SharedKey(sys, u, p.parent, s.key)
    && (p.parent, u) in w.grants && w.grants[(p.parent, u)] == Grant(s.key, s.tree)
    && (u in w.provers[p.parent].children ==>
          w.provers[p.parent].children[u].key == s.key && w.provers[p.parent].children[u].tree == s.tree)
    && (w.provers[p.parent].session.Some? ==> w.provers[p.parent].session.value.tree == s.tree)
  }

  lemma AgreesAt(sys: System, w: World, u: Uid)
    requires AtOk(sys, w, u) && w.provers[u].parent != NOID && w.provers[u].session.Some?
             && w.provers[u].session.value.valid
    requires var q := w.provers[u].parent;
             AtOk(sys, w, q) && LocalInv(sys.cfg[q], sys.start[q], w.provers[q])
    ensures Agrees(sys, w, u)
  {
    var q := w.provers[u].parent;
    if w.provers[q].session.Some? {
      OfferedPhase(sys.cfg[q], sys.start[q], w.provers[q]);
    }
  }

  /** When a child's session is valid, its parent recorded it under the same key, held by both,
      and in the same tree; as long as the parent keeps the record, it says so. */
  lemma SessionAgreement(sys: System, w0: World, evs: seq<Event>, w: World, u: Uid)
    requires Reached(sys, w0, evs, w) && u in w.provers && w.provers[u].parent != NOID
    requires w.provers[u].session.Some? && w.provers[u].session.value.valid
    ensures Agrees(sys, w, u)
  {
    ReachedInv(sys, w0, evs, w);
    At(sys, w, u);
    At(sys, w, w.provers[u].parent);
    AgreesAt(sys, w, u);
  }

  lemma OfferedPhase(c: Config, st: Start, p: Prover)
    requires PhaseInv(c, st, p) && p.offer.Some? && p.session.Some?
    ensures p.session.value.tree == p.offer.value.tree
  {
  }

  /** Each prover reports at most once per round. */
  lemma OneReportPerRound(sys: System, w0: World, evs: seq<Event>, w: World, u: Uid)
    requires Reached(sys, w0, evs, w) && u in w.provers
    ensures u in sys.start && sys.start[u].count <= w.provers[u].count <= sys.start[u].count + 1
  {
    ReachedInv(sys, w0, evs, w);
    At(sys, w, u);
    CountBound(sys.cfg[u], sys.start[u], w.provers[u]);
  }

  /** A record is held in one place only, once, and is the true record of a prover that reported. */
  lemma RecordsAreUnique(sys: System, w0: World, evs: seq<Event>, w: World, h: Holder, g: Holder, d: (Uid, nat))
    requires Reached(sys, w0, evs, w) && d in Held(sys, w, h)
    ensures Held(sys, w, h)[d] == 1 && (d in Held(sys, w, g) ==> g == h)
    ensures d.0 in w.provers && d.0 in sys.start && w.provers[d.0].count == d.1 == sys.start[d.0].count + 1
  {
    ReachedInv(sys, w0, evs, w);
    assert GenuineAt(sys, w, h, d);
  }

  /** Distinct records of distinct devices cannot outnumber the devices. */
  lemma {:induction false} CountDevices(m: multiset<(Uid, nat)>, devices: set<Uid>)
    requires forall d :: d in m ==> m[d] == 1 && d.0 in devices
    requires forall d, e :: d in m && e in m && d.0 == e.0 ==> d == e
    ensures |m| <= |devices|
    decreases |m|
  {
    if m != multiset{} {
      var d :| d in m;
      var rest := m - multiset{d};
      forall e | e in rest
        ensures rest[e] == 1 && e.0 in devices - {d.0}
      {
        assert e in m && e != d;
      }
      CountDevices(rest, devices - {d.0});
    }
  }

  lemma CollectedOnce(sys: System, w: World)
    requires RecordsInv(sys, w) && w.provers.Keys == sys.cfg.Keys
    ensures |w.collected| <= |sys.cfg.Keys|
    ensures forall d: (Uid, nat), e: (Uid, nat) :: d in w.collected && e in w.collected && d.0 == e.0 ==>
              d == e && w.collected[d] == 1
  {
    forall d: (Uid, nat) | d in w.collected
      ensures w.collected[d] == 1 && d.0 in sys.cfg.Keys && d.0 in sys.start && d.1 == sys.start[d.0].count + 1
    {
      assert d in Held(sys, w, AtSink);
      assert GenuineAt(sys, w, AtSink, d);
    }
    CountDevices(w.collected, sys.cfg.Keys);
  }

  /** The collector's sum is the number of provers it has heard of, each counted once. */
  lemma CollectorCountsOnce(sys: System, w0: World, evs: seq<Event>, w: World)
    requires Reached(sys, w0, evs, w)
    ensures w.sum == |w.collected| <= |sys.cfg.Keys|
    ensures forall d: (Uid, nat), e: (Uid, nat) :: d in w.collected && e in w.collected && d.0 == e.0 ==>
              d == e && w.collected[d] == 1
  {
    ReachedInv(sys, w0, evs, w);
    CollectedOnce(sys, w);
  }
}
