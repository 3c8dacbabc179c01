/** No step duplicates, forges or re-labels a report record. */
module FadiaRecords {
  import opened Wrappers
  import opened FadiaReport
  import opened FadiaProver
  import opened FadiaRound
  import opened FadiaLocal
  import opened FadiaFrame
  import opened FadiaHandshake

  ghost predicate ReportedStays(sys: System, w: World, w': World) {
    forall u :: Reported(sys, w, u) ==> Reported(sys, w', u)
  }

  /** own is no record, or the first record of a prover that reports in this step. */
  ghost predicate OwnRecord(sys: System, w: World, w': World, u: Uid, own: multiset<(Uid, nat)>) {
    || own == multiset{}
    || (!Reported(sys, w, u) && Reported(sys, w', u) && own == multiset{(u, sys.start[u].count + 1)})
  }

  /** Everything a and b hold moves to dst, with at most one new record; the rest can only shrink. */
  ghost predicate Gathers(sys: System, w: World, w': World, dst: Holder, a: Holder, b: Holder,
                          own: multiset<(Uid, nat)>) {
    && a != b
    && Held(sys, w', dst) <= Held(sys, w, a) + Held(sys, w, b) + own
    && (a != dst ==> Held(sys, w', a) == multiset{})
    && (b != dst ==> Held(sys, w', b) == multiset{})
    && (forall h :: h != dst && h != a && h != b ==> Held(sys, w', h) <= Held(sys, w, h))
  }

  /** Where a record of w' was in w, unless it is new. */
  lemma CameFrom(sys: System, w: World, w': World, dst: Holder, a: Holder, b: Holder, own: multiset<(Uid, nat)>,
                 h: Holder, d: (Uid, nat))
    requires Gathers(sys, w, w', dst, a, b, own) && d in Held(sys, w', h)
    ensures h == dst ==> d in Held(sys, w, a) || d in Held(sys, w, b) || d in own
    ensures h != dst ==> h != a && h != b && d in Held(sys, w, h)
  {
  }

  /** The two sources and the new record hold d at most once together. */
  lemma OneSource(sys: System, w: World, w': World, a: Holder, b: Holder, u: Uid, own: multiset<(Uid, nat)>,
                  d: (Uid, nat))
    requires RecordsInv(sys, w) && ReportedStays(sys, w, w') && OwnRecord(sys, w, w', u, own) && a != b
    requires d in Held(sys, w, a) || d in Held(sys, w, b) || d in own
    ensures Held(sys, w, a)[d] + Held(sys, w, b)[d] + own[d] <= 1
    ensures Reported(sys, w', d.0) && d.1 == sys.start[d.0].count + 1
  {
    if d in Held(sys, w, a) {
      assert GenuineAt(sys, w, a, d);
    } else if d in Held(sys, w, b) {
      assert GenuineAt(sys, w, b, d);
    }
  }

  /** One holder after the step. */
  lemma GatherOne(sys: System, w: World, w': World, dst: Holder, a: Holder, b: Holder,
                  u: Uid, own: multiset<(Uid, nat)>, h: Holder, d: (Uid, nat))
    requires RecordsInv(sys, w) && ReportedStays(sys, w, w') && OwnRecord(sys, w, w', u, own)
    requires Gathers(sys, w, w', dst, a, b, own) && d in Held(sys, w', h)
    ensures GenuineAt(sys, w', h, d)
  {
    CameFrom(sys, w, w', dst, a, b, own, h, d);
    if h == dst {
      OneSource(sys, w, w', a, b, u, own, d);
      assert Held(sys, w', h)[d] <= Held(sys, w, a)[d] + Held(sys, w, b)[d] + own[d];
    } else {
      assert Held(sys, w', h)[d] <= Held(sys, w, h)[d];
      assert GenuineAt(sys, w, h, d);
    }
  }

  lemma GatherApart(sys: System, w: World, w': World, dst: Holder, a: Holder, b: Holder,
                    u: Uid, own: multiset<(Uid, nat)>, h: Holder, g: Holder, d: (Uid, nat))
    requires RecordsInv(sys, w) && OwnRecord(sys, w, w', u, own)
    requires Gathers(sys, w, w', dst, a, b, own) && d in Held(sys, w', h) && d in Held(sys, w', g)
    ensures h == g
  {
    CameFrom(sys, w, w', dst, a, b, own, h, d);
    CameFrom(sys, w, w', dst, a, b, own, g, d);
    if h == dst && g != dst {
      StayedApart(sys, w, w', a, b, u, own, g, d);
    } else if h != dst && g == dst {
      StayedApart(sys, w, w', a, b, u, own, h, d);
    }
  }

  /** A record that stayed in g cannot have come from elsewhere as well. */
  lemma StayedApart(sys: System, w: World, w': World, a: Holder, b: Holder, u: Uid, own: multiset<(Uid, nat)>,
                    g: Holder, d: (Uid, nat))
    requires RecordsInv(sys, w) && OwnRecord(sys, w, w', u, own)
    requires g != a && g != b && d in Held(sys, w, g)
    ensures d !in Held(sys, w, a) && d !in Held(sys, w, b) && d !in own
  {
    assert GenuineAt(sys, w, g, d);
  }

  lemma GatherGenuine(sys: System, w: World, w': World, dst: Holder, a: Holder, b: Holder, u: Uid,
                      own: multiset<(Uid, nat)>)
    requires RecordsInv(sys, w) && ReportedStays(sys, w, w') && OwnRecord(sys, w, w', u, own)
    requires Gathers(sys, w, w', dst, a, b, own)
    ensures Genuine(sys, w')
  {
    forall h: Holder, d: (Uid, nat) | d in Held(sys, w', h)
      ensures GenuineAt(sys, w', h, d)
    {
      GatherOne(sys, w, w', dst, a, b, u, own, h, d);
    }
  }

  lemma GatherKeepsApart(sys: System, w: World, w': World, dst: Holder, a: Holder, b: Holder, u: Uid,
                         own: multiset<(Uid, nat)>)
    requires RecordsInv(sys, w) && OwnRecord(sys, w, w', u, own)
    requires Gathers(sys, w, w', dst, a, b, own)
    ensures Apart(sys, w')
  {
    forall h: Holder, g: Holder, d: (Uid, nat) | d in Held(sys, w', h) && d in Held(sys, w', g)
      ensures h == g
    {
      GatherApart(sys, w, w', dst, a, b, u, own, h, g, d);
    }
  }

  lemma GatherKeeps(sys: System, w: World, w': World, dst: Holder, a: Holder, b: Holder, u: Uid,
                    own: multiset<(Uid, nat)>)
    requires RecordsInv(sys, w) && ReportedStays(sys, w, w') && OwnRecord(sys, w, w', u, own)
    requires Gathers(sys, w, w', dst, a, b, own)
    ensures RecordsInv(sys, w')
  {
    GatherGenuine(sys, w, w', dst, a, b, u, own);
    GatherKeepsApart(sys, w, w', dst, a, b, u, own);
  }

  // ------------------------------------------------------------ what an effect does to the holders

  /** The records of the consumed message. */
  ghost function GoneRecords(w: World, gone: Option<nat>): multiset<(Uid, nat)> {
    if gone.Some? && InFlight(w, gone.value) then RecordsOf(w.net[gone.value].value.msg) else multiset{}
  }

  function ReportRecords(p: Prover): multiset<(Uid, nat)> {
    if |p.report.uids| == |p.report.counters| then Records(p.report.uids, p.report.counters) else multiset{}
  }

  /** Messages sent by e carry no records. */
  ghost predicate NoUpdates(e: Effect) {
    forall i :: 0 <= i < |e.out| ==> !e.out[i].msg.UpdateReq?
  }

  /** Report and counter untouched, nothing but commit messages sent. */
  ghost predicate Untouched(p: Prover, e: Effect) {
    e.p.report == p.report && e.p.count == p.count && NoUpdates(e)
  }

  /** The consumed message's records join the report; nothing is sent. */
  ghost predicate Absorbs(w: World, p: Prover, e: Effect, gone: Option<nat>) {
    && e.p.count == p.count && e.out == []
    && ReportRecords(e.p) == ReportRecords(p) + GoneRecords(w, gone)
  }

  /** One message goes out with the report's records, those of the consumed message and the own one. */
  ghost predicate Emits(sys: System, w: World, u: Uid, e: Effect, gone: Option<nat>)
    requires u in w.provers && u in sys.start
  {
    && w.provers[u].count == sys.start[u].count && e.p.count == sys.start[u].count + 1
    && |e.out| == 1
    && RecordsOf(e.out[0].msg)
       == ReportRecords(w.provers[u]) + GoneRecords(w, gone) + multiset{(u, sys.start[u].count + 1)}
  }

  /** The consumed update goes on to the collector. */
  ghost predicate Forwards(w: World, p: Prover, e: Effect, gone: Option<nat>) {
    gone.Some? && e.p == p && |e.out| == 1 && RecordsOf(e.out[0].msg) == GoneRecords(w, gone)
  }

  /** No record gets lost. */
  ghost predicate Kept(sys: System, w: World, u: Uid, e: Effect, gone: Option<nat>) {
    && u in w.provers && u in sys.start
    && (|| (Untouched(w.provers[u], e) && GoneRecords(w, gone) == multiset{})
        || (Absorbs(w, w.provers[u], e, gone) && w.provers[u].count == sys.start[u].count)
        || Emits(sys, w, u, e, gone) || Forwards(w, w.provers[u], e, gone))
  }

  ghost predicate Accounted(sys: System, w: World, u: Uid, e: Effect, gone: Option<nat>) {
    && u in w.provers && u in sys.start
    && (|| Untouched(w.provers[u], e)
        || (Absorbs(w, w.provers[u], e, gone) && w.provers[u].count == sys.start[u].count)
        || Emits(sys, w, u, e, gone) || Forwards(w, w.provers[u], e, gone))
  }

  lemma HeldAfter(sys: System, w: World, u: Uid, e: Effect, gone: Option<nat>,
                  g: map<(Uid, Uid), Grant>, l: map<Uid, Link>, h: Holder)
    requires u in w.provers && u in sys.start
    ensures var w' := After(w, u, e, gone, g, l);
            Held(sys, w', h) ==
              match h
              case InNet(j) =>
                if j < |w.net| then (if gone == Some(j) then multiset{} else Held(sys, w, h))
                else if j < |w.net| + |e.out| then RecordsOf(e.out[j - |w.net|].msg) else multiset{}
              case InReport(v) =>
                if v != u then Held(sys, w, h)
                else if e.p.count == sys.start[u].count + 1 then multiset{} else ReportRecords(e.p)
              case AtSink => Held(sys, w, h)
  {
    AfterNet(w, u, e, gone, g, l);
  }

  lemma HeldBefore(sys: System, w: World, u: Uid, gone: Option<nat>)
    requires u in w.provers && u in sys.start
    ensures gone.Some? ==> Held(sys, w, InNet(gone.value)) == GoneRecords(w, gone)
    ensures w.provers[u].count != sys.start[u].count + 1 ==> Held(sys, w, InReport(u)) == ReportRecords(w.provers[u])
    ensures w.provers[u].count == sys.start[u].count + 1 ==> Held(sys, w, InReport(u)) == multiset{}
    ensures forall j: nat :: j >= |w.net| ==> Held(sys, w, InNet(j)) == multiset{}
  {
  }

  lemma StaysReported(sys: System, w: World, u: Uid, e: Effect, gone: Option<nat>, g: map<(Uid, Uid), Grant>,
                      l: map<Uid, Link>)
    requires u in w.provers && u in sys.start
    requires w.provers[u].count == sys.start[u].count + 1 ==> e.p.count == sys.start[u].count + 1
    ensures ReportedStays(sys, w, After(w, u, e, gone, g, l))
  {
  }

  /** A holder that never holds anything here. */
  function Nowhere(w: World, e: Effect): Holder {
    InNet(|w.net| + |e.out|)
  }

  function Source(w: World, e: Effect, gone: Option<nat>): Holder {
    if gone.Some? then InNet(gone.value) else Nowhere(w, e)
  }

  /** Holders the step does not name keep what they have. */
  lemma OthersKeep(sys: System, w: World, u: Uid, e: Effect, gone: Option<nat>, g: map<(Uid, Uid), Grant>,
                   l: map<Uid, Link>, dst: Holder)
    requires u in w.provers && u in sys.start
    requires dst == InNet(|w.net|) || (forall i :: 0 <= i < |e.out| ==> RecordsOf(e.out[i].msg) == multiset{})
    requires dst == InNet(|w.net|) ==> |e.out| <= 1
    ensures var w' := After(w, u, e, gone, g, l);
            forall h :: h != dst && h != InReport(u) && h != Source(w, e, gone) ==> Held(sys, w', h) <= Held(sys, w, h)
  {
    var w' := After(w, u, e, gone, g, l);
    forall h | h != dst && h != InReport(u) && h != Source(w, e, gone)
      ensures Held(sys, w', h) <= Held(sys, w, h)
    {
      HeldAfter(sys, w, u, e, gone, g, l, h);
    }
  }

  lemma JoinRecords(sys: System, w: World, u: Uid, e: Effect, gone: Option<nat>, g: map<(Uid, Uid), Grant>,
                    l: map<Uid, Link>)
    requires u in w.provers && u in sys.start && RecordsInv(sys, w) && (gone.Some? ==> InFlight(w, gone.value))
    requires Untouched(w.provers[u], e) || Absorbs(w, w.provers[u], e, gone)
    ensures RecordsInv(sys, After(w, u, e, gone, g, l))
  {
    var b := Source(w, e, gone);
    JoinGathers(sys, w, u, e, gone, g, l);
    GatherKeeps(sys, w, After(w, u, e, gone, g, l), InReport(u), InReport(u), b, u, multiset{});
  }

  lemma JoinGathers(sys: System, w: World, u: Uid, e: Effect, gone: Option<nat>,
                    g: map<(Uid, Uid), Grant>, l: map<Uid, Link>)
    requires u in w.provers && u in sys.start && (gone.Some? ==> InFlight(w, gone.value))
    requires Untouched(w.provers[u], e) || Absorbs(w, w.provers[u], e, gone)
    ensures var w' := After(w, u, e, gone, g, l);
            && ReportedStays(sys, w, w')
            && Gathers(sys, w, w', InReport(u), InReport(u), Source(w, e, gone), multiset{})
  {
    HeldBefore(sys, w, u, gone);
    StaysReported(sys, w, u, e, gone, g, l);
    OthersKeep(sys, w, u, e, gone, g, l, InReport(u));
    HeldAfter(sys, w, u, e, gone, g, l, Source(w, e, gone));
    HeldAfter(sys, w, u, e, gone, g, l, InReport(u));
  }

  lemma EmitGathers(sys: System, w: World, u: Uid, e: Effect, gone: Option<nat>, g: map<(Uid, Uid), Grant>,
                    l: map<Uid, Link>)
    requires u in w.provers && u in sys.start && (gone.Some? ==> InFlight(w, gone.value))
    requires Emits(sys, w, u, e, gone)
    ensures var w', own := After(w, u, e, gone, g, l), multiset{(u, sys.start[u].count + 1)};
            Gathers(sys, w, w', InNet(|w.net|), InReport(u), Source(w, e, gone), own)
  {
    var b := Source(w, e, gone);
    var dst := InNet(|w.net|);
    HeldBefore(sys, w, u, gone);
    OthersKeep(sys, w, u, e, gone, g, l, dst);
    HeldAfter(sys, w, u, e, gone, g, l, b);
    HeldAfter(sys, w, u, e, gone, g, l, dst);
    HeldAfter(sys, w, u, e, gone, g, l, InReport(u));
  }

  lemma EmitOwn(sys: System, w: World, u: Uid, e: Effect, gone: Option<nat>, g: map<(Uid, Uid), Grant>,
                l: map<Uid, Link>)
    requires u in w.provers && u in sys.start && (gone.Some? ==> InFlight(w, gone.value))
    requires Emits(sys, w, u, e, gone)
    ensures var w', own := After(w, u, e, gone, g, l), multiset{(u, sys.start[u].count + 1)};
            OwnRecord(sys, w, w', u, own) && ReportedStays(sys, w, w')
  {
    StaysReported(sys, w, u, e, gone, g, l);
  }

  lemma EmitRecords(sys: System, w: World, u: Uid, e: Effect, gone: Option<nat>, g: map<(Uid, Uid), Grant>,
                    l: map<Uid, Link>)
    requires u in w.provers && u in sys.start && RecordsInv(sys, w) && (gone.Some? ==> InFlight(w, gone.value))
    requires Emits(sys, w, u, e, gone)
    ensures RecordsInv(sys, After(w, u, e, gone, g, l))
  {
    var b := Source(w, e, gone);
    var dst := InNet(|w.net|);
    EmitGathers(sys, w, u, e, gone, g, l);
    EmitOwn(sys, w, u, e, gone, g, l);
    GatherKeeps(sys, w, After(w, u, e, gone, g, l), dst, InReport(u), b, u, multiset{(u, sys.start[u].count + 1)});
  }

  lemma ForwardRecords(sys: System, w: World, u: Uid, e: Effect, k: nat, g: map<(Uid, Uid), Grant>, l: map<Uid, Link>)
    requires u in w.provers && u in sys.start && RecordsInv(sys, w) && InFlight(w, k)
    requires Forwards(w, w.provers[u], e, Some(k))
    ensures RecordsInv(sys, After(w, u, e, Some(k), g, l))
  {
    var w' := After(w, u, e, Some(k), g, l);
    ForwardGathers(sys, w, u, e, k, g, l);
    GatherKeeps(sys, w, w', InNet(|w.net|), InNet(k), Nowhere(w, e), u, multiset{});
  }

  lemma ForwardGathers(sys: System, w: World, u: Uid, e: Effect, k: nat, g: map<(Uid, Uid), Grant>, l: map<Uid, Link>)
    requires u in w.provers && u in sys.start && InFlight(w, k)
    requires Forwards(w, w.provers[u], e, Some(k))
    ensures var w' := After(w, u, e, Some(k), g, l);
            && ReportedStays(sys, w, w')
            && Gathers(sys, w, w', InNet(|w.net|), InNet(k), Nowhere(w, e), multiset{})
  {
    var w' := After(w, u, e, Some(k), g, l);
    var dst, none := InNet(|w.net|), Nowhere(w, e);
    HeldBefore(sys, w, u, Some(k));
    StaysReported(sys, w, u, e, Some(k), g, l);
    forall h | h != dst && h != InNet(k) && h != none
      ensures Held(sys, w', h) <= Held(sys, w, h)
    {
      HeldAfter(sys, w, u, e, Some(k), g, l, h);
    }
    HeldAfter(sys, w, u, e, Some(k), g, l, InNet(k));
    HeldAfter(sys, w, u, e, Some(k), g, l, dst);
    HeldAfter(sys, w, u, e, Some(k), g, l, none);
  }

  lemma AccountedKeeps(sys: System, w: World, u: Uid, e: Effect, gone: Option<nat>, g: map<(Uid, Uid), Grant>,
                       l: map<Uid, Link>)
    requires RecordsInv(sys, w) && Accounted(sys, w, u, e, gone) && (gone.Some? ==> InFlight(w, gone.value))
    ensures RecordsInv(sys, After(w, u, e, gone, g, l))
  {
    if Untouched(w.provers[u], e) || Absorbs(w, w.provers[u], e, gone) {
      JoinRecords(sys, w, u, e, gone, g, l);
    } else if Emits(sys, w, u, e, gone) {
      EmitRecords(sys, w, u, e, gone, g, l);
    } else {
      ForwardRecords(sys, w, u, e, gone.value, g, l);
    }
  }

  // ------------------------------------------------------------ every event is accounted for

  lemma ReportsEmit(sys: System, w: World, u: Uid, q: Prover, e: Effect, tid: TreeId, gone: Option<nat>)
    requires AtOk(sys, w, u) && w.provers[u].count == sys.start[u].count
    requires Reports(sys.cfg[u], sys.start[u], q, e, tid)
    requires ReportRecords(q) == ReportRecords(w.provers[u]) + GoneRecords(w, gone)
    ensures Accounted(sys, w, u, e, gone)
  {
    assert Emits(sys, w, u, e, gone);
  }

  /** The same where the consumed message, if there is one, carries no records. */
  lemma OwnReportEmits(sys: System, w: World, u: Uid, q: Prover, e: Effect, tid: TreeId, gone: Option<nat>)
    requires AtOk(sys, w, u) && w.provers[u].count == sys.start[u].count && q.report == w.provers[u].report
    requires Reports(sys.cfg[u], sys.start[u], q, e, tid)
    requires gone.Some? && InFlight(w, gone.value) ==> !w.net[gone.value].value.msg.UpdateReq?
    ensures Accounted(sys, w, u, e, gone)
  {
    if gone.Some? && InFlight(w, gone.value) { OnlyUpdatesCarry(w.net[gone.value].value.msg); }
    assert GoneRecords(w, gone) == multiset{};
    ReportsEmit(sys, w, u, q, e, tid, gone);
  }

  lemma OnlyUpdatesCarry(m: Message)
    requires !m.UpdateReq?
    ensures RecordsOf(m) == multiset{}
  {
  }

  lemma OffersUntouched(c: Config, p: Prover, q: Prover, e: Effect, depth: nat, tree: TreeId, env: Env)
    requires Offers(c, q, e, depth, tree, env) && q.report == p.report && q.count == p.count
    ensures Untouched(p, e)
  {
  }

  lemma TreeTimerAccounted(sys: System, w: World, u: Uid, env: Env)
    requires AtOk(sys, w, u) && LocalInv(sys.cfg[u], sys.start[u], w.provers[u])
    requires w.provers[u].treeTimer && !w.provers[u].checkTimer
    ensures Accounted(sys, w, u, OnTreeTimer(sys.cfg[u], w.provers[u], env), None)
  {
    var c, p := sys.cfg[u], w.provers[u];
    TreeTimerLocal(c, sys.start[u], p, env);
    var e := OnTreeTimer(c, p, env);
    var r := p.(treeTimer := false, session := Some(RootSession(c, env.freshTree)));
    if p.status != Attesting {
      if c.maxChildren == 0 {
        OwnReportEmits(sys, w, u, r, e, env.freshTree, None);
      } else {
        OffersUntouched(c, p, r, e, c.maxDepth, env.freshTree, env);
      }
    }
  }

  lemma AckTimeoutAccounted(sys: System, w: World, u: Uid, env: Env)
    requires AtOk(sys, w, u) && LocalInv(sys.cfg[u], sys.start[u], w.provers[u]) && w.provers[u].ackTimer.Some?
    ensures Accounted(sys, w, u, OnAckTimeout(sys.cfg[u], w.provers[u], env), None)
  {
    var c, p := sys.cfg[u], w.provers[u];
    AckTimeoutLocal(c, sys.start[u], p, env);
    var e := OnAckTimeout(c, p, env);
    var r := p.(ackTimer := None, parent := NOID, session := Some(RootSession(c, env.freshTree)));
    if p.status != Attesting {
      if c.maxChildren == 0 {
        OwnReportEmits(sys, w, u, r, e, env.freshTree, None);
      } else {
        OffersUntouched(c, p, r, e, c.maxDepth, env.freshTree, env);
      }
    }
  }

  lemma RespTimeoutAccounted(sys: System, w: World, u: Uid)
    requires AtOk(sys, w, u) && LocalInv(sys.cfg[u], sys.start[u], w.provers[u]) && w.provers[u].respTimer.Some?
    ensures Accounted(sys, w, u, OnRespTimeout(sys.cfg[u], w.provers[u]), None)
  {
    var c, p := sys.cfg[u], w.provers[u];
    RespTimeoutLocal(c, sys.start[u], p);
    var q := p.(respTimer := None, status := Collecting);
    if OnRespTimeout(c, p) != Quiet(q) {
      OwnReportEmits(sys, w, u, q, OnRespTimeout(c, p), p.session.value.tree, None);
    }
  }

  lemma UpdateTimeoutAccounted(sys: System, w: World, u: Uid, dev: Uid)
    requires AtOk(sys, w, u) && LocalInv(sys.cfg[u], sys.start[u], w.provers[u]) && dev in w.provers[u].upTimers
    ensures Accounted(sys, w, u, OnUpdateTimeout(sys.cfg[u], w.provers[u], dev), None)
  {
    var c, p := sys.cfg[u], w.provers[u];
    UpdateTimeoutLocal(c, sys.start[u], p, dev);
    var q := p.(upTimers := p.upTimers - {dev}, children := p.children - {dev});
    if OnUpdateTimeout(c, p, dev) != Quiet(q) {
      OwnReportEmits(sys, w, u, q, OnUpdateTimeout(c, p, dev), p.session.value.tree, None);
    }
  }

  lemma AckAccounted(sys: System, w: World, u: Uid, k: nat, env: Env)
    requires AtOk(sys, w, u) && LocalInv(sys.cfg[u], sys.start[u], w.provers[u])
    requires InFlight(w, k) && w.net[k].value.msg.CommitAck? && AckOk(sys, w, AtProver(u), w.net[k].value.msg)
    requires GrantOk(sys, w, (w.net[k].value.msg.src, u)) && w.net[k].value.msg.src != NOID
    ensures Accounted(sys, w, u, OnCommitAck(sys.cfg[u], w.provers[u], w.net[k].value.msg, env), Some(k))
  {
    var c, p, m := sys.cfg[u], w.provers[u], w.net[k].value.msg;
    var e := OnCommitAck(c, p, m, env);
    if p.parent == m.src {
      AckFindsWaiting(sys, w, u, m);
      AckAgreement(sys, w, u, m);
      CommitAckLocal(c, sys.start[u], p, m, env);
      if p.session.value.depth == 1 || c.maxChildren == 0 {
        OwnReportEmits(sys, w, u, Acked(p), e, m.tree, Some(k));
      } else {
        OffersUntouched(c, p, Acked(p), e, p.session.value.depth - 1, m.tree, env);
      }
    }
  }

  lemma UpdateAccounted(sys: System, w: World, u: Uid, k: nat)
    requires AtOk(sys, w, u) && LocalInv(sys.cfg[u], sys.start[u], w.provers[u])
    requires InFlight(w, k) && w.net[k].value.msg.UpdateReq? && UpdateOk(sys, w, AtProver(u), w.net[k].value.msg)
    requires w.net[k].value.msg.src != NOID && OfferedTree(w, u, w.net[k].value.msg.tree)
    ensures Accounted(sys, w, u, OnUpdate(sys.cfg[u], w.provers[u], w.net[k].value.msg), Some(k))
    ensures w.provers[u].status == Finished || w.net[k].value.msg.src in w.provers[u].children ==>
              Kept(sys, w, u, OnUpdate(sys.cfg[u], w.provers[u], w.net[k].value.msg), Some(k))
    ensures w.provers[u].status != Finished && w.net[k].value.msg.src !in w.provers[u].children ==>
              OnUpdate(sys.cfg[u], w.provers[u], w.net[k].value.msg) == Quiet(w.provers[u])
  {
    var c, p, m := sys.cfg[u], w.provers[u], w.net[k].value.msg;
    UpdateLocal(c, sys.start[u], p, m);
    var e := OnUpdate(c, p, m);
    if p.status == Finished {
      assert Forwards(w, p, e, Some(k));
    } else if m.src in p.children {
      MergeLocal(c, sys.start[u], p, m);
      var q := Merged(c, p, m);
      assert ReportRecords(q) == ReportRecords(p) + GoneRecords(w, Some(k));
      if e == Quiet(q) {
        assert Absorbs(w, p, e, Some(k));
      } else {
        ReportsEmit(sys, w, u, q, e, m.tree, Some(k));
      }
    }
  }

  lemma CommitAccounted(sys: System, w: World, u: Uid, k: nat)
    requires AtOk(sys, w, u) && InFlight(w, k)
    ensures w.net[k].value.msg.CommitReq? ==>
              Accounted(sys, w, u, OnCommitReq(sys.cfg[u], w.provers[u], w.net[k].value.msg), Some(k))
    ensures w.net[k].value.msg.CommitResp? ==>
              Accounted(sys, w, u, OnCommitResp(sys.cfg[u], w.provers[u], w.net[k].value.msg), Some(k))
  {
    var c, p, m := sys.cfg[u], w.provers[u], w.net[k].value.msg;
    if m.CommitReq? {
      assert Untouched(p, OnCommitReq(c, p, m));
    } else if m.CommitResp? {
      assert Untouched(p, OnCommitResp(c, p, m));
    }
  }

  lemma DeliveryAccounted(sys: System, w: World, u: Uid, k: nat, env: Env)
    requires ValidSystem(sys) && HandshakeInv(sys, w) && u in w.provers && InFlight(w, k)
             && w.net[k].value.to == AtProver(u)
    ensures u in sys.cfg && Accounted(sys, w, u, Receive(sys.cfg[u], w.provers[u], w.net[k].value.msg, env), Some(k))
  {
    var m := w.net[k].value.msg;
    At(sys, w, u);
    EnvAt(sys, w, k);
    match m {
      case CommitReq(_, _, _, _) => CommitAccounted(sys, w, u, k);
      case CommitResp(_, _, _, _) => CommitAccounted(sys, w, u, k);
      case CommitAck(_, _, _) =>
        GrantAt(sys, w, m.src, u);
        AckAccounted(sys, w, u, k, env);
      case UpdateReq(_, _, _, _, _, _, _) =>
        UpdateFindsParent(sys, w, u, m);
        UpdateAccounted(sys, w, u, k);
    }
  }

  lemma EventAccounted(sys: System, w: World, ev: Event)
    requires ValidSystem(sys) && HandshakeInv(sys, w) && Enabled(sys, w, ev) && Actor(w, ev).Some?
    ensures Accounted(sys, w, Actor(w, ev).value, EffectOf(sys, w, ev), Gone(ev))
  {
    if ev.Deliver? {
      var u := Actor(w, ev).value;
      At(sys, w, u);
      DeliveryAccounted(sys, w, u, ev.k, ev.env);
    } else {
      TimerAccounted(sys, w, ev);
    }
  }

  lemma TimerAccounted(sys: System, w: World, ev: Event)
    requires ValidSystem(sys) && HandshakeInv(sys, w) && Enabled(sys, w, ev) && Actor(w, ev).Some? && !ev.Deliver?
    ensures Accounted(sys, w, ev.u, EffectOf(sys, w, ev), None)
  {
    At(sys, w, ev.u);
    if ev.TreeTimer? {
      TreeTimerAccounted(sys, w, ev.u, ev.env);
    } else if ev.AckTimeout? {
      AckTimeoutAccounted(sys, w, ev.u, ev.env);
    } else {
      LaterTimerAccounted(sys, w, ev);
    }
  }

  lemma LaterTimerAccounted(sys: System, w: World, ev: Event)
    requires ValidSystem(sys) && HandshakeInv(sys, w) && Enabled(sys, w, ev)
    requires ev.CheckDone? || ev.RespTimeout? || ev.UpdateTimeout?
    ensures Accounted(sys, w, ev.u, EffectOf(sys, w, ev), None)
  {
    At(sys, w, ev.u);
    match ev {
      case CheckDone(u) => assert Untouched(w.provers[u], OnCheck(w.provers[u]));
      case RespTimeout(u) => RespTimeoutAccounted(sys, w, u);
      case UpdateTimeout(u, dev) => UpdateTimeoutAccounted(sys, w, u, dev);
    }
  }

  lemma EventRecords(sys: System, w: World, ev: Event)
    requires ValidSystem(sys) && HandshakeInv(sys, w) && RecordsInv(sys, w) && Enabled(sys, w, ev) && Actor(w, ev).Some?
    ensures RecordsInv(sys, Step(sys, w, ev))
  {
    EventAccounted(sys, w, ev);
    StepIsAfter(sys, w, ev);
    AccountedKeeps(sys, w, Actor(w, ev).value, EffectOf(sys, w, ev), Gone(ev), GrantsOf(sys, w, ev),
        LinksOf(sys, w, ev));
  }
}
