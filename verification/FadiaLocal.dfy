/** Each handler keeps one prover's own invariant and, under what the network guarantees
    about the message it gets, neither raises an alert nor faults. */
module FadiaLocal {
  import opened Wrappers
  import opened FadiaReport
  import opened FadiaProver
  import opened FadiaRound

  ghost predicate GoodConfig(c: Config) {
    c.aggSize > 0 && c.maxDepth >= 1 && c.uid != NOID
  }

  ghost predicate Clean(e: Effect) {
    !e.alert && !e.fault
  }

  // ------------------------------------------------------------ child maps

  lemma CardRemove<V>(m: map<Uid, V>, x: Uid)
    requires x in m
    ensures |m - {x}| == |m| - 1
    ensures (m - {x}).Keys == m.Keys - {x}
  {
    assert (m - {x}).Keys == m.Keys - {x};
    assert |m| == |m.Keys| && |m - {x}| == |(m - {x}).Keys|;
  }

  lemma CardAdd<V>(m: map<Uid, V>, x: Uid, v: V)
    requires x !in m
    ensures |m[x := v]| == |m| + 1
    ensures m[x := v].Keys == m.Keys + {x}
  {
    assert m[x := v].Keys == m.Keys + {x};
    assert |m| == |m.Keys| && |m[x := v]| == |m[x := v].Keys|;
  }

  lemma OnlyKey<V>(m: map<Uid, V>, x: Uid)
    requires x in m && |m| == 1
    ensures m.Keys == {x} && m - {x} == map[]
  {
    CardRemove(m, x);
    assert |(m - {x}).Keys| == 0;
    assert m.Keys == (m.Keys - {x}) + {x};
    assert (m - {x}).Keys == {};
  }

  lemma MoreThanKey<V>(m: map<Uid, V>, x: Uid)
    requires x in m && |m| != 1
    ensures |m| >= 2
  {
    CardRemove(m, x);
  }

  // ------------------------------------------------------------ sending the report

  /** The prover is about to report: no child is left and all that remains is the placeholder. */
  ghost predicate Reporting(c: Config, st: Start, p: Prover) {
    && GoodConfig(c) && p.session.Some? && p.count == st.count && p.ackTimer.None?
    && !p.checkTimer && !p.treeTimer
    && (p.children - {NOID}) == map[] && p.upTimers == map[]
    && WellFormed(p.report, c.aggSize) && Counted(p.report, st.size, st.sepsize)
  }

  /** e sends p's report: one message to the parent or the collector, with the own record added. */
  ghost predicate Reports(c: Config, st: Start, p: Prover, e: Effect, tid: TreeId) {
    && e.p.status == Finished && Done(st, e.p) && e.p.offer == p.offer && e.p.respTimer == p.respTimer
    && |e.out| == 1 && e.out[0].msg.UpdateReq? && e.out[0].msg.src == c.uid && e.out[0].msg.tree == tid
    && (if p.parent != NOID
        then e.out[0].to == AtProver(p.parent) && e.out[0].msg.kind == ToParent && e.out[0].msg.dst == p.parent
        else e.out[0].to == AtCollector && e.out[0].msg.kind == ToCollector)
    && WellFormed(Report(e.out[0].msg.uids, e.out[0].msg.counters, e.out[0].msg.proofs, 0, 0), c.aggSize)
    && e.out[0].msg.proofs != []
    && |p.report.uids| == |p.report.counters|
    && RecordsOf(e.out[0].msg) == Records(p.report.uids, p.report.counters) + multiset{(c.uid, st.count + 1)}
  }

  lemma SendUpLocal(c: Config, st: Start, p: Prover, tid: TreeId)
    requires Reporting(c, st, p)
    ensures var e := SendUpReq(c, p, tid);
            Clean(e) && LocalInv(c, st, e.p) && Reports(c, st, p, e, tid)
  {
    AddOwnCorrect(p.report, c.uid, p.count + 1, c.aggSize, st.size, st.sepsize);
    SendUpShape(c, p, tid, st);
    SentReport(c, st, p, SendUpReq(c, p, tid), tid);
  }

  /** The message carries the report with the own record. */
  lemma SentReport(c: Config, st: Start, p: Prover, e: Effect, tid: TreeId)
    requires p.count == st.count && c.aggSize > 0 && |p.report.uids| == |p.report.counters|
             && !AddOwnFaults(p.report, c.aggSize)
    requires var r := AddOwn(p.report, c.uid, p.count + 1, c.aggSize);
             && WellFormed(r, c.aggSize) && r.proofs != [] && |r.uids| == |r.counters| && e.p.report == r
             && Records(r.uids, r.counters)
                 == Records(p.report.uids, p.report.counters) + multiset{(c.uid, p.count + 1)}
    requires e.p.status == Finished && Done(st, e.p) && e.p.offer == p.offer && e.p.respTimer == p.respTimer
    requires var r := e.p.report;
             e.out == [if p.parent != NOID
                       then Envelope(AtProver(p.parent),
                           UpdateReq(ToParent, c.uid, p.parent, r.uids, r.counters, r.proofs, tid))
                       else Envelope(AtCollector,
                           UpdateReq(ToCollector, c.uid, COLLECTOR_ID, r.uids, r.counters, r.proofs, tid))]
    ensures Reports(c, st, p, e, tid)
  {
  }

  lemma SendUpShape(c: Config, p: Prover, tid: TreeId, st: Start)
    requires Reporting(c, st, p) && !AddOwnFaults(p.report, c.aggSize)
    ensures var e := SendUpReq(c, p, tid);
            && Clean(e) && e.p.status == Finished && PhaseInv(c, st, e.p) && Done(st, e.p)
            && e.p.report == AddOwn(p.report, c.uid, p.count + 1, c.aggSize)
            && e.p.offer == p.offer && e.p.respTimer == p.respTimer
            && var r := e.p.report;
               e.out == [if p.parent != NOID
                         then Envelope(AtProver(p.parent),
                             UpdateReq(ToParent, c.uid, p.parent, r.uids, r.counters, r.proofs, tid))
                         else Envelope(AtCollector,
                             UpdateReq(ToCollector, c.uid, COLLECTOR_ID, r.uids, r.counters, r.proofs, tid))]
  {
  }

  // ------------------------------------------------------------ offering a place

  /** e makes p's offer: the broadcast and the phase change, and nothing else. */
  ghost predicate Offers(c: Config, p: Prover, e: Effect, depth: nat, tree: TreeId, env: Env) {
    && e.p.status == Creating && e.p.offer == Some(Offer(depth, tree))
    && e.p.parent == p.parent && e.p.session == p.session && e.p.count == p.count && e.p.report == p.report
    && e.p.children.Keys == {NOID}
    && e.out == Broadcast(c, depth, tree, env.inRange)
  }

  /** The prover is about to offer: committed or root, nothing else under way. */
  ghost predicate Offering(c: Config, st: Start, p: Prover) {
    && GoodConfig(c) && c.maxChildren > 0 && p.count == st.count && p.ackTimer.None?
    && !p.checkTimer && !p.treeTimer && p.children == map[] && p.upTimers == map[]
    && p.session.Some? && p.session.value.valid && 1 <= p.session.value.depth <= c.maxDepth
    && (p.parent != NOID ==> p.session.value.depth >= 2 && p.session.value.key in c.ring)
    && WellFormed(p.report, c.aggSize) && Counted(p.report, st.size, st.sepsize)
  }

  lemma MakeOfferLocal(c: Config, st: Start, p: Prover, depth: nat, tree: TreeId, env: Env)
    requires Offering(c, st, p) && tree == p.session.value.tree
    requires depth == if p.parent == NOID then c.maxDepth else p.session.value.depth - 1
    ensures var e := MakeOffer(c, p, depth, tree, env);
            Clean(e) && LocalInv(c, st, e.p) && Offers(c, p, e, depth, tree, env)
  {
    var e := MakeOffer(c, p, depth, tree, env);
    CardAdd(p.children, NOID, Session(tree, NOID, NOID, 0, false));
    assert e.p.upTimers.Keys == {};
  }

  /** sendCommitReq of a prover without a parent: it becomes a root, or reports at once
      when it takes no children. */
  lemma StartTreeLocal(c: Config, st: Start, p: Prover, env: Env)
    requires GoodConfig(c) && p.parent == NOID && p.status != Attesting
    requires Fresh(st, p) && p.ackTimer.None? && !p.checkTimer && !p.treeTimer
    requires p.children == map[] && p.upTimers == map[]
    requires WellFormed(p.report, c.aggSize) && Counted(p.report, st.size, st.sepsize)
    ensures var e := SendCommitReq(c, p, NOID, env);
            var q := p.(session := Some(RootSession(c, env.freshTree)));
            && Clean(e) && LocalInv(c, st, e.p)
            && if c.maxChildren == 0 then Reports(c, st, q, e, env.freshTree)
               else Offers(c, q, e, c.maxDepth, env.freshTree, env)
  {
    var q := p.(session := Some(RootSession(c, env.freshTree)));
    if c.maxChildren == 0 {
      SendUpLocal(c, st, q, env.freshTree);
    } else {
      MakeOfferLocal(c, st, q, c.maxDepth, env.freshTree, env);
    }
  }

  // ------------------------------------------------------------ the handlers

  lemma CheckLocal(c: Config, st: Start, p: Prover)
    requires LocalInv(c, st, p) && p.checkTimer
    ensures LocalInv(c, st, OnCheck(p).p)
  {
  }

  lemma CommitReqLocal(c: Config, st: Start, p: Prover, m: Message)
    requires GoodConfig(c) && LocalInv(c, st, p)
    requires m.CommitReq? && m.src != NOID && 1 <= m.depth <= c.maxDepth
    ensures var e := OnCommitReq(c, p, m);
            Clean(e) && LocalInv(c, st, e.p)
  {
  }

  lemma CommitAckLocal(c: Config, st: Start, p: Prover, m: Message, env: Env)
    requires GoodConfig(c) && LocalInv(c, st, p) && Waiting(c, p) && Fresh(st, p) && !p.checkTimer
    requires m.CommitAck? && m.src == p.parent && m.dst == c.uid && m.tree == p.session.value.tree
    ensures var e := OnCommitAck(c, p, m, env);
            var q := p.(treeTimer := false, ackTimer := None, session := Some(p.session.value.(valid := true)));
            && Clean(e) && LocalInv(c, st, e.p)
            && if p.session.value.depth == 1 || c.maxChildren == 0
               then Reports(c, st, q, e, m.tree)
               else Offers(c, q, e, p.session.value.depth - 1, m.tree, env)
  {
    var q := p.(treeTimer := false, ackTimer := None, session := Some(p.session.value.(valid := true)));
    if p.session.value.depth == 1 || c.maxChildren == 0 {
      SendUpLocal(c, st, q.(status := Finished), m.tree);
    } else {
      MakeOfferLocal(c, st, q.(status := Creating), p.session.value.depth - 1, m.tree, env);
    }
  }

  /** p with one more child recorded and its update timer running. */
  function WithChild(p: Prover, m: Message): Prover
    requires m.CommitResp?
  {
    p.(children := p.children[m.src := Session(m.tree, m.src, m.kid, 0, true)],
       upTimers := p.upTimers[m.src := m.tree])
  }

  lemma AddBoth(children: map<Uid, Session>, timers: map<Uid, TreeId>, x: Uid, s: Session, t: TreeId)
    requires x != NOID && x !in children && NOID in children && timers.Keys == children.Keys - {NOID}
    ensures x !in timers && timers[x := t].Keys == children[x := s].Keys - {NOID}
    ensures |children[x := s]| == |children| + 1 >= 2
  {
    CardAdd(children, x, s);
    CardRemove(children, NOID);
    assert timers[x := t].Keys == timers.Keys + {x};
  }

  lemma OpenChild(c: Config, st: Start, p: Prover, m: Message)
    requires PhaseInv(c, st, p) && p.status == Creating
    requires m.CommitResp? && m.src != NOID && m.src !in p.children && m.tree == p.session.value.tree
    ensures var q := WithChild(p, m);
            && m.src !in p.upTimers && Active(c, st, q) && |q.children| == |p.children| + 1 >= 2
            && if |q.children| == c.maxChildren + 1
               then PhaseInv(c, st, q.(status := Collecting, respTimer := None))
               else PhaseInv(c, st, q)
  {
    AddBoth(p.children, p.upTimers, m.src, Session(m.tree, m.src, m.kid, 0, true), m.tree);
  }

  /** The two outcomes of a response for a prover that has offered: recorded, or too late. */
  lemma CommitRespLocal(c: Config, st: Start, p: Prover, m: Message)
    requires GoodConfig(c) && LocalInv(c, st, p) && p.offer.Some?
    requires m.CommitResp? && m.src != NOID && m.dst == c.uid && m.kid in c.ring
    requires m.src !in p.children && m.tree == p.offer.value.tree
    ensures var e := OnCommitResp(c, p, m);
            && Clean(e) && LocalInv(c, st, e.p)
            && if AcceptsResp(c, p, m)
               then && e.out == [Envelope(AtProver(m.src), CommitAck(c.uid, m.src, m.tree))]
                    && (e.p == WithChild(p, m) || e.p == WithChild(p, m).(status := Collecting, respTimer := None))
               else e == Quiet(p)
  {
    if p.status == Creating {
      OpenChild(c, st, p, m);
      CardRemove(p.children, NOID);
    }
  }

  lemma MergeLocal(c: Config, st: Start, p: Prover, m: Message)
    requires GoodConfig(c) && LocalInv(c, st, p)
    requires m.UpdateReq?
    requires WellFormed(Report(m.uids, m.counters, m.proofs, 0, 0), c.aggSize) && m.proofs != []
    ensures |p.report.uids| == |p.report.counters|
    ensures !MergeFaults(p.report, m.uids, m.counters, m.proofs, c.aggSize)
    ensures var r := Merge(p.report, m.uids, m.counters, m.proofs, c.aggSize);
            && WellFormed(r, c.aggSize) && Counted(r, st.size, st.sepsize)
            && Records(r.uids, r.counters) == Records(p.report.uids, p.report.counters) + RecordsOf(m)
  {
    MergeCorrect(p.report, Report(m.uids, m.counters, m.proofs, 0, 0), c.aggSize, st.size, st.sepsize);
  }

  /** p with the update of child src merged and the child's session and timer closed. */
  function Merged(c: Config, p: Prover, m: Message): Prover
    requires m.UpdateReq? && c.aggSize > 0 && |p.report.uids| == |p.report.counters|
    requires !MergeFaults(p.report, m.uids, m.counters, m.proofs, c.aggSize)
  {
    p.(report := Merge(p.report, m.uids, m.counters, m.proofs, c.aggSize),
       upTimers := p.upTimers - {m.src}, children := p.children - {m.src})
  }

  /** Closing one child's session keeps the phase unless it was the last child. */
  lemma CloseChild(c: Config, st: Start, p: Prover, dev: Uid)
    requires PhaseInv(c, st, p) && dev in p.children && dev != NOID
    ensures Active(c, st, p)
    ensures var q := p.(upTimers := p.upTimers - {dev}, children := p.children - {dev});
            if |q.children| == 1
            then q.children - {NOID} == map[] && q.upTimers == map[]
            else PhaseInv(c, st, q)
  {
    assert p.children != map[];
    CardRemove(p.children, dev);
    CardRemove(p.upTimers, dev);
    var q := p.(upTimers := p.upTimers - {dev}, children := p.children - {dev});
    if |q.children| == 1 {
      OnlyKey(q.children, NOID);
      assert q.upTimers.Keys == {};
    } else {
      MoreThanKey(q.children, NOID);
    }
  }

  lemma UpdateTimeoutLocal(c: Config, st: Start, p: Prover, dev: Uid)
    requires GoodConfig(c) && LocalInv(c, st, p) && dev in p.upTimers
    ensures dev in p.children && dev != NOID && Active(c, st, p)
    ensures var e := OnUpdateTimeout(c, p, dev);
            var q := p.(upTimers := p.upTimers - {dev}, children := p.children - {dev});
            && Clean(e) && LocalInv(c, st, e.p)
            && (e == Quiet(q) || Reports(c, st, q, e, p.session.value.tree))
  {
    assert p.upTimers != map[];
    CloseChild(c, st, p, dev);
    var q := p.(upTimers := p.upTimers - {dev}, children := p.children - {dev});
    if |q.children| == 1 {
      SendUpLocal(c, st, q.(status := Finished), p.upTimers[dev]);
    }
  }

  lemma MergedLocal(c: Config, st: Start, p: Prover, m: Message)
    requires GoodConfig(c) && LocalInv(c, st, p)
    requires m.UpdateReq? && m.src != NOID && m.src in p.children
    requires |p.report.uids| == |p.report.counters| && !MergeFaults(p.report, m.uids, m.counters, m.proofs, c.aggSize)
    requires WellFormed(Merged(c, p, m).report, c.aggSize) && Counted(Merged(c, p, m).report, st.size, st.sepsize)
    ensures Active(c, st, p)
    ensures var q := Merged(c, p, m);
            if |q.children| == 1
            then var e := SendUpReq(c, q, m.tree); Clean(e) && LocalInv(c, st, e.p) && Reports(c, st, q, e, m.tree)
            else LocalInv(c, st, q)
  {
    CloseChild(c, st, p, m.src);
    if |Merged(c, p, m).children| == 1 {
      SendUpLocal(c, st, Merged(c, p, m), m.tree);
    }
  }

  /** The update is passed on, ignored or merged. */
  ghost predicate Updates(c: Config, st: Start, p: Prover, m: Message, e: Effect)
    requires m.UpdateReq? && c.aggSize > 0
  {
    if p.status == Finished
    then e == Effect(p, [Envelope(AtCollector, m.(kind := Fix, dst := COLLECTOR_ID))], false, false)
    else if m.src !in p.children then e == Quiet(p)
    else && |p.report.uids| == |p.report.counters|
         && !MergeFaults(p.report, m.uids, m.counters, m.proofs, c.aggSize)
         && Active(c, st, p)
         && (e == Quiet(Merged(c, p, m)) || Reports(c, st, Merged(c, p, m), e, m.tree))
  }

  lemma UpdateLocal(c: Config, st: Start, p: Prover, m: Message)
    requires GoodConfig(c) && LocalInv(c, st, p) && p.offer.Some?
    requires m.UpdateReq? && m.kind == ToParent && m.src != NOID && m.dst == c.uid && m.tree == p.offer.value.tree
    requires WellFormed(Report(m.uids, m.counters, m.proofs, 0, 0), c.aggSize) && m.proofs != []
    ensures Clean(OnUpdate(c, p, m)) && LocalInv(c, st, OnUpdate(c, p, m).p)
    ensures Updates(c, st, p, m, OnUpdate(c, p, m))
  {
    if p.status != Finished && m.src in p.children {
      MergeLocal(c, st, p, m);
      MergedLocal(c, st, p, m);
      assert OnUpdate(c, p, m) == Finishing(c, Merged(c, p, m), m.tree);
    }
  }

  lemma TreeTimerLocal(c: Config, st: Start, p: Prover, env: Env)
    requires GoodConfig(c) && LocalInv(c, st, p) && p.treeTimer && !p.checkTimer
    ensures var e := OnTreeTimer(c, p, env);
            var q := p.(treeTimer := false);
            var r := q.(session := Some(RootSession(c, env.freshTree)));
            && Clean(e) && LocalInv(c, st, e.p)
            && if p.status == Attesting then e == Quiet(q.(status := AttestingCreating))
               else p.status == Ready &&
                    if c.maxChildren == 0 then Reports(c, st, r, e, env.freshTree)
                    else Offers(c, r, e, c.maxDepth, env.freshTree, env)
  {
    if p.status != Attesting {
      StartTreeLocal(c, st, p.(treeTimer := false), env);
    }
  }

  lemma AckTimeoutLocal(c: Config, st: Start, p: Prover, env: Env)
    requires GoodConfig(c) && LocalInv(c, st, p) && p.ackTimer.Some?
    ensures Waiting(c, p) && Fresh(st, p)
    ensures var e := OnAckTimeout(c, p, env);
            var q := p.(ackTimer := None, session := None, parent := NOID);
            var r := q.(session := Some(RootSession(c, env.freshTree)));
            && Clean(e) && LocalInv(c, st, e.p)
            && if p.status == Attesting then e == Quiet(q.(status := Ready))
               else p.status == AttestingCreating &&
                    if c.maxChildren == 0 then Reports(c, st, r, e, env.freshTree)
                    else Offers(c, r, e, c.maxDepth, env.freshTree, env)
  {
    if p.status == AttestingCreating {
      StartTreeLocal(c, st, p.(ackTimer := None, session := None, parent := NOID, status := Creating), env);
    }
  }

  lemma RespTimeoutLocal(c: Config, st: Start, p: Prover)
    requires GoodConfig(c) && LocalInv(c, st, p) && p.respTimer.Some?
    ensures var e := OnRespTimeout(c, p);
            var q := p.(respTimer := None, status := Collecting);
            && Clean(e) && LocalInv(c, st, e.p)
            && (e == Quiet(q) || (Active(c, st, p) && p.children.Keys == {NOID}
                && Reports(c, st, q, e, p.session.value.tree)))
  {
    if p.status == Creating {
      if |p.children| == 1 {
        OnlyKey(p.children, NOID);
        assert p.upTimers.Keys == {};
        SendUpLocal(c, st, p.(respTimer := None, status := Collecting), p.session.value.tree);
      } else {
        MoreThanKey(p.children, NOID);
      }
    }
  }
}
