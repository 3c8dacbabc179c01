/** How a prover answers the messages and timers of a round, told by what it has on record. */
module FadiaAnswers {
  import opened Wrappers
  import opened FadiaReport
  import opened FadiaProver
  import opened FadiaRound
  import opened FadiaLocal

  lemma OneLeft<V>(m: map<Uid, V>, x: Uid, y: Uid)
    requires x in m && y in m && x != y
    ensures |m - {y}| == 1 <==> m.Keys == {x, y}
  {
    CardRemove(m, y);
    var rest := m - {y};
    if |rest| == 1 {
      OnlyKey(rest, x);
      assert m.Keys == rest.Keys + {y};
    }
    if m.Keys == {x, y} {
      assert rest.Keys == {x};
      assert |rest| == |rest.Keys|;
    }
  }

  /** Its real children. */
  function Children(p: Prover): map<Uid, Session> { p.children - {NOID} }

  /** A prover that offers places gives one to every response in its tree that reaches it; with the
      last place it stops offering. One that does not offer any more ignores the response. */
  lemma CommitRespAnswered(c: Config, st: Start, p: Prover, m: Message)
    requires GoodConfig(c) && LocalInv(c, st, p) && p.offer.Some?
    requires m.CommitResp? && m.src != NOID && m.dst == c.uid && m.kid in c.ring
    requires m.src !in p.children && m.tree == p.offer.value.tree
    ensures var e := OnCommitResp(c, p, m);
            if p.status != Creating then e == Quiet(p)
            else && e.out == [Envelope(AtProver(m.src), CommitAck(c.uid, m.src, m.tree))]
                 && Children(e.p) == Children(p)[m.src := Session(m.tree, m.src, m.kid, 0, true)]
                 && e.p.upTimers == p.upTimers[m.src := m.tree]
                 && |Children(p)| < c.maxChildren
                 && (if |Children(e.p)| == c.maxChildren then e.p.status == Collecting && e.p.respTimer.None?
                     else e.p.status == Creating && e.p.respTimer == p.respTimer)
  {
    if p.status == Creating {
      var s := Session(m.tree, m.src, m.kid, 0, true);
      OpenChild(c, st, p, m);
      CardRemove(p.children, NOID);
      CardRemove(p.children[m.src := s], NOID);
      assert p.children[m.src := s] - {NOID} == (p.children - {NOID})[m.src := s];
    }
  }

  /** A known child's update is merged, and the report sent exactly when no other child is left. */
  lemma UpdateAnswered(c: Config, st: Start, p: Prover, m: Message)
    requires GoodConfig(c) && LocalInv(c, st, p) && p.offer.Some?
    requires m.UpdateReq? && m.kind == ToParent && m.src != NOID && m.dst == c.uid && m.tree == p.offer.value.tree
    requires WellFormed(Report(m.uids, m.counters, m.proofs, 0, 0), c.aggSize) && m.proofs != []
    requires p.status != Finished && m.src in p.children
    ensures |p.report.uids| == |p.report.counters|
            && !MergeFaults(p.report, m.uids, m.counters, m.proofs, c.aggSize)
    ensures var e := OnUpdate(c, p, m);
            if Children(p).Keys == {m.src} then Reports(c, st, Merged(c, p, m), e, m.tree)
            else e == Quiet(Merged(c, p, m))
  {
    MergeLocal(c, st, p, m);
    MergedLocal(c, st, p, m);
    LastOfChildren(p, m.src);
    Accepted(c, p, m);
  }

  lemma Accepted(c: Config, p: Prover, m: Message)
    requires m.UpdateReq? && m.kind == ToParent && m.dst == c.uid && m.src in p.children
    requires p.session.Some? && m.tree == p.session.value.tree && (p.status == Collecting || p.status == Creating)
    requires c.aggSize > 0 && |p.report.uids| == |p.report.counters| && |m.counters| == |m.uids|
    requires !MergeFaults(p.report, m.uids, m.counters, m.proofs, c.aggSize)
    ensures OnUpdate(c, p, m) == Finishing(c, Merged(c, p, m), m.tree)
  {
  }

  lemma LastOfChildren(p: Prover, d: Uid)
    requires NOID in p.children && d in p.children && d != NOID
    ensures Children(p).Keys == {d} <==> |p.children - {d}| == 1
  {
    OneLeft(p.children, NOID, d);
    OnlyChild(p, d);
  }

  lemma OnlyChild(p: Prover, d: Uid)
    requires NOID in p.children && d in p.children && d != NOID
    ensures Children(p).Keys == {d} <==> p.children.Keys == {NOID, d}
  {
    assert Children(p).Keys == p.children.Keys - {NOID};
    assert p.children.Keys == Children(p).Keys + {NOID};
  }

  /** When no more responses are awaited the prover collects, or reports if it has got no child. */
  lemma RespTimeoutAnswered(c: Config, st: Start, p: Prover)
    requires GoodConfig(c) && LocalInv(c, st, p) && p.respTimer.Some?
    ensures var e := OnRespTimeout(c, p);
            var q := p.(respTimer := None, status := Collecting);
            if p.children.Keys == {NOID} then Active(c, st, p) && Reports(c, st, q, e, p.session.value.tree)
            else e == Quiet(q)
  {
    RespTimeoutLocal(c, st, p);
    PlaceholderFirst(c, st, p);
    OneKey(p.children, NOID);
  }

  lemma PlaceholderFirst(c: Config, st: Start, p: Prover)
    requires PhaseInv(c, st, p)
    ensures NOID in p.children || p.children == map[]
  {
  }

  lemma OneKey<V>(m: map<Uid, V>, x: Uid)
    requires x in m || m == map[]
    ensures |m| == 1 <==> m.Keys == {x}
  {
    assert |m| == |m.Keys|;
    if x in m && |m| == 1 { OnlyKey(m, x); }
  }

  /** A child whose update does not come is given up, and the report sent exactly when it was the last. */
  lemma UpdateTimeoutAnswered(c: Config, st: Start, p: Prover, dev: Uid)
    requires GoodConfig(c) && LocalInv(c, st, p) && dev in p.upTimers
    ensures dev in p.children && Active(c, st, p)
    ensures var e := OnUpdateTimeout(c, p, dev);
            var q := p.(upTimers := p.upTimers - {dev}, children := p.children - {dev});
            if Children(p).Keys == {dev} then Reports(c, st, q, e, p.session.value.tree) else e == Quiet(q)
  {
    UpdateTimeoutLocal(c, st, p, dev);
    LastOfChildren(p, dev);
  }

  // ------------------------------------------------------------ which messages are refused, and how

  /** A response is accepted exactly under these conditions, and changes nothing otherwise; an alert is
      raised by one that comes when it cannot, finds no place, or is for another prover. */
  lemma CommitRespAcceptedIff(c: Config, p: Prover, m: Message)
    requires m.CommitResp? && p.session.Some? && m.src !in p.upTimers
    ensures var e := OnCommitResp(c, p, m);
            var placeFree := 0 < |p.children| <= c.maxChildren;
            && (e.out != [] <==> p.status == Creating && placeFree && m.dst == c.uid
                                 && m.src !in p.children && m.kid in c.ring)
            && (e.out == [] ==> e.p == p && !e.fault)
            && (e.alert <==>
                  || p.status == Checking || p.status == Attesting || p.status == AttestingCreating
                  || (p.status == Creating && (!placeFree || m.dst != c.uid)))
  {
  }

  /** An acknowledgment that is not from the parent is ignored; one from the parent is confirmed unless it
      is for another prover or the key is not held. */
  lemma CommitAckRefused(c: Config, p: Prover, m: Message, env: Env)
    requires m.CommitAck? && p.session.Some?
    ensures p.parent != m.src ==> OnCommitAck(c, p, m, env) == Quiet(p)
    ensures p.parent == m.src && (m.dst != c.uid || p.session.value.key !in c.ring) ==>
              OnCommitAck(c, p, m, env) == Alert(p)
    ensures p.parent == m.src && m.dst == c.uid && p.session.value.key in c.ring ==>
              var e := OnCommitAck(c, p, m, env); !e.p.treeTimer && e.p.ackTimer.None? && !e.alert
  {
  }

  /** An update raises an alert exactly if it is for another prover, out of season, or from a child in
      another tree. A diverted one, and one that comes after the own report, goes to the collector
      unchanged but for being marked as diverted. Only a child's update in the own tree changes anything. */
  lemma UpdateRefused(c: Config, p: Prover, m: Message)
    requires m.UpdateReq? && p.session.Some? && (m.kind == Fix ==> m.dst == COLLECTOR_ID)
    ensures var e := OnUpdate(c, p, m);
            var season := p.status == Collecting || p.status == Creating;
            var late := m.dst == c.uid && p.status == Finished;
            && (e.alert <==> && m.kind != Fix && !late
                             && (m.dst != c.uid || !season || (m.src in p.children && m.tree != p.session.value.tree)))
            && (m.kind == Fix || late ==>
                  e.p == p && e.out == [Envelope(AtCollector, m.(kind := Fix, dst := COLLECTOR_ID))])
            && (e.p != p ==> m.dst == c.uid && season && m.src in p.children && m.tree == p.session.value.tree)
  {
  }

  /** A timer of a response to somebody who is not the parent any more raises an alert. */
  lemma AckTimeoutRefused(c: Config, p: Prover, env: Env)
    requires p.ackTimer.Some? && p.ackTimer.value.device != p.parent
    ensures OnAckTimeout(c, p, env) == Alert(p.(ackTimer := None))
  {
  }
}
