/** Every round ends: a run has boundedly many events, and when none is left every prover has reported. */
module FadiaProgress {
  import opened Wrappers
  import opened FadiaReport
  import opened FadiaProver
  import opened FadiaRound
  import opened FadiaLocal
  import opened FadiaFrame
  import opened FadiaHandshake
  import opened FadiaTheorems

  // ------------------------------------------------------------ a measure that every event lowers

  function Flag(b: bool): nat { if b then 1 else 0 }

  /** What a message can still cause: each answer and the timer it starts are paid for in advance. */
  function MsgWeight(m: Message): (n: nat)
    ensures n >= 1
  {
    match m
    case CommitReq(_, _, _, _) => 5
    case CommitResp(_, _, _, _) => 3
    case CommitAck(_, _, _) => 1
    case UpdateReq(kind, _, _, _, _, _, _) => if kind == Fix then 1 else 2
  }

  function SlotWeight(o: Option<Envelope>): nat {
    if o.Some? then MsgWeight(o.value.msg) else 0
  }

  function NetWeight(net: seq<Option<Envelope>>): nat {
    if net == [] then 0 else SlotWeight(net[0]) + NetWeight(net[1..])
  }

  /** What a prover can still cause in a network of n provers. */
  function ProverWeight(n: nat, st: Start, p: Prover): nat {
    (if p.count == st.count then 2 else 0)
    + (if p.count == st.count && p.offer.None? then 5 * n + 1 else 0)
    + Flag(p.checkTimer) + Flag(p.treeTimer) + Flag(p.ackTimer.Some?) + Flag(p.respTimer.Some?) + |p.upTimers|
  }

  /** ids lists every prover once. */
  ghost predicate Lists(sys: System, ids: seq<Uid>) {
    && (forall i :: 0 <= i < |ids| ==> ids[i] in sys.cfg)
    && (forall u :: u in sys.cfg ==> u in ids)
    && (forall i, j :: 0 <= i < j < |ids| ==> ids[i] != ids[j])
  }

  function ProversWeight(sys: System, n: nat, ids: seq<Uid>, ps: map<Uid, Prover>): nat
    requires forall i :: 0 <= i < |ids| ==> ids[i] in ps && ids[i] in sys.start
  {
    if ids == [] then 0
    else ProverWeight(n, sys.start[ids[0]], ps[ids[0]]) + ProversWeight(sys, n, ids[1..], ps)
  }

  function Weight(sys: System, ids: seq<Uid>, w: World): nat
    requires forall i :: 0 <= i < |ids| ==> ids[i] in w.provers && ids[i] in sys.start
  {
    ProversWeight(sys, |ids|, ids, w.provers) + NetWeight(w.net)
  }

  // ------------------------------------------------------------ sums

  lemma {:induction false} NetConcat(a: seq<Option<Envelope>>, b: seq<Option<Envelope>>)
    ensures NetWeight(a + b) == NetWeight(a) + NetWeight(b)
  {
    if a == [] {
      assert a + b == b;
    } else {
      assert (a + b)[1..] == a[1..] + b;
      NetConcat(a[1..], b);
    }
  }

  lemma {:induction false} NetUpdate(net: seq<Option<Envelope>>, k: nat, v: Option<Envelope>)
    requires k < |net|
    ensures NetWeight(net[k := v]) == NetWeight(net) - SlotWeight(net[k]) + SlotWeight(v)
  {
    if k == 0 {
      assert net[k := v][1..] == net[1..];
    } else {
      assert net[k := v][1..] == net[1..][k - 1 := v];
      NetUpdate(net[1..], k - 1, v);
    }
  }

  lemma {:induction false} ProversSame(sys: System, n: nat, ids: seq<Uid>, ps: map<Uid, Prover>, u: Uid, q: Prover)
    requires forall i :: 0 <= i < |ids| ==> ids[i] in ps && ids[i] in sys.start && ids[i] != u
    ensures ProversWeight(sys, n, ids, ps[u := q]) == ProversWeight(sys, n, ids, ps)
  {
    if ids != [] {
      ProversSame(sys, n, ids[1..], ps, u, q);
    }
  }

  lemma {:induction false} ProversUpdate(sys: System, n: nat, ids: seq<Uid>, ps: map<Uid, Prover>, u: Uid, q: Prover)
    requires forall i :: 0 <= i < |ids| ==> ids[i] in ps && ids[i] in sys.start
    requires u in ids && forall i, j :: 0 <= i < j < |ids| ==> ids[i] != ids[j]
    ensures u in ps && u in sys.start
    ensures ProversWeight(sys, n, ids, ps[u := q]) + ProverWeight(n, sys.start[u], ps[u])
         == ProversWeight(sys, n, ids, ps) + ProverWeight(n, sys.start[u], q)
  {
    if ids[0] == u {
      ProversSame(sys, n, ids[1..], ps, u, q);
    } else {
      ProversUpdate(sys, n, ids[1..], ps, u, q);
    }
  }

  lemma {:induction false} BroadcastWeight(out: seq<Envelope>)
    requires forall i :: 0 <= i < |out| ==> out[i].msg.CommitReq?
    ensures NetWeight(Sent(out)) == 5 * |out|
  {
    if out != [] {
      assert Sent(out)[1..] == Sent(out[1..]);
      BroadcastWeight(out[1..]);
    }
  }

  lemma OneWeight(e: Envelope)
    ensures NetWeight(Sent([e])) == MsgWeight(e.msg)
  {
    assert Sent([e]) == [Some(e)];
  }

  /** A list of distinct elements of a set is no longer than any list of the whole set. */
  lemma {:induction false} DistinctFits(xs: seq<Uid>, s: set<Uid>)
    requires forall i :: 0 <= i < |xs| ==> xs[i] in s
    requires forall i, j :: 0 <= i < j < |xs| ==> xs[i] != xs[j]
    ensures |xs| <= |s|
  {
    if xs != [] {
      DistinctFits(xs[1..], s - {xs[0]});
    }
  }

  lemma {:induction false} ListLength(xs: seq<Uid>, s: set<Uid>)
    requires forall u :: u in s ==> u in xs
    ensures |s| <= |xs|
  {
    if xs == [] {
      assert s == {};
    } else {
      ListLength(xs[1..], s - {xs[0]});
      assert s <= (s - {xs[0]}) + {xs[0]};
    }
  }

  lemma InRangeFits(sys: System, ids: seq<Uid>, u: Uid, env: Env)
    requires Lists(sys, ids) && GoodEnv(sys, u, env)
    ensures |env.inRange| <= |ids|
  {
    DistinctFits(env.inRange, sys.cfg.Keys);
    ListLength(ids, sys.cfg.Keys);
  }

  // ------------------------------------------------------------ one event on one prover

  /** The effect's state and messages weigh less than the state it started from and the paid budget. */
  ghost predicate Lighter(n: nat, st: Start, p: Prover, e: Effect, paid: nat) {
    ProverWeight(n, st, e.p) + NetWeight(Sent(e.out)) < ProverWeight(n, st, p) + paid
  }

  lemma ReportLighter(n: nat, c: Config, st: Start, p: Prover, q: Prover, e: Effect, tid: TreeId, paid: nat)
    requires PhaseInv(c, st, e.p) && Reports(c, st, q, e, tid) && p.count == st.count
    requires Flag(q.respTimer.Some?)
             < Flag(p.checkTimer) + Flag(p.treeTimer) + Flag(p.ackTimer.Some?) + Flag(p.respTimer.Some?)
               + |p.upTimers| + paid
    ensures Lighter(n, st, p, e, paid)
  {
    assert e.out == [e.out[0]];
    OneWeight(e.out[0]);
  }

  lemma OfferLighter(n: nat, c: Config, st: Start, p: Prover, q: Prover, e: Effect, depth: nat, tree: TreeId,
                     env: Env, paid: nat)
    requires PhaseInv(c, st, e.p) && Offers(c, q, e, depth, tree, env) && q.count == p.count == st.count
    requires p.offer.None? && |env.inRange| <= n
    requires Flag(p.treeTimer) + Flag(p.ackTimer.Some?) + paid > 0
    ensures Lighter(n, st, p, e, paid)
  {
    BroadcastWeight(e.out);
    assert e.p.upTimers.Keys == {};
    assert |e.p.upTimers| == 0;
  }

  lemma TreeTimerLighter(n: nat, c: Config, st: Start, p: Prover, env: Env)
    requires GoodConfig(c) && LocalInv(c, st, p) && p.treeTimer && !p.checkTimer && |env.inRange| <= n
    ensures Lighter(n, st, p, OnTreeTimer(c, p, env), 0)
  {
    TreeTimerLocal(c, st, p, env);
    var e := OnTreeTimer(c, p, env);
    var r := p.(treeTimer := false, session := Some(RootSession(c, env.freshTree)));
    if p.status != Attesting {
      if c.maxChildren == 0 {
        ReportLighter(n, c, st, p, r, e, env.freshTree, 0);
      } else {
        OfferLighter(n, c, st, p, r, e, c.maxDepth, env.freshTree, env, 0);
      }
    }
  }

  lemma AckTimeoutLighter(n: nat, c: Config, st: Start, p: Prover, env: Env)
    requires GoodConfig(c) && LocalInv(c, st, p) && p.ackTimer.Some? && |env.inRange| <= n
    ensures Lighter(n, st, p, OnAckTimeout(c, p, env), 0)
  {
    AckTimeoutLocal(c, st, p, env);
    var e := OnAckTimeout(c, p, env);
    var r := p.(ackTimer := None, parent := NOID, session := Some(RootSession(c, env.freshTree)));
    if p.status != Attesting {
      if c.maxChildren == 0 {
        ReportLighter(n, c, st, p, r, e, env.freshTree, 0);
      } else {
        OfferLighter(n, c, st, p, r, e, c.maxDepth, env.freshTree, env, 0);
      }
    }
  }

  lemma RespTimeoutLighter(n: nat, c: Config, st: Start, p: Prover)
    requires GoodConfig(c) && LocalInv(c, st, p) && p.respTimer.Some?
    ensures Lighter(n, st, p, OnRespTimeout(c, p), 0)
  {
    RespTimeoutLocal(c, st, p);
    var q := p.(respTimer := None, status := Collecting);
    if OnRespTimeout(c, p) != Quiet(q) {
      ReportLighter(n, c, st, p, q, OnRespTimeout(c, p), p.session.value.tree, 0);
    }
  }

  lemma UpdateTimeoutLighter(n: nat, c: Config, st: Start, p: Prover, dev: Uid)
    requires GoodConfig(c) && LocalInv(c, st, p) && dev in p.upTimers
    ensures Lighter(n, st, p, OnUpdateTimeout(c, p, dev), 0)
  {
    UpdateTimeoutLocal(c, st, p, dev);
    CardRemove(p.upTimers, dev);
    var q := p.(upTimers := p.upTimers - {dev}, children := p.children - {dev});
    if OnUpdateTimeout(c, p, dev) != Quiet(q) {
      ReportLighter(n, c, st, p, q, OnUpdateTimeout(c, p, dev), p.session.value.tree, 0);
    }
  }

  lemma ReqLighter(n: nat, c: Config, st: Start, p: Prover, m: Message)
    requires m.CommitReq? && Clean(OnCommitReq(c, p, m))
    ensures Lighter(n, st, p, OnCommitReq(c, p, m), MsgWeight(m))
  {
    var e := OnCommitReq(c, p, m);
    if e.out != [] {
      OneWeight(e.out[0]);
    }
  }

  lemma RespLighter(n: nat, c: Config, st: Start, p: Prover, m: Message)
    requires m.CommitResp? && Clean(OnCommitResp(c, p, m))
    ensures Lighter(n, st, p, OnCommitResp(c, p, m), MsgWeight(m))
  {
    var e := OnCommitResp(c, p, m);
    if e.out != [] {
      RespOutcome(c, p, m);
      OneWeight(Envelope(AtProver(m.src), CommitAck(c.uid, m.src, m.tree)));
    }
  }

  /** A recorded response starts one timer, stops at most one, and sends the acknowledgment. */
  lemma RespOutcome(c: Config, p: Prover, m: Message)
    requires m.CommitResp? && Clean(OnCommitResp(c, p, m)) && OnCommitResp(c, p, m).out != []
    ensures var e := OnCommitResp(c, p, m);
            && e.out == [Envelope(AtProver(m.src), CommitAck(c.uid, m.src, m.tree))]
            && |e.p.upTimers| == |p.upTimers| + 1
            && (e.p.respTimer.None? || e.p.respTimer == p.respTimer)
            && e.p == p.(children := e.p.children, upTimers := e.p.upTimers, status := e.p.status,
                respTimer := e.p.respTimer)
  {
    CardAdd(p.upTimers, m.src, m.tree);
  }

  lemma AckLighter(n: nat, c: Config, st: Start, p: Prover, m: Message, env: Env)
    requires GoodConfig(c) && LocalInv(c, st, p) && Waiting(c, p) && Fresh(st, p) && !p.checkTimer && |env.inRange| <= n
    requires m.CommitAck? && m.src == p.parent && m.dst == c.uid && m.tree == p.session.value.tree
    ensures Lighter(n, st, p, OnCommitAck(c, p, m, env), MsgWeight(m))
  {
    CommitAckLocal(c, st, p, m, env);
    var e := OnCommitAck(c, p, m, env);
    if p.session.value.depth == 1 || c.maxChildren == 0 {
      ReportLighter(n, c, st, p, Acked(p), e, m.tree, 1);
    } else {
      OfferLighter(n, c, st, p, Acked(p), e, p.session.value.depth - 1, m.tree, env, 1);
    }
  }

  lemma UpdateLighter(n: nat, c: Config, st: Start, p: Prover, m: Message)
    requires GoodConfig(c) && LocalInv(c, st, p) && p.offer.Some?
    requires m.UpdateReq? && m.kind == ToParent && m.src != NOID && m.dst == c.uid && m.tree == p.offer.value.tree
    requires WellFormed(Report(m.uids, m.counters, m.proofs, 0, 0), c.aggSize) && m.proofs != []
    ensures Lighter(n, st, p, OnUpdate(c, p, m), MsgWeight(m))
  {
    UpdateLocal(c, st, p, m);
    UpdatesLighter(n, c, st, p, m, OnUpdate(c, p, m));
  }

  lemma UpdatesLighter(n: nat, c: Config, st: Start, p: Prover, m: Message, e: Effect)
    requires GoodConfig(c) && m.UpdateReq? && m.kind == ToParent && m.src != NOID
    requires LocalInv(c, st, p) && LocalInv(c, st, e.p) && Updates(c, st, p, m, e)
    ensures Lighter(n, st, p, e, MsgWeight(m))
  {
    if p.status == Finished {
      ForwardLighter(n, st, p, m.(kind := Fix, dst := COLLECTOR_ID));
    } else if m.src !in p.children {
      QuietLighter(n, st, p, p);
    } else {
      JoinLighter(n, c, st, p, m, Merged(c, p, m), e);
    }
  }

  /** An update passed on to the collector. */
  lemma ForwardLighter(n: nat, st: Start, p: Prover, m: Message)
    requires m.UpdateReq? && m.kind == Fix
    ensures Lighter(n, st, p, Effect(p, [Envelope(AtCollector, m)], false, false), 2)
  {
    OneWeight(Envelope(AtCollector, m));
  }

  /** The merged state q, with the report after the last child's update. */
  lemma JoinLighter(n: nat, c: Config, st: Start, p: Prover, m: Message, q: Prover, e: Effect)
    requires PhaseInv(c, st, e.p) && p.count == st.count && m.UpdateReq? && m.src in p.upTimers
    requires q == p.(report := q.report, upTimers := p.upTimers - {m.src}, children := q.children)
    requires e == Quiet(q) || Reports(c, st, q, e, m.tree)
    ensures Lighter(n, st, p, e, 2)
  {
    CardRemove(p.upTimers, m.src);
    if e != Quiet(q) {
      ReportLighter(n, c, st, p, q, e, m.tree, 2);
    } else {
      QuietLighter(n, st, p, q);
    }
  }

  /** A timer less, and nothing else. */
  lemma QuietLighter(n: nat, st: Start, p: Prover, q: Prover)
    requires q.count == p.count && q.offer == p.offer && q.checkTimer == p.checkTimer && q.treeTimer == p.treeTimer
    requires q.ackTimer == p.ackTimer && q.respTimer == p.respTimer && |q.upTimers| <= |p.upTimers|
    ensures Lighter(n, st, p, Quiet(q), 2)
  {
  }

  // ------------------------------------------------------------ one event in the network

  function Paid(w: World, ev: Event): nat {
    if ev.Deliver? && InFlight(w, ev.k) then MsgWeight(w.net[ev.k].value.msg) else 0
  }

  lemma DeliveryLighter(sys: System, w: World, u: Uid, k: nat, env: Env, n: nat)
    requires ValidSystem(sys) && HandshakeInv(sys, w) && u in w.provers && InFlight(w, k)
             && w.net[k].value.to == AtProver(u)
    requires GoodEnv(sys, u, env) && |env.inRange| <= n
    requires u in sys.cfg && Clean(Receive(sys.cfg[u], w.provers[u], w.net[k].value.msg, env))
    ensures u in sys.start
    ensures var p, m := w.provers[u], w.net[k].value.msg;
            Lighter(n, sys.start[u], p, Receive(sys.cfg[u], p, m, env), MsgWeight(m))
  {
    var m := w.net[k].value.msg;
    At(sys, w, u);
    EnvAt(sys, w, k);
    match m {
      case CommitReq(_, _, _, _) => ReqLighter(n, sys.cfg[u], sys.start[u], w.provers[u], m);
      case CommitResp(_, _, _, _) => RespLighter(n, sys.cfg[u], sys.start[u], w.provers[u], m);
      case CommitAck(_, _, _) =>
        if w.provers[u].parent == m.src {
          GrantAt(sys, w, m.src, u);
          AckFindsWaiting(sys, w, u, m);
          AckAgreement(sys, w, u, m);
          AckLighter(n, sys.cfg[u], sys.start[u], w.provers[u], m, env);
        }
      case UpdateReq(_, _, _, _, _, _, _) =>
        UpdateFindsParent(sys, w, u, m);
        UpdateLighter(n, sys.cfg[u], sys.start[u], w.provers[u], m);
    }
  }

  lemma EventLighter(sys: System, w: World, ev: Event, ids: seq<Uid>)
    requires ValidSystem(sys) && HandshakeInv(sys, w) && Enabled(sys, w, ev) && Actor(w, ev).Some? && Lists(sys, ids)
    ensures var u := Actor(w, ev).value;
            && u in w.provers && u in sys.start
            && Lighter(|ids|, sys.start[u], w.provers[u], EffectOf(sys, w, ev), Paid(w, ev))
  {
    if ev.Deliver? {
      var u := Actor(w, ev).value;
      At(sys, w, u);
      GoodEvent(sys, w, ev);
      InRangeFits(sys, ids, u, ev.env);
      DeliveryLighter(sys, w, u, ev.k, ev.env, |ids|);
    } else {
      TimerLighter(sys, w, ev, ids);
    }
  }

  lemma TimerLighter(sys: System, w: World, ev: Event, ids: seq<Uid>)
    requires ValidSystem(sys) && HandshakeInv(sys, w) && Enabled(sys, w, ev) && Actor(w, ev).Some? && Lists(sys, ids)
    requires !ev.Deliver?
    ensures ev.u in w.provers && ev.u in sys.start
    ensures Lighter(|ids|, sys.start[ev.u], w.provers[ev.u], EffectOf(sys, w, ev), 0)
  {
    At(sys, w, ev.u);
    var c, st, p := sys.cfg[ev.u], sys.start[ev.u], w.provers[ev.u];
    if ev.TreeTimer? || ev.AckTimeout? {
      StartLighter(sys, w, ev, ids);
    } else if ev.RespTimeout? {
      RespTimeoutLighter(|ids|, c, st, p);
    } else if ev.UpdateTimeout? {
      UpdateTimeoutLighter(|ids|, c, st, p, ev.dev);
    }
  }

  /** The two timers that may start a tree. */
  lemma StartLighter(sys: System, w: World, ev: Event, ids: seq<Uid>)
    requires ValidSystem(sys) && HandshakeInv(sys, w) && Enabled(sys, w, ev) && Lists(sys, ids)
    requires ev.TreeTimer? || ev.AckTimeout?
    ensures ev.u in w.provers && ev.u in sys.start
    ensures Lighter(|ids|, sys.start[ev.u], w.provers[ev.u], EffectOf(sys, w, ev), 0)
  {
    At(sys, w, ev.u);
    InRangeFits(sys, ids, ev.u, ev.env);
    if ev.TreeTimer? {
      TreeTimerLighter(|ids|, sys.cfg[ev.u], sys.start[ev.u], w.provers[ev.u], ev.env);
    } else {
      AckTimeoutLighter(|ids|, sys.cfg[ev.u], sys.start[ev.u], w.provers[ev.u], ev.env);
    }
  }

  lemma AfterWeight(sys: System, w: World, u: Uid, e: Effect, gone: Option<nat>, g: map<(Uid, Uid), Grant>,
                    l: map<Uid, Link>,
                    ids: seq<Uid>, paid: nat)
    requires forall i :: 0 <= i < |ids| ==> ids[i] in w.provers && ids[i] in sys.start
    requires u in ids && (forall i, j :: 0 <= i < j < |ids| ==> ids[i] != ids[j])
    requires u in sys.start && u in w.provers && Lighter(|ids|, sys.start[u], w.provers[u], e, paid)
    requires if gone.Some? then InFlight(w, gone.value) && paid == MsgWeight(w.net[gone.value].value.msg) else paid == 0
    ensures Weight(sys, ids, After(w, u, e, gone, g, l)) < Weight(sys, ids, w)
  {
    ProversUpdate(sys, |ids|, ids, w.provers, u, e.p);
    NetConcat(Cleared(w.net, gone), Sent(e.out));
    if gone.Some? {
      NetUpdate(w.net, gone.value, None);
    }
  }

  lemma ActorLowers(sys: System, w: World, ev: Event, ids: seq<Uid>)
    requires ValidSystem(sys) && HandshakeInv(sys, w) && Enabled(sys, w, ev) && Actor(w, ev).Some? && Lists(sys, ids)
    requires forall i :: 0 <= i < |ids| ==> ids[i] in w.provers && ids[i] in sys.start
    ensures var e, g, l := EffectOf(sys, w, ev), GrantsOf(sys, w, ev), LinksOf(sys, w, ev);
            Weight(sys, ids, After(w, Actor(w, ev).value, e, Gone(ev), g, l)) < Weight(sys, ids, w)
  {
    EventLighter(sys, w, ev, ids);
    AfterWeight(sys, w, Actor(w, ev).value, EffectOf(sys, w, ev), Gone(ev), GrantsOf(sys, w, ev), LinksOf(sys, w, ev),
        ids, Paid(w, ev));
  }

  lemma OtherLowers(sys: System, w: World, ev: Event, ids: seq<Uid>)
    requires Enabled(sys, w, ev) && Actor(w, ev).None?
    requires forall i :: 0 <= i < |ids| ==> ids[i] in w.provers && ids[i] in sys.start
    ensures Step(sys, w, ev).provers == w.provers
    ensures Weight(sys, ids, Step(sys, w, ev)) < Weight(sys, ids, w)
  {
    var w' := Step(sys, w, ev);
    assert w'.net == w.net[ev.k := w'.net[ev.k]];
    NetUpdate(w.net, ev.k, w'.net[ev.k]);
  }

  /** Every event, whatever it is, lowers the weight. */
  lemma StepLowers(sys: System, w: World, ev: Event, ids: seq<Uid>)
    requires ValidSystem(sys) && HandshakeInv(sys, w) && Enabled(sys, w, ev) && Lists(sys, ids)
    requires forall i :: 0 <= i < |ids| ==> ids[i] in w.provers && ids[i] in sys.start
    ensures forall i :: 0 <= i < |ids| ==> ids[i] in Step(sys, w, ev).provers
    ensures Weight(sys, ids, Step(sys, w, ev)) < Weight(sys, ids, w)
  {
    if Actor(w, ev).Some? {
      ActorLowers(sys, w, ev, ids);
      StepIsAfter(sys, w, ev);
    } else {
      OtherLowers(sys, w, ev, ids);
    }
  }

  lemma {:induction false} RunLowers(sys: System, w: World, evs: seq<Event>, ids: seq<Uid>)
    requires ValidSystem(sys) && Inv(sys, w) && CanRun(sys, w, evs) && Lists(sys, ids)
    requires forall i :: 0 <= i < |ids| ==> ids[i] in w.provers && ids[i] in sys.start
    ensures |evs| <= Weight(sys, ids, w)
    decreases |evs|
  {
    if evs != [] {
      StepLowers(sys, w, evs[0], ids);
      StepInv(sys, w, evs[0]);
      RunLowers(sys, Step(sys, w, evs[0]), evs[1..], ids);
    }
  }

  lemma {:induction false} InitialWeight(sys: System, n: nat, ids: seq<Uid>, ps: map<Uid, Prover>)
    requires forall i :: 0 <= i < |ids| ==>
               ids[i] in ps && ids[i] in sys.start && ps[ids[i]] == FreshProver(sys.start[ids[i]])
    ensures ProversWeight(sys, n, ids, ps) == |ids| * (5 * n + 5)
  {
    if ids != [] {
      InitialWeight(sys, n, ids[1..], ps);
      assert |ids| * (5 * n + 5) == (|ids| - 1) * (5 * n + 5) + (5 * n + 5);
    }
  }

  lemma InitialBound(sys: System, w0: World, ids: seq<Uid>)
    requires ValidSystem(sys) && Init(sys, w0) && Lists(sys, ids)
    ensures forall i :: 0 <= i < |ids| ==> ids[i] in w0.provers && ids[i] in sys.start
    ensures Weight(sys, ids, w0) == |ids| * (5 * |ids| + 5)
  {
    InitialWeight(sys, |ids|, ids, w0.provers);
  }

  /** A round over n provers ends after at most n * (5n + 5) events, however they interleave. */
  lemma RoundTerminates(sys: System, w0: World, evs: seq<Event>, ids: seq<Uid>)
    requires ValidSystem(sys) && Init(sys, w0) && CanRun(sys, w0, evs) && Lists(sys, ids)
    ensures |evs| <= |ids| * (5 * |ids| + 5)
  {
    InitInv(sys, w0);
    InitialBound(sys, w0, ids);
    RunLowers(sys, w0, evs, ids);
  }

  // ------------------------------------------------------------ nobody is left behind

  /** A prover without a pending timer has reported: nothing waits for a message that may be lost. */
  lemma TimerlessMeansReported(c: Config, st: Start, p: Prover)
    requires PhaseInv(c, st, p)
    requires !p.checkTimer && !p.treeTimer && p.ackTimer.None? && p.respTimer.None? && p.upTimers == map[]
    ensures Done(st, p)
  {
    if p.status == Collecting && !Done(st, p) {
      OnlyPlaceholder(p);
    }
  }

  lemma OnlyPlaceholder(p: Prover)
    requires NOID in p.children && p.upTimers.Keys == p.children.Keys - {NOID} && p.upTimers == map[]
    ensures |p.children| == 1
  {
    assert p.children.Keys == {NOID};
    CardRemove(p.children, NOID);
    assert |(p.children - {NOID}).Keys| == 0;
  }

  /** When a run cannot go on, nothing is in flight and every prover has reported exactly once. */
  lemma QuietRoundIsComplete(sys: System, w0: World, evs: seq<Event>, w: World, u: Uid)
    requires Reached(sys, w0, evs, w) && u in w.provers
    requires forall ev: Event :: !Enabled(sys, w, ev)
    ensures u in sys.start && w.provers[u].count == sys.start[u].count + 1
    ensures forall k: nat :: !InFlight(w, k)
  {
    ReachedInv(sys, w0, evs, w);
    At(sys, w, u);
    QuietTimers(sys, w, u);
    TimerlessMeansReported(sys.cfg[u], sys.start[u], w.provers[u]);
    forall k: nat
      ensures !InFlight(w, k)
    {
      assert !Enabled(sys, w, Lose(k));
    }
  }

  lemma QuietTimers(sys: System, w: World, u: Uid)
    requires u in w.provers && u in sys.cfg && forall ev: Event :: !Enabled(sys, w, ev)
    ensures var p := w.provers[u];
            !p.checkTimer && !p.treeTimer && p.ackTimer.None? && p.respTimer.None? && p.upTimers == map[]
  {
    var p := w.provers[u];
    assert !Enabled(sys, w, CheckDone(u));
    assert !Enabled(sys, w, TreeTimer(u, NO_ENV));
    assert !Enabled(sys, w, AckTimeout(u, NO_ENV));
    assert !Enabled(sys, w, RespTimeout(u));
    forall d
      ensures d !in p.upTimers
    {
      assert !Enabled(sys, w, UpdateTimeout(u, d));
    }
  }
}
