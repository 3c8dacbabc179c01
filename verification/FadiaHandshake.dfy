/** Every enabled event keeps the handshake invariant, without alert or fault. */
module FadiaHandshake {
  import opened Wrappers
  import opened FadiaReport
  import opened FadiaProver
  import opened FadiaRound
  import opened FadiaLocal
  import opened FadiaFrame

  function Cleared(net: seq<Option<Envelope>>, gone: Option<nat>): (r: seq<Option<Envelope>>)
    ensures |r| == |net|
    ensures forall k :: 0 <= k < |net| ==> r[k] == if gone == Some(k) then None else net[k]
  {
    if gone.Some? && gone.value < |net| then net[gone.value := None] else net
  }

  /** The world after effect e on prover u. */
  function After(w: World, u: Uid, e: Effect, gone: Option<nat>, g: map<(Uid, Uid), Grant>, l: map<Uid, Link>): World {
    World(w.provers[u := e.p], Cleared(w.net, gone) + Sent(e.out), w.collected, w.sum, w.grants + g, w.links + l)
  }

  function Gone(ev: Event): Option<nat> {
    if ev.Deliver? then Some(ev.k) else None
  }

  function GrantsOf(sys: System, w: World, ev: Event): map<(Uid, Uid), Grant>
    requires Enabled(sys, w, ev) && Actor(w, ev).Some?
  {
    if ev.Deliver?
    then NewGrants(sys.cfg[Actor(w, ev).value], w.provers[Actor(w, ev).value], w.net[ev.k].value.msg)
    else map[]
  }

  function LinksOf(sys: System, w: World, ev: Event): map<Uid, Link>
    requires Enabled(sys, w, ev) && Actor(w, ev).Some?
  {
    if ev.Deliver? then NewLinks(sys.cfg[Actor(w, ev).value], w.provers[Actor(w, ev).value], w.net[ev.k].value.msg)
        else map[]
  }

  lemma StepIsAfter(sys: System, w: World, ev: Event)
    requires Enabled(sys, w, ev) && Actor(w, ev).Some?
    ensures Step(sys, w, ev)
            == After(w, Actor(w, ev).value, EffectOf(sys, w, ev), Gone(ev), GrantsOf(sys, w, ev), LinksOf(sys, w, ev))
  {
    assert w.grants + map[] == w.grants && w.links + map[] == w.links;
  }

  lemma AfterNet(w: World, u: Uid, e: Effect, gone: Option<nat>, g: map<(Uid, Uid), Grant>, l: map<Uid, Link>)
    ensures var w' := After(w, u, e, gone, g, l);
            && NetGrows(w, w', gone) && |w'.net| == |w.net| + |e.out|
            && forall k: nat :: |w.net| <= k < |w'.net| ==> w'.net[k] == Some(e.out[k - |w.net|])
  {
  }

  // ------------------------------------------------------------ effects that change no commitment

  /** The prover moves on without touching its offer, and sends at most one update. */
  ghost predicate Keeps(p: Prover, e: Effect) {
    && e.p.offer == p.offer && p.count <= e.p.count
    && (e.p.parent == NOID || (e.p.parent == p.parent && e.p.session == p.session))
    && (forall d :: d in e.p.children ==> d in p.children && e.p.children[d] == p.children[d])
    && (Uncommitted(e.p) ==> Uncommitted(p))
    && |e.out| <= 1 && (forall i :: 0 <= i < |e.out| ==> e.out[i].msg.UpdateReq?)
  }

  lemma AfterProvers(sys: System, w: World, u: Uid, e: Effect, gone: Option<nat>, g: map<(Uid, Uid), Grant>,
                     l: map<Uid, Link>)
    requires u in w.provers && u in sys.cfg && u in sys.start
    requires PhaseInv(sys.cfg[u], sys.start[u], e.p) && w.provers[u].count <= e.p.count
    requires w.provers[u].offer.Some? ==> e.p.offer == w.provers[u].offer
    ensures OneProver(sys, w, After(w, u, e, gone, g, l), u)
  {
    CountBound(sys.cfg[u], sys.start[u], e.p);
    assert w.provers[u := e.p].Keys == w.provers.Keys;
  }

  lemma SameHistory(w: World, u: Uid, e: Effect, gone: Option<nat>)
    ensures var w' := After(w, u, e, gone, map[], map[]);
            w'.grants == w.grants && w'.links == w.links && HistoryGrows(w, w', u, gone)
  {
    var w' := After(w, u, e, gone, map[], map[]);
    assert w'.grants == w.grants && w'.links == w.links;
  }

  lemma CountBound(c: Config, st: Start, p: Prover)
    requires PhaseInv(c, st, p)
    ensures st.count <= p.count <= st.count + 1
    ensures Uncommitted(p) ==> p.count == st.count && p.offer.None?
    ensures p.offer.Some? ==> p.status == Creating || p.status == Collecting || p.status == Finished
  {
  }

  lemma KeepParent(sys: System, w: World, w': World, u: Uid, e: Effect)
    requires u in w.provers && OneProver(sys, w, w', u) && w'.grants == w.grants && w'.links == w.links
    requires w'.provers[u] == e.p && Keeps(w.provers[u], e)
    requires ParentOk(sys, w, u)
    ensures ParentOk(sys, w', u)
  {
    var p := w.provers[u];
    if e.p.parent != NOID {
      OfferedStays(sys, w, w', u, p.parent, p.session.value.depth, p.session.value.tree);
    }
  }

  lemma KeepLink(sys: System, w: World, w': World, u: Uid, e: Effect)
    requires u in w.provers && OneProver(sys, w, w', u) && w'.grants == w.grants && w'.links == w.links
    requires w'.provers[u] == e.p && Keeps(w.provers[u], e)
    requires u in w.links ==> LinkOk(sys, w, u)
    ensures u in w'.links ==> LinkOk(sys, w', u)
  {
    if u in w.links {
      var l := w.links[u];
      OfferedStays(sys, w, w', u, l.parent, l.depth, l.tree);
    }
  }

  lemma KeepPairs(w: World, u: Uid, e: Effect, gone: Option<nat>)
    requires u in w.provers && Keeps(w.provers[u], e)
    ensures NewPairs(w, After(w, u, e, gone, map[], map[]), u, gone)
  {
    AfterNet(w, u, e, gone, map[], map[]);
  }

  lemma AfterNewOk(sys: System, w: World, u: Uid, e: Effect, gone: Option<nat>, g: map<(Uid, Uid), Grant>,
                   l: map<Uid, Link>)
    requires forall i :: 0 <= i < |e.out| ==> EnvOk(sys, After(w, u, e, gone, g, l), e.out[i])
    ensures NewOk(sys, w, After(w, u, e, gone, g, l))
  {
    AfterNet(w, u, e, gone, g, l);
  }

  lemma KeepFits(sys: System, w: World, u: Uid, e: Effect, gone: Option<nat>)
    requires ValidSystem(sys) && HandshakeInv(sys, w) && u in w.provers && Keeps(w.provers[u], e)
    requires LocalInv(sys.cfg[u], sys.start[u], e.p)
    requires forall i :: 0 <= i < |e.out| ==> EnvOk(sys, After(w, u, e, gone, map[], map[]), e.out[i])
    ensures HandshakeInv(sys, After(w, u, e, gone, map[], map[]))
  {
    var w' := After(w, u, e, gone, map[], map[]);
    AfterNet(w, u, e, gone, map[], map[]);
    AfterProvers(sys, w, u, e, gone, map[], map[]);
    SameHistory(w, u, e, gone);
    KeepParent(sys, w, w', u, e);
    KeepLink(sys, w, w', u, e);
    KeepPairs(w, u, e, gone);
    AfterNewOk(sys, w, u, e, gone, map[], map[]);
    KeepChildren(sys, w, u, e, gone);
    StepFits(sys, w, w', u, gone);
  }

  lemma KeepChildren(sys: System, w: World, u: Uid, e: Effect, gone: Option<nat>)
    requires GrantsInv(sys, w) && u in w.provers && Keeps(w.provers[u], e)
    ensures ChildrenOk(After(w, u, e, gone, map[], map[]), u)
  {
    SameHistory(w, u, e, gone);
  }

  // ------------------------------------------------------------ reporting

  lemma ReportEnv(sys: System, w': World, u: Uid, q: Prover, e: Effect, tid: TreeId)
    requires u in sys.cfg && u in sys.start && u in w'.provers && w'.provers[u] == e.p
    requires sys.cfg[u].uid == u && sys.cfg[u].aggSize == sys.aggSize
    requires Reports(sys.cfg[u], sys.start[u], q, e, tid)
    requires q.parent != NOID ==> q.parent in sys.cfg && Linked(w', u, q.parent) && w'.links[u].tree == tid
    ensures EnvOk(sys, w', e.out[0])
  {
  }

  lemma ReportOut(sys: System, w: World, u: Uid, q: Prover, e: Effect, tid: TreeId, gone: Option<nat>)
    requires ValidSystem(sys) && u in sys.cfg && Reports(sys.cfg[u], sys.start[u], q, e, tid)
    requires q.parent != NOID ==> q.parent in sys.cfg && Linked(w, u, q.parent) && w.links[u].tree == tid
    ensures forall i :: 0 <= i < |e.out| ==> EnvOk(sys, After(w, u, e, gone, map[], map[]), e.out[i])
  {
    SameHistory(w, u, e, gone);
    ReportEnv(sys, After(w, u, e, gone, map[], map[]), u, q, e, tid);
  }

  /** What the network's invariant says about one prover. */
  ghost predicate AtOk(sys: System, w: World, u: Uid) {
    && u in w.provers && u in sys.cfg && u in sys.start && sys.cfg[u].uid == u && u != NOID
    && GoodConfig(sys.cfg[u]) && sys.cfg[u].maxDepth == sys.maxDepth && sys.cfg[u].aggSize == sys.aggSize
    && ParentOk(sys, w, u) && RootOk(sys, w, u) && (u in w.links ==> LinkOk(sys, w, u))
    && ChildrenOk(w, u)
  }

  lemma At(sys: System, w: World, u: Uid)
    requires ValidSystem(sys) && HandshakeInv(sys, w) && u in w.provers
    ensures AtOk(sys, w, u) && LocalInv(sys.cfg[u], sys.start[u], w.provers[u])
  {
  }

  lemma ReportKeeps(c: Config, st: Start, p: Prover, q: Prover, e: Effect, tid: TreeId)
    requires Reports(c, st, q, e, tid) && q.offer == p.offer && PhaseInv(c, st, p)
    ensures Keeps(p, e)
  {
    CountBound(c, st, p);
  }

  lemma ReportFits(sys: System, w: World, u: Uid, q: Prover, e: Effect, tid: TreeId, gone: Option<nat>)
    requires ValidSystem(sys) && HandshakeInv(sys, w) && u in w.provers
    requires LocalInv(sys.cfg[u], sys.start[u], e.p) && Reports(sys.cfg[u], sys.start[u], q, e, tid)
    requires q.offer == w.provers[u].offer
    requires q.parent != NOID ==> q.parent in sys.cfg && Linked(w, u, q.parent) && w.links[u].tree == tid
    ensures HandshakeInv(sys, After(w, u, e, gone, map[], map[]))
  {
    ReportKeeps(sys.cfg[u], sys.start[u], w.provers[u], q, e, tid);
    ReportOut(sys, w, u, q, e, tid, gone);
    KeepFits(sys, w, u, e, gone);
  }

  // ------------------------------------------------------------ offering

  lemma UncommittedUnlinked(sys: System, w: World, u: Uid)
    requires LinksInv(sys, w) && u in w.provers && Uncommitted(w.provers[u])
    ensures u !in w.links
  {
  }

  ghost predicate NotParentYet(w: World, u: Uid) {
    (forall v :: (u, v) !in w.grants) && (forall v :: v in w.links ==> w.links[v].parent != u)
  }

  /** Before its offer a prover has granted nothing and is nobody's parent. */
  lemma NothingBeforeOffer(sys: System, w: World, u: Uid)
    requires GrantsInv(sys, w) && LinksInv(sys, w) && u in w.provers && w.provers[u].offer.None?
    ensures NotParentYet(w, u)
  {
    assert forall g :: g in w.grants ==> GrantOk(sys, w, g);
    forall v | v in w.links
      ensures w.links[v].parent != u
    {
      assert LinkOk(sys, w, v);
    }
  }

  lemma BroadcastOk(sys: System, w: World, w': World, u: Uid, depth: nat, tree: TreeId, env: Env)
    requires ValidSystem(sys) && u in sys.cfg && NotParentYet(w, u) && GoodEnv(sys, u, env)
    requires Offered(w', u, depth, tree) && 1 <= depth <= sys.maxDepth
    requires w'.grants == w.grants && forall v :: v != u && v in w'.links ==> v in w.links && w'.links[v] == w.links[v]
    ensures var out := Broadcast(sys.cfg[u], depth, tree, env.inRange);
            forall i :: 0 <= i < |out| ==> EnvOk(sys, w', out[i])
  {
  }

  lemma BroadcastPairs(sys: System, w: World, u: Uid, e: Effect, gone: Option<nat>,
                       g: map<(Uid, Uid), Grant>, l: map<Uid, Link>, depth: nat, tree: TreeId, env: Env)
    requires u in sys.cfg && sys.cfg[u].uid == u && u in w.provers && w.provers[u].offer.None? && GoodEnv(sys, u, env)
    requires e.out == Broadcast(sys.cfg[u], depth, tree, env.inRange)
    ensures NewPairs(w, After(w, u, e, gone, g, l), u, gone)
  {
    AfterNet(w, u, e, gone, g, l);
    var w' := After(w, u, e, gone, g, l);
    var n := |w.net|;
    forall k: nat, j: nat | n <= k && InFlight(w', k) && n <= j && InFlight(w', j) && k != j
      ensures !SamePair(w'.net[k].value, w'.net[j].value)
    {
      assert w'.net[k] == Some(e.out[k - n]) && w'.net[j] == Some(e.out[j - n]);
      assert Pair(e.out[k - n]) == Some((u, env.inRange[k - n])) && Pair(e.out[j - n]) == Some((u, env.inRange[j - n]));
    }
  }

  lemma RootOfferFits(sys: System, w: World, u: Uid, q: Prover, e: Effect, tree: TreeId, env: Env)
    requires ValidSystem(sys) && HandshakeInv(sys, w) && u in w.provers && Uncommitted(w.provers[u])
    requires LocalInv(sys.cfg[u], sys.start[u], e.p) && GoodEnv(sys, u, env)
    requires Offers(sys.cfg[u], q, e, sys.maxDepth, tree, env) && q.parent == NOID && q.count == w.provers[u].count
    ensures HandshakeInv(sys, After(w, u, e, None, map[], map[]))
  {
    var w' := After(w, u, e, None, map[], map[]);
    CountBound(sys.cfg[u], sys.start[u], w.provers[u]);
    AfterNet(w, u, e, None, map[], map[]);
    AfterProvers(sys, w, u, e, None, map[], map[]);
    SameHistory(w, u, e, None);
    UncommittedUnlinked(sys, w, u);
    NothingBeforeOffer(sys, w, u);
    BroadcastOk(sys, w, w', u, sys.maxDepth, tree, env);
    BroadcastPairs(sys, w, u, e, None, map[], map[], sys.maxDepth, tree, env);
    AfterNewOk(sys, w, u, e, None, map[], map[]);
    StepFits(sys, w, w', u, None);
  }

  // ------------------------------------------------------------ commit requests and responses

  lemma AnswerPairs(w: World, u: Uid, e: Effect, gone: Option<nat>, g: map<(Uid, Uid), Grant>, l: map<Uid, Link>)
    requires u in w.provers && |e.out| == 1 && Pair(e.out[0]) == PairOf(w, gone)
    ensures NewPairs(w, After(w, u, e, gone, g, l), u, gone)
  {
    AfterNet(w, u, e, gone, g, l);
  }

  lemma NoChildrenOk(w: World, u: Uid)
    requires u in w.provers && w.provers[u].children.Keys <= {NOID}
    ensures ChildrenOk(w, u)
  {
  }

  lemma ReqAcceptStep(sys: System, w: World, u: Uid, k: nat, e: Effect)
    requires ValidSystem(sys) && InFlight(w, k) && w.net[k].value.msg.CommitReq?
    requires u in sys.cfg && u in sys.start && w.net[k].value.to == AtProver(u) && u in w.provers
    requires ReqOk(sys, w, AtProver(u), w.net[k].value.msg)
    requires w.provers[u].status == Ready && LocalInv(sys.cfg[u], sys.start[u], w.provers[u]) && u !in w.links
    requires FirstShared(w.net[k].value.msg.kids, sys.cfg[u].ring).Some?
    requires e == OnCommitReq(sys.cfg[u], w.provers[u], w.net[k].value.msg)
    requires Clean(e) && LocalInv(sys.cfg[u], sys.start[u], e.p)
    ensures var w' := After(w, u, e, Some(k), map[], map[]);
            Moves(sys, w, w', u, Some(k)) && Fits(sys, w, w', u, Some(k))
  {
    var m := w.net[k].value.msg;
    var w' := After(w, u, e, Some(k), map[], map[]);
    AfterNet(w, u, e, Some(k), map[], map[]);
    AfterProvers(sys, w, u, e, Some(k), map[], map[]);
    SameHistory(w, u, e, Some(k));
    ReqAcceptOk(sys, w, w', u, m, e);
    AfterNewOk(sys, w, u, e, Some(k), map[], map[]);
    AnswerPairs(w, u, e, Some(k), map[], map[]);
    NoChildrenOk(w', u);
  }

  lemma ReqAcceptOk(sys: System, w: World, w': World, u: Uid, m: Message, e: Effect)
    requires m.CommitReq? && ReqOk(sys, w, AtProver(u), m) && sys.cfg[u].uid == u
    requires u in w.provers && OneProver(sys, w, w', u) && w'.grants == w.grants && w'.links == w.links
    requires w.provers[u].status == Ready && FirstShared(m.kids, sys.cfg[u].ring).Some?
    requires e == OnCommitReq(sys.cfg[u], w.provers[u], m) && Clean(e) && w'.provers[u] == e.p
    ensures ParentOk(sys, w', u) && |e.out| == 1 && EnvOk(sys, w', e.out[0])
    ensures Pair(e.out[0]) == Some((m.src, u))
  {
    OfferedStays(sys, w, w', u, m.src, m.depth, m.tree);
  }

  lemma RespAcceptOk(sys: System, w: World, w': World, u: Uid, m: Message)
    requires m.CommitResp? && RespOk(sys, w, AtProver(u), m)
    requires u in w.provers && OneProver(sys, w, w', u) && w'.links == w.links
    requires w'.grants == w.grants[(u, m.src) := Grant(m.kid, m.tree)]
    ensures GrantOk(sys, w', (u, m.src)) || m.src !in w.provers
    ensures AckOk(sys, w', AtProver(m.src), CommitAck(u, m.src, m.tree))
  {
    OfferedStays(sys, w, w', u, u, 0, m.tree);
  }

  lemma RespChildren(w: World, w': World, u: Uid, m: Message)
    requires m.CommitResp? && u in w.provers && u in w'.provers && ChildrenOk(w, u)
    requires w'.grants == w.grants[(u, m.src) := Grant(m.kid, m.tree)] && (u, m.src) !in w.grants
    requires w'.provers[u].children == w.provers[u].children[m.src := Session(m.tree, m.src, m.kid, 0, true)]
    ensures ChildrenOk(w', u)
  {
  }

  /** A recorded child: same offer, parent and report, one more child. */
  ghost predicate Records1(p: Prover, m: Message, e: Effect, uid: Uid)
    requires m.CommitResp?
  {
    && e.out == [Envelope(AtProver(m.src), CommitAck(uid, m.src, m.tree))]
    && (e.p == WithChild(p, m) || e.p == WithChild(p, m).(status := Collecting, respTimer := None))
  }

  lemma GrantHistory(w: World, u: Uid, e: Effect, k: nat, pair: (Uid, Uid), grant: Grant)
    requires pair !in w.grants && PairOf(w, Some(k)) == Some(pair)
    ensures var w' := After(w, u, e, Some(k), map[pair := grant], map[]);
            && w'.grants == w.grants[pair := grant] && w'.links == w.links
            && HistoryGrows(w, w', u, Some(k))
            && forall g :: g in w'.grants && g !in w.grants ==> g == pair
  {
    var w' := After(w, u, e, Some(k), map[pair := grant], map[]);
    assert w'.grants == w.grants[pair := grant] && w'.links == w.links;
  }

  /** The message, the prover and the effect of a response that is recorded. */
  ghost predicate RespAccepted(sys: System, w: World, u: Uid, k: nat, e: Effect) {
    && InFlight(w, k) && w.net[k].value.msg.CommitResp? && w.net[k].value.to == AtProver(u)
    && u in sys.cfg && u in sys.start && u in w.provers && w.provers[u].status == Creating
    && RespOk(sys, w, AtProver(u), w.net[k].value.msg)
    && Records1(w.provers[u], w.net[k].value.msg, e, u)
  }

  lemma RespAcceptMoves(sys: System, w: World, u: Uid, k: nat, e: Effect)
    requires RespAccepted(sys, w, u, k, e) && PhaseInv(sys.cfg[u], sys.start[u], e.p)
    ensures var m := w.net[k].value.msg;
            var w' := After(w, u, e, Some(k), map[(u, m.src) := Grant(m.kid, m.tree)], map[]);
            && Moves(sys, w, w', u, Some(k)) && w'.links == w.links
            && w'.grants == w.grants[(u, m.src) := Grant(m.kid, m.tree)]
            && NewPairs(w, w', u, Some(k))
  {
    var m := w.net[k].value.msg;
    var g: map<(Uid, Uid), Grant> := map[(u, m.src) := Grant(m.kid, m.tree)];
    AfterNet(w, u, e, Some(k), g, map[]);
    AfterProvers(sys, w, u, e, Some(k), g, map[]);
    GrantHistory(w, u, e, k, (u, m.src), Grant(m.kid, m.tree));
    AnswerPairs(w, u, e, Some(k), g, map[]);
  }

  lemma RespAcceptFits(sys: System, w: World, u: Uid, k: nat, e: Effect)
    requires RespAccepted(sys, w, u, k, e) && w.provers.Keys == sys.cfg.Keys && ChildrenOk(w, u)
    requires ParentOk(sys, w, u) && RootOk(sys, w, u) && (u in w.links ==> LinkOk(sys, w, u))
    requires var m := w.net[k].value.msg;
             var w' := After(w, u, e, Some(k), map[(u, m.src) := Grant(m.kid, m.tree)], map[]);
             && OneProver(sys, w, w', u) && w'.links == w.links
             && w'.grants == w.grants[(u, m.src) := Grant(m.kid, m.tree)]
             && NewPairs(w, w', u, Some(k))
    ensures var m := w.net[k].value.msg;
            Fits(sys, w, After(w, u, e, Some(k), map[(u, m.src) := Grant(m.kid, m.tree)], map[]), u, Some(k))
  {
    var m := w.net[k].value.msg;
    var g: map<(Uid, Uid), Grant> := map[(u, m.src) := Grant(m.kid, m.tree)];
    var w' := After(w, u, e, Some(k), g, map[]);
    RespAcceptOk(sys, w, w', u, m);
    RespChildren(w, w', u, m);
    RespParent(sys, w, w', u);
    AfterNewOk(sys, w, u, e, Some(k), g, map[]);
  }

  /** Parent side of u when only its children changed. */
  lemma RespParent(sys: System, w: World, w': World, u: Uid)
    requires u in w.provers && OneProver(sys, w, w', u) && ParentOk(sys, w, u)
    requires w'.links == w.links && (forall g :: g in w.grants ==> g in w'.grants && w'.grants[g] == w.grants[g])
    requires u in w.links ==> LinkOk(sys, w, u)
    requires RootOk(sys, w, u)
    requires w'.provers[u].parent == w.provers[u].parent && w'.provers[u].session == w.provers[u].session
    requires w'.provers[u].offer == w.provers[u].offer && !Uncommitted(w'.provers[u])
    ensures ParentOk(sys, w', u) && RootOk(sys, w', u) && (u in w'.links ==> LinkOk(sys, w', u))
  {
    var p := w.provers[u];
    if p.parent != NOID {
      OfferedStays(sys, w, w', u, p.parent, p.session.value.depth, p.session.value.tree);
    }
    if u in w.links {
      var l := w.links[u];
      OfferedStays(sys, w, w', u, l.parent, l.depth, l.tree);
    }
  }

  // ------------------------------------------------------------ acknowledgments

  /** u waits for the acknowledgment k that has arrived; e is what it does next. */
  ghost predicate AckAccepted(sys: System, w: World, u: Uid, k: nat, e: Effect) {
    && InFlight(w, k) && w.net[k].value.msg.CommitAck? && w.net[k].value.to == AtProver(u)
    && u in sys.cfg && u in sys.start && u in w.provers && u !in w.links
    && AckOk(sys, w, AtProver(u), w.net[k].value.msg)
    && Uncommitted(w.provers[u]) && w.provers[u].session.Some? && w.provers[u].parent == w.net[k].value.msg.src != NOID
    && Waiting(sys.cfg[u], w.provers[u]) && Fresh(sys.start[u], w.provers[u])
    && w.provers[u].count <= e.p.count && !Uncommitted(e.p)
    && e.p.children.Keys <= {NOID} && (e.p.parent == NOID || e.p.parent == w.provers[u].parent)
  }

  function LinkFor(p: Prover): Link
    requires p.session.Some?
  {
    Link(p.parent, p.session.value.depth, p.session.value.tree, p.session.value.key)
  }

  lemma LinkHistory(w: World, u: Uid, e: Effect, k: nat, l: Link)
    requires u !in w.links && PairOf(w, Some(k)) == Some((l.parent, u))
    ensures var w' := After(w, u, e, Some(k), map[], map[u := l]);
            && w'.grants == w.grants && w'.links == w.links[u := l]
            && HistoryGrows(w, w', u, Some(k))
  {
    var w' := After(w, u, e, Some(k), map[], map[u := l]);
    assert w'.grants == w.grants && w'.links == w.links[u := l];
  }

  /** The parent of an accepted acknowledgment recorded this very child, key and tree. */
  lemma AckAgreement(sys: System, w: World, u: Uid, m: Message)
    requires m.CommitAck? && AckOk(sys, w, AtProver(u), m) && u in w.provers && w.provers[u].parent == m.src
    requires (m.src, u) in w.grants ==> GrantOk(sys, w, (m.src, u))
    requires ParentOk(sys, w, u) && m.src != NOID
    ensures w.provers[u].session.Some?
    ensures m.tree == w.provers[u].session.value.tree
    ensures (m.src, u) in w.grants && w.grants[(m.src, u)] == Grant(w.provers[u].session.value.key, m.tree)
    ensures Offered(w, m.src, w.provers[u].session.value.depth, m.tree)
  {
  }

  lemma AckMoves(sys: System, w: World, u: Uid, k: nat, e: Effect)
    requires AckAccepted(sys, w, u, k, e) && PhaseInv(sys.cfg[u], sys.start[u], e.p)
    ensures var w' := After(w, u, e, Some(k), map[], map[u := LinkFor(w.provers[u])]);
            && Moves(sys, w, w', u, Some(k)) && w'.grants == w.grants && w'.links == w.links[u := LinkFor(w.provers[u])]
  {
    var l := map[u := LinkFor(w.provers[u])];
    AfterNet(w, u, e, Some(k), map[], l);
    AfterProvers(sys, w, u, e, Some(k), map[], l);
    LinkHistory(w, u, e, k, LinkFor(w.provers[u]));
  }

  /** The new link, and the parent side of the new state. */
  lemma AckLinkOk(sys: System, w: World, w': World, u: Uid, m: Message, q: Prover)
    requires u in w.provers && OneProver(sys, w, w', u) && w'.provers[u] == q && !Uncommitted(q)
    requires w.provers[u].session.Some? && w.provers[u].parent == m.src
    requires m.CommitAck? && m.src != NOID && m.src != u && m.tree == w.provers[u].session.value.tree
    requires (m.src, u) in w.grants && w.grants[(m.src, u)] == Grant(w.provers[u].session.value.key, m.tree)
    requires Offered(w, m.src, w.provers[u].session.value.depth, m.tree)
    requires 1 <= w.provers[u].session.value.depth <= sys.maxDepth
    requires SharedKey(sys, u, m.src, w.provers[u].session.value.key)
    requires w'.grants == w.grants && w'.links == w.links[u := LinkFor(w.provers[u])]
    requires q.parent == NOID || (q.parent == m.src && q.session == Some(w.provers[u].session.value.(valid := true)))
    requires q.offer.Some? ==>
               && w.provers[u].session.value.depth >= 2
               && q.offer == Some(Offer(w.provers[u].session.value.depth - 1, m.tree))
    ensures ParentOk(sys, w', u) && LinkOk(sys, w', u) && RootOk(sys, w', u)
  {
    OfferedStays(sys, w, w', u, m.src, w.provers[u].session.value.depth, m.tree);
  }

  /** Accepting the acknowledgment of the last level: the report goes straight to the parent. */
  lemma AckReportFits(sys: System, w: World, u: Uid, k: nat, e: Effect, q: Prover)
    requires AtOk(sys, w, u) && AckAccepted(sys, w, u, k, e)
    requires var m := w.net[k].value.msg; (m.src, u) in w.grants ==> GrantOk(sys, w, (m.src, u))
    requires q.parent == w.provers[u].parent && q.offer == w.provers[u].offer
    requires Reports(sys.cfg[u], sys.start[u], q, e, w.net[k].value.msg.tree)
    requires var w' := After(w, u, e, Some(k), map[], map[u := LinkFor(w.provers[u])]);
             OneProver(sys, w, w', u) && w'.grants == w.grants && w'.links == w.links[u := LinkFor(w.provers[u])]
    ensures Fits(sys, w, After(w, u, e, Some(k), map[], map[u := LinkFor(w.provers[u])]), u, Some(k))
  {
    var m := w.net[k].value.msg;
    var l := map[u := LinkFor(w.provers[u])];
    var w' := After(w, u, e, Some(k), map[], l);
    AckAgreement(sys, w, u, m);
    AckLinkOk(sys, w, w', u, m, e.p);
    ReportEnv(sys, w', u, q, e, m.tree);
    NewUpdate(sys, w, u, e, Some(k), map[], l);
    NoChildrenOk(w', u);
  }

  lemma NewUpdate(sys: System, w: World, u: Uid, e: Effect, gone: Option<nat>, g: map<(Uid, Uid), Grant>,
                  l: map<Uid, Link>)
    requires u in w.provers && |e.out| == 1 && e.out[0].msg.UpdateReq?
             && EnvOk(sys, After(w, u, e, gone, g, l), e.out[0])
    ensures NewOk(sys, w, After(w, u, e, gone, g, l)) && NewPairs(w, After(w, u, e, gone, g, l), u, gone)
  {
    AfterNet(w, u, e, gone, g, l);
  }

  lemma AckOfferNet(sys: System, w: World, u: Uid, k: nat, e: Effect, depth: nat, tree: TreeId, env: Env)
    requires ValidSystem(sys) && u in sys.cfg && GoodEnv(sys, u, env)
    requires u in w.provers && w.provers[u].offer.None? && w.provers[u].session.Some? && 1 <= depth <= sys.maxDepth
    requires NotParentYet(w, u)
    requires e.p.offer == Some(Offer(depth, tree)) && e.out == Broadcast(sys.cfg[u], depth, tree, env.inRange)
    requires var w' := After(w, u, e, Some(k), map[], map[u := LinkFor(w.provers[u])]);
             w'.grants == w.grants && w'.links == w.links[u := LinkFor(w.provers[u])]
    ensures var w' := After(w, u, e, Some(k), map[], map[u := LinkFor(w.provers[u])]);
            NewOk(sys, w, w') && NewPairs(w, w', u, Some(k))
  {
    var l := map[u := LinkFor(w.provers[u])];
    var w' := After(w, u, e, Some(k), map[], l);
    BroadcastOk(sys, w, w', u, depth, tree, env);
    BroadcastPairs(sys, w, u, e, Some(k), map[], l, depth, tree, env);
    AfterNewOk(sys, w, u, e, Some(k), map[], l);
  }

  /** Accepting an acknowledgment higher up: the prover offers places one level below. */
  lemma AckOfferFits(sys: System, w: World, u: Uid, k: nat, e: Effect, q: Prover, env: Env)
    requires AtOk(sys, w, u) && AckAccepted(sys, w, u, k, e)
    requires var m := w.net[k].value.msg; (m.src, u) in w.grants ==> GrantOk(sys, w, (m.src, u))
    requires q.parent == w.provers[u].parent && q.session == Some(w.provers[u].session.value.(valid := true))
    requires w.provers[u].session.value.depth >= 2
    requires Offers(sys.cfg[u], q, e, w.provers[u].session.value.depth - 1, w.net[k].value.msg.tree, env)
    requires var w' := After(w, u, e, Some(k), map[], map[u := LinkFor(w.provers[u])]);
             && OneProver(sys, w, w', u) && w'.grants == w.grants && w'.links == w.links[u := LinkFor(w.provers[u])]
             && NewOk(sys, w, w') && NewPairs(w, w', u, Some(k))
    ensures Fits(sys, w, After(w, u, e, Some(k), map[], map[u := LinkFor(w.provers[u])]), u, Some(k))
  {
    var m := w.net[k].value.msg;
    var w' := After(w, u, e, Some(k), map[], map[u := LinkFor(w.provers[u])]);
    AckAgreement(sys, w, u, m);
    AckLinkOk(sys, w, w', u, m, e.p);
    NoChildrenOk(w', u);
  }

  // ------------------------------------------------------------ every event

  /** The outcome of an event for the prover it concerns. */
  ghost predicate Good(sys: System, w: World, ev: Event)
    requires Enabled(sys, w, ev) && Actor(w, ev).Some?
  {
    Clean(EffectOf(sys, w, ev)) && HandshakeInv(sys, Step(sys, w, ev))
  }

  /** The effects that change no commitment: carry on, report, or become a root. */
  ghost predicate PlainCase(sys: System, w: World, u: Uid, e: Effect, q: Prover, tid: TreeId, env: Env,
                            gone: Option<nat>) {
    && u in w.provers && u in sys.cfg && u in sys.start
    && Clean(e) && LocalInv(sys.cfg[u], sys.start[u], e.p)
    && (|| (Keeps(w.provers[u], e) && e.out == [])
        || (&& Reports(sys.cfg[u], sys.start[u], q, e, tid) && q.offer == w.provers[u].offer
            && (q.parent != NOID ==> q.parent in sys.cfg && Linked(w, u, q.parent) && w.links[u].tree == tid))
        || (&& gone == None && Uncommitted(w.provers[u]) && GoodEnv(sys, u, env)
            && Offers(sys.cfg[u], q, e, sys.maxDepth, tid, env) && q.parent == NOID && q.count == w.provers[u].count))
  }

  lemma PlainFits(sys: System, w: World, u: Uid, e: Effect, q: Prover, tid: TreeId, env: Env, gone: Option<nat>)
    requires ValidSystem(sys) && HandshakeInv(sys, w) && PlainCase(sys, w, u, e, q, tid, env, gone)
    ensures HandshakeInv(sys, After(w, u, e, gone, map[], map[]))
  {
    if Keeps(w.provers[u], e) && e.out == [] {
      KeepFits(sys, w, u, e, gone);
    } else if Reports(sys.cfg[u], sys.start[u], q, e, tid) && q.offer == w.provers[u].offer {
      ReportFits(sys, w, u, q, e, tid, gone);
    } else {
      RootOfferFits(sys, w, u, q, e, tid, env);
    }
  }

  /** A prover that collects for a parent is linked to it in its own tree. */
  lemma ActiveLinked(sys: System, w: World, u: Uid)
    requires AtOk(sys, w, u) && Active(sys.cfg[u], sys.start[u], w.provers[u])
    ensures var p := w.provers[u];
            p.parent != NOID ==>
              p.parent in sys.cfg && Linked(w, u, p.parent) && w.links[u].tree == p.session.value.tree
  {
  }

  lemma TreeTimerCase(sys: System, w: World, u: Uid, env: Env)
    requires AtOk(sys, w, u) && LocalInv(sys.cfg[u], sys.start[u], w.provers[u]) && GoodEnv(sys, u, env)
    requires w.provers[u].treeTimer && !w.provers[u].checkTimer
    ensures var c, p := sys.cfg[u], w.provers[u];
            PlainCase(sys, w, u, OnTreeTimer(c, p, env),
                      p.(treeTimer := false, session := Some(RootSession(c, env.freshTree))), env.freshTree, env, None)
  {
    TreeTimerLocal(sys.cfg[u], sys.start[u], w.provers[u], env);
  }

  lemma AckTimeoutCase(sys: System, w: World, u: Uid, env: Env)
    requires AtOk(sys, w, u) && LocalInv(sys.cfg[u], sys.start[u], w.provers[u]) && GoodEnv(sys, u, env)
    requires w.provers[u].ackTimer.Some?
    ensures var c, p := sys.cfg[u], w.provers[u];
            PlainCase(sys, w, u, OnAckTimeout(c, p, env),
                      p.(ackTimer := None, parent := NOID, session := Some(RootSession(c, env.freshTree))),
                      env.freshTree, env, None)
  {
    AckTimeoutLocal(sys.cfg[u], sys.start[u], w.provers[u], env);
  }

  /** The tree a prover works in, when it is in one. */
  function TreeOf(p: Prover): TreeId {
    if p.session.Some? then p.session.value.tree else NOID
  }

  const NO_ENV := Env(NOID, [])

  lemma RespTimeoutCase(sys: System, w: World, u: Uid)
    requires AtOk(sys, w, u) && LocalInv(sys.cfg[u], sys.start[u], w.provers[u]) && w.provers[u].respTimer.Some?
    ensures var c, p := sys.cfg[u], w.provers[u];
            PlainCase(sys, w, u, OnRespTimeout(c, p), p.(respTimer := None, status := Collecting),
                      TreeOf(p), NO_ENV, None)
  {
    var c, p := sys.cfg[u], w.provers[u];
    RespTimeoutLocal(c, sys.start[u], p);
    RespTimerStatus(c, sys.start[u], p);
    if OnRespTimeout(c, p) != Quiet(p.(respTimer := None, status := Collecting)) {
      ActiveLinked(sys, w, u);
    }
  }

  lemma RespTimerStatus(c: Config, st: Start, p: Prover)
    requires PhaseInv(c, st, p) && p.respTimer.Some?
    ensures !Uncommitted(p)
  {
  }

  lemma UpdateTimeoutCase(sys: System, w: World, u: Uid, dev: Uid)
    requires AtOk(sys, w, u) && LocalInv(sys.cfg[u], sys.start[u], w.provers[u]) && dev in w.provers[u].upTimers
    ensures var c, p := sys.cfg[u], w.provers[u];
            PlainCase(sys, w, u, OnUpdateTimeout(c, p, dev),
                      p.(upTimers := p.upTimers - {dev}, children := p.children - {dev}), TreeOf(p), NO_ENV, None)
  {
    UpdateTimeoutLocal(sys.cfg[u], sys.start[u], w.provers[u], dev);
    ActiveLinked(sys, w, u);
  }

  lemma CheckCase(sys: System, w: World, u: Uid)
    requires AtOk(sys, w, u) && LocalInv(sys.cfg[u], sys.start[u], w.provers[u]) && w.provers[u].checkTimer
    ensures PlainCase(sys, w, u, OnCheck(w.provers[u]), w.provers[u], NOID, NO_ENV, None)
  {
    CheckLocal(sys.cfg[u], sys.start[u], w.provers[u]);
  }

  lemma GoodTimer(sys: System, w: World, ev: Event)
    requires ValidSystem(sys) && HandshakeInv(sys, w) && Enabled(sys, w, ev)
    requires ev.CheckDone? || ev.TreeTimer? || ev.AckTimeout? || ev.RespTimeout? || ev.UpdateTimeout?
    ensures Good(sys, w, ev)
  {
    if ev.CheckDone? || ev.RespTimeout? || ev.UpdateTimeout? {
      GoodLocalTimer(sys, w, ev);
    } else {
      var u, c, p := ev.u, sys.cfg[ev.u], w.provers[ev.u];
      At(sys, w, u);
      StepIsAfter(sys, w, ev);
      var e := EffectOf(sys, w, ev);
      match ev {
        case TreeTimer(_, env) =>
          TreeTimerCase(sys, w, u, env);
          PlainFits(sys, w, u, e, p.(treeTimer := false, session := Some(RootSession(c, env.freshTree))),
              env.freshTree, env, None);
        case AckTimeout(_, env) =>
          AckTimeoutCase(sys, w, u, env);
          PlainFits(sys, w, u, e, p.(ackTimer := None, parent := NOID,
              session := Some(RootSession(c, env.freshTree))), env.freshTree, env, None);
      }
    }
  }

  lemma GoodLocalTimer(sys: System, w: World, ev: Event)
    requires ValidSystem(sys) && HandshakeInv(sys, w) && Enabled(sys, w, ev)
    requires ev.CheckDone? || ev.RespTimeout? || ev.UpdateTimeout?
    ensures Good(sys, w, ev)
  {
    if ev.CheckDone? {
      GoodCheck(sys, w, ev);
    } else if ev.RespTimeout? {
      GoodRespTimeout(sys, w, ev);
    } else {
      GoodUpdateTimeout(sys, w, ev);
    }
  }

  lemma GoodCheck(sys: System, w: World, ev: Event)
    requires ValidSystem(sys) && HandshakeInv(sys, w) && Enabled(sys, w, ev) && ev.CheckDone?
    ensures Good(sys, w, ev)
  {
    At(sys, w, ev.u);
    StepIsAfter(sys, w, ev);
    CheckCase(sys, w, ev.u);
    PlainFits(sys, w, ev.u, EffectOf(sys, w, ev), w.provers[ev.u], NOID, NO_ENV, None);
  }

  lemma GoodRespTimeout(sys: System, w: World, ev: Event)
    requires ValidSystem(sys) && HandshakeInv(sys, w) && Enabled(sys, w, ev) && ev.RespTimeout?
    ensures Good(sys, w, ev)
  {
    var p := w.provers[ev.u];
    At(sys, w, ev.u);
    StepIsAfter(sys, w, ev);
    RespTimeoutCase(sys, w, ev.u);
    PlainFits(sys, w, ev.u, EffectOf(sys, w, ev), p.(respTimer := None, status := Collecting), TreeOf(p), NO_ENV, None);
  }

  lemma GoodUpdateTimeout(sys: System, w: World, ev: Event)
    requires ValidSystem(sys) && HandshakeInv(sys, w) && Enabled(sys, w, ev) && ev.UpdateTimeout?
    ensures Good(sys, w, ev)
  {
    var p := w.provers[ev.u];
    At(sys, w, ev.u);
    StepIsAfter(sys, w, ev);
    UpdateTimeoutCase(sys, w, ev.u, ev.dev);
    PlainFits(sys, w, ev.u, EffectOf(sys, w, ev),
              p.(upTimers := p.upTimers - {ev.dev}, children := p.children - {ev.dev}), TreeOf(p), NO_ENV, None);
  }

  // ------------------------------------------------------------ deliveries

  lemma EnvAt(sys: System, w: World, k: nat)
    requires NetInv(sys, w) && InFlight(w, k)
    ensures EnvOk(sys, w, w.net[k].value)
  {
  }

  /** A delivery whose effect leaves the prover as it was. */
  lemma QuietFits(sys: System, w: World, u: Uid, gone: Option<nat>)
    requires ValidSystem(sys) && HandshakeInv(sys, w) && u in w.provers
    ensures HandshakeInv(sys, After(w, u, Quiet(w.provers[u]), gone, map[], map[]))
  {
    KeepFits(sys, w, u, Quiet(w.provers[u]), gone);
  }

  lemma FitStep(sys: System, w: World, u: Uid, e: Effect, gone: Option<nat>, g: map<(Uid, Uid), Grant>,
                l: map<Uid, Link>)
    requires ValidSystem(sys) && HandshakeInv(sys, w)
    requires u in sys.cfg && u in sys.start && LocalInv(sys.cfg[u], sys.start[u], e.p)
    requires Moves(sys, w, After(w, u, e, gone, g, l), u, gone) && Fits(sys, w, After(w, u, e, gone, g, l), u, gone)
    ensures HandshakeInv(sys, After(w, u, e, gone, g, l))
  {
    StepFits(sys, w, After(w, u, e, gone, g, l), u, gone);
  }

  lemma ReqCase(sys: System, w: World, u: Uid, k: nat)
    requires ValidSystem(sys) && AtOk(sys, w, u) && LocalInv(sys.cfg[u], sys.start[u], w.provers[u])
    requires InFlight(w, k) && w.net[k].value.msg.CommitReq? && w.net[k].value.to == AtProver(u)
    requires ReqOk(sys, w, AtProver(u), w.net[k].value.msg)
    ensures var e := OnCommitReq(sys.cfg[u], w.provers[u], w.net[k].value.msg);
            var w' := After(w, u, e, Some(k), map[], map[]);
            && Clean(e) && LocalInv(sys.cfg[u], sys.start[u], e.p)
            && (e == Quiet(w.provers[u]) || (Moves(sys, w, w', u, Some(k)) && Fits(sys, w, w', u, Some(k))))
  {
    var m, c, p := w.net[k].value.msg, sys.cfg[u], w.provers[u];
    CommitReqLocal(c, sys.start[u], p, m);
    if p.status == Ready && FirstShared(m.kids, c.ring).Some? {
      ReqAcceptStep(sys, w, u, k, OnCommitReq(c, p, m));
    }
  }

  lemma ReqKeeps(sys: System, w: World, u: Uid, k: nat)
    requires ValidSystem(sys) && HandshakeInv(sys, w) && u in w.provers && u in sys.cfg
    requires InFlight(w, k) && w.net[k].value.msg.CommitReq? && w.net[k].value.to == AtProver(u)
    ensures var e := OnCommitReq(sys.cfg[u], w.provers[u], w.net[k].value.msg);
            Clean(e) && HandshakeInv(sys, After(w, u, e, Some(k), map[], map[]))
  {
    At(sys, w, u);
    EnvAt(sys, w, k);
    ReqCase(sys, w, u, k);
    var e := OnCommitReq(sys.cfg[u], w.provers[u], w.net[k].value.msg);
    if e == Quiet(w.provers[u]) {
      QuietFits(sys, w, u, Some(k));
    } else {
      FitStep(sys, w, u, e, Some(k), map[], map[]);
    }
  }

  lemma RespCase(sys: System, w: World, u: Uid, k: nat)
    requires ValidSystem(sys) && AtOk(sys, w, u) && LocalInv(sys.cfg[u], sys.start[u], w.provers[u])
    requires w.provers.Keys == sys.cfg.Keys
    requires InFlight(w, k) && w.net[k].value.msg.CommitResp? && w.net[k].value.to == AtProver(u)
    requires RespOk(sys, w, AtProver(u), w.net[k].value.msg)
    ensures var c, p, m := sys.cfg[u], w.provers[u], w.net[k].value.msg;
            var e := OnCommitResp(c, p, m);
            var w' := After(w, u, e, Some(k), map[(u, m.src) := Grant(m.kid, m.tree)], map[]);
            && Clean(e) && LocalInv(c, sys.start[u], e.p)
            && if AcceptsResp(c, p, m) then Moves(sys, w, w', u, Some(k))
                && Fits(sys, w, w', u, Some(k)) else e == Quiet(p)
  {
    var m, c, p := w.net[k].value.msg, sys.cfg[u], w.provers[u];
    CommitRespLocal(c, sys.start[u], p, m);
    if AcceptsResp(c, p, m) {
      RespAcceptMoves(sys, w, u, k, OnCommitResp(c, p, m));
      RespAcceptFits(sys, w, u, k, OnCommitResp(c, p, m));
    }
  }

  lemma RespKeeps(sys: System, w: World, u: Uid, k: nat)
    requires ValidSystem(sys) && HandshakeInv(sys, w) && u in w.provers && u in sys.cfg
    requires InFlight(w, k) && w.net[k].value.msg.CommitResp? && w.net[k].value.to == AtProver(u)
    ensures var e := OnCommitResp(sys.cfg[u], w.provers[u], w.net[k].value.msg);
            Clean(e) && HandshakeInv(sys, After(w, u, e, Some(k),
                NewGrants(sys.cfg[u], w.provers[u], w.net[k].value.msg), map[]))
  {
    At(sys, w, u);
    EnvAt(sys, w, k);
    RespCase(sys, w, u, k);
    var m := w.net[k].value.msg;
    if AcceptsResp(sys.cfg[u], w.provers[u], m) {
      FitStep(sys, w, u, OnCommitResp(sys.cfg[u], w.provers[u], m), Some(k), map[(u, m.src) := Grant(m.kid, m.tree)],
          map[]);
    } else {
      QuietFits(sys, w, u, Some(k));
    }
  }

  /** A prover whose parent acknowledges it is still waiting. */
  lemma AckFindsWaiting(sys: System, w: World, u: Uid, m: Message)
    requires AtOk(sys, w, u) && LocalInv(sys.cfg[u], sys.start[u], w.provers[u])
    requires m.CommitAck? && AckOk(sys, w, AtProver(u), m) && w.provers[u].parent == m.src && m.src != NOID
    ensures u !in w.links
    ensures Uncommitted(w.provers[u]) && w.provers[u].session.Some? && AcceptsAck(sys.cfg[u], w.provers[u], m)
    ensures Waiting(sys.cfg[u], w.provers[u]) && Fresh(sys.start[u], w.provers[u]) && !w.provers[u].checkTimer
  {
  }

  lemma AckCase(sys: System, w: World, u: Uid, k: nat, env: Env)
    requires ValidSystem(sys) && AtOk(sys, w, u) && LocalInv(sys.cfg[u], sys.start[u], w.provers[u])
             && GoodEnv(sys, u, env)
    requires InFlight(w, k) && w.net[k].value.msg.CommitAck? && w.net[k].value.to == AtProver(u)
    requires AckOk(sys, w, AtProver(u), w.net[k].value.msg) && GrantOk(sys, w, (w.net[k].value.msg.src, u))
    requires w.provers[u].offer.None? ==> NotParentYet(w, u)
    ensures var c, p, m := sys.cfg[u], w.provers[u], w.net[k].value.msg;
            var e := OnCommitAck(c, p, m, env);
            var w' := After(w, u, e, Some(k), map[], NewLinks(c, p, m));
            && Clean(e) && LocalInv(c, sys.start[u], e.p)
            && if p.parent != m.src then e == Quiet(p) && NewLinks(c, p, m) == map[]
               else Moves(sys, w, w', u, Some(k)) && Fits(sys, w, w', u, Some(k))
  {
    var m := w.net[k].value.msg;
    if w.provers[u].parent == m.src {
      AckFindsWaiting(sys, w, u, m);
      AckStep(sys, w, u, k, env);
    }
  }

  lemma AckKeeps(sys: System, w: World, u: Uid, k: nat, env: Env)
    requires ValidSystem(sys) && HandshakeInv(sys, w) && u in w.provers && u in sys.cfg && GoodEnv(sys, u, env)
    requires InFlight(w, k) && w.net[k].value.msg.CommitAck? && w.net[k].value.to == AtProver(u)
    ensures var e := OnCommitAck(sys.cfg[u], w.provers[u], w.net[k].value.msg, env);
            Clean(e) && HandshakeInv(sys, After(w, u, e, Some(k), map[],
                NewLinks(sys.cfg[u], w.provers[u], w.net[k].value.msg)))
  {
    var m := w.net[k].value.msg;
    At(sys, w, u);
    EnvAt(sys, w, k);
    GrantAt(sys, w, m.src, u);
    if w.provers[u].offer.None? {
      NothingBeforeOffer(sys, w, u);
    }
    AckCase(sys, w, u, k, env);
    if w.provers[u].parent != m.src {
      QuietFits(sys, w, u, Some(k));
    } else {
      FitStep(sys, w, u, OnCommitAck(sys.cfg[u], w.provers[u], m, env), Some(k), map[],
          NewLinks(sys.cfg[u], w.provers[u], m));
    }
  }

  lemma GrantAt(sys: System, w: World, u: Uid, v: Uid)
    requires GrantsInv(sys, w) && (u, v) in w.grants
    ensures GrantOk(sys, w, (u, v))
  {
  }

  lemma AckStep(sys: System, w: World, u: Uid, k: nat, env: Env)
    requires ValidSystem(sys) && AtOk(sys, w, u) && LocalInv(sys.cfg[u], sys.start[u], w.provers[u])
    requires InFlight(w, k) && w.net[k].value.msg.CommitAck? && w.net[k].value.to == AtProver(u) && GoodEnv(sys, u, env)
    requires AckOk(sys, w, AtProver(u), w.net[k].value.msg)
    requires Uncommitted(w.provers[u]) && w.provers[u].parent == w.net[k].value.msg.src != NOID
    requires Waiting(sys.cfg[u], w.provers[u]) && Fresh(sys.start[u], w.provers[u]) && !w.provers[u].checkTimer
    requires u !in w.links && NotParentYet(w, u) && GrantOk(sys, w, (w.net[k].value.msg.src, u))
    ensures var e := OnCommitAck(sys.cfg[u], w.provers[u], w.net[k].value.msg, env);
            var w' := After(w, u, e, Some(k), map[], map[u := LinkFor(w.provers[u])]);
            && Clean(e) && LocalInv(sys.cfg[u], sys.start[u], e.p)
            && Moves(sys, w, w', u, Some(k)) && Fits(sys, w, w', u, Some(k))
  {
    var m, c, p := w.net[k].value.msg, sys.cfg[u], w.provers[u];
    AckAgreement(sys, w, u, m);
    CommitAckLocal(c, sys.start[u], p, m, env);
    AckChosen(sys, w, u, k, env, OnCommitAck(c, p, m, env));
  }

  /** p after an accepted acknowledgment, before it reports or offers. */
  function Acked(p: Prover): Prover
    requires p.session.Some?
  {
    p.(treeTimer := false, ackTimer := None, session := Some(p.session.value.(valid := true)))
  }

  lemma AckChosen(sys: System, w: World, u: Uid, k: nat, env: Env, e: Effect)
    requires AckSetting(sys, w, u, k, env) && PhaseInv(sys.cfg[u], sys.start[u], e.p)
    requires var m, p := w.net[k].value.msg, w.provers[u];
             || Reports(sys.cfg[u], sys.start[u], Acked(p), e, m.tree)
             || (p.session.value.depth >= 2 && Offers(sys.cfg[u], Acked(p), e, p.session.value.depth - 1, m.tree, env))
    ensures var w' := After(w, u, e, Some(k), map[], map[u := LinkFor(w.provers[u])]);
            Moves(sys, w, w', u, Some(k)) && Fits(sys, w, w', u, Some(k))
  {
    if Reports(sys.cfg[u], sys.start[u], Acked(w.provers[u]), e, w.net[k].value.msg.tree) {
      AckReported(sys, w, u, k, env, e);
    } else {
      AckOffered(sys, w, u, k, env, e);
    }
  }

  /** The acknowledgment k reaches the prover u that waits for it. */
  ghost predicate AckSetting(sys: System, w: World, u: Uid, k: nat, env: Env) {
    && ValidSystem(sys) && AtOk(sys, w, u)
    && InFlight(w, k) && w.net[k].value.msg.CommitAck? && w.net[k].value.to == AtProver(u) && GoodEnv(sys, u, env)
    && AckOk(sys, w, AtProver(u), w.net[k].value.msg)
    && Uncommitted(w.provers[u]) && w.provers[u].parent == w.net[k].value.msg.src != NOID
    && Waiting(sys.cfg[u], w.provers[u]) && Fresh(sys.start[u], w.provers[u])
    && u !in w.links && NotParentYet(w, u) && GrantOk(sys, w, (w.net[k].value.msg.src, u))
  }

  lemma AckReported(sys: System, w: World, u: Uid, k: nat, env: Env, e: Effect)
    requires AckSetting(sys, w, u, k, env) && PhaseInv(sys.cfg[u], sys.start[u], e.p)
    requires Reports(sys.cfg[u], sys.start[u], Acked(w.provers[u]), e, w.net[k].value.msg.tree)
    ensures var w' := After(w, u, e, Some(k), map[], map[u := LinkFor(w.provers[u])]);
            Moves(sys, w, w', u, Some(k)) && Fits(sys, w, w', u, Some(k))
  {
    assert AckAccepted(sys, w, u, k, e);
    AckMoves(sys, w, u, k, e);
    AckReportFits(sys, w, u, k, e, Acked(w.provers[u]));
  }

  lemma AckOffered(sys: System, w: World, u: Uid, k: nat, env: Env, e: Effect)
    requires AckSetting(sys, w, u, k, env) && PhaseInv(sys.cfg[u], sys.start[u], e.p)
    requires var p := w.provers[u];
             && p.session.value.depth >= 2
             && Offers(sys.cfg[u], Acked(p), e, p.session.value.depth - 1, w.net[k].value.msg.tree, env)
    ensures var w' := After(w, u, e, Some(k), map[], map[u := LinkFor(w.provers[u])]);
            Moves(sys, w, w', u, Some(k)) && Fits(sys, w, w', u, Some(k))
  {
    var p := w.provers[u];
    assert AckAccepted(sys, w, u, k, e);
    AckMoves(sys, w, u, k, e);
    AckOfferNet(sys, w, u, k, e, p.session.value.depth - 1, w.net[k].value.msg.tree, env);
    AckOfferFits(sys, w, u, k, e, Acked(p), env);
  }

  // ------------------------------------------------------------ updates

  /** The parent an update is addressed to has offered in the update's tree. */
  lemma UpdateFindsParent(sys: System, w: World, u: Uid, m: Message)
    requires ValidSystem(sys) && LinksInv(sys, w) && w.provers.Keys == sys.cfg.Keys
    requires m.UpdateReq? && UpdateOk(sys, w, AtProver(u), m)
    ensures m.kind == ToParent && m.dst == u && m.src != NOID && OfferedTree(w, u, m.tree)
  {
    assert LinkOk(sys, w, m.src);
  }

  /** The message, diverted to the collector. */
  function Forwarded(m: Message): Envelope
    requires m.UpdateReq?
  {
    Envelope(AtCollector, m.(kind := Fix, dst := COLLECTOR_ID))
  }

  lemma ForwardOut(sys: System, w: World, u: Uid, m: Message, to: Node, k: nat)
    requires m.UpdateReq? && UpdateOk(sys, w, to, m) && u in w.provers
    ensures var e := Effect(w.provers[u], [Forwarded(m)], false, false);
            EnvOk(sys, After(w, u, e, Some(k), map[], map[]), Forwarded(m))
  {
  }

  lemma ForwardFits(sys: System, w: World, u: Uid, k: nat)
    requires ValidSystem(sys) && HandshakeInv(sys, w) && u in w.provers && InFlight(w, k)
    requires w.net[k].value.msg.UpdateReq?
    ensures var e := Effect(w.provers[u], [Forwarded(w.net[k].value.msg)], false, false);
            HandshakeInv(sys, After(w, u, e, Some(k), map[], map[]))
  {
    ForwardEnv(sys, w, u, k);
    KeepOne(sys, w, u, Forwarded(w.net[k].value.msg), Some(k));
  }

  /** The prover stays as it is and sends one update. */
  lemma KeepOne(sys: System, w: World, u: Uid, f: Envelope, gone: Option<nat>)
    requires ValidSystem(sys) && HandshakeInv(sys, w) && u in w.provers && f.msg.UpdateReq?
    requires EnvOk(sys, After(w, u, Effect(w.provers[u], [f], false, false), gone, map[], map[]), f)
    ensures HandshakeInv(sys, After(w, u, Effect(w.provers[u], [f], false, false), gone, map[], map[]))
  {
    var e := Effect(w.provers[u], [f], false, false);
    LocalAt(sys, w, u);
    SameKeeps(w.provers[u], f);
    SingleOut(sys, After(w, u, e, gone, map[], map[]), e, f);
    KeepFits(sys, w, u, e, gone);
  }

  lemma LocalAt(sys: System, w: World, u: Uid)
    requires LocalsInv(sys, w) && u in w.provers
    ensures u in sys.cfg && u in sys.start && LocalInv(sys.cfg[u], sys.start[u], w.provers[u])
  {
  }

  lemma SameKeeps(p: Prover, f: Envelope)
    requires f.msg.UpdateReq?
    ensures Keeps(p, Effect(p, [f], false, false))
  {
  }

  lemma SingleOut(sys: System, w': World, e: Effect, f: Envelope)
    requires e.out == [f] && EnvOk(sys, w', f)
    ensures forall i :: 0 <= i < |e.out| ==> EnvOk(sys, w', e.out[i])
  {
  }

  lemma ForwardEnv(sys: System, w: World, u: Uid, k: nat)
    requires NetInv(sys, w) && u in w.provers && InFlight(w, k) && w.net[k].value.msg.UpdateReq?
    ensures var f := Forwarded(w.net[k].value.msg);
            EnvOk(sys, After(w, u, Effect(w.provers[u], [f], false, false), Some(k), map[], map[]), f)
  {
    EnvAt(sys, w, k);
    ForwardOut(sys, w, u, w.net[k].value.msg, w.net[k].value.to, k);
  }

  lemma MergedCase(sys: System, w: World, u: Uid, m: Message, e: Effect, k: nat)
    requires AtOk(sys, w, u) && Active(sys.cfg[u], sys.start[u], w.provers[u])
    requires LocalInv(sys.cfg[u], sys.start[u], e.p) && Clean(e)
    requires m.UpdateReq? && OfferedTree(w, u, m.tree)
    requires |w.provers[u].report.uids| == |w.provers[u].report.counters|
    requires !MergeFaults(w.provers[u].report, m.uids, m.counters, m.proofs, sys.cfg[u].aggSize)
    requires var q := Merged(sys.cfg[u], w.provers[u], m);
             e == Quiet(q) || Reports(sys.cfg[u], sys.start[u], q, e, m.tree)
    ensures PlainCase(sys, w, u, e, Merged(sys.cfg[u], w.provers[u], m), m.tree, NO_ENV, Some(k))
  {
    ActiveLinked(sys, w, u);
  }

  lemma GoodUpdate(sys: System, w: World, ev: Event)
    requires ValidSystem(sys) && HandshakeInv(sys, w) && Enabled(sys, w, ev)
    requires ev.Deliver? && w.net[ev.k].value.msg.UpdateReq? && w.net[ev.k].value.to.AtProver?
    ensures Good(sys, w, ev)
  {
    var u, m := w.net[ev.k].value.to.uid, w.net[ev.k].value.msg;
    var c, p := sys.cfg[u], w.provers[u];
    At(sys, w, u);
    EnvAt(sys, w, ev.k);
    StepIsAfter(sys, w, ev);
    UpdateFindsParent(sys, w, u, m);
    UpdateLocal(c, sys.start[u], p, m);
    var e := OnUpdate(c, p, m);
    if p.status == Finished {
      ForwardFits(sys, w, u, ev.k);
    } else if m.src !in p.children {
      QuietFits(sys, w, u, Some(ev.k));
    } else {
      MergedCase(sys, w, u, m, e, ev.k);
      PlainFits(sys, w, u, e, Merged(c, p, m), m.tree, NO_ENV, Some(ev.k));
    }
  }

  /** No event of any prover alerts or faults, and every one keeps the handshake invariant. */
  lemma GoodEvent(sys: System, w: World, ev: Event)
    requires ValidSystem(sys) && HandshakeInv(sys, w) && Enabled(sys, w, ev) && Actor(w, ev).Some?
    ensures Good(sys, w, ev)
  {
    if !ev.Deliver? {
      GoodTimer(sys, w, ev);
    } else if w.net[ev.k].value.msg.UpdateReq? {
      GoodUpdate(sys, w, ev);
    } else {
      GoodCommit(sys, w, ev);
    }
  }

  lemma GoodCommit(sys: System, w: World, ev: Event)
    requires ValidSystem(sys) && HandshakeInv(sys, w) && Enabled(sys, w, ev) && Actor(w, ev).Some?
    requires ev.Deliver? && !w.net[ev.k].value.msg.UpdateReq?
    ensures Good(sys, w, ev)
  {
    if w.net[ev.k].value.msg.CommitAck? {
      StepIsAfter(sys, w, ev);
      AckKeeps(sys, w, Actor(w, ev).value, ev.k, ev.env);
    } else {
      GoodRequest(sys, w, ev);
    }
  }

  lemma GoodRequest(sys: System, w: World, ev: Event)
    requires ValidSystem(sys) && HandshakeInv(sys, w) && Enabled(sys, w, ev) && Actor(w, ev).Some?
    requires ev.Deliver? && (w.net[ev.k].value.msg.CommitReq? || w.net[ev.k].value.msg.CommitResp?)
    ensures Good(sys, w, ev)
  {
    StepIsAfter(sys, w, ev);
    if w.net[ev.k].value.msg.CommitReq? {
      ReqKeeps(sys, w, Actor(w, ev).value, ev.k);
    } else {
      RespKeeps(sys, w, Actor(w, ev).value, ev.k);
    }
  }
}
