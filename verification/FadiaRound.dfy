/** One attestation round of a whole network: provers, messages in flight, the collector.
    A step delivers or loses one message or fires one timer, in any order. */
module FadiaRound {
  import opened Wrappers
  import opened FadiaReport
  import opened FadiaProver

  /** The values a prover carries into the round: startAttestation clears the report
      vectors but neither the counter nor the two running sizes. */
  datatype Start = Start(count: nat, size: int, sepsize: int)

  datatype System = System(maxDepth: nat, aggSize: nat, cfg: map<Uid, Config>, start: map<Uid, Start>)

  ghost predicate ValidSystem(sys: System) {
    && sys.maxDepth >= 1 && sys.aggSize >= 1
    && sys.start.Keys == sys.cfg.Keys
    && NOID !in sys.cfg
    && forall u :: u in sys.cfg ==>
         sys.cfg[u].uid == u && sys.cfg[u].maxDepth == sys.maxDepth && sys.cfg[u].aggSize == sys.aggSize
  }

  /** History: a parent's record of a child, and a child's accepted parent. */
  datatype Grant = Grant(key: KeyId, tree: TreeId)
  datatype Link = Link(parent: Uid, depth: nat, tree: TreeId, key: KeyId)

  /** net lists the messages ever sent, None once delivered or lost; collected and sum are
      the collector's; grants and links remember every commitment of the round. */
  datatype World = World(
    provers: map<Uid, Prover>,
    net: seq<Option<Envelope>>,
    collected: multiset<(Uid, nat)>,
    sum: nat,
    grants: map<(Uid, Uid), Grant>,
    links: map<Uid, Link>)

  datatype Event =
    | Deliver(k: nat, env: Env)
    | Lose(k: nat)
    | Divert(k: nat)
    | CheckDone(u: Uid)
    | TreeTimer(u: Uid, env: Env)
    | AckTimeout(u: Uid, env: Env)
    | RespTimeout(u: Uid)
    | UpdateTimeout(u: Uid, dev: Uid)

  /** After startAttestation: nothing in flight, firmware check and tree timer pending. */
  function FreshProver(st: Start): Prover {
    Prover(Checking, NOID, None, map[], Report([], [], [], st.size, st.sepsize), st.count, None,
           true, true, None, None, map[])
  }

  ghost predicate Init(sys: System, w: World) {
    && w.provers.Keys == sys.cfg.Keys
    && (forall u :: u in w.provers ==> u in sys.start && w.provers[u] == FreshProver(sys.start[u]))
    && w.net == [] && w.collected == multiset{} && w.sum == 0
    && w.grants == map[] && w.links == map[]
  }

  predicate InFlight(w: World, k: nat) {
    k < |w.net| && w.net[k].Some?
  }

  /** Broadcasts reach other provers of the network, each at most once. */
  predicate GoodEnv(sys: System, u: Uid, env: Env) {
    && (forall i :: 0 <= i < |env.inRange| ==> env.inRange[i] in sys.cfg && env.inRange[i] != u)
    && (forall i, j :: 0 <= i < j < |env.inRange| ==> env.inRange[i] != env.inRange[j])
  }

  predicate Known(sys: System, w: World, u: Uid) {
    u in w.provers && u in sys.cfg
  }

  /** The tree timer was armed together with the firmware check and for no earlier a time. */
  predicate Enabled(sys: System, w: World, ev: Event) {
    match ev
    case Deliver(k, env) =>
      && InFlight(w, k)
      && (w.net[k].value.to.AtProver? ==>
            Known(sys, w, w.net[k].value.to.uid) && GoodEnv(sys, w.net[k].value.to.uid, env))
    case Lose(k) => InFlight(w, k)
    case Divert(k) => InFlight(w, k) && w.net[k].value.msg.UpdateReq? && w.net[k].value.msg.kind == ToParent
    case CheckDone(u) => Known(sys, w, u) && w.provers[u].checkTimer
    case TreeTimer(u, env) => Known(sys, w, u) && w.provers[u].treeTimer && !w.provers[u].checkTimer
        && GoodEnv(sys, u, env)
    case AckTimeout(u, env) => Known(sys, w, u) && w.provers[u].ackTimer.Some? && GoodEnv(sys, u, env)
    case RespTimeout(u) => Known(sys, w, u) && w.provers[u].respTimer.Some?
    case UpdateTimeout(u, dev) => Known(sys, w, u) && dev in w.provers[u].upTimers
  }

  /** A message reaching a prover. */
  function Receive(c: Config, p: Prover, m: Message, env: Env): Effect {
    match m
    case CommitReq(_, _, _, _) => OnCommitReq(c, p, m)
    case CommitResp(_, _, _, _) => OnCommitResp(c, p, m)
    case CommitAck(_, _, _) => OnCommitAck(c, p, m, env)
    case UpdateReq(_, _, _, _, _, _, _) => OnUpdate(c, p, m)
  }

  function Sent(out: seq<Envelope>): (r: seq<Option<Envelope>>)
    ensures |r| == |out|
    ensures forall i :: 0 <= i < |out| ==> r[i] == Some(out[i])
  {
    seq(|out|, i requires 0 <= i < |out| => Some(out[i]))
  }

  /** Put a handler's effect on prover u into the world. */
  function Put(w: World, u: Uid, e: Effect): World {
    w.(provers := w.provers[u := e.p], net := w.net + Sent(e.out))
  }

  function Consume(w: World, k: nat): World
    requires k < |w.net|
  {
    w.(net := w.net[k := None])
  }

  function NewGrants(c: Config, p: Prover, m: Message): map<(Uid, Uid), Grant> {
    if m.CommitResp? && AcceptsResp(c, p, m) then map[(c.uid, m.src) := Grant(m.kid, m.tree)] else map[]
  }

  function NewLinks(c: Config, p: Prover, m: Message): map<Uid, Link> {
    if m.CommitAck? && AcceptsAck(c, p, m)
    then map[c.uid := Link(m.src, p.session.value.depth, p.session.value.tree, p.session.value.key)]
    else map[]
  }

  /** ACollector::handleUpReq: count the slots that are not separators. */
  function Collect(w: World, m: Message): World {
    if m.UpdateReq?
    then w.(collected := w.collected + RecordsOf(m), sum := w.sum + |m.uids| - Separators(m.uids))
    else w
  }

  /** The prover an event concerns, if it concerns one. */
  function Actor(w: World, ev: Event): Option<Uid>
    requires ev.Deliver? ==> InFlight(w, ev.k)
  {
    match ev
    case Deliver(k, _) => if w.net[k].value.to.AtProver? then Some(w.net[k].value.to.uid) else None
    case Lose(_) => None
    case Divert(_) => None
    case CheckDone(u) => Some(u)
    case TreeTimer(u, _) => Some(u)
    case AckTimeout(u, _) => Some(u)
    case RespTimeout(u) => Some(u)
    case UpdateTimeout(u, _) => Some(u)
  }

  /** The effect of an event on the prover it concerns. */
  function EffectOf(sys: System, w: World, ev: Event): Effect
    requires Enabled(sys, w, ev) && Actor(w, ev).Some?
  {
    var u := Actor(w, ev).value;
    var c, p := sys.cfg[u], w.provers[u];
    match ev
    case Deliver(k, env) => Receive(c, p, w.net[k].value.msg, env)
    case CheckDone(_) => OnCheck(p)
    case TreeTimer(_, env) => OnTreeTimer(c, p, env)
    case AckTimeout(_, env) => OnAckTimeout(c, p, env)
    case RespTimeout(_) => OnRespTimeout(c, p)
    case UpdateTimeout(_, dev) => OnUpdateTimeout(c, p, dev)
  }

  function Step(sys: System, w: World, ev: Event): World
    requires Enabled(sys, w, ev)
  {
    match ev
    case Deliver(k, env) =>
      var e := w.net[k].value;
      if e.to.AtCollector? then Collect(Consume(w, k), e.msg)
      else
        var u := e.to.uid;
        Put(Consume(w, k), u, EffectOf(sys, w, ev)).(
          grants := w.grants + NewGrants(sys.cfg[u], w.provers[u], e.msg),
          links := w.links + NewLinks(sys.cfg[u], w.provers[u], e.msg))
    case Lose(k) => Consume(w, k)
    case Divert(k) =>
      w.(net := w.net[k := Some(Envelope(AtCollector, w.net[k].value.msg.(kind := Fix, dst := COLLECTOR_ID)))])
    case _ => Put(w, ev.u, EffectOf(sys, w, ev))
  }

  // ------------------------------------------------------------ what every step keeps: one prover

  predicate Idle(p: Prover) {
    p.parent == NOID && p.session.None? && p.children == map[] && p.upTimers == map[]
  }

  /** Not yet offered, nothing collected. */
  predicate Fresh(st: Start, p: Prover) {
    p.offer.None? && p.count == st.count && p.report.uids == [] && p.respTimer.None?
  }

  /** A response is out and its acknowledgment awaited. */
  predicate Waiting(c: Config, p: Prover) {
    && p.parent != NOID && p.session.Some?
    && p.session.value.key in c.ring
    && 1 <= p.session.value.depth <= c.maxDepth
    && p.ackTimer == Some(Timeout(p.parent, p.session.value.tree))
    && p.children == map[] && p.upTimers == map[]
  }

  /** Offering or collecting: the placeholder is open, children and their timers agree. */
  ghost predicate Active(c: Config, st: Start, p: Prover) {
    && c.maxChildren > 0 && p.count == st.count && p.ackTimer.None?
    && p.session.Some? && p.session.value.valid
    && 1 <= p.session.value.depth <= c.maxDepth
    && (p.parent != NOID ==> p.session.value.depth >= 2 && p.session.value.key in c.ring)
    && p.offer == Some(Offer(if p.parent == NOID then c.maxDepth else p.session.value.depth - 1, p.session.value.tree))
    && NOID in p.children && p.upTimers.Keys == p.children.Keys - {NOID}
    && (forall d :: d in p.upTimers ==> p.upTimers[d] == p.session.value.tree)
  }

  predicate Done(st: Start, p: Prover) {
    Idle(p) && p.ackTimer.None? && p.count == st.count + 1
  }

  ghost predicate PhaseInv(c: Config, st: Start, p: Prover) {
    match p.status
    case Checking => p.checkTimer && p.treeTimer && Idle(p) && Fresh(st, p) && p.ackTimer.None?
    case Ready => !p.checkTimer && p.treeTimer && Idle(p) && Fresh(st, p) && p.ackTimer.None?
    case Attesting => !p.checkTimer && p.treeTimer && Fresh(st, p) && Waiting(c, p)
    case AttestingCreating => !p.checkTimer && !p.treeTimer && Fresh(st, p) && Waiting(c, p)
    case Creating =>
      && !p.checkTimer && !p.treeTimer && Active(c, st, p)
      && p.respTimer == Some(p.session.value.tree) && |p.children| <= c.maxChildren
    case Collecting =>
      && !p.checkTimer && !p.treeTimer && p.respTimer.None?
      && (Done(st, p) || (Active(c, st, p) && 2 <= |p.children| <= c.maxChildren + 1))
    case Finished => !p.checkTimer && !p.treeTimer && Done(st, p)
  }

  ghost predicate LocalInv(c: Config, st: Start, p: Prover) {
    && PhaseInv(c, st, p)
    && WellFormed(p.report, c.aggSize) && Counted(p.report, st.size, st.sepsize)
  }

  ghost predicate LocalsInv(sys: System, w: World) {
    && w.provers.Keys == sys.cfg.Keys
    && forall u :: u in w.provers ==> u in sys.cfg && u in sys.start && LocalInv(sys.cfg[u], sys.start[u], w.provers[u])
  }

  // ------------------------------------------------------------ what every step keeps: the handshakes

  predicate Reported(sys: System, w: World, u: Uid) {
    u in w.provers && u in sys.start && w.provers[u].count == sys.start[u].count + 1
  }

  predicate Linked(w: World, child: Uid, parent: Uid) {
    child in w.links && w.links[child].parent == parent
  }

  predicate Offered(w: World, u: Uid, depth: nat, tree: TreeId) {
    u in w.provers && w.provers[u].offer == Some(Offer(depth, tree))
  }

  predicate OfferedTree(w: World, u: Uid, tree: TreeId) {
    u in w.provers && w.provers[u].offer.Some? && w.provers[u].offer.value.tree == tree
  }

  predicate SharedKey(sys: System, u: Uid, v: Uid, key: KeyId) {
    u in sys.cfg && v in sys.cfg && key in sys.cfg[u].ring && key in sys.cfg[v].ring
  }

  /** If the child still waits for this parent, it uses this key. */
  predicate KeyAgrees(w: World, child: Uid, parent: Uid, key: KeyId) {
    child in w.provers && w.provers[child].parent == parent ==>
      w.provers[child].session.Some? && w.provers[child].session.value.key == key
  }

  predicate ReqOk(sys: System, w: World, to: Node, m: Message)
    requires m.CommitReq?
  {
    && to.AtProver? && to.uid in sys.cfg && m.src in sys.cfg && m.src != to.uid
    && Offered(w, m.src, m.depth, m.tree) && m.kids == sys.cfg[m.src].ring
    && 1 <= m.depth <= sys.maxDepth
    && (m.src, to.uid) !in w.grants && !Linked(w, to.uid, m.src)
  }

  predicate RespOk(sys: System, w: World, to: Node, m: Message)
    requires m.CommitResp?
  {
    && to == AtProver(m.dst) && m.src != m.dst
    && OfferedTree(w, m.dst, m.tree) && SharedKey(sys, m.src, m.dst, m.kid)
    && (m.dst, m.src) !in w.grants && !Linked(w, m.src, m.dst)
    && KeyAgrees(w, m.src, m.dst, m.kid)
  }

  predicate AckOk(sys: System, w: World, to: Node, m: Message)
    requires m.CommitAck?
  {
    && to == AtProver(m.dst) && m.dst in sys.cfg && m.src in sys.cfg
    && (m.src, m.dst) in w.grants && w.grants[(m.src, m.dst)].tree == m.tree
    && !Linked(w, m.dst, m.src)
    && KeyAgrees(w, m.dst, m.src, w.grants[(m.src, m.dst)].key)
  }

  ghost predicate UpdateOk(sys: System, w: World, to: Node, m: Message)
    requires m.UpdateReq?
  {
    && Reported(sys, w, m.src)
    && WellFormed(Report(m.uids, m.counters, m.proofs, 0, 0), sys.aggSize) && m.proofs != []
    && (m.kind == ToParent ==>
          && to == AtProver(m.dst) && m.dst in sys.cfg
          && Linked(w, m.src, m.dst) && w.links[m.src].tree == m.tree)
    && (m.kind != ToParent ==> to == AtCollector)
  }

  ghost predicate EnvOk(sys: System, w: World, e: Envelope) {
    match e.msg
    case CommitReq(_, _, _, _) => ReqOk(sys, w, e.to, e.msg)
    case CommitResp(_, _, _, _) => RespOk(sys, w, e.to, e.msg)
    case CommitAck(_, _, _) => AckOk(sys, w, e.to, e.msg)
    case UpdateReq(_, _, _, _, _, _, _) => UpdateOk(sys, w, e.to, e.msg)
  }

  ghost predicate NetInv(sys: System, w: World) {
    forall k: nat :: InFlight(w, k) ==> EnvOk(sys, w, w.net[k].value)
  }

  /** The (parent, child) pair a commit message belongs to. */
  function Pair(e: Envelope): Option<(Uid, Uid)> {
    match e.msg
    case CommitReq(src, _, _, _) => if e.to.AtProver? then Some((src, e.to.uid)) else None
    case CommitResp(src, dst, _, _) => Some((dst, src))
    case CommitAck(src, dst, _) => Some((src, dst))
    case UpdateReq(_, _, _, _, _, _, _) => None
  }

  predicate SamePair(d: Envelope, e: Envelope) {
    Pair(d).Some? && Pair(d) == Pair(e)
  }

  /** At most one message of each pair's handshake is in flight. */
  ghost predicate OneMessagePerPair(w: World) {
    forall k: nat, j: nat :: InFlight(w, k) && InFlight(w, j) && SamePair(w.net[k].value, w.net[j].value) ==> k == j
  }

  ghost predicate ParentOk(sys: System, w: World, u: Uid)
    requires u in w.provers
  {
    var p := w.provers[u];
    p.parent != NOID ==>
      && p.parent != u && p.session.Some?
      && Offered(w, p.parent, p.session.value.depth, p.session.value.tree)
      && SharedKey(sys, u, p.parent, p.session.value.key)
      && (p.session.value.valid ==>
            && u in w.links
            && w.links[u] == Link(p.parent, p.session.value.depth, p.session.value.tree, p.session.value.key))
  }

  ghost predicate ParentsInv(sys: System, w: World) {
    forall u :: u in w.provers ==> ParentOk(sys, w, u)
  }

  /** Provers that have not accepted a parent are not linked. */
  predicate Uncommitted(p: Prover) {
    p.status == Checking || p.status == Ready || p.status == Attesting || p.status == AttestingCreating
  }

  ghost predicate LinkOk(sys: System, w: World, u: Uid)
    requires u in w.links
  {
    var l := w.links[u];
    && u in w.provers && !Uncommitted(w.provers[u])
    && 1 <= l.depth <= sys.maxDepth && l.parent != u
    && Offered(w, l.parent, l.depth, l.tree)
    && (l.parent, u) in w.grants && w.grants[(l.parent, u)] == Grant(l.key, l.tree)
    && (w.provers[u].offer.Some? ==> l.depth >= 2 && w.provers[u].offer == Some(Offer(l.depth - 1, l.tree)))
  }

  ghost predicate LinksInv(sys: System, w: World) {
    && (forall u :: u in w.links ==> LinkOk(sys, w, u))
    && (forall u :: u in w.provers && u !in w.links && w.provers[u].offer.Some? ==>
          w.provers[u].offer.value.depth == sys.maxDepth && w.provers[u].parent == NOID)
  }

  ghost predicate GrantOk(sys: System, w: World, g: (Uid, Uid))
    requires g in w.grants
  {
    && g.0 != g.1 && g.1 in w.provers
    && OfferedTree(w, g.0, w.grants[g].tree)
    && SharedKey(sys, g.0, g.1, w.grants[g].key)
  }

  ghost predicate GrantsInv(sys: System, w: World) {
    && (forall g :: g in w.grants ==> GrantOk(sys, w, g))
    && (forall u, d :: u in w.provers && d in w.provers[u].children && d != NOID ==>
          && (u, d) in w.grants
          && w.provers[u].children[d] == Session(w.grants[(u, d)].tree, d, w.grants[(u, d)].key, 0, true))
  }

  // ------------------------------------------------------------ what every step keeps: the records

  /** Where report records can be: in a message, in a report not yet sent, at the collector. */
  datatype Holder = InNet(k: nat) | InReport(u: Uid) | AtSink

  function RecordsOf(m: Message): multiset<(Uid, nat)> {
    if m.UpdateReq? && |m.uids| == |m.counters| then Records(m.uids, m.counters) else multiset{}
  }

  ghost function Held(sys: System, w: World, h: Holder): multiset<(Uid, nat)> {
    match h
    case InNet(k) =>
      if InFlight(w, k) then RecordsOf(w.net[k].value.msg) else multiset{}
    case InReport(u) =>
      if u in w.provers && !Reported(sys, w, u) && |w.provers[u].report.uids| == |w.provers[u].report.counters|
      then Records(w.provers[u].report.uids, w.provers[u].report.counters) else multiset{}
    case AtSink => w.collected
  }

  /** Every record held anywhere is held once there and is the genuine record of a prover that reported. */
  ghost predicate Genuine(sys: System, w: World) {
    forall h: Holder, d: (Uid, nat) :: d in Held(sys, w, h) ==> GenuineAt(sys, w, h, d)
  }

  ghost predicate GenuineAt(sys: System, w: World, h: Holder, d: (Uid, nat)) {
    Held(sys, w, h)[d] == 1 && Reported(sys, w, d.0) && d.1 == sys.start[d.0].count + 1
  }

  /** No record is held in two places. */
  ghost predicate Apart(sys: System, w: World) {
    forall h: Holder, g: Holder, d: (Uid, nat) :: d in Held(sys, w, h) && d in Held(sys, w, g) ==> h == g
  }

  ghost predicate RecordsInv(sys: System, w: World) {
    Genuine(sys, w) && Apart(sys, w)
  }

  ghost predicate Inv(sys: System, w: World) {
    && LocalsInv(sys, w) && NetInv(sys, w) && OneMessagePerPair(w)
    && ParentsInv(sys, w) && LinksInv(sys, w) && GrantsInv(sys, w)
    && RecordsInv(sys, w) && w.sum == |w.collected|
  }
}
