/** One prover of the FADIA attestation round, as a value and the effect of each handler on it.
    An Effect also says whether the handler raised an alert (logError) or did something the
    simulator does not survive: a null session dereferenced, back() or pop_back() on an empty
    vector, a pending timer scheduled again, a remainder by zero. */
module FadiaProver {
  import opened Wrappers
  import opened FadiaReport

  type Uid = nat
  type KeyId = nat
  type TreeId = nat

  datatype Status = Checking | Ready | Attesting | AttestingCreating | Creating | Collecting | Finished

  /** session_t, without the timer (pending update timers are kept in Prover.upTimers). */
  datatype Session = Session(tree: TreeId, device: Uid, key: KeyId, depth: nat, valid: bool)

  datatype Kind = ToParent | ToCollector | Fix

  datatype Message =
    | CommitReq(src: Uid, depth: nat, kids: seq<KeyId>, tree: TreeId)
    | CommitResp(src: Uid, dst: Uid, kid: KeyId, tree: TreeId)
    | CommitAck(src: Uid, dst: Uid, tree: TreeId)
    | UpdateReq(kind: Kind, src: Uid, dst: Uid, uids: seq<Uid>, counters: seq<nat>, proofs: seq<bv32>, tree: TreeId)

  /** Device ids of collectors and provers both start at 1, so the receiving module is kept apart. */
  datatype Node = AtProver(uid: Uid) | AtCollector

  datatype Envelope = Envelope(to: Node, msg: Message)

  /** CommitTimeOut: the data an ack timer carries. */
  datatype Timeout = Timeout(device: Uid, tree: TreeId)

  /** What the commit request template was last filled with and broadcast. */
  datatype Offer = Offer(depth: nat, tree: TreeId)

  /** Constants of a prover during a round; ring lists the key ids in ring order. */
  datatype Config = Config(uid: Uid, ring: seq<KeyId>, maxChildren: nat, maxDepth: nat, aggSize: nat)

  datatype Prover = Prover(
    status: Status,
    parent: Uid,
    session: Option<Session>,
    children: map<Uid, Session>,
    report: Report,
    count: nat,
    offer: Option<Offer>,
    checkTimer: bool,
    treeTimer: bool,
    ackTimer: Option<Timeout>,
    respTimer: Option<TreeId>,
    upTimers: map<Uid, TreeId>)

  datatype Effect = Effect(p: Prover, out: seq<Envelope>, alert: bool, fault: bool)

  /** What the surroundings contribute to a step: the random tree id and the provers in radio range. */
  datatype Env = Env(freshTree: TreeId, inRange: seq<Uid>)

  const COLLECTOR_ID: Uid := 1
  const COLLECTOR_KEY: KeyId := 0xCAFED00D

  function Quiet(p: Prover): Effect { Effect(p, [], false, false) }
  function Alert(p: Prover): Effect { Effect(p, [], true, false) }
  function Fault(p: Prover): Effect { Effect(p, [], false, true) }

  /** depth - 1 on a 32-bit unsigned. */
  function Below(depth: nat): nat {
    if depth == 0 then 0xFFFF_FFFF else depth - 1
  }

  /** The first id of kids that is in the ring. */
  function FirstShared(kids: seq<KeyId>, ring: seq<KeyId>): (k: Option<KeyId>)
    ensures k.Some? ==> k.value in kids && k.value in ring
    ensures k.None? ==> forall x :: x in kids ==> x !in ring
  {
    if kids == [] then None
    else if kids[0] in ring then Some(kids[0])
    else FirstShared(kids[1..], ring)
  }

  /** Place i of kids holds the first id that is in the ring. */
  predicate SharedFirst(kids: seq<KeyId>, ring: seq<KeyId>, i: nat) {
    i < |kids| && kids[i] in ring && forall j :: 0 <= j < i ==> kids[j] !in ring
  }

  lemma {:induction false} FirstSharedAt(kids: seq<KeyId>, ring: seq<KeyId>, i: nat)
    requires SharedFirst(kids, ring, i)
    ensures FirstShared(kids, ring) == Some(kids[i])
  {
    if i > 0 {
      FirstSharedAt(kids[1..], ring, i - 1);
    }
  }

  /** No key is shared, or one of the shared ones comes first. */
  lemma {:induction false} SharedOrNot(kids: seq<KeyId>, ring: seq<KeyId>) returns (i: nat)
    ensures FirstShared(kids, ring).Some? ==> SharedFirst(kids, ring, i)
  {
    if kids == [] || kids[0] in ring {
      i := 0;
    } else {
      var k := SharedOrNot(kids[1..], ring);
      i := k + 1;
    }
  }

  // ------------------------------------------------------------ sending

  /** sendUpReq: add the own report and push the whole up, then forget both sessions. */
  function SendUpReq(c: Config, p: Prover, tid: TreeId): Effect {
    if c.aggSize == 0 || p.session.None? || |p.report.uids| != |p.report.counters|
       || AddOwnFaults(p.report, c.aggSize)
    then Fault(p)
    else
      var r := AddOwn(p.report, c.uid, p.count + 1, c.aggSize);
      var m := if p.parent != NOID
               then Envelope(AtProver(p.parent),
                   UpdateReq(ToParent, c.uid, p.parent, r.uids, r.counters, r.proofs, tid))
               else Envelope(AtCollector,
                   UpdateReq(ToCollector, c.uid, COLLECTOR_ID, r.uids, r.counters, r.proofs, tid));
      Effect(p.(report := r, count := p.count + 1, children := p.children - {NOID},
                parent := NOID, session := None, status := Finished), [m], false, false)
  }

  function Broadcast(c: Config, depth: nat, tree: TreeId, to: seq<Uid>): (out: seq<Envelope>)
    ensures |out| == |to|
    ensures forall i :: 0 <= i < |out| ==> out[i] == Envelope(AtProver(to[i]), CommitReq(c.uid, depth, c.ring, tree))
  {
    seq(|to|, i requires 0 <= i < |to| => Envelope(AtProver(to[i]), CommitReq(c.uid, depth, c.ring, tree)))
  }

  /** The tail of sendCommitReq: become CREATING, offer a place, open the placeholder session. */
  function MakeOffer(c: Config, p: Prover, depth: nat, tree: TreeId, env: Env): Effect {
    Effect(p.(status := Creating, offer := Some(Offer(depth, tree)),
              children := p.children[NOID := Session(tree, NOID, NOID, 0, false)],
              respTimer := Some(tree)),
           Broadcast(c, depth, tree, env.inRange), false, false)
  }

  function RootSession(c: Config, tree: TreeId): Session {
    Session(tree, NOID, COLLECTOR_KEY, c.maxDepth, true)
  }

  function SendCommitReq(c: Config, p: Prover, tid: TreeId, env: Env): Effect {
    if p.status == Attesting then Quiet(p.(status := AttestingCreating))
    else if c.maxChildren == 0 then
      SendUpReq(c, p.(session := Some(RootSession(c, env.freshTree))), env.freshTree)
    else if p.parent == NOID then
      MakeOffer(c, p.(session := Some(RootSession(c, env.freshTree))), c.maxDepth, env.freshTree, env)
    else if p.session.None? then Fault(p)
    else MakeOffer(c, p, Below(p.session.value.depth), tid, env)
  }

  // ------------------------------------------------------------ messages

  function OnCommitReq(c: Config, p: Prover, m: Message): Effect
    requires m.CommitReq?
  {
    if p.status != Ready then Quiet(p)
    else
      match FirstShared(m.kids, c.ring)
      case None => Quiet(p)
      case Some(k) =>
        if p.ackTimer.Some? then Fault(p)
        else Effect(p.(parent := m.src, session := Some(Session(m.tree, m.src, k, m.depth, false)),
                       status := Attesting, ackTimer := Some(Timeout(m.src, m.tree))),
                    [Envelope(AtProver(m.src), CommitResp(c.uid, m.src, k, m.tree))], false, false)
  }

  /** A ready prover answers a request with the first of its keys that it holds itself, and takes the
      sender for its parent under that key. */
  lemma CommitReqAnswered(c: Config, p: Prover, m: Message, i: nat)
    requires m.CommitReq? && p.status == Ready && p.ackTimer.None? && SharedFirst(m.kids, c.ring, i)
    ensures var e := OnCommitReq(c, p, m);
            && e.out == [Envelope(AtProver(m.src), CommitResp(c.uid, m.src, m.kids[i], m.tree))]
            && e.p.parent == m.src && e.p.session == Some(Session(m.tree, m.src, m.kids[i], m.depth, false))
            && e.p.ackTimer == Some(Timeout(m.src, m.tree)) && e.p.status == Attesting
  {
    FirstSharedAt(m.kids, c.ring, i);
  }

  /** A prover without a pending acknowledgment answers exactly if it is ready and shares a key; else
      the request changes nothing. */
  lemma CommitReqAnsweredIff(c: Config, p: Prover, m: Message)
    requires m.CommitReq? && p.ackTimer.None?
    ensures OnCommitReq(c, p, m).out != [] <==> p.status == Ready && exists k :: k in m.kids && k in c.ring
    ensures OnCommitReq(c, p, m).out == [] ==> OnCommitReq(c, p, m) == Quiet(p)
    ensures OnCommitReq(c, p, m).out != [] ==> exists i: nat :: SharedFirst(m.kids, c.ring, i)
  {
    var i := SharedOrNot(m.kids, c.ring);
    if p.status == Ready && FirstShared(m.kids, c.ring).Some? {
      assert m.kids[i] in m.kids;
    }
  }

  /** The acknowledgment passes every check of handleCommitAck. */
  predicate AcceptsAck(c: Config, p: Prover, m: Message)
    requires m.CommitAck?
  {
    p.parent == m.src && m.dst == c.uid && p.session.Some? && p.session.value.key in c.ring
  }

  function OnCommitAck(c: Config, p: Prover, m: Message, env: Env): Effect
    requires m.CommitAck?
  {
    if p.parent != m.src then Quiet(p)
    else if m.dst != c.uid then Alert(p)
    else if p.session.None? then Fault(p)
    else if p.session.value.key !in c.ring then Alert(p)
    else
      var s := p.session.value.(valid := true);
      var q := p.(treeTimer := false, ackTimer := None, session := Some(s));
      if s.depth == 1 || c.maxChildren == 0
      then SendUpReq(c, q.(status := Finished), m.tree)
      else SendCommitReq(c, q.(status := Creating), m.tree, env)
  }

  /** The response passes every check of handleCommitResp. */
  predicate AcceptsResp(c: Config, p: Prover, m: Message)
    requires m.CommitResp?
  {
    && p.status == Creating && 0 < |p.children| <= c.maxChildren
    && m.dst == c.uid && m.src !in p.children && m.kid in c.ring
  }

  function OnCommitResp(c: Config, p: Prover, m: Message): Effect
    requires m.CommitResp?
  {
    if p.status == Collecting || p.status == Finished || p.status == Ready then Quiet(p)
    else if p.status != Creating then Alert(p)
    else if |p.children| == 0 || |p.children| - 1 >= c.maxChildren then Alert(p)
    else if m.dst != c.uid then Alert(p)
    else if m.src in p.children then Quiet(p)
    else if m.kid !in c.ring then Quiet(p)
    else if p.session.None? || m.src in p.upTimers then Fault(p)
    else
      var q := p.(children := p.children[m.src := Session(m.tree, m.src, m.kid, 0, true)],
                  upTimers := p.upTimers[m.src := m.tree]);
      var ack := [Envelope(AtProver(m.src), CommitAck(c.uid, m.src, m.tree))];
      if |q.children| == c.maxChildren + 1
      then Effect(q.(status := Collecting, respTimer := None), ack, false, false)
      else Effect(q, ack, false, false)
  }

  /** The counters of an update are read one for each id. */
  function CountersRead(m: Message): (cs: seq<nat>)
    requires m.UpdateReq? && |m.counters| >= |m.uids|
    ensures |cs| == |m.uids|
  {
    if |m.counters| == |m.uids| then m.counters else m.counters[..|m.uids|]
  }

  function OnUpdate(c: Config, p: Prover, m: Message): Effect
    requires m.UpdateReq?
  {
    if m.kind == Fix then Effect(p, [Envelope(AtCollector, m)], false, false)
    else if m.dst != c.uid then Alert(p)
    else if p.status == Finished then
      Effect(p, [Envelope(AtCollector, m.(kind := Fix, dst := COLLECTOR_ID))], false, false)
    else if p.status != Collecting && p.status != Creating then Alert(p)
    else if m.src !in p.children then Quiet(p)
    else if p.session.None? then Fault(p)
    else if m.tree != p.session.value.tree then Alert(p)
    else Accepting(c, p, m)
  }

  /** The merge, and what follows it. */
  function Accepting(c: Config, p: Prover, m: Message): Effect
    requires m.UpdateReq?
  {
    if c.aggSize == 0 || |p.report.uids| != |p.report.counters| || |m.counters| < |m.uids|
       || MergeFaults(p.report, m.uids, CountersRead(m), m.proofs, c.aggSize) then Fault(p)
    else
      Finishing(c, p.(report := Merge(p.report, m.uids, CountersRead(m), m.proofs, c.aggSize),
                      upTimers := p.upTimers - {m.src}, children := p.children - {m.src}), m.tree)
  }

  /** The report, if no session but the placeholder is left. */
  function Finishing(c: Config, p: Prover, tid: TreeId): Effect {
    if |p.children| == 1 then SendUpReq(c, p, tid) else Quiet(p)
  }

  // ------------------------------------------------------------ timers

  /** checkSoftConfig, when the firmware check is over. */
  function OnCheck(p: Prover): Effect {
    Quiet(p.(checkTimer := false, status := Ready))
  }

  function OnTreeTimer(c: Config, p: Prover, env: Env): Effect {
    SendCommitReq(c, p.(treeTimer := false), NOID, env)
  }

  function OnAckTimeout(c: Config, p: Prover, env: Env): Effect
    requires p.ackTimer.Some?
  {
    var q := p.(ackTimer := None);
    if p.ackTimer.value.device != p.parent then Alert(q)
    else
      var r := q.(session := None, parent := NOID);
      if p.status == AttestingCreating then SendCommitReq(c, r.(status := Creating), NOID, env)
      else Quiet(r.(status := Ready))
  }

  function OnRespTimeout(c: Config, p: Prover): Effect
    requires p.respTimer.Some?
  {
    var q := p.(respTimer := None, status := Collecting);
    Finishing(c, q, p.respTimer.value)
  }

  function OnUpdateTimeout(c: Config, p: Prover, dev: Uid): Effect
    requires dev in p.upTimers
  {
    var q := p.(upTimers := p.upTimers - {dev}, children := p.children - {dev});
    if |q.children| == 1 then SendUpReq(c, q.(status := Finished), p.upTimers[dev]) else Quiet(q)
  }
}
