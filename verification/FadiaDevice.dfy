/** The prover as the program keeps it: fields updated in place, loops over its vectors.
    Each handler is tied to its effect in FadiaProver. */
module FadiaDevice {
  import opened Wrappers
  import opened FadiaReport
  import opened FadiaProver

  /** report_t, with the in-place operations on it. */
  class AggReport {
    var uids: seq<Uid>
    var counters: seq<nat>
    var proofs: seq<bv32>
    var size: int
    var sepsize: int

    ghost function Value(): Report
      reads this
    {
      Report(uids, counters, proofs, size, sepsize)
    }

    constructor (size0: int, sepsize0: int)
      ensures Value() == Report([], [], [], size0, sepsize0)
    {
      uids, counters, proofs := [], [], [];
      size, sepsize := size0, sepsize0;
    }

    /** The backward scan for the last separator. */
    method OpenGroup() returns (n: nat)
      ensures n == TailLen(uids)
    {
      var a := |uids|;
      n := 0;
      assert uids[..a] == uids;
      while a > 0 && uids[a - 1] != NOID
        invariant 0 <= a <= |uids| && n == |uids| - a
        invariant TailLen(uids) == n + TailLen(uids[..a])
        decreases a
      {
        assert uids[..a][..a - 1] == uids[..a - 1];
        a, n := a - 1, n + 1;
      }
    }

    method Fix(aggSize: nat)
      modifies this
      ensures Value() == FixProofs(old(Value()), aggSize)
    {
      var s := OpenGroup();
      if s == aggSize {
        uids, counters, sepsize := uids + [NOID], counters + [0], sepsize + 1;
      }
    }

    /** addOwnReport; the result says whether proofs.back() existed when it was needed. */
    method AddOwnReport(uid: Uid, counter: nat, aggSize: nat) returns (ok: bool)
      requires aggSize > 0
      modifies this
      ensures ok == !AddOwnFaults(old(Value()), aggSize)
      ensures ok ==> Value() == AddOwn(old(Value()), uid, counter, aggSize)
      ensures !ok ==> Value() == old(Value())
    {
      var a := |uids| % aggSize;
      if a == 0 {
        proofs := proofs + [0];
      } else {
        if proofs == [] { return false; }
        proofs := proofs[|proofs| - 1 := proofs[|proofs| - 1] ^ 0];
      }
      uids, counters, size := uids + [uid], counters + [counter], size + 1;
      Fix(aggSize);
      ok := true;
    }

    /** The push_back loop over a child's two vectors. */
    method PushRecords(us: seq<Uid>, cs: seq<nat>)
      requires |us| == |cs|
      modifies this`uids, this`counters, this`size, this`sepsize
      ensures uids == old(uids) + us && counters == old(counters) + cs
      ensures size == old(size) + |us| - Separators(us) && sepsize == old(sepsize) + Separators(us)
    {
      var i := 0;
      while i < |us|
        invariant 0 <= i <= |us|
        invariant uids == old(uids) + us[..i] && counters == old(counters) + cs[..i]
        invariant size == old(size) + i - Separators(us[..i]) && sepsize == old(sepsize) + Separators(us[..i])
      {
        assert us[..i + 1] == us[..i] + [us[i]] && cs[..i + 1] == cs[..i] + [cs[i]];
        SeparatorsAppend(us[..i], us[i]);
        uids, counters := uids + [us[i]], counters + [cs[i]];
        if us[i] == NOID { sepsize := sepsize + 1; } else { size := size + 1; }
        i := i + 1;
      }
      assert us[..i] == us && cs[..i] == cs;
    }

    /** The push_back loop over a child's proofs. */
    method PushProofs(ps: seq<bv32>)
      modifies this`proofs
      ensures proofs == old(proofs) + ps
    {
      var j := 0;
      while j < |ps|
        invariant 0 <= j <= |ps| && proofs == old(proofs) + ps[..j]
      {
        assert ps[..j + 1] == ps[..j] + [ps[j]];
        proofs := proofs + [ps[j]];
        j := j + 1;
      }
      assert ps[..j] == ps;
    }

    /** The end of the merge: put the saved group back. */
    method PutBack(us: seq<Uid>, cs: seq<nat>, proof: bv32, aggSize: nat) returns (ok: bool)
      requires aggSize > 0
      modifies this
      ensures ok == !ReattachFaults(old(Value()), |us|, aggSize)
      ensures ok ==> Value() == Reattach(old(Value()), us, cs, proof, aggSize)
    {
      var n := OpenGroup();
      var r := n % aggSize;
      if r + |us| <= aggSize {
        uids, counters, size := uids + us, counters + cs, size + |us|;
        if r > 0 {
          if proofs == [] { return false; }
          proofs := XorLast(proofs, proof);
        } else {
          proofs := proofs + [proof];
        }
        Fix(aggSize);
      } else {
        uids, counters, sepsize := uids + [NOID], counters + [0], sepsize + 1;
        uids, counters, size := uids + us, counters + cs, size + |us|;
        proofs := proofs + [proof];
      }
      ok := true;
    }

    method MergeChild(us: seq<Uid>, cs: seq<nat>, ps: seq<bv32>, aggSize: nat) returns (ok: bool)
      requires aggSize > 0 && |uids| == |counters| && |us| == |cs|
      modifies this
      ensures ok == !MergeFaults(old(Value()), us, cs, ps, aggSize)
      ensures ok ==> Value() == Merge(old(Value()), us, cs, ps, aggSize)
    {
      var uncompleted := OpenGroup();
      var a := |uids| - uncompleted;
      var tmpUids, tmpCounters := uids[a..], counters[a..];
      if uncompleted > 0 {
        if proofs == [] { return false; }
        var tmpProof := proofs[|proofs| - 1];
        uids, counters, proofs, size := uids[..a], counters[..a], proofs[..|proofs| - 1], size - uncompleted;
        assert Value() == Head(old(Value()));
        PushRecords(us, cs);
        PushProofs(ps);
        assert Value() == Append(Head(old(Value())), us, cs, ps);
        ok := PutBack(tmpUids, tmpCounters, tmpProof, aggSize);
      } else {
        PushRecords(us, cs);
        PushProofs(ps);
        ok := true;
      }
    }
  }

  /** A prover: its sessions, timers and report, and the messages it has handed to the radio. */
  class Device {
    const cfg: Config
    const aggreport: AggReport
    var status: Status
    var parent: Uid
    var session: Option<Session>
    var children: map<Uid, Session>
    var count: nat
    var offer: Option<Offer>
    var checkTimer: bool
    var treeTimer: bool
    var ackTimer: Option<Timeout>
    var respTimer: Option<TreeId>
    var upTimers: map<Uid, TreeId>
    var outbox: seq<Envelope>
    var alerted: bool
    var faulted: bool

    ghost function State(): Prover
      reads this, aggreport
    {
      Prover(status, parent, session, children, aggreport.Value(), count, offer,
             checkTimer, treeTimer, ackTimer, respTimer, upTimers)
    }

    /** The device has taken effect e, starting with the given outbox and flags. */
    ghost predicate Took(e: Effect, sent: seq<Envelope>, alerts: bool, faults: bool)
      reads this, aggreport
    {
      if e.fault then faulted
      else State() == e.p && outbox == sent + e.out && alerted == (alerts || e.alert) && faulted == faults
    }

    /** startAttestation: forget the last round and arm the two timers. */
    constructor (c: Config, count0: nat, size0: int, sepsize0: int)
      ensures cfg == c && fresh(aggreport) && outbox == [] && !alerted && !faulted
      ensures State() == Prover(Checking, NOID, None, map[], Report([], [], [], size0, sepsize0), count0, None,
                                true, true, None, None, map[])
    {
      cfg := c;
      aggreport := new AggReport(size0, sepsize0);
      status, parent, session, children, count := Checking, NOID, None, map[], count0;
      offer, checkTimer, treeTimer, ackTimer, respTimer, upTimers := None, true, true, None, None, map[];
      outbox, alerted, faulted := [], false, false;
    }

    /** addOwnReport with the counter increment. */
    method AddOwnRecord() returns (ok: bool)
      requires cfg.aggSize > 0
      modifies this`count, aggreport
      ensures ok == !AddOwnFaults(old(State()).report, cfg.aggSize)
      ensures ok ==> State() == old(State()).(count := old(count) + 1,
                                              report := AddOwn(old(State()).report, cfg.uid, count, cfg.aggSize))
    {
      ok := aggreport.AddOwnReport(cfg.uid, count + 1, cfg.aggSize);
      if ok {
        count := count + 1;
      }
    }

    /** The message of sendUpReq, and the sessions closed behind it. */
    method Transmit(tid: TreeId)
      modifies this`outbox, this`children, this`session, this`parent, this`status
      ensures State() == old(State()).(children := old(children) - {NOID}, parent := NOID,
                                              session := None, status := Finished)
      ensures outbox == old(outbox) +
        [if old(parent) != NOID
         then Envelope(AtProver(old(parent)),
             UpdateReq(ToParent, cfg.uid, old(parent), aggreport.uids, aggreport.counters, aggreport.proofs, tid))
         else Envelope(AtCollector,
             UpdateReq(ToCollector, cfg.uid, COLLECTOR_ID, aggreport.uids, aggreport.counters, aggreport.proofs, tid))]
    {
      if parent != NOID {
        var r := aggreport;
        var m := UpdateReq(ToParent, cfg.uid, parent, r.uids, r.counters, r.proofs, tid);
        outbox := outbox + [Envelope(AtProver(parent), m)];
      } else {
        var r := aggreport;
        var m := UpdateReq(ToCollector, cfg.uid, COLLECTOR_ID, r.uids, r.counters, r.proofs, tid);
        outbox := outbox + [Envelope(AtCollector, m)];
      }
      children := children - {NOID};
      session, parent, status := None, NOID, Finished;
    }

    method SendUp(tid: TreeId)
      modifies this, aggreport
      ensures Took(SendUpReq(cfg, old(State()), tid), old(outbox), old(alerted), old(faulted))
    {
      if cfg.aggSize == 0 || session.None? || |aggreport.uids| != |aggreport.counters| {
        faulted := true;
        return;
      }
      var ok := AddOwnRecord();
      if !ok {
        faulted := true;
        return;
      }
      Transmit(tid);
    }

    method Offering(depth: nat, tree: TreeId, env: Env)
      modifies this
      ensures Took(MakeOffer(cfg, old(State()), depth, tree, env), old(outbox), old(alerted), old(faulted))
    {
      status, offer := Creating, Some(Offer(depth, tree));
      var i := 0;
      while i < |env.inRange|
        invariant 0 <= i <= |env.inRange|
        invariant outbox == old(outbox) + Broadcast(cfg, depth, tree, env.inRange[..i])
        invariant State() == old(State()).(status := Creating, offer := Some(Offer(depth, tree)))
        invariant alerted == old(alerted) && faulted == old(faulted)
      {
        assert env.inRange[..i + 1] == env.inRange[..i] + [env.inRange[i]];
        var e := Envelope(AtProver(env.inRange[i]), CommitReq(cfg.uid, depth, cfg.ring, tree));
        assert Broadcast(cfg, depth, tree, env.inRange[..i + 1]) == Broadcast(cfg, depth, tree, env.inRange[..i]) + [e];
        outbox := outbox + [e];
        i := i + 1;
      }
      assert env.inRange[..i] == env.inRange;
      children := children[NOID := Session(tree, NOID, NOID, 0, false)];
      respTimer := Some(tree);
    }

    method SendCommit(tid: TreeId, env: Env)
      modifies this, aggreport
      ensures Took(SendCommitReq(cfg, old(State()), tid, env), old(outbox), old(alerted), old(faulted))
    {
      if status == Attesting {
        status := AttestingCreating;
      } else if cfg.maxChildren == 0 {
        session := Some(Session(env.freshTree, NOID, COLLECTOR_KEY, cfg.maxDepth, true));
        SendUp(env.freshTree);
      } else if parent == NOID {
        session := Some(Session(env.freshTree, NOID, COLLECTOR_KEY, cfg.maxDepth, true));
        Offering(cfg.maxDepth, env.freshTree, env);
      } else if session.None? {
        faulted := true;
      } else {
        Offering(Below(session.value.depth), tid, env);
      }
    }

    /** The key search of handleCommitReq. */
    method FindKey(kids: seq<KeyId>) returns (k: Option<KeyId>)
      ensures k == FirstShared(kids, cfg.ring)
      ensures k.Some? ==> exists i: nat :: SharedFirst(kids, cfg.ring, i) && k.value == kids[i]
      ensures k.None? ==> forall x :: x in kids ==> x !in cfg.ring
    {
      var i := 0;
      while i < |kids|
        invariant 0 <= i <= |kids|
        invariant forall j :: 0 <= j < i ==> kids[j] !in cfg.ring
      {
        if kids[i] in cfg.ring {
          FirstSharedAt(kids, cfg.ring, i);
          return Some(kids[i]);
        }
        i := i + 1;
      }
      k := None;
    }

    method HandleCommitReq(m: Message)
      requires m.CommitReq?
      modifies this
      ensures Took(OnCommitReq(cfg, old(State()), m), old(outbox), old(alerted), old(faulted))
    {
      if status != Ready { return; }
      var k := FindKey(m.kids);
      if k.Some? {
        if ackTimer.Some? {
          faulted := true;
          return;
        }
        session, parent := Some(Session(m.tree, m.src, k.value, m.depth, false)), m.src;
        status := Attesting;
        outbox := outbox + [Envelope(AtProver(m.src), CommitResp(cfg.uid, m.src, k.value, m.tree))];
        ackTimer := Some(Timeout(m.src, m.tree));
      }
    }

    method HandleCommitAck(m: Message, env: Env)
      requires m.CommitAck?
      modifies this, aggreport
      ensures Took(OnCommitAck(cfg, old(State()), m, env), old(outbox), old(alerted), old(faulted))
    {
      if parent != m.src { return; }
      if m.dst != cfg.uid {
        alerted := true;
        return;
      }
      if session.None? {
        faulted := true;
        return;
      }
      if session.value.key !in cfg.ring {
        alerted := true;
        return;
      }
      Confirm();
      if session.value.depth == 1 || cfg.maxChildren == 0 {
        status := Finished;
        SendUp(m.tree);
      } else {
        status := Creating;
        SendCommit(m.tree, env);
      }
    }

    /** Cancel the two timers and validate the parent session. */
    method Confirm()
      requires session.Some?
      modifies this`treeTimer, this`ackTimer, this`session
      ensures State() == old(State()).(treeTimer := false, ackTimer := None,
              session := Some(old(session).value.(valid := true)))
    {
      treeTimer, ackTimer := false, None;
      session := Some(session.value.(valid := true));
    }

    method HandleCommitResp(m: Message)
      requires m.CommitResp?
      modifies this
      ensures Took(OnCommitResp(cfg, old(State()), m), old(outbox), old(alerted), old(faulted))
    {
      if status == Collecting || status == Finished || status == Ready { return; }
      if status != Creating || |children| == 0 || |children| - 1 >= cfg.maxChildren || m.dst != cfg.uid {
        alerted := true;
        return;
      }
      if m.src in children || m.kid !in cfg.ring { return; }
      AcceptResponse(m);
    }

    /** What follows once every check of handleCommitResp has passed. */
    method AcceptResponse(m: Message)
      requires m.CommitResp? && AcceptsResp(cfg, State(), m)
      modifies this
      ensures Took(OnCommitResp(cfg, old(State()), m), old(outbox), old(alerted), old(faulted))
    {
      if session.None? || m.src in upTimers {
        faulted := true;
        return;
      }
      RecordChild(m);
      if |children| == cfg.maxChildren + 1 {
        status, respTimer := Collecting, None;
      }
    }

    /** Open the child's session, acknowledge it and start its update timer. */
    method RecordChild(m: Message)
      requires m.CommitResp?
      modifies this`children, this`outbox, this`upTimers
      ensures State() == old(State()).(children := old(children)[m.src := Session(m.tree, m.src, m.kid, 0, true)],
                                       upTimers := old(upTimers)[m.src := m.tree])
      ensures outbox == old(outbox) + [Envelope(AtProver(m.src), CommitAck(cfg.uid, m.src, m.tree))]
    {
      children := children[m.src := Session(m.tree, m.src, m.kid, 0, true)];
      outbox := outbox + [Envelope(AtProver(m.src), CommitAck(cfg.uid, m.src, m.tree))];
      upTimers := upTimers[m.src := m.tree];
    }

    method HandleUpReq(m: Message)
      requires m.UpdateReq?
      modifies this, aggreport
      ensures Took(OnUpdate(cfg, old(State()), m), old(outbox), old(alerted), old(faulted))
    {
      if m.kind == Fix {
        outbox := outbox + [Envelope(AtCollector, m)];
        return;
      }
      if m.dst != cfg.uid {
        alerted := true;
        return;
      }
      if status == Finished {
        outbox := outbox + [Envelope(AtCollector, m.(kind := Fix, dst := COLLECTOR_ID))];
        return;
      }
      if status != Collecting && status != Creating {
        alerted := true;
        return;
      }
      if m.src !in children { return; }
      if session.None? {
        faulted := true;
        return;
      }
      if m.tree != session.value.tree {
        alerted := true;
        return;
      }
      AcceptUpdate(m);
    }

    /** The merge and what follows it, once every check of handleUpReq has passed. */
    method AcceptUpdate(m: Message)
      requires m.UpdateReq?
      modifies this, aggreport
      ensures Took(Accepting(cfg, old(State()), m), old(outbox), old(alerted), old(faulted))
    {
      var ok := TakeReport(m);
      if !ok {
        faulted := true;
        return;
      }
      CloseSession(m.src);
      FinishAfterLast(m.tree);
    }

    /** The report, if no session but the placeholder is left. */
    method FinishAfterLast(tid: TreeId)
      modifies this, aggreport
      ensures Took(Finishing(cfg, old(State()), tid), old(outbox), old(alerted), old(faulted))
    {
      if |children| == 1 {
        SendUp(tid);
      }
    }

    /** The merge of a child's report, unless it reads or divides where it must not. */
    method TakeReport(m: Message) returns (ok: bool)
      requires m.UpdateReq?
      modifies aggreport
      ensures ok == !TakeFaults(old(aggreport.Value()), m)
      ensures ok ==> aggreport.Value() == Merge(old(aggreport.Value()), m.uids, CountersRead(m), m.proofs, cfg.aggSize)
    {
      if cfg.aggSize == 0 || |aggreport.uids| != |aggreport.counters| || |m.counters| < |m.uids| {
        return false;
      }
      ok := aggreport.MergeChild(m.uids, CountersRead(m), m.proofs, cfg.aggSize);
    }

    ghost predicate TakeFaults(r: Report, m: Message)
      requires m.UpdateReq?
    {
      cfg.aggSize == 0 || |r.uids| != |r.counters| || |m.counters| < |m.uids|
        || MergeFaults(r, m.uids, CountersRead(m), m.proofs, cfg.aggSize)
    }

    /** Drop a child's session and its update timer. */
    method CloseSession(dev: Uid)
      modifies this`upTimers, this`children
      ensures State() == old(State()).(upTimers := old(upTimers) - {dev}, children := old(children) - {dev})
    {
      upTimers, children := upTimers - {dev}, children - {dev};
    }

    method CheckSoftConfig()
      modifies this
      ensures Took(OnCheck(old(State())), old(outbox), old(alerted), old(faulted))
    {
      checkTimer, status := false, Ready;
    }

    method TreeTimerFires(env: Env)
      modifies this, aggreport
      ensures Took(OnTreeTimer(cfg, old(State()), env), old(outbox), old(alerted), old(faulted))
    {
      treeTimer := false;
      SendCommit(NOID, env);
    }

    method HandleCommitAckTimeOut(env: Env)
      requires ackTimer.Some?
      modifies this, aggreport
      ensures Took(OnAckTimeout(cfg, old(State()), env), old(outbox), old(alerted), old(faulted))
    {
      var dev := ackTimer.value.device;
      ackTimer := None;
      if dev != parent {
        alerted := true;
        return;
      }
      session, parent := None, NOID;
      if status == AttestingCreating {
        status := Creating;
        SendCommit(NOID, env);
      } else {
        status := Ready;
      }
    }

    method HandleCommitRespTimeOut()
      requires respTimer.Some?
      modifies this, aggreport
      ensures Took(OnRespTimeout(cfg, old(State())), old(outbox), old(alerted), old(faulted))
    {
      var tid := respTimer.value;
      respTimer, status := None, Collecting;
      FinishAfterLast(tid);
    }

    method HandleUpdateTimeOut(dev: Uid)
      requires dev in upTimers
      modifies this, aggreport
      ensures Took(OnUpdateTimeout(cfg, old(State()), dev), old(outbox), old(alerted), old(faulted))
    {
      var tid := upTimers[dev];
      CloseSession(dev);
      if |children| == 1 {
        status := Finished;
        SendUp(tid);
      }
    }
  }

  /** ACollector::handleUpReq's count over the report, from the back. */
  method CountAttested(uids: seq<Uid>) returns (s: nat)
    ensures s == |uids| - Separators(uids)
  {
    var size := |uids|;
    s := 0;
    assert uids[size..] == [];
    while size > 0
      invariant 0 <= size <= |uids|
      invariant s == |uids| - size - Separators(uids[size..])
    {
      size := size - 1;
      assert uids[size..][1..] == uids[size + 1..];
      if uids[size] != NOID {
        s := s + 1;
      }
    }
    assert uids[0..] == uids;
  }
}
