/** A run in which no message is lost and yet a report is: the only child's update comes too late, after
    its parent reported early and was put back to collecting by its response timer. */
module FadiaExample {
  import opened Wrappers
  import opened FadiaReport
  import opened FadiaProver
  import opened FadiaRound
  import opened FadiaTheorems
  import opened FadiaLosses

  const PARENT: Uid := 1
  const CHILD: Uid := 2
  const TREE: TreeId := 5
  const KEY: KeyId := 7

  const PARENT_CONFIG := Config(PARENT, [KEY], 2, 2, 2)
  const CHILD_CONFIG := Config(CHILD, [KEY], 0, 2, 2)
  const SYS := System(2, 2, map[PARENT := PARENT_CONFIG, CHILD := CHILD_CONFIG],
                      map[PARENT := Start(0, 0, 0), CHILD := Start(0, 0, 0)])

  // ------------------------------------------------------------ the states on the way

  const FRESH := FreshProver(Start(0, 0, 0))
  const READY := FRESH.(checkTimer := false, status := Ready)

  const OFFERING := READY.(treeTimer := false, session := Some(Session(TREE, NOID, COLLECTOR_KEY, 2, true)),
                           status := Creating, offer := Some(Offer(2, TREE)),
                           children := map[NOID := Session(TREE, NOID, NOID, 0, false)], respTimer := Some(TREE))
  const WAITING := READY.(parent := PARENT, session := Some(Session(TREE, PARENT, KEY, 2, false)), status := Attesting,
                          ackTimer := Some(Timeout(PARENT, TREE)))
  const WITH_CHILD := OFFERING.(children := OFFERING.children[CHILD := Session(TREE, CHILD, KEY, 0, true)],
                                upTimers := map[CHILD := TREE])
  const CHILD_DONE := READY.(treeTimer := false, status := Finished, count := 1,
                             report := Report([CHILD], [1], [0], 1, 0))
  const PARENT_DONE := OFFERING.(status := Finished, session := None, children := map[], count := 1,
                                 report := Report([PARENT], [1], [0], 1, 0))
  const BACK := PARENT_DONE.(respTimer := None, status := Collecting)

  const REQUEST := Envelope(AtProver(CHILD), CommitReq(PARENT, 2, [KEY], TREE))
  const RESPONSE := Envelope(AtProver(PARENT), CommitResp(CHILD, PARENT, KEY, TREE))
  const ACK := Envelope(AtProver(CHILD), CommitAck(PARENT, CHILD, TREE))
  const UPDATE := Envelope(AtProver(PARENT), UpdateReq(ToParent, CHILD, PARENT, [CHILD], [1], [0], TREE))
  const REPORT := Envelope(AtCollector, UpdateReq(ToCollector, PARENT, COLLECTOR_ID, [PARENT], [1], [0], TREE))

  function At(p: Prover, c: Prover, net: seq<Option<Envelope>>, grants: map<(Uid, Uid), Grant>,
              links: map<Uid, Link>): World {
    World(map[PARENT := p, CHILD := c], net, multiset{}, 0, grants, links)
  }

  const GRANTS := map[(PARENT, CHILD) := Grant(KEY, TREE)]
  const LINKS := map[CHILD := Link(PARENT, 2, TREE, KEY)]
  const AIR := Env(TREE, [CHILD])
  const NOBODY := Env(TREE, [])

  const EVENTS := [CheckDone(PARENT), CheckDone(CHILD), TreeTimer(PARENT, AIR), Deliver(0, NOBODY), Deliver(1, NOBODY),
                   Deliver(2, NOBODY), UpdateTimeout(PARENT, CHILD), RespTimeout(PARENT)]

  function WorldAt(i: nat): World {
    match i
    case 0 => At(FRESH, FRESH, [], map[], map[])
    case 1 => At(READY, FRESH, [], map[], map[])
    case 2 => At(READY, READY, [], map[], map[])
    case 3 => At(OFFERING, READY, [Some(REQUEST)], map[], map[])
    case 4 => At(OFFERING, WAITING, [None, Some(RESPONSE)], map[], map[])
    case 5 => At(WITH_CHILD, WAITING, [None, None, Some(ACK)], GRANTS, map[])
    case 6 => At(WITH_CHILD, CHILD_DONE, [None, None, None, Some(UPDATE)], GRANTS, LINKS)
    case 7 => At(PARENT_DONE, CHILD_DONE, [None, None, None, Some(UPDATE), Some(REPORT)], GRANTS, LINKS)
    case _ => At(BACK, CHILD_DONE, [None, None, None, Some(UPDATE), Some(REPORT)], GRANTS, LINKS)
  }

  // ------------------------------------------------------------ the handlers

  lemma Offers()
    ensures OnTreeTimer(PARENT_CONFIG, READY, AIR) == Effect(OFFERING, [REQUEST], false, false)
  {
    assert Broadcast(PARENT_CONFIG, 2, TREE, [CHILD]) == [REQUEST];
  }

  lemma Answers()
    ensures OnCommitReq(CHILD_CONFIG, READY, REQUEST.msg) == Effect(WAITING, [RESPONSE], false, false)
  {
  }

  lemma RecordsChild()
    ensures OnCommitResp(PARENT_CONFIG, OFFERING, RESPONSE.msg) == Effect(WITH_CHILD, [ACK], false, false)
    ensures AcceptsResp(PARENT_CONFIG, OFFERING, RESPONSE.msg)
  {
    assert |OFFERING.children| == 1 && |WITH_CHILD.children| == 2;
  }

  lemma OwnReport(uid: Uid)
    requires uid != NOID
    ensures var r := Report([], [], [], 0, 0);
            !AddOwnFaults(r, 2) && AddOwn(r, uid, 1, 2) == Report([uid], [1], [0], 1, 0)
  {
    assert TailLen([uid]) == 1;
    assert [] + [uid] == [uid];
  }

  lemma Confirms()
    ensures OnCommitAck(CHILD_CONFIG, WAITING, ACK.msg, NOBODY) == Effect(CHILD_DONE, [UPDATE], false, false)
    ensures AcceptsAck(CHILD_CONFIG, WAITING, ACK.msg)
  {
    OwnReport(CHILD);
    var none: map<Uid, Session> := map[];
    assert none - {NOID} == none;
  }

  lemma GivesUp()
    ensures OnUpdateTimeout(PARENT_CONFIG, WITH_CHILD, CHILD) == Effect(PARENT_DONE, [REPORT], false, false)
  {
    OwnReport(PARENT);
    assert WITH_CHILD.children - {CHILD} == OFFERING.children && |OFFERING.children| == 1;
    assert OFFERING.children - {NOID} == map[] && WITH_CHILD.upTimers - {CHILD} == map[];
  }

  lemma GoesBack()
    ensures OnRespTimeout(PARENT_CONFIG, PARENT_DONE) == Quiet(BACK)
  {
  }

  // ------------------------------------------------------------ the run

  predicate Leads(w: World, ev: Event, w': World) {
    Enabled(SYS, w, ev) && Step(SYS, w, ev) == w'
  }

  lemma Checks()
    ensures Leads(WorldAt(0), EVENTS[0], WorldAt(1)) && Leads(WorldAt(1), EVENTS[1], WorldAt(2))
  {
    var w, w' := WorldAt(0), WorldAt(1);
    assert w.provers[PARENT := READY] == w'.provers && w'.provers[CHILD := READY] == WorldAt(2).provers;
  }

  lemma StepOffers()
    ensures Leads(WorldAt(2), EVENTS[2], WorldAt(3))
  {
    Offers();
    assert WorldAt(2).provers[PARENT := OFFERING] == WorldAt(3).provers;
    assert [] + Sent([REQUEST]) == [Some(REQUEST)];
  }

  /** A message arrives: the effect of its handler, and the history of the commitments. */
  lemma Arrives(sys: System, w: World, k: nat, u: Uid, e: Effect, g: map<(Uid, Uid), Grant>, l: map<Uid, Link>)
    requires InFlight(w, k) && w.net[k].value.to == AtProver(u) && Known(sys, w, u)
    requires Receive(sys.cfg[u], w.provers[u], w.net[k].value.msg, NOBODY) == e
    requires NewGrants(sys.cfg[u], w.provers[u], w.net[k].value.msg) == g
    requires NewLinks(sys.cfg[u], w.provers[u], w.net[k].value.msg) == l
    ensures Enabled(sys, w, Deliver(k, NOBODY))
    ensures Step(sys, w, Deliver(k, NOBODY)) == Put(Consume(w, k), u, e).(grants := w.grants + g, links := w.links + l)
  {
  }

  lemma PutParent(p: Prover, q: Prover, c: Prover, net: seq<Option<Envelope>>,
                  g: map<(Uid, Uid), Grant>, l: map<Uid, Link>, out: seq<Envelope>)
    ensures Put(At(p, c, net, g, l), PARENT, Effect(q, out, false, false)) == At(q, c, net + Sent(out), g, l)
  {
    assert map[PARENT := p, CHILD := c][PARENT := q] == map[PARENT := q, CHILD := c];
  }

  lemma PutChild(p: Prover, c: Prover, q: Prover, net: seq<Option<Envelope>>,
                 g: map<(Uid, Uid), Grant>, l: map<Uid, Link>, out: seq<Envelope>)
    ensures Put(At(p, c, net, g, l), CHILD, Effect(q, out, false, false)) == At(p, q, net + Sent(out), g, l)
  {
    assert map[PARENT := p, CHILD := c][CHILD := q] == map[PARENT := p, CHILD := q];
  }

  lemma NothingAdded<K, V>(m: map<K, V>)
    ensures m + map[] == m && map[] + m == m
  {
  }

  lemma Used0()
    ensures WorldAt(3).net[0 := None] == [None] && [None] + Sent([RESPONSE]) == WorldAt(4).net
  {
  }

  lemma Used1()
    ensures WorldAt(4).net[1 := None] == [None, None] && [None, None] + Sent([ACK]) == WorldAt(5).net
  {
  }

  lemma Used2()
    ensures WorldAt(5).net[2 := None] == [None, None, None] && [None, None, None] + Sent([UPDATE]) == WorldAt(6).net
  {
  }

  lemma StepAnswers()
    ensures Leads(WorldAt(3), EVENTS[3], WorldAt(4))
  {
    Answers();
    var w := WorldAt(3);
    Arrives(SYS, w, 0, CHILD, Effect(WAITING, [RESPONSE], false, false), map[], map[]);
    PutChild(OFFERING, READY, WAITING, [None], map[], map[], [RESPONSE]);
    NothingAdded(w.grants);
    NothingAdded(w.links);
    Used0();
  }

  lemma StepRecords()
    ensures Leads(WorldAt(4), EVENTS[4], WorldAt(5))
  {
    RecordsChild();
    var w := WorldAt(4);
    Arrives(SYS, w, 1, PARENT, Effect(WITH_CHILD, [ACK], false, false), GRANTS, map[]);
    PutParent(OFFERING, WITH_CHILD, WAITING, [None, None], map[], map[], [ACK]);
    NothingAdded(GRANTS);
    NothingAdded(w.links);
    Used1();
  }

  lemma StepConfirms()
    ensures Leads(WorldAt(5), EVENTS[5], WorldAt(6))
  {
    Confirms();
    var w := WorldAt(5);
    Arrives(SYS, w, 2, CHILD, Effect(CHILD_DONE, [UPDATE], false, false), map[], LINKS);
    PutChild(WITH_CHILD, WAITING, CHILD_DONE, [None, None, None], GRANTS, map[], [UPDATE]);
    NothingAdded(GRANTS);
    NothingAdded(LINKS);
    Used2();
  }

  lemma TimerFires(sys: System, w: World, u: Uid, dev: Uid, e: Effect)
    requires u in w.provers && u in sys.cfg && dev in w.provers[u].upTimers
    requires OnUpdateTimeout(sys.cfg[u], w.provers[u], dev) == e
    ensures Enabled(sys, w, UpdateTimeout(u, dev)) && Step(sys, w, UpdateTimeout(u, dev)) == Put(w, u, e)
  {
  }

  lemma StepGivesUp()
    ensures Leads(WorldAt(6), EVENTS[6], WorldAt(7))
  {
    GivesUp();
    var w := WorldAt(6);
    assert CHILD in WITH_CHILD.upTimers;
    TimerFires(SYS, w, PARENT, CHILD, Effect(PARENT_DONE, [REPORT], false, false));
    PutParent(WITH_CHILD, PARENT_DONE, CHILD_DONE, w.net, GRANTS, LINKS, [REPORT]);
    assert w.net + Sent([REPORT]) == WorldAt(7).net;
  }

  lemma StepGoesBack()
    ensures Leads(WorldAt(7), EVENTS[7], WorldAt(8))
  {
    GoesBack();
    assert WorldAt(7).provers[PARENT := BACK] == WorldAt(8).provers;
    assert WorldAt(7).net + Sent([]) == WorldAt(8).net;
  }

  lemma Led(i: nat)
    requires i < 8
    ensures Leads(WorldAt(i), EVENTS[i], WorldAt(i + 1))
  {
    Checks();
    match i {
      case 0 =>
      case 1 =>
      case 2 => StepOffers();
      case 3 => StepAnswers();
      case 4 => StepRecords();
      case 5 => StepConfirms();
      case 6 => StepGivesUp();
      case _ => StepGoesBack();
    }
  }

  lemma {:induction false} RunsFrom(i: nat)
    requires i <= 8
    ensures CanRun(SYS, WorldAt(i), EVENTS[i..]) && Run(SYS, WorldAt(i), EVENTS[i..]) == WorldAt(8)
    decreases 8 - i
  {
    if i < 8 {
      Led(i);
      assert EVENTS[i..][0] == EVENTS[i] && EVENTS[i..][1..] == EVENTS[i + 1..];
      RunsFrom(i + 1);
    } else {
      assert EVENTS[8..] == [];
    }
  }

  predicate NothingLost(evs: seq<Event>) {
    forall i :: 0 <= i < |evs| ==> !evs[i].Lose?
  }

  /** From the start of a round, and without losing a message. */
  ghost predicate ReachedWithoutLoss(sys: System, w0: World, w: World) {
    exists evs :: Reached(sys, w0, evs, w) && NothingLost(evs)
  }

  lemma ReachedBack()
    ensures ReachedWithoutLoss(SYS, WorldAt(0), WorldAt(8))
  {
    RunsFrom(0);
    assert EVENTS[0..] == EVENTS;
    assert Reached(SYS, WorldAt(0), EVENTS, WorldAt(8)) && NothingLost(EVENTS);
  }

  const LATE := Deliver(3, NOBODY)

  lemma LateIsOrphaned()
    ensures Enabled(SYS, WorldAt(8), LATE) && Orphaned(WorldAt(8), LATE) && Reported(SYS, WorldAt(8), CHILD)
  {
  }

  /** The record was there before the event, and is not any more. */
  ghost predicate Loses(sys: System, w: World, ev: Event, d: Record)
    requires Enabled(sys, w, ev)
  {
    Present(sys, w, d) && !Present(sys, Step(sys, w, ev), d)
  }

  lemma OrphanLoses(sys: System, w0: World, w: World, ev: Event, d: Record)
    requires ReachedWithoutLoss(sys, w0, w) && Enabled(sys, w, ev) && Orphaned(w, ev)
    requires d in Held(sys, w, InNet(ev.k))
    ensures Loses(sys, w, ev, d)
  {
    var evs :| Reached(sys, w0, evs, w) && NothingLost(evs);
    ReachedInv(sys, w0, evs, w);
    PresentAt(sys, w, InNet(ev.k), d);
    StepLoses(sys, w, ev, d);
  }

  /** The child has reported and no message was lost; then the update is delivered, and the child's
      record is gone. */
  lemma LateUpdateIsLost()
    ensures ReachedWithoutLoss(SYS, WorldAt(0), WorldAt(8))
    ensures Enabled(SYS, WorldAt(8), LATE) && Orphaned(WorldAt(8), LATE) && Reported(SYS, WorldAt(8), CHILD)
    ensures Loses(SYS, WorldAt(8), LATE, (CHILD, 1))
  {
    ReachedBack();
    LateIsOrphaned();
    CarriesRecord();
    OrphanLoses(SYS, WorldAt(0), WorldAt(8), LATE, (CHILD, 1));
  }

  lemma CarriesRecord()
    ensures (CHILD, 1) in Held(SYS, WorldAt(8), InNet(3))
  {
    assert Records([CHILD], [1]) == One(CHILD, 1) + Records([CHILD][1..], [1][1..]);
  }
}
