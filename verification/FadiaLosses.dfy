/** When a report record gets lost: only with a lost message, or with an update that reaches a
    prover which no longer has its sender as a child. */
module FadiaLosses {
  import opened Wrappers
  import opened FadiaReport
  import opened FadiaProver
  import opened FadiaRound
  import opened FadiaLocal
  import opened FadiaFrame
  import opened FadiaHandshake
  import opened FadiaRecords
  import opened FadiaTheorems

  type Record = (Uid, nat)

  /** The record is in a message, in a report not yet sent, or at the collector. */
  ghost predicate Present(sys: System, w: World, d: Record) {
    exists h: Holder :: d in Held(sys, w, h)
  }

  lemma PresentAt(sys: System, w: World, h: Holder, d: Record)
    requires d in Held(sys, w, h)
    ensures Present(sys, w, d)
  {
  }

  /** An update reaches a prover that is not finished and has not, or no longer, its sender as a child.
      This is so too for one that finished early and was put back to collecting by its response timer. */
  predicate Orphaned(w: World, ev: Event) {
    && ev.Deliver? && InFlight(w, ev.k) && w.net[ev.k].value.msg.UpdateReq? && w.net[ev.k].value.to.AtProver?
    && w.net[ev.k].value.to.uid in w.provers
    && w.provers[w.net[ev.k].value.to.uid].status != Finished
    && w.net[ev.k].value.msg.src !in w.provers[w.net[ev.k].value.to.uid].children
  }

  /** The event loses this record. */
  predicate Drops(w: World, ev: Event, d: Record) {
    (ev.Lose? || Orphaned(w, ev)) && InFlight(w, ev.k) && d in RecordsOf(w.net[ev.k].value.msg)
  }

  // ------------------------------------------------------------ events at provers

  lemma KeptStays(sys: System, w: World, u: Uid, e: Effect, gone: Option<nat>,
                  g: map<(Uid, Uid), Grant>, l: map<Uid, Link>, h: Holder, d: Record)
    requires Kept(sys, w, u, e, gone) && (gone.Some? ==> InFlight(w, gone.value)) && d in Held(sys, w, h)
    ensures Present(sys, After(w, u, e, gone, g, l), d)
  {
    var w' := After(w, u, e, gone, g, l);
    if h == InReport(u) {
      ReportStays(sys, w, u, e, gone, g, l, d);
    } else if gone.Some? && h == InNet(gone.value) {
      MessageStays(sys, w, u, e, gone, g, l, d);
    } else {
      HeldAfter(sys, w, u, e, gone, g, l, h);
      HeldBefore(sys, w, u, gone);
      PresentAt(sys, w', h, d);
    }
  }

  /** The records of u's report stay there, or are sent with it. */
  lemma ReportStays(sys: System, w: World, u: Uid, e: Effect, gone: Option<nat>,
                    g: map<(Uid, Uid), Grant>, l: map<Uid, Link>, d: Record)
    requires Kept(sys, w, u, e, gone) && (gone.Some? ==> InFlight(w, gone.value)) && d in Held(sys, w, InReport(u))
    ensures Present(sys, After(w, u, e, gone, g, l), d)
  {
    HeldBefore(sys, w, u, gone);
    var h := if Emits(sys, w, u, e, gone) then InNet(|w.net|) else InReport(u);
    HeldAfter(sys, w, u, e, gone, g, l, h);
    PresentAt(sys, After(w, u, e, gone, g, l), h, d);
  }

  /** Those of the consumed message join the report, or go on with a new message. */
  lemma MessageStays(sys: System, w: World, u: Uid, e: Effect, gone: Option<nat>,
                     g: map<(Uid, Uid), Grant>, l: map<Uid, Link>, d: Record)
    requires Kept(sys, w, u, e, gone) && gone.Some? && InFlight(w, gone.value) && d in Held(sys, w, InNet(gone.value))
    ensures Present(sys, After(w, u, e, gone, g, l), d)
  {
    HeldBefore(sys, w, u, gone);
    var joins := Absorbs(w, w.provers[u], e, gone) && w.provers[u].count == sys.start[u].count;
    var h := if joins then InReport(u) else InNet(|w.net|);
    HeldAfter(sys, w, u, e, gone, g, l, h);
    PresentAt(sys, After(w, u, e, gone, g, l), h, d);
  }

  /** A prover's own record is there as soon as it reports. */
  lemma NewRecord(sys: System, w: World, u: Uid, e: Effect, gone: Option<nat>, g: map<(Uid, Uid), Grant>,
                  l: map<Uid, Link>)
    requires Accounted(sys, w, u, e, gone) && !Reported(sys, w, u) && e.p.count == sys.start[u].count + 1
    ensures Present(sys, After(w, u, e, gone, g, l), (u, sys.start[u].count + 1))
  {
    assert Emits(sys, w, u, e, gone);
    HeldAfter(sys, w, u, e, gone, g, l, InNet(|w.net|));
    PresentAt(sys, After(w, u, e, gone, g, l), InNet(|w.net|), (u, sys.start[u].count + 1));
  }

  /** Every event at a prover but an orphaned update keeps all records. */
  lemma ActorKeeps(sys: System, w: World, ev: Event)
    requires ValidSystem(sys) && HandshakeInv(sys, w) && Enabled(sys, w, ev) && Actor(w, ev).Some? && !Orphaned(w, ev)
    ensures Kept(sys, w, Actor(w, ev).value, EffectOf(sys, w, ev), Gone(ev))
  {
    EventAccounted(sys, w, ev);
    var u := Actor(w, ev).value;
    if ev.Deliver? && w.net[ev.k].value.msg.UpdateReq? {
      At(sys, w, u);
      EnvAt(sys, w, ev.k);
      UpdateFindsParent(sys, w, u, w.net[ev.k].value.msg);
      UpdateAccounted(sys, w, u, ev.k);
    } else {
      if ev.Deliver? { OnlyUpdatesCarry(w.net[ev.k].value.msg); }
      AccountedKept(sys, w, u, EffectOf(sys, w, ev), Gone(ev));
    }
  }

  lemma AccountedKept(sys: System, w: World, u: Uid, e: Effect, gone: Option<nat>)
    requires Accounted(sys, w, u, e, gone) && GoneRecords(w, gone) == multiset{}
    ensures Kept(sys, w, u, e, gone)
  {
  }

  /** An orphaned update changes nothing but its own disappearance. */
  lemma OrphanedQuiet(sys: System, w: World, ev: Event)
    requires ValidSystem(sys) && HandshakeInv(sys, w) && Enabled(sys, w, ev) && Orphaned(w, ev)
    ensures var u := w.net[ev.k].value.to.uid;
            Actor(w, ev) == Some(u) && u in sys.start && EffectOf(sys, w, ev) == Quiet(w.provers[u])
  {
    var u := w.net[ev.k].value.to.uid;
    At(sys, w, u);
    EnvAt(sys, w, ev.k);
    UpdateFindsParent(sys, w, u, w.net[ev.k].value.msg);
    UpdateAccounted(sys, w, u, ev.k);
  }

  // ------------------------------------------------------------ every event

  /** Message k is gone, and everything else is held as before. */
  ghost predicate OnlyGone(sys: System, w: World, w': World, k: nat) {
    Held(sys, w', InNet(k)) == multiset{} && forall h: Holder :: h != InNet(k) ==> Held(sys, w', h) == Held(sys, w, h)
  }

  lemma OrphanedGone(sys: System, w: World, ev: Event)
    requires ValidSystem(sys) && HandshakeInv(sys, w) && Enabled(sys, w, ev) && Orphaned(w, ev)
    ensures OnlyGone(sys, w, Step(sys, w, ev), ev.k)
  {
    OrphanedQuiet(sys, w, ev);
    StepIsAfter(sys, w, ev);
    QuietGone(sys, w, Step(sys, w, ev), w.net[ev.k].value.to.uid, ev.k, GrantsOf(sys, w, ev), LinksOf(sys, w, ev));
  }

  /** A handler that changes nothing uses up its message only. */
  lemma QuietGone(sys: System, w: World, w': World, u: Uid, k: nat, g: map<(Uid, Uid), Grant>, l: map<Uid, Link>)
    requires u in w.provers && u in sys.start && k < |w.net|
    requires w' == After(w, u, Quiet(w.provers[u]), Some(k), g, l)
    ensures OnlyGone(sys, w, w', k)
  {
    HeldBefore(sys, w, u, Some(k));
    forall h: Holder ensures Held(sys, w', h) == if h == InNet(k) then multiset{} else Held(sys, w, h) {
      HeldAfter(sys, w, u, Quiet(w.provers[u]), Some(k), g, l, h);
    }
  }

  lemma LostGone(sys: System, w: World, ev: Event)
    requires Enabled(sys, w, ev) && ev.Lose?
    ensures OnlyGone(sys, w, Step(sys, w, ev), ev.k)
  {
    var w' := Step(sys, w, ev);
    forall h: Holder ensures Held(sys, w', h) == if h == InNet(ev.k) then multiset{} else Held(sys, w, h) {
    }
  }

  /** A record that was only in message k is gone with it. */
  lemma GoneForGood(sys: System, w: World, w': World, k: nat, d: Record)
    requires RecordsInv(sys, w) && OnlyGone(sys, w, w', k)
    requires Present(sys, w, d)
    ensures Present(sys, w', d) <==> d !in Held(sys, w, InNet(k))
  {
    var h: Holder :| d in Held(sys, w, h);
    if d in Held(sys, w, InNet(k)) {
      forall g: Holder ensures d !in Held(sys, w', g) {
        if g != InNet(k) { assert d in Held(sys, w, g) ==> g == InNet(k); }
      }
    } else {
      PresentAt(sys, w', h, d);
    }
  }

  /** A message that is diverted or that the collector receives. */
  lemma SinkKeeps(sys: System, w: World, ev: Event, h: Holder, d: Record)
    requires HandshakeInv(sys, w) && Enabled(sys, w, ev) && Actor(w, ev).None? && !ev.Lose? && d in Held(sys, w, h)
    ensures Present(sys, Step(sys, w, ev), d)
  {
    if ev.Deliver? {
      CollectKeeps(sys, w, ev, h, d);
    } else {
      DivertKeeps(sys, w, ev, h);
      PresentAt(sys, Step(sys, w, ev), h, d);
    }
  }

  lemma CollectKeeps(sys: System, w: World, ev: Event, h: Holder, d: Record)
    requires Enabled(sys, w, ev) && ev.Deliver? && w.net[ev.k].value.to.AtCollector? && d in Held(sys, w, h)
    ensures Present(sys, Step(sys, w, ev), d)
  {
    var w' := Step(sys, w, ev);
    if h == InNet(ev.k) {
      assert d in Held(sys, w', AtSink);
    } else {
      assert d in Held(sys, w', h);
    }
  }

  lemma DivertKeeps(sys: System, w: World, ev: Event, h: Holder)
    requires Enabled(sys, w, ev) && ev.Divert?
    ensures Held(sys, Step(sys, w, ev), h) == Held(sys, w, h)
  {
  }

  lemma NotDroppedStays(sys: System, w: World, ev: Event, d: Record)
    requires ValidSystem(sys) && Inv(sys, w) && Enabled(sys, w, ev) && Present(sys, w, d) && !ev.Lose?
             && !Orphaned(w, ev)
    ensures Present(sys, Step(sys, w, ev), d)
  {
    var h: Holder :| d in Held(sys, w, h);
    if Actor(w, ev).Some? {
      ActorKeeps(sys, w, ev);
      StepIsAfter(sys, w, ev);
      KeptStays(sys, w, Actor(w, ev).value, EffectOf(sys, w, ev), Gone(ev), GrantsOf(sys, w, ev), LinksOf(sys, w, ev),
          h, d);
    } else {
      SinkKeeps(sys, w, ev, h, d);
    }
  }

  /** A record disappears in a step exactly if the step loses a message that carries it, or delivers
      one to a prover without that child. */
  lemma StepLoses(sys: System, w: World, ev: Event, d: Record)
    requires ValidSystem(sys) && Inv(sys, w) && Enabled(sys, w, ev) && Present(sys, w, d)
    ensures Present(sys, Step(sys, w, ev), d) <==> !Drops(w, ev, d)
  {
    if ev.Lose? {
      LostGone(sys, w, ev);
      GoneForGood(sys, w, Step(sys, w, ev), ev.k, d);
    } else if Orphaned(w, ev) {
      OrphanedGone(sys, w, ev);
      GoneForGood(sys, w, Step(sys, w, ev), ev.k, d);
    } else {
      NotDroppedStays(sys, w, ev, d);
    }
  }

  // ------------------------------------------------------------ a lost record does not come back

  lemma GathersNoReturn(sys: System, w: World, w': World, dst: Holder, a: Holder, b: Holder,
                        u: Uid, own: multiset<(Uid, nat)>, d: Record)
    requires OwnRecord(sys, w, w', u, own) && Gathers(sys, w, w', dst, a, b, own)
    requires Reported(sys, w, d.0) && !Present(sys, w, d)
    ensures !Present(sys, w', d)
  {
    forall h: Holder ensures d !in Held(sys, w', h) {
      if d in Held(sys, w', h) {
        CameFrom(sys, w, w', dst, a, b, own, h, d);
        NotPresent(sys, w, d, a);
        NotPresent(sys, w, d, b);
        NotPresent(sys, w, d, h);
      }
    }
  }

  lemma NotPresent(sys: System, w: World, d: Record, h: Holder)
    ensures d in Held(sys, w, h) ==> Present(sys, w, d)
  {
  }

  lemma ActorNoReturn(sys: System, w: World, u: Uid, e: Effect, gone: Option<nat>,
                      g: map<(Uid, Uid), Grant>, l: map<Uid, Link>, d: Record)
    requires Accounted(sys, w, u, e, gone) && (gone.Some? ==> InFlight(w, gone.value))
    requires Reported(sys, w, d.0) && !Present(sys, w, d)
    ensures ReportedStays(sys, w, After(w, u, e, gone, g, l)) && !Present(sys, After(w, u, e, gone, g, l), d)
  {
    var w' := After(w, u, e, gone, g, l);
    if Untouched(w.provers[u], e) || Absorbs(w, w.provers[u], e, gone) {
      JoinGathers(sys, w, u, e, gone, g, l);
      GathersNoReturn(sys, w, w', InReport(u), InReport(u), Source(w, e, gone), u, multiset{}, d);
    } else if Emits(sys, w, u, e, gone) {
      EmitGathers(sys, w, u, e, gone, g, l);
      EmitOwn(sys, w, u, e, gone, g, l);
      GathersNoReturn(sys, w, w', InNet(|w.net|), InReport(u), Source(w, e, gone), u,
                      multiset{(u, sys.start[u].count + 1)}, d);
    } else {
      ForwardGathers(sys, w, u, e, gone.value, g, l);
      GathersNoReturn(sys, w, w', InNet(|w.net|), InNet(gone.value), Nowhere(w, e), u, multiset{}, d);
    }
  }

  lemma NoReturn(sys: System, w: World, ev: Event, d: Record)
    requires ValidSystem(sys) && Inv(sys, w) && Enabled(sys, w, ev) && Reported(sys, w, d.0) && !Present(sys, w, d)
    ensures Reported(sys, Step(sys, w, ev), d.0) && !Present(sys, Step(sys, w, ev), d)
  {
    var w' := Step(sys, w, ev);
    if Actor(w, ev).Some? {
      EventAccounted(sys, w, ev);
      StepIsAfter(sys, w, ev);
      ActorNoReturn(sys, w, Actor(w, ev).value, EffectOf(sys, w, ev), Gone(ev),
                    GrantsOf(sys, w, ev), LinksOf(sys, w, ev), d);
    } else {
      EnvAt(sys, w, ev.k);
      OtherGathers(sys, w, ev);
      if ev.Deliver? {
        GathersNoReturn(sys, w, w', AtSink, AtSink, InNet(ev.k), NOID, multiset{}, d);
      } else {
        GathersNoReturn(sys, w, w', InNet(ev.k), InNet(ev.k), InNet(|w.net|), NOID, multiset{}, d);
      }
    }
  }

  lemma {:induction false} StaysGone(sys: System, w: World, evs: seq<Event>, d: Record)
    requires ValidSystem(sys) && Inv(sys, w) && CanRun(sys, w, evs) && Reported(sys, w, d.0) && !Present(sys, w, d)
    ensures !Present(sys, Run(sys, w, evs), d)
    decreases |evs|
  {
    if evs != [] {
      NoReturn(sys, w, evs[0], d);
      StepInv(sys, w, evs[0]);
      StaysGone(sys, Step(sys, w, evs[0]), evs[1..], d);
    }
  }

  // ------------------------------------------------------------ runs

  function RecordOf(sys: System, u: Uid): Record
    requires u in sys.start
  {
    (u, sys.start[u].count + 1)
  }

  /** Some step of the run loses the record. */
  predicate WasDropped(sys: System, w: World, evs: seq<Event>, d: Record)
    requires CanRun(sys, w, evs)
    decreases |evs|
  {
    evs != [] && (Drops(w, evs[0], d) || WasDropped(sys, Step(sys, w, evs[0]), evs[1..], d))
  }

  /** A prover that has reported, its record is somewhere. */
  ghost predicate Accounts(sys: System, w: World, u: Uid) {
    Reported(sys, w, u) ==> u in sys.start && Present(sys, w, RecordOf(sys, u))
  }

  lemma StepAccounts(sys: System, w: World, ev: Event, u: Uid)
    requires ValidSystem(sys) && Inv(sys, w) && Enabled(sys, w, ev) && u in sys.start && Accounts(sys, w, u)
    requires !Drops(w, ev, RecordOf(sys, u))
    ensures Accounts(sys, Step(sys, w, ev), u)
  {
    var w' := Step(sys, w, ev);
    if Reported(sys, w, u) {
      StepLoses(sys, w, ev, RecordOf(sys, u));
    } else if Reported(sys, w', u) {
      ReportsNow(sys, w, ev, u);
    }
  }

  lemma ReportsNow(sys: System, w: World, ev: Event, u: Uid)
    requires ValidSystem(sys) && Inv(sys, w) && Enabled(sys, w, ev) && u in sys.start
    requires !Reported(sys, w, u) && Reported(sys, Step(sys, w, ev), u)
    ensures Present(sys, Step(sys, w, ev), RecordOf(sys, u))
  {
    ReporterActs(sys, w, ev, u);
    StepIsAfter(sys, w, ev);
    ReporterAccounted(sys, w, ev, u);
    NewRecordAt(sys, w, Step(sys, w, ev), u, EffectOf(sys, w, ev), Gone(ev), GrantsOf(sys, w, ev), LinksOf(sys, w, ev));
  }

  lemma NewRecordAt(sys: System, w: World, w': World, u: Uid, e: Effect, gone: Option<nat>,
                    g: map<(Uid, Uid), Grant>, l: map<Uid, Link>)
    requires Accounted(sys, w, u, e, gone) && !Reported(sys, w, u) && e.p.count == sys.start[u].count + 1
    requires w' == After(w, u, e, gone, g, l)
    ensures Present(sys, w', RecordOf(sys, u))
  {
    NewRecord(sys, w, u, e, gone, g, l);
  }

  lemma ReporterAccounted(sys: System, w: World, ev: Event, u: Uid)
    requires ValidSystem(sys) && HandshakeInv(sys, w) && Enabled(sys, w, ev) && Actor(w, ev) == Some(u)
    ensures Accounted(sys, w, u, EffectOf(sys, w, ev), Gone(ev))
  {
    EventAccounted(sys, w, ev);
  }

  lemma ReporterActs(sys: System, w: World, ev: Event, u: Uid)
    requires Enabled(sys, w, ev) && !Reported(sys, w, u) && Reported(sys, Step(sys, w, ev), u)
    ensures Actor(w, ev) == Some(u) && EffectOf(sys, w, ev).p.count == sys.start[u].count + 1
  {
  }

  /** A record that a message carries is that of a prover that reported, and goes with the message. */
  lemma DroppedIsGone(sys: System, w: World, ev: Event, d: Record)
    requires ValidSystem(sys) && Inv(sys, w) && Enabled(sys, w, ev) && Drops(w, ev, d)
    ensures Reported(sys, w, d.0) && Reported(sys, Step(sys, w, ev), d.0) && !Present(sys, Step(sys, w, ev), d)
  {
    assert d in Held(sys, w, InNet(ev.k));
    PresentAt(sys, w, InNet(ev.k), d);
    assert GenuineAt(sys, w, InNet(ev.k), d);
    StepLoses(sys, w, ev, d);
    StillReported(sys, w, ev, d.0);
  }

  lemma StillReported(sys: System, w: World, ev: Event, u: Uid)
    requires ValidSystem(sys) && Inv(sys, w) && Enabled(sys, w, ev) && Reported(sys, w, u)
    ensures Reported(sys, Step(sys, w, ev), u)
  {
    if Actor(w, ev).Some? {
      EventAccounted(sys, w, ev);
      StepIsAfter(sys, w, ev);
      AccountedStays(sys, w, Actor(w, ev).value, EffectOf(sys, w, ev), Gone(ev),
                     GrantsOf(sys, w, ev), LinksOf(sys, w, ev));
    } else {
      EnvAt(sys, w, ev.k);
      OtherGathers(sys, w, ev);
    }
  }

  lemma AccountedStays(sys: System, w: World, u: Uid, e: Effect, gone: Option<nat>,
                       g: map<(Uid, Uid), Grant>, l: map<Uid, Link>)
    requires Accounted(sys, w, u, e, gone)
    ensures ReportedStays(sys, w, After(w, u, e, gone, g, l))
  {
    StaysReported(sys, w, u, e, gone, g, l);
  }

  /** A record that a prover reported is present at the end exactly if no step dropped it. */
  lemma {:induction false} RunAccounts(sys: System, w: World, evs: seq<Event>, u: Uid)
    requires ValidSystem(sys) && Inv(sys, w) && CanRun(sys, w, evs) && u in sys.start && Accounts(sys, w, u)
    ensures Reported(sys, Run(sys, w, evs), u) ==>
              (Present(sys, Run(sys, w, evs), RecordOf(sys, u)) <==> !WasDropped(sys, w, evs, RecordOf(sys, u)))
    decreases |evs|
  {
    if evs != [] {
      var w' := Step(sys, w, evs[0]);
      StepInv(sys, w, evs[0]);
      if Drops(w, evs[0], RecordOf(sys, u)) {
        DroppedIsGone(sys, w, evs[0], RecordOf(sys, u));
        StaysGone(sys, w', evs[1..], RecordOf(sys, u));
      } else {
        StepAccounts(sys, w, evs[0], u);
        RunAccounts(sys, w', evs[1..], u);
      }
    }
  }

  /** In every run the record of each prover that reported is somewhere if and only if no message that
      carried it was lost or came to a prover without that child. */
  lemma RecordsAreAccountedFor(sys: System, w0: World, evs: seq<Event>, w: World, u: Uid)
    requires Reached(sys, w0, evs, w) && Reported(sys, w, u)
    ensures u in sys.start
    ensures Present(sys, w, RecordOf(sys, u)) <==> !WasDropped(sys, w0, evs, RecordOf(sys, u))
  {
    InitInv(sys, w0);
    RunAccounts(sys, w0, evs, u);
  }
}
