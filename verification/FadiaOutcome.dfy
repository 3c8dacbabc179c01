/** What the collector has at the end of a round. */
module FadiaOutcome {
  import opened Wrappers
  import opened FadiaReport
  import opened FadiaProver
  import opened FadiaRound
  import opened FadiaTheorems
  import opened FadiaProgress
  import opened FadiaLosses

  /** Nothing can happen any more. */
  ghost predicate Quiescent(sys: System, w: World) {
    forall ev: Event :: !Enabled(sys, w, ev)
  }

  /** At the end a record is with the collector or nowhere. */
  lemma OnlyAtSink(sys: System, w0: World, evs: seq<Event>, w: World, u: Uid)
    requires Reached(sys, w0, evs, w) && Quiescent(sys, w) && u in sys.cfg
    ensures u in w.provers && u in sys.start && Reported(sys, w, u)
    ensures Present(sys, w, RecordOf(sys, u)) <==> RecordOf(sys, u) in w.collected
  {
    SameProvers(sys, w0, evs, w);
    QuietRoundIsComplete(sys, w0, evs, w, u);
    if h: Holder :| RecordOf(sys, u) in Held(sys, w, h) { OtherHoldersAreEmpty(sys, w0, evs, w, h); }
    if RecordOf(sys, u) in w.collected { PresentAt(sys, w, AtSink, RecordOf(sys, u)); }
  }

  lemma SameProvers(sys: System, w0: World, evs: seq<Event>, w: World)
    requires Reached(sys, w0, evs, w)
    ensures w.provers.Keys == sys.cfg.Keys == sys.start.Keys && w.sum == |w.collected|
  {
    ReachedInv(sys, w0, evs, w);
  }

  lemma OtherHoldersAreEmpty(sys: System, w0: World, evs: seq<Event>, w: World, h: Holder)
    requires Reached(sys, w0, evs, w) && Quiescent(sys, w)
    ensures h != AtSink ==> Held(sys, w, h) == multiset{}
  {
    if h.InReport? && h.u in w.provers {
      QuietRoundIsComplete(sys, w0, evs, w, h.u);
      assert Reported(sys, w, h.u);
    } else if h.InNet? {
      if InFlight(w, h.k) { StillEnabled(sys, w0, evs, w, h.k); }
    }
  }

  /** What is in flight can get lost. */
  lemma StillEnabled(sys: System, w0: World, evs: seq<Event>, w: World, k: nat)
    requires InFlight(w, k)
    ensures !Quiescent(sys, w)
  {
    assert Enabled(sys, w, Lose(k));
  }

  /** The devices whose record is among the given ones. */
  ghost function Devices(sys: System, m: multiset<Record>): set<Uid>
    requires sys.start.Keys == sys.cfg.Keys
  {
    set u | u in sys.cfg && RecordOf(sys, u) in m
  }

  lemma {:induction false} CountRecords(sys: System, m: multiset<Record>)
    requires sys.start.Keys == sys.cfg.Keys
    requires forall d :: d in m ==> m[d] == 1 && d.0 in sys.cfg && d == RecordOf(sys, d.0)
    ensures |m| == |Devices(sys, m)|
    decreases |m|
  {
    if m == multiset{} {
      assert Devices(sys, m) == {};
    } else {
      var d :| d in m;
      var m' := m - multiset{d};
      assert m == m' + multiset{d};
      forall e | e in m' ensures m'[e] == 1 && e in m { }
      CountRecords(sys, m');
      assert Devices(sys, m) == Devices(sys, m') + {d.0};
    }
  }

  /** The devices whose record no step dropped. */
  ghost function Delivered(sys: System, w0: World, evs: seq<Event>): set<Uid>
    requires CanRun(sys, w0, evs) && sys.start.Keys == sys.cfg.Keys
  {
    set u | u in sys.cfg && !WasDropped(sys, w0, evs, RecordOf(sys, u))
  }

  /** When nothing can happen any more, the collector has counted exactly the provers whose record was
      not dropped on the way. */
  lemma SumIsDelivered(sys: System, w0: World, evs: seq<Event>, w: World)
    requires Reached(sys, w0, evs, w) && Quiescent(sys, w)
    ensures w.sum == |Delivered(sys, w0, evs)|
  {
    SameProvers(sys, w0, evs, w);
    forall d | d in w.collected ensures w.collected[d] == 1 && d.0 in sys.cfg && d == RecordOf(sys, d.0) {
      Collected(sys, w0, evs, w, d);
    }
    CountRecords(sys, w.collected);
    forall u | u in sys.cfg ensures RecordOf(sys, u) in w.collected <==> !WasDropped(sys, w0, evs, RecordOf(sys, u)) {
      Arrived(sys, w0, evs, w, u);
    }
    assert Devices(sys, w.collected) == Delivered(sys, w0, evs);
  }

  lemma Collected(sys: System, w0: World, evs: seq<Event>, w: World, d: Record)
    requires Reached(sys, w0, evs, w) && d in w.collected
    ensures w.collected[d] == 1 && d.0 in sys.cfg && d.0 in sys.start && d == RecordOf(sys, d.0)
  {
    SameProvers(sys, w0, evs, w);
    RecordsAreUnique(sys, w0, evs, w, AtSink, AtSink, d);
  }

  lemma Arrived(sys: System, w0: World, evs: seq<Event>, w: World, u: Uid)
    requires Reached(sys, w0, evs, w) && Quiescent(sys, w) && u in sys.cfg
    ensures u in sys.start && CanRun(sys, w0, evs)
    ensures RecordOf(sys, u) in w.collected <==> !WasDropped(sys, w0, evs, RecordOf(sys, u))
  {
    OnlyAtSink(sys, w0, evs, w, u);
    RecordsAreAccountedFor(sys, w0, evs, w, u);
  }

  /** So it has counted every prover if and only if no record was dropped. */
  lemma RoundIsComplete(sys: System, w0: World, evs: seq<Event>, w: World)
    requires Reached(sys, w0, evs, w) && Quiescent(sys, w)
    ensures w.sum == |sys.cfg.Keys| <==> forall u :: u in sys.cfg ==> !WasDropped(sys, w0, evs, RecordOf(sys, u))
  {
    SumIsDelivered(sys, w0, evs, w);
    var all, some := sys.cfg.Keys, Delivered(sys, w0, evs);
    assert some <= all;
    SubsetSize(some, all);
    assert some == all <==> forall u :: u in sys.cfg ==> !WasDropped(sys, w0, evs, RecordOf(sys, u));
  }

  lemma SubsetSize(s: set<Uid>, t: set<Uid>)
    requires s <= t
    ensures |s| == |t| <==> s == t
  {
    assert t == s + (t - s);
    assert |t| == |s| + |t - s|;
  }
}
