/** Medium access of a device: the send queue, the transmitting and busy flags with their
    timer messages, and the one update held back while the collector is busy. */
module MediumAccess {
  import opened Wrappers

  /** ToParent is an update for the parent, which goes to the collector if the parent is out of range. */
  datatype Kind = Unicast | Broadcast | ToParent | ToCollector

  datatype Packet = Packet(id: nat, kind: Kind)

  /** What the surroundings say when a packet is tried: carrier, collector, anyone and the parent in range. */
  datatype Air = Air(channelBusy: bool, collectorBusy: bool, someoneInRange: bool, parentInRange: bool)

  /** sent and lost are history: packets handed to the radio, and held updates that were
      overwritten. fault says that a timer message was scheduled while it was pending. */
  datatype Radio = Radio(
    transmitting: bool,
    busy: bool,
    txTimer: bool,
    busyTimer: bool,
    queue: seq<Packet>,
    held: Option<Packet>,
    holdTimer: bool,
    sent: seq<Packet>,
    lost: seq<Packet>,
    fault: bool)

  const IDLE_RADIO := Radio(false, false, false, false, [], None, false, [], [], false)

  /** handleMessage on a message of the device's own: the test of the parent's range. */
  function Routed(pkt: Packet, air: Air): Packet {
    if pkt.kind == ToParent && !air.parentInRange then pkt.(kind := ToCollector) else pkt
  }

  /** sendCollector forgets the held update on entry; retry says it is that very update. */
  function ForgetHeld(r: Radio, pkt: Packet, retry: bool): Radio {
    if pkt.kind != ToCollector then r
    else if r.held.Some? && !retry then r.(held := None, lost := r.lost + [r.held.value])
    else r.(held := None)
  }

  function BecomeBusy(r: Radio): Radio {
    r.(busy := true, busyTimer := true, fault := r.fault || r.busyTimer)
  }

  function Transmit(r: Radio): Radio {
    r.(transmitting := true, txTimer := true, fault := r.fault || r.txTimer)
  }

  /** The checks and the transmission that the three send functions share. */
  function Try(r: Radio, pkt: Packet, air: Air): Radio {
    if r.transmitting || r.busy then r.(queue := r.queue + [pkt])
    else if air.channelBusy then BecomeBusy(r).(queue := r.queue + [pkt])
    else if pkt.kind == ToCollector && air.collectorBusy then r.(held := Some(pkt), holdTimer := true)
    else if pkt.kind == Broadcast && !air.someoneInRange then r.(sent := r.sent + [pkt])
    else Transmit(r).(sent := r.sent + [pkt])
  }

  /** sendProver, sendProverBroadcast and sendCollector. */
  function Send(r: Radio, pkt: Packet, air: Air, retry: bool): Radio {
    Try(ForgetHeld(r, pkt, retry), pkt, air)
  }

  /** Try the front packet, then pop the queue: a packet queued again while being tried rotates to the back. */
  function TryFront(r: Radio, air: Air): Radio {
    if r.queue == [] then r
    else
      var t := Send(r, Routed(r.queue[0], air), air, false);
      t.(queue := t.queue[1..])
  }

  function TxDone(r: Radio, air: Air): Radio {
    TryFront(r.(txTimer := false, transmitting := false), air)
  }

  function PostponeDone(r: Radio, air: Air): Radio {
    TryFront(r.(busyTimer := false, busy := false), air)
  }

  function HoldDone(r: Radio, air: Air): Radio {
    var t := r.(holdTimer := false);
    if r.held.Some? then Send(t, r.held.value, air, true) else t
  }

  datatype Event = Submit(pkt: Packet, air: Air) | TxTimer(air: Air) | BusyTimer(air: Air) | HoldTimer(air: Air)

  predicate Enabled(r: Radio, ev: Event) {
    match ev
    case Submit(_, _) => true
    case TxTimer(_) => r.txTimer
    case BusyTimer(_) => r.busyTimer
    case HoldTimer(_) => r.holdTimer
  }

  function Step(r: Radio, ev: Event): Radio {
    match ev
    case Submit(pkt, air) => Send(r, Routed(pkt, air), air, false)
    case TxTimer(air) => TxDone(r, air)
    case BusyTimer(air) => PostponeDone(r, air)
    case HoldTimer(air) => HoldDone(r, air)
  }

  /** The packet an event tries, as it is sent. */
  function Tried(r: Radio, ev: Event): Option<Packet> {
    match ev
    case Submit(pkt, air) => Some(Routed(pkt, air))
    case TxTimer(air) => if r.queue == [] then None else Some(Routed(r.queue[0], air))
    case BusyTimer(air) => if r.queue == [] then None else Some(Routed(r.queue[0], air))
    case HoldTimer(_) => r.held
  }

  predicate TriesCollector(r: Radio, ev: Event) {
    Tried(r, ev).Some? && Tried(r, ev).value.kind == ToCollector
  }

  // ------------------------------------------------------------ flags and timers

  /** Never transmitting and busy at once; each flag stands exactly while its own timer is pending,
      and no timer was ever scheduled while pending. */
  predicate FlagsInv(r: Radio) {
    && !(r.transmitting && r.busy)
    && r.txTimer == r.transmitting && r.busyTimer == r.busy
    && (r.held.Some? ==> r.holdTimer && r.held.value.kind == ToCollector)
    && !r.fault
  }

  /** The state in which an event's handler tries a packet. */
  function BeforeTry(r: Radio, ev: Event): Radio {
    match ev
    case Submit(_, _) => r
    case TxTimer(_) => r.(txTimer := false, transmitting := false)
    case BusyTimer(_) => r.(busyTimer := false, busy := false)
    case HoldTimer(_) => r.(holdTimer := false)
  }

  lemma NeverScheduledTwice(r: Radio, ev: Event)
    requires FlagsInv(r) && Enabled(r, ev)
    ensures FlagsInv(Step(r, ev))
  {
    var b := BeforeTry(r, ev);
    match ev {
      case Submit(pkt, air) => SendFlags(b, Routed(pkt, air), air, false);
      case HoldTimer(air) => if r.held.Some? { SendFlags(b, r.held.value, air, true); }
      case _ => if r.queue != [] { SendFlags(b, Routed(r.queue[0], ev.air), ev.air, false); }
    }
  }

  /** The timer of the held update may have fired if it is the one being sent. */
  lemma SendFlags(r: Radio, pkt: Packet, air: Air, retry: bool)
    requires FlagsInv(r.(held := None)) && (pkt.kind != ToCollector ==> FlagsInv(r))
    ensures FlagsInv(Send(r, pkt, air, retry))
  {
    TryFlags(ForgetHeld(r, pkt, retry), pkt, air);
  }

  lemma TryFlags(r: Radio, pkt: Packet, air: Air)
    requires FlagsInv(r)
    ensures FlagsInv(Try(r, pkt, air))
  {
  }

  // ------------------------------------------------------------ conservation

  /** How often a packet with this id occurs in s; its kind may change on the way. */
  function Occurs(s: seq<Packet>, id: nat): nat {
    if s == [] then 0 else Is(s[0], id) + Occurs(s[1..], id)
  }

  function Is(p: Packet, id: nat): nat { if p.id == id then 1 else 0 }

  function OccursHeld(r: Radio, id: nat): nat {
    if r.held.Some? then Is(r.held.value, id) else 0
  }

  /** How often it is anywhere: queued, sent, lost or held. */
  function Copies(r: Radio, id: nat): nat {
    Occurs(r.queue, id) + Occurs(r.sent, id) + Occurs(r.lost, id) + OccursHeld(r, id)
  }

  lemma {:induction false} OccursAppend(s: seq<Packet>, p: Packet, id: nat)
    ensures Occurs(s + [p], id) == Occurs(s, id) + Is(p, id)
  {
    if s != [] {
      assert (s + [p])[1..] == s[1..] + [p];
      OccursAppend(s[1..], p, id);
    }
  }

  lemma ForgetConserves(r: Radio, pkt: Packet, retry: bool, id: nat)
    requires retry ==> pkt.kind == ToCollector && r.held == Some(pkt)
    ensures var t := ForgetHeld(r, pkt, retry);
            Copies(t, id) + (if retry then Is(pkt, id) else 0) == Copies(r, id)
  {
    if r.held.Some? {
      OccursAppend(r.lost, r.held.value, id);
    }
  }

  lemma TryConserves(r: Radio, pkt: Packet, air: Air, id: nat)
    requires pkt.kind == ToCollector ==> r.held.None?
    ensures Copies(Try(r, pkt, air), id) == Copies(r, id) + Is(pkt, id)
  {
    var t := Try(r, pkt, air);
    if r.transmitting || r.busy || air.channelBusy {
      CopyQueued(r, t, pkt, id);
    } else if pkt.kind == ToCollector && air.collectorBusy {
      assert t.queue == r.queue && t.sent == r.sent && t.lost == r.lost;
    } else {
      CopySent(r, t, pkt, id);
    }
  }

  lemma CopyQueued(r: Radio, t: Radio, pkt: Packet, id: nat)
    requires t.queue == r.queue + [pkt] && t.sent == r.sent && t.lost == r.lost && t.held == r.held
    ensures Copies(t, id) == Copies(r, id) + Is(pkt, id)
  {
    OccursAppend(r.queue, pkt, id);
  }

  lemma CopySent(r: Radio, t: Radio, pkt: Packet, id: nat)
    requires t.queue == r.queue && t.sent == r.sent + [pkt] && t.lost == r.lost && t.held == r.held
    ensures Copies(t, id) == Copies(r, id) + Is(pkt, id)
  {
    OccursAppend(r.sent, pkt, id);
  }

  /** Sending puts the packet in exactly one place. */
  lemma SendConserves(r: Radio, pkt: Packet, air: Air, retry: bool, id: nat)
    requires retry ==> pkt.kind == ToCollector && r.held == Some(pkt)
    ensures Copies(Send(r, pkt, air, retry), id) == Copies(r, id) + if retry then 0 else Is(pkt, id)
  {
    ForgetConserves(r, pkt, retry, id);
    TryConserves(ForgetHeld(r, pkt, retry), pkt, air, id);
  }

  lemma SendKeepsQueue(r: Radio, pkt: Packet, air: Air, retry: bool)
    ensures Send(r, pkt, air, retry).queue == r.queue || Send(r, pkt, air, retry).queue == r.queue + [pkt]
  {
    TryKeepsQueue(ForgetHeld(r, pkt, retry), pkt, air);
  }

  lemma TryKeepsQueue(r: Radio, pkt: Packet, air: Air)
    ensures Try(r, pkt, air).queue == r.queue || Try(r, pkt, air).queue == r.queue + [pkt]
  {
  }

  lemma TryFrontConserves(r: Radio, air: Air, id: nat)
    ensures Copies(TryFront(r, air), id) == Copies(r, id)
  {
    if r.queue != [] {
      var pkt := Routed(r.queue[0], air);
      SendConserves(r, pkt, air, false, id);
      SendKeepsQueue(r, pkt, air, false);
    }
  }

  function Added(ev: Event, id: nat): nat {
    if ev.Submit? then Is(ev.pkt, id) else 0
  }

  /** Every packet stays queued, held, sent or lost, with its multiplicity; only a submission adds one. */
  lemma StepConserves(r: Radio, ev: Event, id: nat)
    requires FlagsInv(r) && Enabled(r, ev)
    ensures Copies(Step(r, ev), id) == Copies(r, id) + Added(ev, id)
  {
    match ev {
      case Submit(pkt, air) => SendConserves(r, Routed(pkt, air), air, false, id);
      case TxTimer(air) => TryFrontConserves(r.(txTimer := false, transmitting := false), air, id);
      case BusyTimer(air) => TryFrontConserves(r.(busyTimer := false, busy := false), air, id);
      case HoldTimer(air) =>
        if r.held.Some? {
          SendConserves(r.(holdTimer := false), r.held.value, air, true, id);
        }
    }
  }

  /** Another packet goes to the collector while an update is held. */
  predicate Overwrites(r: Radio, ev: Event) {
    r.held.Some? && !ev.HoldTimer? && TriesCollector(r, ev)
  }

  /** The held update is lost exactly then, and nothing else is ever lost. */
  lemma LostExactlyWhenOverwritten(r: Radio, ev: Event)
    requires FlagsInv(r) && Enabled(r, ev)
    ensures Step(r, ev).lost == r.lost + if Overwrites(r, ev) then [r.held.value] else []
  {
  }

  // ------------------------------------------------------------ runs

  predicate CanRun(r: Radio, evs: seq<Event>)
    decreases |evs|
  {
    evs == [] || (Enabled(r, evs[0]) && CanRun(Step(r, evs[0]), evs[1..]))
  }

  function Run(r: Radio, evs: seq<Event>): Radio
    decreases |evs|
  {
    if evs == [] then r else Run(Step(r, evs[0]), evs[1..])
  }

  /** How often the packet was submitted. */
  function Submitted(evs: seq<Event>, id: nat): nat {
    if evs == [] then 0 else Added(evs[0], id) + Submitted(evs[1..], id)
  }

  lemma {:induction false} RunConserves(r: Radio, evs: seq<Event>, id: nat)
    requires FlagsInv(r) && CanRun(r, evs)
    ensures FlagsInv(Run(r, evs))
    ensures Copies(Run(r, evs), id) == Copies(r, id) + Submitted(evs, id)
    decreases |evs|
  {
    if evs != [] {
      NeverScheduledTwice(r, evs[0]);
      StepConserves(r, evs[0], id);
      RunConserves(Step(r, evs[0]), evs[1..], id);
    }
  }

  /** From power-up, over any run: the flags are exclusive and match their timers, no pending timer
      was scheduled, and every submitted packet is queued, held, sent or lost, as often as it was submitted. */
  lemma EveryPacketOnce(evs: seq<Event>, id: nat)
    requires CanRun(IDLE_RADIO, evs)
    ensures var r := Run(IDLE_RADIO, evs);
            && !(r.transmitting && r.busy) && r.txTimer == r.transmitting && r.busyTimer == r.busy && !r.fault
            && Occurs(r.queue, id) + Occurs(r.sent, id) + Occurs(r.lost, id) + OccursHeld(r, id) == Submitted(evs, id)
  {
    RunConserves(IDLE_RADIO, evs, id);
  }

  /** The updates that are overwritten during a run. */
  function Overwritten(r: Radio, evs: seq<Event>): seq<Packet>
    decreases |evs|
  {
    if evs == [] then []
    else (if Overwrites(r, evs[0]) then [r.held.value] else []) + Overwritten(Step(r, evs[0]), evs[1..])
  }

  lemma {:induction false} RunLosesOverwritten(r: Radio, evs: seq<Event>)
    requires FlagsInv(r) && CanRun(r, evs)
    ensures Run(r, evs).lost == r.lost + Overwritten(r, evs)
    decreases |evs|
  {
    if evs != [] {
      NeverScheduledTwice(r, evs[0]);
      LostExactlyWhenOverwritten(r, evs[0]);
      RunLosesOverwritten(Step(r, evs[0]), evs[1..]);
    }
  }

  /** No packet of the run goes to the collector, be it as submitted or for want of the parent. */
  predicate NoneToCollector(r: Radio, evs: seq<Event>)
    decreases |evs|
  {
    evs == [] || (!TriesCollector(r, evs[0]) && NoneToCollector(Step(r, evs[0]), evs[1..]))
  }

  lemma {:induction false} ProverTrafficIsNotLost(r: Radio, evs: seq<Event>)
    requires FlagsInv(r) && CanRun(r, evs) && NoneToCollector(r, evs)
    ensures Run(r, evs).lost == r.lost
    decreases |evs|
  {
    if evs != [] {
      NeverScheduledTwice(r, evs[0]);
      LostExactlyWhenOverwritten(r, evs[0]);
      ProverTrafficIsNotLost(Step(r, evs[0]), evs[1..]);
    }
  }

  predicate NoCollectorTraffic(r: Radio) {
    r.held.None? && forall p :: p in r.queue ==> p.kind != ToCollector
  }

  /** What a sender can check: nothing for the collector is submitted, and the parent stays in range
      whenever an update for it is tried. */
  lemma {:induction false} StaysInRange(r: Radio, evs: seq<Event>)
    requires FlagsInv(r) && NoCollectorTraffic(r) && CanRun(r, evs)
    requires forall i :: 0 <= i < |evs| ==>
               evs[i].air.parentInRange && (evs[i].Submit? ==> evs[i].pkt.kind != ToCollector)
    ensures NoneToCollector(r, evs) && Run(r, evs).lost == r.lost
    decreases |evs|
  {
    if evs != [] {
      NeverScheduledTwice(r, evs[0]);
      StaysQuiet(r, evs[0]);
      StaysInRange(Step(r, evs[0]), evs[1..]);
    }
  }

  lemma StaysQuiet(r: Radio, ev: Event)
    requires FlagsInv(r) && NoCollectorTraffic(r) && Enabled(r, ev)
    requires ev.air.parentInRange && (ev.Submit? ==> ev.pkt.kind != ToCollector)
    ensures !TriesCollector(r, ev) && NoCollectorTraffic(Step(r, ev)) && Step(r, ev).lost == r.lost
  {
  }

  /** Otherwise prover-bound traffic alone can lose an update: two updates whose parent is out of
      range, the second tried while the first waits for the collector. */
  lemma DivertedUpdateIsLost()
    ensures var away := Air(false, true, true, false);
            var evs := [Submit(Packet(1, ToParent), away), Submit(Packet(2, ToParent), away)];
            CanRun(IDLE_RADIO, evs) && Run(IDLE_RADIO, evs).lost == [Packet(1, ToCollector)]
  {
    var away := Air(false, true, true, false);
    var e1, e2 := Submit(Packet(1, ToParent), away), Submit(Packet(2, ToParent), away);
    var r1 := Step(IDLE_RADIO, e1);
    var r2 := Step(r1, e2);
    assert [e1, e2][1..] == [e2] && [e2][1..] == [];
    assert Run(r1, [e2]) == r2 && CanRun(r1, [e2]);
  }

  /** A queued update overwrites the held one when it is tried again and its parent has left. */
  lemma RetriedUpdateOverwrites(r: Radio, air: Air)
    requires FlagsInv(r) && r.held.Some? && r.busyTimer && r.queue != [] && r.queue[0].kind == ToParent
    ensures Step(r, BusyTimer(air)).lost == r.lost + (if air.parentInRange then [] else [r.held.value])
  {
    LostExactlyWhenOverwritten(r, BusyTimer(air));
  }

  // ------------------------------------------------------------ does the queue keep moving?

  /** Something pending will try the queue again. */
  predicate Driven(r: Radio) {
    r.queue == [] || r.txTimer || r.busyTimer || r.held.Some?
  }

  /** The tried packet is a broadcast that goes on a free channel and finds nobody. */
  predicate Vanishes(r: Radio, ev: Event) {
    && Tried(r, ev).Some? && Tried(r, ev).value.kind == Broadcast
    && !ev.air.channelBusy && !ev.air.someoneInRange
    && !BeforeTry(r, ev).transmitting && !BeforeTry(r, ev).busy
  }

  /** The queue stalls, with packets in it and no timer to try them, exactly after a broadcast
      that found nobody while others waited and no update was held. */
  lemma StallsExactlyWhenBroadcastVanishes(r: Radio, ev: Event)
    requires FlagsInv(r) && Enabled(r, ev) && Driven(r)
    ensures !Driven(Step(r, ev)) <==>
            Vanishes(r, ev) && r.held.None? && |r.queue| > (if ev.Submit? then 0 else 1)
  {
    if !ev.Submit? && !ev.HoldTimer? && r.queue != [] {
      SendKeepsQueue(BeforeTry(r, ev), Routed(r.queue[0], ev.air), ev.air, false);
    }
  }

  /** It does stall: two broadcasts queued behind a transmission, the first reaching nobody. */
  lemma StallExample()
    ensures var quiet := Air(false, false, true, true);
            var r := Run(IDLE_RADIO, [Submit(Packet(1, Unicast), quiet), Submit(Packet(2, Broadcast), quiet),
                                      Submit(Packet(3, Unicast), quiet), TxTimer(Air(false, false, false, true))]);
            r.queue == [Packet(3, Unicast)] && !r.txTimer && !r.busyTimer && !r.holdTimer
  {
    var quiet, alone := Air(false, false, true, true), Air(false, false, false, true);
    var a, b, c := Packet(1, Unicast), Packet(2, Broadcast), Packet(3, Unicast);
    var e1, e2, e3, e4 := Submit(a, quiet), Submit(b, quiet), Submit(c, quiet), TxTimer(alone);
    var r1 := Step(IDLE_RADIO, e1);
    var r2 := Step(r1, e2);
    var r3 := Step(r2, e3);
    var r4 := Step(r3, e4);
    assert r2.queue == [b] && r3.queue == [b, c] && r4.queue == [c];
    var evs := [e1, e2, e3, e4];
    assert evs[1..] == [e2, e3, e4] && [e2, e3, e4][1..] == [e3, e4] && [e3, e4][1..] == [e4] && [e4][1..] == [];
    assert Run(r3, [e4]) == r4;
    assert Run(r2, [e3, e4]) == r4;
    assert Run(r1, [e2, e3, e4]) == r4;
  }

  // ------------------------------------------------------------ when is a packet sent?

  /** The radio is neither transmitting nor busy, and the channel is free. */
  predicate Clear(b: Radio, air: Air) {
    !b.transmitting && !b.busy && !air.channelBusy
  }

  /** A packet is tried on a clear channel and, if it is for the collector, that one is free. */
  predicate Sends(r: Radio, ev: Event) {
    && Tried(r, ev).Some? && Clear(BeforeTry(r, ev), ev.air)
    && (TriesCollector(r, ev) ==> !ev.air.collectorBusy)
  }

  /** The packets that wait behind the tried one. */
  function Behind(r: Radio, ev: Event): seq<Packet> {
    if (ev.TxTimer? || ev.BusyTimer?) && r.queue != [] then r.queue[1..] else r.queue
  }

  /** Exactly then the tried packet, and nothing else, is handed to the radio. */
  lemma SentExactly(r: Radio, ev: Event)
    requires FlagsInv(r) && Enabled(r, ev)
    ensures Step(r, ev).sent == r.sent + if Sends(r, ev) then [Tried(r, ev).value] else []
    ensures Step(r, ev).sent != r.sent <==> Sends(r, ev)
  {
  }

  /** Where the channel is not clear, the tried packet is queued last, and nowhere else. */
  lemma QueuedExactly(r: Radio, ev: Event)
    requires FlagsInv(r) && Enabled(r, ev)
    ensures Step(r, ev).queue == Behind(r, ev) +
              if Tried(r, ev).Some? && !Clear(BeforeTry(r, ev), ev.air) then [Tried(r, ev).value] else []
  {
    var b := BeforeTry(r, ev);
    if (ev.TxTimer? || ev.BusyTimer?) && r.queue != [] {
      RotatedQueue(r.queue, Tried(r, ev).value);
    }
  }

  lemma RotatedQueue(q: seq<Packet>, p: Packet)
    requires q != []
    ensures (q + [p])[1..] == q[1..] + [p]
  {
  }

  /** The update for a busy collector is held; one for the collector that is tried otherwise leaves
      nothing held, but the timer of an earlier one keeps running. */
  lemma HeldExactly(r: Radio, ev: Event)
    requires FlagsInv(r) && Enabled(r, ev)
    ensures Step(r, ev).held ==
            if !TriesCollector(r, ev) then r.held
            else if Clear(BeforeTry(r, ev), ev.air) && ev.air.collectorBusy then Tried(r, ev) else None
    ensures Step(r, ev).holdTimer <==>
            || (r.holdTimer && !ev.HoldTimer?)
            || (TriesCollector(r, ev) && Clear(BeforeTry(r, ev), ev.air) && ev.air.collectorBusy)
  {
  }

  /** An idle radio that finds the channel taken becomes busy, and its timer will try again; a packet
      that is sent makes it transmit unless it is a broadcast that reaches nobody. */
  lemma FlagsExactly(r: Radio, ev: Event)
    requires FlagsInv(r) && Enabled(r, ev)
    ensures var b, r' := BeforeTry(r, ev), Step(r, ev);
            && (r'.busy <==> b.busy || (Tried(r, ev).Some? && !b.transmitting && ev.air.channelBusy))
            && (r'.transmitting <==> b.transmitting || (Sends(r, ev) && !Vanishes(r, ev)))
  {
    match ev {
      case Submit(pkt, air) => SendOutcome(r, Routed(pkt, air), air, false);
      case HoldTimer(air) => if r.held.Some? { SendOutcome(BeforeTry(r, ev), r.held.value, air, true); }
      case _ => if r.queue != [] { SendOutcome(BeforeTry(r, ev), Routed(r.queue[0], ev.air), ev.air, false); }
    }
  }

  /** The packet goes out, and somebody hears it. */
  predicate Heard(r: Radio, pkt: Packet, air: Air) {
    && Clear(r, air) && !(pkt.kind == ToCollector && air.collectorBusy)
    && !(pkt.kind == Broadcast && !air.someoneInRange)
  }

  lemma SendOutcome(r: Radio, pkt: Packet, air: Air, retry: bool)
    ensures var r' := Send(r, pkt, air, retry);
            && (r'.busy <==> r.busy || (!r.transmitting && air.channelBusy))
            && (r'.transmitting <==> r.transmitting || Heard(r, pkt, air))
  {
    TryOutcome(ForgetHeld(r, pkt, retry), pkt, air);
  }

  lemma TryOutcome(r: Radio, pkt: Packet, air: Air)
    ensures var r' := Try(r, pkt, air);
            && (r'.busy <==> r.busy || (!r.transmitting && air.channelBusy))
            && (r'.transmitting <==> r.transmitting || Heard(r, pkt, air))
  {
  }

  /** A taken channel lets nothing out: the tried packet of an idle radio goes to the end of the queue. */
  lemma TakenChannelSilences(r: Radio, ev: Event)
    requires FlagsInv(r) && Enabled(r, ev) && ev.air.channelBusy && Tried(r, ev).Some?
    requires !BeforeTry(r, ev).transmitting && !BeforeTry(r, ev).busy
    ensures var r' := Step(r, ev);
            r'.sent == r.sent && r'.busy && r'.busyTimer && r'.queue == Behind(r, ev) + [Tried(r, ev).value]
  {
    NeverScheduledTwice(r, ev);
    SentExactly(r, ev);
    QueuedExactly(r, ev);
    FlagsExactly(r, ev);
  }

  /** What a run sends: the packets that find a clear channel, in order. */
  function SentIn(r: Radio, evs: seq<Event>): seq<Packet>
    decreases |evs|
  {
    if evs == [] then []
    else (if Sends(r, evs[0]) then [Tried(r, evs[0]).value] else []) + SentIn(Step(r, evs[0]), evs[1..])
  }

  lemma {:induction false} RunSends(r: Radio, evs: seq<Event>)
    requires FlagsInv(r) && CanRun(r, evs)
    ensures Run(r, evs).sent == r.sent + SentIn(r, evs)
    decreases |evs|
  {
    if evs != [] {
      NeverScheduledTwice(r, evs[0]);
      SentExactly(r, evs[0]);
      RunSends(Step(r, evs[0]), evs[1..]);
    }
  }

  // ------------------------------------------------------------ the device's own code

  /** The fields of ADevice that the send and timer handlers update. */
  class Transceiver {
    var transmitting: bool
    var busy: bool
    var txTimer: bool
    var busyTimer: bool
    var queue: seq<Packet>
    var held: Option<Packet>
    var holdTimer: bool
    ghost var sent: seq<Packet>
    ghost var lost: seq<Packet>
    ghost var fault: bool

    ghost function State(): Radio
      reads this
    {
      Radio(transmitting, busy, txTimer, busyTimer, queue, held, holdTimer, sent, lost, fault)
    }

    constructor ()
      ensures State() == IDLE_RADIO
    {
      transmitting, busy, txTimer, busyTimer, queue := false, false, false, false, [];
      held, holdTimer, sent, lost, fault := None, false, [], [], false;
    }

    /** scheduleAt(cbusymsg) with its flag. */
    method StartBusy()
      modifies this`busy, this`busyTimer, this`fault
      ensures State() == BecomeBusy(old(State()))
    {
      fault := fault || busyTimer;
      busy, busyTimer := true, true;
    }

    /** scheduleAt(txmsg) with its flag. */
    method StartTransmission()
      modifies this`transmitting, this`txTimer, this`fault
      ensures State() == Transmit(old(State()))
    {
      fault := fault || txTimer;
      transmitting, txTimer := true, true;
    }

    method SendProver(pkt: Packet, air: Air)
      requires pkt.kind != ToCollector
      modifies this
      ensures State() == Send(old(State()), pkt, air, false)
    {
      if transmitting || busy {
        queue := queue + [pkt];
        return;
      }
      if air.channelBusy {
        StartBusy();
        queue := queue + [pkt];
        return;
      }
      sent := sent + [pkt];
      if pkt.kind != Broadcast || air.someoneInRange {
        StartTransmission();
      }
    }

    method SendCollector(pkt: Packet, air: Air, ghost retry: bool)
      requires pkt.kind == ToCollector
      modifies this
      ensures State() == Send(old(State()), pkt, air, retry)
    {
      if held.Some? && !retry {
        lost := lost + [held.value];
      }
      held := None;
      TryCollector(pkt, air);
    }

    /** sendCollector after its first statement. */
    method TryCollector(pkt: Packet, air: Air)
      requires pkt.kind == ToCollector
      modifies this
      ensures State() == Try(old(State()), pkt, air)
    {
      if transmitting || busy {
        queue := queue + [pkt];
        return;
      }
      if air.channelBusy {
        StartBusy();
        queue := queue + [pkt];
        return;
      }
      if air.collectorBusy {
        held := Some(pkt);
        if !holdTimer {
          holdTimer := true;
        }
        return;
      }
      sent := sent + [pkt];
      StartTransmission();
    }

    /** handleMessage on a message of its own; an update whose parent is out of range is diverted. */
    method Dispatch(pkt: Packet, air: Air, ghost retry: bool)
      requires retry ==> pkt.kind == ToCollector
      modifies this
      ensures State() == Send(old(State()), Routed(pkt, air), air, retry)
    {
      if pkt.kind == ToCollector {
        SendCollector(pkt, air, retry);
      } else if pkt.kind == ToParent && !air.parentInRange {
        SendCollector(pkt.(kind := ToCollector), air, retry);
      } else {
        SendProver(pkt, air);
      }
    }

    /** Tries the front packet and pops it. */
    method DispatchFront(air: Air)
      modifies this
      ensures State() == TryFront(old(State()), air)
    {
      if |queue| > 0 {
        Dispatch(queue[0], air, false);
        queue := queue[1..];
      }
    }

    method HandleTxDone(air: Air)
      modifies this
      ensures State() == TxDone(old(State()), air)
    {
      txTimer, transmitting := false, false;
      DispatchFront(air);
    }

    method HandlePostponeDone(air: Air)
      modifies this
      ensures State() == PostponeDone(old(State()), air)
    {
      busyTimer, busy := false, false;
      DispatchFront(air);
    }

    method HandlePostponeUp(air: Air)
      requires held.Some? ==> held.value.kind == ToCollector
      modifies this
      ensures State() == HoldDone(old(State()), air)
    {
      holdTimer := false;
      if held.Some? {
        Dispatch(held.value, air, true);
      }
    }
  }
}
