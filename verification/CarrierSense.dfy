/** Carrier sensing over the wired device graph: a bounded recursive search that
    only refuses to go back through the gate it came in by. */
module CarrierSense {
  import opened Wrappers

  type Dev = nat

  datatype Port = Port(dev: Dev, gate: nat)

  /** wires maps every connected device-to-device gate to the gate at the other end;
      gates counts a device's gates, connected or not. */
  datatype Network = Network(gates: map<Dev, nat>, wires: map<Port, Port>, transmitting: set<Dev>)

  /** Wires join two existing gates and can be followed both ways. */
  ghost predicate Valid(net: Network) {
    && (forall p :: p in net.wires ==>
          && p.dev in net.gates && p.gate < net.gates[p.dev]
          && net.wires[p] in net.wires && net.wires[net.wires[p]] == p)
  }

  /** Gate i of d leads to another device and is not the arrival gate. */
  predicate Usable(net: Network, d: Dev, i: nat, arrival: Option<nat>) {
    Port(d, i) in net.wires && Some(i) != arrival
  }

  /** What the search finds, as a recursive definition. */
  ghost predicate Senses(net: Network, d: Dev, far: nat, arrival: Option<nat>)
    decreases far, 1
  {
    || d in net.transmitting
    || (far > 0 && exists i: nat :: Usable(net, d, i, arrival) && SensesVia(net, d, i, far))
  }

  ghost predicate SensesVia(net: Network, d: Dev, i: nat, far: nat)
    requires far > 0
    decreases far, 0
  {
    Port(d, i) in net.wires && Senses(net, net.wires[Port(d, i)].dev, far - 1, Some(net.wires[Port(d, i)].gate))
  }

  /** isChannelBusy(far, gid): the recursion with its descending gate loop. */
  method IsChannelBusy(net: Network, d: Dev, far: nat, arrival: Option<nat>) returns (busy: bool)
    requires Valid(net) && d in net.gates
    ensures busy == Senses(net, d, far, arrival)
    decreases far
  {
    if d in net.transmitting { return true; }
    if far == 0 { return false; }
    var g := net.gates[d];
    while g > 0
      invariant 0 <= g <= net.gates[d]
      invariant forall i: nat :: g <= i && Usable(net, d, i, arrival) ==> !SensesVia(net, d, i, far)
    {
      g := g - 1;
      if Usable(net, d, g, arrival) {
        var peer := net.wires[Port(d, g)];
        var b := IsChannelBusy(net, peer.dev, far - 1, Some(peer.gate));
        if b {
          assert SensesVia(net, d, g, far);
          return true;
        }
      }
    }
    return false;
  }

  /** e is at most n hops from d. */
  ghost predicate Within(net: Network, d: Dev, e: Dev, n: nat)
    decreases n, 1
  {
    d == e || (n > 0 && exists i: nat :: Port(d, i) in net.wires && WithinVia(net, d, i, e, n))
  }

  ghost predicate WithinVia(net: Network, d: Dev, i: nat, e: Dev, n: nat)
    requires n > 0
    decreases n, 0
  {
    Port(d, i) in net.wires && Within(net, net.wires[Port(d, i)].dev, e, n - 1)
  }

  lemma {:induction false} WithinGrows(net: Network, d: Dev, e: Dev, n: nat, m: nat)
    requires Within(net, d, e, n) && n <= m
    ensures Within(net, d, e, m)
    decreases n
  {
    if d != e {
      var i: nat :| Port(d, i) in net.wires && WithinVia(net, d, i, e, n);
      WithinGrows(net, net.wires[Port(d, i)].dev, e, n - 1, m - 1);
      assert WithinVia(net, d, i, e, m);
    }
  }

  lemma FarStaysFar(net: Network, d: Dev, e: Dev, n: nat, m: nat)
    requires !Within(net, d, e, m) && n <= m
    ensures !Within(net, d, e, n)
  {
    if Within(net, d, e, n) {
      WithinGrows(net, d, e, n, m);
    }
  }

  /** e is exactly k hops from d. */
  ghost predicate AtDistance(net: Network, d: Dev, e: Dev, k: nat) {
    Within(net, d, e, k) && (k > 0 ==> !Within(net, d, e, k - 1))
  }

  lemma {:induction false} Nearest(net: Network, d: Dev, e: Dev, n: nat) returns (k: nat)
    requires Within(net, d, e, n)
    ensures k <= n && AtDistance(net, d, e, k)
    decreases n
  {
    if n == 0 || !Within(net, d, e, n - 1) {
      k := n;
    } else {
      k := Nearest(net, d, e, n - 1);
    }
  }

  /** The refused gate never lies on a shortest way, so refusing it hides nothing. */
  lemma {:induction false} ShortestWayIsSensed(net: Network, d: Dev, e: Dev, k: nat, far: nat, arrival: Option<nat>)
    requires Valid(net) && e in net.transmitting && AtDistance(net, d, e, k) && k <= far
    requires arrival.Some? && Port(d, arrival.value) in net.wires && k > 0 ==>
               !Within(net, net.wires[Port(d, arrival.value)].dev, e, k - 1)
    ensures Senses(net, d, far, arrival)
    decreases k
  {
    if k > 0 {
      var i: nat :| Port(d, i) in net.wires && WithinVia(net, d, i, e, k);
      var p := net.wires[Port(d, i)];
      if k > 1 {
        assert WithinVia(net, d, i, e, k - 1) == Within(net, p.dev, e, k - 2);
        FarStaysFar(net, d, e, k - 2, k - 1);
      }
      assert net.wires[p] == Port(d, i);
      ShortestWayIsSensed(net, p.dev, e, k - 1, far - 1, Some(p.gate));
      assert SensesVia(net, d, i, far) && Usable(net, d, i, arrival);
    }
  }

  lemma {:induction false} SensedIsWithin(net: Network, d: Dev, far: nat, arrival: Option<nat>) returns (e: Dev)
    requires Senses(net, d, far, arrival)
    ensures e in net.transmitting && Within(net, d, e, far)
    decreases far
  {
    if d in net.transmitting {
      e := d;
    } else {
      var i: nat :| Usable(net, d, i, arrival) && SensesVia(net, d, i, far);
      var p := net.wires[Port(d, i)];
      e := SensedIsWithin(net, p.dev, far - 1, Some(p.gate));
      assert WithinVia(net, d, i, e, far);
    }
  }

  /** isChannelBusy(far, -1) is true exactly when a device within far hops is transmitting. */
  lemma BusyMeansNeighbourTransmits(net: Network, d: Dev, far: nat)
    requires Valid(net)
    ensures Senses(net, d, far, None) <==> exists e :: e in net.transmitting && Within(net, d, e, far)
  {
    if Senses(net, d, far, None) {
      var e := SensedIsWithin(net, d, far, None);
    }
    if exists e :: e in net.transmitting && Within(net, d, e, far) {
      var e :| e in net.transmitting && Within(net, d, e, far);
      var k := Nearest(net, d, e, far);
      ShortestWayIsSensed(net, d, e, k, far, None);
    }
  }
}
