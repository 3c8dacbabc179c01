/** The two socket tables of UDP: sockets by id, and lists of sockets by local port. */
module UdpSockets {
  import opened Lists

  type SockId = int
  type Port = p: int | 0 <= p < 65536

  /** Ephemeral ports are those from START on and below END. */
  const START: Port := 1024
  const END: Port := 5000

  /** Addresses are numbers; 0 is the unspecified one. */
  const UNSPECIFIED := 0

  datatype Socket = Socket(localAddr: nat, localPort: Port, remoteAddr: nat, remotePort: int, isBound: bool,
      reuseAddr: bool, onlyLocalPortIsSet: bool)

  datatype Result = Done | Failed

  datatype Found = Found(port: Port) | Exhausted

  type ById = map<SockId, Socket>
  type ByPort = map<Port, seq<SockId>>

  /** Every socket is listed once, under its own local port, and nothing else is listed. */
  ghost predicate Agree(ids: ById, ports: ByPort) {
    && (forall s :: s in ids ==> ids[s].localPort in ports && s in ports[ids[s].localPort])
    && (forall p :: p in ports ==> NoDup(ports[p]) && forall s :: s in ports[p] ==> s in ids && ids[s].localPort == p)
  }

  /** The list of a port grows at its end; an emptied list stays. */
  function Added(ports: ByPort, p: Port, s: SockId): ByPort {
    ports[p := (if p in ports then ports[p] else []) + [s]]
  }

  function Removed(ports: ByPort, p: Port, s: SockId): ByPort
    requires p in ports
  {
    ports[p := Without(ports[p], s)]
  }

  lemma Listed(ids: ById, ports: ByPort, s: SockId, d: Socket)
    requires Agree(ids, ports) && s !in ids
    ensures Agree(ids[s := d], Added(ports, d.localPort, s))
  {
  }

  /** The socket leaves its list; the emptied list may stay or go. */
  lemma Unlisted(ids: ById, ports: ByPort, s: SockId)
    requires Agree(ids, ports) && s in ids
    ensures var p := ids[s].localPort;
            && Agree(ids - {s}, Removed(ports, p, s))
            && (Without(ports[p], s) == [] ==> Agree(ids - {s}, ports - {p}))
  {
    var p := ids[s].localPort;
    WithoutMembers(ports[p], s);
    WithoutNoDup(ports[p], s);
  }

  /** A change of a socket that keeps its port. */
  lemma SamePort(ids: ById, ports: ByPort, s: SockId, d: Socket)
    requires Agree(ids, ports) && s in ids && d.localPort == ids[s].localPort
    ensures Agree(ids[s := d], ports)
  {
  }

  // ------------------------------------------------------------ who already has an address and port

  predicate HasAddress(ids: ById, s: SockId, addr: nat) {
    s in ids && (ids[s].localAddr == UNSPECIFIED || ids[s].localAddr == addr)
  }

  predicate FirstWith(ids: ById, l: seq<SockId>, addr: nat, k: nat) {
    k < |l| && HasAddress(ids, l[k], addr) && forall j :: 0 <= j < k ==> !HasAddress(ids, l[j], addr)
  }

  /** The first socket listed under the port, converted to 16 bits, with that address or none. */
  ghost predicate Occupies(ids: ById, ports: ByPort, e: SockId, addr: nat, localPort: int) {
    var p := localPort % 65536;
    p in ports && exists k: nat :: FirstWith(ids, ports[p], addr, k) && ports[p][k] == e
  }

  lemma OccupiesOnce(ids: ById, ports: ByPort, e: SockId, f: SockId, addr: nat, localPort: int)
    requires Occupies(ids, ports, e, addr, localPort) && Occupies(ids, ports, f, addr, localPort)
    ensures e == f
  {
    var p := localPort % 65536;
    var k: nat :| FirstWith(ids, ports[p], addr, k) && ports[p][k] == e;
    var j: nat :| FirstWith(ids, ports[p], addr, j) && ports[p][j] == f;
    assert j == k;
  }

  lemma NoOccupant(ids: ById, ports: ByPort, addr: nat, localPort: int)
    requires Agree(ids, ports) && localPort % 65536 in ports
    requires forall j :: 0 <= j < |ports[localPort % 65536]| ==> !HasAddress(ids, ports[localPort % 65536][j], addr)
    ensures forall e :: !Occupies(ids, ports, e, addr, localPort)
    ensures forall t :: t in ids && ids[t].localPort == localPort % 65536 ==> !HasAddress(ids, t, addr)
  {
  }

  /** Unless both sockets may share addresses, the address and port are taken. */
  ghost predicate Taken(ids: ById, ports: ByPort, s: SockId, addr: nat, localPort: int) {
    exists e :: Occupies(ids, ports, e, addr, localPort)
        && !(s in ids && ids[s].reuseAddr && e in ids && ids[e].reuseAddr)
  }

  /** Written out: the socket at place k of the list is the first one without an address or with this one. */
  predicate Stands(ids: ById, l: seq<SockId>, addr: nat, k: nat) {
    && k < |l| && l[k] in ids && (ids[l[k]].localAddr == UNSPECIFIED || ids[l[k]].localAddr == addr)
    && forall j :: 0 <= j < k && l[j] in ids ==> ids[l[j]].localAddr != UNSPECIFIED && ids[l[j]].localAddr != addr
  }

  /** So the address and port are taken exactly if such a socket stands in the way that does not share them. */
  lemma TakenMeans(ids: ById, ports: ByPort, s: SockId, addr: nat, localPort: int)
    requires Agree(ids, ports)
    ensures Taken(ids, ports, s, addr, localPort) <==>
            && localPort % 65536 in ports
            && var l := ports[localPort % 65536];
               exists k: nat :: Stands(ids, l, addr, k) && !(s in ids && ids[s].reuseAddr && ids[l[k]].reuseAddr)
  {
    if localPort % 65536 in ports {
      var l := ports[localPort % 65536];
      forall k: nat | k < |l| ensures FirstWith(ids, l, addr, k) <==> Stands(ids, l, addr, k) {
        assert l[k] in l;
      }
      forall k: nat | FirstWith(ids, l, addr, k) ensures Occupies(ids, ports, l[k], addr, localPort) {
      }
    }
  }

  /** Unless both may share addresses, no other socket under the port has this address or none. */
  lemma NotTakenMeans(ids: ById, ports: ByPort, s: SockId, addr: nat, localPort: int, t: SockId)
    requires Agree(ids, ports) && !Taken(ids, ports, s, addr, localPort)
    requires t in ids && ids[t].localPort == localPort % 65536
    requires ids[t].localAddr == UNSPECIFIED || ids[t].localAddr == addr
    ensures s in ids && ids[s].reuseAddr
  {
    TakenMeans(ids, ports, s, addr, localPort);
    var l := ports[localPort % 65536];
    var k :| 0 <= k < |l| && l[k] == t;
    var m := SomeStands(ids, l, addr, k);
  }

  lemma {:induction false} SomeStands(ids: ById, l: seq<SockId>, addr: nat, k: nat) returns (m: nat)
    requires k < |l| && l[k] in ids && (ids[l[k]].localAddr == UNSPECIFIED || ids[l[k]].localAddr == addr)
    ensures Stands(ids, l, addr, m)
    decreases k
  {
    if j: nat :| j < k && l[j] in ids && (ids[l[j]].localAddr == UNSPECIFIED || ids[l[j]].localAddr == addr) {
      m := SomeStands(ids, l, addr, j);
    } else {
      m := k;
    }
  }

  ghost predicate Full(ports: ByPort) {
    forall p: Port :: START <= p < END ==> p in ports
  }

  ghost predicate HasSocket(ids: ById, p: Port) { exists s :: s in ids && ids[s].localPort == p }

  /** Every ephemeral port is the local port of a socket. */
  ghost predicate EveryPortUsed(ids: ById) {
    forall p: Port :: START <= p < END ==> HasSocket(ids, p)
  }

  predicate EmptyEntry(ports: ByPort, p: Port) {
    START <= p < END && p in ports && ports[p] == []
  }

  /** An entry is empty exactly if no socket has the port. */
  lemma EmptyIsUnused(ids: ById, ports: ByPort, p: Port)
    requires Agree(ids, ports) && p in ports
    ensures ports[p] == [] <==> !HasSocket(ids, p)
  {
    if ports[p] != [] {
      var s := ports[p][0];
      assert s in ports[p];
      assert s in ids && ids[s].localPort == p;
    }
  }

  /** The search for a port fails although some port has no socket exactly if every port has an
      entry and one of these entries is empty, as a socket that moved to another port leaves it. */
  lemma FullIsUsed(ids: ById, ports: ByPort)
    requires Agree(ids, ports)
    ensures EveryPortUsed(ids) ==> Full(ports)
    ensures Full(ports) && !EveryPortUsed(ids) <==> Full(ports) && exists p :: EmptyEntry(ports, p)
  {
    forall p: Port | START <= p < END && p in ports ensures EmptyEntry(ports, p) <==> !HasSocket(ids, p) {
      EmptyIsUnused(ids, ports, p);
    }
    forall p: Port | HasSocket(ids, p) ensures p in ports {
      var s :| s in ids && ids[s].localPort == p;
    }
  }

  predicate GoodPort(localPort: int) { -1 <= localPort <= 65535 }

  ghost predicate BindFails(ids: ById, ports: ByPort, s: SockId, addr: nat, localPort: int) {
    || s == -1 || !GoodPort(localPort) || Taken(ids, ports, s, addr, localPort)
    || (if s in ids then ids[s].isBound else localPort == -1 && Full(ports))
  }

  // ------------------------------------------------------------ outcomes

  function NewSocket(addr: nat, p: Port): Socket {
    Socket(addr, p, UNSPECIFIED, -1, false, false, addr == UNSPECIFIED)
  }

  /** Some port is chosen for -1: one of the ephemeral ports without an entry. */
  predicate ChosenPort(ports: ByPort, localPort: int, p: Port) {
    if localPort == -1 then START <= p < END && p !in ports else p == localPort
  }

  /** d is new in both tables, and nothing else changed. */
  predicate Created(ids: ById, ports: ByPort, ids': ById, ports': ByPort, s: SockId, d: Socket) {
    ids' == ids[s := d] && ports' == Added(ports, d.localPort, s)
  }

  /** The socket of a command, which is created with an ephemeral port where the id is unknown. */
  predicate Looked(ids: ById, ports: ByPort, ids': ById, ports': ByPort, s: SockId, d: Socket) {
    if s in ids then d == ids[s] && ids' == ids && ports' == ports
    else && ChosenPort(ports, -1, d.localPort) && d == NewSocket(UNSPECIFIED, d.localPort)
         && Created(ids, ports, ids', ports', s, d)
  }

  function BoundTo(d: Socket, addr: nat, localPort: int): Socket
    requires GoodPort(localPort)
  {
    d.(isBound := true, localAddr := addr, localPort := if localPort == -1 then d.localPort else localPort)
  }

  function Moved(ports: ByPort, s: SockId, p: Port, p': Port): ByPort
    requires p in ports
  {
    if p == p' then ports else Added(Removed(ports, p, s), p', s)
  }

  class UdpTables {
    var ids: ById
    var ports: ByPort
    var lastEphemeralPort: Port

    ghost predicate Valid()
      reads this
    {
      START <= lastEphemeralPort < END && Agree(ids, ports)
    }

    constructor ()
      ensures Valid() && ids == map[] && ports == map[] && lastEphemeralPort == START
    {
      ids, ports, lastEphemeralPort := map[], map[], START;
    }

    /** Searches upward from the last port given, around the range; it fails only if every port of
        the range has an entry. */
    method GetEphemeralPort() returns (r: Found)
      requires Valid()
      modifies this`lastEphemeralPort
      ensures Valid()
      ensures r.Found? ==> ChosenPort(ports, -1, r.port) && lastEphemeralPort == r.port
      ensures r.Found? ==>
                var l := old(lastEphemeralPort);
                forall p: Port | START <= p < END && (if l < r.port then l < p < r.port else l < p || p < r.port) ::
                  p in ports
      ensures r.Exhausted? <==> Full(ports)
    {
      var searchUntil := lastEphemeralPort;
      lastEphemeralPort := Next(lastEphemeralPort);
      while lastEphemeralPort in ports
        invariant START <= lastEphemeralPort < END && START <= searchUntil < END
        invariant forall p: Port :: Between(searchUntil, p, lastEphemeralPort) && START <= p < END ==> p in ports
        decreases Distance(lastEphemeralPort, searchUntil)
      {
        if lastEphemeralPort == searchUntil { return Exhausted; }
        lastEphemeralPort := Next(lastEphemeralPort);
      }
      r := Found(lastEphemeralPort);
    }

    /** Fails without a port, and then changes no table. */
    method CreateSocket(s: SockId, localAddr: nat, localPort: int) returns (r: Result)
      requires Valid() && s !in ids && GoodPort(localPort)
      modifies this
      ensures Valid()
      ensures r.Failed? <==> localPort == -1 && Full(old(ports))
      ensures r.Failed? ==> ids == old(ids) && ports == old(ports)
      ensures r.Done? ==> s in ids && ChosenPort(old(ports), localPort, ids[s].localPort)
      ensures r.Done? ==> ids[s] == NewSocket(localAddr, ids[s].localPort)
      ensures r.Done? ==>
                && ids[s].localAddr == localAddr && ids[s].remoteAddr == UNSPECIFIED && ids[s].remotePort == -1
                && !ids[s].isBound && !ids[s].reuseAddr && (ids[s].onlyLocalPortIsSet <==> localAddr == UNSPECIFIED)
      ensures r.Done? ==> Created(old(ids), old(ports), ids, ports, s, ids[s])
    {
      var p: Port := if localPort == -1 then 0 else localPort;
      if localPort == -1 {
        var f := GetEphemeralPort();
        if f.Exhausted? { return Failed; }
        p := f.port;
      }
      var d := NewSocket(localAddr, p);
      Listed(ids, ports, s, d);
      ids := ids[s := d];
      ports := Added(ports, p, s);
      r := Done;
    }

    method GetOrCreateSocket(s: SockId) returns (r: Result)
      requires Valid()
      modifies this
      ensures Valid()
      ensures r.Failed? <==> s == -1 || (s !in old(ids) && Full(old(ports)))
      ensures r.Failed? ==> ids == old(ids) && ports == old(ports)
      ensures r.Done? ==> s in ids && Looked(old(ids), old(ports), ids, ports, s, ids[s])
    {
      if s == -1 { return Failed; }
      if s in ids { return Done; }
      r := CreateSocket(s, UNSPECIFIED, -1);
    }

    method FindFirstSocketByLocalAddress(addr: nat, localPort: int) returns (found: bool, s: SockId)
      requires Valid() && GoodPort(localPort)
      ensures found ==> Occupies(ids, ports, s, addr, localPort) && s in ids
      ensures !found ==> forall e :: !Occupies(ids, ports, e, addr, localPort)
      ensures !found ==> forall t :: t in ids && ids[t].localPort == localPort % 65536 ==> !HasAddress(ids, t, addr)
    {
      var p: Port := localPort % 65536;
      if p !in ports { return false, -1; }
      var l := ports[p];
      var i := 0;
      while i < |l|
        invariant i <= |l| && forall j :: 0 <= j < i ==> !HasAddress(ids, l[j], addr)
      {
        assert l[i] in l;
        if HasAddress(ids, l[i], addr) {
          assert FirstWith(ids, l, addr, i);
          return true, l[i];
        }
        i := i + 1;
      }
      NoOccupant(ids, ports, addr, localPort);
      found, s := false, -1;
    }

    /** A new socket is created where the id is unknown; a known one gets the address and, unless -1
        is asked for, the port. */
    method Bind(s: SockId, localAddr: nat, localPort: int) returns (r: Result)
      requires Valid()
      modifies this
      ensures Valid()
      ensures r.Failed? <==> BindFails(old(ids), old(ports), s, localAddr, localPort)
      ensures r.Failed? ==> ids == old(ids) && ports == old(ports)
      ensures r.Done? && s in old(ids) ==>
                var d := BoundTo(old(ids)[s], localAddr, localPort);
                ids == old(ids)[s := d] && ports == Moved(old(ports), s, old(ids)[s].localPort, d.localPort)
      ensures r.Done? && s !in old(ids) ==>
                && s in ids && ChosenPort(old(ports), localPort, ids[s].localPort)
                && ids[s] == NewSocket(localAddr, ids[s].localPort).(isBound := true)
                && Created(old(ids), old(ports), ids, ports, s, ids[s])
      ensures r.Done? ==>
                && s in ids && ids[s].isBound && ids[s].localAddr == localAddr
                && (localPort != -1 ==> ids[s].localPort == localPort)
                && (localPort == -1 && s in old(ids) ==> ids[s].localPort == old(ids)[s].localPort)
      ensures r.Done? ==>
                forall t ::
                  && t in old(ids) && old(ids)[t].localPort == localPort % 65536
                  && (old(ids)[t].localAddr == UNSPECIFIED || old(ids)[t].localAddr == localAddr) ==>
                    s in old(ids) && old(ids)[s].reuseAddr
    {
      if !Taken(ids, ports, s, localAddr, localPort) {
        forall t | && t in ids && ids[t].localPort == localPort % 65536
                   && (ids[t].localAddr == UNSPECIFIED || ids[t].localAddr == localAddr)
          ensures s in ids && ids[s].reuseAddr
        {
          NotTakenMeans(ids, ports, s, localAddr, localPort, t);
        }
      }
      if s == -1 || localPort < -1 || localPort > 65535 { return Failed; }
      var taken, e := FindFirstSocketByLocalAddress(localAddr, localPort);
      if taken { OnlyOccupant(ids, ports, e, localAddr, localPort); }
      if taken && (s !in ids || !ids[s].reuseAddr || !ids[e].reuseAddr) { return Failed; }
      if s in ids {
        if ids[s].isBound { return Failed; }
        Rebind(s, localAddr, localPort);
        r := Done;
      } else {
        r := CreateSocket(s, localAddr, localPort);
        if r.Failed? { return; }
        SamePort(ids, ports, s, ids[s].(isBound := true));
        ids := ids[s := ids[s].(isBound := true)];
      }
    }

    method Rebind(s: SockId, localAddr: nat, localPort: int)
      requires Valid() && s in ids && GoodPort(localPort)
      modifies this`ids, this`ports
      ensures Valid()
      ensures var d := BoundTo(old(ids)[s], localAddr, localPort);
              ids == old(ids)[s := d] && ports == Moved(old(ports), s, old(ids)[s].localPort, d.localPort)
    {
      var d := ids[s].(isBound := true, localAddr := localAddr);
      if localPort != -1 && d.localPort != localPort {
        var p := d.localPort;
        Unlisted(ids, ports, s);
        ghost var rest := ids - {s};
        ports := Removed(ports, p, s);
        d := d.(localPort := localPort);
        Listed(rest, ports, s, d);
        assert rest[s := d] == ids[s := d];
        ports := Added(ports, d.localPort, s);
      } else {
        SamePort(ids, ports, s, d);
      }
      ids := ids[s := d];
    }

    method Connect(s: SockId, remoteAddr: nat, remotePort: int) returns (r: Result)
      requires Valid()
      modifies this
      ensures Valid()
      ensures r.Failed? <==> || remoteAddr == UNSPECIFIED || !(0 < remotePort <= 65535)
                             || s == -1 || (s !in old(ids) && Full(old(ports)))
      ensures r.Failed? ==> ids == old(ids) && ports == old(ports)
      ensures r.Done? ==>
                exists ids1: ById, d ::
                  Looked(old(ids), old(ports), ids1, ports, s, d)
                  && var d' := d.(remoteAddr := remoteAddr, remotePort := remotePort, onlyLocalPortIsSet := false);
                     ids == ids1[s := d']
    {
      if remoteAddr == UNSPECIFIED || remotePort <= 0 || remotePort > 65535 { return Failed; }
      r := GetOrCreateSocket(s);
      if r.Failed? { return; }
      var d := ids[s].(remoteAddr := remoteAddr, remotePort := remotePort, onlyLocalPortIsSet := false);
      SamePort(ids, ports, s, d);
      ids := ids[s := d];
    }

    method SetReuseAddress(s: SockId, reuse: bool) returns (r: Result)
      requires Valid()
      modifies this
      ensures Valid()
      ensures r.Failed? <==> s == -1 || (s !in old(ids) && Full(old(ports)))
      ensures r.Failed? ==> ids == old(ids) && ports == old(ports)
      ensures r.Done? ==> exists ids1: ById, d :: Looked(old(ids), old(ports), ids1, ports, s, d)
                            && ids == ids1[s := d.(reuseAddr := reuse)]
    {
      r := GetOrCreateSocket(s);
      if r.Failed? { return; }
      SamePort(ids, ports, s, ids[s].(reuseAddr := reuse));
      ids := ids[s := ids[s].(reuseAddr := reuse)];
    }

    /** close and destroy: the socket is in neither table afterwards, the others are as they were. */
    method Close(s: SockId)
      requires Valid()
      modifies this`ids, this`ports
      ensures Valid() && ids == old(ids) - {s}
      ensures s !in old(ids) ==> ports == old(ports)
      ensures s in old(ids) ==>
                var p := old(ids)[s].localPort; var rest := Removed(old(ports), p, s);
                ports == if rest[p] == [] then old(ports) - {p} else rest
    {
      if s !in ids {
        assert ids - {s} == ids;
        return;
      }
      var p := ids[s].localPort;
      Unlisted(ids, ports, s);
      ids := ids - {s};
      var l := Without(ports[p], s);
      if l == [] {
        ports := ports - {p};
      } else {
        ports := ports[p := l];
      }
    }

    method ClearAllSockets()
      requires Valid()
      modifies this`ids, this`ports
      ensures Valid() && ids == map[] && ports == map[]
    {
      ids, ports := map[], map[];
    }
  }

  // ------------------------------------------------------------ an empty entry arises

  /** A socket that connects and is then bound to another port leaves an empty entry behind. */
  method LeaveEmptyEntry() returns (t: UdpTables, p: Port)
    ensures fresh(t) && t.Valid() && EmptyEntry(t.ports, p) && t.ids.Keys == {1}
  {
    t := new UdpTables();
    assert START !in t.ports;
    var r := t.Connect(1, 7, 53);
    p := t.ids[1].localPort;
    NothingOccupied(t.ids, t.ports, p);
    ghost var l := t.ports[p];
    assert l == [1] && l[1..] == [];
    r := t.Bind(1, 5, 80);
    assert Without(l, 1) == Without(l[1..], 1) == [];
  }

  /** With the one entry at an ephemeral port nobody has port 80. */
  lemma NothingOccupied(ids: ById, ports: ByPort, p: Port)
    requires ports.Keys == {p} && START <= p
    ensures !Taken(ids, ports, 1, 5, 80)
  {
  }

  ghost function FreePorts(ports: ByPort): set<Port> {
    set p: Port | START <= p < END && p !in ports
  }

  /** From there the search comes to fail although that port has no socket. */
  method FailWithUnusedPort() returns (t: UdpTables, p: Port)
    ensures t.Valid() && Full(t.ports) && !HasSocket(t.ids, p) && START <= p < END
  {
    t, p := LeaveEmptyEntry();
    var next := 2;
    var r: Result := Done;
    while r.Done?
      invariant fresh(t) && t.Valid() && EmptyEntry(t.ports, p) && next > 0
      invariant forall s :: s in t.ids ==> s < next
      invariant r.Failed? ==> Full(t.ports)
      decreases |FreePorts(t.ports)|, if r.Done? then 1 else 0
    {
      ghost var before := t.ports;
      r := t.GetOrCreateSocket(next);
      if r.Done? { FewerFree(before, t.ports, t.ids[next].localPort, next); }
      next := next + 1;
    }
    EmptyIsUnused(t.ids, t.ports, p);
  }

  lemma FewerFree(ports: ByPort, ports': ByPort, q: Port, s: SockId)
    requires ports' == Added(ports, q, s) && START <= q < END && q !in ports
    ensures |FreePorts(ports')| < |FreePorts(ports)|
    ensures forall p :: p in ports ==> p in ports' && ports'[p] == ports[p]
  {
    assert FreePorts(ports') == FreePorts(ports) - {q};
    assert q in FreePorts(ports);
  }

  lemma OnlyOccupant(ids: ById, ports: ByPort, e: SockId, addr: nat, localPort: int)
    requires Occupies(ids, ports, e, addr, localPort)
    ensures forall f :: Occupies(ids, ports, f, addr, localPort) ==> f == e
  {
    forall f | Occupies(ids, ports, f, addr, localPort) ensures f == e {
      OccupiesOnce(ids, ports, e, f, addr, localPort);
    }
  }

  function Next(p: Port): Port
    requires p < END
  {
    if p + 1 == END then START else p + 1
  }

  ghost function Distance(p: Port, q: Port): nat
    requires START <= p < END && START <= q < END
  {
    if p <= q then q - p else q - p + (END - START)
  }

  /** p lies behind searchUntil and before p', going around. */
  predicate Between(searchUntil: Port, p: Port, p': Port) {
    if searchUntil < p' then searchUntil < p < p' else searchUntil < p || p < p'
  }
}
