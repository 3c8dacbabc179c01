/** What a step of one prover must establish for the whole network's invariant to survive:
    everything about the other provers and the old messages follows from monotonicity. */
module FadiaFrame {
  import opened Wrappers
  import opened FadiaReport
  import opened FadiaProver
  import opened FadiaRound

  ghost predicate HandshakeInv(sys: System, w: World) {
    && LocalsInv(sys, w) && NetInv(sys, w) && OneMessagePerPair(w)
    && ParentsInv(sys, w) && LinksInv(sys, w) && GrantsInv(sys, w)
  }

  /** The pair of the consumed message. */
  function PairOf(w: World, gone: Option<nat>): Option<(Uid, Uid)> {
    if gone.Some? && InFlight(w, gone.value) then Pair(w.net[gone.value].value) else None
  }

  /** Messages sent stay as they are except for the consumed one. */
  ghost predicate NetGrows(w: World, w': World, gone: Option<nat>) {
    && |w.net| <= |w'.net|
    && forall k: nat :: k < |w.net| ==> w'.net[k] == if gone == Some(k) then None else w.net[k]
  }

  /** Only prover u changes, and it neither withdraws its offer nor its report. */
  ghost predicate OneProver(sys: System, w: World, w': World, u: Uid) {
    && u in w.provers && w'.provers.Keys == w.provers.Keys
    && (forall v :: v in w.provers && v != u ==> w'.provers[v] == w.provers[v])
    && (w.provers[u].offer.Some? ==> w'.provers[u].offer == w.provers[u].offer)
    && (Reported(sys, w, u) ==> Reported(sys, w', u))
  }

  /** Commitments are only added, and only for the pair of the consumed message. */
  ghost predicate HistoryGrows(w: World, w': World, u: Uid, gone: Option<nat>) {
    && (forall g :: g in w.grants ==> g in w'.grants && w'.grants[g] == w.grants[g])
    && (forall g :: g in w'.grants && g !in w.grants ==> PairOf(w, gone) == Some(g))
    && (forall v :: v in w.links ==> v in w'.links && w'.links[v] == w.links[v])
    && (forall v :: v in w'.links && v !in w.links ==> v == u && PairOf(w, gone) == Some((w'.links[v].parent, v)))
  }

  /** The key u uses with its parent changes only together with the handshake it answers. */
  predicate KeyKept(w: World, w': World, u: Uid, gone: Option<nat>)
    requires u in w.provers && u in w'.provers
  {
    var p, q := w.provers[u], w'.provers[u];
    || q.parent == NOID
    || (q.parent == p.parent && (p.session.Some? ==> q.session.Some? && q.session.value.key == p.session.value.key))
    || PairOf(w, gone) == Some((q.parent, u))
  }

  ghost predicate Moves(sys: System, w: World, w': World, u: Uid, gone: Option<nat>) {
    && OneProver(sys, w, w', u) && NetGrows(w, w', gone) && HistoryGrows(w, w', u, gone) && KeyKept(w, w', u, gone)
  }

  // ------------------------------------------------------------ old facts survive

  lemma OfferedStays(sys: System, w: World, w': World, u: Uid, v: Uid, depth: nat, tree: TreeId)
    requires OneProver(sys, w, w', u)
    ensures Offered(w, v, depth, tree) ==> Offered(w', v, depth, tree)
    ensures OfferedTree(w, v, tree) ==> OfferedTree(w', v, tree)
  {
  }

  lemma KeyAgreesStays(sys: System, w: World, w': World, u: Uid, gone: Option<nat>, child: Uid, parent: Uid, key: KeyId)
    requires Moves(sys, w, w', u, gone) && KeyAgrees(w, child, parent, key)
    requires PairOf(w, gone) != Some((parent, child)) && parent != NOID
    ensures KeyAgrees(w', child, parent, key)
  {
  }

  /** A message of a pair is not the consumed one, so no commitment of that pair is new. */
  lemma OtherPair(w: World, w': World, u: Uid, gone: Option<nat>, j: nat)
    requires OneMessagePerPair(w) && InFlight(w, j) && gone != Some(j) && Pair(w.net[j].value).Some?
    requires HistoryGrows(w, w', u, gone)
    ensures PairOf(w, gone) != Pair(w.net[j].value)
    ensures var g := Pair(w.net[j].value).value;
            && (g !in w.grants ==> g !in w'.grants)
            && (!Linked(w, g.1, g.0) ==> !Linked(w', g.1, g.0))
  {
    if gone.Some? && InFlight(w, gone.value) && PairOf(w, gone) == Pair(w.net[j].value) {
      assert SamePair(w.net[gone.value].value, w.net[j].value);
    }
  }

  lemma OldReqStays(sys: System, w: World, w': World, u: Uid, gone: Option<nat>, j: nat)
    requires Moves(sys, w, w', u, gone) && NetInv(sys, w) && OneMessagePerPair(w)
    requires InFlight(w, j) && gone != Some(j) && w.net[j].value.msg.CommitReq?
    ensures EnvOk(sys, w', w.net[j].value)
  {
    var e := w.net[j].value;
    assert EnvOk(sys, w, e);
    OtherPair(w, w', u, gone, j);
    OfferedStays(sys, w, w', u, e.msg.src, e.msg.depth, e.msg.tree);
  }

  lemma OldRespStays(sys: System, w: World, w': World, u: Uid, gone: Option<nat>, j: nat)
    requires ValidSystem(sys) && Moves(sys, w, w', u, gone) && NetInv(sys, w) && OneMessagePerPair(w)
    requires InFlight(w, j) && gone != Some(j) && w.net[j].value.msg.CommitResp?
    ensures EnvOk(sys, w', w.net[j].value)
  {
    var e := w.net[j].value;
    assert EnvOk(sys, w, e);
    OtherPair(w, w', u, gone, j);
    OfferedStays(sys, w, w', u, e.msg.dst, 0, e.msg.tree);
    KeyAgreesStays(sys, w, w', u, gone, e.msg.src, e.msg.dst, e.msg.kid);
  }

  lemma OldAckStays(sys: System, w: World, w': World, u: Uid, gone: Option<nat>, j: nat)
    requires ValidSystem(sys) && Moves(sys, w, w', u, gone) && NetInv(sys, w) && OneMessagePerPair(w)
    requires InFlight(w, j) && gone != Some(j) && w.net[j].value.msg.CommitAck?
    ensures EnvOk(sys, w', w.net[j].value)
  {
    var e := w.net[j].value;
    assert EnvOk(sys, w, e);
    OtherPair(w, w', u, gone, j);
    KeyAgreesStays(sys, w, w', u, gone, e.msg.dst, e.msg.src, w.grants[(e.msg.src, e.msg.dst)].key);
  }

  lemma OldUpdateStays(sys: System, w: World, w': World, u: Uid, gone: Option<nat>, j: nat)
    requires Moves(sys, w, w', u, gone) && NetInv(sys, w)
    requires InFlight(w, j) && gone != Some(j) && w.net[j].value.msg.UpdateReq?
    ensures EnvOk(sys, w', w.net[j].value)
  {
    assert EnvOk(sys, w, w.net[j].value);
  }

  // ------------------------------------------------------------ new facts of the step

  /** The messages sent by the step. */
  ghost predicate NewOk(sys: System, w: World, w': World) {
    forall k: nat :: |w.net| <= k && InFlight(w', k) ==> EnvOk(sys, w', w'.net[k].value)
  }

  /** New commit messages: the answer within the consumed pair, or the one broadcast of an offer. */
  ghost predicate NewPairs(w: World, w': World, u: Uid, gone: Option<nat>)
    requires u in w.provers
  {
    || (&& |w'.net| <= |w.net| + 1
        && forall k: nat :: |w.net| <= k && InFlight(w', k) && Pair(w'.net[k].value).Some? ==>
             Pair(w'.net[k].value) == PairOf(w, gone))
    || (&& w.provers[u].offer.None?
        && (forall k: nat :: |w.net| <= k && InFlight(w', k) && Pair(w'.net[k].value).Some? ==>
              Pair(w'.net[k].value).value.0 == u)
        && (forall k: nat, j: nat :: |w.net| <= k && InFlight(w', k) && |w.net| <= j && InFlight(w', j) && k != j ==>
              !SamePair(w'.net[k].value, w'.net[j].value)))
  }

  ghost predicate ChildrenOk(w: World, u: Uid)
    requires u in w.provers
  {
    forall d :: d in w.provers[u].children && d != NOID ==>
      && (u, d) in w.grants
      && w.provers[u].children[d] == Session(w.grants[(u, d)].tree, d, w.grants[(u, d)].key, 0, true)
  }

  ghost predicate RootOk(sys: System, w: World, u: Uid)
    requires u in w.provers
  {
    u !in w.links && w.provers[u].offer.Some? ==>
      w.provers[u].offer.value.depth == sys.maxDepth && w.provers[u].parent == NOID
  }

  /** Everything the step has to show about its own prover, its messages and its new commitments. */
  ghost predicate Fits(sys: System, w: World, w': World, u: Uid, gone: Option<nat>) {
    && u in w.provers && u in w'.provers
    && NewOk(sys, w, w') && NewPairs(w, w', u, gone)
    && ParentOk(sys, w', u) && ChildrenOk(w', u) && RootOk(sys, w', u)
    && (u in w'.links ==> LinkOk(sys, w', u))
    && (forall g :: g in w'.grants && g !in w.grants ==> GrantOk(sys, w', g))
  }

  lemma NetStays(sys: System, w: World, w': World, u: Uid, gone: Option<nat>)
    requires ValidSystem(sys) && HandshakeInv(sys, w) && Moves(sys, w, w', u, gone) && NewOk(sys, w, w')
    ensures NetInv(sys, w')
  {
    forall k: nat | InFlight(w', k)
      ensures EnvOk(sys, w', w'.net[k].value)
    {
      if k < |w.net| {
        assert gone != Some(k) && w'.net[k] == w.net[k];
        match w.net[k].value.msg
        case CommitReq(_, _, _, _) => OldReqStays(sys, w, w', u, gone, k);
        case CommitResp(_, _, _, _) => OldRespStays(sys, w, w', u, gone, k);
        case CommitAck(_, _, _) => OldAckStays(sys, w, w', u, gone, k);
        case UpdateReq(_, _, _, _, _, _, _) => OldUpdateStays(sys, w, w', u, gone, k);
      }
    }
  }

  /** A commit message in flight belongs to a prover that has offered. */
  lemma PairHasOffer(sys: System, w: World, k: nat)
    requires NetInv(sys, w) && GrantsInv(sys, w) && InFlight(w, k) && Pair(w.net[k].value).Some?
    ensures var g := Pair(w.net[k].value).value; g.0 in w.provers && w.provers[g.0].offer.Some?
  {
    var e := w.net[k].value;
    assert EnvOk(sys, w, e);
    if e.msg.CommitAck? {
      assert GrantOk(sys, w, (e.msg.src, e.msg.dst));
    }
  }

  lemma PairsStay(sys: System, w: World, w': World, u: Uid, gone: Option<nat>)
    requires HandshakeInv(sys, w) && Moves(sys, w, w', u, gone) && NewPairs(w, w', u, gone)
    ensures OneMessagePerPair(w')
  {
    forall k: nat, j: nat | InFlight(w', k) && InFlight(w', j) && SamePair(w'.net[k].value, w'.net[j].value)
      ensures k == j
    {
      if k < |w.net| && j < |w.net| {
        OldPair(w, w', gone, k, j);
      } else if k < |w.net| {
        MixedPair(sys, w, w', u, gone, k, j);
      } else if j < |w.net| {
        MixedPair(sys, w, w', u, gone, j, k);
      } else {
        NewPair(w, w', u, gone, k, j);
      }
    }
  }

  /** Two old messages belong to different pairs. */
  lemma OldPair(w: World, w': World, gone: Option<nat>, k: nat, j: nat)
    requires OneMessagePerPair(w) && NetGrows(w, w', gone)
    requires k < |w.net| && j < |w.net| && InFlight(w', k) && InFlight(w', j)
    requires SamePair(w'.net[k].value, w'.net[j].value)
    ensures k == j
  {
    assert InFlight(w, k) && InFlight(w, j) && SamePair(w.net[k].value, w.net[j].value);
  }

  /** Two new messages belong to different pairs. */
  lemma NewPair(w: World, w': World, u: Uid, gone: Option<nat>, k: nat, j: nat)
    requires u in w.provers && NewPairs(w, w', u, gone)
    requires |w.net| <= k && |w.net| <= j && InFlight(w', k) && InFlight(w', j)
    requires SamePair(w'.net[k].value, w'.net[j].value)
    ensures k == j
  {
  }

  /** An old and a new message never belong to the same pair. */
  lemma MixedPair(sys: System, w: World, w': World, u: Uid, gone: Option<nat>, k: nat, j: nat)
    requires HandshakeInv(sys, w) && Moves(sys, w, w', u, gone) && NewPairs(w, w', u, gone)
    requires k < |w.net| <= j && InFlight(w', k) && InFlight(w', j)
    ensures !SamePair(w'.net[k].value, w'.net[j].value) && !SamePair(w'.net[j].value, w'.net[k].value)
  {
    assert InFlight(w, k) && w'.net[k] == w.net[k] && gone != Some(k);
    if Pair(w.net[k].value).Some? && Pair(w.net[k].value) == Pair(w'.net[j].value) {
      OtherPair(w, w, u, gone, k) by { assert HistoryGrows(w, w, u, gone); }
      PairHasOffer(sys, w, k);
    }
  }

  lemma ParentsStay(sys: System, w: World, w': World, u: Uid, gone: Option<nat>)
    requires HandshakeInv(sys, w) && Moves(sys, w, w', u, gone) && ParentOk(sys, w', u)
    ensures ParentsInv(sys, w')
  {
    forall v | v in w'.provers
      ensures ParentOk(sys, w', v)
    {
      if v != u {
        assert ParentOk(sys, w, v);
        var p := w.provers[v];
        if p.parent != NOID {
          OfferedStays(sys, w, w', u, p.parent, p.session.value.depth, p.session.value.tree);
        }
      }
    }
  }

  lemma LinkStays(sys: System, w: World, w': World, u: Uid, gone: Option<nat>, v: Uid)
    requires v in w.links && LinkOk(sys, w, v) && v != u
    requires OneProver(sys, w, w', u) && HistoryGrows(w, w', u, gone)
    ensures LinkOk(sys, w', v)
  {
    var l := w.links[v];
    OfferedStays(sys, w, w', u, l.parent, l.depth, l.tree);
    assert w'.links[v] == l && w'.grants[(l.parent, v)] == w.grants[(l.parent, v)];
  }

  lemma LinksStay(sys: System, w: World, w': World, u: Uid, gone: Option<nat>)
    requires LinksInv(sys, w) && OneProver(sys, w, w', u) && HistoryGrows(w, w', u, gone) && RootOk(sys, w', u)
    requires u in w'.links ==> LinkOk(sys, w', u)
    ensures LinksInv(sys, w')
  {
    forall v | v in w'.links
      ensures LinkOk(sys, w', v)
    {
      if v != u {
        LinkStays(sys, w, w', u, gone, v);
      }
    }
    forall v | v in w'.provers && v !in w'.links && w'.provers[v].offer.Some?
      ensures w'.provers[v].offer.value.depth == sys.maxDepth && w'.provers[v].parent == NOID
    {
      if v != u {
        assert v !in w.links;
      }
    }
  }

  lemma GrantsStay(sys: System, w: World, w': World, u: Uid, gone: Option<nat>)
    requires HandshakeInv(sys, w) && Moves(sys, w, w', u, gone) && ChildrenOk(w', u)
    requires forall g :: g in w'.grants && g !in w.grants ==> GrantOk(sys, w', g)
    ensures GrantsInv(sys, w')
  {
    forall g | g in w'.grants
      ensures GrantOk(sys, w', g)
    {
      if g in w.grants {
        assert GrantOk(sys, w, g);
        OfferedStays(sys, w, w', u, g.0, 0, w.grants[g].tree);
      }
    }
    forall v, d | v in w'.provers && d in w'.provers[v].children && d != NOID
      ensures (v, d) in w'.grants
      ensures w'.provers[v].children[d] == Session(w'.grants[(v, d)].tree, d, w'.grants[(v, d)].key, 0, true)
    {
      if v != u {
        assert (v, d) in w.grants;
      }
    }
  }

  /** A step that fits keeps the handshake invariant of the whole network. */
  lemma StepFits(sys: System, w: World, w': World, u: Uid, gone: Option<nat>)
    requires ValidSystem(sys) && HandshakeInv(sys, w)
    requires Moves(sys, w, w', u, gone) && Fits(sys, w, w', u, gone)
    requires u in sys.cfg && u in sys.start && LocalInv(sys.cfg[u], sys.start[u], w'.provers[u])
    ensures HandshakeInv(sys, w')
  {
    NetStays(sys, w, w', u, gone);
    PairsStay(sys, w, w', u, gone);
    ParentsStay(sys, w, w', u, gone);
    LinksStay(sys, w, w', u, gone);
    GrantsStay(sys, w, w', u, gone);
    LocalsStay(sys, w, w', u);
  }

  lemma LocalsStay(sys: System, w: World, w': World, u: Uid)
    requires LocalsInv(sys, w) && OneProver(sys, w, w', u)
    requires u in sys.cfg && u in sys.start && LocalInv(sys.cfg[u], sys.start[u], w'.provers[u])
    ensures LocalsInv(sys, w')
  {
  }
}
