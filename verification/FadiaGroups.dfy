/** The groups of an aggregated report, which a merge joins or sets apart, and their proofs. */
module FadiaGroups {
  import opened FadiaReport

  /** The ids of the unfinished group. */
  function Open(u: seq<nat>): seq<nat> { u[|u| - TailLen(u)..] }

  /** The id lists of the groups that are closed by a separator, in order. */
  function Closed(u: seq<nat>): seq<seq<nat>> {
    if u == [] then []
    else
      var v := u[..|u| - 1];
      if u[|u| - 1] == NOID then Closed(v) + [Open(v)] else Closed(v)
  }

  function Unless<T>(drop: bool, x: T): seq<T> { if drop then [] else [x] }

  /** All groups, the unfinished one last. */
  function AllGroups(u: seq<nat>): seq<seq<nat>> { Closed(u) + Unless(Open(u) == [], Open(u)) }

  /** Two unfinished groups fit into one. */
  predicate Fit(own: seq<nat>, child: seq<nat>, aggSize: nat) {
    own != [] && child != [] && |own| + |child| <= aggSize
  }

  /** What becomes of the unfinished groups in a merge. */
  function Joined(own: seq<nat>, child: seq<nat>, aggSize: nat): seq<seq<nat>> {
    if Fit(own, child, aggSize) then [child + own] else Unless(child == [], child) + Unless(own == [], own)
  }

  /** The proofs of the closed groups, and that of the unfinished one. */
  function ClosedProofs(r: Report): seq<bv32>
    requires OneEach(r)
  {
    r.proofs[..Separators(r.uids)]
  }

  function OpenProof(r: Report): seq<bv32>
    requires OneEach(r)
  {
    r.proofs[Separators(r.uids)..]
  }

  // ---------------------------------------------------------------- groups of longer lists

  lemma GroupsAfter(u: seq<nat>, x: nat)
    ensures Closed(u + [x]) == if x == NOID then Closed(u) + [Open(u)] else Closed(u)
    ensures Open(u + [x]) == if x == NOID then [] else Open(u) + [x]
  {
    assert (u + [x])[..|u|] == u;
  }

  lemma {:induction false} ClosedCount(u: seq<nat>)
    ensures |Closed(u)| == Separators(u) && |AllGroups(u)| == Groups(u)
  {
    if u != [] {
      var v, x := u[..|u| - 1], u[|u| - 1];
      assert u == v + [x];
      ClosedCount(v);
      SeparatorsAppend(v, x);
    }
  }

  /** Ids without a separator go to the unfinished group. */
  lemma {:induction false} PlainGroups(u: seq<nat>, v: seq<nat>)
    requires forall i :: 0 <= i < |v| ==> v[i] != NOID
    ensures Closed(u + v) == Closed(u) && Open(u + v) == Open(u) + v
  {
    if v == [] {
      assert u + v == u;
    } else {
      var w, x := v[..|v| - 1], v[|v| - 1];
      assert u + v == u + w + [x] && v == w + [x];
      PlainGroups(u, w);
      PlainStep(u, w, x);
    }
  }

  lemma PlainStep(u: seq<nat>, w: seq<nat>, x: nat)
    requires Closed(u + w) == Closed(u) && Open(u + w) == Open(u) + w && x != NOID
    ensures Closed(u + w + [x]) == Closed(u) && Open(u + w + [x]) == Open(u) + (w + [x])
  {
    GroupsAfter(u + w, x);
    Assoc(Open(u), w, [x]);
  }

  /** Behind closed groups another list keeps its groups. */
  lemma {:induction false} GroupsBehind(u: seq<nat>, v: seq<nat>)
    requires TailLen(u) == 0
    ensures Closed(u + v) == Closed(u) + Closed(v) && Open(u + v) == Open(v)
  {
    if v == [] {
      assert u + v == u;
    } else {
      var w, x := v[..|v| - 1], v[|v| - 1];
      assert u + v == u + w + [x] && v == w + [x];
      GroupsBehind(u, w);
      BehindStep(u, w, x);
    }
  }

  lemma BehindStep(u: seq<nat>, w: seq<nat>, x: nat)
    requires Closed(u + w) == Closed(u) + Closed(w) && Open(u + w) == Open(w)
    ensures Closed(u + w + [x]) == Closed(u) + Closed(w + [x]) && Open(u + w + [x]) == Open(w + [x])
  {
    GroupsAfter(u + w, x);
    GroupsAfter(w, x);
    Assoc(Closed(u), Closed(w), [Open(w)]);
  }

  lemma Assoc<T>(a: seq<T>, b: seq<T>, c: seq<T>)
    ensures a + b + c == a + (b + c)
  {
  }

  /** The list without its unfinished group. */
  lemma CutGroup(u: seq<nat>)
    ensures var h := u[..|u| - TailLen(u)]; TailLen(h) == 0 && Open(h) == [] && Closed(h) == Closed(u)
    ensures forall i :: 0 <= i < |Open(u)| ==> Open(u)[i] != NOID
  {
    var h, v := u[..|u| - TailLen(u)], Open(u);
    TailIsPlain(u);
    assert u == h + v;
    forall i | 0 <= i < |v| ensures v[i] != NOID {
      assert v[i] == u[|u| - TailLen(u) + i];
    }
    PlainGroups(h, v);
  }

  // ---------------------------------------------------------------- the merge

  /** A full group is closed, and is then still the last one. */
  lemma FixGroups(r: Report, aggSize: nat)
    requires aggSize > 0
    ensures AllGroups(FixProofs(r, aggSize).uids) == AllGroups(r.uids)
    ensures TailLen(FixProofs(r, aggSize).uids) == if TailLen(r.uids) == aggSize then 0 else TailLen(r.uids)
  {
    GroupsAfter(r.uids, NOID);
  }

  lemma JoinGroups(g: seq<nat>, uids: seq<nat>, aggSize: nat)
    requires 0 < |uids| && |Open(g)| + |uids| <= aggSize && forall i :: 0 <= i < |uids| ==> uids[i] != NOID
    ensures var out := FixProofs(Report(g + uids, [], [], 0, 0), aggSize).uids;
            && AllGroups(out) == Closed(g) + Joined(uids, Open(g), aggSize)
            && TailLen(out) == if |Open(g)| + |uids| == aggSize then 0 else |Open(g)| + |uids|
  {
    PlainGroups(g, uids);
    FixGroups(Report(g + uids, [], [], 0, 0), aggSize);
    JoinedToOne(uids, Open(g), aggSize);
  }

  lemma JoinedToOne(own: seq<nat>, child: seq<nat>, aggSize: nat)
    requires own != [] && |own| + |child| <= aggSize
    ensures Joined(own, child, aggSize) == [child + own]
  {
    assert child == [] ==> child + own == own;
  }

  lemma ApartGroups(g: seq<nat>, uids: seq<nat>, aggSize: nat)
    requires 0 < |uids| && |Open(g)| > 0 && |Open(g)| + |uids| > aggSize
    requires forall i :: 0 <= i < |uids| ==> uids[i] != NOID
    ensures var out := g + [NOID] + uids;
            AllGroups(out) == Closed(g) + Joined(uids, Open(g), aggSize) && TailLen(out) == |uids|
  {
    GroupsAfter(g, NOID);
    PlainGroups(g + [NOID], uids);
    Assoc(Closed(g), [Open(g)], [uids]);
    assert [] + uids == uids;
  }

  /** The unfinished group after a merge is empty or is this long. */
  function OpenLength(own: nat, child: nat, aggSize: nat): nat {
    if own == 0 || child == 0 then own + child
    else if own + child > aggSize then own
    else if own + child == aggSize then 0
    else own + child
  }

  lemma ReattachGroups(g: Report, uids: seq<nat>, counters: seq<nat>, proof: bv32, aggSize: nat)
    requires TailLen(g.uids) < aggSize && 0 < |uids| < aggSize && forall i :: 0 <= i < |uids| ==> uids[i] != NOID
    requires !ReattachFaults(g, |uids|, aggSize)
    ensures var out, child := Reattach(g, uids, counters, proof, aggSize).uids, Open(g.uids);
            && AllGroups(out) == Closed(g.uids) + Joined(uids, child, aggSize)
            && TailLen(out) == OpenLength(|uids|, |child|, aggSize)
  {
    ReattachedIds(g, uids, counters, proof, aggSize);
    if |Open(g.uids)| + |uids| <= aggSize {
      JoinGroups(g.uids, uids, aggSize);
    } else {
      ApartGroups(g.uids, uids, aggSize);
    }
  }

  lemma ReattachedIds(g: Report, uids: seq<nat>, counters: seq<nat>, proof: bv32, aggSize: nat)
    requires TailLen(g.uids) < aggSize && !ReattachFaults(g, |uids|, aggSize)
    ensures Reattach(g, uids, counters, proof, aggSize).uids
            == if TailLen(g.uids) + |uids| <= aggSize then FixProofs(Report(g.uids + uids, [], [], 0, 0), aggSize).uids
               else g.uids + [NOID] + uids
  {
    SmallRemainder(TailLen(g.uids), aggSize);
  }

  /** A merge keeps all closed groups, and of two unfinished groups it makes one if they fit into one:
      the child's ids, then the own ones. The last group stays unfinished unless it is full. */
  lemma MergeGroups(r: Report, m: Report, aggSize: nat)
    requires aggSize > 0 && WellFormed(r, aggSize) && WellFormed(m, aggSize) && m.proofs != []
    ensures !MergeFaults(r, m.uids, m.counters, m.proofs, aggSize)
    ensures var out, own, child :=
              Merge(r, m.uids, m.counters, m.proofs, aggSize).uids, Open(r.uids), Open(m.uids);
            && AllGroups(out) == Closed(r.uids) + Closed(m.uids) + Joined(own, child, aggSize)
            && |Open(out)| == OpenLength(|own|, |child|, aggSize)
  {
    MergeLayout(r, m, aggSize);
    var a := |r.uids| - TailLen(r.uids);
    CutGroup(r.uids);
    GroupsBehind(r.uids[..a], m.uids);
    if TailLen(r.uids) == 0 {
      assert r.uids[..a] == r.uids;
      AppendedGroups(r.uids, m.uids, aggSize);
    } else {
      ReattachGroups(Append(Head(r), m.uids, m.counters, m.proofs), Open(r.uids), r.counters[a..],
                     r.proofs[|r.proofs| - 1], aggSize);
    }
  }

  lemma AppendedGroups(u: seq<nat>, v: seq<nat>, aggSize: nat)
    requires Open(u) == [] && Closed(u + v) == Closed(u) + Closed(v) && Open(u + v) == Open(v)
    ensures AllGroups(u + v) == Closed(u) + Closed(v) + Joined(Open(u), Open(v), aggSize)
    ensures |Open(u + v)| == OpenLength(|Open(u)|, |Open(v)|, aggSize)
  {
  }

  /** Counted, two unfinished groups become one exactly if they fit into one. */
  lemma MergeCounts(r: Report, m: Report, aggSize: nat)
    requires aggSize > 0 && WellFormed(r, aggSize) && WellFormed(m, aggSize) && m.proofs != []
    ensures !MergeFaults(r, m.uids, m.counters, m.proofs, aggSize)
    ensures Groups(Merge(r, m.uids, m.counters, m.proofs, aggSize).uids)
            == Groups(r.uids) + Groups(m.uids) - if Fit(Open(r.uids), Open(m.uids), aggSize) then 1 else 0
  {
    MergeGroups(r, m, aggSize);
    ClosedCount(r.uids);
    ClosedCount(m.uids);
    ClosedCount(Merge(r, m.uids, m.counters, m.proofs, aggSize).uids);
  }

  /** With one proof for each group, every group keeps its proof, and a joined one has the XOR of both. */
  lemma MergeProofs(r: Report, m: Report, aggSize: nat)
    requires aggSize > 0 && WellFormed(r, aggSize) && WellFormed(m, aggSize) && m.proofs != []
    requires OneEach(r) && OneEach(m)
    ensures !MergeFaults(r, m.uids, m.counters, m.proofs, aggSize)
    ensures var out := Merge(r, m.uids, m.counters, m.proofs, aggSize);
            && OneEach(out)
            && out.proofs == ClosedProofs(r) + ClosedProofs(m) +
                 if Fit(Open(r.uids), Open(m.uids), aggSize) then [OpenProof(m)[0] ^ OpenProof(r)[0]]
                 else OpenProof(m) + OpenProof(r)
  {
    MergeProofSlots(r, m, aggSize);
    if TailLen(r.uids) > 0 {
      OwnProof(r);
      OpenMergeProofs(r, m, aggSize);
      var mac := r.proofs[|r.proofs| - 1];
      if Fit(Open(r.uids), Open(m.uids), aggSize) {
        ProofJoined(ClosedProofs(r), m, mac);
      } else {
        ProofAdded(ClosedProofs(r), m, mac);
      }
    }
  }

  lemma OpenMergeProofs(r: Report, m: Report, aggSize: nat)
    requires aggSize > 0 && WellFormed(r, aggSize) && WellFormed(m, aggSize) && m.proofs != []
    requires TailLen(r.uids) > 0 && !MergeFaults(r, m.uids, m.counters, m.proofs, aggSize)
    ensures r.proofs != []
    ensures var mac, front := r.proofs[|r.proofs| - 1], r.proofs[..|r.proofs| - 1] + m.proofs;
            Merge(r, m.uids, m.counters, m.proofs, aggSize).proofs
            == if Fit(Open(r.uids), Open(m.uids), aggSize) then XorLast(front, mac) else front + [mac]
  {
    CutGroup(r.uids);
    GroupsBehind(Head(r).uids, m.uids);
    ReattachProofs(Append(Head(r), m.uids, m.counters, m.proofs), Open(r.uids),
                   r.counters[|r.uids| - TailLen(r.uids)..], r.proofs[|r.proofs| - 1], aggSize);
  }

  /** The proof of a report's unfinished group behind others, joined with one more. */
  lemma ProofJoined(front: seq<bv32>, m: Report, mac: bv32)
    requires OneEach(m) && TailLen(m.uids) > 0
    ensures OpenProof(m) != [] && XorLast(front + m.proofs, mac)
            == front + ClosedProofs(m) + [OpenProof(m)[0] ^ mac]
  {
    JoinedProof(front, m.proofs, Separators(m.uids), mac);
  }

  lemma ProofAdded(front: seq<bv32>, m: Report, mac: bv32)
    requires OneEach(m)
    ensures front + m.proofs + [mac] == front + ClosedProofs(m) + (OpenProof(m) + [mac])
  {
    SplitProofs(m.proofs, Separators(m.uids));
    AddedProof(front, ClosedProofs(m), OpenProof(m), mac);
  }

  lemma SplitProofs(b: seq<bv32>, n: nat)
    requires n <= |b|
    ensures b == b[..n] + b[n..]
  {
  }

  lemma JoinedProof(a: seq<bv32>, b: seq<bv32>, n: nat, mac: bv32)
    requires |b| == n + 1
    ensures XorLast(a + b, mac) == a + b[..n] + [b[n] ^ mac]
  {
    LastReplaced(a, b, n, b[n] ^ mac);
  }

  lemma LastReplaced<T>(a: seq<T>, b: seq<T>, n: nat, x: T)
    requires |b| == n + 1
    ensures (a + b)[|a + b| - 1] == b[n] && (a + b)[|a + b| - 1 := x] == a + b[..n] + [x]
  {
    var c := a + b;
    assert c[|c| - 1 := x] == c[..|c| - 1] + [x];
    assert c[..|c| - 1] == a + b[..n];
  }

  lemma AddedProof(a: seq<bv32>, b: seq<bv32>, c: seq<bv32>, mac: bv32)
    ensures a + (b + c) + [mac] == a + b + (c + [mac])
  {
  }

  lemma OwnProof(r: Report)
    requires OneEach(r) && TailLen(r.uids) > 0
    ensures ClosedProofs(r) == r.proofs[..|r.proofs| - 1] && OpenProof(r) == [r.proofs[|r.proofs| - 1]]
  {
  }

  lemma ReattachProofs(g: Report, uids: seq<nat>, counters: seq<nat>, proof: bv32, aggSize: nat)
    requires TailLen(g.uids) < aggSize && 0 < |uids| < aggSize && g.proofs != []
    requires !ReattachFaults(g, |uids|, aggSize)
    ensures Reattach(g, uids, counters, proof, aggSize).proofs
            == if Fit(uids, Open(g.uids), aggSize) then XorLast(g.proofs, proof) else g.proofs + [proof]
  {
    SmallRemainder(TailLen(g.uids), aggSize);
  }

  // ---------------------------------------------------------------- the own report

  /** The own id goes to the unfinished group, or begins one, which is closed when it is full. */
  lemma AddOwnGroups(r: Report, uid: nat, counter: nat, aggSize: nat)
    requires aggSize > 0 && uid != NOID && WellFormed(r, aggSize)
    ensures !AddOwnFaults(r, aggSize)
    ensures var out := AddOwn(r, uid, counter, aggSize).uids;
            && AllGroups(out) == Closed(r.uids) + [Open(r.uids) + [uid]]
            && |Open(out)| == if |Open(r.uids)| + 1 == aggSize then 0 else |Open(r.uids)| + 1
  {
    AddOwnLayout(r, uid, counter, aggSize);
    GroupsAfter(r.uids, uid);
    FixGroups(Report(r.uids + [uid], [], [], 0, 0), aggSize);
  }

  /** If the own id finds the slot of its group, a new group has its proof behind the others, and
      otherwise the last one is XORed, the proof of an own record being zero. */
  lemma AddOwnProofs(r: Report, uid: nat, counter: nat, aggSize: nat)
    requires aggSize > 0 && uid != NOID && WellFormed(r, aggSize) && OneEach(r) && SlotFits(r, aggSize)
    ensures !AddOwnFaults(r, aggSize)
    ensures var out := AddOwn(r, uid, counter, aggSize);
            OneEach(out) && out.proofs == if Open(r.uids) == [] then r.proofs + [0] else r.proofs
  {
    AddOwnProofSlot(r, uid, counter, aggSize);
    if Open(r.uids) != [] { XorZero(r.proofs); }
  }

  lemma XorZero(proofs: seq<bv32>)
    requires proofs != []
    ensures XorLast(proofs, 0) == proofs
  {
  }
}
