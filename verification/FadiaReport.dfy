/** Aggregated reports: the parallel vectors a prover merges on its way up the tree.
    A report is a list of device ids cut into groups by NOID separators; every
    closed group stands for one finished proof aggregate of at most aggSize ids. */
module FadiaReport {
  import opened WordBits

  const NOID: nat := 0

  /** The report_t record: ids and attestation counters in lockstep, the XOR-ed
      proofs, and the two running counts. */
  datatype Report = Report(uids: seq<nat>, counters: seq<nat>, proofs: seq<bv32>, size: int, sepsize: int)

  const EMPTY_REPORT := Report([], [], [], 0, 0)

  lemma SmallRemainder(n: nat, d: nat)
    requires n < d
    ensures n % d == n
  {
    DivUnique(n, d, 0, n);
  }

  /** Number of ids behind the last separator (the unfinished group). */
  function TailLen(uids: seq<nat>): (n: nat)
    ensures n <= |uids|
  {
    if |uids| == 0 || uids[|uids| - 1] == NOID then 0 else 1 + TailLen(uids[..|uids| - 1])
  }

  /** Number of separators in a list. */
  function Separators(uids: seq<nat>): (n: nat)
    ensures n <= |uids|
  {
    if |uids| == 0 then 0
    else (if uids[0] == NOID then 1 else 0) + Separators(uids[1..])
  }

  /** The record one slot contributes: a separator contributes none. */
  function One(uid: nat, counter: nat): multiset<(nat, nat)> {
    if uid == NOID then multiset{} else multiset{(uid, counter)}
  }

  /** The (id, counter) records of two parallel vectors, separators left out. */
  function Records(uids: seq<nat>, counters: seq<nat>): multiset<(nat, nat)>
    requires |uids| == |counters|
  {
    if |uids| == 0 then multiset{}
    else One(uids[0], counters[0]) + Records(uids[1..], counters[1..])
  }

  /** Separators carry counter 0, and nothing else has the separator id. */
  ghost predicate Lockstep(uids: seq<nat>, counters: seq<nat>) {
    && |uids| == |counters|
    && forall i :: 0 <= i < |uids| && uids[i] == NOID ==> counters[i] == 0
  }

  /** Every closed group has 1..aggSize ids and the open one fewer than aggSize. */
  ghost predicate WellGrouped(uids: seq<nat>, aggSize: nat) {
    && TailLen(uids) < aggSize
    && forall i :: 0 <= i < |uids| && uids[i] == NOID ==> 1 <= TailLen(uids[..i]) <= aggSize
  }

  ghost predicate WellFormed(r: Report, aggSize: nat) {
    && Lockstep(r.uids, r.counters)
    && WellGrouped(r.uids, aggSize)
    && (r.uids != [] ==> r.proofs != [])
  }

  /** size and sepsize count the ids and separators added since some starting values. */
  ghost predicate Counted(r: Report, size0: int, sep0: int) {
    && r.size == size0 + |r.uids| - Separators(r.uids)
    && r.sepsize == sep0 + Separators(r.uids)
  }

  /** fixProofs: close the open group when it is full. */
  function FixProofs(r: Report, aggSize: nat): Report {
    if TailLen(r.uids) == aggSize
    then r.(uids := r.uids + [NOID], counters := r.counters + [0], sepsize := r.sepsize + 1)
    else r
  }

  /** proofs.back() ^= mac, on a non-empty vector. */
  function XorLast(proofs: seq<bv32>, mac: bv32): (out: seq<bv32>)
    requires proofs != []
    ensures |out| == |proofs|
  {
    proofs[|proofs| - 1 := proofs[|proofs| - 1] ^ mac]
  }

  /** addOwnReport reads proofs.back() on this path although the vector is empty. */
  predicate AddOwnFaults(r: Report, aggSize: nat)
    requires aggSize > 0
  {
    |r.uids| % aggSize != 0 && r.proofs == []
  }

  /** addOwnReport. The proof slot is chosen from the length of the id vector, separators included. */
  function AddOwn(r: Report, uid: nat, counter: nat, aggSize: nat): Report
    requires aggSize > 0
    requires !AddOwnFaults(r, aggSize)
  {
    var proofs := if |r.uids| % aggSize == 0 then r.proofs + [0] else XorLast(r.proofs, 0);
    FixProofs(Report(r.uids + [uid], r.counters + [counter], proofs, r.size + 1, r.sepsize), aggSize)
  }

  /** The report without its open group and that group's proof. */
  function Head(r: Report): Report
    requires |r.uids| == |r.counters| && r.proofs != []
  {
    var t := TailLen(r.uids);
    Report(r.uids[..|r.uids| - t], r.counters[..|r.uids| - t], r.proofs[..|r.proofs| - 1], r.size - t, r.sepsize)
  }

  /** Another report's vectors appended, its ids and separators counted. */
  function Append(r: Report, uids: seq<nat>, counters: seq<nat>, proofs: seq<bv32>): Report {
    Report(r.uids + uids, r.counters + counters, r.proofs + proofs,
           r.size + |uids| - Separators(uids), r.sepsize + Separators(uids))
  }

  /** Reattaching a group of n ids xors its proof into the last one of an empty vector. */
  predicate ReattachFaults(g: Report, n: nat, aggSize: nat)
    requires aggSize > 0
  {
    var rem := TailLen(g.uids) % aggSize;
    0 < rem && rem + n <= aggSize && g.proofs == []
  }

  /** Put an open group back: join it to the open group of g if it fits, else close that one first. */
  function Reattach(g: Report, uids: seq<nat>, counters: seq<nat>, proof: bv32, aggSize: nat): Report
    requires aggSize > 0 && !ReattachFaults(g, |uids|, aggSize)
  {
    var rem := TailLen(g.uids) % aggSize;
    if rem + |uids| <= aggSize then
      FixProofs(Report(g.uids + uids, g.counters + counters,
                       if rem > 0 then XorLast(g.proofs, proof) else g.proofs + [proof],
                       g.size + |uids|, g.sepsize), aggSize)
    else
      Report(g.uids + [NOID] + uids, g.counters + [0] + counters, g.proofs + [proof],
             g.size + |uids|, g.sepsize + 1)
  }

  /** The merge pops or xors the last proof of an empty vector. */
  predicate MergeFaults(r: Report, uids: seq<nat>, counters: seq<nat>, proofs: seq<bv32>, aggSize: nat)
    requires aggSize > 0 && |r.uids| == |r.counters|
  {
    && TailLen(r.uids) > 0
    && (r.proofs == [] || ReattachFaults(Append(Head(r), uids, counters, proofs), TailLen(r.uids), aggSize))
  }

  /** The merge of handleUpReq: set the open group aside, append the child's vectors,
      then put the open group back. */
  function Merge(r: Report, uids: seq<nat>, counters: seq<nat>, proofs: seq<bv32>, aggSize: nat): Report
    requires aggSize > 0
    requires |r.uids| == |r.counters|
    requires !MergeFaults(r, uids, counters, proofs, aggSize)
  {
    var a := |r.uids| - TailLen(r.uids);
    if TailLen(r.uids) == 0 then Append(r, uids, counters, proofs)
    else Reattach(Append(Head(r), uids, counters, proofs), r.uids[a..], r.counters[a..],
                  r.proofs[|r.proofs| - 1], aggSize)
  }

  // ---------------------------------------------------------------- tails

  lemma {:induction false} TailLenOfConcat(a: seq<nat>, b: seq<nat>)
    ensures TailLen(a + b) == if TailLen(b) < |b| then TailLen(b) else TailLen(a) + |b|
  {
    if b == [] {
      assert a + b == a;
    } else {
      var k := |b| - 1;
      assert (a + b)[..|a + b| - 1] == a + b[..k];
      TailLenOfConcat(a, b[..k]);
    }
  }

  /** The tail is a suffix without separators, and what precedes it has no tail. */
  lemma {:induction false} TailIsPlain(u: seq<nat>)
    ensures forall i :: |u| - TailLen(u) <= i < |u| ==> u[i] != NOID
    ensures TailLen(u[..|u| - TailLen(u)]) == 0
  {
    if TailLen(u) == 0 {
      assert u[..|u|] == u;
    } else {
      var v := u[..|u| - 1];
      TailIsPlain(v);
      assert u[..|u| - TailLen(u)] == v[..|v| - TailLen(v)];
    }
  }

  lemma {:induction false} PlainTail(u: seq<nat>)
    requires forall i :: 0 <= i < |u| ==> u[i] != NOID
    ensures TailLen(u) == |u|
  {
    if u != [] {
      PlainTail(u[..|u| - 1]);
    }
  }

  lemma WellGroupedPrefix(u: seq<nat>, n: nat, aggSize: nat)
    requires n <= |u| && WellGrouped(u, aggSize) && TailLen(u[..n]) == 0
    ensures WellGrouped(u[..n], aggSize)
  {
    forall i | 0 <= i < n && u[..n][i] == NOID
      ensures 1 <= TailLen(u[..n][..i]) <= aggSize
    {
      assert u[..n][..i] == u[..i];
    }
  }

  lemma WellGroupedConcat(a: seq<nat>, b: seq<nat>, aggSize: nat)
    requires WellGrouped(a, aggSize) && TailLen(a) == 0
    requires WellGrouped(b, aggSize)
    ensures WellGrouped(a + b, aggSize)
    ensures TailLen(a + b) == TailLen(b)
  {
    TailLenOfConcat(a, b);
    forall i | 0 <= i < |a + b| && (a + b)[i] == NOID
      ensures 1 <= TailLen((a + b)[..i]) <= aggSize
    {
      if i < |a| {
        assert (a + b)[..i] == a[..i];
      } else {
        assert (a + b)[..i] == a + b[..i - |a|];
        TailLenOfConcat(a, b[..i - |a|]);
      }
    }
  }

  /** Appending plain ids that leave the group no fuller than aggSize, then closing it if full. */
  lemma WellGroupedExtend(a: seq<nat>, plain: seq<nat>, aggSize: nat)
    requires WellGrouped(a, aggSize)
    requires forall i :: 0 <= i < |plain| ==> plain[i] != NOID
    requires 0 < TailLen(a) + |plain| <= aggSize
    ensures TailLen(a + plain) == TailLen(a) + |plain|
    ensures if TailLen(a + plain) == aggSize then WellGrouped(a + plain + [NOID], aggSize)
            else WellGrouped(a + plain, aggSize)
  {
    PlainTail(plain);
    TailLenOfConcat(a, plain);
    var u := a + plain;
    forall i | 0 <= i < |u| && u[i] == NOID
      ensures 1 <= TailLen(u[..i]) <= aggSize
    {
      assert u[..i] == a[..i];
    }
    var v := u + [NOID];
    forall i | 0 <= i < |v| && v[i] == NOID
      ensures 1 <= TailLen(v[..i]) <= aggSize
    {
      assert v[..i] == u[..i];
      assert i == |u| ==> u[..i] == u;
    }
  }

  // ---------------------------------------------------------------- records

  lemma {:induction false} RecordsConcat(u1: seq<nat>, c1: seq<nat>, u2: seq<nat>, c2: seq<nat>)
    requires |u1| == |c1| && |u2| == |c2|
    ensures Records(u1 + u2, c1 + c2) == Records(u1, c1) + Records(u2, c2)
    ensures Separators(u1 + u2) == Separators(u1) + Separators(u2)
  {
    if u1 == [] {
      assert u1 + u2 == u2 && c1 + c2 == c2;
    } else {
      assert (u1 + u2)[1..] == u1[1..] + u2 && (c1 + c2)[1..] == c1[1..] + c2;
      RecordsConcat(u1[1..], c1[1..], u2, c2);
    }
  }

  lemma AppendRecord(u: seq<nat>, c: seq<nat>, uid: nat, counter: nat)
    requires |u| == |c|
    ensures Records(u + [uid], c + [counter]) == Records(u, c) + One(uid, counter)
    ensures Separators(u + [uid]) == Separators(u) + if uid == NOID then 1 else 0
  {
    RecordsConcat(u, c, [uid], [counter]);
    assert Records([uid], [counter]) == One(uid, counter);
  }

  lemma {:induction false} SeparatorsAppend(u: seq<nat>, uid: nat)
    ensures Separators(u + [uid]) == Separators(u) + if uid == NOID then 1 else 0
  {
    if u != [] {
      assert (u + [uid])[1..] == u[1..] + [uid];
      SeparatorsAppend(u[1..], uid);
    }
  }

  lemma {:induction false} PlainHasNoSeparator(u: seq<nat>)
    requires forall i :: 0 <= i < |u| ==> u[i] != NOID
    ensures Separators(u) == 0
  {
    if u != [] {
      PlainHasNoSeparator(u[1..]);
    }
  }

  // ---------------------------------------------------------------- addOwnReport

  lemma FixLayout(r: Report, aggSize: nat)
    requires Lockstep(r.uids, r.counters) && r.proofs != []
    requires if TailLen(r.uids) == aggSize then WellGrouped(r.uids + [NOID], aggSize) else WellGrouped(r.uids, aggSize)
    ensures WellFormed(FixProofs(r, aggSize), aggSize) && FixProofs(r, aggSize).proofs != []
  {
  }

  lemma AddOwnLayout(r: Report, uid: nat, counter: nat, aggSize: nat)
    requires aggSize > 0 && uid != NOID && WellFormed(r, aggSize)
    ensures !AddOwnFaults(r, aggSize)
    ensures var r' := AddOwn(r, uid, counter, aggSize);
            WellFormed(r', aggSize) && r'.uids != [] && r'.proofs != []
  {
    SmallRemainder(0, aggSize);
    var proofs := if |r.uids| % aggSize == 0 then r.proofs + [0] else XorLast(r.proofs, 0);
    JoinLayout(r, [uid], [counter], proofs, aggSize);
  }

  /** Ids that fit into the open group are put there. */
  lemma JoinLayout(r: Report, uids: seq<nat>, counters: seq<nat>, proofs: seq<bv32>, aggSize: nat)
    requires Lockstep(r.uids, r.counters) && WellGrouped(r.uids, aggSize) && |proofs| > 0
    requires |uids| == |counters| && 0 < TailLen(r.uids) + |uids| <= aggSize
    requires forall i :: 0 <= i < |uids| ==> uids[i] != NOID
    ensures var r1 := Report(r.uids + uids, r.counters + counters, proofs, r.size + |uids|, r.sepsize);
            var r' := FixProofs(r1, aggSize);
            WellFormed(r', aggSize) && r'.proofs != [] && (uids != [] ==> r'.uids != [])
  {
    WellGroupedExtend(r.uids, uids, aggSize);
    FixLayout(Report(r.uids + uids, r.counters + counters, proofs, r.size + |uids|, r.sepsize), aggSize);
  }

  /** Others begin a new group behind a separator. */
  lemma ApartLayout(r: Report, uids: seq<nat>, counters: seq<nat>, proofs: seq<bv32>, aggSize: nat)
    requires Lockstep(r.uids, r.counters) && WellGrouped(r.uids, aggSize) && TailLen(r.uids) > 0 && |proofs| > 0
    requires |uids| == |counters| && 0 < |uids| < aggSize
    requires forall i :: 0 <= i < |uids| ==> uids[i] != NOID
    ensures var us, cs := r.uids + [NOID] + uids, r.counters + [0] + counters;
            WellFormed(Report(us, cs, proofs, r.size + |uids|, r.sepsize + 1), aggSize)
  {
    WellGroupedExtendClosed(r.uids, aggSize);
    WellGroupedExtend(r.uids + [NOID], uids, aggSize);
  }

  lemma AddOwnRecords(r: Report, uid: nat, counter: nat, aggSize: nat, size0: int, sep0: int)
    requires aggSize > 0 && uid != NOID && |r.uids| == |r.counters| && Counted(r, size0, sep0)
    requires !AddOwnFaults(r, aggSize)
    ensures var r' := AddOwn(r, uid, counter, aggSize);
            && |r'.uids| == |r'.counters| && Counted(r', size0, sep0)
            && Records(r'.uids, r'.counters) == Records(r.uids, r.counters) + multiset{(uid, counter)}
  {
    AppendRecord(r.uids, r.counters, uid, counter);
    AppendRecord(r.uids + [uid], r.counters + [counter], NOID, 0);
  }

  /** Adding the own report keeps the layout and adds exactly the one record. */
  lemma AddOwnCorrect(r: Report, uid: nat, counter: nat, aggSize: nat, size0: int, sep0: int)
    requires aggSize > 0 && uid != NOID && WellFormed(r, aggSize) && Counted(r, size0, sep0)
    ensures !AddOwnFaults(r, aggSize)
    ensures var r' := AddOwn(r, uid, counter, aggSize);
            && WellFormed(r', aggSize) && r'.uids != [] && r'.proofs != []
            && Counted(r', size0, sep0)
            && Records(r'.uids, r'.counters) == Records(r.uids, r.counters) + multiset{(uid, counter)}
  {
    AddOwnLayout(r, uid, counter, aggSize);
    AddOwnRecords(r, uid, counter, aggSize, size0, sep0);
  }

  // ---------------------------------------------------------------- merge

  /** The two pieces a merge cuts the own report into. */
  lemma CutTail(r: Report, aggSize: nat)
    requires Lockstep(r.uids, r.counters) && WellGrouped(r.uids, aggSize) && r.proofs != []
    ensures var a := |r.uids| - TailLen(r.uids);
            && WellGrouped(Head(r).uids, aggSize) && TailLen(Head(r).uids) == 0
            && Lockstep(Head(r).uids, Head(r).counters)
            && (forall i :: 0 <= i < |r.uids[a..]| ==> r.uids[a..][i] != NOID)
  {
    CutGroups(r.uids, |r.uids| - TailLen(r.uids), aggSize);
  }

  lemma CutGroups(u: seq<nat>, a: nat, aggSize: nat)
    requires WellGrouped(u, aggSize) && a == |u| - TailLen(u)
    ensures WellGrouped(u[..a], aggSize) && TailLen(u[..a]) == 0
    ensures forall i :: 0 <= i < |u[a..]| ==> u[a..][i] != NOID
  {
    TailIsPlain(u);
    WellGroupedPrefix(u, a, aggSize);
  }

  lemma CutRecords(r: Report, size0: int, sep0: int)
    requires |r.uids| == |r.counters| && r.proofs != [] && Counted(r, size0, sep0)
    ensures var a := |r.uids| - TailLen(r.uids);
            && Records(r.uids, r.counters)
               == Records(Head(r).uids, Head(r).counters) + Records(r.uids[a..], r.counters[a..])
            && Counted(Head(r), size0, sep0)
  {
    var a := |r.uids| - TailLen(r.uids);
    TailIsPlain(r.uids);
    CutAt(r.uids, r.counters, a);
  }

  lemma CutAt(u: seq<nat>, c: seq<nat>, a: nat)
    requires |u| == |c| && a <= |u| && forall i :: a <= i < |u| ==> u[i] != NOID
    ensures Records(u, c) == Records(u[..a], c[..a]) + Records(u[a..], c[a..]) && Separators(u[..a]) == Separators(u)
  {
    var hu, hc, tu, tc := u[..a], c[..a], u[a..], c[a..];
    assert u == hu + tu && c == hc + tc;
    PlainJoined(hu, hc, tu, tc);
  }

  lemma PlainJoined(hu: seq<nat>, hc: seq<nat>, tu: seq<nat>, tc: seq<nat>)
    requires |hu| == |hc| && |tu| == |tc| && forall i :: 0 <= i < |tu| ==> tu[i] != NOID
    ensures Records(hu + tu, hc + tc) == Records(hu, hc) + Records(tu, tc) && Separators(hu + tu) == Separators(hu)
  {
    RecordsConcat(hu, hc, tu, tc);
    PlainHasNoSeparator(tu);
  }

  lemma AppendRecords(r: Report, m: Report, size0: int, sep0: int)
    requires |r.uids| == |r.counters| && |m.uids| == |m.counters| && Counted(r, size0, sep0)
    ensures var r' := Append(r, m.uids, m.counters, m.proofs);
            && |r'.uids| == |r'.counters| && Counted(r', size0, sep0)
            && Records(r'.uids, r'.counters) == Records(r.uids, r.counters) + Records(m.uids, m.counters)
  {
    RecordsConcat(r.uids, r.counters, m.uids, m.counters);
  }

  lemma ReattachLayout(g: Report, uids: seq<nat>, counters: seq<nat>, proof: bv32, aggSize: nat)
    requires aggSize > 0 && Lockstep(g.uids, g.counters) && WellGrouped(g.uids, aggSize)
    requires |uids| == |counters| && 0 < |uids| < aggSize && g.proofs != []
    requires forall i :: 0 <= i < |uids| ==> uids[i] != NOID
    ensures !ReattachFaults(g, |uids|, aggSize)
    ensures var r := Reattach(g, uids, counters, proof, aggSize);
            WellFormed(r, aggSize) && r.proofs != []
  {
    var rem := TailLen(g.uids);
    SmallRemainder(rem, aggSize);
    if rem + |uids| <= aggSize {
      JoinLayout(g, uids, counters, if rem > 0 then XorLast(g.proofs, proof) else g.proofs + [proof], aggSize);
    } else {
      ApartLayout(g, uids, counters, g.proofs + [proof], aggSize);
    }
  }

  /** Closing a full group changes no record and counts its separator. */
  lemma FixRecords(r: Report, aggSize: nat, size0: int, sep0: int)
    requires |r.uids| == |r.counters| && Counted(r, size0, sep0)
    ensures var r' := FixProofs(r, aggSize);
            && |r'.uids| == |r'.counters| && Counted(r', size0, sep0)
            && Records(r'.uids, r'.counters) == Records(r.uids, r.counters)
  {
    AppendRecord(r.uids, r.counters, NOID, 0);
  }

  lemma ReattachRecords(g: Report, uids: seq<nat>, counters: seq<nat>, proof: bv32, aggSize: nat, size0: int, sep0: int)
    requires aggSize > 0 && |g.uids| == |g.counters| && |uids| == |counters| && Counted(g, size0, sep0)
    requires Separators(uids) == 0
    requires !ReattachFaults(g, |uids|, aggSize)
    ensures var r := Reattach(g, uids, counters, proof, aggSize);
            && |r.uids| == |r.counters| && Counted(r, size0, sep0)
            && Records(r.uids, r.counters) == Records(g.uids, g.counters) + Records(uids, counters)
  {
    var rem := TailLen(g.uids) % aggSize;
    if rem + |uids| <= aggSize {
      RecordsConcat(g.uids, g.counters, uids, counters);
      FixRecords(Report(g.uids + uids, g.counters + counters, if rem > 0 then XorLast(g.proofs, proof)
          else g.proofs + [proof],
                        g.size + |uids|, g.sepsize), aggSize, size0, sep0);
    } else {
      ClosedRecords(g.uids, g.counters, uids, counters);
    }
  }

  lemma ClosedRecords(u: seq<nat>, c: seq<nat>, uids: seq<nat>, counters: seq<nat>)
    requires |u| == |c| && |uids| == |counters|
    ensures Records(u + [NOID] + uids, c + [0] + counters) == Records(u, c) + Records(uids, counters)
    ensures Separators(u + [NOID] + uids) == Separators(u) + 1 + Separators(uids)
  {
    AppendRecord(u, c, NOID, 0);
    RecordsConcat(u + [NOID], c + [0], uids, counters);
  }

  lemma AppendLayout(r: Report, m: Report, aggSize: nat)
    requires Lockstep(r.uids, r.counters) && WellGrouped(r.uids, aggSize) && TailLen(r.uids) == 0
    requires WellFormed(m, aggSize) && m.proofs != []
    ensures WellFormed(Append(r, m.uids, m.counters, m.proofs), aggSize)
    ensures Append(r, m.uids, m.counters, m.proofs).proofs != []
  {
    WellGroupedConcat(r.uids, m.uids, aggSize);
    assert |r.proofs + m.proofs| > 0;
  }

  lemma MergeLayout(r: Report, m: Report, aggSize: nat)
    requires aggSize > 0 && WellFormed(r, aggSize)
    requires WellFormed(m, aggSize) && m.proofs != []
    ensures !MergeFaults(r, m.uids, m.counters, m.proofs, aggSize)
    ensures var r' := Merge(r, m.uids, m.counters, m.proofs, aggSize);
            WellFormed(r', aggSize) && r'.proofs != []
  {
    if TailLen(r.uids) == 0 {
      AppendLayout(r, m, aggSize);
    } else {
      var a := |r.uids| - TailLen(r.uids);
      CutTail(r, aggSize);
      TailIsPlain(r.uids);
      AppendLayout(Head(r), m, aggSize);
      ReattachLayout(Append(Head(r), m.uids, m.counters, m.proofs), r.uids[a..], r.counters[a..],
                     r.proofs[|r.proofs| - 1], aggSize);
    }
  }

  lemma MergeRecords(r: Report, m: Report, aggSize: nat, size0: int, sep0: int)
    requires aggSize > 0 && |r.uids| == |r.counters| && |m.uids| == |m.counters| && Counted(r, size0, sep0)
    requires !MergeFaults(r, m.uids, m.counters, m.proofs, aggSize)
    ensures var r' := Merge(r, m.uids, m.counters, m.proofs, aggSize);
            && |r'.uids| == |r'.counters| && Counted(r', size0, sep0)
            && Records(r'.uids, r'.counters) == Records(r.uids, r.counters) + Records(m.uids, m.counters)
  {
    if TailLen(r.uids) == 0 {
      AppendRecords(r, m, size0, sep0);
    } else {
      var a := |r.uids| - TailLen(r.uids);
      TailIsPlain(r.uids);
      PlainHasNoSeparator(r.uids[a..]);
      CutRecords(r, size0, sep0);
      AppendRecords(Head(r), m, size0, sep0);
      ReattachRecords(Append(Head(r), m.uids, m.counters, m.proofs), r.uids[a..], r.counters[a..],
                      r.proofs[|r.proofs| - 1], aggSize, size0, sep0);
    }
  }

  /** Merging keeps the layout and moves every record of the child, exactly once,
      into the own report: nothing is lost, duplicated or re-paired with another counter. */
  lemma MergeCorrect(r: Report, m: Report, aggSize: nat, size0: int, sep0: int)
    requires aggSize > 0 && WellFormed(r, aggSize) && Counted(r, size0, sep0)
    requires WellFormed(m, aggSize) && m.proofs != []
    ensures !MergeFaults(r, m.uids, m.counters, m.proofs, aggSize)
    ensures var r' := Merge(r, m.uids, m.counters, m.proofs, aggSize);
            && WellFormed(r', aggSize) && r'.proofs != []
            && Counted(r', size0, sep0)
            && Records(r'.uids, r'.counters) == Records(r.uids, r.counters) + Records(m.uids, m.counters)
  {
    MergeLayout(r, m, aggSize);
    MergeRecords(r, m, aggSize, size0, sep0);
  }

  /** A non-empty open group may be closed early. */
  lemma WellGroupedExtendClosed(u: seq<nat>, aggSize: nat)
    requires WellGrouped(u, aggSize) && TailLen(u) > 0
    ensures WellGrouped(u + [NOID], aggSize) && TailLen(u + [NOID]) == 0
  {
    var v := u + [NOID];
    forall i | 0 <= i < |v| && v[i] == NOID
      ensures 1 <= TailLen(v[..i]) <= aggSize
    {
      assert v[..i] == u[..i];
      assert i == |u| ==> u[..i] == u;
    }
  }

  // ---------------------------------------------------------------- whole rounds of merging

  /** All child reports merged in order, starting from r. */
  function MergeAll(r: Report, ms: seq<Report>, aggSize: nat): (out: Report)
    requires aggSize > 0 && WellFormed(r, aggSize)
    requires forall i :: 0 <= i < |ms| ==> WellFormed(ms[i], aggSize) && ms[i].proofs != []
    ensures WellFormed(out, aggSize)
    decreases |ms|
  {
    if ms == [] then r
    else
      MergeCorrect(r, ms[0], aggSize, r.size - |r.uids| + Separators(r.uids), r.sepsize - Separators(r.uids));
      MergeAll(Merge(r, ms[0].uids, ms[0].counters, ms[0].proofs, aggSize), ms[1..], aggSize)
  }

  ghost function AllRecords(ms: seq<Report>): multiset<(nat, nat)>
    requires forall i :: 0 <= i < |ms| ==> |ms[i].uids| == |ms[i].counters|
  {
    if ms == [] then multiset{} else Records(ms[0].uids, ms[0].counters) + AllRecords(ms[1..])
  }

  /** Over any sequence of merges followed by the own record, the report that goes up the
      tree holds exactly the children's records and the own one, in well-formed groups,
      with exact counts. */
  lemma ReportOfRound(r: Report, ms: seq<Report>, uid: nat, counter: nat, aggSize: nat, size0: int, sep0: int)
    requires aggSize > 0 && uid != NOID && WellFormed(r, aggSize) && Counted(r, size0, sep0)
    requires forall i :: 0 <= i < |ms| ==> WellFormed(ms[i], aggSize) && ms[i].proofs != []
    ensures !AddOwnFaults(MergeAll(r, ms, aggSize), aggSize)
    ensures var out := AddOwn(MergeAll(r, ms, aggSize), uid, counter, aggSize);
            && WellFormed(out, aggSize) && Counted(out, size0, sep0)
            && Records(out.uids, out.counters)
               == Records(r.uids, r.counters) + AllRecords(ms) + multiset{(uid, counter)}
  {
    MergeAllCorrect(r, ms, aggSize, size0, sep0);
    AddOwnCorrect(MergeAll(r, ms, aggSize), uid, counter, aggSize, size0, sep0);
  }

  lemma {:induction false} MergeAllCorrect(r: Report, ms: seq<Report>, aggSize: nat, size0: int, sep0: int)
    requires aggSize > 0 && WellFormed(r, aggSize) && Counted(r, size0, sep0)
    requires forall i :: 0 <= i < |ms| ==> WellFormed(ms[i], aggSize) && ms[i].proofs != []
    ensures Counted(MergeAll(r, ms, aggSize), size0, sep0)
    ensures Records(MergeAll(r, ms, aggSize).uids, MergeAll(r, ms, aggSize).counters)
            == Records(r.uids, r.counters) + AllRecords(ms)
    decreases |ms|
  {
    if ms != [] {
      MergeCorrect(r, ms[0], aggSize, size0, sep0);
      MergeAllCorrect(Merge(r, ms[0].uids, ms[0].counters, ms[0].proofs, aggSize), ms[1..], aggSize, size0, sep0);
    }
  }

  // ---------------------------------------------------------------- one proof per group?

  /** Groups of a report, the open one included. */
  function Groups(uids: seq<nat>): nat {
    Separators(uids) + if TailLen(uids) > 0 then 1 else 0
  }

  lemma GroupsAfterId(u: seq<nat>, c: seq<nat>, uid: nat, counter: nat)
    requires |u| == |c| && uid != NOID
    ensures Groups(u + [uid]) == Groups(u) + if TailLen(u) == 0 then 1 else 0
    ensures TailLen(u + [uid]) > 0
  {
    AppendRecord(u, c, uid, counter);
    TailLenOfConcat(u, [uid]);
    PlainTail([uid]);
  }

  lemma GroupsAfterClose(u: seq<nat>, c: seq<nat>)
    requires |u| == |c| && TailLen(u) > 0
    ensures Groups(u + [NOID]) == Groups(u)
  {
    AppendRecord(u, c, NOID, 0);
  }

  /** One proof for each group. */
  predicate OneEach(r: Report) { |r.proofs| == Groups(r.uids) }

  lemma {:induction false} SeparatorsConcat(u: seq<nat>, v: seq<nat>)
    ensures Separators(u + v) == Separators(u) + Separators(v)
  {
    if u == [] {
      assert u + v == v;
    } else {
      assert (u + v)[1..] == u[1..] + v;
      SeparatorsConcat(u[1..], v);
    }
  }

  /** Behind closed groups the groups of another list follow. */
  lemma GroupsConcat(u: seq<nat>, v: seq<nat>)
    requires TailLen(u) == 0
    ensures Groups(u + v) == Groups(u) + Groups(v)
  {
    SeparatorsConcat(u, v);
    TailLenOfConcat(u, v);
  }

  /** Plain ids join the open group, or begin one. */
  lemma GroupsJoined(u: seq<nat>, v: seq<nat>)
    requires v != [] && forall i :: 0 <= i < |v| ==> v[i] != NOID
    ensures Groups(u + v) == Groups(u) + (if TailLen(u) == 0 then 1 else 0) && TailLen(u + v) > 0
  {
    SeparatorsConcat(u, v);
    PlainHasNoSeparator(v);
    TailLenOfConcat(u, v);
    PlainTail(v);
  }

  /** Setting the open group aside takes its proof with it. */
  lemma HeadOneEach(r: Report)
    requires |r.uids| == |r.counters| && OneEach(r) && TailLen(r.uids) > 0
    ensures r.proofs != [] && OneEach(Head(r)) && TailLen(Head(r).uids) == 0
  {
    var a := |r.uids| - TailLen(r.uids);
    TailIsPlain(r.uids);
    SeparatorsConcat(r.uids[..a], r.uids[a..]);
    PlainHasNoSeparator(r.uids[a..]);
    assert r.uids == r.uids[..a] + r.uids[a..];
  }

  lemma ReattachOneEach(g: Report, uids: seq<nat>, counters: seq<nat>, proof: bv32, aggSize: nat)
    requires TailLen(g.uids) < aggSize && OneEach(g) && |g.uids| == |g.counters| && |uids| == |counters|
    requires 0 < |uids| < aggSize && forall i :: 0 <= i < |uids| ==> uids[i] != NOID
    ensures !ReattachFaults(g, |uids|, aggSize) && OneEach(Reattach(g, uids, counters, proof, aggSize))
  {
    SmallRemainder(TailLen(g.uids), aggSize);
    GroupsJoined(g.uids, uids);
    GroupsAfterClose(g.uids + uids, g.counters + counters);
    if TailLen(g.uids) > 0 {
      GroupsAfterClose(g.uids, g.counters);
      GroupsJoined(g.uids + [NOID], uids);
      TailLenOfConcat(g.uids, [NOID]);
    }
  }

  /** Merging a child's report keeps one proof for each group. */
  lemma MergeProofSlots(r: Report, m: Report, aggSize: nat)
    requires aggSize > 0 && WellFormed(r, aggSize) && WellFormed(m, aggSize) && m.proofs != []
    requires OneEach(r) && OneEach(m)
    ensures !MergeFaults(r, m.uids, m.counters, m.proofs, aggSize)
    ensures OneEach(Merge(r, m.uids, m.counters, m.proofs, aggSize))
  {
    if TailLen(r.uids) == 0 {
      GroupsConcat(r.uids, m.uids);
    } else {
      var a := |r.uids| - TailLen(r.uids);
      HeadOneEach(r);
      GroupsConcat(Head(r).uids, m.uids);
      TailLenOfConcat(Head(r).uids, m.uids);
      TailIsPlain(r.uids);
      ReattachOneEach(Append(Head(r), m.uids, m.counters, m.proofs), r.uids[a..], r.counters[a..],
                      r.proofs[|r.proofs| - 1], aggSize);
    }
  }

  /** Whether the own id finds the proof slot of its group. */
  predicate SlotFits(r: Report, aggSize: nat)
    requires aggSize > 0
  {
    |r.uids| % aggSize == 0 <==> TailLen(r.uids) == 0
  }

  /** Over a whole round of merges the report sent has one proof for each group if and only if the
      own id finds its slot behind the last merge. */
  lemma {:induction false} RoundProofSlots(r: Report, ms: seq<Report>, uid: nat, counter: nat, aggSize: nat)
    requires aggSize > 0 && uid != NOID && WellFormed(r, aggSize) && OneEach(r)
    requires forall i :: 0 <= i < |ms| ==> WellFormed(ms[i], aggSize) && ms[i].proofs != [] && OneEach(ms[i])
    ensures var all := MergeAll(r, ms, aggSize);
            && OneEach(all) && !AddOwnFaults(all, aggSize)
            && (OneEach(AddOwn(all, uid, counter, aggSize)) <==> SlotFits(all, aggSize))
    decreases |ms|
  {
    if ms == [] {
      AddOwnProofSlot(r, uid, counter, aggSize);
    } else {
      MergeLayout(r, ms[0], aggSize);
      MergeProofSlots(r, ms[0], aggSize);
      RoundProofSlots(Merge(r, ms[0].uids, ms[0].counters, ms[0].proofs, aggSize), ms[1..], uid, counter, aggSize);
    }
  }

  /** "One proof per group" is kept by addOwnReport exactly when the length test picks the
      open group, that is when the id vector's length is a multiple of aggSize if and only
      if no group is open. */
  lemma AddOwnProofSlot(r: Report, uid: nat, counter: nat, aggSize: nat)
    requires aggSize > 0 && uid != NOID && WellFormed(r, aggSize)
    requires OneEach(r)
    ensures !AddOwnFaults(r, aggSize)
    ensures var r' := AddOwn(r, uid, counter, aggSize);
            OneEach(r') <==> SlotFits(r, aggSize)
  {
    AddOwnLayout(r, uid, counter, aggSize);
    GroupsAfterId(r.uids, r.counters, uid, counter);
    GroupsAfterClose(r.uids + [uid], r.counters + [counter]);
  }

  /** With groups of two: a leaf's report, and that of its parent, who has no other child. */
  const LEAF := Report([5], [1], [0], 1, 0)
  const PARENT := Report([5, 6, NOID], [1, 1, 0], [0], 2, 1)

  /** In a round in which nothing is lost, the report of the grandparent then has one proof for two groups. */
  lemma AddOwnProofSlotFails()
    ensures !AddOwnFaults(EMPTY_REPORT, 2) && AddOwn(EMPTY_REPORT, 5, 1, 2) == LEAF
    ensures Merge(EMPTY_REPORT, LEAF.uids, LEAF.counters, LEAF.proofs, 2) == LEAF
    ensures !AddOwnFaults(LEAF, 2) && AddOwn(LEAF, 6, 1, 2) == PARENT && |PARENT.proofs| == Groups(PARENT.uids)
    ensures Merge(EMPTY_REPORT, PARENT.uids, PARENT.counters, PARENT.proofs, 2) == PARENT
    ensures !AddOwnFaults(PARENT, 2) && |AddOwn(PARENT, 7, 1, 2).proofs| < Groups(AddOwn(PARENT, 7, 1, 2).uids)
  {
    LeafStep();
    ParentStep();
    TooFewProofs();
    MergeIntoEmpty(LEAF, 2);
    MergeIntoEmpty(PARENT, 2);
  }

  lemma LeafStep()
    ensures !AddOwnFaults(EMPTY_REPORT, 2) && AddOwn(EMPTY_REPORT, 5, 1, 2) == LEAF && Separators(LEAF.uids) == 0
  {
    SmallTails();
    SmallSeparators();
    assert EMPTY_REPORT.uids + [5] == [5] && EMPTY_REPORT.counters + [1] == [1];
  }

  lemma ParentStep()
    ensures !AddOwnFaults(LEAF, 2) && AddOwn(LEAF, 6, 1, 2) == PARENT && Separators(PARENT.uids) == 1
    ensures |PARENT.proofs| == Groups(PARENT.uids)
  {
    SmallTails();
    SmallSeparators();
    assert LEAF.uids + [6] == [5, 6] && LEAF.counters + [1] == [1, 1];
  }

  lemma MergeIntoEmpty(m: Report, aggSize: nat)
    requires aggSize > 0 && |m.uids| == |m.counters| && Counted(m, 0, 0)
    ensures Merge(EMPTY_REPORT, m.uids, m.counters, m.proofs, aggSize) == m
  {
    assert [] + m.uids == m.uids && [] + m.counters == m.counters && [] + m.proofs == m.proofs;
  }

  lemma SmallTails()
    ensures TailLen([5]) == 1 && TailLen([5, 6]) == 2 && TailLen([5, 6, NOID]) == 0 && TailLen([5, 6, NOID, 7]) == 1
  {
    assert [5, 6][..1] == [5] && [5, 6, NOID, 7][..3] == [5, 6, NOID];
  }

  lemma SmallSeparators()
    ensures Separators([5]) == 0 && Separators([5, 6, NOID]) == 1
  {
    SeparatorsAppend([5, 6], NOID);
    assert [5, 6] + [NOID] == [5, 6, NOID];
    PlainHasNoSeparator([5, 6]);
    PlainHasNoSeparator([5]);
  }

  lemma TooFewProofs()
    ensures !AddOwnFaults(PARENT, 2) && |AddOwn(PARENT, 7, 1, 2).proofs| < Groups(AddOwn(PARENT, 7, 1, 2).uids)
  {
    SmallTails();
    SmallSeparators();
    assert PARENT.uids + [7] == [5, 6, NOID, 7];
    SeparatorsAppend(PARENT.uids, 7);
  }
}
