/** Numbering the initialization stages so that every stage comes after those that precede it. */
module InitStages {
  import opened Wrappers
  import opened Lists

  type Stage = nat

  datatype Outcome = Numbered | UnknownStage | Circle

  type Edges = map<Stage, seq<Stage>>

  /** getInitStage: the first stage with the name. */
  function Resolve(stages: seq<Stage>, names: map<Stage, string>, name: string): Option<Stage> {
    if stages == [] then None
    else if stages[0] in names && names[stages[0]] == name then Some(stages[0])
    else Resolve(stages[1..], names, name)
  }

  lemma {:induction false} ResolveIn(stages: seq<Stage>, names: map<Stage, string>, name: string)
    ensures var r := Resolve(stages, names, name);
            if r.Some? then r.value in stages && r.value in names && names[r.value] == name
            else forall s :: s in stages && s in names ==> names[s] != name
  {
    if stages != [] { ResolveIn(stages[1..], names, name); }
  }

  /** Of several stages with the name it is the first. */
  lemma {:induction false} ResolveFirst(stages: seq<Stage>, names: map<Stage, string>, name: string, i: nat)
    requires i < |stages| && stages[i] in names && names[stages[i]] == name
    requires forall j :: 0 <= j < i && stages[j] in names ==> names[stages[j]] != name
    ensures Resolve(stages, names, name) == Some(stages[i])
  {
    if i > 0 { ResolveFirst(stages[1..], names, name, i - 1); }
  }

  ghost predicate UniqueNames(stages: seq<Stage>, names: map<Stage, string>) {
    forall s, t :: s in stages && t in stages && s in names && t in names && names[s] == names[t] ==> s == t
  }

  /** With unique names the order of the stages does not matter. */
  lemma ResolveSame(stages: seq<Stage>, stages': seq<Stage>, names: map<Stage, string>, name: string)
    requires UniqueNames(stages, names) && forall s :: s in stages <==> s in stages'
    ensures Resolve(stages, names, name) == Resolve(stages', names, name)
  {
    ResolveIn(stages, names, name);
    ResolveIn(stages', names, name);
  }

  // ------------------------------------------------------------ orders and circles

  /** done gives its stages the numbers 0, 1, ... and what precedes a stage has a smaller number. */
  ghost predicate Numbering(prec: Edges, done: seq<Stage>) {
    && NoDup(done)
    && forall i :: 0 <= i < |done| ==> done[i] in prec && forall p :: p in prec[done[i]] ==> p in done[..i]
  }

  /** Every stage is followed by one that precedes it. */
  predicate IsWalk(prec: Edges, c: seq<Stage>) {
    && (forall i :: 0 <= i < |c| ==> c[i] in prec)
    && (forall i :: 0 <= i < |c| - 1 ==> c[i + 1] in prec[c[i]])
  }

  predicate IsCircle(prec: Edges, c: seq<Stage>) {
    c != [] && IsWalk(prec, c) && c[0] in prec[c[|c| - 1]]
  }

  /** The number of a stage. */
  function Place(done: seq<Stage>, x: Stage): (i: nat)
    requires x in done
    ensures i < |done| && done[i] == x
  {
    if done[0] == x then 0 else 1 + Place(done[1..], x)
  }

  lemma EdgeDown(prec: Edges, done: seq<Stage>, s: Stage, p: Stage)
    requires Numbering(prec, done) && s in done && s in prec && p in prec[s]
    ensures p in done && Place(done, p) < Place(done, s)
  {
    var i := Place(done, s);
    assert p in done[..i];
    var m := Place(done[..i], p);
    assert done[m] == done[Place(done, p)];
  }

  /** A complete numbering and a circle exclude each other. */
  lemma NoCircle(prec: Edges, done: seq<Stage>, c: seq<Stage>)
    requires Numbering(prec, done) && forall s :: s in prec ==> s in done
    ensures !IsCircle(prec, c)
  {
    if IsCircle(prec, c) {
      var n := |c| - 1;
      EdgeDown(prec, done, c[n], c[0]);
      Descend(prec, done, c, n);
    }
  }

  /** Along a circle the numbers go down. */
  lemma {:induction false} Descend(prec: Edges, done: seq<Stage>, c: seq<Stage>, n: nat)
    requires Numbering(prec, done) && IsWalk(prec, c) && n < |c|
    requires forall s :: s in prec ==> s in done
    ensures c[0] in done && c[n] in done && Place(done, c[n]) + n <= Place(done, c[0])
  {
    if n > 0 {
      Descend(prec, done, c, n - 1);
      assert c[n - 1 + 1] in prec[c[n - 1]];
      EdgeDown(prec, done, c[n - 1], c[n]);
    }
  }

  // ------------------------------------------------------------ whose turn it is

  /** s can be given a number. */
  predicate Free(prec: Edges, done: seq<Stage>, s: Stage) { s !in done && !Stuck(prec, done, s) }

  ghost predicate NoneFree(prec: Edges, stages: seq<Stage>, done: seq<Stage>, a: nat, b: nat) {
    forall k :: a <= k < b && k < |stages| ==> !Free(prec, done, stages[k])
  }

  /** The place behind the stage that was numbered last. */
  function Start(stages: seq<Stage>, done: seq<Stage>): nat {
    if done == [] || done[|done| - 1] !in stages then 0 else Place(stages, done[|done| - 1]) + 1
  }

  /** The first free stage from there on, going around the list, is at place k. */
  ghost predicate TurnAt(prec: Edges, stages: seq<Stage>, done: seq<Stage>, k: nat) {
    var a := Start(stages, done);
    && k < |stages| && Free(prec, done, stages[k])
    && if a <= k then NoneFree(prec, stages, done, a, k)
       else NoneFree(prec, stages, done, a, |stages|) && NoneFree(prec, stages, done, 0, k)
  }

  ghost predicate Turn(prec: Edges, stages: seq<Stage>, done: seq<Stage>, s: Stage) {
    s in stages && TurnAt(prec, stages, done, Place(stages, s))
  }

  ghost predicate TurnOf(prec: Edges, stages: seq<Stage>, done: seq<Stage>, i: nat) {
    i < |done| && Turn(prec, stages, done[..i], done[i])
  }

  /** Every stage is numbered when it is its turn. */
  ghost predicate InTurn(prec: Edges, stages: seq<Stage>, done: seq<Stage>) {
    forall i :: 0 <= i < |done| ==> TurnOf(prec, stages, done, i)
  }

  /** That determines the numbers. */
  lemma {:induction false} TurnsUnique(prec: Edges, stages: seq<Stage>, d: seq<Stage>, d': seq<Stage>, n: nat)
    requires InTurn(prec, stages, d) && InTurn(prec, stages, d') && n <= |d| && n <= |d'|
    ensures d[..n] == d'[..n]
  {
    if n > 0 {
      TurnsUnique(prec, stages, d, d', n - 1);
      assert d[..n] == d[..n - 1] + [d[n - 1]] && d'[..n] == d'[..n - 1] + [d'[n - 1]];
      assert TurnOf(prec, stages, d, n - 1) && TurnOf(prec, stages, d', n - 1);
      OneTurn(prec, stages, d[..n - 1], Place(stages, d[n - 1]), Place(stages, d'[n - 1]));
    }
  }

  lemma OneTurn(prec: Edges, stages: seq<Stage>, done: seq<Stage>, k: nat, j: nat)
    requires TurnAt(prec, stages, done, k) && TurnAt(prec, stages, done, j)
    ensures k == j
  {
  }

  /** Since the last number was given, no stage up to place j was free. */
  ghost predicate Looked(prec: Edges, stages: seq<Stage>, done: seq<Stage>, j: nat) {
    var a := Start(stages, done);
    if a <= j then NoneFree(prec, stages, done, a, j)
    else NoneFree(prec, stages, done, a, |stages|) && NoneFree(prec, stages, done, 0, j)
  }

  /** The next pass goes on where this one ends. */
  lemma LookedAround(prec: Edges, stages: seq<Stage>, done: seq<Stage>)
    requires Looked(prec, stages, done, |stages|)
    ensures Looked(prec, stages, done, 0)
  {
  }

  lemma LookStep(prec: Edges, stages: seq<Stage>, done: seq<Stage>, j: nat, given: bool)
    requires NoDup(stages) && j < |stages| && Looked(prec, stages, done, j) && InTurn(prec, stages, done)
    requires given <==> Free(prec, done, stages[j])
    ensures var done' := if given then done + [stages[j]] else done;
            Looked(prec, stages, done', j + 1) && InTurn(prec, stages, done')
  {
    if given {
      PlaceOf(stages, j);
      TurnTaken(prec, stages, done, stages[j]);
    }
  }

  lemma TurnTaken(prec: Edges, stages: seq<Stage>, done: seq<Stage>, s: Stage)
    requires InTurn(prec, stages, done) && Turn(prec, stages, done, s)
    ensures InTurn(prec, stages, done + [s])
  {
    var d := done + [s];
    forall i | 0 <= i < |d| ensures TurnOf(prec, stages, d, i) {
      if i < |done| {
        assert d[..i] == done[..i] && TurnOf(prec, stages, done, i);
      } else {
        assert d[..i] == done;
      }
    }
  }

  predicate Waits(prec: Edges, waiting: set<Stage>, s: Stage) {
    s in prec && exists p :: p in prec[s] && p in waiting
  }

  /** If every stage of a set that is not empty waits for another one of it, there is a circle. */
  lemma StuckHasCircle(prec: Edges, waiting: set<Stage>, s0: Stage) returns (c: seq<Stage>)
    requires s0 in waiting && forall s :: s in waiting ==> Waits(prec, waiting, s)
    ensures IsCircle(prec, c)
  {
    var w := Walk(prec, waiting, s0, |waiting| + 1);
    if NoDup(w) { NoDupBound(w, waiting); }
    var i, j :| 0 <= i < j < |w| && w[i] == w[j];
    c := w[i..j];
    CutWalk(prec, w, i, j);
  }

  lemma CutWalk(prec: Edges, w: seq<Stage>, i: nat, j: nat)
    requires IsWalk(prec, w) && i < j < |w| && w[i] == w[j]
    ensures IsCircle(prec, w[i..j])
  {
    var c := w[i..j];
    forall k | 0 <= k < |c| - 1 ensures c[k + 1] in prec[c[k]] { assert w[i + k + 1] in prec[w[i + k]]; }
    assert w[j - 1 + 1] in prec[w[j - 1]];
  }

  lemma {:induction false} Walk(prec: Edges, waiting: set<Stage>, s0: Stage, n: nat) returns (w: seq<Stage>)
    requires n > 0 && s0 in waiting && forall s :: s in waiting ==> Waits(prec, waiting, s)
    ensures |w| == n && IsWalk(prec, w) && forall s :: s in w ==> s in waiting
    decreases n
  {
    if n == 1 {
      w := [s0];
      assert Waits(prec, waiting, s0);
    } else {
      var v := Walk(prec, waiting, s0, n - 1);
      var last := v[n - 2];
      assert last in v && Waits(prec, waiting, last);
      var p :| p in prec[last] && p in waiting;
      assert Waits(prec, waiting, p);
      w := v + [p];
      forall k | 0 <= k < n - 1 ensures w[k + 1] in prec[w[k]] {
        if k < n - 2 { assert v[k + 1] in prec[v[k]]; }
      }
    }
  }

  /** A list without duplicates of the same length as another, all of whose elements it contains. */
  lemma SameElements(a: seq<Stage>, b: seq<Stage>)
    requires NoDup(a) && NoDup(b) && |a| == |b| && forall s :: s in a ==> s in b
    ensures forall s :: s in b ==> s in a
  {
    if s :| s in b && s !in a {
      NoDupBound(a, Elements(b) - {s});
      ElementsBound(b);
    }
  }

  lemma SameSet(a: seq<Stage>, b: seq<Stage>)
    requires forall s :: s in a <==> s in b
    ensures Elements(a) == Elements(b)
  {
  }

  function Elements(b: seq<Stage>): set<Stage> { set x | x in b }

  lemma {:induction false} ElementsBound(b: seq<Stage>)
    ensures |Elements(b)| <= |b|
  {
    if b != [] {
      var r, y := b[..|b| - 1], b[|b| - 1];
      ElementsBound(r);
      assert b == r + [y];
      assert Elements(b) == Elements(r) + {y};
      assert |Elements(r) + {y}| <= |Elements(r)| + 1;
    }
  }

  class InitStageRegistry {
    var stages: seq<Stage>
    var names: map<Stage, string>

    /** Pairs of the names of a stage and of one that precedes it. */
    var dependencies: seq<(string, string)>

    var number: map<Stage, int>
    var numInitStages: int

    ghost predicate Valid()
      reads this
    {
      NoDup(stages) && forall s :: s in stages ==> s in names
    }

    /** The edges that the dependencies stand for. */
    method PrecedingStages() returns (ok: bool, prec: Edges)
      requires Valid()
      ensures ok <==> AllKnown(stages, names, dependencies)
      ensures ok ==> EdgesOf(stages, names, dependencies, prec)
    {
      prec := map s | s in stages :: [];
      for i := 0 to |dependencies|
        invariant forall k :: 0 <= k < i ==> Known(stages, names, dependencies[k])
        invariant EdgesOf(stages, names, dependencies[..i], prec)
      {
        var d := dependencies[i];
        ResolveIn(stages, names, d.0);
        ResolveIn(stages, names, d.1);
        var following, preceding := Resolve(stages, names, d.0), Resolve(stages, names, d.1);
        if following.None? || preceding.None? { return false, prec; }
        EdgeAdded(stages, names, dependencies, i, prec);
        prec := prec[following.value := prec[following.value] + [preceding.value]];
      }
      assert dependencies[..|dependencies|] == dependencies;
      ok := true;
    }

    /** The numbers given so far. */
    ghost predicate NumbersFit(done: seq<Stage>)
      reads this
    {
      && number.Keys == Elements(stages) && numInitStages == |done|
      && (forall s :: s in done ==> s in stages)
      && (forall s :: s in stages ==> number[s] == if s in done then Place(done, s) else -1)
    }

    /** Numbers the stages; it fails exactly if a dependency names no stage or there is a circle. */
    method AssignInitStageNumbers() returns (r: Outcome, ghost prec: Edges)
      requires Valid()
      modifies this`stages, this`number, this`numInitStages
      ensures Valid() && forall s :: s in stages <==> s in old(stages)
      ensures r.UnknownStage? <==> !AllKnown(old(stages), names, dependencies)
      ensures !r.UnknownStage? ==> EdgesOf(old(stages), names, dependencies, prec)
      ensures r.Circle? <==> !r.UnknownStage? && exists c :: IsCircle(prec, c)
      ensures r.Numbered? ==> NumbersFit(stages) && numInitStages == |stages| && Numbering(prec, stages)
      ensures r.Numbered? && Numbering(prec, old(stages)) ==> stages == old(stages)
      ensures r.Numbered? ==> InTurn(prec, old(stages), stages)
    {
      var ok, edges := PrecedingStages();
      prec := edges;
      if !ok { return UnknownStage, prec; }
      EdgesInside(stages, names, dependencies, prec);
      ok := NumberAndSort(edges);
      r := if ok then Numbered else Circle;
    }

    /** The numbering, when the edges are known. */
    method NumberAndSort(prec: Edges) returns (ok: bool)
      requires Valid() && Inside(prec, stages)
      modifies this`stages, this`number, this`numInitStages
      ensures Valid() && forall s :: s in stages <==> s in old(stages)
      ensures ok <==> !exists c :: IsCircle(prec, c)
      ensures ok ==> NumbersFit(stages) && numInitStages == |stages| && Numbering(prec, stages)
      ensures ok && Numbering(prec, old(stages)) ==> stages == old(stages)
      ensures ok ==> InTurn(prec, old(stages), stages)
    {
      ghost var done;
      ok, done := NumberAll(prec);
      if ok {
        Sort(done);
      }
    }

    method Sort(ghost done: seq<Stage>)
      requires Valid() && NumbersFit(done) && NoDup(done) && |done| == |stages| && forall s :: s in stages ==> s in done
      modifies this`stages
      ensures Valid() && stages == done && NumbersFit(done) && forall s :: s in stages <==> s in old(stages)
    {
      SameSet(stages, done);
      stages := SortByNumber(done);
    }

    /** Numbering again, on the sorted list, changes nothing if the names are unique. */
    method Renumber(ghost stages0: seq<Stage>, ghost prec: Edges) returns (r: Outcome)
      requires Valid() && NumbersFit(stages) && Numbering(prec, stages)
      requires UniqueNames(stages0, names) && (forall s :: s in stages0 <==> s in stages)
      requires EdgesOf(stages0, names, dependencies, prec) && AllKnown(stages0, names, dependencies)
      modifies this`stages, this`number, this`numInitStages
      ensures r.Numbered? && stages == old(stages) && number == old(number) && NumbersFit(stages)
    {
      ghost var prec', stages1 := map[], stages;
      r, prec' := AssignInitStageNumbers();
      SameEdges(stages0, stages1, names, dependencies, prec, prec');
      SameNumbers(old(number), number, stages);
    }

    /** First numbering, then numbering again. */
    method AssignTwice() returns (r: Outcome, again: Outcome, ghost first: map<Stage, int>)
      requires Valid() && UniqueNames(stages, names)
      modifies this`stages, this`number, this`numInitStages
      ensures r.Numbered? ==> again.Numbered? && number == first && NumbersFit(stages)
    {
      ghost var stages0, prec := stages, map[];
      r, prec := AssignInitStageNumbers();
      again, first := r, number;
      if r == Numbered {
        again := Renumber(stages0, prec);
      }
    }

    /** The passes: until all stages are numbered, or one pass numbers none. */
    method NumberAll(prec: Edges) returns (ok: bool, ghost done: seq<Stage>)
      requires Valid() && Inside(prec, stages)
      modifies this`number, this`numInitStages
      ensures ok <==> !exists c :: IsCircle(prec, c)
      ensures ok ==>
                NumbersFit(done) && Numbering(prec, done) && |done| == |stages| && forall s :: s in stages ==> s in done
      ensures ok && Numbering(prec, stages) ==> done == stages
      ensures ok ==> InTurn(prec, stages, done)
    {
      number := map s | s in stages :: -1;
      numInitStages := 0;
      done := [];
      NoneYet(prec, stages);
      while numInitStages < |stages|
        invariant NumbersFit(done) && Between(prec, stages, done)
        decreases |stages| - |done|
      {
        var progress;
        progress, done := Pass(prec, done);
        if !progress {
          return false, done;
        }
      }
      Complete(prec, stages, done);
      ok := true;
    }

    /** One pass over the stages. */
    method Pass(prec: Edges, ghost done0: seq<Stage>) returns (progress: bool, ghost done: seq<Stage>)
      requires Valid() && Inside(prec, stages) && NumbersFit(done0) && Between(prec, stages, done0)
      requires |done0| < |stages|
      modifies this`number, this`numInitStages
      ensures NumbersFit(done) && Between(prec, stages, done)
      ensures progress ==> |done0| < |done|
      ensures !progress ==> done == done0 && exists c :: IsCircle(prec, c)
    {
      progress := false;
      done := done0;
      PassBegins(prec, stages, done0);
      for j := 0 to |stages|
        invariant NumbersFit(done) && During(prec, stages, done0, done, progress, j)
      {
        progress, done := Look(prec, j, progress, done0, done);
      }
      PassOver(prec, stages, done0, done, progress);
    }

    /** The stage at place j. */
    method Look(prec: Edges, j: nat, progress: bool, ghost done0: seq<Stage>, ghost done: seq<Stage>)
      returns (progress': bool, ghost done': seq<Stage>)
      requires Valid() && Inside(prec, stages) && NumbersFit(done) && j < |stages|
      requires During(prec, stages, done0, done, progress, j)
      modifies this`number, this`numInitStages
      ensures NumbersFit(done') && During(prec, stages, done0, done', progress', j + 1)
    {
      assert stages[j] in stages;
      var given;
      given, done' := Consider(prec, stages[j], done);
      progress' := progress || given;
      Considered(prec, stages, done0, done, progress, done', j, given);
    }

    /** Gives s the next number if everything before it has one. */
    method Consider(prec: Edges, s: Stage, ghost done0: seq<Stage>) returns (given: bool, ghost done: seq<Stage>)
      requires Valid() && Inside(prec, stages) && NumbersFit(done0) && Numbering(prec, done0) && s in stages
      modifies this`number, this`numInitStages
      ensures NumbersFit(done) && Numbering(prec, done)
      ensures given <==> s !in done0 && !Stuck(prec, done0, s)
      ensures done == if given then done0 + [s] else done0
    {
      done := done0;
      given := false;
      if number[s] == -1 {
        given := AllNumbered(prec, s, done);
        if given {
          PlaceLast(done, s);
          NumberingGrows(prec, done, s);
          number := number[s := numInitStages];
          numInitStages := numInitStages + 1;
          done := done + [s];
        }
      }
    }

    method AllNumbered(prec: Edges, s: Stage, ghost done: seq<Stage>) returns (free: bool)
      requires s in stages && Inside(prec, stages) && NumbersFit(done)
      ensures free <==> forall p :: p in prec[s] ==> p in done
      ensures free <==> !Stuck(prec, done, s)
    {
      for i := 0 to |prec[s]|
        invariant forall k :: 0 <= k < i ==> prec[s][k] in done
      {
        var p := prec[s][i];
        assert p in prec[s];
        if number[p] == -1 {
          return false;
        }
      }
      free := true;
    }

    /** Sorting by number: the stage numbered i comes to place i. */
    method SortByNumber(ghost done: seq<Stage>) returns (sorted: seq<Stage>)
      requires NumbersFit(done) && NoDup(done) && |done| == |stages| && forall s :: s in stages ==> s in done
      ensures sorted == done
    {
      sorted := [];
      for i := 0 to |stages|
        invariant sorted == done[..i]
      {
        var j := FindNumber(i, done);
        sorted := sorted + [stages[j]];
        assert done[..i + 1] == done[..i] + [done[i]];
      }
      assert done[..|done|] == done;
    }

    method FindNumber(i: nat, ghost done: seq<Stage>) returns (j: nat)
      requires NumbersFit(done) && NoDup(done) && i < |done| && forall s :: s in stages ==> s in done
      ensures j < |stages| && stages[j] == done[i]
    {
      j := 0;
      assert done[i] in done;
      PlaceOf(done, i);
      while number[stages[j]] != i
        invariant j < |stages| && forall k :: 0 <= k < j ==> stages[k] != done[i]
        decreases |stages| - j
      {
        assert stages[j] in stages;
        LaterStage(stages, j, done[i]);
        j := j + 1;
      }
      assert stages[j] in stages;
    }
  }

  predicate Stuck(prec: Edges, done: seq<Stage>, s: Stage) {
    s in prec && exists p :: p in prec[s] && p !in done
  }

  lemma LaterStage(stages: seq<Stage>, j: nat, x: Stage)
    requires x in stages && j < |stages| && stages[j] != x && forall k :: 0 <= k < j ==> stages[k] != x
    ensures j + 1 < |stages|
  {
  }

  lemma PlaceOf(done: seq<Stage>, i: nat)
    requires NoDup(done) && i < |done|
    ensures done[i] in done && Place(done, done[i]) == i
  {
    SamePlace(done, Place(done, done[i]), i);
  }

  lemma SamePlace(done: seq<Stage>, k: nat, i: nat)
    requires NoDup(done) && k < |done| && i < |done| && done[k] == done[i]
    ensures k == i
  {
  }

  lemma {:induction false} PlaceLast(done: seq<Stage>, s: Stage)
    requires s !in done
    ensures forall x :: x in done + [s] ==> Place(done + [s], x) == if x == s then |done| else Place(done, x)
  {
    if done != [] {
      PlaceLast(done[1..], s);
      assert (done + [s])[1..] == done[1..] + [s];
    }
  }

  lemma NumberingGrows(prec: Edges, done: seq<Stage>, s: Stage)
    requires Numbering(prec, done) && s !in done && s in prec && forall p :: p in prec[s] ==> p in done
    ensures Numbering(prec, done + [s])
  {
    var d := done + [s];
    forall i | 0 <= i < |d| ensures d[i] in prec && forall p :: p in prec[d[i]] ==> p in d[..i] {
      if i < |done| { assert d[..i] == done[..i]; } else { assert d[..i] == done; }
    }
  }

  lemma DoneBound(done: seq<Stage>, stages: seq<Stage>)
    requires NoDup(done) && forall s :: s in done ==> s in stages
    ensures |done| <= |stages|
  {
    NoDupBound(done, Elements(stages));
    ElementsBound(stages);
  }

  ghost predicate AllStuck(prec: Edges, done: seq<Stage>, stages: seq<Stage>, j: nat)
    requires j <= |stages|
  {
    forall k :: 0 <= k < j && stages[k] !in done ==> Stuck(prec, done, stages[k])
  }

  /** When the stages are listed in order, the first pass numbers them in that order. */
  ghost predicate Orderly(prec: Edges, stages: seq<Stage>, done0: seq<Stage>, done: seq<Stage>, j: nat)
    requires j <= |stages|
  {
    Numbering(prec, stages) ==> (done0 == [] ==> done == stages[..j]) && (done0 == stages ==> done == stages)
  }

  lemma OrderlyStep(prec: Edges, stages: seq<Stage>, done0: seq<Stage>, done: seq<Stage>, j: nat, given: bool)
    requires j < |stages| && Orderly(prec, stages, done0, done, j)
             && (given <==> stages[j] !in done && !Stuck(prec, done, stages[j]))
    ensures Orderly(prec, stages, done0, if given then done + [stages[j]] else done, j + 1)
  {
    if Numbering(prec, stages) {
      assert stages[..j + 1] == stages[..j] + [stages[j]] && stages[j] in stages;
      if done0 == [] { NotAmongEarlier(stages, j); }
    }
  }

  lemma PassEnds(prec: Edges, stages: seq<Stage>, done0: seq<Stage>, done: seq<Stage>, progress: bool)
    requires PassState(prec, stages, done0, done, progress, |stages|) && NoDup(done)
             && forall s :: s in done ==> s in stages
    ensures Numbering(prec, stages) && (done0 == [] || done0 == stages) ==> done == stages
    ensures |done| <= |stages|
    ensures progress ==> |done0| < |done|
    ensures !progress ==> forall s :: s in stages && s !in done ==> Stuck(prec, done, s)
  {
    DoneBound(done, stages);
    assert stages[..|stages|] == stages;
  }

  /** Between two passes. */
  ghost predicate Between(prec: Edges, stages: seq<Stage>, done: seq<Stage>) {
    && Numbering(prec, done) && |done| <= |stages| && (Numbering(prec, stages) ==> done == [] || done == stages)
    && Looked(prec, stages, done, 0) && InTurn(prec, stages, done)
  }

  lemma NoneYet(prec: Edges, stages: seq<Stage>)
    ensures Between(prec, stages, [])
  {
  }

  lemma PassOver(prec: Edges, stages: seq<Stage>, done0: seq<Stage>, done: seq<Stage>, progress: bool)
    requires NoDup(stages) && Inside(prec, stages) && Between(prec, stages, done0) && |done0| < |stages|
    requires During(prec, stages, done0, done, progress, |stages|) && (forall s :: s in done ==> s in stages)
    ensures Between(prec, stages, done)
    ensures progress ==> |done0| < |done|
    ensures !progress ==> done == done0 && exists c :: IsCircle(prec, c)
  {
    PassEnds(prec, stages, done0, done, progress);
    LookedAround(prec, stages, done);
    if !progress { StuckIsCircle(stages, prec, done); }
  }

  lemma Complete(prec: Edges, stages: seq<Stage>, done: seq<Stage>)
    requires NoDup(stages) && Inside(prec, stages) && Between(prec, stages, done) && |done| == |stages|
    requires forall s :: s in done ==> s in stages
    ensures !exists c :: IsCircle(prec, c)
    ensures forall s :: s in stages ==> s in done
    ensures Numbering(prec, stages) ==> done == stages
  {
    SameElements(done, stages);
    AllDone(stages, prec, done);
  }

  /** After j stages of a pass. */
  ghost predicate PassState(prec: Edges, stages: seq<Stage>, done0: seq<Stage>, done: seq<Stage>, progress: bool,
                            j: nat) {
    && j <= |stages| && Orderly(prec, stages, done0, done, j)
    && if progress then |done0| < |done| else done == done0 && AllStuck(prec, done, stages, j)
  }

  /** The same, and whose turn it was. */
  ghost predicate During(prec: Edges, stages: seq<Stage>, done0: seq<Stage>, done: seq<Stage>, progress: bool,
                         j: nat) {
    && Numbering(prec, done) && PassState(prec, stages, done0, done, progress, j)
    && Looked(prec, stages, done, j) && InTurn(prec, stages, done)
  }

  lemma Considered(prec: Edges, stages: seq<Stage>, done0: seq<Stage>, done: seq<Stage>, progress: bool,
                   done': seq<Stage>, j: nat, given: bool)
    requires NoDup(stages) && j < |stages| && During(prec, stages, done0, done, progress, j)
    requires given <==> stages[j] !in done && !Stuck(prec, done, stages[j])
    requires done' == (if given then done + [stages[j]] else done) && Numbering(prec, done')
    ensures During(prec, stages, done0, done', progress || given, j + 1)
  {
    PassStep(prec, stages, done0, done, progress, j, given);
    LookStep(prec, stages, done, j, given);
  }

  lemma PassBegins(prec: Edges, stages: seq<Stage>, done0: seq<Stage>)
    requires Between(prec, stages, done0)
    ensures During(prec, stages, done0, done0, false, 0)
  {
    assert stages[..0] == [];
  }

  lemma PassStep(prec: Edges, stages: seq<Stage>, done0: seq<Stage>, done: seq<Stage>, progress: bool, j: nat,
                 given: bool)
    requires j < |stages| && PassState(prec, stages, done0, done, progress, j)
    requires given <==> stages[j] !in done && !Stuck(prec, done, stages[j])
    ensures PassState(prec, stages, done0, if given then done + [stages[j]] else done, progress || given, j + 1)
  {
    OrderlyStep(prec, stages, done0, done, j, given);
  }

  /** Sorting does not change what the dependencies mean. */
  lemma SameEdges(stages: seq<Stage>, stages': seq<Stage>, names: map<Stage, string>, deps: seq<(string, string)>,
                  prec: Edges, prec': Edges)
    requires UniqueNames(stages, names) && (forall s :: s in stages <==> s in stages')
    requires EdgesOf(stages, names, deps, prec) && Numbering(prec, stages')
    ensures AllKnown(stages, names, deps) <==> AllKnown(stages', names, deps)
    ensures EdgesOf(stages', names, deps, prec') ==> Numbering(prec', stages')
    ensures EdgesOf(stages', names, deps, prec') ==> forall c :: IsCircle(prec', c) ==> false
  {
    forall i | 0 <= i < |deps| ensures Known(stages, names, deps[i]) <==> Known(stages', names, deps[i]) {
      ResolveSame(stages, stages', names, deps[i].0);
      ResolveSame(stages, stages', names, deps[i].1);
    }
    if EdgesOf(stages', names, deps, prec') {
      forall s, p | s in prec' && p in prec'[s] ensures p in prec[s] {
        var i :| 0 <= i < |deps| && IsEdge(stages', names, deps[i], s, p);
        ResolveSame(stages, stages', names, deps[i].0);
        ResolveSame(stages, stages', names, deps[i].1);
        assert IsEdge(stages, names, deps[i], s, p);
      }
      forall c | IsCircle(prec', c) ensures false { NoCircle(prec', stages', c); }
    }
  }

  lemma SameNumbers(m: map<Stage, int>, m': map<Stage, int>, stages: seq<Stage>)
    requires m.Keys == m'.Keys == Elements(stages) && forall s :: s in stages ==> m[s] == m'[s]
    ensures m == m'
  {
  }

  lemma NotAmongEarlier(stages: seq<Stage>, j: nat)
    requires NoDup(stages) && j < |stages|
    ensures stages[j] !in stages[..j]
  {
  }

  lemma EdgeIn(stages: seq<Stage>, names: map<Stage, string>, deps: seq<(string, string)>, prec: Edges, s: Stage,
               p: Stage)
    requires EdgesOf(stages, names, deps, prec) && s in prec && p in prec[s]
    ensures p in stages
  {
    var i :| 0 <= i < |deps| && IsEdge(stages, names, deps[i], s, p);
    ResolveIn(stages, names, deps[i].1);
  }

  ghost predicate Inside(prec: Edges, stages: seq<Stage>) {
    && (forall s :: s in prec <==> s in stages)
    && (forall s, p :: s in prec && p in prec[s] ==> p in stages)
  }

  lemma EdgesInside(stages: seq<Stage>, names: map<Stage, string>, deps: seq<(string, string)>, prec: Edges)
    requires EdgesOf(stages, names, deps, prec)
    ensures Inside(prec, stages)
  {
    forall s, p | s in prec && p in prec[s] ensures p in stages { EdgeIn(stages, names, deps, prec, s, p); }
  }

  lemma StuckIsCircle(stages: seq<Stage>, prec: Edges, done: seq<Stage>)
    requires NoDup(stages) && |done| < |stages|
    requires forall s :: s in stages && s !in done ==> Stuck(prec, done, s)
    requires Inside(prec, stages)
    ensures exists c :: IsCircle(prec, c)
  {
    var waiting := set s | s in stages && s !in done;
    forall s | s in waiting ensures Waits(prec, waiting, s) {
      assert Stuck(prec, done, s);
    }
    SomeWaiting(stages, done, waiting);
    var s0 :| s0 in waiting;
    var c := StuckHasCircle(prec, waiting, s0);
  }

  lemma SomeWaiting(stages: seq<Stage>, done: seq<Stage>, waiting: set<Stage>)
    requires NoDup(stages) && |done| < |stages| && forall s :: s in stages ==> s in waiting || s in done
    ensures waiting != {}
  {
    if waiting == {} { DoneBound(stages, done); }
  }

  lemma AllDone(stages: seq<Stage>, prec: Edges, done: seq<Stage>)
    requires Numbering(prec, done) && (forall s :: s in stages ==> s in done) && forall s :: s in prec ==> s in stages
    ensures !exists c :: IsCircle(prec, c)
  {
    forall c ensures !IsCircle(prec, c) {
      NoCircle(prec, done, c);
    }
  }


  predicate Known(stages: seq<Stage>, names: map<Stage, string>, d: (string, string)) {
    Resolve(stages, names, d.0).Some? && Resolve(stages, names, d.1).Some?
  }

  predicate AllKnown(stages: seq<Stage>, names: map<Stage, string>, deps: seq<(string, string)>) {
    forall i :: 0 <= i < |deps| ==> Known(stages, names, deps[i])
  }

  predicate IsEdge(stages: seq<Stage>, names: map<Stage, string>, d: (string, string), s: Stage, p: Stage) {
    Resolve(stages, names, d.0) == Some(s) && Resolve(stages, names, d.1) == Some(p)
  }

  /** prec lists for every stage exactly those that a dependency puts before it. */
  ghost predicate EdgesOf(stages: seq<Stage>, names: map<Stage, string>, deps: seq<(string, string)>, prec: Edges) {
    && (forall s :: s in prec <==> s in stages)
    && (forall s, p :: s in prec ==>
          (p in prec[s] <==> exists i :: 0 <= i < |deps| && IsEdge(stages, names, deps[i], s, p)))
  }

  lemma EdgeAdded(stages: seq<Stage>, names: map<Stage, string>, deps: seq<(string, string)>, i: nat, prec: Edges)
    requires i < |deps| && EdgesOf(stages, names, deps[..i], prec) && Known(stages, names, deps[i])
    ensures var s0, p0 := Resolve(stages, names, deps[i].0).value, Resolve(stages, names, deps[i].1).value;
            s0 in prec && EdgesOf(stages, names, deps[..i + 1], prec[s0 := prec[s0] + [p0]])
  {
    var s0, p0 := Resolve(stages, names, deps[i].0).value, Resolve(stages, names, deps[i].1).value;
    ResolveIn(stages, names, deps[i].0);
    var prec' := prec[s0 := prec[s0] + [p0]];
    var before, after := deps[..i], deps[..i + 1];
    assert after == before + [deps[i]];
    forall s, p | s in prec'
      ensures p in prec'[s] <==> exists k :: 0 <= k < |after| && IsEdge(stages, names, after[k], s, p)
    {
      if k :| 0 <= k < |before| && IsEdge(stages, names, before[k], s, p) {
        assert IsEdge(stages, names, after[k], s, p);
      }
      if k :| 0 <= k < |after| && IsEdge(stages, names, after[k], s, p) {
        if k < i { assert IsEdge(stages, names, before[k], s, p); }
      }
      if s == s0 && p == p0 { assert IsEdge(stages, names, after[i], s, p); }
    }
  }
}
