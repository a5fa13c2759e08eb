/** `resolve_patch_order` of `data_patch.py`: the order in which pending data patches apply. */
module PatchOrder {
  import opened Wrappers
  import opened TopoOrder
  import opened Sorting

  /** One pending patch: its fully qualified name and what its `require()` returned. */
  datatype Patch = Patch(fq: Name, require: seq<Name>)

  type Lookup = map<Name, Patch>

  // ----- the meaning of a patch order -------------------------------------------------------

  /** `fq_lookup`: of two patches with one name the last wins. */
  function LookupOf(pending: seq<Patch>): Lookup
    decreases |pending|
  {
    if pending == [] then map[]
    else
      var last := pending[|pending| - 1];
      LookupOf(pending[..|pending| - 1])[last.fq := last]
  }

  /** `original_order`. */
  function IndexOf(pending: seq<Patch>): map<Name, nat>
    decreases |pending|
  {
    if pending == [] then map[]
    else IndexOf(pending[..|pending| - 1])[pending[|pending| - 1].fq := |pending| - 1]
  }

  /** `[r for r in reqs if r in fq_lookup]`. */
  function Pending(lookup: Lookup, reqs: seq<Name>): seq<Name>
    decreases |reqs|
  {
    if reqs == [] then []
    else
      var front := Pending(lookup, reqs[..|reqs| - 1]);
      if reqs[|reqs| - 1] in lookup then front + [reqs[|reqs| - 1]] else front
  }

  function ReqsOf(lookup: Lookup, n: Name): seq<Name>
    requires n in lookup
  {
    Pending(lookup, lookup[n].require)
  }

  /** The dependencies as the patches state them. */
  ghost function DepsOf(lookup: Lookup): Deps<Name> {
    map n | n in lookup :: Elements(ReqsOf(lookup, n))
  }

  /** The dependencies as the loop counts them. A patch that names one requirement twice waits
      for two decrements and gets one, so it waits for ever, as if it required itself. */
  ghost function CountedDeps(lookup: Lookup): Deps<Name> {
    map n | n in lookup ::
      Elements(ReqsOf(lookup, n)) + if Distinct(ReqsOf(lookup, n)) then {} else {n}
  }

  predicate IndexLe(index: map<Name, nat>, a: Name, b: Name) {
    a in index && b in index && index[a] <= index[b]
  }

  function ByIndex(index: map<Name, nat>): (Name, Name) -> bool {
    (a: Name, b: Name) => IndexLe(index, a, b)
  }

  function NamesOf(ps: seq<Patch>): seq<Name> {
    seq(|ps|, i requires 0 <= i < |ps| => ps[i].fq)
  }

  lemma {:induction false} IndexFacts(pending: seq<Patch>)
    ensures IndexOf(pending).Keys == LookupOf(pending).Keys
    ensures forall n :: n in IndexOf(pending) ==>
              IndexOf(pending)[n] < |pending| && pending[IndexOf(pending)[n]] == LookupOf(pending)[n]
              && LookupOf(pending)[n].fq == n
    ensures forall i :: 0 <= i < |pending| ==> pending[i].fq in IndexOf(pending) && i <= IndexOf(pending)[pending[i].fq]
    decreases |pending|
  {
    if pending != [] {
      var front, last := pending[..|pending| - 1], pending[|pending| - 1];
      IndexFacts(front);
      assert pending == front + [last];
      assert IndexOf(pending) == IndexOf(front)[last.fq := |front|];
      assert LookupOf(pending) == LookupOf(front)[last.fq := last];
    }
  }

  /** Every patch has a position of its own. */
  ghost predicate Positions(lookup: Lookup, index: map<Name, nat>) {
    index.Keys == lookup.Keys && forall a, b :: a in index && b in index && index[a] == index[b] ==> a == b
  }

  lemma PendingPositions(pending: seq<Patch>)
    ensures Positions(LookupOf(pending), IndexOf(pending))
    ensures forall n :: n in LookupOf(pending) ==> LookupOf(pending)[n].fq == n
  {
    IndexFacts(pending);
  }

  lemma IndexIsTotal(lookup: Lookup, index: map<Name, nat>)
    requires Positions(lookup, index)
    ensures TotalOrder(ByIndex(index), lookup.Keys)
  {
  }

  lemma {:induction false} PendingFacts(lookup: Lookup, reqs: seq<Name>)
    ensures forall d :: d in Pending(lookup, reqs) <==> d in reqs && d in lookup
    decreases |reqs|
  {
    if reqs != [] {
      PendingFacts(lookup, reqs[..|reqs| - 1]);
      assert reqs == reqs[..|reqs| - 1] + [reqs[|reqs| - 1]];
    }
  }

  lemma CountedIsClosed(lookup: Lookup)
    ensures CountedDeps(lookup).Keys == lookup.Keys
    ensures forall n :: n in lookup ==> CountedDeps(lookup)[n] <= lookup.Keys
  {
    forall n | n in lookup ensures CountedDeps(lookup)[n] <= lookup.Keys {
      PendingFacts(lookup, lookup[n].require);
    }
  }

  /** The answer: the least order by original position, or the patches no order can place. */
  ghost predicate Resolved(pending: seq<Patch>, r: Result<seq<Patch>, set<Name>>) {
    var lookup, le := LookupOf(pending), ByIndex(IndexOf(pending));
    match r
    case Ok(ps) =>
      LeastTopo(CountedDeps(lookup), le, NamesOf(ps)) &&
      Looked(lookup, ps, NamesOf(ps))
    case Err(unplaced) =>
      exists names :: IsGreedy(CountedDeps(lookup), le, names) && Available(CountedDeps(lookup), names) == {} &&
        unplaced == lookup.Keys - Elements(names) && unplaced != {}
  }

  // ----- counting -------------------------------------------------------------------------------

  ghost function Met(reqs: seq<Name>, done: seq<Name>): nat {
    |Elements(reqs) * Elements(done)|
  }

  lemma {:induction false} ElementsAtMost<T>(s: seq<T>)
    ensures |Elements(s)| <= |s| && (|Elements(s)| == |s| <==> Distinct(s))
    decreases |s|
  {
    if s == [] {
    } else {
      var front, last := s[..|s| - 1], s[|s| - 1];
      ElementsAtMost(front);
      assert s == front + [last];
      assert Elements(s) == Elements(front) + {last};
      if Distinct(s) { DistinctLength(s); }
      if |Elements(s)| == |s| { assert last !in front; }
    }
  }

  /** A counter is at zero exactly when the node may come next: the requirements are distinct
      and all placed. */
  lemma ZeroIsReady(lookup: Lookup, n: Name, done: seq<Name>)
    requires n in lookup && n !in done
    ensures |ReqsOf(lookup, n)| >= Met(ReqsOf(lookup, n), done)
    ensures |ReqsOf(lookup, n)| == Met(ReqsOf(lookup, n), done) <==> n in Available(CountedDeps(lookup), done)
  {
    var reqs := ReqsOf(lookup, n);
    var both := Elements(reqs) * Elements(done);
    ElementsAtMost(reqs);
    SubsetSize(both, Elements(reqs));
    if |both| == |reqs| {
      EqualSize(both, Elements(reqs));
    }
    if n in Available(CountedDeps(lookup), done) {
      assert n !in Elements(done);
      assert Distinct(reqs);
      assert both == Elements(reqs);
    }
  }

  lemma MetAfter(reqs: seq<Name>, done: seq<Name>, x: Name)
    requires x !in done
    ensures Met(reqs, done + [x]) == Met(reqs, done) + if x in reqs then 1 else 0
  {
    var before, after := Elements(reqs) * Elements(done), Elements(reqs) * Elements(done + [x]);
    assert Elements(done + [x]) == Elements(done) + {x};
    assert after == before + if x in reqs then {x} else {};
  }

  ghost predicate Degrees(lookup: Lookup, degree: map<Name, int>, done: seq<Name>) {
    degree.Keys == lookup.Keys &&
    forall n :: n in lookup ==> degree[n] == |ReqsOf(lookup, n)| - Met(ReqsOf(lookup, n), done)
  }

  ghost predicate Queued(lookup: Lookup, index: map<Name, nat>, queue: seq<Name>, done: seq<Name>) {
    Distinct(queue) && Elements(queue) == Available(CountedDeps(lookup), done) &&
    Ascending(ByIndex(index), queue)
  }

  // ----- the loop ---------------------------------------------------------------------------------

  /** The patches that wait for nothing, in their original order. */
  method Start(lookup: Lookup, index: map<Name, nat>) returns (degree: map<Name, int>, queue: seq<Name>)
    requires Positions(lookup, index)
    ensures Degrees(lookup, degree, []) && Queued(lookup, index, queue, [])
  {
    degree := map n | n in lookup :: |ReqsOf(lookup, n)|;
    assert forall n :: n in lookup ==> Elements(ReqsOf(lookup, n)) * Elements<Name>([]) == {};
    var ready := [];
    var todo := lookup.Keys;
    while todo != {}
      invariant todo <= lookup.Keys && Distinct(ready)
      invariant forall n :: n in ready <==> n in lookup.Keys - todo && degree[n] == 0
    {
      var n :| n in todo;
      todo := todo - {n};
      if degree[n] == 0 { ready := ready + [n]; }
    }
    forall n ensures n in ready <==> n in Available(CountedDeps(lookup), []) {
      if n in lookup { ZeroIsReady(lookup, n, []); }
    }
    IndexIsTotal(lookup, index);
    SortedSorts(ByIndex(index), ready, lookup.Keys);
    SortedKeepsElements(ByIndex(index), ready, lookup.Keys);
    queue := Sorted(ByIndex(index), ready);
  }

  /** The inner loop: every patch that requires `fq` loses one, and joins the queue at zero. */
  method Decrement(lookup: Lookup, index: map<Name, nat>, degree0: map<Name, int>, queue0: seq<Name>, fq: Name)
    returns (degree: map<Name, int>, queue: seq<Name>)
    requires Positions(lookup, index)
    requires degree0.Keys == lookup.Keys
    requires Distinct(queue0) && Ascending(ByIndex(index), queue0)
    requires forall n :: n in queue0 ==> n in degree0 && degree0[n] <= 0 && fq !in ReqsOf(lookup, n)
    ensures degree.Keys == degree0.Keys
    ensures forall n :: n in degree0 ==>
              degree[n] == degree0[n] - if fq in ReqsOf(lookup, n) then 1 else 0
    ensures Distinct(queue) && Ascending(ByIndex(index), queue)
    ensures forall n :: n in queue <==>
              n in queue0 || (n in degree && fq in ReqsOf(lookup, n) && degree[n] == 0)
  {
    var le := ByIndex(index);
    IndexIsTotal(lookup, index);
    degree, queue := degree0, queue0;
    var todo := lookup.Keys;
    while todo != {}
      invariant todo <= lookup.Keys && degree.Keys == degree0.Keys
      invariant forall n :: n in degree0 ==>
        degree[n] == degree0[n] - if n !in todo && fq in ReqsOf(lookup, n) then 1 else 0
      invariant Distinct(queue) && Ascending(le, queue)
      invariant forall n :: n in queue <==>
        n in queue0 || (n in degree && n !in todo && fq in ReqsOf(lookup, n) && degree[n] == 0)
    {
      var n :| n in todo;
      todo := todo - {n};
      if fq in ReqsOf(lookup, n) {
        degree := degree[n := degree[n] - 1];
        if degree[n] == 0 {
          assert n !in queue;
          queue := Enqueue(lookup, index, queue, n);
        }
      }
    }
  }

  method Enqueue(lookup: Lookup, index: map<Name, nat>, queue0: seq<Name>, n: Name) returns (queue: seq<Name>)
    requires Positions(lookup, index)
    requires Distinct(queue0) && n !in queue0 && n in lookup
    requires forall y :: y in queue0 ==> y in lookup
    ensures Distinct(queue) && Ascending(ByIndex(index), queue)
    ensures forall y :: y in queue <==> y in queue0 || y == n
  {
    var le := ByIndex(index);
    queue := queue0 + [n];
    IndexIsTotal(lookup, index);
    SortedSorts(le, queue, lookup.Keys);
    SortedKeepsElements(le, queue, lookup.Keys);
    forall y ensures y in Sorted(le, queue) <==> y in queue {
      assert y in Elements(Sorted(le, queue)) <==> y in Elements(queue);
    }
    queue := Sorted(le, queue);
  }

  lemma QueueHead(lookup: Lookup, index: map<Name, nat>, queue: seq<Name>, done: seq<Name>)
    requires Positions(lookup, index)
    requires Queued(lookup, index, queue, done) && queue != []
    requires IsGreedy(CountedDeps(lookup), ByIndex(index), done)
    ensures queue[0] in lookup && queue[0] !in done && queue[0] !in queue[1..] && Distinct(queue[1..])
    ensures IsGreedy(CountedDeps(lookup), ByIndex(index), done + [queue[0]])
    ensures |done| < |lookup|
  {
    var le := ByIndex(index);
    IndexIsTotal(lookup, index);
    forall n | n in queue ensures n in lookup.Keys { assert n in Elements(queue); }
    FirstIsLeast(le, queue, lookup.Keys);
    GreedyAppend(CountedDeps(lookup), le, done, queue[0]);
    assert queue[0] in Elements(queue);
    var more := done + [queue[0]];
    GreedyIsDistinct(CountedDeps(lookup), le, more);
    DistinctLength(more);
    SubsetSize(Elements(more), lookup.Keys);
  }

  /** One patch placed: the queue is again what may come next. */
  method Place(lookup: Lookup, index: map<Name, nat>, degree0: map<Name, int>, queue0: seq<Name>, ghost done: seq<Name>)
    returns (degree: map<Name, int>, queue: seq<Name>)
    requires Positions(lookup, index)
    requires queue0 != [] && Queued(lookup, index, queue0, done) && Degrees(lookup, degree0, done)
    requires IsGreedy(CountedDeps(lookup), ByIndex(index), done)
    ensures Queued(lookup, index, queue, done + [queue0[0]])
    ensures Degrees(lookup, degree, done + [queue0[0]])
  {
    QueueHead(lookup, index, queue0, done);
    QueueRest(lookup, index, degree0, queue0, done);
    degree, queue := Decrement(lookup, index, degree0, queue0[1..], queue0[0]);
    NowQueued(lookup, index, degree0, degree, queue0, queue, done);
  }

  lemma QueueRest(lookup: Lookup, index: map<Name, nat>, degree0: map<Name, int>, queue0: seq<Name>, done: seq<Name>)
    requires Positions(lookup, index)
    requires queue0 != [] && Queued(lookup, index, queue0, done) && Degrees(lookup, degree0, done)
    requires queue0[0] in lookup && queue0[0] !in done
    ensures Ascending(ByIndex(index), queue0[1..])
    ensures forall n :: n in queue0[1..] ==> n in degree0 && degree0[n] <= 0 && queue0[0] !in ReqsOf(lookup, n)
  {
    forall n | n in queue0[1..]
      ensures n in degree0 && degree0[n] <= 0 && queue0[0] !in ReqsOf(lookup, n)
    {
      assert n in queue0 && n in Elements(queue0);
      ZeroIsReady(lookup, n, done);
      ReadyNeedsNothing(lookup, n, done, queue0[0]);
    }
  }

  lemma NowQueued(lookup: Lookup, index: map<Name, nat>, degree0: map<Name, int>, degree: map<Name, int>,
                  queue0: seq<Name>, queue: seq<Name>, done: seq<Name>)
    requires Positions(lookup, index)
    requires queue0 != [] && Queued(lookup, index, queue0, done) && Degrees(lookup, degree0, done)
    requires IsGreedy(CountedDeps(lookup), ByIndex(index), done + [queue0[0]])
    requires queue0[0] in lookup && queue0[0] !in done
    requires degree.Keys == degree0.Keys
    requires forall n :: n in degree0 ==>
               degree[n] == degree0[n] - if queue0[0] in ReqsOf(lookup, n) then 1 else 0
    requires Distinct(queue) && Ascending(ByIndex(index), queue)
    requires forall n :: n in queue <==>
               (n in queue0[1..] || (n in degree && queue0[0] in ReqsOf(lookup, n) && degree[n] == 0))
    ensures Queued(lookup, index, queue, done + [queue0[0]])
    ensures Degrees(lookup, degree, done + [queue0[0]])
  {
    forall n | n in lookup
      ensures degree[n] == |ReqsOf(lookup, n)| - Met(ReqsOf(lookup, n), done + [queue0[0]])
    {
      MetAfter(ReqsOf(lookup, n), done, queue0[0]);
    }
    forall n ensures n in queue <==> n in Available(CountedDeps(lookup), done + [queue0[0]]) {
      NowReady(lookup, index, degree0, degree, queue0, queue, done, n);
    }
  }

  lemma ReadyNeedsNothing(lookup: Lookup, n: Name, done: seq<Name>, x: Name)
    requires n in Available(CountedDeps(lookup), done) && x !in done
    ensures x !in ReqsOf(lookup, n)
  {
    assert x !in Elements(done);
    assert Elements(ReqsOf(lookup, n)) <= CountedDeps(lookup)[n];
  }

  lemma NowReady(lookup: Lookup, index: map<Name, nat>, degree0: map<Name, int>, degree: map<Name, int>,
                 queue0: seq<Name>, queue: seq<Name>, done: seq<Name>, n: Name)
    requires Positions(lookup, index)
    requires queue0 != [] && Queued(lookup, index, queue0, done) && Degrees(lookup, degree0, done)
    requires Degrees(lookup, degree, done + [queue0[0]])
    requires IsGreedy(CountedDeps(lookup), ByIndex(index), done + [queue0[0]])
    requires queue0[0] in lookup && queue0[0] !in done
    requires forall n :: n in degree0 ==>
               degree[n] == degree0[n] - if queue0[0] in ReqsOf(lookup, n) then 1 else 0
    requires n in queue <==> (n in queue0[1..] || (n in degree && queue0[0] in ReqsOf(lookup, n) && degree[n] == 0))
    ensures n in queue <==> n in Available(CountedDeps(lookup), done + [queue0[0]])
  {
    var fq := queue0[0];
    assert queue0 == [fq] + queue0[1..];
    assert n in queue0 <==> n in Elements(queue0);
    if n in lookup {
      if n in done + [fq] {
        PlacedIsDone(lookup, index, done + [fq], n);
        QueueIsNew(lookup, index, queue0, done, n);
      } else {
        ZeroIsReady(lookup, n, done);
        ZeroIsReady(lookup, n, done + [fq]);
        if n in queue0 { ReadyNeedsNothing(lookup, n, done, fq); }
      }
    }
  }

  lemma QueueIsNew(lookup: Lookup, index: map<Name, nat>, queue0: seq<Name>, done: seq<Name>, n: Name)
    requires Positions(lookup, index)
    requires queue0 != [] && Queued(lookup, index, queue0, done) && n in done + [queue0[0]]
    ensures n !in queue0[1..]
  {
    forall i | 0 <= i < |queue0[1..]| ensures queue0[1..][i] != n {
      assert queue0[1..][i] == queue0[i + 1] && queue0[i + 1] in Elements(queue0);
    }
  }

  /** What is placed required only what was placed before it, and not `fq`, which comes last. */
  lemma PlacedIsDone(lookup: Lookup, index: map<Name, nat>, done: seq<Name>, n: Name)
    requires Positions(lookup, index)
    requires done != [] && IsGreedy(CountedDeps(lookup), ByIndex(index), done) && n in done
    ensures n in lookup && done[|done| - 1] !in ReqsOf(lookup, n)
  {
    GreedyIsDistinct(CountedDeps(lookup), ByIndex(index), done);
    var i :| 0 <= i < |done| && done[i] == n;
    assert Elements(ReqsOf(lookup, n)) <= CountedDeps(lookup)[n] <= Elements(done[..i]);
    forall x | x in Elements(done[..i]) ensures x != done[|done| - 1] {
      var j :| 0 <= j < i && done[..i][j] == x;
    }
    assert forall x :: x in ReqsOf(lookup, n) ==> x in Elements(ReqsOf(lookup, n));
  }

  ghost predicate Looked(lookup: Lookup, result: seq<Patch>, names: seq<Name>) {
    NamesOf(result) == names &&
    forall i :: 0 <= i < |result| ==> result[i].fq in lookup && result[i] == lookup[result[i].fq]
  }

  lemma LookedAppend(lookup: Lookup, result: seq<Patch>, names: seq<Name>, fq: Name)
    requires Looked(lookup, result, names) && fq in lookup && lookup[fq].fq == fq
    ensures Looked(lookup, result + [lookup[fq]], names + [fq])
  {
  }

  /** The main loop. */
  method Kahn(lookup: Lookup, index: map<Name, nat>) returns (names: seq<Name>, result: seq<Patch>)
    requires Positions(lookup, index) && forall n :: n in lookup ==> lookup[n].fq == n
    ensures IsGreedy(CountedDeps(lookup), ByIndex(index), names) && Available(CountedDeps(lookup), names) == {}
    ensures Looked(lookup, result, names)
  {
    var degree, queue := Start(lookup, index);
    names, result := [], [];
    while queue != []
      invariant Degrees(lookup, degree, names) && Queued(lookup, index, queue, names)
      invariant IsGreedy(CountedDeps(lookup), ByIndex(index), names)
      invariant Looked(lookup, result, names)
      decreases |lookup| - |names|
    {
      QueueHead(lookup, index, queue, names);
      var fq := queue[0];
      LookedAppend(lookup, result, names, fq);
      result := result + [lookup[fq]];
      degree, queue := Place(lookup, index, degree, queue, names);
      names := names + [fq];
    }
    EmptyQueue(lookup, index, names);
  }

  lemma EmptyQueue(lookup: Lookup, index: map<Name, nat>, done: seq<Name>)
    requires Queued(lookup, index, [], done)
    ensures Available(CountedDeps(lookup), done) == {}
  {
    assert Elements<Name>([]) == {};
  }

  method ResolvePatchOrder(pending: seq<Patch>) returns (r: Result<seq<Patch>, set<Name>>)
    ensures Resolved(pending, r)
  {
    if pending == [] {
      r := Ok([]);
      EmptyIsLeast();
      return;
    }
    var lookup, index := LookupOf(pending), IndexOf(pending);
    PendingPositions(pending);
    var names, result := Kahn(lookup, index);
    assert |result| == |NamesOf(result)|;
    KahnDecides(lookup, index, names);
    if |result| != |lookup| {
      r := Err(set n | n in lookup && n !in names);
    } else {
      r := Ok(result);
    }
  }

  lemma KahnDecides(lookup: Lookup, index: map<Name, nat>, names: seq<Name>)
    requires IsGreedy(CountedDeps(lookup), ByIndex(index), names) && Available(CountedDeps(lookup), names) == {}
    ensures |names| == |lookup| ==> LeastTopo(CountedDeps(lookup), ByIndex(index), names)
    ensures |names| != |lookup| ==> lookup.Keys - Elements(names) != {}
    ensures (set n | n in lookup && n !in names) == lookup.Keys - Elements(names)
  {
    CountedIsClosed(lookup);
    GreedyDecides(CountedDeps(lookup), ByIndex(index), names);
    GreedyIsDistinct(CountedDeps(lookup), ByIndex(index), names);
    DistinctLength(names);
    assert |CountedDeps(lookup).Keys| == |lookup.Keys|;
    if |names| != |lookup| {
      var x := Missed(Elements(names), lookup.Keys);
      assert x in lookup.Keys - Elements(names);
    }
  }

  lemma EmptyIsLeast()
    ensures Resolved([], Ok([]))
  {
    var deps := CountedDeps(LookupOf([]));
    forall t | IsTopo(deps, t) ensures t == NamesOf([]) { DistinctLength(t); }
  }

  // ----- what the order promises ------------------------------------------------------------------

  ghost predicate Repeats(lookup: Lookup) {
    exists n :: n in lookup && !Distinct(ReqsOf(lookup, n))
  }

  lemma CountedIsStated(lookup: Lookup)
    requires !Repeats(lookup)
    ensures CountedDeps(lookup) == DepsOf(lookup)
  {
    forall n | n in lookup ensures CountedDeps(lookup)[n] == DepsOf(lookup)[n] {
      assert Distinct(ReqsOf(lookup, n));
    }
  }

  lemma CountedCycles(lookup: Lookup)
    ensures Cyclic(CountedDeps(lookup)) <==> Cyclic(DepsOf(lookup)) || Repeats(lookup)
  {
    if Repeats(lookup) {
      var n :| n in lookup && !Distinct(ReqsOf(lookup, n));
      assert Cycle(CountedDeps(lookup), [n, n]);
    } else {
      CountedIsStated(lookup);
    }
  }

  lemma ErrIsCycle(lookup: Lookup, le: (Name, Name) -> bool, names: seq<Name>)
    requires IsGreedy(CountedDeps(lookup), le, names) && Available(CountedDeps(lookup), names) == {}
    requires lookup.Keys - Elements(names) != {}
    ensures Cyclic(CountedDeps(lookup))
  {
    CountedIsClosed(lookup);
    var x :| x in lookup.Keys - Elements(names);
    var c := StuckHasCycle(CountedDeps(lookup), names, x);
  }

  lemma OkIsAcyclic(deps: Deps<Name>, names: seq<Name>)
    requires IsTopo(deps, names)
    ensures !Cyclic(deps)
  {
    forall p ensures !Cycle(deps, p) {
      if Cycle(deps, p) { CycleHasNoOrder(deps, p, names); }
    }
  }

  /** `CyclicPatchDependencyError` is raised exactly on a cycle or on a patch that names one
      pending requirement twice; otherwise the result is the least valid order. */
  lemma ResolvedMeans(pending: seq<Patch>, r: Result<seq<Patch>, set<Name>>)
    requires Resolved(pending, r)
    ensures r.Err? <==> Cyclic(DepsOf(LookupOf(pending))) || Repeats(LookupOf(pending))
    ensures r.Ok? ==> LeastTopo(DepsOf(LookupOf(pending)), ByIndex(IndexOf(pending)), NamesOf(r.value))
    ensures r.Err? ==> r.error <= LookupOf(pending).Keys && r.error != {}
  {
    var lookup, le := LookupOf(pending), ByIndex(IndexOf(pending));
    CountedCycles(lookup);
    if r.Ok? {
      OkIsAcyclic(CountedDeps(lookup), NamesOf(r.value));
      CountedIsStated(lookup);
    } else {
      var names :| IsGreedy(CountedDeps(lookup), le, names) && Available(CountedDeps(lookup), names) == {} &&
                   r.error == lookup.Keys - Elements(names);
      ErrIsCycle(lookup, le, names);
    }
  }

  /** The repeat really is refused: `b` requires `a` twice, there is no cycle, and the only
      answer the code can give is the cycle error. */
  lemma RepeatIsRefused(a: Name, b: Name, r: Result<seq<Patch>, set<Name>>)
    requires a != b && Resolved([Patch(a, []), Patch(b, [a, a])], r)
    ensures r.Err? && !Cyclic(DepsOf(LookupOf([Patch(a, []), Patch(b, [a, a])])))
  {
    var pending := [Patch(a, []), Patch(b, [a, a])];
    var lookup := LookupOf(pending);
    TwoPatches(a, b);
    var reqs := ReqsOf(lookup, b);
    assert reqs[0] == reqs[1];
    ResolvedMeans(pending, r);
    OkIsAcyclic(DepsOf(lookup), [a, b]);
  }

  lemma TwoPatches(a: Name, b: Name)
    requires a != b
    ensures var lookup := LookupOf([Patch(a, []), Patch(b, [a, a])]);
      b in lookup && ReqsOf(lookup, b) == [a, a] && IsTopo(DepsOf(lookup), [a, b])
  {
    var pending := [Patch(a, []), Patch(b, [a, a])];
    var lookup := map[a := Patch(a, []), b := Patch(b, [a, a])];
    assert pending[..1] == [Patch(a, [])] && [Patch(a, [])][..0] == [];
    assert LookupOf([Patch(a, [])]) == map[a := Patch(a, [])];
    assert LookupOf(pending) == lookup;
    TwoRequires(lookup, a);
    TwoInOrder(lookup, a, b);
  }

  lemma TwoInOrder(lookup: Lookup, a: Name, b: Name)
    requires a != b && lookup.Keys == {a, b} && ReqsOf(lookup, a) == [] && ReqsOf(lookup, b) == [a, a]
    ensures IsTopo(DepsOf(lookup), [a, b])
  {
    assert Elements([a, a]) == {a} && Elements<Name>([]) == {};
    assert DepsOf(lookup)[a] == {} && DepsOf(lookup)[b] == {a};
    assert [a, b][..0] == [] && [a, b][..1] == [a] && Elements([a, b]) == {a, b};
  }

  lemma TwoRequires(lookup: Lookup, a: Name)
    requires a in lookup
    ensures Pending(lookup, []) == [] && Pending(lookup, [a, a]) == [a, a]
  {
    assert [a, a][..1] == [a] && [a][..0] == [];
    assert Pending(lookup, [a]) == [a];
  }

  /** A pending list that is already valid comes back as it was. */
  lemma ValidListIsUnchanged(pending: seq<Patch>, r: Result<seq<Patch>, set<Name>>)
    requires Resolved(pending, r)
    requires !Repeats(LookupOf(pending)) && IsTopo(DepsOf(LookupOf(pending)), NamesOf(pending))
    ensures r == Ok(pending)
  {
    var names := NamesOf(pending);
    ResolvedMeans(pending, r);
    OkIsAcyclic(DepsOf(LookupOf(pending)), names);
    PositionsAreIndexes(pending);
    FirstInPlace(DepsOf(LookupOf(pending)), IndexOf(pending), NamesOf(r.value), names);
    IndexFacts(pending);
    assert |r.value| == |NamesOf(r.value)| && |pending| == |names|;
    forall i | 0 <= i < |pending| ensures r.value[i] == pending[i] {
      assert NamesOf(r.value)[i] == r.value[i].fq && names[i] == pending[i].fq;
    }
    assert r.value == pending;
  }

  lemma FirstInPlace(deps: Deps<Name>, index: map<Name, nat>, got: seq<Name>, names: seq<Name>)
    requires LeastTopo(deps, ByIndex(index), got) && IsTopo(deps, names)
    requires forall i :: 0 <= i < |names| ==> names[i] in index && index[names[i]] == i
    ensures got == names
  {
    forall i | 0 <= i < |got| && i < |names| && (forall k :: 0 <= k < i ==> got[k] == names[k])
      ensures got[i] == names[i] || !IndexLe(index, got[i], names[i])
    {
      LaterInNames(deps, got, names, i);
    }
    assert forall i :: 0 <= i < |got| && i < |names| && ByIndex(index)(got[i], names[i]) ==>
             IndexLe(index, got[i], names[i]);
    assert !Precedes(ByIndex(index), got, names);
  }

  lemma LaterInNames(deps: Deps<Name>, got: seq<Name>, names: seq<Name>, i: nat)
    requires IsTopo(deps, got) && IsTopo(deps, names) && i < |got| && i < |names|
    requires forall k :: 0 <= k < i ==> got[k] == names[k]
    ensures exists j :: i <= j < |names| && names[j] == got[i]
  {
    assert got[i] in Elements(got) && got[i] in Elements(names);
    assert forall k :: 0 <= k < i ==> names[k] == got[k] && got[k] != got[i];
    var j :| 0 <= j < |names| && names[j] == got[i];
  }

  lemma PositionsAreIndexes(pending: seq<Patch>)
    requires Distinct(NamesOf(pending))
    ensures forall i :: 0 <= i < |pending| ==> pending[i].fq in IndexOf(pending) && IndexOf(pending)[pending[i].fq] == i
  {
    IndexFacts(pending);
    forall i | 0 <= i < |pending| ensures IndexOf(pending)[pending[i].fq] == i {
      var j := IndexOf(pending)[pending[i].fq];
      assert NamesOf(pending)[i] == NamesOf(pending)[j];
    }
  }
}
