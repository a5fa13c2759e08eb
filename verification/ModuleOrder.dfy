/** `dependency_resolver.py`: which modules load, in which order, and who depends on whom. */
module ModuleOrder {
  import opened Wrappers
  import opened TopoOrder
  import opened Sorting

  datatype Manifest = Manifest(name: Name, sequence: seq<Name>, order: int)

  type Modules = map<Name, Manifest>

  // ----- the meaning of a resolved order ----------------------------------------------------

  /** `{m.name: m for m in manifests}`: of two manifests with one name the last wins. */
  function ByName(manifests: seq<Manifest>): Modules
    decreases |manifests|
  {
    if manifests == [] then map[]
    else
      var last := manifests[|manifests| - 1];
      ByName(manifests[..|manifests| - 1])[last.name := last]
  }

  /** Every module of `kept` has all it depends on within `kept`. */
  ghost predicate SelfContained(all: Modules, kept: set<Name>) {
    kept <= all.Keys && forall n, d :: n in kept && d in all[n].sequence ==> d in kept
  }

  ghost predicate GreatestKept(all: Modules, kept: set<Name>) {
    SelfContained(all, kept) && forall other :: SelfContained(all, other) ==> other <= kept
  }

  ghost function DepsOf(valid: Modules): Deps<Name> {
    map n | n in valid :: Elements(valid[n].sequence)
  }

  predicate KeyLe(valid: Modules, a: Name, b: Name) {
    a in valid && b in valid &&
    (valid[a].order < valid[b].order || (valid[a].order == valid[b].order && NameLe(a, b)))
  }

  function ByKey(valid: Modules): (Name, Name) -> bool {
    (a: Name, b: Name) => KeyLe(valid, a, b)
  }

  lemma KeyIsTotal(valid: Modules)
    ensures TotalOrder(ByKey(valid), valid.Keys)
  {
    forall a, b | a in valid && b in valid
      ensures KeyLe(valid, a, b) || KeyLe(valid, b, a)
      ensures KeyLe(valid, a, b) && KeyLe(valid, b, a) ==> a == b
    {
      TextLeIsTotal(a.text, b.text);
    }
    forall a, b, c | a in valid && b in valid && c in valid && KeyLe(valid, a, b) && KeyLe(valid, b, c)
      ensures KeyLe(valid, a, c)
    {
      if NameLe(a, b) && NameLe(b, c) { TextLeIsTransitive(a.text, b.text, c.text); }
    }
  }

  function NamesOf(ms: seq<Manifest>): seq<Name> {
    seq(|ms|, i requires 0 <= i < |ms| => ms[i].name)
  }

  ghost function Restrict(all: Modules, kept: set<Name>): Modules {
    map n | n in all && n in kept :: all[n]
  }

  /** The answer the source owes for a set of modules: the least order of the greatest
      self-contained subset, or the modules that no order can place. */
  ghost predicate Resolved(all: Modules, r: Result<seq<Manifest>, set<Name>>) {
    exists kept :: GreatestKept(all, kept) && ResolvedIn(Restrict(all, kept), r)
  }

  ghost predicate ResolvedIn(valid: Modules, r: Result<seq<Manifest>, set<Name>>) {
    match r
    case Ok(ms) =>
      LeastTopo(DepsOf(valid), ByKey(valid), NamesOf(ms)) &&
      forall i :: 0 <= i < |ms| ==> ms[i].name in valid && ms[i] == valid[ms[i].name]
    case Err(unplaced) =>
      exists names :: IsGreedy(DepsOf(valid), ByKey(valid), names) && Available(DepsOf(valid), names) == {} &&
        unplaced == valid.Keys - Elements(names) && unplaced != {}
  }

  lemma {:induction false} ByNameNamesItself(manifests: seq<Manifest>)
    ensures forall n :: n in ByName(manifests) ==>
              ByName(manifests)[n].name == n && ByName(manifests)[n] in manifests
    ensures forall m :: m in manifests ==> m.name in ByName(manifests)
    decreases |manifests|
  {
    if manifests != [] {
      var front := manifests[..|manifests| - 1];
      ByNameNamesItself(front);
      assert manifests == front + [manifests[|manifests| - 1]];
    }
  }

  /** Of two manifests with one name the later one stands. */
  lemma {:induction false} LastOfNameWins(manifests: seq<Manifest>, i: nat)
    requires i < |manifests| && forall j :: i < j < |manifests| ==> manifests[j].name != manifests[i].name
    ensures manifests[i].name in ByName(manifests) && ByName(manifests)[manifests[i].name] == manifests[i]
    decreases |manifests|
  {
    if i < |manifests| - 1 { LastOfNameWins(manifests[..|manifests| - 1], i); }
  }

  // ----- the skip loop ------------------------------------------------------------------------

  /** What the skip loop keeps true: nothing that could be kept has been dropped. */
  ghost predicate Skipping(all: Modules, skipped: set<Name>, remaining: Modules) {
    remaining.Keys == all.Keys - skipped && remaining == Restrict(all, remaining.Keys) &&
    forall other :: SelfContained(all, other) ==> other <= remaining.Keys
  }

  lemma SkipOne(all: Modules, skipped: set<Name>, remaining: Modules, name: Name, missing: Name)
    requires Skipping(all, skipped, remaining) && name in remaining
    requires missing in all[name].sequence && missing !in remaining
    ensures Skipping(all, skipped + {name}, remaining - {name})
    ensures |remaining - {name}| < |remaining|
  {
    assert (remaining - {name}).Keys == remaining.Keys - {name};
    forall other | SelfContained(all, other) ensures other <= (remaining - {name}).Keys {
      assert missing !in other;
    }
  }

  predicate Satisfied(deps: seq<Name>, available: set<Name>) {
    forall i :: 0 <= i < |deps| ==> deps[i] in available
  }

  /** One pass of the loop over the modules that remain. */
  method SkipPass(all: Modules, remaining0: Modules, skipped0: set<Name>)
    returns (remaining: Modules, skipped: set<Name>, changed: bool)
    requires Skipping(all, skipped0, remaining0)
    ensures Skipping(all, skipped, remaining)
    ensures if changed then |remaining| < |remaining0|
            else remaining == remaining0 && SelfContained(all, remaining.Keys)
  {
    remaining, skipped, changed := remaining0, skipped0, false;
    var available, todo := all.Keys, remaining0.Keys;
    while todo != {}
      invariant todo <= remaining.Keys && Skipping(all, skipped, remaining)
      invariant if changed then |remaining| < |remaining0| else remaining == remaining0
      invariant !changed ==> forall n :: n in remaining.Keys - todo ==> Satisfied(all[n].sequence, remaining.Keys)
      decreases todo
    {
      var name :| name in todo;
      todo := todo - {name};
      var deps := remaining[name].sequence;
      if !Satisfied(deps, available - skipped) {
        ghost var i :| 0 <= i < |deps| && deps[i] !in available - skipped;
        SkipOne(all, skipped, remaining, name, deps[i]);
        skipped, remaining, changed := skipped + {name}, remaining - {name}, true;
      }
    }
  }

  /** Iteratively drops the modules whose dependencies cannot be satisfied. */
  method KeepSatisfiable(all: Modules) returns (remaining: Modules)
    ensures GreatestKept(all, remaining.Keys) && remaining == Restrict(all, remaining.Keys)
  {
    var skipped: set<Name> := {};
    remaining := all;
    assert remaining.Keys == all.Keys - skipped;
    var changed := true;
    while changed
      invariant Skipping(all, skipped, remaining)
      invariant !changed ==> SelfContained(all, remaining.Keys)
      decreases |remaining|, if changed then 1 else 0
    {
      remaining, skipped, changed := SkipPass(all, remaining, skipped);
    }
  }

  // ----- Kahn's algorithm -----------------------------------------------------------------------

  /** How many entries of a dependency list are not placed yet. */
  ghost function Unmet(sequence: seq<Name>, done: set<Name>): nat {
    if sequence == [] then 0
    else (if sequence[0] in done then 0 else 1) + Unmet(sequence[1..], done)
  }

  lemma {:induction false} UnmetIsZero(sequence: seq<Name>, done: set<Name>)
    ensures Unmet(sequence, done) == 0 <==> Elements(sequence) <= done
  {
    if sequence != [] {
      UnmetIsZero(sequence[1..], done);
      assert sequence == [sequence[0]] + sequence[1..];
      assert Elements(sequence) == {sequence[0]} + Elements(sequence[1..]);
    }
  }

  lemma {:induction false} UnmetAfter(sequence: seq<Name>, done: set<Name>, x: Name)
    requires x !in done
    ensures Unmet(sequence, done + {x}) == Unmet(sequence, done) - Count(sequence, x)
  {
    if sequence != [] {
      UnmetAfter(sequence[1..], done, x);
      assert sequence == [sequence[0]] + sequence[1..];
    }
  }

  lemma {:induction false} UnmetAll(sequence: seq<Name>)
    ensures Unmet(sequence, {}) == |sequence|
  {
    if sequence != [] { UnmetAll(sequence[1..]); }
  }

  /** `dependents[d]` lists `n` once per mention of `d` in `n.sequence`, for `n` not in `todo`. */
  ghost predicate Mentions(valid: Modules, dependents: map<Name, seq<Name>>, todo: set<Name>) {
    dependents.Keys == valid.Keys &&
    (forall d, n :: d in valid && n in dependents[d] ==> n in valid) &&
    (forall d, n :: d in valid && n in valid ==>
      Count(dependents[d], n) == if n in todo then 0 else Count(valid[n].sequence, d))
  }

  method BuildDependents(valid: Modules) returns (dependents: map<Name, seq<Name>>)
    requires forall n, d :: n in valid && d in valid[n].sequence ==> d in valid
    ensures Mentions(valid, dependents, {})
  {
    dependents := map n | n in valid :: [];
    var todo := valid.Keys;
    while todo != {}
      invariant todo <= valid.Keys && Mentions(valid, dependents, todo)
    {
      var name :| name in todo;
      dependents := AddMentions(valid, dependents, name, todo);
      todo := todo - {name};
    }
  }

  /** Of `name`, the first `i` mentions are listed; of the others, what was. */
  ghost predicate Adding(valid: Modules, start: map<Name, seq<Name>>, dependents: map<Name, seq<Name>>,
                         name: Name, deps: seq<Name>) {
    dependents.Keys == valid.Keys == start.Keys &&
    (forall d, n :: d in valid && n in dependents[d] ==> n in valid) &&
    (forall d, n :: d in valid && n in valid && n != name ==> Count(dependents[d], n) == Count(start[d], n)) &&
    (forall d :: d in valid ==> Count(dependents[d], name) == Count(deps, d))
  }

  lemma AddOne(valid: Modules, start: map<Name, seq<Name>>, dependents: map<Name, seq<Name>>,
               name: Name, deps: seq<Name>, dep: Name)
    requires Adding(valid, start, dependents, name, deps) && dep in valid && name in valid
    ensures Adding(valid, start, dependents[dep := dependents[dep] + [name]], name, deps + [dep])
  {
    var after := dependents[dep := dependents[dep] + [name]];
    forall d, n | d in valid
      ensures Count(after[d], n) == Count(dependents[d], n) + if d == dep && n == name then 1 else 0
    {
      CountSnoc(dependents[dep], name, n);
    }
    forall d ensures Count(deps + [dep], d) == Count(deps, d) + if d == dep then 1 else 0 {
      CountSnoc(deps, dep, d);
    }
  }

  method AddMentions(valid: Modules, dependents0: map<Name, seq<Name>>, name: Name, ghost todo: set<Name>)
    returns (dependents: map<Name, seq<Name>>)
    requires Mentions(valid, dependents0, todo) && name in todo && name in valid
    requires forall d :: d in valid[name].sequence ==> d in valid
    ensures Mentions(valid, dependents, todo - {name})
  {
    dependents := dependents0;
    var deps := valid[name].sequence;
    for i := 0 to |deps|
      invariant Adding(valid, dependents0, dependents, name, deps[..i])
    {
      assert deps[i] in deps;
      assert deps[..i + 1] == deps[..i] + [deps[i]];
      AddOne(valid, dependents0, dependents, name, deps[..i], deps[i]);
      dependents := dependents[deps[i] := dependents[deps[i]] + [name]];
    }
    assert deps[..|deps|] == deps;
  }

  ghost predicate Degrees(valid: Modules, degree: map<Name, int>, done: seq<Name>) {
    degree.Keys == valid.Keys &&
    forall n :: n in valid ==> degree[n] == Unmet(valid[n].sequence, Elements(done))
  }

  lemma AvailableByDegree(valid: Modules, done: seq<Name>, n: Name)
    ensures n in Available(DepsOf(valid), done) <==>
            n in valid && n !in done && Unmet(valid[n].sequence, Elements(done)) == 0
  {
    if n in valid { UnmetIsZero(valid[n].sequence, Elements(done)); }
  }

  lemma DegreesAfter(valid: Modules, dependents: map<Name, seq<Name>>, degree: map<Name, int>,
                     done: seq<Name>, current: Name, list: seq<Name>)
    requires Mentions(valid, dependents, {}) && Degrees(valid, degree, done)
    requires current in valid && current !in done
    requires list == Sorted(NameLe, dependents[current])
    ensures forall n :: n in list ==> n in valid
    ensures forall n :: n in valid ==>
              Unmet(valid[n].sequence, Elements(done + [current])) == degree[n] - Count(list, n)
  {
    NamesAreTotal(valid.Keys);
    SortedKeepsElements(NameLe, dependents[current], valid.Keys);
    forall n | n in list ensures n in valid { assert n in Elements(list); }
    forall n | n in valid
      ensures Unmet(valid[n].sequence, Elements(done + [current])) == degree[n] - Count(list, n)
    {
      assert Elements(done + [current]) == Elements(done) + {current};
      UnmetAfter(valid[n].sequence, Elements(done), current);
      SortedKeepsCounts(NameLe, dependents[current], n);
    }
  }

  /** One module placed: every mention of it is met, and the modules that waited for nothing
      else join the queue. */
  method Decrement(list: seq<Name>, degree0: map<Name, int>, queue0: seq<Name>)
    returns (degree: map<Name, int>, queue: seq<Name>)
    requires forall n :: n in list ==> n in degree0 && Count(list, n) <= degree0[n]
    requires Distinct(queue0) && forall n :: n in queue0 ==> n in degree0 && degree0[n] == 0
    ensures degree.Keys == degree0.Keys
    ensures forall n :: n in degree0 ==> degree[n] == degree0[n] - Count(list, n)
    ensures Distinct(queue)
    ensures forall n :: n in queue <==> n in queue0 || (n in list && degree[n] == 0)
  {
    degree, queue := degree0, queue0;
    for i := 0 to |list|
      invariant degree.Keys == degree0.Keys
      invariant forall n :: n in degree0 ==> degree[n] == degree0[n] - Count(list[..i], n)
      invariant Distinct(queue)
      invariant forall n :: n in queue <==> n in queue0 || (n in list[..i] && degree[n] == 0)
    {
      var dep := list[i];
      assert list[..i + 1] == list[..i] + [dep];
      OnePast(list, i);
      CountIn(list, dep);
      assert dep in list;
      degree := degree[dep := degree[dep] - 1];
      if degree[dep] == 0 {
        queue := queue + [dep];
      }
    }
    assert list[..|list|] == list;
  }

  lemma OnePast(list: seq<Name>, i: nat)
    requires i < |list|
    ensures forall n :: Count(list[..i + 1], n) == Count(list[..i], n) + if n == list[i] then 1 else 0
    ensures Count(list[..i], list[i]) + 1 <= Count(list, list[i])
  {
    assert list[..i + 1] == list[..i] + [list[i]];
    forall n { CountSnoc(list[..i], list[i], n); }
    assert list == list[..i + 1] + list[i + 1..];
    CountConcat(list[..i + 1], list[i + 1..], list[i]);
  }

  lemma Waiting(valid: Modules, done: seq<Name>, degree: map<Name, int>, current: Name, queue: seq<Name>)
    requires Degrees(valid, degree, done)
    requires Distinct([current] + queue) && Elements([current] + queue) == Available(DepsOf(valid), done)
    ensures Distinct(queue) && current !in queue
    ensures forall n :: n in queue || n == current <==> n in valid && n !in done && degree[n] == 0
  {
    var both := [current] + queue;
    assert forall i :: 0 <= i < |queue| ==> both[i + 1] == queue[i];
    forall n ensures n in queue || n == current <==> n in valid && n !in done && degree[n] == 0 {
      assert n in both <==> n in Elements(both);
      AvailableByDegree(valid, done, n);
    }
    forall i | 0 <= i < |queue| ensures queue[i] != current { assert both[0] != both[i + 1]; }
  }

  lemma PlacedAreMet(valid: Modules, done: seq<Name>)
    requires IsGreedy(DepsOf(valid), ByKey(valid), done)
    ensures forall n :: n in done ==> n in valid && Unmet(valid[n].sequence, Elements(done)) == 0
  {
    GreedyIsDistinct(DepsOf(valid), ByKey(valid), done);
    forall n | n in done ensures n in valid && Unmet(valid[n].sequence, Elements(done)) == 0 {
      var i :| 0 <= i < |done| && done[i] == n;
      UnmetIsZero(valid[n].sequence, Elements(done));
      assert Elements(done[..i]) <= Elements(done);
    }
  }

  lemma NowReady(valid: Modules, done: seq<Name>, current: Name, degree0: map<Name, int>, degree: map<Name, int>,
                 list: seq<Name>, queue0: seq<Name>, queue: seq<Name>)
    requires Degrees(valid, degree0, done) && Degrees(valid, degree, done + [current])
    requires forall n :: n in queue0 || n == current <==> n in valid && n !in done && degree0[n] == 0
    requires forall n :: n in valid ==> degree[n] == degree0[n] - Count(list, n)
    requires forall n :: n in list ==> n in valid
    requires current !in queue0 && current !in done && current in valid
    requires forall n :: n in done ==> n in valid && degree0[n] == 0
    requires forall n :: n in queue <==> n in queue0 || (n in list && degree[n] == 0)
    ensures Elements(queue) == Available(DepsOf(valid), done + [current])
  {
    forall n ensures n in queue <==> n in Available(DepsOf(valid), done + [current]) {
      AvailableByDegree(valid, done + [current], n);
      CountIn(list, n);
    }
  }

  method Place(valid: Modules, dependents: map<Name, seq<Name>>, degree0: map<Name, int>,
               queue0: seq<Name>, current: Name, ghost done: seq<Name>)
    returns (degree: map<Name, int>, queue: seq<Name>)
    requires Mentions(valid, dependents, {}) && Degrees(valid, degree0, done)
    requires current in valid && current !in done && IsGreedy(DepsOf(valid), ByKey(valid), done)
    requires Distinct([current] + queue0) && Elements([current] + queue0) == Available(DepsOf(valid), done)
    ensures Degrees(valid, degree, done + [current])
    ensures Distinct(queue) && Elements(queue) == Available(DepsOf(valid), done + [current])
  {
    var list := Sorted(NameLe, dependents[current]);
    DegreesAfter(valid, dependents, degree0, done, current, list);
    Waiting(valid, done, degree0, current, queue0);
    PlacedAreMet(valid, done);
    degree, queue := Decrement(list, degree0, queue0);
    NowReady(valid, done, current, degree0, degree, list, queue0, queue);
  }

  /** The loop's state: the ready modules wait in the queue, in order. */
  ghost predicate Queued(valid: Modules, queue: seq<Name>, done: seq<Name>) {
    Distinct(queue) && Elements(queue) == Available(DepsOf(valid), done) && Ascending(ByKey(valid), queue)
  }

  lemma SortedIsQueued(valid: Modules, ready: seq<Name>, done: seq<Name>)
    requires Distinct(ready) && Elements(ready) == Available(DepsOf(valid), done)
    ensures Queued(valid, Sorted(ByKey(valid), ready), done)
  {
    KeyIsTotal(valid);
    forall n | n in ready ensures n in valid.Keys { assert n in Elements(ready); }
    SortedSorts(ByKey(valid), ready, valid.Keys);
    SortedKeepsElements(ByKey(valid), ready, valid.Keys);
  }

  lemma QueueHead(valid: Modules, queue: seq<Name>, done: seq<Name>)
    requires Queued(valid, queue, done) && queue != [] && IsGreedy(DepsOf(valid), ByKey(valid), done)
    ensures queue[0] in valid && queue[0] !in done && queue == [queue[0]] + queue[1..]
    ensures IsGreedy(DepsOf(valid), ByKey(valid), done + [queue[0]])
    ensures |done| < |valid|
  {
    KeyIsTotal(valid);
    forall n | n in queue ensures n in valid.Keys { assert n in Elements(queue); }
    FirstIsLeast(ByKey(valid), queue, valid.Keys);
    GreedyAppend(DepsOf(valid), ByKey(valid), done, queue[0]);
    assert queue[0] in Elements(queue);
    GreedyFits(valid, done + [queue[0]]);
  }

  lemma GreedyFits(valid: Modules, done: seq<Name>)
    requires IsGreedy(DepsOf(valid), ByKey(valid), done)
    ensures |done| <= |valid|
  {
    GreedyIsDistinct(DepsOf(valid), ByKey(valid), done);
    DistinctLength(done);
    SubsetSize(Elements(done), valid.Keys);
  }

  method Kahn(valid: Modules) returns (done: seq<Name>)
    requires forall n, d :: n in valid && d in valid[n].sequence ==> d in valid
    ensures IsGreedy(DepsOf(valid), ByKey(valid), done) && Available(DepsOf(valid), done) == {}
  {
    var dependents := BuildDependents(valid);
    var degree, ready := InitialDegrees(valid);
    done := [];
    SortedIsQueued(valid, ready, done);
    var queue := Sorted(ByKey(valid), ready);
    while queue != []
      invariant Degrees(valid, degree, done) && Queued(valid, queue, done)
      invariant IsGreedy(DepsOf(valid), ByKey(valid), done)
      decreases |valid| - |done|
    {
      var current := queue[0];
      QueueHead(valid, queue, done);
      degree, queue := Place(valid, dependents, degree, queue[1..], current, done);
      done := done + [current];
      SortedIsQueued(valid, queue, done);
      queue := Sorted(ByKey(valid), queue);
    }
    assert Elements(queue) == {};
  }

  method InitialDegrees(valid: Modules) returns (degree: map<Name, int>, ready: seq<Name>)
    ensures Degrees(valid, degree, [])
    ensures Distinct(ready) && Elements(ready) == Available(DepsOf(valid), [])
  {
    degree := map n | n in valid :: |valid[n].sequence|;
    assert Elements<Name>([]) == {};
    forall n | n in valid ensures degree[n] == Unmet(valid[n].sequence, {}) { UnmetAll(valid[n].sequence); }
    ready := [];
    var todo := valid.Keys;
    while todo != {}
      invariant todo <= valid.Keys && Distinct(ready)
      invariant forall n :: n in ready <==> n in valid.Keys - todo && degree[n] == 0
    {
      var n :| n in todo;
      todo := todo - {n};
      if degree[n] == 0 { ready := ready + [n]; }
    }
    forall n ensures n in ready <==> n in Available(DepsOf(valid), []) { AvailableByDegree(valid, [], n); }
  }

  // ----- resolve_order ----------------------------------------------------------------------------

  method ResolveOrder(manifests: seq<Manifest>) returns (r: Result<seq<Manifest>, set<Name>>)
    ensures Resolved(ByName(manifests), r)
  {
    ByNameNamesItself(manifests);
    var all := ByName(manifests);
    var valid := KeepSatisfiable(all);
    var names := Kahn(valid);
    GreedyIsDistinct(DepsOf(valid), ByKey(valid), names);
    assert forall n :: n in names ==> n in Elements(names);
    var result := [];
    for i := 0 to |names|
      invariant NamesOf(result) == names[..i]
      invariant forall j :: 0 <= j < |result| ==> result[j].name in valid && result[j] == valid[result[j].name]
    {
      assert names[i] in names;
      result := result + [valid[names[i]]];
    }
    assert NamesOf(result) == names;
    OrderEnds(valid, names, result);
    if |result| != |valid| {
      r := Err(set n | n in valid && n !in names);
    } else {
      r := Ok(result);
    }
    assert ResolvedIn(valid, r);
  }

  /** What the loop placed is the least order of all modules, or leaves the ones no order can place. */
  lemma OrderEnds(valid: Modules, names: seq<Name>, result: seq<Manifest>)
    requires IsGreedy(DepsOf(valid), ByKey(valid), names) && Available(DepsOf(valid), names) == {}
    requires forall n :: n in valid ==> DepsOf(valid)[n] <= valid.Keys
    requires NamesOf(result) == names
    requires forall j :: 0 <= j < |result| ==> result[j].name in valid && result[j] == valid[result[j].name]
    ensures |result| == |valid| ==> ResolvedIn(valid, Ok(result))
    ensures |result| != |valid| ==> ResolvedIn(valid, Err(set n | n in valid && n !in names))
  {
    GreedyIsDistinct(DepsOf(valid), ByKey(valid), names);
    GreedyDecides(DepsOf(valid), ByKey(valid), names);
    assert DepsOf(valid).Keys == valid.Keys && |result| == |names|;
    DistinctLength(names);
    if |result| != |valid| {
      var unplaced := set n | n in valid && n !in names;
      assert unplaced == valid.Keys - Elements(names);
      assert unplaced != {} by { EqualOrMissing(Elements(names), valid.Keys); }
    }
  }

  lemma EqualOrMissing(a: set<Name>, b: set<Name>)
    requires a <= b && |a| != |b|
    ensures b - a != {}
  {
    var x := Missed(a, b);
    assert x in b - a;
  }

  /** The greatest self-contained subset is one set. */
  lemma KeptIsUnique(all: Modules, k: set<Name>, l: set<Name>)
    requires GreatestKept(all, k) && GreatestKept(all, l)
    ensures k == l
  {
  }

  lemma DepsAreClosed(all: Modules, kept: set<Name>)
    requires GreatestKept(all, kept)
    ensures DepsOf(Restrict(all, kept)).Keys == kept
    ensures forall n :: n in kept ==> DepsOf(Restrict(all, kept))[n] <= kept
  {
  }

  /** An accepted answer is determined by the set of modules: two runs over lists that name the
      same modules, in whatever order, agree, and in the error they name too. */
  lemma AnswerIsUnique(all: Modules, r: Result<seq<Manifest>, set<Name>>, t: Result<seq<Manifest>, set<Name>>)
    requires Resolved(all, r) && Resolved(all, t)
    ensures r == t
  {
    var k :| GreatestKept(all, k) && ResolvedIn(Restrict(all, k), r);
    var l :| GreatestKept(all, l) && ResolvedIn(Restrict(all, l), t);
    KeptIsUnique(all, k, l);
    var valid := Restrict(all, k);
    DepsAreClosed(all, k);
    KeyIsTotal(valid);
    if r.Err? && t.Err? {
      var a :| IsGreedy(DepsOf(valid), ByKey(valid), a) && Available(DepsOf(valid), a) == {} &&
               r.error == valid.Keys - Elements(a);
      var b :| IsGreedy(DepsOf(valid), ByKey(valid), b) && Available(DepsOf(valid), b) == {} &&
               t.error == valid.Keys - Elements(b);
      GreedyIsUnique(DepsOf(valid), ByKey(valid), a, b);
    } else if r.Ok? && t.Ok? {
      LeastIsUnique(valid, NamesOf(r.value), NamesOf(t.value));
      SameNamesSameModules(valid, r.value, t.value);
    } else {
      OkOrErr(valid, r);
      OkOrErr(valid, t);
    }
  }

  ghost predicate OneEach(manifests: seq<Manifest>) {
    forall m, n :: m in manifests && n in manifests && m.name == n.name ==> m == n
  }

  /** Two lists of the same manifests, each name standing for one, give the same modules. */
  lemma SameManifestsSameModules(a: seq<Manifest>, b: seq<Manifest>)
    requires OneEach(a) && forall m :: m in a <==> m in b
    ensures ByName(a) == ByName(b)
  {
    ByNameNamesItself(a);
    ByNameNamesItself(b);
    forall n | n in ByName(a) ensures n in ByName(b) { assert ByName(a)[n] in b; }
    forall n | n in ByName(b) ensures n in ByName(a) { assert ByName(b)[n] in a; }
  }

  /** So the answer does not depend on the order of the list. */
  lemma ListOrderDoesNotMatter(a: seq<Manifest>, b: seq<Manifest>,
                               r: Result<seq<Manifest>, set<Name>>, t: Result<seq<Manifest>, set<Name>>)
    requires OneEach(a) && forall m :: m in a <==> m in b
    requires Resolved(ByName(a), r) && Resolved(ByName(b), t)
    ensures r == t
  {
    SameManifestsSameModules(a, b);
    AnswerIsUnique(ByName(a), r, t);
  }

  lemma SameNamesSameModules(valid: Modules, a: seq<Manifest>, b: seq<Manifest>)
    requires NamesOf(a) == NamesOf(b)
    requires forall i :: 0 <= i < |a| ==> a[i].name in valid && a[i] == valid[a[i].name]
    requires forall i :: 0 <= i < |b| ==> b[i].name in valid && b[i] == valid[b[i].name]
    ensures a == b
  {
    assert |a| == |NamesOf(a)| == |b|;
    forall i | 0 <= i < |a| ensures a[i] == b[i] {
      assert NamesOf(a)[i] == NamesOf(b)[i];
    }
  }

  lemma LeastIsUnique(valid: Modules, a: seq<Name>, b: seq<Name>)
    requires LeastTopo(DepsOf(valid), ByKey(valid), a) && LeastTopo(DepsOf(valid), ByKey(valid), b)
    ensures a == b
  {
    KeyIsTotal(valid);
    if a != b { PrecedesIsStrict(ByKey(valid), valid.Keys, a, b); }
  }

  /** `CyclicDependencyError` exactly on a cycle among the modules that are kept. */
  lemma OkOrErr(valid: Modules, r: Result<seq<Manifest>, set<Name>>)
    requires forall n :: n in valid ==> DepsOf(valid)[n] <= valid.Keys
    requires ResolvedIn(valid, r)
    ensures r.Err? <==> Cyclic(DepsOf(valid))
  {
    match r
    case Ok(ms) =>
      forall p ensures !Cycle(DepsOf(valid), p) {
        if Cycle(DepsOf(valid), p) { CycleHasNoOrder(DepsOf(valid), p, NamesOf(ms)); }
      }
    case Err(unplaced) =>
      var names :| IsGreedy(DepsOf(valid), ByKey(valid), names) && Available(DepsOf(valid), names) == {} &&
                   unplaced == valid.Keys - Elements(names);
      var x :| x in unplaced;
      var c := StuckHasCycle(DepsOf(valid), names, x);
  }

  /** Cycle completeness, over every list of manifests with distinct names: what is returned is
      a permutation of the greatest self-contained subset with every dependency earlier, and an
      error means exactly that this subset has a cycle. */
  lemma ResolveOrderMeans(manifests: seq<Manifest>, r: Result<seq<Manifest>, set<Name>>, kept: set<Name>)
    requires Resolved(ByName(manifests), r) && GreatestKept(ByName(manifests), kept)
    ensures r.Err? <==> Cyclic(DepsOf(Restrict(ByName(manifests), kept)))
    ensures r.Ok? ==> Elements(NamesOf(r.value)) == kept && Distinct(NamesOf(r.value))
    ensures r.Ok? ==> forall i, d :: 0 <= i < |r.value| && d in r.value[i].sequence ==>
                        exists j :: 0 <= j < i && r.value[j].name == d
    ensures r.Ok? ==> forall m :: m in r.value ==> m in manifests
    ensures r.Err? ==> r.error <= kept && r.error != {}
  {
    var all := ByName(manifests);
    ByNameNamesItself(manifests);
    var k :| GreatestKept(all, k) && ResolvedIn(Restrict(all, k), r);
    KeptIsUnique(all, k, kept);
    var valid := Restrict(all, kept);
    DepsAreClosed(all, kept);
    OkOrErr(valid, r);
    if r.Ok? {
      var names := NamesOf(r.value);
      forall i, d | 0 <= i < |r.value| && d in r.value[i].sequence
        ensures exists j :: 0 <= j < i && r.value[j].name == d
      {
        assert names[i] == r.value[i].name && d in DepsOf(valid)[names[i]];
        assert d in Elements(names[..i]);
        var j :| 0 <= j < i && names[..i][j] == d;
        assert r.value[j].name == d;
      }
    }
  }

  /** How ties are broken: a module that could have come where an earlier one stands, because
      all it depends on stands before that, has a greater order, or the same and a later name. */
  lemma LowerOrderFirst(manifests: seq<Manifest>, r: Result<seq<Manifest>, set<Name>>, i: nat, j: nat)
    requires Resolved(ByName(manifests), r) && r.Ok? && i < j < |r.value|
    requires forall d :: d in r.value[j].sequence ==> exists k :: 0 <= k < i && r.value[k].name == d
    ensures r.value[i].order < r.value[j].order ||
            (r.value[i].order == r.value[j].order && TextLe(r.value[i].name.text, r.value[j].name.text))
  {
    var all := ByName(manifests);
    var kept :| GreatestKept(all, kept) && ResolvedIn(Restrict(all, kept), r);
    var valid, names := Restrict(all, kept), NamesOf(r.value);
    assert names[i] == r.value[i].name && names[j] == r.value[j].name;
    forall d | d in DepsOf(valid)[names[j]] ensures d in Elements(names[..i]) {
      var k :| 0 <= k < i && r.value[k].name == d;
      assert names[..i][k] == d;
    }
    LeastDecides(DepsOf(valid), ByKey(valid), names, i, j);
  }

  // ----- get_transitive_dependents ------------------------------------------------------------------

  ghost predicate DependsOn(manifests: seq<Manifest>, n: Name, d: Name) {
    (exists m :: m in manifests && m.name == n && d in m.sequence) && (exists m :: m in manifests && m.name == d)
  }

  /** `p` leads from `target` to a module that depends on it, one dependency at a time. */
  ghost predicate Chain(manifests: seq<Manifest>, target: Name, p: seq<Name>) {
    |p| >= 2 && p[0] == target && forall i :: 0 <= i < |p| - 1 ==> DependsOn(manifests, p[i + 1], p[i])
  }

  ghost predicate DependsTransitively(manifests: seq<Manifest>, n: Name, target: Name) {
    exists p :: Chain(manifests, target, p) && p[|p| - 1] == n
  }

  ghost predicate ReverseOk(manifests: seq<Manifest>, reverse: map<Name, seq<Name>>) {
    forall d, n :: Links(reverse, n, d) <==> DependsOn(manifests, n, d)
  }

  ghost predicate Listed(manifests: seq<Manifest>, upto: nat, n: Name, d: Name) {
    exists k :: 0 <= k < upto && k < |manifests| && manifests[k].name == n && d in manifests[k].sequence
  }

  ghost predicate Links(reverse: map<Name, seq<Name>>, n: Name, d: Name) {
    d in reverse && n in reverse[d]
  }

  method BuildReverse(manifests: seq<Manifest>) returns (reverse: map<Name, seq<Name>>)
    ensures ReverseOk(manifests, reverse)
  {
    var names := set m | m in manifests :: m.name;
    reverse := map[];
    for i := 0 to |manifests|
      invariant forall d, n :: Links(reverse, n, d) <==> d in names && Listed(manifests, i, n, d)
    {
      var m := manifests[i];
      ghost var start := reverse;
      for j := 0 to |m.sequence|
        invariant forall d, n :: Links(reverse, n, d) <==>
          Links(start, n, d) || (d in names && n == m.name && d in m.sequence[..j])
      {
        var dep := m.sequence[j];
        assert m.sequence[..j + 1] == m.sequence[..j] + [dep];
        if dep in names {
          reverse := reverse[dep := (if dep in reverse then reverse[dep] else []) + [m.name]];
        }
      }
      assert m.sequence[..|m.sequence|] == m.sequence;
      forall d, n ensures Listed(manifests, i + 1, n, d) <==>
        Listed(manifests, i, n, d) || (n == m.name && d in m.sequence) { }
    }
    forall d, n ensures Links(reverse, n, d) <==> DependsOn(manifests, n, d) {
      assert d in names <==> exists m :: m in manifests && m.name == d;
      if Listed(manifests, |manifests|, n, d) {
        var k :| 0 <= k < |manifests| && manifests[k].name == n && d in manifests[k].sequence;
        assert manifests[k] in manifests;
      }
    }
  }

  lemma ChainGrows(manifests: seq<Manifest>, target: Name, p: seq<Name>, n: Name)
    requires p != [] && p[0] == target && DependsOn(manifests, n, p[|p| - 1])
    requires |p| == 1 || Chain(manifests, target, p)
    ensures DependsTransitively(manifests, n, target)
  {
    assert Chain(manifests, target, p + [n]);
  }

  /** What the search has seen depends on the target, and what it has not follows from the queue. */
  ghost predicate Searching(manifests: seq<Manifest>, target: Name, queue: seq<Name>, visited: set<Name>) {
    (forall n :: n in queue || n in visited ==> DependsTransitively(manifests, n, target)) &&
    (forall n :: DependsOn(manifests, n, target) ==> n in queue || n in visited) &&
    (forall n, v :: v in visited && DependsOn(manifests, n, v) ==> n in queue || n in visited)
  }

  lemma SearchStarts(manifests: seq<Manifest>, target: Name, queue: seq<Name>)
    requires forall n :: n in queue <==> DependsOn(manifests, n, target)
    ensures Searching(manifests, target, queue, {})
  {
    forall n | n in queue ensures DependsTransitively(manifests, n, target) {
      ChainGrows(manifests, target, [target], n);
    }
  }

  lemma SearchVisits(manifests: seq<Manifest>, target: Name, queue: seq<Name>, visited: set<Name>, more: seq<Name>)
    requires queue != [] && Searching(manifests, target, queue, visited)
    requires forall n :: n in more <==> DependsOn(manifests, n, queue[0])
    ensures Searching(manifests, target, queue[1..] + more, visited + {queue[0]})
  {
    assert queue == [queue[0]] + queue[1..];
    DependentsOf(manifests, target, queue[0], more);
  }

  lemma SearchSkips(manifests: seq<Manifest>, target: Name, queue: seq<Name>, visited: set<Name>)
    requires queue != [] && queue[0] in visited && Searching(manifests, target, queue, visited)
    ensures Searching(manifests, target, queue[1..], visited)
  {
    assert queue == [queue[0]] + queue[1..];
  }

  function Entries(reverse: map<Name, seq<Name>>, d: Name): seq<Name> {
    if d in reverse then reverse[d] else []
  }

  lemma EntriesDepend(manifests: seq<Manifest>, reverse: map<Name, seq<Name>>, d: Name)
    requires ReverseOk(manifests, reverse)
    ensures forall n :: n in Entries(reverse, d) <==> DependsOn(manifests, n, d)
  {
    forall n ensures n in Entries(reverse, d) <==> DependsOn(manifests, n, d) {
      assert Links(reverse, n, d) <==> DependsOn(manifests, n, d);
    }
  }

  method GetTransitiveDependents(target: Name, manifests: seq<Manifest>) returns (r: seq<Name>)
    ensures forall n :: n in r <==> DependsTransitively(manifests, n, target)
    ensures Ascending(NameLe, r) && Distinct(r)
  {
    var reverse := BuildReverse(manifests);
    ghost var names := set m | m in manifests :: m.name;
    var visited: set<Name> := {};
    var queue := Entries(reverse, target);
    EntriesDepend(manifests, reverse, target);
    SearchStarts(manifests, target, queue);
    while queue != []
      invariant Searching(manifests, target, queue, visited)
      invariant visited <= names && forall n :: n in queue ==> n in names
      decreases names - visited, |queue|
    {
      var current := queue[0];
      if current in visited {
        SearchSkips(manifests, target, queue, visited);
        queue := queue[1..];
      } else {
        var more := Entries(reverse, current);
        EntriesDepend(manifests, reverse, current);
        SearchVisits(manifests, target, queue, visited, more);
        visited, queue := visited + {current}, queue[1..] + more;
      }
    }
    AllAreVisited(manifests, target, visited);
    r := SortedNames(visited);
  }

  lemma DependentsOf(manifests: seq<Manifest>, target: Name, current: Name, more: seq<Name>)
    requires DependsTransitively(manifests, current, target)
    requires forall n :: n in more ==> DependsOn(manifests, n, current)
    ensures forall n :: n in more ==> DependsTransitively(manifests, n, target)
  {
    var p :| Chain(manifests, target, p) && p[|p| - 1] == current;
    forall n | n in more ensures DependsTransitively(manifests, n, target) { ChainGrows(manifests, target, p, n); }
  }

  lemma AllAreVisited(manifests: seq<Manifest>, target: Name, visited: set<Name>)
    requires forall n :: DependsOn(manifests, n, target) ==> n in visited
    requires forall n, v :: v in visited && DependsOn(manifests, n, v) ==> n in visited
    ensures forall n :: DependsTransitively(manifests, n, target) ==> n in visited
  {
    forall n | DependsTransitively(manifests, n, target) ensures n in visited {
      var p :| Chain(manifests, target, p) && p[|p| - 1] == n;
      ChainIsVisited(manifests, target, p, visited, |p| - 1);
    }
  }

  lemma {:induction false} ChainIsVisited(manifests: seq<Manifest>, target: Name, p: seq<Name>,
                                          visited: set<Name>, k: nat)
    requires Chain(manifests, target, p) && 1 <= k < |p|
    requires forall n :: DependsOn(manifests, n, target) ==> n in visited
    requires forall n, v :: v in visited && DependsOn(manifests, n, v) ==> n in visited
    ensures p[k] in visited
  {
    assert DependsOn(manifests, p[k - 1 + 1], p[k - 1]);
    if k > 1 { ChainIsVisited(manifests, target, p, visited, k - 1); }
  }

  method SortedNames(s: set<Name>) returns (r: seq<Name>)
    ensures Elements(r) == s && Ascending(NameLe, r) && Distinct(r)
  {
    r := [];
    var todo := s;
    while todo != {}
      invariant todo <= s && Distinct(r) && Elements(r) == s - todo
    {
      var x :| x in todo;
      todo := todo - {x};
      assert x !in Elements(r);
      assert Elements(r + [x]) == Elements(r) + {x};
      r := r + [x];
    }
    NamesAreTotal(s);
    assert forall y :: y in r ==> y in Elements(r);
    SortedSorts(NameLe, r, s);
    SortedKeepsElements(NameLe, r, s);
    r := Sorted(NameLe, r);
  }

  /** The dependency graph as it is written, missing and repeated names left out. */
  ghost function Graph(manifests: seq<Manifest>): Deps<Name> {
    var names := set m | m in manifests :: m.name;
    map n | n in names :: set d | d in names && DependsOn(manifests, n, d)
  }

  function Reversed(p: seq<Name>): seq<Name> {
    seq(|p|, i requires 0 <= i < |p| => p[|p| - 1 - i])
  }

  lemma ChainIsCycle(manifests: seq<Manifest>, target: Name, p: seq<Name>)
    requires Chain(manifests, target, p) && p[|p| - 1] == target
    ensures Cycle(Graph(manifests), Reversed(p)) && Reversed(p)[0] == target
  {
    var c := Reversed(p);
    forall i | 0 <= i < |c| - 1 ensures c[i] in Graph(manifests) && c[i + 1] in Graph(manifests)[c[i]] {
      var k := |p| - 2 - i;
      assert DependsOn(manifests, p[k + 1], p[k]);
    }
  }

  lemma CycleIsChain(manifests: seq<Manifest>, target: Name, c: seq<Name>)
    requires Cycle(Graph(manifests), c) && c[0] == target
    ensures Chain(manifests, target, Reversed(c)) && Reversed(c)[|c| - 1] == target
  {
    var p := Reversed(c);
    forall i | 0 <= i < |p| - 1 ensures DependsOn(manifests, p[i + 1], p[i]) {
      var k := |c| - 2 - i;
      assert c[k] in Graph(manifests) && c[k + 1] in Graph(manifests)[c[k]];
    }
  }

  /** The docstring says the target is excluded; the code lists it exactly when the target lies
      on a cycle of the graph. */
  lemma TargetListedIffOnCycle(manifests: seq<Manifest>, target: Name, r: seq<Name>)
    requires forall n :: n in r <==> DependsTransitively(manifests, n, target)
    ensures target in r <==> exists c :: Cycle(Graph(manifests), c) && c[0] == target
  {
    if target in r {
      var p :| Chain(manifests, target, p) && p[|p| - 1] == target;
      ChainIsCycle(manifests, target, p);
    }
    if c :| Cycle(Graph(manifests), c) && c[0] == target {
      CycleIsChain(manifests, target, c);
    }
  }

  /** Two modules that depend on each other: each is among its own dependents. */
  lemma TargetOnCycleIsListed(a: Name, b: Name, r: seq<Name>)
    requires a != b
    requires forall n :: n in r <==> DependsTransitively([Manifest(a, [b], 0), Manifest(b, [a], 0)], n, a)
    ensures a in r
  {
    var manifests := [Manifest(a, [b], 0), Manifest(b, [a], 0)];
    assert manifests[0].name == a && manifests[1].name == b;
    assert DependsOn(manifests, b, a) && DependsOn(manifests, a, b);
    assert Chain(manifests, a, [a, b, a]);
  }
}
