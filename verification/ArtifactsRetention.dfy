/** `artifacts_retention.py`: run directories go once nothing in them can be lost. */
module ArtifactsRetention {
  import opened Wrappers
  import opened TopoOrder
  import opened Sorting
  import opened PersistentHome
  import opened JobModels

  type View = nat

  datatype Row = Row(status: Status, finished: Option<int>, harness: Option<Name>)

  /** One run directory, and what the world answers while it is looked at: the row read with
      its batch, the row read again under its lock, the adapter's `session_file`, and where
      the file system fails. */
  datatype RunDir = RunDir(
    view: View, home: Tree, mtime: int, early: Option<Row>, locked: Option<Row>,
    asked: seq<Asked>, faults: map<Path, Fault>, rootFault: Fault, indexFault: bool, removable: bool)

  datatype Reason = IsOpen | UnknownHarness | CopyBackFailed | Unsaved | Permission

  datatype Keeping = Keeping(dir: RunDir, reason: Reason)

  /** Why a directory is kept: what its save went by, and what `state/` was left as. */
  datatype Refusal = Refusal(dir: RunDir, reason: Reason, harness: Option<Name>, relocate: seq<Move>, state: Tree)

  /** What `state/` was when a run directory was about to be removed, and what its save used. */
  datatype Removal = Removal(dir: RunDir, harness: Option<Name>, relocate: seq<Move>, used: Option<Use>, state: Tree)

  /** The index that a save used, and what `state/` was then. */
  datatype Use = Use(index: Index, state: Tree)

  /** The persistent paths of every harness, and those of all of them, each once. */
  datatype Registry = Registry(of: map<Name, seq<Path>>, every: seq<Path>)

  ghost predicate ValidRegistry(g: Registry) {
    Apart(g.every) &&
    (forall h, i :: h in g.of && 0 <= i < |g.of[h]| ==> g.of[h][i] in g.every) &&
    (forall p :: p in g.every ==> exists h :: h in g.of && p in g.of[h])
  }

  type States = map<View, Tree>

  function StateOf(states: States, v: View): Tree {
    if v in states then states[v] else map[]
  }

  ghost predicate StatesSound(states: States) {
    forall v :: SoundState(StateOf(states, v))
  }

  /** Whatever the cache holds is what a fresh scan would give. */
  ghost predicate CacheCoherent(indexes: map<View, Index>, states: States, paths: seq<Path>) {
    forall v :: v in indexes ==> Coherent(indexes[v], StateOf(states, v), paths)
  }

  ghost predicate UsesCoherent(uses: seq<Use>, paths: seq<Path>) {
    forall i :: 0 <= i < |uses| ==> Coherent(uses[i].index, uses[i].state, paths)
  }

  /** Nothing the run left under its persistent paths would be lost with its directory: with
      no harness known, `state/` has the bytes; else it has a file at least as new. */
  ghost predicate NothingLost(g: Registry, d: RunDir, harness: Option<Name>, relocate: seq<Move>, state: Tree) {
    match harness
    case None => forall p :: Held(d.home, g.every, p) ==> OnlyCopy(d.home, state, g.every, p)
    case Some(h) =>
      h in g.of && Asks(d, relocate, state) &&
      forall p :: Held(d.home, g.of[h], p) ==> NewEnough(d.home, state, p, TargetOf(relocate, p))
  }

  /** Every relocation is one the adapter's answers gave, between two files that are there. */
  ghost predicate Asks(d: RunDir, relocate: seq<Move>, state: Tree) {
    forall m :: m in relocate ==>
      RealMove(d.home, state, m) && Answered(Some(m.here), Some(m.there)) in d.asked
  }

  /** A save with no harness known was checked against an index that was what a scan of `state/`
      gave when it began. */
  ghost predicate Checked(g: Registry, harness: Option<Name>, used: Option<Use>, state: Tree) {
    harness.None? && g.every != [] ==>
      used.Some? && Coherent(used.value.index, used.value.state, g.every) && Untouched(used.value.state, state)
  }

  ghost predicate SafeRemoval(g: Registry, m: Removal, now: Tree) {
    NothingLost(g, m.dir, m.harness, m.relocate, m.state) && Checked(g, m.harness, m.used, m.state) &&
    OnlyNewer(m.state, now)
  }

  ghost function Listed(used: Option<Use>): seq<Use> {
    if used.Some? then [used.value] else []
  }

  ghost predicate RemovalsSafe(g: Registry, removals: seq<Removal>, states: States) {
    forall i :: 0 <= i < |removals| ==> SafeRemoval(g, removals[i], StateOf(states, removals[i].dir.view))
  }

  ghost predicate StatesNewer(a: States, b: States) {
    forall v :: OnlyNewer(StateOf(a, v), StateOf(b, v))
  }

  /** What one directory may change: its own view only, where files become newer and come from
      the run. */
  ghost predicate ViewServed(d: RunDir, a: States, b: States) {
    StatesNewer(a, b) && Brought(d.home, StateOf(a, d.view), StateOf(b, d.view)) &&
    forall v :: v != d.view ==> StateOf(b, v) == StateOf(a, v)
  }

  predicate IsExpired(row: Option<Row>, d: RunDir, cutoff: int) {
    match row
    case None => d.mtime < cutoff
    case Some(r) => !Open(r.status) && r.finished.Some? && r.finished.value < cutoff
  }

  /** The prune looks into this directory: it is expired, also when its row is read again. */
  predicate Due(d: RunDir, cutoff: int) {
    IsExpired(d.early, d, cutoff) && (d.early.Some? ==> d.locked.Some? && IsExpired(d.locked, d, cutoff))
  }

  /** A directory is due when its job succeeded, failed or died before the cutoff, by both reads
      of its row; and one without a row when it was not changed since. */
  lemma DueExactly(d: RunDir, cutoff: int)
    ensures Due(d, cutoff) <==>
              match d.early
              case None => d.mtime < cutoff
              case Some(row) => d.locked.Some? && EndedBefore(row, cutoff) && EndedBefore(d.locked.value, cutoff)
  {
  }

  predicate EndedBefore(row: Row, cutoff: int) {
    row.status in {SUCCESS, FAILED, DEAD} && row.finished.Some? && row.finished.value < cutoff
  }

  /** The row that `_prune_run_dir` is given. */
  function RowOf(d: RunDir): Option<Row> {
    if d.early.None? then None else d.locked
  }

  function HarnessOf(row: Option<Row>): Option<Name> {
    if row.Some? then row.value.harness else None
  }

  // ----- when a directory may be kept -----------------------------------------------------------

  ghost predicate KnownPaths(g: Registry, harness: Option<Name>) {
    if harness.Some? then harness.value in g.of else g.of != map[]
  }

  ghost function PathsOf(g: Registry, harness: Option<Name>): seq<Path> {
    if harness.Some? && harness.value in g.of then g.of[harness.value] else g.every
  }

  /** The file system failed the save, or a file stands where a directory should be. */
  ghost predicate Hindered(g: Registry, r: Refusal) {
    var paths := PathsOf(g, r.harness);
    r.dir.rootFault != Fine || (r.harness.None? && r.dir.indexFault) ||
    (exists i :: 0 <= i < |paths| && Blocked(r.state, paths[i])) ||
    KeptOut(r.dir.home, r.state, paths, r.relocate, r.dir.faults)
  }

  /** `state/` cannot take some file: a directory with entries stands in its place or, when only
      its name tells, that name is there with other bytes or more than once. */
  ghost predicate Contested(g: Registry, r: Refusal) {
    exists p :: Held(r.dir.home, PathsOf(g, r.harness), p) &&
      if r.harness.None? then Refused(r.dir.home, r.state, g.every, p)
      else Occupied(r.state, TargetOf(r.relocate, p))
  }

  /** The reason given is the case. */
  ghost predicate Justified(g: Registry, r: Refusal) {
    (r.reason != IsOpen ==> r.harness == HarnessOf(RowOf(r.dir))) &&
    match r.reason
    case IsOpen => IsOpenRow(r.dir.early) || IsOpenRow(r.dir.locked)
    case UnknownHarness => !KnownPaths(g, r.harness)
    case CopyBackFailed => KnownPaths(g, r.harness) && Asks(r.dir, r.relocate, r.state) && Hindered(g, r)
    case Unsaved => KnownPaths(g, r.harness) && Asks(r.dir, r.relocate, r.state) && Contested(g, r)
    case Permission => !r.dir.removable
  }

  predicate IsOpenRow(row: Option<Row>) {
    row.Some? && Open(row.value.status)
  }

  ghost predicate AllJustified(g: Registry, refusals: seq<Refusal>) {
    forall i :: 0 <= i < |refusals| ==> Justified(g, refusals[i])
  }

  /** The report names the refused directories, with the reasons. */
  ghost predicate Reported(kept: seq<Keeping>, refusals: seq<Refusal>) {
    |kept| == |refusals| &&
    forall i :: 0 <= i < |kept| ==> kept[i] == Keeping(refusals[i].dir, refusals[i].reason)
  }

  /** A refusal of `d` for another reason than an open job. */
  ghost predicate Excused(refusals: seq<Refusal>, d: RunDir) {
    exists i :: 0 <= i < |refusals| && refusals[i].dir == d && refusals[i].reason != IsOpen
  }

  ghost function RemoveFailed(d: RunDir): Refusal {
    Refusal(d, Permission, HarnessOf(RowOf(d)), [], map[])
  }

  /** The result of a save: it broke because something hindered it, or each conflict is one. */
  ghost predicate NotSaved(g: Registry, r: Refusal, save: Save) {
    Asks(r.dir, r.relocate, r.state) && (save.Broke? ==> Hindered(g, r)) &&
    (save.Saved? && save.conflicts != [] ==> Contested(g, r))
  }

  ghost predicate AllSettled(home: Tree, state: Tree, paths: seq<Path>, conflicts: seq<Path>) {
    exists files :: Settled(home, state, paths, files, conflicts) && forall p :: p in files <==> Held(home, paths, p)
  }

  /** What a save by names alone comes to: nothing is lost, or something contested or hindered it. */
  lemma NamedSave(g: Registry, d: RunDir, state: Tree, r: Save)
    requires r.Saved? ==> AllSettled(d.home, state, g.every, r.conflicts)
    requires r.Broke? ==> exists p :: Held(d.home, g.every, p) && (FaultAt(d.faults, p) != Fine || Blocked(state, p))
    ensures NotSaved(g, Refusal(d, CopyBackFailed, None, [], state), r)
    ensures r.Saved? && r.conflicts == [] ==> NothingLost(g, d, None, [], state)
  {
    match r
    case Broke =>
      var p :| Held(d.home, g.every, p) && (FaultAt(d.faults, p) != Fine || Blocked(state, p));
      assert TargetOf([], p) == p;
      FaultKeepsOut(d.home, state, g.every, [], d.faults, p);
    case Saved(conflicts) =>
      var files :| Settled(d.home, state, g.every, files, conflicts) &&
                   forall p :: p in files <==> Held(d.home, g.every, p);
      if conflicts != [] { assert conflicts[0] in conflicts; }
  }

  /** And what a save of known sessions comes to. */
  lemma MovedSave(g: Registry, d: RunDir, h: Name, relocate: seq<Move>, state: Tree, r: Save)
    requires h in g.of && Asks(d, relocate, state)
    requires r.Saved? ==> PersistentHome.AllAccounted(d.home, state, g.of[h], relocate, r.conflicts)
    requires r.Broke? ==> KeptOut(d.home, state, g.of[h], relocate, d.faults)
    ensures NotSaved(g, Refusal(d, CopyBackFailed, Some(h), relocate, state), r)
    ensures r.Saved? && r.conflicts == [] ==> NothingLost(g, d, Some(h), relocate, state)
  {
    if r.Saved? {
      var files :| PersistentHome.Accounted(d.home, state, relocate, files, r.conflicts) &&
                   forall p :: p in files <==> Held(d.home, g.of[h], p);
      if r.conflicts != [] { assert r.conflicts[0] in r.conflicts; }
    }
  }

  /** One more refusal, by what the failed save left in `state/`. */
  ghost predicate SaveFailed(was: seq<Refusal>, now: seq<Refusal>, d: RunDir, harness: Option<Name>,
                             relocate: seq<Move>, state: Tree) {
    exists reason :: (reason == CopyBackFailed || reason == Unsaved) &&
      now == was + [Refusal(d, reason, harness, relocate, state)]
  }

  /** The directory went, or it was refused for a reason that holds of `state/` as it is left. */
  ghost predicate Went(g: Registry, gone0: seq<RunDir>, gone1: seq<RunDir>, was: seq<Refusal>, now: seq<Refusal>,
                       d: RunDir, dryRun: bool, state: Tree) {
    if gone1 != gone0 then gone1 == gone0 + [d] && now == was && d.removable && KnownPaths(g, HarnessOf(RowOf(d)))
    else exists r :: now == was + [r] && r.dir == d && Refuses(g, r, dryRun, state)
  }

  ghost predicate Refuses(g: Registry, r: Refusal, dryRun: bool, state: Tree) {
    r.reason != IsOpen && Justified(g, r) &&
    (r.reason == CopyBackFailed || r.reason == Unsaved ==> !dryRun && r.state == state)
  }

  ghost predicate FailedSave(g: Registry, was: seq<Refusal>, now: seq<Refusal>, d: RunDir, state: Tree) {
    exists r :: now == was + [r] && r.dir == d && Refuses(g, r, false, state)
  }

  lemma FailureRefuses(g: Registry, was: seq<Refusal>, now: seq<Refusal>, d: RunDir, harness: Option<Name>,
                       relocate: seq<Move>, state: Tree)
    requires AllJustified(g, now) && SaveFailed(was, now, d, harness, relocate, state)
    ensures FailedSave(g, was, now, d, state)
  {
    var r := now[|was|];
    assert now == was + [r] && Justified(g, r);
  }

  /** Nothing but a report of an open job. */
  ghost predicate StillOpen(was: seq<Refusal>, now: seq<Refusal>, d: RunDir) {
    now == was || now == was + [Refusal(d, IsOpen, None, [], map[])]
  }

  /** The refusal is of this run of the prune: no save in a dry run, and `state/` as it was then
      lies between what it was before the run and what it is after it. */
  ghost predicate Fits(r: Refusal, dryRun: bool, before: States, after: States) {
    r.reason == CopyBackFailed || r.reason == Unsaved ==>
      !dryRun && OnlyNewer(StateOf(before, r.dir.view), r.state) && OnlyNewer(r.state, StateOf(after, r.dir.view))
  }

  ghost predicate AllFit(refusals: seq<Refusal>, dryRun: bool, before: States, after: States) {
    forall i :: 0 <= i < |refusals| ==> Fits(refusals[i], dryRun, before, after)
  }

  lemma FitStays(refusals: seq<Refusal>, dryRun: bool, before: States, a: States, b: States)
    requires AllFit(refusals, dryRun, before, a) && StatesNewer(a, b)
    ensures AllFit(refusals, dryRun, before, b)
  {
    forall i | 0 <= i < |refusals| ensures Fits(refusals[i], dryRun, before, b) {
      var v := refusals[i].dir.view;
      assert Fits(refusals[i], dryRun, before, a);
      if refusals[i].reason == CopyBackFailed || refusals[i].reason == Unsaved {
        NewerTrans(refusals[i].state, StateOf(a, v), StateOf(b, v));
      }
    }
  }

  lemma NewFits(g: Registry, was: seq<Refusal>, now: seq<Refusal>, d: RunDir, dryRun: bool,
                before: States, a: States, b: States)
    requires AllFit(was, dryRun, before, b) && StatesNewer(before, a) && StatesNewer(a, b)
    requires now == was || StillOpen(was, now, d) ||
             exists r :: now == was + [r] && r.dir == d && Refuses(g, r, dryRun, StateOf(b, d.view))
    ensures AllFit(now, dryRun, before, b)
    ensures was <= now
  {
    NewerTrans(StateOf(before, d.view), StateOf(a, d.view), StateOf(b, d.view));
    forall i | 0 <= i < |now| ensures Fits(now[i], dryRun, before, b) {
      if i < |was| { assert Fits(was[i], dryRun, before, b); }
    }
  }

  lemma ExcusedStays(was: seq<Refusal>, now: seq<Refusal>, d: RunDir)
    requires was <= now && Excused(was, d)
    ensures Excused(now, d)
  {
    var i :| 0 <= i < |was| && was[i].dir == d && was[i].reason != IsOpen;
    assert now[i] == was[i];
  }

  /** At most one more removal, of `d`. */
  ghost predicate Recorded(was: seq<Removal>, now: seq<Removal>, d: RunDir, harness: Option<Name>) {
    now == was || exists m: Removal :: m.dir == d && m.harness == harness && now == was + [m]
  }

  lemma SafeStays(g: Registry, removals: seq<Removal>, a: States, b: States)
    requires RemovalsSafe(g, removals, a) && StatesNewer(a, b)
    ensures RemovalsSafe(g, removals, b)
  {
    forall i | 0 <= i < |removals| ensures SafeRemoval(g, removals[i], StateOf(b, removals[i].dir.view)) {
      var v := removals[i].dir.view;
      assert SafeRemoval(g, removals[i], StateOf(a, v));
      NewerTrans(removals[i].state, StateOf(a, v), StateOf(b, v));
    }
  }

  // ----- state/ ---------------------------------------------------------------------------------

  /** The same files, whatever directories came or went. */
  ghost predicate SameFiles(a: Tree, b: Tree) {
    forall p :: (HasFile(a, p) <==> HasFile(b, p)) && (HasFile(a, p) ==> a[p] == b[p])
  }

  lemma SameFilesSameIndex(a: Tree, b: Tree, paths: seq<Path>, index: Index)
    requires SameFiles(a, b) && Coherent(index, a, paths)
    ensures Coherent(index, b, paths)
  {
    forall n ensures Lists(index, b, paths, n) {
      assert Lists(index, a, paths, n);
    }
  }

  /** `ensure_state_dir`: a missing persistent path becomes a directory. */
  method EnsureState(a: Tree, paths: seq<Path>, fault: Fault) returns (b: Tree, ok: bool)
    requires SoundState(a) && forall i :: 0 <= i < |paths| ==> paths[i] != []
    ensures SoundState(b) && SameFiles(a, b)
    ensures ok ==> forall i :: 0 <= i < |paths| ==> paths[i] in b
    ensures !ok ==> fault != Fine || exists i :: 0 <= i < |paths| && Blocked(b, paths[i])
  {
    b := a;
    if fault == AtRead { return b, false; }
    for i := 0 to |paths|
      invariant SoundState(b) && SameFiles(a, b)
      invariant forall j :: 0 <= j < i ==> paths[j] in b
    {
      if paths[i] !in b {
        var made;
        b, made := MakeParents(b, paths[i], fault);
        if !made { return b, false; }
        b := b[paths[i] := Dir];
      }
    }
    ok := true;
  }

  // ----- batches --------------------------------------------------------------------------------

  function Flat<T>(bs: seq<seq<T>>): seq<T>
    decreases |bs|
  {
    if bs == [] then [] else Flat(bs[..|bs| - 1]) + bs[|bs| - 1]
  }

  lemma FlatSnoc<T>(bs: seq<seq<T>>, b: seq<T>)
    ensures Flat(bs + [b]) == Flat(bs) + b
  {
    assert (bs + [b])[..|bs|] == bs;
  }

  /** The items up to `i`, in whole batches and the one being filled. */
  ghost predicate Batched<T>(items: seq<T>, i: nat, bs: seq<seq<T>>, batch: seq<T>)
    requires i <= |items|
  {
    Flat(bs) + batch == items[..i]
  }

  lemma FillBatch<T>(items: seq<T>, i: nat, bs: seq<seq<T>>, batch: seq<T>)
    requires i < |items| && Batched(items, i, bs, batch)
    ensures Batched(items, i + 1, bs, batch + [items[i]])
  {
    assert items[..i + 1] == items[..i] + [items[i]];
    assert Flat(bs) + (batch + [items[i]]) == Flat(bs) + batch + [items[i]];
  }

  lemma CloseBatch<T>(items: seq<T>, i: nat, bs: seq<seq<T>>, batch: seq<T>)
    requires i <= |items| && Batched(items, i, bs, batch)
    ensures Batched(items, i, bs + [batch], [])
  {
    FlatSnoc(bs, batch);
    assert Flat(bs + [batch]) + [] == Flat(bs + [batch]);
  }

  /** `_batches`: the same items in the same order, `size` at a time. */
  method Batches<T>(items: seq<T>, size: nat) returns (bs: seq<seq<T>>)
    requires size > 0
    ensures Flat(bs) == items
    ensures forall i :: 0 <= i < |bs| ==> 0 < |bs[i]| <= size && (i < |bs| - 1 ==> |bs[i]| == size)
  {
    bs := [];
    var batch := [];
    for i := 0 to |items|
      invariant Batched(items, i, bs, batch)
      invariant forall k :: 0 <= k < |bs| ==> |bs[k]| == size
      invariant |batch| < size
    {
      FillBatch(items, i, bs, batch);
      batch := batch + [items[i]];
      if |batch| == size {
        CloseBatch(items, i + 1, bs, batch);
        bs, batch := bs + [batch], [];
      }
    }
    if batch != [] {
      CloseBatch(items, |items|, bs, batch);
      bs := bs + [batch];
    }
    assert items[..|items|] == items;
  }

  // ----- the prune ------------------------------------------------------------------------------

  class Pruner {
    const registry: Registry
    var states: States
    var indexes: map<View, Index>
    var current: Option<View>
    var kept: seq<Keeping>
    var gone: seq<RunDir>
    ghost var removals: seq<Removal>
    ghost var uses: seq<Use>
    ghost var refusals: seq<Refusal>

    ghost predicate Valid()
      reads this`states, this`indexes, this`current, this`uses, this`removals
    {
      ValidRegistry(registry) && StatesSound(states) && (forall v :: v in indexes ==> current == Some(v)) &&
      CacheCoherent(indexes, states, registry.every) &&
      UsesCoherent(uses, registry.every) && RemovalsSafe(registry, removals, states)
    }

    /** The report: every directory in it is kept for a reason that is the case. */
    ghost predicate Honest()
      reads this`kept, this`refusals
    {
      AllJustified(registry, refusals) && Reported(kept, refusals)
    }

    constructor (g: Registry, st: States)
      requires ValidRegistry(g) && StatesSound(st)
      ensures Valid() && registry == g && states == st && removals == [] && gone == [] && kept == [] && uses == []
      ensures Honest() && refusals == []
    {
      registry, states := g, st;
      indexes, current := map[], None;
      kept, gone, removals, uses, refusals := [], [], [], [], [];
    }

    /** `_keep`. */
    method Keep(ghost why: Refusal, d: RunDir, reason: Reason)
      requires Honest() && Justified(registry, why) && why.dir == d && why.reason == reason
      modifies this`kept, this`refusals
      ensures Honest() && kept == old(kept) + [Keeping(d, reason)] && refusals == old(refusals) + [why]
    {
      kept, refusals := kept + [Keeping(d, reason)], refusals + [why];
    }

    /** `_expired`. */
    method Expired(row: Option<Row>, d: RunDir, cutoff: int) returns (yes: bool)
      requires Honest() && (row == d.early || row == d.locked)
      modifies this`kept, this`refusals
      ensures Honest() && yes == IsExpired(row, d, cutoff)
      ensures refusals == old(refusals) + if IsOpenRow(row) then [Refusal(d, IsOpen, None, [], map[])] else []
    {
      if row.None? { return d.mtime < cutoff; }
      if Open(row.value.status) {
        Keep(Refusal(d, IsOpen, None, [], map[]), d, IsOpen);
        return false;
      }
      yes := Terminal(row.value.status) && row.value.finished.Some? && row.value.finished.value < cutoff;
    }

    /** `_paths_to_save`: `None` when the paths of the run are not known. */
    method PathsToSave(d: RunDir, harness: Option<Name>) returns (paths: Option<seq<Path>>)
      requires Honest() && harness == HarnessOf(RowOf(d))
      modifies this`kept, this`refusals
      ensures Honest() && (paths.Some? <==> KnownPaths(registry, harness))
      ensures paths.Some? ==> paths.value == if harness.Some? then registry.of[harness.value] else registry.every
      ensures refusals == old(refusals) +
                if paths == None then [Refusal(d, UnknownHarness, harness, [], map[])] else []
    {
      if harness.Some? && harness.value !in registry.of {
        Keep(Refusal(d, UnknownHarness, harness, [], map[]), d, UnknownHarness);
        return None;
      }
      if harness.Some? { return Some(registry.of[harness.value]); }
      if registry.of == map[] {
        Keep(Refusal(d, UnknownHarness, harness, [], map[]), d, UnknownHarness);
        return None;
      }
      paths := Some(registry.every);
    }

    /** `_save_sessions`: copy back what the run left in its persistent paths. */
    method SaveSessions(d: RunDir, harness: Option<Name>, paths: seq<Path>)
      returns (ok: bool, ghost moved: seq<Move>, ghost used: Option<Use>)
      requires Valid() && Honest() && Sound(d.home) && current == Some(d.view)
      requires KnownPaths(registry, harness) && paths == PathsOf(registry, harness) && harness == HarnessOf(RowOf(d))
      modifies this`states, this`indexes, this`kept, this`uses, this`refusals
      ensures Valid() && Honest() && StatesNewer(old(states), states)
      ensures Brought(d.home, StateOf(old(states), d.view), StateOf(states, d.view))
      ensures harness.None? ==> Untouched(StateOf(old(states), d.view), StateOf(states, d.view))
      ensures forall v :: v != d.view ==> StateOf(states, v) == StateOf(old(states), v)
      ensures ok ==> NothingLost(registry, d, harness, moved, StateOf(states, d.view)) && refusals == old(refusals)
      ensures ok ==> Checked(registry, harness, used, StateOf(states, d.view))
      ensures uses == old(uses) + Listed(used)
      ensures used.Some? ==> SameFiles(StateOf(old(states), d.view), used.value.state)
      ensures !ok ==> SaveFailed(old(refusals), refusals, d, harness, moved, StateOf(states, d.view))
    {
      moved, used := [], None;
      if paths == [] { return true, [], None; }
      var ready := MakeState(d, harness, paths);
      if !ready { return false, [], None; }
      var r;
      r, moved, used := SaveEither(d, harness);
      ok := Judge(d, harness, r, moved);
    }

    /** The persistent paths of `state/`, before anything is saved. */
    method MakeState(d: RunDir, harness: Option<Name>, paths: seq<Path>) returns (ready: bool)
      requires Valid() && Honest() && paths == PathsOf(registry, harness)
      requires KnownPaths(registry, harness) && harness == HarnessOf(RowOf(d))
      modifies this`states, this`kept, this`refusals
      ensures Valid() && Honest() && StatesNewer(old(states), states)
      ensures SameFiles(StateOf(old(states), d.view), StateOf(states, d.view))
      ensures forall v :: v != d.view ==> StateOf(states, v) == StateOf(old(states), v)
      ensures ready ==> refusals == old(refusals)
      ensures !ready ==> SaveFailed(old(refusals), refusals, d, harness, [], StateOf(states, d.view))
    {
      var state;
      assert forall i :: 0 <= i < |paths| ==> paths[i] in registry.every;
      state, ready := EnsureState(StateOf(states, d.view), paths, d.rootFault);
      SetFiles(d.view, state);
      if !ready {
        ghost var why := Refusal(d, CopyBackFailed, harness, [], state);
        assert Hindered(registry, why);
        Keep(why, d, CopyBackFailed);
      }
    }

    /** What a save came to: a conflict, or an error on the way, keeps the directory. */
    method Judge(d: RunDir, harness: Option<Name>, r: Save, ghost moved: seq<Move>) returns (ok: bool)
      requires Honest() && KnownPaths(registry, harness) && harness == HarnessOf(RowOf(d))
      requires NotSaved(registry, Refusal(d, CopyBackFailed, harness, moved, StateOf(states, d.view)), r)
      modifies this`kept, this`refusals
      ensures Honest() && (ok <==> r.Saved? && r.conflicts == [])
      ensures ok ==> refusals == old(refusals)
      ensures !ok ==> SaveFailed(old(refusals), refusals, d, harness, moved, StateOf(states, d.view))
    {
      ghost var reason := if r.Broke? then CopyBackFailed else Unsaved;
      ghost var why := Refusal(d, reason, harness, moved, StateOf(states, d.view));
      if r.Broke? {
        Keep(why, d, CopyBackFailed);
        return false;
      }
      if r.conflicts != [] {
        Keep(why, d, Unsaved);
        return false;
      }
      ok := true;
    }

    /** The two ways to save, by whether the harness is known. */
    method SaveEither(d: RunDir, harness: Option<Name>)
      returns (r: Save, ghost moved: seq<Move>, ghost used: Option<Use>)
      requires Valid() && Sound(d.home) && current == Some(d.view)
      requires KnownPaths(registry, harness)
      modifies this`states, this`indexes, this`uses
      ensures Valid() && StatesNewer(old(states), states)
      ensures Brought(d.home, StateOf(old(states), d.view), StateOf(states, d.view))
      ensures harness.None? ==> Untouched(StateOf(old(states), d.view), StateOf(states, d.view))
      ensures forall v :: v != d.view ==> StateOf(states, v) == StateOf(old(states), v)
      ensures r.Saved? && r.conflicts == [] ==>
                NothingLost(registry, d, harness, moved, StateOf(states, d.view)) &&
                Checked(registry, harness, used, StateOf(states, d.view))
      ensures NotSaved(registry, Refusal(d, CopyBackFailed, harness, moved, StateOf(states, d.view)), r)
      ensures uses == old(uses) + Listed(used)
      ensures used.Some? ==> used.value.state == StateOf(old(states), d.view)
    {
      moved, used := [], None;
      if harness.None? {
        r, used := SaveUnknown(d);
      } else {
        r, moved := SaveKnown(d, harness.value);
      }
    }

    /** `state/` with other empty directories: the cache is none the worse. */
    method SetFiles(v: View, state: Tree)
      requires Valid() && SoundState(state) && SameFiles(StateOf(states, v), state)
      modifies this`states
      ensures Valid() && states == old(states)[v := state]
      ensures StatesNewer(old(states), states)
    {
      ghost var was := states;
      states := states[v := state];
      forall u | u in indexes ensures Coherent(indexes[u], StateOf(states, u), registry.every) {
        assert Coherent(indexes[u], StateOf(was, u), registry.every);
        if u == v { SameFilesSameIndex(StateOf(was, v), state, registry.every, indexes[u]); }
      }
      SafeStays(registry, removals, was, states);
    }

    /** A save where the harness is not known, so that only names tell a copy from a new file. */
    method SaveUnknown(d: RunDir) returns (r: Save, ghost used: Option<Use>)
      requires Valid() && Sound(d.home) && current == Some(d.view)
      modifies this`states, this`indexes, this`uses
      ensures Valid() && StatesNewer(old(states), states)
      ensures Untouched(StateOf(old(states), d.view), StateOf(states, d.view))
      ensures Brought(d.home, StateOf(old(states), d.view), StateOf(states, d.view))
      ensures forall v :: v != d.view ==> StateOf(states, v) == StateOf(old(states), v)
      ensures r.Saved? && r.conflicts == [] ==> NothingLost(registry, d, None, [], StateOf(states, d.view))
      ensures NotSaved(registry, Refusal(d, CopyBackFailed, None, [], StateOf(states, d.view)), r)
      ensures uses == old(uses) + Listed(used) && (used.None? ==> r.Broke? && d.indexFault)
      ensures used.Some? ==>
                used.value.state == StateOf(old(states), d.view) &&
                Coherent(used.value.index, used.value.state, registry.every) &&
                (d.view in old(indexes) ==> used.value.index == old(indexes)[d.view])
    {
      var ready := IndexFor(d);
      if !ready { return Broke, None; }
      used := Some(Use(indexes[d.view], StateOf(states, d.view)));
      var after, known;
      after, known, r := CopyBackNamed(d.home, StateOf(states, d.view), registry.every, indexes[d.view], d.faults);
      AddedIsBrought(d.home, registry.every, StateOf(states, d.view), after);
      NamedSave(registry, d, after, r);
      SetState(d.view, after, Some(known));
    }

    /** The cached index of the view, made now when there is none. */
    method IndexFor(d: RunDir) returns (ready: bool)
      requires Valid() && current == Some(d.view)
      modifies this`indexes, this`uses
      ensures Valid()
      ensures ready ==> d.view in indexes && uses == old(uses) + [Use(indexes[d.view], StateOf(states, d.view))]
      ensures ready && d.view in old(indexes) ==> indexes == old(indexes)
      ensures !ready ==> uses == old(uses) && indexes == old(indexes) && d.indexFault
    {
      var state := StateOf(states, d.view);
      if d.view !in indexes {
        if d.indexFault { return false; }
        var index := StateNameIndex(state, registry.every);
        indexes := indexes[d.view := index];
      }
      uses := uses + [Use(indexes[d.view], state)];
      ready := true;
    }

    /** What a copy-back left in `state/`, with the index that belongs to it, or none. */
    method SetState(v: View, after: Tree, known: Option<Index>)
      requires Valid() && SoundState(after) && OnlyNewer(StateOf(states, v), after) && current == Some(v)
      requires known.Some? ==> Coherent(known.value, after, registry.every)
      modifies this`states, this`indexes
      ensures Valid() && states == old(states)[v := after] && StatesNewer(old(states), states)
      ensures known.None? ==> v !in indexes
      ensures known.Some? ==> indexes == old(indexes)[v := known.value]
    {
      ghost var was := states;
      states := states[v := after];
      indexes := if known.Some? then indexes[v := known.value] else map u | u in indexes && u != v :: indexes[u];
      SafeStays(registry, removals, was, states);
    }

    /** The harness is known; whatever this wrote, even in part, the cached index is dropped. */
    method SaveKnown(d: RunDir, h: Name) returns (r: Save, moved: seq<Move>)
      requires Valid() && Sound(d.home) && h in registry.of && current == Some(d.view)
      modifies this`states, this`indexes
      ensures Valid() && StatesNewer(old(states), states)
      ensures Brought(d.home, StateOf(old(states), d.view), StateOf(states, d.view))
      ensures forall v :: v != d.view ==> StateOf(states, v) == StateOf(old(states), v)
      ensures r.Saved? && r.conflicts == [] ==> NothingLost(registry, d, Some(h), moved, StateOf(states, d.view))
      ensures NotSaved(registry, Refusal(d, CopyBackFailed, Some(h), moved, StateOf(states, d.view)), r)
    {
      var state := StateOf(states, d.view);
      moved := SessionRelocations(d.home, state, d.asked);
      forall m | m in moved ensures m.there != [] { assert RealMove(d.home, state, m); }
      assert forall i :: 0 <= i < |registry.of[h]| ==> registry.of[h][i] in registry.every;
      var after;
      after, r := CopyBack(d.home, state, registry.of[h], moved, d.faults);
      assert Asks(d, moved, after) by {
        forall m | m in moved ensures RealMove(d.home, after, m) { assert RealMove(d.home, state, m); }
      }
      MovedSave(registry, d, h, moved, after, r);
      SetState(d.view, after, None);
    }

    /** `_remove_tree`: the directory and all in it, unless the file system refuses. */
    method RemoveTree(d: RunDir) returns (ok: bool)
      requires Honest()
      modifies this`kept, this`refusals
      ensures Honest() && ok == d.removable
      ensures refusals == old(refusals) + if ok then [] else [RemoveFailed(d)]
    {
      ok := d.removable;
      if !ok { Keep(RemoveFailed(d), d, Permission); }
    }

    /** `_prune_run_dir`. */
    method PruneRunDir(d: RunDir, row: Option<Row>, dryRun: bool)
      requires Valid() && Honest() && Sound(d.home) && current == Some(d.view) && row == RowOf(d)
      modifies this`states, this`indexes, this`kept, this`gone, this`uses, this`removals, this`refusals
      ensures Valid() && Honest()
      ensures ViewServed(d, old(states), states)
      ensures dryRun ==> states == old(states) && removals == old(removals)
      ensures Went(registry, old(gone), gone, old(refusals), refusals, d, dryRun, StateOf(states, d.view))
      ensures Recorded(old(removals), removals, d, HarnessOf(row))
      ensures !dryRun && gone != old(gone) ==> removals != old(removals)
    {
      var paths := PathsToSave(d, HarnessOf(row));
      if paths.None? { return; }
      if !dryRun {
        var saved := SaveFirst(d, HarnessOf(row), paths.value);
        if !saved { return; }
      }
      var ok := RemoveTree(d);
      if ok { gone := gone + [d]; }
    }

    /** The save that comes before a removal, and the note of it. */
    method SaveFirst(d: RunDir, harness: Option<Name>, paths: seq<Path>) returns (saved: bool)
      requires Valid() && Honest() && Sound(d.home) && current == Some(d.view)
      requires KnownPaths(registry, harness) && paths == PathsOf(registry, harness) && harness == HarnessOf(RowOf(d))
      modifies this`states, this`indexes, this`kept, this`uses, this`removals, this`refusals
      ensures Valid() && Honest()
      ensures ViewServed(d, old(states), states)
      ensures Recorded(old(removals), removals, d, harness) && (saved <==> removals != old(removals))
      ensures saved ==> refusals == old(refusals)
      ensures !saved ==> FailedSave(registry, old(refusals), refusals, d, StateOf(states, d.view))
    {
      ghost var moved, used;
      saved, moved, used := SaveSessions(d, harness, paths);
      if saved {
        removals := removals + [Removal(d, harness, moved, used, StateOf(states, d.view))];
      } else {
        FailureRefuses(registry, old(refusals), refusals, d, harness, moved, StateOf(states, d.view));
      }
    }

    /** The cached indexes are of one agent view at a time. */
    method EnterView(v: View)
      requires Valid()
      modifies this`indexes, this`current
      ensures Valid() && current == Some(v)
      ensures old(current) == Some(v) ==> indexes == old(indexes)
    {
      if current != Some(v) {
        indexes := map[];
        current := Some(v);
      }
    }

    /** One candidate of `prune_run_dirs`. */
    method PruneCandidate(d: RunDir, cutoff: int, dryRun: bool)
      requires Valid() && Honest() && Sound(d.home)
      modifies this
      ensures Valid() && Honest()
      ensures ViewServed(d, old(states), states)
      ensures indexes.Keys <= {d.view}
      ensures dryRun ==> states == old(states) && removals == old(removals)
      ensures Due(d, cutoff) ==>
                Went(registry, old(gone), gone, old(refusals), refusals, d, dryRun, StateOf(states, d.view))
      ensures !Due(d, cutoff) ==> gone == old(gone) && states == old(states) && StillOpen(old(refusals), refusals, d)
      ensures Recorded(old(removals), removals, d, HarnessOf(RowOf(d)))
      ensures removals != old(removals) ==> Due(d, cutoff)
      ensures !dryRun && gone != old(gone) ==> removals != old(removals)
    {
      EnterView(d.view);
      var yes := Expired(d.early, d, cutoff);
      if !yes { return; }
      if d.early.None? {
        PruneRunDir(d, None, dryRun);
        return;
      }
      yes := Expired(d.locked, d, cutoff);
      if yes && d.locked.Some? { PruneRunDir(d, d.locked, dryRun); }
    }

    /** `prune_run_dirs`: whatever is removed was safe to remove; whatever the cache was asked
        for, and it was for each of them whose harness is not known, was what a fresh scan says;
        and no directory that is due is passed over. */
    method PruneRunDirs(dirs: seq<RunDir>, cutoff: int, dryRun: bool)
      requires Valid() && Honest() && forall d :: d in dirs ==> Sound(d.home)
      requires removals == [] && kept == [] && gone == [] && refusals == []
      modifies this
      ensures UsesCoherent(uses, registry.every)
      ensures RemovalsSafe(registry, removals, states) && StatesNewer(old(states), states)
      ensures forall i :: 0 <= i < |removals| ==> Rightly(removals[i], dirs, cutoff)
      ensures !dryRun ==> forall d :: d in gone ==> SavedFirst(removals, d)
      ensures dryRun ==> states == old(states) && removals == []
      ensures forall d :: d in dirs && Due(d, cutoff) ==> d in gone || Excused(refusals, d)
      ensures AllJustified(registry, refusals) && Reported(kept, refusals)
      ensures AllFit(refusals, dryRun, old(states), states)
      ensures forall d :: d in gone ==> d in dirs && Due(d, cutoff) && d.removable
    {
      ghost var walked: seq<RunDir> := [];
      var batches := Batches(dirs, 500);
      indexes, current := map[], None;
      for i := 0 to |batches|
        invariant Valid() && Honest() && StatesNewer(old(states), states)
        invariant walked == Flat(batches[..i])
        invariant Pruned(walked, cutoff, dryRun, old(states))
        invariant dryRun ==> states == old(states)
      {
        forall j | 0 <= j < |batches[i]| ensures batches[i][j] in dirs { FlatHas(batches, i, j); }
        PruneBatch(walked, batches[i], cutoff, dryRun, old(states));
        walked := walked + batches[i];
        assert batches[..i + 1][..i] == batches[..i];
      }
      assert batches[..|batches|] == batches;
    }

    method PruneBatch(ghost walked: seq<RunDir>, batch: seq<RunDir>, cutoff: int, dryRun: bool, ghost before: States)
      requires StatesNewer(before, states)
      requires Valid() && Honest() && Pruned(walked, cutoff, dryRun, before)
      requires forall j :: 0 <= j < |batch| ==> Sound(batch[j].home)
      modifies this
      ensures Valid() && Honest() && StatesNewer(old(states), states) && Pruned(walked + batch, cutoff, dryRun, before)
      ensures dryRun ==> states == old(states)
    {
      assert walked + batch[..0] == walked;
      for j := 0 to |batch|
        invariant Valid() && Honest() && StatesNewer(old(states), states)
        invariant StatesNewer(before, states)
        invariant Pruned(walked + batch[..j], cutoff, dryRun, before)
        invariant dryRun ==> states == old(states)
      {
        PruneNext(walked + batch[..j], batch[j], cutoff, dryRun, before);
        assert walked + batch[..j] + [batch[j]] == walked + batch[..j + 1];
      }
      assert batch[..|batch|] == batch;
    }

    /** What holds of the report and the removals once `walked` was walked. */
    ghost predicate Pruned(walked: seq<RunDir>, cutoff: int, dryRun: bool, before: States)
      reads this
    {
      (forall i :: 0 <= i < |removals| ==> Rightly(removals[i], walked, cutoff)) &&
      (if dryRun then removals == [] else forall d :: d in gone ==> SavedFirst(removals, d)) &&
      (forall d :: d in walked && Due(d, cutoff) ==> d in gone || Excused(refusals, d)) &&
      (forall d :: d in gone ==> d in walked && Due(d, cutoff) && d.removable) &&
      AllFit(refusals, dryRun, before, states)
    }

    method PruneNext(ghost walked: seq<RunDir>, d: RunDir, cutoff: int, dryRun: bool, ghost before: States)
      requires StatesNewer(before, states)
      requires Valid() && Honest() && Sound(d.home) && Pruned(walked, cutoff, dryRun, before)
      modifies this
      ensures Valid() && Honest() && StatesNewer(old(states), states) && Pruned(walked + [d], cutoff, dryRun, before)
      ensures dryRun ==> states == old(states)
    {
      ghost var was, told, earlier := removals, refusals, states;
      PruneCandidate(d, cutoff, dryRun);
      FitStays(told, dryRun, before, earlier, states);
      NewFits(registry, told, refusals, d, dryRun, before, earlier, states);
      assert forall e: RunDir :: SavedFirst(was, e) ==> SavedFirst(removals, e) by {
        forall e | SavedFirst(was, e) ensures SavedFirst(removals, e) {
          var i :| 0 <= i < |was| && was[i].dir == e;
          assert removals[i] == was[i];
        }
      }
      assert removals != was ==> removals[|was|].dir == d;
      forall e | Excused(told, e) ensures Excused(refusals, e) { ExcusedStays(told, refusals, e); }
      assert |refusals| > |told| && refusals[|told|].reason != IsOpen ==> Excused(refusals, refusals[|told|].dir);
    }
  }

  /** The directory was saved before it went. */
  ghost predicate SavedFirst(removals: seq<Removal>, d: RunDir) {
    exists i :: 0 <= i < |removals| && removals[i].dir == d
  }

  /** What a run of a known harness left is still saved at the end of the prune, whatever was
      saved after it. */
  lemma NewEnoughStays(g: Registry, m: Removal, now: Tree, p: Path)
    requires SafeRemoval(g, m, now) && m.harness.Some? && m.harness.value in g.of
    requires Held(m.dir.home, g.of[m.harness.value], p)
    ensures NewEnough(m.dir.home, now, p, TargetOf(m.relocate, p))
  {
    assert NewEnough(m.dir.home, m.state, p, TargetOf(m.relocate, p));
  }

  /** And what an unknown run left: its bytes, or a file of the name that is newer than they. */
  lemma BytesStay(g: Registry, m: Removal, now: Tree, p: Path)
    requires SafeRemoval(g, m, now) && m.harness.None? && p != [] && Held(m.dir.home, g.every, p)
    ensures exists q :: q != [] && Held(m.state, g.every, q) && Held(now, g.every, q) && NameOf(q) == NameOf(p) &&
              m.state[q].bytes == m.dir.home[p].bytes && (now[q] == m.state[q] || now[q].mtime > m.state[q].mtime)
  {
    assert OnlyCopy(m.dir.home, m.state, g.every, p);
    var q :| q != [] && Held(m.state, g.every, q) && NameOf(q) == NameOf(p) && m.state[q].bytes == m.dir.home[p].bytes;
    assert HasFile(now, q);
  }

  /** The directory was due, and was saved as a run of the harness its row, read again, names. */
  ghost predicate Rightly(m: Removal, dirs: seq<RunDir>, cutoff: int) {
    m.dir in dirs && Due(m.dir, cutoff) &&
    m.harness == if m.dir.early.Some? && m.dir.locked.Some? then m.dir.locked.value.harness else None
  }

  lemma {:induction false} FlatHas<T>(bs: seq<seq<T>>, i: nat, j: nat)
    requires i < |bs| && j < |bs[i]|
    ensures bs[i][j] in Flat(bs)
    decreases |bs|
  {
    if i < |bs| - 1 { FlatHas(bs[..|bs| - 1], i, j); }
  }
}
