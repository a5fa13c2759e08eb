/** Whole lives of a job: every order of claims, runs, recoveries and edits. */
module JobRuns {
  import opened Wrappers
  import opened JobModels
  import opened RetryPolicy
  import opened JobLifecycle
  import Defer

  /** What happened so far. */
  datatype Tally = Tally(claims: nat, refunds: nat, retries: nat, recoveries: nat, resumes: nat, pauses: nat)

  /** The row, every run it was claimed for, the deferrals, and the runtimes that runs got
      since the last edit. */
  datatype History = History(row: Row, runs: seq<Run>, tally: Tally, line: Defer.Ledger, ran: seq<Runtime>)

  datatype Event =
    | Deferred(moved: bool, lineWait: bool)
    | Claim(moved: bool)
    | Resolve(run: nat, registry: set<Harness>, answer: Option<Runtime>)
    | Save(run: nat, id: nat)
    | Finalize(run: nat, outcome: Outcome)
    | Recover(trace: Trace)
    | Pause
    | Resume(state: Life)
    | Edit(harness: Option<Harness>, model: Option<nat>, clear: bool)
    | Sweep(expired: set<nat>)

  function Start(most: nat, harness: Option<Harness>, model: Option<nat>): History {
    History(Published(most, harness, model), [], Tally(0, 0, 0, 0, 0, 0), Defer.Ledger([], [], 0, []), [])
  }

  /** Whether the event can come now: a worker acts on a run it holds, in order. */
  predicate Able(s: History, e: Event) {
    match e
    case Deferred(_, _) => s.row.status == TODO
    case Claim(_) => Claimable(s.row)
    case Resolve(i, registry, answer) =>
      i < |s.runs| && s.runs[i].phase.Claimed? && Answers(s.runs[i], registry, answer)
    case Save(i, _) => i < |s.runs| && s.runs[i].phase.Started?
    case Finalize(i, o) =>
      i < |s.runs| && !s.runs[i].phase.Over? &&
      (o.session.Some? ==> s.runs[i].phase.Started? && o.session.value.maker == s.runs[i].phase.runtime.harness)
    case Recover(_) => true
    case Pause => s.row.status == RUNNING
    case Resume(state) => Resuming(s.row, state).Ok?
    case Edit(_, _, _) => s.row.status == TODO
    case Sweep(_) => true
  }

  function ClaimStep(s: History, moved: bool): History
    requires Claimable(s.row)
  {
    var row := Taken(s.row, moved);
    s.(row := row, runs := s.runs + [RunOf(row)], tally := s.tally.(claims := s.tally.claims + 1),
       line := Defer.Ended(s.line))
  }

  function ResolveStep(s: History, i: nat, registry: set<Harness>, answer: Option<Runtime>): History
    requires i < |s.runs|
  {
    var run := s.runs[i];
    var rt := Resolved(run, registry, answer);
    if rt.None? then s
    else s.(row := if run.provider.None? then Committed(s.row, rt.value) else s.row,
            runs := s.runs[i := Begun(run, rt.value)],
            ran := s.ran + [rt.value])
  }

  function SaveStep(s: History, i: nat, id: nat): History
    requires i < |s.runs| && s.runs[i].phase.Started?
  {
    var made := Some(Session(id, s.runs[i].phase.runtime.harness));
    s.(row := s.row.(session := made), runs := s.runs[i := s.runs[i].(session := made)])
  }

  /** The run is the one the job was claimed for last. */
  predicate Latest(s: History, i: nat) {
    i == |s.runs| - 1
  }

  function FinalizeStep(s: History, i: nat, o: Outcome): History
    requires i < |s.runs|
  {
    var run := s.runs[i];
    var retried := Retries(s.row, run, o);
    s.(row := Finalized(s.row, run, o),
       runs := s.runs[i := run.(phase := Over)],
       tally := s.tally.(retries := s.tally.retries + (if retried then 1 else 0),
                         refunds := s.tally.refunds + (if Refunds(s.row, o) then 1 else 0)))
  }

  function RecoverStep(s: History, t: Trace): History {
    var row := Recovered(s.row, t);
    s.(row := row,
       tally := s.tally.(recoveries := s.tally.recoveries
                                       + (if row.status == TODO && s.row.status == RUNNING then 1 else 0)))
  }

  function Step(s: History, e: Event): History {
    if !Able(s, e) then s
    else match e
      case Deferred(moved, lineWait) => s.(row := Placed(s.row, moved), line := Defer.Refused(s.line, lineWait))
      case Claim(moved) => ClaimStep(s, moved)
      case Resolve(i, registry, answer) => ResolveStep(s, i, registry, answer)
      case Save(i, id) => SaveStep(s, i, id)
      case Finalize(i, o) => FinalizeStep(s, i, o)
      case Recover(t) => RecoverStep(s, t)
      case Pause => s.(row := After(s.row, Pausing(s.row)), tally := s.tally.(pauses := s.tally.pauses + 1))
      case Resume(state) =>
        s.(row := After(s.row, Resuming(s.row, state)), tally := s.tally.(resumes := s.tally.resumes + 1))
      case Edit(harness, model, clear) => s.(row := After(s.row, Editing(s.row, harness, model, clear)), ran := [])
      case Sweep(expired) => s.(line := Defer.Swept(s.line, expired))
  }

  function Exec(s: History, es: seq<Event>): History
    decreases |es|
  {
    if es == [] then s else Step(Exec(s, es[..|es| - 1]), es[|es| - 1])
  }

  lemma ExecSnoc(s: History, es: seq<Event>, e: Event)
    ensures Exec(s, es + [e]) == Step(Exec(s, es), e)
  {
    assert (es + [e])[..|es|] == es;
  }

  lemma TwoEvents(s: History, es: seq<Event>, a: Event, b: Event)
    ensures Exec(s, es + [a, b]) == Step(Step(Exec(s, es), a), b)
  {
    ExecSnoc(s, es, a);
    ExecSnoc(s, es + [a], b);
    assert es + [a, b] == es + [a] + [b];
  }

  lemma ThreeEvents(s: History, es: seq<Event>, a: Event, b: Event, c: Event)
    ensures Exec(s, es + [a, b, c]) == Step(Step(Step(Exec(s, es), a), b), c)
  {
    TwoEvents(s, es, a, b);
    ExecSnoc(s, es + [a, b], c);
    assert es + [a, b, c] == es + [a, b] + [c];
  }

  // ----- attempts ---------------------------------------------------------------------------------

  predicate Underway(s: Status) {
    s == RUNNING || s == PAUSED
  }

  /** Every attempt is a claim that was not refunded; the queue was entered once for the job,
      and once for each retry, recovery and resume that the attempts account for. */
  ghost predicate Counted(s: History) {
    var t := s.tally;
    t.claims == s.row.attempt + t.refunds &&
    s.row.attempt + (if s.row.status == TODO then 1 else 0) == 1 + t.retries + t.recoveries + t.resumes &&
    t.resumes + (if s.row.status == PAUSED then 1 else 0) <= t.pauses &&
    (Underway(s.row.status) ==> s.row.attempt >= 1 && s.runs != [] && s.runs[|s.runs| - 1].attempt == s.row.attempt) &&
    forall i :: 0 <= i < |s.runs| ==> 1 <= s.runs[i].attempt <= Height(s.row)
  }

  function Max(a: nat, b: nat): nat {
    if a < b then b else a
  }

  /** The attempt that runs, or would run next. */
  function Height(row: Row): nat {
    if row.status == TODO then row.attempt + 1 else row.attempt
  }

  lemma FinalizeCounts(s: History, i: nat, o: Outcome)
    requires Counted(s) && Able(s, Finalize(i, o))
    ensures Counted(FinalizeStep(s, i, o))
  {
  }

  lemma StepCounts(s: History, e: Event)
    requires Counted(s)
    ensures Counted(Step(s, e))
  {
    if e.Finalize? && Able(s, e) { FinalizeCounts(s, e.run, e.outcome); }
  }

  // ----- how many attempts there can be -----------------------------------------------------------

  /** A job is resumed that has used up its attempts. */
  predicate LateResume(s: History, e: Event) {
    Able(s, e) && e.Resume? && s.row.attempt >= s.row.most
  }

  /** A finalizer finds its own attempt below the limit and sends the job back to the queue,
      where the attempt on the row is not below it: `_finalize_job` looks at the first only. */
  predicate LateRetry(s: History, e: Event) {
    Able(s, e) && e.Finalize? && s.row.status == RUNNING && ErrorOf(e.outcome).Some? &&
    !PoolWaits(e.outcome) && !WaitExpired(e.outcome) && Hopeful(ErrorOf(e.outcome).value) &&
    s.runs[e.run].attempt < s.row.most <= s.row.attempt
  }

  function LateResumes(s: History, es: seq<Event>): nat
    decreases |es|
  {
    if es == [] then 0
    else LateResumes(s, es[..|es| - 1]) + (if LateResume(Exec(s, es[..|es| - 1]), es[|es| - 1]) then 1 else 0)
  }

  function LateRetries(s: History, es: seq<Event>): nat
    decreases |es|
  {
    if es == [] then 0
    else LateRetries(s, es[..|es| - 1]) + (if LateRetry(Exec(s, es[..|es| - 1]), es[|es| - 1]) then 1 else 0)
  }

  /** How far the attempts are past the limit, or could be at the next claim. */
  function Excess(row: Row): nat {
    Max(Height(row), row.most) - row.most
  }

  lemma FinalizeExcess(s: History, e: Event)
    requires Counted(s) && e.Finalize? && Able(s, e)
    ensures Excess(Step(s, e).row) == Excess(s.row) + if LateRetry(s, e) then 1 else 0
    ensures LateRetry(s, e) ==> !Latest(s, e.run)
  {
    if ErrorOf(e.outcome).Some? { RetriesExactly(ErrorOf(e.outcome).value, s.runs[e.run].attempt, s.row.most); }
  }

  lemma StepExcess(s: History, e: Event)
    requires Counted(s)
    ensures Excess(Step(s, e).row)
         == Excess(s.row) + (if LateResume(s, e) then 1 else 0) + (if LateRetry(s, e) then 1 else 0)
    ensures LateResume(s, e) ==> Step(s, e).tally.resumes == s.tally.resumes + 1
    ensures Step(s, e).tally.resumes >= s.tally.resumes
  {
    if e.Finalize? && Able(s, e) { FinalizeExcess(s, e); }
  }

  lemma {:induction false} ExecExcess(s: History, es: seq<Event>)
    requires Counted(s) && Limited(s) && Excess(s.row) == 0 && s.tally.resumes == 0
    ensures Excess(Exec(s, es).row) == LateResumes(s, es) + LateRetries(s, es)
    ensures LateResumes(s, es) <= Exec(s, es).tally.resumes
    decreases |es|
  {
    if es != [] {
      ExecExcess(s, es[..|es| - 1]);
      ExecCounts(s, es[..|es| - 1]);
      StepExcess(Exec(s, es[..|es| - 1]), es[|es| - 1]);
    }
  }

  /** How many of the runs can still decide for a retry. */
  function Undecided(runs: seq<Run>, most: nat): nat
    decreases |runs|
  {
    if runs == [] then 0
    else Undecided(runs[..|runs| - 1], most) + (if MayRetry(runs[|runs| - 1], most) then 1 else 0)
  }

  predicate MayRetry(run: Run, most: nat) {
    !run.phase.Over? && run.attempt < most
  }

  lemma UndecidedSnoc(runs: seq<Run>, run: Run, most: nat)
    ensures Undecided(runs + [run], most) == Undecided(runs, most) + if MayRetry(run, most) then 1 else 0
  {
    assert (runs + [run])[..|runs|] == runs;
  }

  lemma {:induction false} UndecidedChange(runs: seq<Run>, i: nat, run: Run, most: nat)
    requires i < |runs|
    ensures Undecided(runs[i := run], most) + (if MayRetry(runs[i], most) then 1 else 0)
         == Undecided(runs, most) + (if MayRetry(run, most) then 1 else 0)
    decreases |runs|
  {
    var n := |runs| - 1;
    if i == n {
      assert runs[i := run][..n] == runs[..n];
    } else {
      UndecidedChange(runs[..n], i, run, most);
      assert runs[i := run][..n] == runs[..n][i := run];
    }
  }

  /** What the attempts can still come to: one for each run that can decide for a retry, on top
      of the attempt that runs or, in the queue, of the one that comes next. */
  function Reach(row: Row, undecided: nat): int {
    undecided + (if row.status == TODO then Max(row.attempt + 1, row.most)
                 else if row.attempt < row.most then row.most - 1 else row.attempt)
  }

  ghost predicate Limited(s: History) {
    Reach(s.row, Undecided(s.runs, s.row.most)) <= s.row.most + s.tally.resumes + s.tally.recoveries
  }

  lemma FinalizeStaysLimited(s: History, i: nat, o: Outcome)
    requires Counted(s) && Able(s, Finalize(i, o))
    ensures var t := FinalizeStep(s, i, o);
      Reach(t.row, Undecided(t.runs, t.row.most)) <= Reach(s.row, Undecided(s.runs, s.row.most))
    ensures Limited(s) ==> Limited(FinalizeStep(s, i, o))
  {
    UndecidedChange(s.runs, i, s.runs[i].(phase := Over), s.row.most);
    if Retries(s.row, s.runs[i], o) { RetriesExactly(ErrorOf(o).value, s.runs[i].attempt, s.row.most); }
  }

  lemma ClaimStaysLimited(s: History, moved: bool)
    requires Limited(s) && Claimable(s.row)
    ensures Limited(ClaimStep(s, moved))
  {
    UndecidedSnoc(s.runs, RunOf(Taken(s.row, moved)), s.row.most);
  }

  /** What a run learns while it goes on does not change what it may decide. */
  lemma SameUndecided(runs: seq<Run>, i: nat, run: Run, most: nat)
    requires i < |runs| && MayRetry(run, most) == MayRetry(runs[i], most)
    ensures Undecided(runs[i := run], most) == Undecided(runs, most)
  {
    UndecidedChange(runs, i, run, most);
  }

  lemma ResolveStaysLimited(s: History, e: Event)
    requires e.Resolve? && Able(s, e) && Limited(s)
    ensures Limited(Step(s, e))
  {
    var rt := Resolved(s.runs[e.run], e.registry, e.answer);
    if rt.Some? { SameUndecided(s.runs, e.run, Begun(s.runs[e.run], rt.value), s.row.most); }
  }

  lemma SaveStaysLimited(s: History, e: Event)
    requires e.Save? && Able(s, e) && Limited(s)
    ensures Limited(Step(s, e))
  {
    var run := s.runs[e.run];
    SameUndecided(s.runs, e.run, run.(session := Some(Session(e.id, run.phase.runtime.harness))), s.row.most);
  }

  lemma StepStaysLimited(s: History, e: Event)
    requires Counted(s) && Limited(s)
    ensures Limited(Step(s, e))
  {
    if Able(s, e) {
      match e
      case Finalize(i, o) => FinalizeStaysLimited(s, i, o);
      case Claim(moved) => ClaimStaysLimited(s, moved);
      case Resolve(_, _, _) => ResolveStaysLimited(s, e);
      case Save(_, _) => SaveStaysLimited(s, e);
      case _ =>
    }
  }

  lemma {:induction false} ExecCounts(s: History, es: seq<Event>)
    requires Counted(s) && Limited(s)
    ensures Counted(Exec(s, es)) && Limited(Exec(s, es)) && Exec(s, es).row.most == s.row.most
    decreases |es|
  {
    if es != [] {
      var front, e := es[..|es| - 1], es[|es| - 1];
      ExecCounts(s, front);
      StepCounts(Exec(s, front), e);
      StepStaysLimited(Exec(s, front), e);
    }
  }

  /** The attempt counter is the claims less the pool waits, and every run, and an underway job,
      has at least one, so no backoff index falls short and no refund meets its floor. The
      counter never passes the limit by more than the resumes and the recoveries. */
  lemma AttemptConservation(most: nat, harness: Option<Harness>, model: Option<nat>, es: seq<Event>)
    requires most >= 1
    ensures var s := Exec(Start(most, harness, model), es);
      && s.row.attempt == s.tally.claims - s.tally.refunds
      && (Underway(s.row.status) ==> s.row.attempt >= 1)
      && (forall i :: 0 <= i < |s.runs| ==> s.runs[i].attempt >= 1)
      && s.row.attempt + (if s.row.status == TODO then 1 else 0)
         == 1 + s.tally.retries + s.tally.recoveries + s.tally.resumes
      && s.row.attempt <= most + s.tally.resumes + s.tally.recoveries
      && (s.tally.pauses == 0 ==> s.tally.claims <= most + s.tally.refunds + s.tally.recoveries)
  {
    ExecCounts(Start(most, harness, model), es);
  }

  /** How far the attempts pass the limit, exactly: by one for each resume and each retry that
      comes when the row has no attempt left. So they stay within the limit and those resumes if
      and only if no finalizer ever retries a job whose row has none left; and within the limit
      and all the resumes if and only if there are no more such retries than early resumes. */
  lemma AttemptLimitExactly(most: nat, harness: Option<Harness>, model: Option<nat>, es: seq<Event>)
    requires most >= 1
    ensures var start := Start(most, harness, model);
      var s, late, stale := Exec(start, es), LateResumes(start, es), LateRetries(start, es);
      && Max(Height(s.row), most) == most + late + stale
      && (Max(Height(s.row), most) <= most + late <==> stale == 0)
      && (Max(Height(s.row), most) <= most + s.tally.resumes <==> stale <= s.tally.resumes - late)
      && (s.tally.pauses == 0 ==> s.tally.claims <= most + s.tally.refunds + stale)
  {
    ExecCounts(Start(most, harness, model), es);
    ExecExcess(Start(most, harness, model), es);
  }

  /** Only a run that is no longer the last one claimed decides such a retry. */
  lemma LateRetryIsStale(most: nat, harness: Option<Harness>, model: Option<nat>, es: seq<Event>, e: Event)
    requires most >= 1 && LateRetry(Exec(Start(most, harness, model), es), e)
    ensures !Latest(Exec(Start(most, harness, model), es), e.run)
  {
    ExecCounts(Start(most, harness, model), es);
    FinalizeExcess(Exec(Start(most, harness, model), es), e);
  }

  /** And one can come: with a limit of two, the process of run 0 dies and the job is recovered
      before its finalizer comes, run 1 is claimed, the finalizer of run 0 sends the job back to
      the queue, and the third attempt begins. */
  lemma StaleFinalizerAddsAnAttempt(rt: Runtime)
    requires rt.harness == 1
    ensures var s := Exec(Start(2, None, None), RecoveredEvents({1}, rt) +
      [Claim(false), Finalize(0, Failed(Failure(None, None, false), false, false, None)), Claim(false)]);
      s.row.attempt == 3 && s.row.most == 2 && s.tally.resumes == 0
  {
    var most := 2;
    var es := RecoveredEvents({1}, rt);
    RecoveredRun(most, {1}, rt);
    var s := Exec(Start(most, None, None), es);
    var late := Finalize(0, Failed(Failure(None, None, false), false, false, None));
    ThreeEvents(Start(most, None, None), es, Claim(false), late, Claim(false));
    LateFinalizer(rt, s, Step(s, Claim(false)), Step(Step(s, Claim(false)), late),
                  Step(Step(Step(s, Claim(false)), late), Claim(false)));
  }

  lemma LateFinalizer(rt: Runtime, s3: History, s4: History, s5: History, s6: History)
    requires s3.row == Row(TODO, 1, 2, Some(1), Some(rt.provider), rt.model, None) && s3.tally.resumes == 0
    requires s3.runs == [Run(1, Some(1), Some(rt.provider), rt.model, None, Started(rt))]
    requires s4 == Step(s3, Claim(false))
    requires s5 == Step(s4, Finalize(0, Failed(Failure(None, None, false), false, false, None)))
    requires s6 == Step(s5, Claim(false))
    ensures s6.row.attempt == 3 && s6.row.most == 2 && s6.tally.resumes == 0
  {
    assert s4.row == s3.row.(status := RUNNING, attempt := 2) && s4.runs[0] == s3.runs[0];
    RetriesExactly(Failure(None, None, false), 1, 2);
    assert s5.row == s4.row.(status := TODO) && s5.tally.resumes == 0;
  }

  /** A run gets its runtime, its process dies, and the job is recovered. */
  function RecoveredEvents(registry: set<Harness>, rt: Runtime): seq<Event> {
    [Claim(false), Resolve(0, registry, Some(rt)), Recover(Owner(Dead))]
  }

  lemma RecoveredRun(most: nat, registry: set<Harness>, rt: Runtime)
    requires most >= 2 && rt.harness in registry
    ensures var s := Exec(Start(most, None, None), RecoveredEvents(registry, rt));
      && s.row == Row(TODO, 1, most, Some(rt.harness), Some(rt.provider), rt.model, None) && s.tally.resumes == 0
      && s.runs == [Run(1, Some(rt.harness), Some(rt.provider), rt.model, None, Started(rt))]
  {
    var start, claim, resolve := Start(most, None, None), Claim(false), Resolve(0, registry, Some(rt));
    ThreeEvents(start, [], claim, resolve, Recover(Owner(Dead)));
    assert [] + RecoveredEvents(registry, rt) == RecoveredEvents(registry, rt);
    var s1 := Step(start, claim);
    assert s1.row == Row(RUNNING, 1, most, None, None, None, None) && s1.runs == [RunOf(s1.row)];
    var s2 := Step(s1, resolve);
    assert s2.row == Committed(s1.row, rt) && s2.runs == [Begun(s1.runs[0], rt)];
  }

  // ----- the end ------------------------------------------------------------------------------------

  /** SUCCESS, FAILED and DEAD are for good. */
  lemma {:induction false} TerminalStays(s: History, es: seq<Event>)
    requires Terminal(s.row.status)
    ensures Exec(s, es).row.status == s.row.status && Exec(s, es).row.attempt == s.row.attempt
    decreases |es|
  {
    if es != [] { TerminalStays(s, es[..|es| - 1]); }
  }

  // ----- deferrals ----------------------------------------------------------------------------------

  ghost predicate Waits(s: History) {
    Defer.Conserved(s.line) && (Defer.IsOpen(s.line.rows) ==> s.row.status == TODO)
  }

  lemma StepWaits(s: History, e: Event)
    requires Waits(s)
    ensures Waits(Step(s, e))
  {
    if Able(s, e) {
      match e
      case Deferred(_, lineWait) => Defer.RefusedConserves(s.line, lineWait);
      case Claim(_) => Defer.EndedConserves(s.line);
      case Sweep(expired) => Defer.SweptConserves(s.line, expired);
      case _ =>
    }
  }

  lemma {:induction false} ExecWaits(s: History, es: seq<Event>)
    requires Waits(s)
    ensures Waits(Exec(s, es))
    decreases |es|
  {
    if es != [] {
      ExecWaits(s, es[..|es| - 1]);
      StepWaits(Exec(s, es[..|es| - 1]), es[|es| - 1]);
    }
  }

  lemma StartWaits(most: nat, harness: Option<Harness>, model: Option<nat>)
    ensures Waits(Start(most, harness, model))
  {
    Defer.NothingIsConserved(Start(most, harness, model).line);
  }

  /** At every moment the deferrals are those announced and those of the one open stretch, which
      only a job in the queue has. */
  lemma DeferralConservation(most: nat, harness: Option<Harness>, model: Option<nat>, es: seq<Event>)
    ensures Waits(Exec(Start(most, harness, model), es))
  {
    StartWaits(most, harness, model);
    ExecWaits(Start(most, harness, model), es);
  }

  /** A deferral is not an attempt: it leaves the job in the queue, with the attempts it had. */
  lemma DeferralIsNoAttempt(s: History, moved: bool, lineWait: bool)
    requires s.row.status == TODO
    ensures Step(s, Deferred(moved, lineWait)).row.status == TODO
    ensures Step(s, Deferred(moved, lineWait)).row.attempt == s.row.attempt
    ensures Step(s, Deferred(moved, lineWait)).line.deferrals == s.line.deferrals + 1
  {
  }

  // ----- runtimes -------------------------------------------------------------------------------------

  function RuntimeOf(row: Row): Option<Runtime> {
    if row.harness.Some? && row.provider.Some?
    then Some(Runtime(row.harness.value, row.provider.value, row.model)) else None
  }

  /** Every run since the last edit got the runtime that the row holds. */
  predicate Agreed(s: History) {
    forall i :: 0 <= i < |s.ran| ==> RuntimeOf(s.row) == Some(s.ran[i])
  }

  /** A run goes on with the runtime that the row holds, or commits one where none was given out
      since the last edit. The code compares nothing with the row before its UPDATE. */
  predicate ResolveFits(s: History, e: Event) {
    e.Resolve? && Able(s, e) ==>
      var rt := Resolved(s.runs[e.run], e.registry, e.answer);
      rt.None? || RuntimeOf(s.row) == rt || (s.runs[e.run].provider.None? && s.ran == [])
  }

  predicate AllResolvesFit(s: History, es: seq<Event>)
    decreases |es|
  {
    es == [] || (AllResolvesFit(s, es[..|es| - 1]) && ResolveFits(Exec(s, es[..|es| - 1]), es[|es| - 1]))
  }

  predicate AlwaysAgreed(s: History, es: seq<Event>)
    decreases |es|
  {
    Agreed(Exec(s, es)) && (es == [] || AlwaysAgreed(s, es[..|es| - 1]))
  }

  /** One step: the runs stay agreed if and only if a runtime given out in it fits. */
  lemma StepAgrees(s: History, e: Event)
    requires Agreed(s)
    ensures Agreed(Step(s, e)) <==> ResolveFits(s, e)
  {
    if e.Resolve? && Able(s, e) && Resolved(s.runs[e.run], e.registry, e.answer).Some? {
      var r := Step(s, e);
      assert r.ran[|s.ran|] == Resolved(s.runs[e.run], e.registry, e.answer).value;
      assert forall i :: 0 <= i < |s.ran| ==> r.ran[i] == s.ran[i];
      if s.ran != [] { assert r.ran[0] == s.ran[0]; }
    }
  }

  /** At every moment all runs since the last edit have the row's runtime, if and only if each
      runtime given out fits the row it is given out over. */
  lemma {:induction false} StickyExactly(s: History, es: seq<Event>)
    requires Agreed(s)
    ensures AlwaysAgreed(s, es) <==> AllResolvesFit(s, es)
    ensures AllResolvesFit(s, es) ==> Agreed(Exec(s, es))
    decreases |es|
  {
    if es != [] {
      var front := es[..|es| - 1];
      StickyExactly(s, front);
      if AllResolvesFit(s, front) { StepAgrees(Exec(s, front), es[|es| - 1]); }
    }
  }

  /** So from one edit to the next every run gets one and the same runtime, and the row holds it,
      whatever late saves and late finalizers do. */
  lemma StickyRuntime(most: nat, harness: Option<Harness>, model: Option<nat>, es: seq<Event>)
    requires AllResolvesFit(Start(most, harness, model), es)
    ensures var s := Exec(Start(most, harness, model), es);
      && (forall i, j :: 0 <= i < |s.ran| && 0 <= j < |s.ran| ==> s.ran[i] == s.ran[j])
      && (forall i :: 0 <= i < |s.ran| ==> RuntimeOf(s.row) == Some(s.ran[i]))
  {
    StickyExactly(Start(most, harness, model), es);
  }

  /** A snapshot is whole whatever comes: no row has a provider without a harness. */
  lemma {:induction false} SnapshotIsWhole(s: History, es: seq<Event>)
    requires s.row.provider.Some? ==> s.row.harness.Some?
    ensures Exec(s, es).row.provider.Some? ==> Exec(s, es).row.harness.Some?
    decreases |es|
  {
    if es != [] { SnapshotIsWhole(s, es[..|es| - 1]); }
  }

  // ----- sessions -------------------------------------------------------------------------------------

  /** A stored session was made by the harness of the row. */
  predicate Homely(row: Row) {
    row.session.Some? ==> row.harness == Some(row.session.value.maker)
  }

  /** The finalizer stores the session that the run reported. */
  predicate Stores(row: Row, o: Outcome) {
    row.status == RUNNING && ErrorOf(o).Some? && !FreshStart(ErrorOf(o).value) && o.session.Some?
  }

  /** A run writes a session only to a row of its own harness, and a harness only to a row whose
      session, if it has one, is of that harness. No statement of the code asks for this. */
  predicate Fits(s: History, e: Event) {
    Able(s, e) ==>
      match e
      case Save(i, _) => s.row.harness == Some(s.runs[i].phase.runtime.harness)
      case Finalize(i, o) => Stores(s.row, o) ==> s.row.harness == Some(o.session.value.maker)
      case Resolve(i, registry, answer) =>
        var rt := Resolved(s.runs[i], registry, answer);
        rt.Some? && s.runs[i].provider.None? && s.row.session.Some? ==> rt.value.harness == s.row.session.value.maker
      case _ => true
  }

  predicate AllFit(s: History, es: seq<Event>)
    decreases |es|
  {
    es == [] || (AllFit(s, es[..|es| - 1]) && Fits(Exec(s, es[..|es| - 1]), es[|es| - 1]))
  }

  predicate AlwaysHomely(s: History, es: seq<Event>)
    decreases |es|
  {
    Homely(Exec(s, es).row) && (es == [] || AlwaysHomely(s, es[..|es| - 1]))
  }

  /** One step from a row with its own session: the next row has its own if and only if the write
      fits. */
  lemma StepHomely(s: History, e: Event)
    requires Homely(s.row)
    ensures Homely(Step(s, e).row) <==> Fits(s, e)
  {
  }

  /** The stored session is of the row's harness at every moment if and only if every write fits. */
  lemma {:induction false} HomelyExactly(s: History, es: seq<Event>)
    requires Homely(s.row)
    ensures AlwaysHomely(s, es) <==> AllFit(s, es)
    ensures AllFit(s, es) ==> Homely(Exec(s, es).row)
    decreases |es|
  {
    if es != [] {
      var front := es[..|es| - 1];
      HomelyExactly(s, front);
      if AllFit(s, front) { StepHomely(Exec(s, front), es[|es| - 1]); }
    }
  }

  /** What any run holds, stale or not: a session of the harness it was claimed with or runs. */
  ghost predicate OwnSession(run: Run) {
    (run.session.Some? ==> run.harness == Some(run.session.value.maker)) &&
    (run.phase.Started? ==> run.harness == Some(run.phase.runtime.harness))
  }

  ghost predicate OwnSessions(s: History) {
    forall i :: 0 <= i < |s.runs| ==> OwnSession(s.runs[i])
  }

  lemma StepOwnSessions(s: History, e: Event)
    requires OwnSessions(s) && Homely(s.row)
    ensures OwnSessions(Step(s, e))
  {
    if e.Resolve? && Able(s, e) { assert OwnSession(s.runs[e.run]); }
    if e.Save? && Able(s, e) { assert OwnSession(s.runs[e.run]); }
    if e.Finalize? && Able(s, e) { assert OwnSession(s.runs[e.run]); }
  }

  lemma {:induction false} ExecOwnSessions(s: History, es: seq<Event>)
    requires OwnSessions(s) && Homely(s.row) && AllFit(s, es)
    ensures OwnSessions(Exec(s, es))
    decreases |es|
  {
    if es != [] {
      var front := es[..|es| - 1];
      ExecOwnSessions(s, front);
      HomelyExactly(s, front);
      StepOwnSessions(Exec(s, front), es[|es| - 1]);
    }
  }

  /** No run, stale ones included, resumes a session that another harness made. */
  lemma NoForeignResume(most: nat, harness: Option<Harness>, model: Option<nat>, es: seq<Event>, i: nat,
                        pidAlive: bool, canResume: bool, sessionPresent: bool)
    requires AllFit(Start(most, harness, model), es)
    requires var s := Exec(Start(most, harness, model), es);
      i < |s.runs| && s.runs[i].phase.Started? && ShouldResume(s.runs[i], pidAlive, canResume, sessionPresent)
    ensures var run := Exec(Start(most, harness, model), es).runs[i];
      run.session.value.maker == run.phase.runtime.harness
  {
    ExecOwnSessions(Start(most, harness, model), es);
    assert OwnSession(Exec(Start(most, harness, model), es).runs[i]);
  }

  /** Nor does a run that continues another job's session. With no job to continue it asks the
      deprecated resolver, unless the claim detached it or wants a fresh session. */
  lemma NoForeignLine(most: nat, harness: Option<Harness>, model: Option<nat>, es: seq<Event>, run: Run, own: Harness,
                      apart: bool, seam: Option<Session>)
    requires AllFit(Start(most, harness, model), es)
    ensures var session := LineSession(run, Some(Exec(Start(most, harness, model), es).row), own, apart, seam);
      session.Some? ==> session.value.maker == own
    ensures LineSession(run, None, own, apart, seam) == if apart then None else seam
  {
    HomelyExactly(Start(most, harness, model), es);
  }

  // ----- ownership ------------------------------------------------------------------------------------

  /** A run commits its runtime only while it is the last one claimed of a job underway. */
  predicate OwnResolve(s: History, e: Event) {
    e.Resolve? ==> Latest(s, e.run) && Underway(s.row.status)
  }

  predicate OwnResolves(s: History, es: seq<Event>)
    decreases |es|
  {
    es == [] || (OwnResolves(s, es[..|es| - 1]) && OwnResolve(Exec(s, es[..|es| - 1]), es[|es| - 1]))
  }

  ghost predicate Mirrors(run: Run, row: Row) {
    run.harness == row.harness && run.provider == row.provider && run.model == row.model &&
    (run.phase.Started? ==> RuntimeOf(row) == Some(run.phase.runtime))
  }

  ghost predicate Sticks(s: History) {
    (s.row.provider.Some? ==> s.row.harness.Some?) &&
    (Underway(s.row.status) ==> s.runs != [] && Mirrors(s.runs[|s.runs| - 1], s.row)) &&
    (s.row.provider.None? ==> s.ran == [])
  }

  lemma StepSticks(s: History, e: Event)
    requires Sticks(s) && OwnResolve(s, e)
    ensures Sticks(Step(s, e)) && ResolveFits(s, e)
  {
  }

  /** Where runs commit only while the job is theirs, each runtime fits. */
  lemma {:induction false} OwnResolvesFit(s: History, es: seq<Event>)
    requires Sticks(s) && OwnResolves(s, es)
    ensures Sticks(Exec(s, es)) && AllResolvesFit(s, es)
    decreases |es|
  {
    if es != [] {
      OwnResolvesFit(s, es[..|es| - 1]);
      StepSticks(Exec(s, es[..|es| - 1]), es[|es| - 1]);
    }
  }

  /** A run commits its runtime, saves its session, and reports one at its end, only while the
      job is its own. A late finalizer that reports no session is no breach. */
  predicate Owned(s: History, e: Event) {
    OwnResolve(s, e) &&
    (e.Save? ==> Latest(s, e.run) && Underway(s.row.status)) &&
    (e.Finalize? && e.outcome.session.Some? && s.row.status == RUNNING ==> Latest(s, e.run))
  }

  predicate AllOwned(s: History, es: seq<Event>)
    decreases |es|
  {
    es == [] || (AllOwned(s, es[..|es| - 1]) && Owned(Exec(s, es[..|es| - 1]), es[|es| - 1]))
  }

  lemma OwnedFits(s: History, e: Event)
    requires Sticks(s) && Homely(s.row) && Owned(s, e)
    ensures Fits(s, e)
  {
  }

  lemma {:induction false} AllOwnedResolves(s: History, es: seq<Event>)
    requires AllOwned(s, es)
    ensures OwnResolves(s, es)
    decreases |es|
  {
    if es != [] { AllOwnedResolves(s, es[..|es| - 1]); }
  }

  /** Where runs keep to their own job, every write fits, of a session and of a runtime. */
  lemma {:induction false} OwnershipFits(s: History, es: seq<Event>)
    requires Sticks(s) && Homely(s.row) && AllOwned(s, es)
    ensures AllFit(s, es) && AllResolvesFit(s, es)
    decreases |es|
  {
    AllOwnedResolves(s, es);
    OwnResolvesFit(s, es);
    if es != [] {
      var front := es[..|es| - 1];
      OwnershipFits(s, front);
      AllOwnedResolves(s, front);
      OwnResolvesFit(s, front);
      HomelyExactly(s, front);
      OwnedFits(Exec(s, front), es[|es| - 1]);
    }
  }

  /** Ownership is more than it takes: a run that was recovered before it had a process, and that
      is answered while the job waits in the queue, commits a runtime that fits. */
  lemma LateCommitFits(rt: Runtime)
    requires rt.harness == 1
    ensures var es := OverdueEvents() + [Resolve(0, {1}, Some(rt))];
      AllResolvesFit(Start(3, None, None), es) && !OwnResolves(Start(3, None, None), es)
  {
    OverdueRun(3);
    FitSnoc(Start(3, None, None), OverdueEvents(), Resolve(0, {1}, Some(rt)));
  }

  /** A run is overdue before it has a process, and the job is recovered. */
  function OverdueEvents(): seq<Event> {
    [Claim(false), Recover(NoPid(true, true))]
  }

  lemma OverdueRun(most: nat)
    requires most >= 2
    ensures var s := Exec(Start(most, None, None), OverdueEvents());
      && s.row == Row(TODO, 1, most, None, None, None, None) && s.ran == []
      && s.runs == [Run(1, None, None, None, None, Claimed)]
    ensures AllResolvesFit(Start(most, None, None), OverdueEvents())
  {
    var start, claim, recover := Start(most, None, None), Claim(false), Recover(NoPid(true, true));
    TwoEvents(start, [], claim, recover);
    FitSnoc(start, [], claim);
    FitSnoc(start, [claim], recover);
    assert [] + [claim] == [claim] && [claim] + [recover] == OverdueEvents() == [] + [claim, recover];
    var s1 := Step(start, claim);
    assert s1.row == Row(RUNNING, 1, most, None, None, None, None) && s1.runs == [RunOf(s1.row)];
  }

  lemma FitSnoc(s: History, es: seq<Event>, e: Event)
    ensures AllResolvesFit(s, es + [e]) <==> AllResolvesFit(s, es) && ResolveFits(Exec(s, es), e)
    ensures OwnResolves(s, es + [e]) <==> OwnResolves(s, es) && OwnResolve(Exec(s, es), e)
  {
    assert (es + [e])[..|es|] == es;
  }

  /** A late save breaks it: the process of run 0 dies, the job is recovered and edited to another
      harness, and the session that run 0 saves now is foreign to it. */
  lemma StaleSaveIsForeign(rt: Runtime, id: nat)
    requires rt.harness == 1
    ensures var s := Exec(Start(3, None, None),
        RecoveredEvents({1, 2}, rt) + [Edit(Some(2), None, false), Save(0, id)]);
      s.row.harness == Some(2) && s.row.session == Some(Session(id, 1))
  {
    var es, edit := RecoveredEvents({1, 2}, rt), Edit(Some(2), None, false);
    RecoveredRun(3, {1, 2}, rt);
    var s := Exec(Start(3, None, None), es);
    TwoEvents(Start(3, None, None), es, edit, Save(0, id));
    LateSave(rt, id, s, Step(s, edit), Step(Step(s, edit), Save(0, id)));
  }

  lemma LateSave(rt: Runtime, id: nat, s3: History, s4: History, s5: History)
    requires s3.row == Row(TODO, 1, 3, Some(1), Some(rt.provider), rt.model, None) && rt.harness == 1
    requires s3.runs == [Run(1, Some(1), Some(rt.provider), rt.model, None, Started(rt))]
    requires s4 == Step(s3, Edit(Some(2), None, false)) && s5 == Step(s4, Save(0, id))
    ensures s5.row.harness == Some(2) && s5.row.session == Some(Session(id, 1))
  {
    assert s4.row.harness == Some(2) && s4.runs == s3.runs;
  }

  /** And so does a late commit: run 0 is overdue before it has a process, run 1 commits a runtime
      and saves its session, and the answer that run 0 gets now replaces the runtime under it. */
  lemma StaleResolveUnsticks(a: Runtime, b: Runtime, id: nat)
    requires a.harness == 1 && b.harness == 2
    ensures var s := Exec(Start(3, None, None), OverdueEvents() +
        [Claim(false), Resolve(1, {1, 2}, Some(a)), Save(1, id)] + [Resolve(0, {1, 2}, Some(b))]);
      s.ran == [a, b] && s.row.harness == Some(2) && s.row.session == Some(Session(id, 1))
  {
    var start, resolve := Start(3, None, None), Resolve(1, {1, 2}, Some(a));
    OverdueRun(3);
    var s := Exec(start, OverdueEvents());
    ThreeEvents(start, OverdueEvents(), Claim(false), resolve, Save(1, id));
    SecondRun(a, id, s, Step(s, Claim(false)), Step(Step(s, Claim(false)), resolve),
              Step(Step(Step(s, Claim(false)), resolve), Save(1, id)));
    ExecSnoc(start, OverdueEvents() + [Claim(false), resolve, Save(1, id)], Resolve(0, {1, 2}, Some(b)));
  }

  lemma SecondRun(a: Runtime, id: nat, s: History, s1: History, s2: History, s3: History)
    requires s.row == Row(TODO, 1, 3, None, None, None, None) && s.ran == [] && a.harness == 1
    requires s.runs == [Run(1, None, None, None, None, Claimed)]
    requires s1 == Step(s, Claim(false)) && s2 == Step(s1, Resolve(1, {1, 2}, Some(a))) && s3 == Step(s2, Save(1, id))
    ensures s3.row.session == Some(Session(id, 1)) && s3.ran == [a] && s3.runs[0] == s.runs[0] && |s3.runs| == 2
  {
    assert s1.row == s.row.(status := RUNNING, attempt := 2) && s1.runs == s.runs + [RunOf(s1.row)];
    assert s2.row == Committed(s1.row, a) && s2.ran == [a] && s2.runs == [s.runs[0], Begun(s1.runs[1], a)];
  }
}
