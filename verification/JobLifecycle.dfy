/** One job row and its transactions: `consumer.py` and `job_store.py`. */
module JobLifecycle {
  import opened Wrappers
  import opened JobModels
  import opened RetryPolicy

  type Harness = nat

  datatype Runtime = Runtime(harness: Harness, provider: nat, model: Option<nat>)

  /** A session and the harness that made it. */
  datatype Session = Session(id: nat, maker: Harness)

  /** `provider` marks a committed runtime: it is derived, never given by a caller. */
  datatype Row = Row(
    status: Status, attempt: nat, most: nat,
    harness: Option<Harness>, provider: Option<nat>, model: Option<nat>, session: Option<Session>)

  /** The column `attempt` is one unsigned byte. */
  const ATTEMPT_LIMIT := 255

  datatype Phase = Claimed | Started(runtime: Runtime) | Over

  /** What a claim hands to its worker: the row as it was then, and how far the worker is. */
  datatype Run = Run(
    attempt: nat, harness: Option<Harness>, provider: Option<nat>, model: Option<nat>,
    session: Option<Session>, phase: Phase)

  /** How a run ended. `poolRetry`: the whole credential pool recovers at a known time;
      `tooOld`: the job is older than a wait for credentials may last. */
  datatype Outcome =
    | Succeeded(vetoed: Option<Verdict>, session: Option<Session>)
    | Failed(failure: Failure, poolRetry: bool, tooOld: bool, session: Option<Session>)

  datatype Refusal = WrongStatus(status: Status) | NoSession | NotDead

  function Published(most: nat, harness: Option<Harness>, model: Option<nat>): Row {
    Row(TODO, 0, most, harness, None, model, None)
  }

  // ----- the claim ------------------------------------------------------------------------------

  /** `place_claim` moved the job to a thread of its own: its session stays behind. */
  function Placed(row: Row, moved: bool): Row {
    if moved then row.(session := None) else row
  }

  predicate Claimable(row: Row) {
    row.status == TODO && row.attempt < ATTEMPT_LIMIT
  }

  function Taken(row: Row, moved: bool): Row
    requires Claimable(row)
  {
    Placed(row, moved).(status := RUNNING, attempt := row.attempt + 1)
  }

  function RunOf(row: Row): Run {
    Run(row.attempt, row.harness, row.provider, row.model, row.session, Claimed)
  }

  // ----- the run ----------------------------------------------------------------------------------

  /** `_resolve_run_runtime` and the lookup of its harness: the runtime of this run, or the
      error. `answer` is what `resolve_job_runtime` gives when it is asked. A provider without a
      harness, which no row comes to have, fails in the lookup. */
  function Resolved(run: Run, registry: set<Harness>, answer: Option<Runtime>): Option<Runtime> {
    if run.harness.Some? && run.harness.value !in registry then None
    else if run.provider.Some? then
      if run.harness.Some? then Some(Runtime(run.harness.value, run.provider.value, run.model)) else None
    else answer
  }

  /** A pinned harness wins over the view's, and the one chosen is registered. */
  predicate Answers(run: Run, registry: set<Harness>, answer: Option<Runtime>) {
    answer.Some? ==>
      answer.value.harness in registry && (run.harness.Some? ==> answer.value.harness == run.harness.value)
  }

  function Committed(row: Row, rt: Runtime): Row {
    row.(harness := Some(rt.harness), provider := Some(rt.provider), model := rt.model)
  }

  function Begun(run: Run, rt: Runtime): Run {
    run.(harness := Some(rt.harness), provider := Some(rt.provider), model := rt.model, phase := Started(rt))
  }

  /** `_should_resume`. */
  predicate ShouldResume(run: Run, pidAlive: bool, canResume: bool, sessionPresent: bool) {
    run.attempt > 1 && run.session.Some? && !pidAlive && canResume && sessionPresent
  }

  /** `_resume_session`: the session of the job that this one continues. With none it is what
      the deprecated seam answers; `apart`: the claim detached the job or asked for a fresh one. */
  function LineSession(run: Run, target: Option<Row>, harness: Harness, apart: bool, seam: Option<Session>)
    : Option<Session>
  {
    if target.None? then if apart then None else seam
    else if run.attempt > 1 && run.session.Some? then None
    else if target.value.harness != Some(harness) then None
    else target.value.session
  }

  // ----- the end of a run -------------------------------------------------------------------------

  /** The error that the finalizer sees: a veto turns a success into one. */
  function ErrorOf(o: Outcome): Option<Failure> {
    match o
    case Failed(f, _, _, _) => Some(f)
    case Succeeded(v, _) =>
      if v.Some? then Some(Failure(Some(JobVerificationFailed), v, false)) else None
  }

  function VerdictOf(f: Failure): Option<Verdict> {
    if f.class_ == Some(JobVerificationFailed) then f.verdict else None
  }

  predicate FreshStart(f: Failure) {
    VerdictOf(f).Some? && VerdictOf(f).value.freshStart
  }

  predicate Blocked(f: Failure) {
    VerdictOf(f).Some? && VerdictOf(f).value.blocked
  }

  predicate WaitExpired(o: Outcome) {
    o.Failed? && o.failure.class_ == Some(CredentialsUnavailableError) && o.tooOld
  }

  predicate PoolWaits(o: Outcome) {
    o.Failed? && o.poolRetry && !WaitExpired(o)
  }

  /** Where a failed run of this attempt leaves its job. */
  function NextStatus(o: Outcome, f: Failure, attempt: nat, most: nat): Status {
    if PoolWaits(o) then TODO
    else if Evaluate(f, attempt, most).retry && !WaitExpired(o) then TODO
    else if Blocked(f) then FAILED
    else DEAD
  }

  function Coalesce<T>(a: Option<T>, b: Option<T>): Option<T> {
    if a.Some? then a else b
  }

  /** `GREATEST(attempt - 1, 0)`. */
  function Refund(attempt: nat): nat {
    if attempt == 0 then 0 else attempt - 1
  }

  /** `_finalize_job`, on the row: it checks the status and nothing else. */
  function Finalized(row: Row, run: Run, o: Outcome): Row {
    if row.status != RUNNING then row
    else
      var error := ErrorOf(o);
      if error.None? then row.(status := SUCCESS)
      else
        var f := error.value;
        row.(status := NextStatus(o, f, run.attempt, row.most),
             attempt := if PoolWaits(o) then Refund(row.attempt) else row.attempt,
             session := if FreshStart(f) then None else Coalesce(o.session, row.session))
  }

  /** The job goes back to the queue and the attempt is spent. */
  predicate Retries(row: Row, run: Run, o: Outcome) {
    row.status == RUNNING && ErrorOf(o).Some? && !PoolWaits(o) &&
    NextStatus(o, ErrorOf(o).value, run.attempt, row.most) == TODO
  }

  predicate Refunds(row: Row, o: Outcome) {
    row.status == RUNNING && PoolWaits(o)
  }

  // ----- stale recovery ---------------------------------------------------------------------------

  datatype Life = Alive | Unknown | Dead

  /** What the row says of the process of its run. */
  datatype Trace = Owner(life: Life) | PidAlone | NoPid(started: bool, overdue: bool)

  predicate RunEnded(t: Trace) {
    match t
    case Owner(life) => life == Dead
    case PidAlone => true
    case NoPid(started, overdue) => started && overdue
  }

  function Recovered(row: Row, t: Trace): Row {
    if row.status != RUNNING || !RunEnded(t) then row
    else if row.attempt < row.most then row.(status := TODO)
    else row.(status := DEAD)
  }

  // ----- the operator -----------------------------------------------------------------------------

  function Pausing(row: Row): Result<Row, Refusal> {
    if row.status == RUNNING then Ok(row.(status := PAUSED)) else Err(WrongStatus(row.status))
  }

  function Resuming(row: Row, life: Life): Result<Row, Refusal> {
    if row.status != PAUSED then Err(WrongStatus(row.status))
    else if row.session.None? then Err(NoSession)
    else if life != Dead then Err(NotDead)
    else Ok(row.(status := TODO))
  }

  function Editing(row: Row, harness: Option<Harness>, model: Option<nat>, clear: bool): Result<Row, Refusal> {
    if row.status != TODO then Err(WrongStatus(row.status))
    else
      var newHarness := if clear then None else Coalesce(harness, row.harness);
      var newModel := if clear then None else Coalesce(model, row.model);
      Ok(row.(harness := newHarness, model := newModel, provider := None,
              session := if clear || newHarness != row.harness then None else row.session))
  }

  function After(row: Row, r: Result<Row, Refusal>): Row {
    if r.Ok? then r.value else row
  }

  // ----- the row ------------------------------------------------------------------------------------

  class JobStore {
    var row: Row

    constructor (most: nat, harness: Option<Harness>, model: Option<nat>)
      ensures row == Published(most, harness, model)
    {
      row := Row(TODO, 0, most, harness, None, model, None);
    }

    /** `_try_dequeue` when the claim is deferred. */
    method DeferClaim(moved: bool)
      requires row.status == TODO
      modifies this
      ensures row == Placed(old(row), moved)
    {
      if moved { row := row.(session := None); }
    }

    /** `_try_dequeue` when it is not. A claim the column cannot count is rolled back. */
    method Claim(moved: bool) returns (run: Option<Run>)
      modifies this
      ensures Claimable(old(row)) ==> row == Taken(old(row), moved) && run == Some(RunOf(row))
      ensures !Claimable(old(row)) ==> row == old(row) && run == None
    {
      if row.status != TODO || row.attempt >= ATTEMPT_LIMIT { return None; }
      if moved { row := row.(session := None); }
      row := row.(status := RUNNING, attempt := row.attempt + 1);
      run := Some(Run(row.attempt, row.harness, row.provider, row.model, row.session, Claimed));
    }

    /** `_resolve_run_runtime`. */
    method ResolveRuntime(run: Run, registry: set<Harness>, answer: Option<Runtime>)
      returns (rt: Option<Runtime>)
      modifies this
      ensures rt == Resolved(run, registry, answer)
      ensures row == if rt.Some? && run.provider.None? then Committed(old(row), rt.value) else old(row)
    {
      if run.harness.Some? && run.harness.value !in registry { return None; }
      if run.provider.Some? {
        return if run.harness.Some? then Some(Runtime(run.harness.value, run.provider.value, run.model)) else None;
      }
      if answer.None? { return None; }
      rt := answer;
      row := row.(harness := Some(rt.value.harness), provider := Some(rt.value.provider), model := rt.value.model);
    }

    /** `_save_session_id`: whatever the status. */
    method SaveSession(s: Session)
      modifies this
      ensures row == old(row).(session := Some(s))
    {
      row := row.(session := Some(s));
    }

    /** `_transition`. */
    method Transition(status: Status, session: Option<Session>, refund: bool)
      requires row.status == RUNNING
      modifies this
      ensures row == old(row).(status := status, session := Coalesce(session, old(row).session),
                               attempt := if refund then Refund(old(row).attempt) else old(row).attempt)
    {
      if refund { row := row.(attempt := if row.attempt - 1 > 0 then row.attempt - 1 else 0); }
      row := row.(status := status, session := if session.Some? then session else row.session);
    }

    /** `_finalize_job`. */
    method FinalizeJob(run: Run, o: Outcome)
      modifies this
      ensures row == Finalized(old(row), run, o)
    {
      if row.status != RUNNING { return; }
      var error := ErrorOf(o);
      if error.None? {
        row := row.(status := SUCCESS);
        return;
      }
      var f := error.value;
      var decision := Evaluate(f, run.attempt, row.most);
      var session := o.session;
      if FreshStart(f) {
        row := row.(session := None);
        session := None;
      }
      if PoolWaits(o) {
        Transition(TODO, session, true);
      } else if decision.retry && !WaitExpired(o) {
        Transition(TODO, session, false);
      } else if Blocked(f) {
        Transition(FAILED, session, false);
      } else {
        Transition(DEAD, session, false);
      }
    }

    /** `_recover_stale_jobs`, for this row. */
    method RecoverStale(t: Trace)
      modifies this
      ensures row == Recovered(old(row), t)
    {
      if row.status != RUNNING { return; }
      match t {
        case Owner(life) => if life != Dead { return; }
        case PidAlone =>
        case NoPid(started, overdue) => if !started || !overdue { return; }
      }
      var retry := row.attempt < row.most;
      Transition(if retry then TODO else DEAD, None, false);
    }

    /** `pause_job`. */
    method Pause() returns (r: Result<Row, Refusal>)
      modifies this
      ensures r == Pausing(old(row)) && row == After(old(row), r)
    {
      if row.status != RUNNING { return Err(WrongStatus(row.status)); }
      row := row.(status := PAUSED);
      r := Ok(row);
    }

    /** `resume_job`. */
    method Resume(life: Life) returns (r: Result<Row, Refusal>)
      modifies this
      ensures r == Resuming(old(row), life) && row == After(old(row), r)
    {
      if row.status != PAUSED { return Err(WrongStatus(row.status)); }
      if row.session.None? { return Err(NoSession); }
      if life != Dead { return Err(NotDead); }
      row := row.(status := TODO);
      r := Ok(row);
    }

    /** `set_job_runtime`. */
    method SetRuntime(harness: Option<Harness>, model: Option<nat>, clear: bool) returns (r: Result<Row, Refusal>)
      modifies this
      ensures r == Editing(old(row), harness, model, clear) && row == After(old(row), r)
    {
      if row.status != TODO { return Err(WrongStatus(row.status)); }
      var newHarness := if clear then None else if harness.Some? then harness else row.harness;
      var newModel := if clear then None else if model.Some? then model else row.model;
      var drop := clear || newHarness != row.harness;
      row := row.(harness := newHarness, model := newModel, provider := None,
                  session := if drop then None else row.session);
      r := Ok(row);
    }
  }
}
