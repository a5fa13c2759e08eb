/** What one transaction on a job row comes to, told by the columns and by what happened. */
module JobCalls {
  import opened Wrappers
  import opened JobModels
  import opened RetryPolicy
  import opened JobLifecycle

  // ----- the end of a run -------------------------------------------------------------------------

  predicate WentWell(o: Outcome) {
    o.Succeeded? && o.vetoed.None?
  }

  /** What an observer said: against an apparent success, or in the failure that it raised. */
  function Said(o: Outcome): Option<Verdict> {
    match o
    case Succeeded(v, _) => v
    case Failed(f, _, _, _) => if f.class_ == Some(JobVerificationFailed) then f.verdict else None
  }

  predicate SaidBlocked(o: Outcome) {
    Said(o).Some? && Said(o).value.blocked
  }

  predicate SaidFresh(o: Outcome) {
    Said(o).Some? && Said(o).value.freshStart
  }

  /** The job is older than a wait for credentials may last. */
  predicate GaveUpWaiting(o: Outcome) {
    o.Failed? && o.failure.class_ == Some(CredentialsUnavailableError) && o.tooOld
  }

  /** The whole credential pool comes back at a known time, and the job may wait for it. */
  predicate AwaitsPool(o: Outcome) {
    o.Failed? && o.poolRetry && !GaveUpWaiting(o)
  }

  /** Another attempt may go better. */
  predicate WorthRetrying(o: Outcome) {
    match o
    case Succeeded(v, _) => v.Some? && v.value.retryable && !v.value.blocked
    case Failed(f, _, _, _) => Hopeful(f)
  }

  /** Where a run leaves the job it still owns: succeeded exactly if it did and nobody objected,
      failed exactly if an observer blocked it, back in the queue exactly if it waits for the
      pool or is worth another of the attempts it has, and dead in all other cases. */
  lemma FinalStatus(row: Row, run: Run, o: Outcome)
    requires row.status == RUNNING
    ensures var t := Finalized(row, run, o);
      && (t.status == SUCCESS <==> WentWell(o))
      && (t.status == FAILED <==> SaidBlocked(o) && !AwaitsPool(o))
      && (t.status == TODO <==>
           AwaitsPool(o) || (!WentWell(o) && WorthRetrying(o) && run.attempt < row.most && !GaveUpWaiting(o)))
      && t.status in {SUCCESS, FAILED, TODO, DEAD}
  {
    if !WentWell(o) { RetriesExactly(ErrorOf(o).value, run.attempt, row.most); }
  }

  /** And what else it leaves: a wait for the pool costs no attempt, a success changes no
      session, a fresh start leaves none, and else the run's own session stands if it has one. */
  lemma FinalColumns(row: Row, run: Run, o: Outcome)
    requires row.status == RUNNING
    ensures var t := Finalized(row, run, o);
      && t == row.(status := t.status, attempt := t.attempt, session := t.session)
      && t.attempt == (if AwaitsPool(o) && row.attempt > 0 then row.attempt - 1 else row.attempt)
      && t.session == (if WentWell(o) then row.session else if SaidFresh(o) then None
                       else if o.session.Some? then o.session else row.session)
  {
  }

  /** A row that is not running is not the run's to end. */
  lemma OnlyRunningEnds(row: Row, run: Run, o: Outcome)
    requires row.status != RUNNING
    ensures Finalized(row, run, o) == row
  {
  }

  // ----- the claim and the runtime ----------------------------------------------------------------

  /** A claim: the row runs, one attempt on, and its run gets what the row holds, with the
      session unless the job was moved to a thread of its own. */
  lemma ClaimMeans(row: Row, moved: bool)
    requires row.status == TODO && row.attempt < 255
    ensures Claimable(row)
    ensures var t := Taken(row, moved); var run := RunOf(t);
      && t == row.(status := RUNNING, attempt := row.attempt + 1, session := if moved then None else row.session)
      && run.attempt == row.attempt + 1 && run.phase == Claimed
      && run.session == (if moved then None else row.session)
      && run.harness == row.harness && run.provider == row.provider && run.model == row.model
  {
  }

  /** A retry that was not moved resumes the session its row kept; a first attempt never does. */
  lemma RetryResumes(row: Row, moved: bool, pidAlive: bool, canResume: bool, present: bool)
    requires row.status == TODO && row.attempt < 255
    ensures ShouldResume(RunOf(Taken(row, moved)), pidAlive, canResume, present) <==>
              row.attempt > 0 && row.session.Some? && !moved && !pidAlive && canResume && present
  {
  }

  /** A run whose row has a committed runtime gets that one, whatever would be resolved now;
      else the answer decides; and a harness that is not registered is an error in any case. */
  lemma ResolveMeans(run: Run, registry: set<Harness>, answer: Option<Runtime>)
    requires run.provider.Some? ==> run.harness.Some?
    ensures var rt := Resolved(run, registry, answer);
      && (run.harness.Some? && run.harness.value !in registry ==> rt == None)
      && (run.harness.Some? && run.harness.value in registry && run.provider.Some? ==>
           rt.Some? && Some(rt.value.harness) == run.harness && Some(rt.value.provider) == run.provider &&
           rt.value.model == run.model)
      && (run.provider.None? && (run.harness.None? || run.harness.value in registry) ==> rt == answer)
  {
  }

  /** The line hands on the session of the job continued, if one harness made both, to a run
      that has none to resume itself. */
  lemma LineMeans(run: Run, target: Option<Row>, harness: Harness, apart: bool, seam: Option<Session>)
    ensures LineSession(run, target, harness, apart, seam) ==
              match target
              case Some(t) =>
                if (run.attempt <= 1 || run.session.None?) && t.harness == Some(harness) then t.session else None
              case None => if apart then None else seam
  {
  }

  // ----- recovery and the operator ----------------------------------------------------------------

  /** Recovery: a running job whose process is dead, or has no owner left, or never showed one
      in time, goes back to the queue exactly while attempts are left, else it is dead. */
  lemma RecoverMeans(row: Row, t: Trace)
    ensures var r := Recovered(row, t);
            var gone := row.status == RUNNING && (t == Owner(Dead) || t == PidAlone || t == NoPid(true, true));
      && r == row.(status := r.status)
      && (r.status == TODO <==> row.status == TODO || (gone && row.attempt < row.most))
      && (r.status == DEAD <==> row.status == DEAD || (gone && row.attempt >= row.most))
      && (!gone ==> r == row)
  {
  }

  /** A pause takes a running job only, and nothing but its status changes. */
  lemma PauseMeans(row: Row)
    ensures Pausing(row).Ok? <==> row.status == RUNNING
    ensures Pausing(row).Ok? ==> Pausing(row).value == row.(status := PAUSED)
    ensures Pausing(row).Err? ==> Pausing(row).error == WrongStatus(row.status)
  {
  }

  /** A resume takes a paused job with a session whose process is known dead, spends no attempt
      and keeps the session; the errors are told in this order. */
  lemma ResumeMeans(row: Row, life: Life)
    ensures var r := Resuming(row, life);
      && (r.Ok? <==> row.status == PAUSED && row.session.Some? && life == Dead)
      && (r.Ok? ==> r.value == row.(status := TODO))
      && (row.status != PAUSED ==> r == Err(WrongStatus(row.status)))
      && (row.status == PAUSED && row.session.None? ==> r == Err(NoSession))
      && (row.status == PAUSED && row.session.Some? && life != Dead ==> r == Err(NotDead))
  {
  }

  /** An edit takes a queued job only. It uncommits the runtime, keeps what it is not given, and
      the session stays exactly if the harness does; clearing clears all of them. */
  lemma EditMeans(row: Row, harness: Option<Harness>, model: Option<nat>, clear: bool)
    ensures var r := Editing(row, harness, model, clear);
      && (r.Ok? <==> row.status == TODO) && (r.Err? ==> r.error == WrongStatus(row.status))
      && (r.Ok? ==>
           var t := r.value;
           && t == row.(harness := t.harness, model := t.model, provider := None, session := t.session)
           && (clear ==> t.harness.None? && t.model.None? && t.session.None?)
           && (!clear ==>
                && (harness.Some? ==> t.harness == harness) && (harness.None? ==> t.harness == row.harness)
                && (model.Some? ==> t.model == model) && (model.None? ==> t.model == row.model)
                && t.session == if harness.None? || harness == row.harness then row.session else None))
  {
  }
}
