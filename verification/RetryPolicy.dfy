/** `retry_policy.py`: whether a failed attempt is tried again, and after how long. */
module RetryPolicy {
  import opened Wrappers

  const BACKOFF_DELAYS: seq<nat> := [60, 300, 1800]

  datatype ErrorClass =
    | ValueError | PermissionError | FileNotFoundError | KeyError | InvalidJobRuntime | ModelConfigError
    | AuthenticationError | UsageLimitError | TransientAuthError
    | CredentialsUnavailableError | JobVerificationFailed | OtherError

  /** What an observer said against an apparent success. */
  datatype Verdict = Verdict(blocked: bool, retryable: bool, freshStart: bool)

  datatype Failure = Failure(class_: Option<ErrorClass>, verdict: Option<Verdict>, otherToken: bool)

  datatype Decision = Decision(retry: bool, delay: nat)

  predicate NonRetryable(c: ErrorClass) {
    c.ValueError? || c.PermissionError? || c.FileNotFoundError? || c.KeyError? || c.AuthenticationError? ||
    c.UsageLimitError? || c.TransientAuthError? || c.InvalidJobRuntime? || c.ModelConfigError?
  }

  predicate OfToken(c: ErrorClass) {
    c.AuthenticationError? || c.UsageLimitError? || c.TransientAuthError?
  }

  /** `BACKOFF_DELAYS[min(attempt - 1, 2)]`; the index -1 names the last. */
  function Delay(attempt: nat): nat {
    var i := if attempt - 1 < 2 then attempt - 1 else 2;
    if i < 0 then BACKOFF_DELAYS[|BACKOFF_DELAYS| + i] else BACKOFF_DELAYS[i]
  }

  function Bounded(attempt: nat, most: nat): Decision {
    if attempt >= most then Decision(false, 0) else Decision(true, Delay(attempt))
  }

  /** `evaluate`. */
  function Evaluate(f: Failure, attempt: nat, most: nat): Decision {
    if f.verdict.Some? then
      if f.verdict.value.blocked then Decision(false, 0)
      else if !f.verdict.value.retryable then Decision(false, 0)
      else Bounded(attempt, most)
    else if f.class_.Some? && OfToken(f.class_.value) && f.otherToken then Bounded(attempt, most)
    else if f.class_.Some? && NonRetryable(f.class_.value) then Decision(false, 0)
    else Bounded(attempt, most)
  }

  /** The world may be other next time: not if the job itself is wrong, with a bad token if there
      is another one, by an observer's word if it said so, and in all other cases. */
  predicate Hopeful(f: Failure) {
    match f.verdict
    case Some(v) => v.retryable && !v.blocked
    case None =>
      match f.class_
      case Some(ValueError) | Some(PermissionError) | Some(FileNotFoundError) | Some(KeyError)
         | Some(InvalidJobRuntime) | Some(ModelConfigError) => false
      case Some(AuthenticationError) | Some(UsageLimitError) | Some(TransientAuthError) => f.otherToken
      case _ => true
  }

  /** A job is tried again exactly when an attempt is left and the failure may pass; a counted
      attempt (1, 2, ...) then waits 1, 5 and from the third on 30 minutes, so a later one waits no
      less than an earlier. */
  lemma RetriesExactly(f: Failure, attempt: nat, most: nat)
    ensures Evaluate(f, attempt, most).retry <==> attempt < most && Hopeful(f)
    ensures !Evaluate(f, attempt, most).retry ==> Evaluate(f, attempt, most).delay == 0
    ensures Evaluate(f, attempt, most).retry && attempt >= 1 ==>
              Evaluate(f, attempt, most).delay == (if attempt == 1 then 60 else if attempt == 2 then 300 else 1800) &&
              forall g, later :: later >= attempt && Evaluate(g, later, most).retry ==>
                Evaluate(f, attempt, most).delay <= Evaluate(g, later, most).delay
  {
    assert BACKOFF_DELAYS[0] == 60 && BACKOFF_DELAYS[1] == 300 && BACKOFF_DELAYS[2] == 1800;
  }

  /** An attempt that was never counted would wait the longest: the index goes round. */
  lemma UncountedWaitsLongest()
    ensures Delay(0) == 1800 && Delay(1) == 60
  {
    assert BACKOFF_DELAYS[0] == 60 && BACKOFF_DELAYS[2] == 1800;
  }
}
