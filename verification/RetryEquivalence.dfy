/** The two retry machines side by side. The job queue counts a try when it hands a job out and tests
    `attempts < max`; the operation queue counts it when the try fails and tests `retry >= max`. */
module RetryEquivalence {
  import opened Option
  import J = Jobs
  import O = OfflineQueue

  /** Same place in the life cycle, same limit, and counters one apart exactly while a try is under way. */
  ghost predicate Related(job: J.Job, op: O.Operation) {
    && job.maxRetries == op.maxRetries
    && match op.status
         case Pending => job.status == J.Pending && job.attempts == op.retryCount
         case Processing => job.status == J.Running && job.attempts == op.retryCount + 1
         case Completed => job.status == J.Completed && job.attempts == op.retryCount + 1
         case Failed => job.status == J.Failed && job.attempts == op.retryCount
         case Conflict => false
  }

  /** One try of each machine: hand out, then report. */
  function JobTry(job: J.Job, succeeds: bool, error: string): J.Job {
    J.AfterRun(job, if succeeds then Ok(()) else Err(error))
  }

  function OpTry(op: O.Operation, succeeds: bool, error: string): O.Operation {
    if succeeds then O.AfterComplete(O.Dispatched(op)) else O.AfterFail(O.Dispatched(op), error)
  }

  /** The item after a sequence of verdicts; it is handed out only while pending. */
  function JobRun(job: J.Job, verdicts: seq<bool>, error: string): J.Job
    decreases |verdicts|
  {
    if |verdicts| == 0 || job.status != J.Pending then job
    else JobRun(JobTry(job, verdicts[0], error), verdicts[1..], error)
  }

  function OpRun(op: O.Operation, verdicts: seq<bool>, error: string): O.Operation
    decreases |verdicts|
  {
    if |verdicts| == 0 || op.status != O.Pending then op
    else OpRun(OpTry(op, verdicts[0], error), verdicts[1..], error)
  }

  function JobTries(job: J.Job, verdicts: seq<bool>, error: string): nat
    decreases |verdicts|
  {
    if |verdicts| == 0 || job.status != J.Pending then 0
    else 1 + JobTries(JobTry(job, verdicts[0], error), verdicts[1..], error)
  }

  function OpTries(op: O.Operation, verdicts: seq<bool>, error: string): nat
    decreases |verdicts|
  {
    if |verdicts| == 0 || op.status != O.Pending then 0
    else 1 + OpTries(OpTry(op, verdicts[0], error), verdicts[1..], error)
  }

  /** Handing out and reporting keep the machines related, at every half step and for every limit. */
  lemma HalfSteps(job: J.Job, op: O.Operation, error: string)
    requires Related(job, op)
    ensures op.status == O.Pending ==> Related(J.Started(job), O.Dispatched(op))
    ensures op.status == O.Processing ==> Related(J.Done(job), O.AfterComplete(op))
    ensures op.status == O.Processing ==> Related(J.AfterFailure(job, error), O.AfterFail(op, error))
  {
  }

  /** For every sequence of verdicts the machines agree step by step and make the same number of tries. */
  lemma {:induction false} Bisimulation(job: J.Job, op: O.Operation, verdicts: seq<bool>, error: string)
    requires Related(job, op)
    ensures Related(JobRun(job, verdicts, error), OpRun(op, verdicts, error))
    ensures JobTries(job, verdicts, error) == OpTries(op, verdicts, error)
    decreases |verdicts|
  {
    if |verdicts| == 0 || op.status != O.Pending {
    } else {
      HalfSteps(job, op, error);
      HalfSteps(J.Started(job), O.Dispatched(op), error);
      Bisimulation(JobTry(job, verdicts[0], error), OpTry(op, verdicts[0], error), verdicts[1..], error);
    }
  }

  lemma {:induction false} OpAlwaysFailing(op: O.Operation, verdicts: seq<bool>, error: string)
    requires op.status == O.Pending && op.retryCount < O.Limit(op)
    requires |verdicts| >= O.Limit(op) - op.retryCount
    requires forall i :: 0 <= i < |verdicts| ==> !verdicts[i]
    ensures OpTries(op, verdicts, error) == O.Limit(op) - op.retryCount
    ensures OpRun(op, verdicts, error).status == O.Failed
    decreases |verdicts|
  {
    var next := OpTry(op, verdicts[0], error);
    if next.status != O.Pending {
    } else {
      OpAlwaysFailing(next, verdicts[1..], error);
    }
  }

  /** An item that always fails is tried exactly `max_retries` times by either machine, and once when the
      limit is zero; then both give it up. */
  lemma AlwaysFailing(job: J.Job, op: O.Operation, verdicts: seq<bool>, error: string)
    requires Related(job, op) && op.status == O.Pending && op.retryCount == 0
    requires |verdicts| >= O.Limit(op) && forall i :: 0 <= i < |verdicts| ==> !verdicts[i]
    ensures JobTries(job, verdicts, error) == OpTries(op, verdicts, error) == O.Limit(op)
    ensures JobRun(job, verdicts, error).status == J.Failed && OpRun(op, verdicts, error).status == O.Failed
  {
    Bisimulation(job, op, verdicts, error);
    OpAlwaysFailing(op, verdicts, error);
  }

  /** A crash breaks the correspondence: recovery puts the job back without taking the try back, and the
      operation queue has no recovery at all. */
  lemma RecoveryBreaksIt(job: J.Job, op: O.Operation)
    requires Related(job, op) && op.status == O.Processing
    ensures !Related(J.Resumed(job), op) && !Related(J.Resumed(job), op.(status := O.Pending))
  {
  }
}
