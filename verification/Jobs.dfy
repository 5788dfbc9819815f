/** The durable background job queue, its workers, and what whole runs of them guarantee. */
module Jobs {
  import opened Option

  datatype Status = Pending | Running | Completed | Failed | Cancelled

  datatype JobType = ContentExtraction | Embedding | ClipEmbedding | SyncJob

  datatype Job = Job(
    id: string,
    jobType: JobType,
    payload: string,
    status: Status,
    priority: int,
    attempts: nat,
    maxRetries: int,
    error: Option<string>,
    createdAt: int)

  /** Column default of `max_retries`; an enqueue does not bind the column. */
  const DEFAULT_MAX_RETRIES := 3

  predicate Terminal(job: Job) {
    job.status in {Completed, Failed, Cancelled}
  }

  function NewJob(id: string, jobType: JobType, payload: string, priority: int, now: int): Job {
    Job(id, jobType, payload, Pending, priority, 0, DEFAULT_MAX_RETRIES, None, now)
  }

  // ---- Row updates ----

  function Started(job: Job): Job {
    job.(status := Running, attempts := job.attempts + 1)
  }

  function Done(job: Job): Job {
    job.(status := Completed)
  }

  function AfterFailure(job: Job, error: string): Job {
    job.(status := if job.attempts < job.maxRetries then Pending else Failed, error := Some(error))
  }

  function Resumed(job: Job): Job {
    if job.status == Running then job.(status := Pending) else job
  }

  function ResumedAll(jobs: seq<Job>): (r: seq<Job>)
    ensures |r| == |jobs|
    ensures forall i :: 0 <= i < |jobs| ==> r[i] == Resumed(jobs[i])
  {
    seq(|jobs|, i requires 0 <= i < |jobs| => Resumed(jobs[i]))
  }

  /** How many jobs have the status. */
  function WithStatus(jobs: seq<Job>, status: Status): nat {
    if |jobs| == 0 then 0
    else WithStatus(jobs[..|jobs| - 1], status) + if jobs[|jobs| - 1].status == status then 1 else 0
  }

  /** Recovery moves all running jobs, and no others, to pending. */
  lemma {:induction false} ResumeMoves(jobs: seq<Job>)
    ensures WithStatus(ResumedAll(jobs), Running) == 0
    ensures WithStatus(ResumedAll(jobs), Pending) == WithStatus(jobs, Pending) + WithStatus(jobs, Running)
  {
    if |jobs| == 0 {
    } else {
      var front := jobs[..|jobs| - 1];
      ResumeMoves(front);
      assert ResumedAll(jobs)[..|front|] == ResumedAll(front);
    }
  }

  // ---- The dequeue order ----

  /** ORDER BY priority ASC, created_at ASC */
  predicate KeyLeq(a: Job, b: Job) {
    a.priority < b.priority || (a.priority == b.priority && a.createdAt <= b.createdAt)
  }

  predicate IsPending(job: Job, jobType: JobType) {
    job.jobType == jobType && job.status == Pending
  }

  /** Row `i` is one the query may return: pending, of the type, with no smaller key. Ties are open. */
  ghost predicate IsNext(jobs: seq<Job>, jobType: JobType, i: nat) {
    && i < |jobs|
    && IsPending(jobs[i], jobType)
    && forall j :: 0 <= j < |jobs| && IsPending(jobs[j], jobType) ==> KeyLeq(jobs[i], jobs[j])
  }

  ghost predicate NonePending(jobs: seq<Job>, jobType: JobType) {
    forall j :: 0 <= j < |jobs| ==> !IsPending(jobs[j], jobType)
  }

  ghost predicate UniqueIds(jobs: seq<Job>) {
    forall i, j :: 0 <= i < j < |jobs| ==> jobs[i].id != jobs[j].id
  }

  class JobQueue {
    var jobs: seq<Job>

    ghost predicate Valid()
      reads this
    {
      UniqueIds(jobs)
    }

    constructor ()
      ensures Valid() && jobs == []
    {
      jobs := [];
    }

    /** The row with the id, or the number of rows. */
    method Find(id: string) returns (i: nat)
      ensures i <= |jobs|
      ensures i < |jobs| ==> jobs[i].id == id
      ensures i == |jobs| ==> forall j :: 0 <= j < |jobs| ==> jobs[j].id != id
    {
      i := 0;
      while i < |jobs|
        invariant i <= |jobs|
        invariant forall j :: 0 <= j < i ==> jobs[j].id != id
      {
        if jobs[i].id == id {
          return;
        }
        i := i + 1;
      }
    }

    /** The id is generated by the caller; an id already present violates the primary key. */
    method Enqueue(id: string, jobType: JobType, payload: string, priority: int, now: int) returns (r: Result<string, ()>)
      requires Valid()
      modifies this
      ensures Valid()
      ensures (exists j :: 0 <= j < |old(jobs)| && old(jobs)[j].id == id) ==> r == Err(()) && jobs == old(jobs)
      ensures (forall j :: 0 <= j < |old(jobs)| ==> old(jobs)[j].id != id) ==>
                r == Ok(id) && jobs == old(jobs) + [Job(id, jobType, payload, Pending, priority, 0, 3, None, now)]
    {
      var i := Find(id);
      if i < |jobs| {
        return Err(());
      }
      jobs := jobs + [NewJob(id, jobType, payload, priority, now)];
      r := Ok(id);
    }

    method Dequeue(jobType: JobType) returns (record: Option<Job>, ghost row: nat)
      requires Valid()
      modifies this
      ensures Valid()
      ensures record.None? ==> NonePending(old(jobs), jobType) && jobs == old(jobs)
      ensures record.None? <==> forall j :: 0 <= j < |old(jobs)| && old(jobs)[j].jobType == jobType ==> old(jobs)[j].status != Pending
      ensures record.Some? ==>
                && IsNext(old(jobs), jobType, row)
                && old(jobs)[row].jobType == jobType && old(jobs)[row].status == Pending
                && jobs == old(jobs)[row := old(jobs)[row].(status := Running, attempts := old(jobs)[row].attempts + 1)]
                && record == Some(jobs[row])
      ensures record.Some? ==>
                forall j :: 0 <= j < |old(jobs)| && old(jobs)[j].jobType == jobType && old(jobs)[j].status == Pending ==>
                  || old(jobs)[row].priority < old(jobs)[j].priority
                  || (old(jobs)[row].priority == old(jobs)[j].priority && old(jobs)[row].createdAt <= old(jobs)[j].createdAt)
    {
      var best: nat := |jobs|;
      for k := 0 to |jobs|
        invariant best <= |jobs|
        invariant best == |jobs| ==> forall j :: 0 <= j < k ==> !IsPending(jobs[j], jobType)
        invariant best < |jobs| ==>
                    && IsPending(jobs[best], jobType)
                    && forall j :: 0 <= j < k && IsPending(jobs[j], jobType) ==> KeyLeq(jobs[best], jobs[j])
      {
        if IsPending(jobs[k], jobType) && (best == |jobs| || !KeyLeq(jobs[best], jobs[k])) {
          best := k;
        }
      }
      row := best;
      if best == |jobs| {
        return None, row;
      }
      jobs := jobs[best := Started(jobs[best])];
      record := Some(jobs[best]);
    }

    method MarkCompleted(id: string)
      requires Valid()
      modifies this
      ensures Valid() && |jobs| == |old(jobs)|
      ensures forall j :: 0 <= j < |jobs| ==>
                jobs[j] == if old(jobs)[j].id == id then old(jobs)[j].(status := Completed) else old(jobs)[j]
    {
      var i := Find(id);
      if i < |jobs| {
        jobs := jobs[i := Done(jobs[i])];
      }
    }

    method MarkFailed(id: string, error: string)
      requires Valid()
      modifies this
      ensures Valid() && |jobs| == |old(jobs)|
      ensures forall j :: 0 <= j < |jobs| && old(jobs)[j].id != id ==> jobs[j] == old(jobs)[j]
      ensures forall j :: 0 <= j < |jobs| && old(jobs)[j].id == id && old(jobs)[j].attempts < old(jobs)[j].maxRetries ==>
                jobs[j] == old(jobs)[j].(status := Pending, error := Some(error))
      ensures forall j :: 0 <= j < |jobs| && old(jobs)[j].id == id && old(jobs)[j].attempts >= old(jobs)[j].maxRetries ==>
                jobs[j] == old(jobs)[j].(status := Failed, error := Some(error))
    {
      var i := Find(id);
      if i < |jobs| {
        jobs := jobs[i := AfterFailure(jobs[i], error)];
      }
    }

    method Cancel(id: string) returns (cancelled: bool)
      requires Valid()
      modifies this
      ensures Valid() && |jobs| == |old(jobs)|
      ensures forall j :: 0 <= j < |jobs| ==>
                jobs[j] == if old(jobs)[j].id == id && old(jobs)[j].status in {Pending, Running}
                           then old(jobs)[j].(status := Cancelled) else old(jobs)[j]
      ensures cancelled <==>
                exists j :: 0 <= j < |old(jobs)| && old(jobs)[j].id == id && old(jobs)[j].status in {Pending, Running}
    {
      var i := Find(id);
      cancelled := i < |jobs| && jobs[i].status in {Pending, Running};
      if cancelled {
        jobs := jobs[i := jobs[i].(status := Cancelled)];
      }
    }

    /** Puts every running job back among the pending ones, its attempts as they are; answers how many. */
    method ResumeAbandoned() returns (count: nat)
      requires Valid()
      modifies this
      ensures Valid() && |jobs| == |old(jobs)|
      ensures forall j :: 0 <= j < |jobs| ==>
                if old(jobs)[j].status == Running then jobs[j] == old(jobs)[j].(status := Pending) else jobs[j] == old(jobs)[j]
      ensures count == WithStatus(old(jobs), Running) && WithStatus(jobs, Running) == 0
      ensures WithStatus(jobs, Pending) == WithStatus(old(jobs), Pending) + count
    {
      var before := jobs;
      count := 0;
      for k := 0 to |jobs|
        invariant |jobs| == |before|
        invariant forall j :: 0 <= j < |jobs| ==> jobs[j] == if j < k then Resumed(before[j]) else before[j]
        invariant count == WithStatus(before[..k], Running)
      {
        assert before[..k + 1][..k] == before[..k];
        if jobs[k].status == Running {
          jobs := jobs[k := jobs[k].(status := Pending)];
          count := count + 1;
        }
      }
      assert before[..|before|] == before;
      assert jobs == ResumedAll(before);
      ResumeMoves(before);
    }

    /** One turn of the worker loop: dequeue, run the handler, record its verdict. */
    method RunOne(jobType: JobType, verdict: Result<(), string>) returns (id: Option<string>, ghost row: nat)
      requires Valid()
      modifies this
      ensures Valid()
      ensures id.None? ==> NonePending(old(jobs), jobType) && jobs == old(jobs)
      ensures id.Some? ==>
                && IsNext(old(jobs), jobType, row)
                && id.value == old(jobs)[row].id
                && jobs == old(jobs)[row := AfterRun(old(jobs)[row], verdict)]
                && Work(jobs) < Work(old(jobs))
    {
      var record;
      record, row := Dequeue(jobType);
      if record.None? {
        return None, row;
      }
      match verdict {
        case Ok(_) => MarkCompleted(record.value.id);
        case Err(error) => MarkFailed(record.value.id, error);
      }
      assert jobs == old(jobs)[row := AfterRun(old(jobs)[row], verdict)];
      WorkUpdate(old(jobs), row, jobs[row]);
      id := Some(record.value.id);
    }

    /** The worker loop on a queue nobody else writes to, until it would go to sleep. The handler's
        verdict on the k-th run is `verdicts(k)`. `rows` names the row of each run. */
    method Drain(jobType: JobType, verdicts: nat -> Result<(), string>) returns (ran: seq<string>, ghost rows: seq<nat>)
      requires Valid()
      modifies this
      ensures Valid() && |jobs| == |old(jobs)| && |ran| == |rows|
      ensures forall k :: 0 <= k < |rows| ==> rows[k] < |jobs| && ran[k] == old(jobs)[rows[k]].id
      ensures InKeyOrder(old(jobs), rows)
      ensures forall i :: 0 <= i < |jobs| ==> RunCount(old(jobs)[i], jobs[i], Runs(rows, i), jobType)
      ensures forall k :: 0 <= k < |rows| ==> VerdictShows(jobs[rows[k]], rows, k, verdicts)
    {
      ran, rows := [], [];
      ghost var start := jobs;
      DrainStart(start, jobType);
      while true
        invariant Valid() && |ran| == |rows|
        invariant DrainState(start, jobs, rows, jobType)
        invariant VerdictsShow(jobs, rows, verdicts)
        invariant forall k :: 0 <= k < |rows| ==> ran[k] == start[rows[k]].id
        decreases Work(jobs)
      {
        ghost var before := jobs;
        var id, row := RunOne(jobType, verdicts(|ran|));
        if id.None? {
          DrainEnd(start, jobs, rows, jobType);
          return;
        }
        DrainStep(start, before, jobs, rows, row, jobType, verdicts(|rows|));
        VerdictStep(before, jobs, rows, row, jobType, verdicts);
        ran, rows := ran + [id.value], rows + [row];
      }
    }
  }

  /** The k-th run is the last of its row. */
  ghost predicate IsLast(rows: seq<nat>, k: nat)
    requires k < |rows|
  {
    forall l :: k < l < |rows| ==> rows[l] != rows[k]
  }

  /** What the verdict on the k-th run says about its job: every run before the last one failed, the last one
      decides whether the job is completed, and the last failure left its message. */
  ghost predicate VerdictShows(job: Job, rows: seq<nat>, k: nat, verdicts: nat -> Result<(), string>)
    requires k < |rows|
  {
    if IsLast(rows, k) then
      && (job.status == Completed <==> verdicts(k).Ok?)
      && (verdicts(k).Err? ==> job.error == Some(verdicts(k).error))
    else verdicts(k).Err?
  }

  ghost predicate VerdictsShow(jobs: seq<Job>, rows: seq<nat>, verdicts: nat -> Result<(), string>) {
    forall k :: 0 <= k < |rows| ==> rows[k] < |jobs| && VerdictShows(jobs[rows[k]], rows, k, verdicts)
  }

  lemma VerdictStep(before: seq<Job>, after: seq<Job>, rows: seq<nat>, row: nat, jobType: JobType,
                    verdicts: nat -> Result<(), string>)
    requires VerdictsShow(before, rows, verdicts) && IsNext(before, jobType, row)
    requires after == before[row := AfterRun(before[row], verdicts(|rows|))]
    ensures VerdictsShow(after, rows + [row], verdicts)
  {
    var rows' := rows + [row];
    forall k | 0 <= k < |rows'| ensures rows'[k] < |after| && VerdictShows(after[rows'[k]], rows', k, verdicts) {
      if k < |rows| {
        assert VerdictShows(before[rows[k]], rows, k, verdicts);
        assert rows'[|rows|] == row;
        if rows[k] != row {
          assert IsLast(rows', k) <==> IsLast(rows, k) by {
            assert forall l :: k < l < |rows| ==> rows'[l] == rows[l];
          }
        }
      }
    }
  }

  function AfterRun(job: Job, verdict: Result<(), string>): Job {
    match verdict
    case Ok(_) => Done(Started(job))
    case Err(error) => AfterFailure(Started(job), error)
  }

  /** Later runs never have a smaller (priority, creation time). */
  ghost predicate InKeyOrder(jobs: seq<Job>, rows: seq<nat>)
    requires forall k :: 0 <= k < |rows| ==> rows[k] < |jobs|
  {
    forall k, l :: 0 <= k < l < |rows| ==>
      || jobs[rows[k]].priority < jobs[rows[l]].priority
      || (jobs[rows[k]].priority == jobs[rows[l]].priority && jobs[rows[k]].createdAt <= jobs[rows[l]].createdAt)
  }

  /** No pending job of the type sorts before a job that already ran. */
  ghost predicate NotBeforeLog(start: seq<Job>, jobs: seq<Job>, rows: seq<nat>, jobType: JobType)
    requires |start| == |jobs| && forall k :: 0 <= k < |rows| ==> rows[k] < |jobs|
  {
    forall k, i :: 0 <= k < |rows| && 0 <= i < |jobs| && IsPending(jobs[i], jobType) ==> KeyLeq(start[rows[k]], start[i])
  }

  /** The next row to run continues the order: a retried job keeps its key. */
  lemma LogStep(start: seq<Job>, before: seq<Job>, after: seq<Job>, rows: seq<nat>, row: nat, jobType: JobType)
    requires |start| == |before| == |after| && IsNext(before, jobType, row)
    requires forall k :: 0 <= k < |rows| ==> rows[k] < |start|
    requires forall i :: 0 <= i < |start| ==> before[i].priority == start[i].priority && before[i].createdAt == start[i].createdAt
    requires forall i :: 0 <= i < |start| && i != row ==> after[i] == before[i]
    requires NotBeforeLog(start, before, rows, jobType) && InKeyOrder(start, rows)
    ensures NotBeforeLog(start, after, rows + [row], jobType) && InKeyOrder(start, rows + [row])
  {
    forall k, i | 0 <= k < |rows + [row]| && 0 <= i < |after| && IsPending(after[i], jobType)
      ensures KeyLeq(start[(rows + [row])[k]], start[i])
    {
      assert KeyLeq(before[row], before[row]);
      assert i == row || IsPending(before[i], jobType);
    }
  }

  /** A job seen before and after some of its runs in a drain: only status, attempts and error changed,
      each run counted as one attempt, and it is still pending only below its retry limit. */
  ghost predicate RunsSoFar(start: Job, now: Job, runs: nat, jobType: JobType) {
    && now == start.(status := now.status, attempts := start.attempts + runs, error := now.error)
    && (!IsPending(start, jobType) || runs == 0 ==> now == start && runs == 0)
    && (IsPending(start, jobType) && runs > 0 ==>
         && now.status in {Pending, Completed, Failed}
         && (now.status == Pending ==> now.attempts < now.maxRetries)
         && (now.status == Failed ==> now.attempts >= now.maxRetries)
         && now.attempts <= Larger(start.attempts + 1, now.maxRetries))
  }

  /** What holds at every turn of a drain that started with `start`. */
  ghost predicate DrainState(start: seq<Job>, jobs: seq<Job>, rows: seq<nat>, jobType: JobType) {
    && |start| == |jobs|
    && (forall k :: 0 <= k < |rows| ==> rows[k] < |jobs|)
    && (forall i :: 0 <= i < |jobs| ==> RunsSoFar(start[i], jobs[i], Runs(rows, i), jobType))
    && NotBeforeLog(start, jobs, rows, jobType)
    && InKeyOrder(start, rows)
  }

  lemma DrainStart(start: seq<Job>, jobType: JobType)
    ensures DrainState(start, start, [], jobType)
  {
  }

  lemma RunStep(start: Job, before: Job, runs: nat, jobType: JobType, verdict: Result<(), string>)
    requires RunsSoFar(start, before, runs, jobType) && IsPending(before, jobType)
    ensures RunsSoFar(start, AfterRun(before, verdict), runs + 1, jobType)
  {
  }

  lemma DrainStep(start: seq<Job>, before: seq<Job>, after: seq<Job>, rows: seq<nat>, row: nat, jobType: JobType,
                  verdict: Result<(), string>)
    requires DrainState(start, before, rows, jobType) && IsNext(before, jobType, row)
    requires after == before[row := AfterRun(before[row], verdict)]
    ensures DrainState(start, after, rows + [row], jobType)
  {
    var rows' := rows + [row];
    assert rows'[..|rows|] == rows;
    assert forall i :: 0 <= i < |before| ==> RunsSoFar(start[i], before[i], Runs(rows, i), jobType);
    LogStep(start, before, after, rows, row, jobType);
    forall i | 0 <= i < |after| ensures RunsSoFar(start[i], after[i], Runs(rows', i), jobType) {
      if i == row {
        RunStep(start[i], before[i], Runs(rows, i), jobType, verdict);
      }
    }
  }

  lemma DrainEnd(start: seq<Job>, end: seq<Job>, rows: seq<nat>, jobType: JobType)
    requires DrainState(start, end, rows, jobType) && NonePending(end, jobType)
    ensures forall i :: 0 <= i < |end| ==> RunCount(start[i], end[i], Runs(rows, i), jobType)
  {
    forall i | 0 <= i < |end| ensures RunCount(start[i], end[i], Runs(rows, i), jobType) {
      assert RunsSoFar(start[i], end[i], Runs(rows, i), jobType);
    }
  }

  /** What a whole drain does to one job: every job pending of the type runs at least once, at most until its
      retry limit, and exactly that often if it fails; it ends completed or failed, and only status, attempts
      and error change. Every other job is as it was. */
  ghost predicate RunCount(start: Job, end: Job, runs: nat, jobType: JobType) {
    if start.jobType == jobType && start.status == Pending then
      && 1 <= runs <= Larger(1, start.maxRetries - start.attempts)
      && end.status in {Completed, Failed}
      && (end.status == Failed ==> runs == Larger(1, start.maxRetries - start.attempts))
      && end == start.(status := end.status, attempts := start.attempts + runs, error := end.error)
    else runs == 0 && end == start
  }

  /** How often the row occurs in the run log. */
  function Runs(rows: seq<nat>, i: nat): nat {
    if |rows| == 0 then 0 else Runs(rows[..|rows| - 1], i) + if rows[|rows| - 1] == i then 1 else 0
  }

  function Larger(a: int, b: int): int {
    if a < b then b else a
  }

  // ---- The measure ----

  /** An upper bound on the worker steps a job can still take part in. */
  function Weight(job: Job): nat {
    match job.status
    case Pending => 2 * Larger(1, job.maxRetries - job.attempts)
    case Running => 2 * Larger(0, job.maxRetries - job.attempts) + 1
    case _ => 0
  }

  function Work(jobs: seq<Job>): nat {
    if |jobs| == 0 then 0 else Work(jobs[..|jobs| - 1]) + Weight(jobs[|jobs| - 1])
  }

  lemma {:induction false} WorkUpdate(jobs: seq<Job>, i: nat, job: Job)
    requires i < |jobs|
    ensures Work(jobs[i := job]) == Work(jobs) - Weight(jobs[i]) + Weight(job)
  {
    var n := |jobs| - 1;
    if i == n {
      assert jobs[i := job][..n] == jobs[..n];
    } else {
      assert jobs[i := job][..n] == jobs[..n][i := job];
      WorkUpdate(jobs[..n], i, job);
    }
  }

  // ---- Consequences of the run log's order ----

  /** With distinct keys every job's runs are one contiguous block. */
  lemma RunsAreContiguous(jobs: seq<Job>, rows: seq<nat>, k: nat, l: nat, m: nat)
    requires forall i :: 0 <= i < |rows| ==> rows[i] < |jobs|
    requires InKeyOrder(jobs, rows) && k <= l <= m < |rows| && rows[k] == rows[m]
    requires forall i, j :: 0 <= i < |jobs| && 0 <= j < |jobs| && KeyLeq(jobs[i], jobs[j]) && KeyLeq(jobs[j], jobs[i]) ==> i == j
    ensures rows[l] == rows[k]
  {
    if k < l < m {
      assert KeyLeq(jobs[rows[k]], jobs[rows[l]]) && KeyLeq(jobs[rows[l]], jobs[rows[m]]);
    }
  }

  // ---- Whole runs of the system ----

  /** The queue and, for each job type with a busy worker, the row the worker holds. */
  datatype System = System(jobs: seq<Job>, held: map<JobType, nat>)

  datatype Action =
    | EnqueueJob(id: string, jobType: JobType, payload: string, priority: int, now: int)
    | Take(jobType: JobType, row: nat)
    | Finish(jobType: JobType, succeeds: bool, error: string)
    | CancelJob(row: nat)
    | CrashAndResume

  /** Cancelling is restricted to jobs no worker holds. */
  ghost predicate Enabled(s: System, a: Action) {
    match a
    case EnqueueJob(id, _, _, _, _) => forall i :: 0 <= i < |s.jobs| ==> s.jobs[i].id != id
    case Take(jobType, row) => jobType !in s.held && IsNext(s.jobs, jobType, row)
    case Finish(jobType, _, _) => jobType in s.held && s.held[jobType] < |s.jobs|
    case CancelJob(row) => row < |s.jobs| && !Terminal(s.jobs[row]) && row !in s.held.Values
    case CrashAndResume => true
  }

  ghost function Act(s: System, a: Action): System
    requires Enabled(s, a)
  {
    match a
    case EnqueueJob(id, jobType, payload, priority, now) =>
      s.(jobs := s.jobs + [NewJob(id, jobType, payload, priority, now)])
    case Take(jobType, row) =>
      System(s.jobs[row := Started(s.jobs[row])], s.held[jobType := row])
    case Finish(jobType, succeeds, error) =>
      var row := s.held[jobType];
      System(s.jobs[row := if succeeds then Done(s.jobs[row]) else AfterFailure(s.jobs[row], error)], s.held - {jobType})
    case CancelJob(row) => s.(jobs := s.jobs[row := s.jobs[row].(status := Cancelled)])
    case CrashAndResume => System(ResumedAll(s.jobs), map[])
  }

  /** What each action does to the rows and to the workers' hands. */
  lemma StepsOneByOne(s: System, a: Action)
    requires Enabled(s, a)
    ensures a.EnqueueJob? ==>
              Act(s, a) == System(s.jobs + [Job(a.id, a.jobType, a.payload, Pending, a.priority, 0, 3, None, a.now)], s.held)
    ensures a.Take? ==>
              Act(s, a) == System(s.jobs[a.row := s.jobs[a.row].(status := Running, attempts := s.jobs[a.row].attempts + 1)],
                                  s.held[a.jobType := a.row])
    ensures a.Finish? ==>
              var row := s.held[a.jobType];
              var job := s.jobs[row];
              var after :=
                if a.succeeds then job.(status := Completed)
                else if job.attempts < job.maxRetries then job.(status := Pending, error := Some(a.error))
                else job.(status := Failed, error := Some(a.error));
              Act(s, a) == System(s.jobs[row := after], s.held - {a.jobType})
    ensures a.CancelJob? ==> Act(s, a) == s.(jobs := s.jobs[a.row := s.jobs[a.row].(status := Cancelled)])
    ensures a.CrashAndResume? ==>
              && Act(s, a).held == map[] && |Act(s, a).jobs| == |s.jobs|
              && forall i :: 0 <= i < |s.jobs| ==>
                   Act(s, a).jobs[i] == if s.jobs[i].status == Running then s.jobs[i].(status := Pending) else s.jobs[i]
  {
  }

  /** A running job is held by its type's worker, and a held job is running. */
  ghost predicate Inv(s: System) {
    && (forall i :: 0 <= i < |s.jobs| && s.jobs[i].status == Running ==>
         s.jobs[i].jobType in s.held && s.held[s.jobs[i].jobType] == i)
    && (forall jobType :: jobType in s.held ==>
         s.held[jobType] < |s.jobs| && s.jobs[s.held[jobType]].status == Running
         && s.jobs[s.held[jobType]].jobType == jobType)
  }

  /** Attempts so far, against the retry limit and the number of recoveries. */
  ghost predicate AttemptsBounded(s: System, recoveries: nat) {
    forall i :: 0 <= i < |s.jobs| ==> JobBounded(s.jobs[i], recoveries)
  }

  ghost predicate JobBounded(job: Job, recoveries: nat) {
    && job.attempts <= job.maxRetries + recoveries
    && (job.status == Pending ==> job.attempts < job.maxRetries + recoveries)
  }

  function Recoveries(actions: seq<Action>): nat {
    if |actions| == 0 then 0
    else Recoveries(actions[..|actions| - 1]) + if actions[|actions| - 1].CrashAndResume? then 1 else 0
  }

  function Enqueued(actions: seq<Action>): nat {
    if |actions| == 0 then 0
    else Enqueued(actions[..|actions| - 1]) + if actions[|actions| - 1].EnqueueJob? then 1 else 0
  }

  /** Dequeues, verdicts and cancellations: everything except new work and crashes. */
  function Progress(actions: seq<Action>): int {
    |actions| - Recoveries(actions) - Enqueued(actions)
  }

  ghost predicate Legal(s: System, actions: seq<Action>)
    decreases |actions|, 0
  {
    |actions| == 0 ||
    (Legal(s, actions[..|actions| - 1]) && Enabled(Run(s, actions[..|actions| - 1]), actions[|actions| - 1]))
  }

  ghost function Run(s: System, actions: seq<Action>): System
    requires Legal(s, actions)
    decreases |actions|, 1
  {
    if |actions| == 0 then s else Act(Run(s, actions[..|actions| - 1]), actions[|actions| - 1])
  }

  lemma ActKeepsInv(s: System, a: Action)
    requires Inv(s) && Enabled(s, a)
    ensures Inv(Act(s, a))
  {
    var s' := Act(s, a);
    forall i | 0 <= i < |s'.jobs| && s'.jobs[i].status == Running
      ensures s'.jobs[i].jobType in s'.held && s'.held[s'.jobs[i].jobType] == i
    {
    }
    forall jobType | jobType in s'.held
      ensures s'.held[jobType] < |s'.jobs| && s'.jobs[s'.held[jobType]].status == Running
      ensures s'.jobs[s'.held[jobType]].jobType == jobType
    {
    }
  }

  // ---- Termination ----

  function RunningOf(jobs: seq<Job>, jobType: JobType): nat {
    if |jobs| == 0 then 0
    else
      RunningOf(jobs[..|jobs| - 1], jobType) +
      if jobs[|jobs| - 1].jobType == jobType && jobs[|jobs| - 1].status == Running then 1 else 0
  }

  lemma {:induction false} AtMostOneRunning(jobs: seq<Job>, jobType: JobType, holder: nat)
    requires forall i :: 0 <= i < |jobs| && jobs[i].jobType == jobType && jobs[i].status == Running ==> i == holder
    ensures RunningOf(jobs, jobType) <= 1
    ensures holder >= |jobs| ==> RunningOf(jobs, jobType) == 0
  {
    if |jobs| == 0 {
    } else {
      AtMostOneRunning(jobs[..|jobs| - 1], jobType, holder);
    }
  }

  /** Recovery gives each interrupted job at most one more step. */
  lemma {:induction false} ResumeWork(jobs: seq<Job>)
    ensures Work(ResumedAll(jobs)) <= Work(jobs) + RunningOf(jobs, ContentExtraction) + RunningOf(jobs, Embedding)
                                      + RunningOf(jobs, ClipEmbedding) + RunningOf(jobs, SyncJob)
  {
    if |jobs| == 0 {
    } else {
      var n := |jobs| - 1;
      ResumeWork(jobs[..n]);
      assert ResumedAll(jobs)[..n] == ResumedAll(jobs[..n]);
    }
  }

  lemma RunningBound(s: System, jobType: JobType)
    requires Inv(s)
    ensures RunningOf(s.jobs, jobType) <= 1
  {
    AtMostOneRunning(s.jobs, jobType, if jobType in s.held then s.held[jobType] else |s.jobs|);
  }

  /** Each action against the measure: worker steps and cancellations lower it, an enqueue adds the six
      steps of three tries, a crash at most one step for each of the four workers. */
  lemma ActWork(s: System, a: Action)
    requires Inv(s) && Enabled(s, a)
    ensures
      if a.EnqueueJob? then Work(Act(s, a).jobs) == Work(s.jobs) + 2 * DEFAULT_MAX_RETRIES
      else if a.CrashAndResume? then Work(Act(s, a).jobs) <= Work(s.jobs) + 4
      else Work(Act(s, a).jobs) < Work(s.jobs)
  {
    match a {
      case EnqueueJob(id, jobType, payload, priority, now) =>
        assert Act(s, a).jobs[..|s.jobs|] == s.jobs;
      case Take(_, row) =>
        WorkUpdate(s.jobs, row, Started(s.jobs[row]));
      case Finish(jobType, succeeds, error) =>
        var row := s.held[jobType];
        WorkUpdate(s.jobs, row, if succeeds then Done(s.jobs[row]) else AfterFailure(s.jobs[row], error));
      case CancelJob(row) =>
        WorkUpdate(s.jobs, row, s.jobs[row].(status := Cancelled));
      case CrashAndResume =>
        ResumeWork(s.jobs);
        RunningBound(s, ContentExtraction);
        RunningBound(s, Embedding);
        RunningBound(s, ClipEmbedding);
        RunningBound(s, SyncJob);
    }
  }

  lemma {:induction false} RunKeepsInv(s: System, actions: seq<Action>)
    requires Inv(s) && Legal(s, actions)
    ensures Inv(Run(s, actions))
  {
    if |actions| == 0 {
    } else {
      RunKeepsInv(s, actions[..|actions| - 1]);
      ActKeepsInv(Run(s, actions[..|actions| - 1]), actions[|actions| - 1]);
    }
  }

  /** Over any run, the worker steps and cancellations together are bounded by the work there was, the
      work enqueued and the crashes: finitely many enqueues and crashes leave finitely many steps. */
  lemma {:induction false} ProgressBounded(s: System, actions: seq<Action>)
    requires Inv(s) && Legal(s, actions)
    ensures Progress(actions) + Work(Run(s, actions).jobs) <=
            Work(s.jobs) + 2 * DEFAULT_MAX_RETRIES * Enqueued(actions) + 4 * Recoveries(actions)
  {
    if |actions| == 0 {
    } else {
      var front, last := actions[..|actions| - 1], actions[|actions| - 1];
      ProgressBounded(s, front);
      RunKeepsInv(s, front);
      ActWork(Run(s, front), last);
      assert Run(s, actions) == Act(Run(s, front), last);
    }
  }

  /** No worker can take or finish anything. */
  ghost predicate Quiescent(s: System) {
    && (forall jobType, row :: !Enabled(s, Take(jobType, row)))
    && (forall jobType :: jobType !in s.held)
  }

  lemma {:induction false} SmallestPending(jobs: seq<Job>, jobType: JobType, bound: nat) returns (row: nat)
    requires bound <= |jobs| && exists i :: 0 <= i < bound && IsPending(jobs[i], jobType)
    ensures row < bound && IsPending(jobs[row], jobType)
    ensures forall i :: 0 <= i < bound && IsPending(jobs[i], jobType) ==> KeyLeq(jobs[row], jobs[i])
  {
    var last := bound - 1;
    if exists i :: 0 <= i < last && IsPending(jobs[i], jobType) {
      row := SmallestPending(jobs, jobType, last);
      if IsPending(jobs[last], jobType) && !KeyLeq(jobs[row], jobs[last]) {
        row := last;
      }
    } else {
      row := last;
    }
  }

  /** When the workers have nothing left to do, every job is completed, failed or cancelled. */
  lemma QuiescentMeansDone(s: System)
    requires Inv(s)
    ensures Quiescent(s) ==> forall i :: 0 <= i < |s.jobs| ==> Terminal(s.jobs[i])
  {
    if Quiescent(s) {
      forall i | 0 <= i < |s.jobs| ensures Terminal(s.jobs[i]) {
        if s.jobs[i].status == Pending {
          var row := SmallestPending(s.jobs, s.jobs[i].jobType, |s.jobs|);
          assert Enabled(s, Take(s.jobs[i].jobType, row));
        }
      }
    }
  }

  // ---- Attempts ----

  /** Each action keeps the bound; only a recovery raises it, by one. */
  lemma ActAttempts(s: System, a: Action, recoveries: nat)
    requires Inv(s) && Enabled(s, a) && AttemptsBounded(s, recoveries)
    ensures AttemptsBounded(Act(s, a), recoveries + if a.CrashAndResume? then 1 else 0)
  {
    var s' := Act(s, a);
    forall i | 0 <= i < |s'.jobs| ensures JobBounded(s'.jobs[i], recoveries + if a.CrashAndResume? then 1 else 0) {
      assert i < |s.jobs| ==> JobBounded(s.jobs[i], recoveries);
    }
  }

  /** In every reachable state a job's attempts are at most its retry limit plus the recoveries so far. */
  lemma {:induction false} AttemptsStayBounded(s: System, actions: seq<Action>, before: nat)
    requires Inv(s) && Legal(s, actions) && AttemptsBounded(s, before)
    ensures AttemptsBounded(Run(s, actions), before + Recoveries(actions))
  {
    if |actions| == 0 {
    } else {
      var front, last := actions[..|actions| - 1], actions[|actions| - 1];
      AttemptsStayBounded(s, front, before);
      RunKeepsInv(s, front);
      ActAttempts(Run(s, front), last, before + Recoveries(front));
    }
  }
}
