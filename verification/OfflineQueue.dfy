/** The offline operation queue: first in, first out dispatch in batches, with a retry limit counted at failure. */
module OfflineQueue {
  import opened Option
  import opened Collections

  datatype Status = Pending | Processing | Completed | Failed | Conflict

  datatype Kind = Archive | Label | Delete | MarkRead | Move | Unsubscribe

  datatype Operation = Operation(
    id: string,
    accountId: string,
    kind: Kind,
    targetId: string,
    payload: Option<string>,
    status: Status,
    retryCount: nat,
    maxRetries: nat,
    createdAt: int,
    error: Option<string>)

  predicate Terminal(op: Operation) {
    op.status in {Completed, Failed, Conflict}
  }

  // ---- Row updates ----

  function Dispatched(op: Operation): Operation {
    op.(status := Processing)
  }

  function AfterComplete(op: Operation): Operation {
    op.(status := Completed)
  }

  function AfterFail(op: Operation, error: string): Operation {
    var retry := op.retryCount + 1;
    op.(status := if retry >= op.maxRetries then Failed else Pending, retryCount := retry, error := Some(error))
  }

  function AfterConflict(op: Operation, error: string): Operation {
    op.(status := Conflict, error := Some(error))
  }

  // ---- The batch ----

  function PendingCount(ops: seq<Operation>): nat {
    if |ops| == 0 then 0
    else PendingCount(ops[..|ops| - 1]) + if ops[|ops| - 1].status == Pending then 1 else 0
  }

  function AccountPending(ops: seq<Operation>, account: string): nat {
    if |ops| == 0 then 0
    else
      var last := ops[|ops| - 1];
      AccountPending(ops[..|ops| - 1], account) + if last.accountId == account && last.status == Pending then 1 else 0
  }

  /** Distinct pending rows, oldest first, such that no pending row left out is older. */
  ghost predicate Oldest(ops: seq<Operation>, batch: seq<nat>) {
    && (forall k :: 0 <= k < |batch| ==> batch[k] < |ops| && ops[batch[k]].status == Pending)
    && (forall k, l :: 0 <= k < l < |batch| ==> batch[k] != batch[l])
    && (forall k, l :: 0 <= k < l < |batch| ==> ops[batch[k]].createdAt <= ops[batch[l]].createdAt)
    && (forall k, i :: 0 <= k < |batch| && 0 <= i < |ops| && ops[i].status == Pending && i !in batch ==>
         ops[batch[k]].createdAt <= ops[i].createdAt)
  }

  /** `batch` lists the rows a `SELECT ... WHERE status = 'pending' ORDER BY created_at LIMIT n` may return:
      the oldest pending ones, all of them if there are fewer than n. The order among equal times is open. */
  ghost predicate IsBatch(ops: seq<Operation>, batch: seq<nat>, n: nat) {
    && Oldest(ops, batch)
    && |batch| <= n
    && (|batch| < n ==> forall i :: 0 <= i < |ops| && ops[i].status == Pending ==> i in batch)
  }

  lemma PickNext(ops: seq<Operation>, batch: seq<nat>, best: nat)
    requires Oldest(ops, batch) && best < |ops| && ops[best].status == Pending && best !in batch
    requires forall i :: 0 <= i < |ops| && ops[i].status == Pending && i !in batch ==> ops[best].createdAt <= ops[i].createdAt
    ensures Oldest(ops, batch + [best])
  {
    var next := batch + [best];
    forall i | i !in next ensures i !in batch && i != best {
      assert next[|batch|] == best;
      assert i in batch ==> i in next;
    }
    forall k | 0 <= k < |batch| ensures next[k] == batch[k] && batch[k] in batch {
    }
  }

  /** The rows with exactly those of the batch marked as processing. */
  function MarkedAll(ops: seq<Operation>, batch: seq<nat>): (r: seq<Operation>)
    ensures |r| == |ops|
    ensures forall i :: 0 <= i < |ops| ==> r[i] == if i in batch then Dispatched(ops[i]) else ops[i]
  {
    seq(|ops|, i requires 0 <= i < |ops| => if i in batch then Dispatched(ops[i]) else ops[i])
  }

  ghost predicate UniqueIds(ops: seq<Operation>) {
    forall i, j :: 0 <= i < j < |ops| ==> ops[i].id != ops[j].id
  }

  class Queue {
    var ops: seq<Operation>

    ghost predicate Valid()
      reads this
    {
      UniqueIds(ops)
    }

    constructor ()
      ensures Valid() && ops == []
    {
      ops := [];
    }

    method Find(id: string) returns (i: nat)
      ensures i <= |ops|
      ensures i < |ops| ==> ops[i].id == id
      ensures i == |ops| ==> forall j :: 0 <= j < |ops| ==> ops[j].id != id
    {
      i := 0;
      while i < |ops|
        invariant i <= |ops|
        invariant forall j :: 0 <= j < i ==> ops[j].id != id
      {
        if ops[i].id == id {
          return;
        }
        i := i + 1;
      }
    }

    /** Inserts the operation as given; an id already present violates the primary key. */
    method Enqueue(op: Operation) returns (r: Result<string, ()>)
      requires Valid()
      modifies this
      ensures Valid()
      ensures r == if exists j :: 0 <= j < |old(ops)| && old(ops)[j].id == op.id then Err(()) else Ok(op.id)
      ensures ops == if r.Ok? then old(ops) + [op] else old(ops)
    {
      var i := Find(op.id);
      if i < |ops| {
        return Err(());
      }
      ops := ops + [op];
      r := Ok(op.id);
    }

    /** The oldest pending row not yet picked, or the number of rows. */
    method OldestPending(picked: seq<nat>) returns (best: nat)
      ensures best <= |ops|
      ensures best == |ops| ==> forall i :: 0 <= i < |ops| && ops[i].status == Pending ==> i in picked
      ensures best < |ops| ==>
                && ops[best].status == Pending && best !in picked
                && forall i :: 0 <= i < |ops| && ops[i].status == Pending && i !in picked ==> ops[best].createdAt <= ops[i].createdAt
    {
      best := |ops|;
      for k := 0 to |ops|
        invariant best <= |ops|
        invariant best == |ops| ==> forall i :: 0 <= i < k && ops[i].status == Pending ==> i in picked
        invariant best < |ops| ==>
                    && ops[best].status == Pending && best !in picked
                    && forall i :: 0 <= i < k && ops[i].status == Pending && i !in picked ==> ops[best].createdAt <= ops[i].createdAt
      {
        if ops[k].status == Pending && k !in picked && (best == |ops| || ops[k].createdAt < ops[best].createdAt) {
          best := k;
        }
      }
    }

    /** The query of a batch. */
    method SelectPending(limit: nat) returns (batch: seq<nat>)
      ensures IsBatch(ops, batch, limit)
    {
      batch := [];
      while |batch| < limit
        invariant |batch| <= limit && Oldest(ops, batch)
      {
        var best := OldestPending(batch);
        if best == |ops| {
          return;
        }
        PickNext(ops, batch, best);
        batch := batch + [best];
      }
    }

    /** One call, taken as one step: select the batch, then mark its operations one by one. The operations
        are answered as they were read, before the marking. */
    method DequeueBatch(limit: nat) returns (taken: seq<Operation>, ghost batch: seq<nat>)
      requires Valid()
      modifies this
      ensures Valid()
      ensures IsBatch(old(ops), batch, limit)
      ensures |taken| == |batch| && forall k :: 0 <= k < |taken| ==> taken[k] == old(ops)[batch[k]]
      ensures ops == MarkedAll(old(ops), batch)
      ensures forall i :: 0 <= i < |ops| ==>
                ops[i] == if i in batch then old(ops)[i].(status := Processing) else old(ops)[i]
    {
      var rows := SelectPending(limit);
      batch := rows;
      var before := ops;
      taken := seq(|rows|, k requires 0 <= k < |rows| => before[rows[k]]);
      assert ops == MarkedAll(before, batch[..0]);
      for k := 0 to |taken|
        invariant ops == MarkedAll(before, batch[..k])
      {
        var i := Find(taken[k].id);
        MarkOne(before, ops, batch, k, i);
        ops := ops[i := Dispatched(ops[i])];
      }
      assert batch[..|taken|] == batch;
    }

    method Complete(id: string)
      requires Valid()
      modifies this
      ensures Valid() && |ops| == |old(ops)|
      ensures forall j :: 0 <= j < |ops| ==>
                ops[j] == if old(ops)[j].id == id then old(ops)[j].(status := Completed) else old(ops)[j]
    {
      var i := Find(id);
      if i < |ops| {
        ops := ops[i := AfterComplete(ops[i])];
      }
    }

    method Fail(id: string, error: string)
      requires Valid()
      modifies this
      ensures Valid() && |ops| == |old(ops)|
      ensures forall j :: 0 <= j < |ops| && old(ops)[j].id != id ==> ops[j] == old(ops)[j]
      ensures forall j :: 0 <= j < |ops| && old(ops)[j].id == id ==>
                && ops[j].status == (if old(ops)[j].retryCount + 1 < old(ops)[j].maxRetries then Pending else Failed)
                && ops[j] == old(ops)[j].(status := ops[j].status, retryCount := old(ops)[j].retryCount + 1, error := Some(error))
    {
      var i := Find(id);
      if i < |ops| {
        ops := ops[i := AfterFail(ops[i], error)];
      }
    }

    method MarkConflict(id: string, error: string)
      requires Valid()
      modifies this
      ensures Valid() && |ops| == |old(ops)|
      ensures forall j :: 0 <= j < |ops| ==>
                ops[j] == if old(ops)[j].id == id then old(ops)[j].(status := Conflict, error := Some(error)) else old(ops)[j]
    {
      var i := Find(id);
      if i < |ops| {
        ops := ops[i := AfterConflict(ops[i], error)];
      }
    }

    method CountPending(account: string) returns (count: nat)
      ensures count == |PendingRowsOf(ops, account)|
    {
      count := 0;
      for k := 0 to |ops|
        invariant count == AccountPending(ops[..k], account)
      {
        assert ops[..k + 1][..k] == ops[..k];
        if ops[k].accountId == account && ops[k].status == Pending {
          count := count + 1;
        }
      }
      assert ops[..|ops|] == ops;
      AccountPendingIsSize(ops, account);
    }
  }

  ghost function PendingRowsOf(ops: seq<Operation>, account: string): set<nat> {
    set i: nat | i < |ops| && ops[i].accountId == account && ops[i].status == Pending
  }

  lemma {:induction false} AccountPendingIsSize(ops: seq<Operation>, account: string)
    ensures AccountPending(ops, account) == |PendingRowsOf(ops, account)|
  {
    if |ops| == 0 {
      assert PendingRowsOf(ops, account) == {};
    } else {
      var n := |ops| - 1;
      AccountPendingIsSize(ops[..n], account);
      if ops[n].accountId == account && ops[n].status == Pending {
        assert PendingRowsOf(ops, account) == PendingRowsOf(ops[..n], account) + {n};
      } else {
        assert PendingRowsOf(ops, account) == PendingRowsOf(ops[..n], account);
      }
    }
  }

  /** Looking an operation of the batch up by its id finds its row, and marking that row extends the marking. */
  lemma MarkOne(before: seq<Operation>, ops: seq<Operation>, batch: seq<nat>, k: nat, i: nat)
    requires UniqueIds(before) && k < |batch| && batch[k] < |before| && batch[k] !in batch[..k]
    requires ops == MarkedAll(before, batch[..k])
    requires i <= |ops| && (i < |ops| ==> ops[i].id == before[batch[k]].id)
    requires i == |ops| ==> forall j :: 0 <= j < |ops| ==> ops[j].id != before[batch[k]].id
    ensures i == batch[k] && i < |ops|
    ensures ops[i := Dispatched(ops[i])] == MarkedAll(before, batch[..k + 1])
  {
    assert ops[batch[k]].id == before[batch[k]].id;
    assert batch[..k + 1] == batch[..k] + [batch[k]];
  }

  // ---- The size of a batch ----

  ghost function PendingRows(ops: seq<Operation>): set<nat> {
    set i: nat | i < |ops| && ops[i].status == Pending
  }

  lemma {:induction false} PendingCountIsSize(ops: seq<Operation>)
    ensures PendingCount(ops) == |PendingRows(ops)|
  {
    if |ops| == 0 {
      assert PendingRows(ops) == {};
    } else {
      var n := |ops| - 1;
      PendingCountIsSize(ops[..n]);
      if ops[n].status == Pending {
        assert PendingRows(ops) == PendingRows(ops[..n]) + {n};
      } else {
        assert PendingRows(ops) == PendingRows(ops[..n]);
      }
    }
  }

  ghost function RowSet(batch: seq<nat>): set<nat> {
    set i | i in batch
  }

  lemma {:induction false} DistinctSize(batch: seq<nat>)
    requires forall k, l :: 0 <= k < l < |batch| ==> batch[k] != batch[l]
    ensures |RowSet(batch)| == |batch|
  {
    if |batch| == 0 {
      assert RowSet(batch) == {};
    } else {
      var front, last := batch[..|batch| - 1], batch[|batch| - 1];
      DistinctSize(front);
      assert batch == front + [last];
      assert last !in front;
      assert RowSet(batch) == RowSet(front) + {last};
    }
  }

  /** A batch has exactly min(limit, pending) operations. */
  lemma BatchSize(ops: seq<Operation>, batch: seq<nat>, n: nat)
    requires IsBatch(ops, batch, n)
    ensures |batch| == if PendingCount(ops) < n then PendingCount(ops) else n
  {
    var taken := RowSet(batch);
    PendingCountIsSize(ops);
    DistinctSize(batch);
    assert taken <= PendingRows(ops);
    SubsetSize(taken, PendingRows(ops));
    if |batch| < n {
      assert taken == PendingRows(ops);
    }
  }

  // ---- Whole runs ----

  datatype Outcome = Succeed | FailWith(error: string) | ConflictWith(error: string)

  datatype Action =
    | Add(op: Operation)
    | Dispatch(batch: seq<nat>, limit: nat)
    | Report(row: nat, outcome: Outcome)

  /** The queue with, for each row, how often it has been handed out. */
  datatype State = State(ops: seq<Operation>, dispatches: seq<nat>)

  /** Operations enter pending with no retries; a verdict is reported only on an operation handed out. */
  ghost predicate Enabled(s: State, a: Action) {
    match a
    case Add(op) => op.status == Pending && op.retryCount == 0 && forall i :: 0 <= i < |s.ops| ==> s.ops[i].id != op.id
    case Dispatch(batch, limit) => IsBatch(s.ops, batch, limit)
    case Report(row, _) => row < |s.ops| && s.ops[row].status == Processing
  }

  function Reported(op: Operation, outcome: Outcome): Operation {
    match outcome
    case Succeed => AfterComplete(op)
    case FailWith(error) => AfterFail(op, error)
    case ConflictWith(error) => AfterConflict(op, error)
  }

  ghost function Act(s: State, a: Action): State
    requires |s.dispatches| == |s.ops| && Enabled(s, a)
  {
    match a
    case Add(op) => State(s.ops + [op], s.dispatches + [0])
    case Dispatch(batch, _) =>
      State(MarkedAll(s.ops, batch),
            seq(|s.dispatches|, i requires 0 <= i < |s.dispatches| => s.dispatches[i] + if i in batch then 1 else 0))
    case Report(row, outcome) => s.(ops := s.ops[row := Reported(s.ops[row], outcome)])
  }

  /** What each action does to the operations, and when a hand-out is counted. */
  lemma StepsOneByOne(s: State, a: Action)
    requires |s.dispatches| == |s.ops| && Enabled(s, a)
    ensures a.Add? ==> Act(s, a) == State(s.ops + [a.op], s.dispatches + [0])
    ensures a.Dispatch? ==>
              && |Act(s, a).ops| == |s.ops| == |Act(s, a).dispatches|
              && (forall i :: 0 <= i < |s.ops| ==>
                   Act(s, a).ops[i] == if i in a.batch then s.ops[i].(status := Processing) else s.ops[i])
              && (forall i :: 0 <= i < |s.ops| ==>
                   Act(s, a).dispatches[i] == s.dispatches[i] + if i in a.batch then 1 else 0)
    ensures a.Report? ==>
              var op := s.ops[a.row];
              var after :=
                match a.outcome
                case Succeed => op.(status := Completed)
                case ConflictWith(error) => op.(status := Conflict, error := Some(error))
                case FailWith(error) =>
                  op.(status := if op.retryCount + 1 < op.maxRetries then Pending else Failed,
                      retryCount := op.retryCount + 1, error := Some(error));
              Act(s, a) == s.(ops := s.ops[a.row := after])
  {
  }

  /** Every hand-out is accounted for: one per failed try, and one for the try that is under way or ended
      the operation. */
  ghost predicate Accounted(op: Operation, dispatches: nat) {
    && dispatches == op.retryCount + (if op.status in {Processing, Completed, Conflict} then 1 else 0)
    && (op.status in {Pending, Processing} ==> op.retryCount < Limit(op))
    && (op.status == Failed ==> op.retryCount == Limit(op))
    && dispatches <= Limit(op)
  }

  /** The number of tries an operation may have: its retry limit, but never none. */
  function Limit(op: Operation): nat {
    if op.maxRetries == 0 then 1 else op.maxRetries
  }

  ghost predicate Inv(s: State) {
    && |s.dispatches| == |s.ops|
    && UniqueIds(s.ops)
    && forall i :: 0 <= i < |s.ops| ==> Accounted(s.ops[i], s.dispatches[i])
  }

  lemma DispatchAccounted(s: State, batch: seq<nat>, limit: nat)
    requires Inv(s) && Enabled(s, Dispatch(batch, limit))
    ensures Inv(Act(s, Dispatch(batch, limit)))
  {
    var s' := Act(s, Dispatch(batch, limit));
    forall i | 0 <= i < |s'.ops| ensures Accounted(s'.ops[i], s'.dispatches[i]) {
      assert Accounted(s.ops[i], s.dispatches[i]);
    }
  }

  lemma ReportAccounted(s: State, row: nat, outcome: Outcome)
    requires Inv(s) && Enabled(s, Report(row, outcome))
    ensures Inv(Act(s, Report(row, outcome)))
  {
    var s' := Act(s, Report(row, outcome));
    forall i | 0 <= i < |s'.ops| ensures Accounted(s'.ops[i], s'.dispatches[i]) {
      assert Accounted(s.ops[i], s.dispatches[i]);
    }
  }

  lemma ActKeepsInv(s: State, a: Action)
    requires Inv(s) && Enabled(s, a)
    ensures Inv(Act(s, a))
  {
    match a
    case Add(_) =>
    case Dispatch(batch, limit) => DispatchAccounted(s, batch, limit);
    case Report(row, outcome) => ReportAccounted(s, row, outcome);
  }

  ghost predicate Legal(s: State, actions: seq<Action>)
    requires Inv(s)
    decreases |actions|, 0
  {
    |actions| == 0 ||
    (Legal(s, actions[..|actions| - 1]) &&
     Inv(Run(s, actions[..|actions| - 1])) && Enabled(Run(s, actions[..|actions| - 1]), actions[|actions| - 1]))
  }

  ghost function Run(s: State, actions: seq<Action>): State
    requires Inv(s) && Legal(s, actions)
    decreases |actions|, 1
  {
    if |actions| == 0 then s else Act(Run(s, actions[..|actions| - 1]), actions[|actions| - 1])
  }

  /** Over every run the accounting holds: no operation is handed out more often than its limit allows,
      and a finally failed one used all its tries. */
  lemma {:induction false} RunKeepsInv(s: State, actions: seq<Action>)
    requires Inv(s) && Legal(s, actions)
    ensures Inv(Run(s, actions))
  {
    if |actions| == 0 {
    } else {
      RunKeepsInv(s, actions[..|actions| - 1]);
      ActKeepsInv(Run(s, actions[..|actions| - 1]), actions[|actions| - 1]);
    }
  }

  /** Completed, conflicting and finally failed operations stay as they are, through every continuation of
      the run, and are never handed out again. */
  lemma {:induction false} TerminalIsFinal(s: State, actions: seq<Action>, i: nat)
    requires Inv(s) && Legal(s, actions) && i < |s.ops| && Terminal(s.ops[i])
    ensures i < |Run(s, actions).ops| == |Run(s, actions).dispatches|
    ensures Run(s, actions).ops[i] == s.ops[i]
    ensures Run(s, actions).dispatches[i] == s.dispatches[i]
  {
    if |actions| == 0 {
    } else {
      TerminalIsFinal(s, actions[..|actions| - 1], i);
    }
  }

  /** First in, first out: while an older operation waits, no younger one is handed out before it. */
  lemma FirstInFirstOut(s: State, batch: seq<nat>, limit: nat, older: nat, younger: nat)
    requires Inv(s) && Enabled(s, Dispatch(batch, limit))
    requires older < |s.ops| && younger < |s.ops| && s.ops[older].status == Pending
    requires s.ops[older].createdAt < s.ops[younger].createdAt && younger in batch
    ensures exists k, l :: 0 <= k < l < |batch| && batch[k] == older && batch[l] == younger
  {
    var l :| 0 <= l < |batch| && batch[l] == younger;
    assert older in batch;
    var k :| 0 <= k < |batch| && batch[k] == older;
    assert k < l;
  }
}
