/** The append-only audit log of cleanup operations. */
module AuditLog {
  import opened Option
  import opened Collections

  const TWO_63 := 0x8000_0000_0000_0000
  const TWO_64 := 0x1_0000_0000_0000_0000

  type U64 = n: nat | n < TWO_64
  type I64 = n: int | -TWO_63 <= n < TWO_63

  /** The casts between the entry's unsigned and the column's signed 64 bits. */
  function AsI64(n: U64): I64 {
    if n < TWO_63 then n else n - TWO_64
  }

  function AsU64(n: I64): U64 {
    if n < 0 then n + TWO_64 else n
  }

  datatype Outcome = Applied | Failed | Skipped

  datatype SkipReason = StateDrift | Unacknowledged | Dedup | UserCancelled

  datatype OpKind = Materialized | Predicate

  datatype ErrorCode = ErrorCode(code: string, message: string)

  newtype Byte = b: int | 0 <= b < 256

  type Uuid = bytes: seq<Byte> | |bytes| == 16 witness seq(16, _ => 0)

  datatype Entry = Entry(
    planId: Uuid,
    jobId: Uuid,
    userId: string,
    accountId: string,
    seqNo: U64,
    opKind: OpKind,
    actionType: string,
    sourceType: string,
    outcome: Outcome,
    skipReason: Option<SkipReason>,
    error: Option<ErrorCode>,
    timestampMs: int)

  datatype AuditRow = AuditRow(
    timestamp: int,
    planId: seq<Byte>,
    jobId: seq<Byte>,
    userId: string,
    accountId: string,
    seqNo: I64,
    opKind: string,
    actionType: string,
    sourceType: string,
    outcome: string,
    skipReason: Option<string>,
    errorCode: Option<string>,
    errorMessage: Option<string>)

  datatype AuditError = InvalidPlanId | InvalidJobId | InvalidOutcome | InvalidSkipReason | InvalidOpKind

  // ---- Storing and reading an entry ----

  function OutcomeName(o: Outcome): string {
    match o
    case Applied => "applied"
    case Failed => "failed"
    case Skipped => "skipped"
  }

  function OutcomeNamed(s: string): Option<Outcome> {
    if s == "applied" then Some(Applied)
    else if s == "failed" then Some(Failed)
    else if s == "skipped" then Some(Skipped)
    else None
  }

  function SkipReasonName(r: SkipReason): string {
    match r
    case StateDrift => "state_drift"
    case Unacknowledged => "unacknowledged"
    case Dedup => "dedup"
    case UserCancelled => "user_cancelled"
  }

  function SkipReasonNamed(s: string): Option<SkipReason> {
    if s == "state_drift" then Some(StateDrift)
    else if s == "unacknowledged" then Some(Unacknowledged)
    else if s == "dedup" then Some(Dedup)
    else if s == "user_cancelled" then Some(UserCancelled)
    else None
  }

  function OpKindName(k: OpKind): string {
    match k
    case Materialized => "materialized"
    case Predicate => "predicate"
  }

  function Encode(e: Entry): AuditRow {
    AuditRow(e.timestampMs, e.planId, e.jobId, e.userId, e.accountId, AsI64(e.seqNo), OpKindName(e.opKind),
             e.actionType, e.sourceType, OutcomeName(e.outcome),
             if e.skipReason.Some? then Some(SkipReasonName(e.skipReason.value)) else None,
             if e.error.Some? then Some(e.error.value.code) else None,
             if e.error.Some? then Some(e.error.value.message) else None)
  }

  function Decode(r: AuditRow): Result<Entry, AuditError> {
    if |r.planId| != 16 then Err(InvalidPlanId)
    else if |r.jobId| != 16 then Err(InvalidJobId)
    else if OutcomeNamed(r.outcome).None? then Err(InvalidOutcome)
    else if r.skipReason.Some? && SkipReasonNamed(r.skipReason.value).None? then Err(InvalidSkipReason)
    else if r.opKind != "materialized" && r.opKind != "predicate" then Err(InvalidOpKind)
    else
      Ok(Entry(r.planId, r.jobId, r.userId, r.accountId, AsU64(r.seqNo),
               if r.opKind == "materialized" then Materialized else Predicate,
               r.actionType, r.sourceType, OutcomeNamed(r.outcome).value,
               if r.skipReason.Some? then SkipReasonNamed(r.skipReason.value) else None,
               match (r.errorCode, r.errorMessage)
                 case (Some(code), Some(message)) => Some(ErrorCode(code, message))
                 case (Some(code), None) => Some(ErrorCode(code, ""))
                 case _ => None,
               r.timestamp))
  }

  /** A stored entry is read back as it was written, for every 64-bit sequence number. */
  lemma DecodeEncode(e: Entry)
    ensures Decode(Encode(e)) == Ok(e)
  {
    assert OutcomeNamed(OutcomeName(e.outcome)) == Some(e.outcome);
    if e.skipReason.Some? {
      assert SkipReasonNamed(SkipReasonName(e.skipReason.value)) == e.skipReason;
    }
  }

  /** The column each field is stored in. */
  lemma EncodedColumns(e: Entry)
    ensures
      var r := Encode(e);
      && r.timestamp == e.timestampMs && r.planId == e.planId && r.jobId == e.jobId
      && r.userId == e.userId && r.accountId == e.accountId && r.actionType == e.actionType && r.sourceType == e.sourceType
      && (r.seqNo as int) % TWO_64 == e.seqNo
      && (r.opKind == "materialized" <==> e.opKind == Materialized) && (r.opKind == "predicate" <==> e.opKind == Predicate)
      && (r.outcome == "applied" <==> e.outcome == Applied) && (r.outcome == "failed" <==> e.outcome == Failed)
      && (r.outcome == "skipped" <==> e.outcome == Skipped)
      && (r.skipReason == None <==> e.skipReason == None)
      && (r.skipReason == Some("state_drift") <==> e.skipReason == Some(StateDrift))
      && (r.skipReason == Some("unacknowledged") <==> e.skipReason == Some(Unacknowledged))
      && (r.skipReason == Some("dedup") <==> e.skipReason == Some(Dedup))
      && (r.skipReason == Some("user_cancelled") <==> e.skipReason == Some(UserCancelled))
      && (e.error.None? ==> r.errorCode == None && r.errorMessage == None)
      && (e.error.Some? ==> r.errorCode == Some(e.error.value.code) && r.errorMessage == Some(e.error.value.message))
  {
  }

  /** Which rows cannot be read, and the first thing found wrong with them. */
  lemma UnreadableRows(r: AuditRow)
    ensures Decode(r).Err? <==>
            || |r.planId| != 16 || |r.jobId| != 16
            || r.outcome !in {"applied", "failed", "skipped"}
            || (r.skipReason.Some? && r.skipReason.value !in {"state_drift", "unacknowledged", "dedup", "user_cancelled"})
            || r.opKind !in {"materialized", "predicate"}
    ensures Decode(r) == Err(InvalidPlanId) <==> |r.planId| != 16
    ensures Decode(r) == Err(InvalidJobId) <==> |r.planId| == 16 && |r.jobId| != 16
    ensures Decode(r) == Err(InvalidOutcome) <==>
            |r.planId| == 16 && |r.jobId| == 16 && r.outcome !in {"applied", "failed", "skipped"}
    ensures Decode(r) == Err(InvalidOpKind) ==> r.opKind !in {"materialized", "predicate"}
  {
  }

  /** A row that can be read is the row its entry is stored as, except that a code without a message gets an
      empty one, and a message without a code is dropped. */
  lemma EncodeDecode(r: AuditRow)
    requires Decode(r).Ok?
    ensures
      Encode(Decode(r).value) ==
        r.(errorMessage := if r.errorCode.None? then None else Some(r.errorMessage.GetOr("")))
  {
  }

  /** The stored order of two sequence numbers is their order unless exactly the larger needs the top bit. */
  lemma StoredOrder(a: U64, b: U64)
    requires a < b
    ensures AsI64(a) < AsI64(b) <==> !(a < TWO_63 <= b)
  {
  }

  // ---- Writing ----

  predicate SameKey(a: AuditRow, b: AuditRow) {
    a.planId == b.planId && a.jobId == b.jobId && a.seqNo == b.seqNo && a.outcome == b.outcome
  }

  predicate HasKey(log: seq<AuditRow>, row: AuditRow) {
    exists i | 0 <= i < |log| :: SameKey(log[i], row)
  }

  /** INSERT OR IGNORE under the UNIQUE constraint on (plan, job, seq, outcome). */
  function Written(log: seq<AuditRow>, e: Entry): seq<AuditRow> {
    if HasKey(log, Encode(e)) then log else log + [Encode(e)]
  }

  function WrittenAll(log: seq<AuditRow>, entries: seq<Entry>): seq<AuditRow> {
    if |entries| == 0 then log
    else Written(WrittenAll(log, entries[..|entries| - 1]), entries[|entries| - 1])
  }

  /** The key as the caller sees it. */
  predicate SameOperation(a: Entry, b: Entry) {
    a.planId == b.planId && a.jobId == b.jobId && a.seqNo == b.seqNo && a.outcome == b.outcome
  }

  /** The i-th entry is the first of its key. */
  predicate IsFirst(entries: seq<Entry>, i: nat)
    requires i < |entries|
  {
    forall j | 0 <= j < i :: !SameOperation(entries[j], entries[i])
  }

  lemma KeyIsOperation(a: Entry, b: Entry)
    ensures SameKey(Encode(a), Encode(b)) <==> SameOperation(a, b)
  {
    assert OutcomeNamed(OutcomeName(a.outcome)) == Some(a.outcome);
    assert OutcomeNamed(OutcomeName(b.outcome)) == Some(b.outcome);
  }

  /** The first entries of each key, in the order written. */
  function Firsts(entries: seq<Entry>): seq<Entry> {
    if |entries| == 0 then []
    else
      Firsts(entries[..|entries| - 1]) +
      if IsFirst(entries, |entries| - 1) then [entries[|entries| - 1]] else []
  }

  function EncodeAll(entries: seq<Entry>): (rows: seq<AuditRow>)
    ensures |rows| == |entries|
    ensures forall i :: 0 <= i < |entries| ==> rows[i] == Encode(entries[i])
  {
    seq(|entries|, i requires 0 <= i < |entries| => Encode(entries[i]))
  }

  predicate HasOperation(entries: seq<Entry>, e: Entry) {
    exists i | 0 <= i < |entries| :: SameOperation(entries[i], e)
  }

  lemma HasOperationNext(entries: seq<Entry>, last: Entry, e: Entry)
    ensures HasOperation(entries + [last], e) <==> HasOperation(entries, e) || SameOperation(last, e)
  {
    var all := entries + [last];
    assert all[|entries|] == last && forall i :: 0 <= i < |entries| ==> all[i] == entries[i];
  }

  lemma FirstIsNew(entries: seq<Entry>)
    requires |entries| > 0
    ensures IsFirst(entries, |entries| - 1) <==> !HasOperation(entries[..|entries| - 1], entries[|entries| - 1])
  {
    var front := entries[..|entries| - 1];
    assert forall i :: 0 <= i < |front| ==> front[i] == entries[i];
  }

  lemma {:induction false} FirstsCoverKeys(entries: seq<Entry>, e: Entry)
    ensures HasOperation(Firsts(entries), e) <==> HasOperation(entries, e)
  {
    if |entries| == 0 {
    } else {
      var front, last := entries[..|entries| - 1], entries[|entries| - 1];
      assert entries == front + [last];
      FirstsCoverKeys(front, e);
      FirstIsNew(entries);
      HasOperationNext(front, last, e);
      if IsFirst(entries, |entries| - 1) {
        HasOperationNext(Firsts(front), last, e);
      } else {
        assert Firsts(entries) == Firsts(front);
        if SameOperation(last, e) {
          SameAsEarlier(front, last, e);
        }
      }
    }
  }

  lemma SameAsEarlier(entries: seq<Entry>, last: Entry, e: Entry)
    requires HasOperation(entries, last) && SameOperation(last, e)
    ensures HasOperation(entries, e)
  {
    var i :| 0 <= i < |entries| && SameOperation(entries[i], last);
    assert SameOperation(entries[i], e);
  }

  /** After any sequence of writes the log holds exactly the first entry of each key, in writing order. */
  lemma {:induction false} LogIsFirsts(entries: seq<Entry>)
    ensures WrittenAll([], entries) == EncodeAll(Firsts(entries))
  {
    if |entries| == 0 {
    } else {
      var front, last := entries[..|entries| - 1], entries[|entries| - 1];
      var log := EncodeAll(Firsts(front));
      LogIsFirsts(front);
      FirstsCoverKeys(front, last);
      forall i | 0 <= i < |log| ensures SameKey(log[i], Encode(last)) <==> SameOperation(Firsts(front)[i], last) {
        KeyIsOperation(Firsts(front)[i], last);
      }
      FirstIsNew(entries);
      assert HasKey(log, Encode(last)) <==> HasOperation(Firsts(front), last);
    }
  }

  /** Writing again anything that was written before, in any order and any number of times, changes nothing. */
  lemma {:induction false} ReplayChangesNothing(entries: seq<Entry>, again: seq<Entry>)
    requires forall i :: 0 <= i < |again| ==> again[i] in entries
    ensures WrittenAll(WrittenAll([], entries), again) == WrittenAll([], entries)
  {
    if |again| == 0 {
    } else {
      var last := again[|again| - 1];
      ReplayChangesNothing(entries, again[..|again| - 1]);
      WrittenIsThere(entries, last);
    }
  }

  lemma {:induction false} WrittenIsThere(entries: seq<Entry>, e: Entry)
    requires e in entries
    ensures HasKey(WrittenAll([], entries), Encode(e))
  {
    var front, last := entries[..|entries| - 1], entries[|entries| - 1];
    var before, log := WrittenAll([], front), WrittenAll([], entries);
    if e in front {
      WrittenIsThere(front, e);
      var i :| 0 <= i < |before| && SameKey(before[i], Encode(e));
      assert log[i] == before[i];
    } else {
      assert e == last;
      if !HasKey(before, Encode(last)) {
        assert log[|before|] == Encode(e);
      }
    }
  }

  // ---- Listing ----

  predicate RowLeq(a: AuditRow, b: AuditRow) {
    a.timestamp < b.timestamp || (a.timestamp == b.timestamp && a.seqNo <= b.seqNo)
  }

  ghost predicate Sorted(rows: seq<AuditRow>) {
    forall i, j :: 0 <= i < j < |rows| ==> RowLeq(rows[i], rows[j])
  }

  function RowsOf(log: seq<AuditRow>, plan: Uuid): seq<AuditRow> {
    if |log| == 0 then []
    else
      RowsOf(log[..|log| - 1], plan) + if log[|log| - 1].planId == plan then [log[|log| - 1]] else []
  }

  /** The query takes every row of the plan as often as it occurs, and no other. */
  lemma {:induction false} RowsOfPlan(log: seq<AuditRow>, plan: Uuid, row: AuditRow)
    ensures multiset(RowsOf(log, plan))[row] == if row.planId == plan then multiset(log)[row] else 0
  {
    if |log| == 0 {
    } else {
      RowsOfPlan(log[..|log| - 1], plan, row);
      assert log == log[..|log| - 1] + [log[|log| - 1]];
    }
  }

  class AuditWriter {
    var log: seq<AuditRow>
    ghost var history: seq<Entry>

    ghost predicate Valid()
      reads this
    {
      log == WrittenAll([], history)
    }

    constructor ()
      ensures Valid() && history == []
    {
      log, history := [], [];
    }

    method Write(e: Entry)
      requires Valid()
      modifies this
      ensures Valid() && history == old(history) + [e]
    {
      if !HasKey(log, Encode(e)) {
        log := log + [Encode(e)];
      }
      history := history + [e];
      assert history[..|history| - 1] == old(history);
    }

    /** The entries of a plan in (timestamp, seq) order; every stored row decodes. `rows` is the query's
        result, `listed` the entries read from it. */
    method ListForPlan(plan: Uuid) returns (r: Result<seq<Entry>, AuditError>, ghost rows: seq<AuditRow>)
      requires Valid()
      ensures Sorted(rows) && multiset(rows) == multiset(RowsOf(EncodeAll(Firsts(history)), plan))
      ensures forall i, j :: 0 <= i < j < |rows| ==>
                rows[i].timestamp < rows[j].timestamp || (rows[i].timestamp == rows[j].timestamp && rows[i].seqNo <= rows[j].seqNo)
      ensures r.Ok? && |r.value| == |rows|
      ensures forall i :: 0 <= i < |rows| ==> rows[i] == Encode(r.value[i])
    {
      LogIsFirsts(history);
      var selected := SelectRows(log, plan);
      rows := selected;
      forall k | 0 <= k < |selected| ensures Decode(selected[k]).Ok? && selected[k] == Encode(Decode(selected[k]).value) {
        SelectedIsEncoded(selected, Firsts(history), plan, k);
        var e :| selected[k] == Encode(e);
        DecodeEncode(e);
      }
      r := DecodeAll(selected);
    }
  }

  /** Collecting into a result: all the entries, or the first error. */
  method DecodeAll(rows: seq<AuditRow>) returns (r: Result<seq<Entry>, AuditError>)
    ensures r.Ok? <==> forall k :: 0 <= k < |rows| ==> Decode(rows[k]).Ok?
    ensures r.Ok? ==> |r.value| == |rows| && forall k :: 0 <= k < |rows| ==> Decode(rows[k]) == Ok(r.value[k])
  {
    var entries: seq<Entry> := [];
    for k := 0 to |rows|
      invariant |entries| == k
      invariant forall i :: 0 <= i < k ==> Decode(rows[i]) == Ok(entries[i])
    {
      var decoded := Decode(rows[k]);
      if decoded.Err? {
        return Err(decoded.error);
      }
      entries := entries + [decoded.value];
    }
    r := Ok(entries);
  }

  /** SELECT ... WHERE plan_id = ? ORDER BY timestamp ASC, seq ASC */
  method SelectRows(log: seq<AuditRow>, plan: Uuid) returns (rows: seq<AuditRow>)
    ensures Sorted(rows) && multiset(rows) == multiset(RowsOf(log, plan))
  {
    rows := [];
    for k := 0 to |log|
      invariant Sorted(rows) && multiset(rows) == multiset(RowsOf(log[..k], plan))
    {
      assert log[..k + 1][..k] == log[..k];
      if log[k].planId == plan {
        rows := InsertRow(rows, log[k]);
      }
    }
    assert log[..|log|] == log;
  }

  method InsertRow(rows: seq<AuditRow>, row: AuditRow) returns (out: seq<AuditRow>)
    requires Sorted(rows)
    ensures Sorted(out) && multiset(out) == multiset(rows) + multiset{row}
  {
    var i := 0;
    while i < |rows| && RowLeq(rows[i], row)
      invariant i <= |rows|
      invariant forall k :: 0 <= k < i ==> RowLeq(rows[k], row)
    {
      i := i + 1;
    }
    out := InsertAt(rows, i, row);
  }

  lemma {:induction false} RowsOfMember(log: seq<AuditRow>, plan: Uuid, row: AuditRow)
    ensures row in RowsOf(log, plan) <==> row in log && row.planId == plan
  {
    if |log| == 0 {
    } else {
      RowsOfMember(log[..|log| - 1], plan, row);
      assert log == log[..|log| - 1] + [log[|log| - 1]];
    }
  }

  lemma SelectedIsEncoded(selected: seq<AuditRow>, entries: seq<Entry>, plan: Uuid, k: nat)
    requires multiset(selected) == multiset(RowsOf(EncodeAll(entries), plan)) && k < |selected|
    ensures exists e :: selected[k] == Encode(e)
  {
    assert selected[k] in multiset(selected);
    assert selected[k] in RowsOf(EncodeAll(entries), plan);
    RowsOfMember(EncodeAll(entries), plan, selected[k]);
  }

  /** For sequence numbers below 2^63 the listing's order is the callers' (timestamp, seq) order. */
  lemma ListedInCallersOrder(a: Entry, b: Entry)
    requires RowLeq(Encode(a), Encode(b)) && a.seqNo < TWO_63 && b.seqNo < TWO_63
    ensures a.timestampMs < b.timestampMs || (a.timestampMs == b.timestampMs && a.seqNo <= b.seqNo)
  {
  }
}
