/** Applying a provider's delta to the local table: fetch and upsert the new and relabelled
    messages, soft-delete the deleted ones, then write the trash and spam states the label changes imply. */
module DeltaSync {
  import opened Option
  import opened Labels
  import opened EmailRows
  import opened History

  /** Messages by id, as fetching them one by one returns them; a missing id is a failed fetch. */
  type Mailbox = map<string, Message>

  ghost predicate KeyedById(mailbox: Mailbox) {
    forall id :: id in mailbox ==> mailbox[id].id == id
  }

  // ---- Phase 1: fetch and upsert ----

  function FetchedAll(t: Table, account: string, provider: string, ids: seq<string>, remote: Mailbox): Table {
    if |ids| == 0 then t
    else
      var front, id := FetchedAll(t, account, provider, ids[..|ids| - 1], remote), ids[|ids| - 1];
      if id in remote then Upserted(front, account, provider, remote[id]) else front
  }

  function FetchedRow(t: Table, account: string, provider: string, remote: Mailbox, id: string): Option<Row> {
    if id in remote then
      Some(if id in t then Merged(t[id], remote[id]) else Inserted(account, provider, remote[id]))
    else Lookup(t, id)
  }

  /** Fetching an id twice is fetching it once, and the order of the ids does not matter. */
  lemma {:induction false} FetchedAllAt(t: Table, account: string, provider: string, ids: seq<string>, remote: Mailbox, id: string)
    requires KeyedById(remote)
    ensures Lookup(FetchedAll(t, account, provider, ids, remote), id) ==
            if id in ids then FetchedRow(t, account, provider, remote, id) else Lookup(t, id)
  {
    if |ids| == 0 {
    } else {
      var n := |ids| - 1;
      assert ids == ids[..n] + [ids[n]];
      FetchedAllAt(t, account, provider, ids[..n], remote, id);
    }
  }

  // ---- Phase 2: soft deletes ----

  function SoftDeletedAll(t: Table, ids: seq<string>, now: nat): Table {
    if |ids| == 0 then t
    else WithState(SoftDeletedAll(t, ids[..|ids| - 1], now), ids[|ids| - 1], TRASH, Some(now))
  }

  lemma {:induction false} SoftDeletedAllAt(t: Table, ids: seq<string>, now: nat, id: string)
    ensures Lookup(SoftDeletedAll(t, ids, now), id) ==
            if id in t && id in ids then Some(t[id].(state := TRASH, deletedAt := Some(now))) else Lookup(t, id)
  {
    if |ids| == 0 {
    } else {
      var n := |ids| - 1;
      assert ids == ids[..n] + [ids[n]];
      SoftDeletedAllAt(t, ids[..n], now, id);
    }
  }

  // ---- Phase 3: label-driven state writes ----

  /** The two writes of one entry: TRASH first, SPAM second, additions before removals. */
  function LabelWrite(t: Table, c: LabelDelta): Table {
    var id, labels := c.messageId, c.labels;
    var t1 :=
      if Has(labels.added, "TRASH") then WithState(t, id, TRASH, None)
      else if Has(labels.removed, "TRASH") then WithState(t, id, INBOX, None)
      else t;
    if Has(labels.added, "SPAM") then WithState(t1, id, SPAM, None)
    else if Has(labels.removed, "SPAM") then WithState(t1, id, INBOX, None)
    else t1
  }

  function LabelWrites(t: Table, changes: seq<LabelDelta>): Table {
    if |changes| == 0 then t
    else LabelWrite(LabelWrites(t, changes[..|changes| - 1]), changes[|changes| - 1])
  }

  /** What one entry leaves of a row. SPAM additions and removals are tested last, so they win. */
  function Relabel(row: Row, labels: LabelPair): Row {
    if Has(labels.added, "SPAM") then row.(state := SPAM, deletedAt := None)
    else if Has(labels.removed, "SPAM") then row.(state := INBOX, deletedAt := None)
    else if Has(labels.added, "TRASH") then row.(state := TRASH, deletedAt := None)
    else if Has(labels.removed, "TRASH") then row.(state := INBOX, deletedAt := None)
    else row
  }

  lemma LabelWriteAt(t: Table, c: LabelDelta, id: string)
    ensures Lookup(LabelWrite(t, c), id) ==
            if id in t && id == c.messageId then Some(Relabel(t[id], c.labels)) else Lookup(t, id)
  {
  }

  lemma EnumeratesFront(changes: seq<LabelDelta>, m: LabelMap)
    requires Enumerates(changes, m) && |changes| > 0
    ensures Enumerates(changes[..|changes| - 1], m - {changes[|changes| - 1].messageId})
  {
    var n := |changes| - 1;
    var front, rest := changes[..n], m - {changes[n].messageId};
    forall id | id in rest ensures exists i :: 0 <= i < |front| && front[i].messageId == id {
      var i :| 0 <= i < |changes| && changes[i].messageId == id;
      assert front[i] == changes[i];
    }
  }

  /** The label loop, message by message: it reads the map, not the order it is iterated in. */
  lemma {:induction false} LabelWritesAt(t: Table, changes: seq<LabelDelta>, m: LabelMap, id: string)
    requires Enumerates(changes, m)
    ensures Lookup(LabelWrites(t, changes), id) ==
            if id in t && id in m then Some(Relabel(t[id], m[id])) else Lookup(t, id)
  {
    if |changes| == 0 {
      assert id !in m;
    } else {
      var front, last := changes[..|changes| - 1], changes[|changes| - 1];
      var m' := m - {last.messageId};
      EnumeratesFront(changes, m);
      LabelWritesAt(t, front, m', id);
      LabelWriteAt(LabelWrites(t, front), last, id);
      assert last.messageId in m && last.labels == m[last.messageId];
      assert id != last.messageId ==> (id in m <==> id in m') && (id in m ==> m[id] == m'[id]);
    }
  }

  lemma SameRows(a: Table, b: Table)
    requires forall id :: Lookup(a, id) == Lookup(b, id)
    ensures a == b
  {
    forall id ensures id in a <==> id in b {
      assert Lookup(a, id) == Lookup(b, id);
    }
    forall id | id in a ensures a[id] == b[id] {
      assert Lookup(a, id) == Lookup(b, id);
    }
  }

  /** Two iteration orders of the same hash map leave the same table, and a second pass, in whatever
      order, leaves it as it is. */
  lemma LabelWritesOrderFree(t: Table, a: seq<LabelDelta>, b: seq<LabelDelta>, m: LabelMap)
    requires Enumerates(a, m) && Enumerates(b, m)
    ensures LabelWrites(t, a) == LabelWrites(t, b)
    ensures LabelWrites(LabelWrites(t, a), b) == LabelWrites(t, a)
  {
    var once, other, twice := LabelWrites(t, a), LabelWrites(t, b), LabelWrites(LabelWrites(t, a), b);
    forall id ensures Lookup(once, id) == Lookup(other, id) && Lookup(twice, id) == Lookup(once, id) {
      LabelWritesAgree(t, a, b, m, id);
    }
    SameRows(once, other);
    SameRows(twice, once);
  }

  lemma LabelWritesAgree(t: Table, a: seq<LabelDelta>, b: seq<LabelDelta>, m: LabelMap, id: string)
    requires Enumerates(a, m) && Enumerates(b, m)
    ensures Lookup(LabelWrites(t, a), id) == Lookup(LabelWrites(t, b), id)
    ensures Lookup(LabelWrites(LabelWrites(t, a), b), id) == Lookup(LabelWrites(t, a), id)
  {
    LabelWritesAt(t, a, m, id);
    LabelWritesAt(t, b, m, id);
    LabelWritesAt(LabelWrites(t, a), b, m, id);
    if id in t && id in m {
      RelabelTwice(t[id], m[id]);
    }
  }

  lemma RelabelTwice(row: Row, labels: LabelPair)
    ensures Relabel(Relabel(row, labels), labels) == Relabel(row, labels)
  {
    RelabelWrites(row, labels);
    RelabelWrites(Relabel(row, labels), labels);
  }

  /** The state an entry writes, if it writes one. */
  function WrittenState(labels: LabelPair): Option<State> {
    if Has(labels.added, "SPAM") then Some(SPAM)
    else if Has(labels.removed, "SPAM") then Some(INBOX)
    else if Has(labels.added, "TRASH") then Some(TRASH)
    else if Has(labels.removed, "TRASH") then Some(INBOX)
    else None
  }

  lemma RelabelWrites(row: Row, labels: LabelPair)
    ensures Relabel(row, labels) ==
            match WrittenState(labels)
            case Some(state) => row.(state := state, deletedAt := None)
            case None => row
  {
  }

  // ---- The three phases together ----

  function UpdatedIds(changes: seq<LabelDelta>): (ids: seq<string>)
    ensures |ids| == |changes|
    ensures forall i :: 0 <= i < |ids| ==> ids[i] == changes[i].messageId
  {
    seq(|changes|, i requires 0 <= i < |changes| => changes[i].messageId)
  }

  function Applied(t: Table, account: string, provider: string, ids: seq<string>, deleted: seq<string>,
                   changes: seq<LabelDelta>, remote: Mailbox, now: nat): Table
  {
    LabelWrites(SoftDeletedAll(FetchedAll(t, account, provider, ids, remote), deleted, now), changes)
  }

  /** Applying an aggregated Gmail window: the new and the relabelled messages are fetched. */
  function AppliedDelta(t: Table, account: string, provider: string, delta: Delta, remote: Mailbox, now: nat): Table {
    Applied(t, account, provider, delta.added + UpdatedIds(delta.labelChanges), delta.deleted, delta.labelChanges, remote, now)
  }

  /** Added or relabelled in the window: the message is fetched. */
  predicate Touched(records: seq<Record>, id: string) {
    id in AddedIds(records) || Relabelled(records, id)
  }

  /** What the window makes of one row, read off the raw records. */
  ghost function RowAfterWindow(t: Table, account: string, provider: string, records: seq<Record>,
                                remote: Mailbox, now: nat, id: string): Option<Row>
  {
    var fetched :=
      if Touched(records, id) then FetchedRow(t, account, provider, remote, id)
      else Lookup(t, id);
    if fetched.None? then None
    else
      var row := if id in DeletedIds(records) then fetched.value.(state := TRASH, deletedAt := Some(now)) else fetched.value;
      Some(Relabel(row, LabelPair(AddedLabels(records, id), RemovedLabels(records, id))))
  }

  lemma HasDedup(labels: seq<string>, name: string)
    ensures Has(Dedup(labels), name) <==> Has(labels, name)
  {
    DedupSameElements(labels);
    var d := Dedup(labels);
    if Has(d, name) {
      var i :| 0 <= i < |d| && EqIgnoreAsciiCase(d[i], name);
      assert d[i] in labels;
      var j :| 0 <= j < |labels| && labels[j] == d[i];
      assert EqIgnoreAsciiCase(labels[j], name);
    }
    if Has(labels, name) {
      var i :| 0 <= i < |labels| && EqIgnoreAsciiCase(labels[i], name);
      assert labels[i] in d;
      var j :| 0 <= j < |d| && d[j] == labels[i];
      assert EqIgnoreAsciiCase(d[j], name);
    }
  }

  lemma RelabelDedup(row: Row, labels: LabelPair)
    ensures Relabel(row, LabelPair(Dedup(labels.added), Dedup(labels.removed))) == Relabel(row, labels)
  {
    HasDedup(labels.added, "TRASH");
    HasDedup(labels.removed, "TRASH");
    HasDedup(labels.added, "SPAM");
    HasDedup(labels.removed, "SPAM");
  }

  lemma UpdatedIdsAre(changes: seq<LabelDelta>, m: LabelMap, id: string)
    requires Enumerates(changes, m)
    ensures id in UpdatedIds(changes) <==> id in m
  {
    if id in m {
      var i :| 0 <= i < |changes| && changes[i].messageId == id;
      assert UpdatedIds(changes)[i] == id;
    }
  }

  /** The table after a delta is a function of the raw window alone. */
  lemma AppliedAt(t: Table, account: string, provider: string, records: seq<Record>, historyId: Option<string>,
                  delta: Delta, remote: Mailbox, now: nat, id: string)
    requires KeyedById(remote) && IsParseOf(delta, records, historyId)
    ensures Lookup(AppliedDelta(t, account, provider, delta, remote, now), id) ==
            RowAfterWindow(t, account, provider, records, remote, now, id)
  {
    var ids := delta.added + UpdatedIds(delta.labelChanges);
    var fetched := FetchedAll(t, account, provider, ids, remote);
    var trashed := SoftDeletedAll(fetched, delta.deleted, now);
    FetchedIdsAre(records, historyId, delta, id);
    FetchedAllAt(t, account, provider, ids, remote, id);
    DedupSameElements(DeletedIds(records));
    SoftDeletedAllAt(fetched, delta.deleted, now, id);
    RelabelledAt(trashed, records, delta.labelChanges, id);
  }

  /** The ids the sync fetches are those added or relabelled in the window. */
  lemma FetchedIdsAre(records: seq<Record>, historyId: Option<string>, delta: Delta, id: string)
    requires IsParseOf(delta, records, historyId)
    ensures id in delta.added + UpdatedIds(delta.labelChanges) <==> Touched(records, id)
  {
    DedupSameElements(AddedIds(records));
    LabelMapAggregates(records, id);
    UpdatedIdsAre(delta.labelChanges, LabelMapOf(records), id);
  }

  lemma RelabelledAt(t: Table, records: seq<Record>, changes: seq<LabelDelta>, id: string)
    requires Enumerates(changes, LabelMapOf(records))
    ensures Lookup(LabelWrites(t, changes), id) ==
            if id in t then Some(Relabel(t[id], LabelPair(AddedLabels(records, id), RemovedLabels(records, id)))) else None
  {
    var m := LabelMapOf(records);
    LabelMapAggregates(records, id);
    LabelWritesAt(t, changes, m, id);
    if id in t {
      RelabelDedup(t[id], LabelPair(AddedLabels(records, id), RemovedLabels(records, id)));
      assert id !in m ==> Relabel(t[id], EntryOf(m, id)) == t[id];
    }
  }

  /** Whatever order the hash map was iterated in, the same window leaves the same table. */
  lemma AppliedOrderFree(t: Table, account: string, provider: string, records: seq<Record>, historyId: Option<string>,
                         a: Delta, b: Delta, remote: Mailbox, now: nat)
    requires KeyedById(remote) && IsParseOf(a, records, historyId) && IsParseOf(b, records, historyId)
    ensures AppliedDelta(t, account, provider, a, remote, now) == AppliedDelta(t, account, provider, b, remote, now)
  {
    forall id
      ensures Lookup(AppliedDelta(t, account, provider, a, remote, now), id) ==
              Lookup(AppliedDelta(t, account, provider, b, remote, now), id)
    {
      AppliedAt(t, account, provider, records, historyId, a, remote, now, id);
      AppliedAt(t, account, provider, records, historyId, b, remote, now, id);
    }
    SameRows(AppliedDelta(t, account, provider, a, remote, now), AppliedDelta(t, account, provider, b, remote, now));
  }

  // ---- When two windows mean the same for a message ----

  /** The table ends with the same row for the message, whatever it held and whatever can be fetched. */
  ghost predicate SameEffect(a: seq<Record>, b: seq<Record>, id: string) {
    forall t, account, provider, remote, now :: KeyedById(remote) ==>
      RowAfterWindow(t, account, provider, a, remote, now, id) == RowAfterWindow(t, account, provider, b, remote, now, id)
  }

  /** What the label loop writes for the message. */
  function WrittenBy(records: seq<Record>, id: string): Option<State> {
    WrittenState(LabelPair(AddedLabels(records, id), RemovedLabels(records, id)))
  }

  /** All that matters of a window for one message: whether it is fetched, which state its labels write,
      and, when they write none, whether it is deleted. */
  ghost predicate SameReading(a: seq<Record>, b: seq<Record>, id: string) {
    && (Touched(a, id) <==> Touched(b, id))
    && WrittenBy(a, id) == WrittenBy(b, id)
    && (WrittenBy(a, id).None? ==> (id in DeletedIds(a) <==> id in DeletedIds(b)))
  }

  /** The row after a window, through what matters of it. */
  lemma RowFromReading(t: Table, account: string, provider: string, records: seq<Record>, remote: Mailbox, now: nat, id: string)
    ensures
      var fetched := if Touched(records, id) then FetchedRow(t, account, provider, remote, id) else Lookup(t, id);
      RowAfterWindow(t, account, provider, records, remote, now, id) ==
        if fetched.None? then None
        else match WrittenBy(records, id)
          case Some(state) => Some(fetched.value.(state := state, deletedAt := None))
          case None =>
            if id in DeletedIds(records) then Some(fetched.value.(state := TRASH, deletedAt := Some(now))) else fetched
  {
    var fetched := if Touched(records, id) then FetchedRow(t, account, provider, remote, id) else Lookup(t, id);
    if fetched.Some? {
      var row := if id in DeletedIds(records) then fetched.value.(state := TRASH, deletedAt := Some(now)) else fetched.value;
      RelabelWrites(row, LabelPair(AddedLabels(records, id), RemovedLabels(records, id)));
    }
  }

  lemma SameReadingSameEffect(a: seq<Record>, b: seq<Record>, id: string)
    requires SameReading(a, b, id)
    ensures SameEffect(a, b, id)
  {
    forall t, account, provider, remote, now
      ensures RowAfterWindow(t, account, provider, a, remote, now, id) == RowAfterWindow(t, account, provider, b, remote, now, id)
    {
      RowFromReading(t, account, provider, a, remote, now, id);
      RowFromReading(t, account, provider, b, remote, now, id);
    }
  }

  /** Two windows mean the same for a message exactly when they read the same. */
  lemma SameEffectExactly(a: seq<Record>, b: seq<Record>, id: string)
    ensures SameEffect(a, b, id) <==> SameReading(a, b, id)
  {
    if SameReading(a, b, id) {
      SameReadingSameEffect(a, b, id);
    }
    if SameEffect(a, b, id) {
      var m := Message(id, None, "", "", [], "", None, None, [], 0, false, None, None);
      var remote := map[id := m];
      var row := Inserted("", "", m).(state := DRAFT, deletedAt := Some(1));
      assert RowAfterWindow(map[], "", "", a, remote, 0, id) == RowAfterWindow(map[], "", "", b, remote, 0, id);
      RowFromReading(map[], "", "", a, remote, 0, id);
      RowFromReading(map[], "", "", b, remote, 0, id);
      var t := map[id := row];
      assert RowAfterWindow(t, "", "", a, map[], 0, id) == RowAfterWindow(t, "", "", b, map[], 0, id);
      RowFromReading(t, "", "", a, map[], 0, id);
      RowFromReading(t, "", "", b, map[], 0, id);
    }
  }

  // ---- The count a sync reports ----

  function Fetchable(ids: seq<string>, remote: Mailbox): nat {
    if |ids| == 0 then 0
    else Fetchable(ids[..|ids| - 1], remote) + if ids[|ids| - 1] in remote then 1 else 0
  }

  lemma {:induction false} FetchableConcat(a: seq<string>, b: seq<string>, remote: Mailbox)
    ensures Fetchable(a + b, remote) == Fetchable(a, remote) + Fetchable(b, remote)
  {
    if |b| == 0 {
      assert a + b == a;
    } else {
      var whole := a + b;
      assert whole[..|whole| - 1] == a + b[..|b| - 1];
      FetchableConcat(a, b[..|b| - 1], remote);
    }
  }

  lemma {:induction false} FetchableIsSetSize(ids: seq<string>, remote: Mailbox)
    requires NoRepeats(ids)
    ensures Fetchable(ids, remote) == |Elements(ids) * remote.Keys|
  {
    if |ids| == 0 {
      assert Elements(ids) == {};
    } else {
      var front, last := ids[..|ids| - 1], ids[|ids| - 1];
      FetchableIsSetSize(front, remote);
      ElementsNext(ids);
      AddOneFetchable(Elements(front), last, remote.Keys);
    }
  }

  lemma ElementsNext(ids: seq<string>)
    requires |ids| > 0
    ensures Elements(ids) == Elements(ids[..|ids| - 1]) + {ids[|ids| - 1]}
    ensures NoRepeats(ids) ==> ids[|ids| - 1] !in Elements(ids[..|ids| - 1])
  {
    assert ids == ids[..|ids| - 1] + [ids[|ids| - 1]];
  }

  lemma AddOneFetchable(front: set<string>, last: string, keys: set<string>)
    requires last !in front
    ensures |(front + {last}) * keys| == |front * keys| + if last in keys then 1 else 0
  {
    if last in keys {
      assert (front + {last}) * keys == front * keys + {last};
    } else {
      assert (front + {last}) * keys == front * keys;
    }
  }

  /** Every fetchable id of the window, once for being added and once more for being relabelled. */
  function ReportedFor(records: seq<Record>, remote: Mailbox): nat {
    |Elements(AddedIds(records)) * remote.Keys| + |LabelMapOf(records).Keys * remote.Keys|
  }

  /** The number a sync reports: every fetchable id once for being added and once more for being relabelled. */
  lemma ReportedCount(records: seq<Record>, historyId: Option<string>, delta: Delta, remote: Mailbox)
    requires IsParseOf(delta, records, historyId)
    ensures Fetchable(delta.added + UpdatedIds(delta.labelChanges), remote) == ReportedFor(records, remote)
  {
    var updated := UpdatedIds(delta.labelChanges);
    FetchableConcat(delta.added, updated, remote);
    DedupSameElements(AddedIds(records));
    FetchableIsSetSize(delta.added, remote);
    assert Elements(delta.added) == Elements(AddedIds(records));
    RelabelledCount(delta.labelChanges, LabelMapOf(records), remote);
  }

  /** ... so it is the number of messages upserted exactly when none of them is both added and relabelled. */
  lemma CountedTwice(records: seq<Record>, remote: Mailbox)
    ensures
      var added, relabelled := Elements(AddedIds(records)) * remote.Keys, LabelMapOf(records).Keys * remote.Keys;
      && ReportedFor(records, remote) == |added + relabelled| + |added * relabelled|
      && (ReportedFor(records, remote) == |added + relabelled| <==> added !! relabelled)
  {
    var added, relabelled := Elements(AddedIds(records)) * remote.Keys, LabelMapOf(records).Keys * remote.Keys;
    assert added + relabelled == (added - relabelled) + relabelled;
    assert added == (added - relabelled) + (added * relabelled);
  }

  lemma RelabelledCount(changes: seq<LabelDelta>, m: LabelMap, remote: Mailbox)
    requires Enumerates(changes, m)
    ensures Fetchable(UpdatedIds(changes), remote) == |m.Keys * remote.Keys|
  {
    var updated := UpdatedIds(changes);
    FetchableIsSetSize(updated, remote);
    forall id ensures id in Elements(updated) <==> id in m.Keys {
      UpdatedIdsAre(changes, m, id);
    }
    assert Elements(updated) == m.Keys;
  }
}
