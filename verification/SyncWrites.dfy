/** What a provider sync does to the table is a sequence of the single writes that the runs of the `emails`
    table consist of; so everything shown of those runs holds across syncs as well. */
module SyncWrites {
  import opened Option
  import opened Collections
  import opened Labels
  import opened EmailRows
  import opened History
  import opened DeltaSync
  import opened Outlook
  import opened MailSync
  import E = EmailStore

  lemma {:induction false} AfterConcat(t: Table, a: seq<E.Step>, b: seq<E.Step>)
    ensures E.After(t, a + b) == E.After(E.After(t, a), b)
  {
    if |b| == 0 {
      assert a + b == a;
    } else {
      var front, last := b[..|b| - 1], b[|b| - 1];
      assert a + b == (a + front) + [last] && b == front + [last];
      AfterConcat(t, a, front);
      E.AfterNext(t, a + front, last);
      E.AfterNext(E.After(t, a), front, last);
    }
  }

  lemma WellFormedConcat(a: seq<E.Step>, b: seq<E.Step>)
    requires E.AllWellFormed(a) && E.AllWellFormed(b)
    ensures E.AllWellFormed(a + b)
  {
    forall i | 0 <= i < |a + b| ensures E.WellFormed((a + b)[i].op) {
      assert (a + b)[i] == if i < |a| then a[i] else b[i - |a|];
    }
  }

  /** The writes lead from one table to the other. */
  ghost predicate Leads(t: Table, steps: seq<E.Step>, t': Table) {
    E.AllWellFormed(steps) && E.After(t, steps) == t'
  }

  lemma LeadsOn(t: Table, a: seq<E.Step>, t1: Table, b: seq<E.Step>, t2: Table)
    requires Leads(t, a, t1) && Leads(t1, b, t2)
    ensures Leads(t, a + b, t2)
  {
    AfterConcat(t, a, b);
    WellFormedConcat(a, b);
  }

  lemma OneWrite(t: Table, op: E.Op, now: nat)
    requires E.WellFormed(op)
    ensures Leads(t, [E.Step(op, now)], E.Effect(t, op, now))
  {
    E.AfterNext(t, [], E.Step(op, now));
    assert [] + [E.Step(op, now)] == [E.Step(op, now)];
  }

  // ---- The writes of a sync ----

  lemma {:induction false} ListingWrites(t: Table, account: string, provider: string, ms: seq<Message>, now: nat)
    returns (steps: seq<E.Step>)
    ensures Leads(t, steps, UpsertedAll(t, account, provider, ms))
  {
    if |ms| == 0 {
      steps := [];
    } else {
      var front, m := ms[..|ms| - 1], ms[|ms| - 1];
      var before := UpsertedAll(t, account, provider, front);
      steps := ListingWrites(t, account, provider, front, now);
      OneWrite(before, E.Sync(account, provider, m), now);
      LeadsOn(t, steps, before, [E.Step(E.Sync(account, provider, m), now)], UpsertedAll(t, account, provider, ms));
      steps := steps + [E.Step(E.Sync(account, provider, m), now)];
    }
  }

  lemma {:induction false} FetchWrites(t: Table, account: string, provider: string, ids: seq<string>, remote: Mailbox, now: nat)
    returns (steps: seq<E.Step>)
    ensures Leads(t, steps, FetchedAll(t, account, provider, ids, remote))
  {
    if |ids| == 0 {
      steps := [];
    } else {
      var front, id := ids[..|ids| - 1], ids[|ids| - 1];
      var before := FetchedAll(t, account, provider, front, remote);
      steps := FetchWrites(t, account, provider, front, remote, now);
      if id in remote {
        OneWrite(before, E.Sync(account, provider, remote[id]), now);
        LeadsOn(t, steps, before, [E.Step(E.Sync(account, provider, remote[id]), now)], FetchedAll(t, account, provider, ids, remote));
        steps := steps + [E.Step(E.Sync(account, provider, remote[id]), now)];
      }
    }
  }

  lemma {:induction false} DeleteWrites(t: Table, ids: seq<string>, now: nat) returns (steps: seq<E.Step>)
    ensures Leads(t, steps, SoftDeletedAll(t, ids, now))
  {
    if |ids| == 0 {
      steps := [];
    } else {
      var front, id := ids[..|ids| - 1], ids[|ids| - 1];
      var before := SoftDeletedAll(t, front, now);
      steps := DeleteWrites(t, front, now);
      OneWrite(before, E.RemoteDelete(id), now);
      LeadsOn(t, steps, before, [E.Step(E.RemoteDelete(id), now)], SoftDeletedAll(t, ids, now));
      steps := steps + [E.Step(E.RemoteDelete(id), now)];
    }
  }

  /** One state column update, or none. */
  function StateWrite(id: string, added: bool, removed: bool, state: State, now: nat): seq<E.Step> {
    if added then [E.Step(E.DeltaState(id, state), now)]
    else if removed then [E.Step(E.DeltaState(id, INBOX), now)]
    else []
  }

  lemma StateWriteLeads(t: Table, id: string, added: bool, removed: bool, state: State, now: nat)
    requires state in {TRASH, SPAM}
    ensures Leads(t, StateWrite(id, added, removed, state, now),
                  if added then WithState(t, id, state, None) else if removed then WithState(t, id, INBOX, None) else t)
  {
    OneWrite(t, E.DeltaState(id, state), now);
    OneWrite(t, E.DeltaState(id, INBOX), now);
  }

  lemma EntryWrites(t: Table, c: LabelDelta, now: nat) returns (steps: seq<E.Step>)
    ensures Leads(t, steps, LabelWrite(t, c))
  {
    var added, removed := c.labels.added, c.labels.removed;
    var first := StateWrite(c.messageId, Has(added, "TRASH"), Has(removed, "TRASH"), TRASH, now);
    var second := StateWrite(c.messageId, Has(added, "SPAM"), Has(removed, "SPAM"), SPAM, now);
    StateWriteLeads(t, c.messageId, Has(added, "TRASH"), Has(removed, "TRASH"), TRASH, now);
    var middle := E.After(t, first);
    StateWriteLeads(middle, c.messageId, Has(added, "SPAM"), Has(removed, "SPAM"), SPAM, now);
    LeadsOn(t, first, middle, second, LabelWrite(t, c));
    steps := first + second;
  }

  lemma {:induction false} LabelLoopWrites(t: Table, changes: seq<LabelDelta>, now: nat) returns (steps: seq<E.Step>)
    ensures Leads(t, steps, LabelWrites(t, changes))
  {
    if |changes| == 0 {
      steps := [];
    } else {
      var front, last := changes[..|changes| - 1], changes[|changes| - 1];
      var before := LabelWrites(t, front);
      steps := LabelLoopWrites(t, front, now);
      var more := EntryWrites(before, last, now);
      LeadsOn(t, steps, before, more, LabelWrites(t, changes));
      steps := steps + more;
    }
  }

  /** The three phases of a delta are such writes. */
  lemma DeltaIsWrites(t: Table, account: string, provider: string, ids: seq<string>, deleted: seq<string>,
                      changes: seq<LabelDelta>, remote: Mailbox, now: nat) returns (steps: seq<E.Step>)
    ensures Leads(t, steps, Applied(t, account, provider, ids, deleted, changes, remote, now))
  {
    var fetched := FetchedAll(t, account, provider, ids, remote);
    var trashed := SoftDeletedAll(fetched, deleted, now);
    var first := FetchWrites(t, account, provider, ids, remote, now);
    var second := DeleteWrites(fetched, deleted, now);
    var third := LabelLoopWrites(trashed, changes, now);
    LeadsOn(t, first, fetched, second, trashed);
    LeadsOn(t, first + second, trashed, third, LabelWrites(trashed, changes));
    steps := (first + second) + third;
  }

  // ---- Whole syncs ----

  /** The rows an answer leads to are those of some delta applied. */
  lemma AnswerIsWrites(account: string, provider: string, before: Table, after: Table, answer: DeltaAnswer, remote: Mailbox, now: nat)
    returns (steps: seq<E.Step>)
    requires KeyedById(remote) && RowsFollow(before, after, account, provider, answer, remote, now)
    ensures Leads(before, steps, after)
  {
    var applied := before;
    match answer {
      case NoAnswer =>
        steps := [];
      case GmailHistory(page) =>
        var delta := SomeParse(page.records, page.historyId);
        applied := AppliedDelta(before, account, provider, delta, remote, now);
        WindowEverywhere(before, account, provider, page, delta, remote, now);
        steps := DeltaIsWrites(before, account, provider, delta.added + UpdatedIds(delta.labelChanges), delta.deleted,
                               delta.labelChanges, remote, now);
      case OutlookDelta(items, deltaLink) =>
        applied := Applied(before, account, provider, ModifiedIds(items), RemovedIds(items), LabelChanges(Moves(items)), remote, now);
        ItemsEverywhere(before, account, provider, items, deltaLink, remote, now);
        steps := DeltaIsWrites(before, account, provider, ModifiedIds(items), RemovedIds(items), LabelChanges(Moves(items)),
                               remote, now);
    }
    forall id ensures Lookup(applied, id) == Lookup(after, id) {
      assert Lookup(after, id) == RowAfterAnswer(before, account, provider, answer, remote, now, id);
    }
    SameRows(applied, after);
  }

  /** Whatever a sync does, successful or not, is a sequence of single writes. */
  lemma SyncIsWrites(account: string, provider: string, turn: Turn) returns (steps: seq<E.Step>)
    requires IsTurn(account, provider, turn) && KeyedById(turn.input.remote)
    ensures Leads(turn.before.rows, steps, turn.after.rows)
  {
    var input := turn.input;
    if IsIncremental(turn.before, input) {
      steps := AnswerIsWrites(account, provider, turn.before.rows, turn.after.rows, input.answer, input.remote, input.now);
    } else {
      steps := ListingWrites(turn.before.rows, account, provider, MessagesOf(AnswersRead(input.listing)), input.now);
    }
  }

  /** So no sync breaks the row invariant ... */
  lemma SyncsStayCoherent(account: string, provider: string, turn: Turn)
    requires IsTurn(account, provider, turn) && KeyedById(turn.input.remote)
    requires E.AllCoherent(turn.before.rows)
    ensures E.AllCoherent(turn.after.rows)
  {
    var steps := SyncIsWrites(account, provider, turn);
    E.RunsStayCoherent(turn.before.rows, steps);
  }

  /** ... and a table that single writes led to is still one after a sync: what holds of all runs, the counts
      and the purge among it, holds of runs with syncs in between. */
  lemma RunsGoOnThroughSyncs(account: string, provider: string, turn: Turn, steps: seq<E.Step>) returns (more: seq<E.Step>)
    requires IsTurn(account, provider, turn) && KeyedById(turn.input.remote)
    requires Leads(map[], steps, turn.before.rows)
    ensures Leads(map[], steps + more, turn.after.rows)
  {
    more := SyncIsWrites(account, provider, turn);
    LeadsOn(map[], steps, turn.before.rows, more, turn.after.rows);
  }
}
