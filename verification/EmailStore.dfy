/** Everything that writes the `emails` table outside a provider sync: the folder handlers, the
    emptying of the trash and the hourly retention purge; and the row invariants they keep. */
module EmailStore {
  import opened Option
  import opened Collections
  import opened Labels
  import opened EmailRows

  /** One row write. `Sync`, `RemoteDelete` and `DeltaState` are the writes a provider sync consists of. */
  datatype Op =
    | SoftDelete(id: string)
    | PermanentDelete(id: string)
    | MarkSpam(id: string)
    | Unspam(id: string)
    | Restore(id: string)
    | MoveFolder(id: string, target: string)
    | MoveLabel(id: string, target: string)
    | Archive(id: string)
    | ToggleStar(id: string)
    | SetRead(id: string, read: bool)
    | EmptyTrash(within: Option<string>)
    | PurgeTrash(days: nat)
    | PurgeSpam(days: nat)
    | Sync(account: string, provider: string, m: Message)
    | RemoteDelete(id: string)
    | DeltaState(id: string, state: State)

  /** The label-driven writes of a delta sync only ever store one of these three states. */
  predicate WellFormed(op: Op) {
    op.DeltaState? ==> op.state in {TRASH, SPAM, INBOX}
  }

  function FolderState(target: string): State {
    if UpperIs(target, "TRASH") then TRASH
    else if UpperIs(target, "SPAM") then SPAM
    else if UpperIs(target, "INBOX") then INBOX
    else if UpperIs(target, "SENT") then SENT
    else if UpperIs(target, "DRAFT") || UpperIs(target, "DRAFTS") then DRAFT
    else INBOX
  }

  /** The state of each folder a target can name; any other target means the inbox. */
  ghost predicate IsFolderState(target: string, state: State) {
    && (UpperIs(target, "TRASH") ==> state == State(true, false, TrashFolder))
    && (UpperIs(target, "SPAM") ==> state == State(false, true, SpamFolder))
    && (UpperIs(target, "SENT") ==> state == State(false, false, SentFolder))
    && (UpperIs(target, "DRAFT") || UpperIs(target, "DRAFTS") ==> state == State(false, false, DraftFolder))
    && (state == State(false, false, InboxFolder) ||
        exists name :: name in {"TRASH", "SPAM", "SENT", "DRAFT", "DRAFTS"} && UpperIs(target, name))
  }

  lemma UpperIsOne(s: string, a: string, b: string)
    requires UpperIs(s, a) && UpperIs(s, b)
    ensures a == b
  {
  }

  lemma FolderStates(target: string)
    ensures IsFolderState(target, FolderState(target))
  {
    var names := ["TRASH", "SPAM", "INBOX", "SENT", "DRAFT", "DRAFTS"];
    assert names[0][0] == 'T' && names[1][1] == 'P' && names[2][0] == 'I' && names[3][1] == 'E' && names[4][0] == 'D';
    forall i, j | 0 <= i < j < |names| && UpperIs(target, names[i]) && UpperIs(target, names[j]) ensures false {
      UpperIsOne(target, names[i], names[j]);
    }
    assert forall i :: 0 <= i < |names| ==> names[i] in names;
  }

  /** The kept pieces of a labels column, and those of a target not among them. */
  function KeptAnd(kept: seq<string>, target: string): seq<string> {
    kept + if target in kept then [] else Split(target)
  }

  const SECONDS_PER_DAY := 86400

  /** From one date to the other. */
  function DaysSince(since: nat, now: nat): int {
    now / 86400 - since / 86400
  }

  /** The purge compares `deleted_at` (written with a `T` between date and time) with a cutoff written
      with a blank there, as text: equal dates compare as not-less, so whole days are compared. */
  predicate Expired(deletedAt: nat, now: nat, days: nat) {
    deletedAt / SECONDS_PER_DAY < (now - days * SECONDS_PER_DAY) / SECONDS_PER_DAY
  }

  predicate TrashPurgeable(row: Row, now: nat, days: nat) {
    row.state.isTrash && row.deletedAt.Some? && Expired(row.deletedAt.value, now, days)
  }

  predicate SpamPurgeable(row: Row, now: nat, days: nat) {
    row.state.isSpam && row.deletedAt.Some? && Expired(row.deletedAt.value, now, days)
  }

  predicate InTrashOf(row: Row, account: Option<string>) {
    row.state.isTrash && (account.Some? ==> row.accountId == account.value)
  }

  function Effect(t: Table, op: Op, now: nat): Table {
    match op
    case SoftDelete(id) => WithState(t, id, TRASH, Some(now))
    case RemoteDelete(id) => WithState(t, id, TRASH, Some(now))
    case PermanentDelete(id) => t - {id}
    case MarkSpam(id) => WithState(t, id, SPAM, None)
    case Unspam(id) => WithState(t, id, INBOX, None)
    case Restore(id) => WithState(t, id, INBOX, None)
    case DeltaState(id, state) => WithState(t, id, state, None)
    case MoveFolder(id, target) =>
      if id in t then t[id := t[id].(state := FolderState(target), deletedAt := None, labels := target)] else t
    case MoveLabel(id, target) =>
      if id in t then
        var labels := AppendLabel(t[id].labels, target);
        t[id := t[id].(labels := labels, state := DeriveState(Split(labels)), deletedAt := None)]
      else t
    case Archive(id) => if id in t then t[id := t[id].(labels := "ARCHIVED", isArchived := true)] else t
    case ToggleStar(id) => if id in t then t[id := t[id].(isStarred := !t[id].isStarred)] else t
    case SetRead(id, read) => if id in t then t[id := t[id].(isRead := read)] else t
    case EmptyTrash(account) => map id | id in t && !InTrashOf(t[id], account) :: t[id]
    case PurgeTrash(days) =>
      if days == 0 then t else map id | id in t && !TrashPurgeable(t[id], now, days) :: t[id]
    case PurgeSpam(days) =>
      if days == 0 then t else map id | id in t && !SpamPurgeable(t[id], now, days) :: t[id]
    case Sync(account, provider, m) => Upserted(t, account, provider, m)
  }

  /** What a label move leaves of its row. */
  lemma LabelMoveRow(t: Table, id: string, target: string, now: nat)
    ensures id in t ==>
              var row := Effect(t, MoveLabel(id, target), now)[id];
              && Effect(t, MoveLabel(id, target), now) == t[id := row]
              && row == t[id].(labels := row.labels, state := DeriveState(Split(row.labels)), deletedAt := None)
              && Split(row.labels) == KeptAnd(NonEmpty(Split(t[id].labels)), target)
  {
    if id in t {
      PiecesAfterMove(t[id].labels, target);
    }
  }

  datatype Status = Done | NotFound | BadGateway

  class EmailTable {
    var rows: Table

    constructor ()
      ensures rows == map[]
    {
      rows := map[];
    }

    /** The one UPDATE every state change goes through; answers the number of rows it matched. */
    method UpdateEmailState(id: string, state: State, deletedAt: Option<nat>) returns (affected: nat)
      modifies this
      ensures rows == WithState(old(rows), id, state, deletedAt)
      ensures affected == if id in old(rows) then 1 else 0
      ensures id in old(rows) ==> rows == old(rows)[id := old(rows)[id].(state := state, deletedAt := deletedAt)]
      ensures id !in old(rows) ==> rows == old(rows)
    {
      affected := 0;
      if id in rows {
        rows := rows[id := rows[id].(state := state, deletedAt := deletedAt)];
        affected := 1;
      }
    }

    method DeleteEmail(id: string, permanent: bool, now: nat) returns (status: Status)
      modifies this
      ensures rows == Effect(old(rows), if permanent then PermanentDelete(id) else SoftDelete(id), now)
      ensures status == if id in old(rows) then Done else NotFound
      ensures permanent ==> rows == old(rows) - {id}
      ensures !permanent && id in old(rows) ==>
                rows == old(rows)[id := old(rows)[id].(state := State(true, false, TrashFolder), deletedAt := Some(now))]
      ensures id !in old(rows) ==> rows == old(rows)
    {
      if permanent {
        status := if id in rows then Done else NotFound;
        rows := rows - {id};
      } else {
        var affected := UpdateEmailState(id, TRASH, Some(now));
        status := if affected == 0 then NotFound else Done;
      }
    }

    method SpamEmail(id: string, ghost now: nat) returns (status: Status)
      modifies this
      ensures rows == Effect(old(rows), MarkSpam(id), now)
      ensures status == if id in old(rows) then Done else NotFound
      ensures id in old(rows) ==>
                rows == old(rows)[id := old(rows)[id].(state := State(false, true, SpamFolder), deletedAt := None)]
      ensures id !in old(rows) ==> rows == old(rows)
    {
      var affected := UpdateEmailState(id, SPAM, None);
      status := if affected == 0 then NotFound else Done;
    }

    method UnspamEmail(id: string, ghost now: nat) returns (status: Status)
      modifies this
      ensures rows == Effect(old(rows), Unspam(id), now)
      ensures status == if id in old(rows) then Done else NotFound
      ensures id in old(rows) ==>
                rows == old(rows)[id := old(rows)[id].(state := State(false, false, InboxFolder), deletedAt := None)]
      ensures id !in old(rows) ==> rows == old(rows)
    {
      var affected := UpdateEmailState(id, INBOX, None);
      status := if affected == 0 then NotFound else Done;
    }

    method RestoreEmail(id: string, ghost now: nat) returns (status: Status)
      modifies this
      ensures rows == Effect(old(rows), Restore(id), now)
      ensures status == if id in old(rows) then Done else NotFound
      ensures id in old(rows) ==>
                rows == old(rows)[id := old(rows)[id].(state := State(false, false, InboxFolder), deletedAt := None)]
      ensures id !in old(rows) ==> rows == old(rows)
    {
      var affected := UpdateEmailState(id, INBOX, None);
      status := if affected == 0 then NotFound else Done;
    }

    /** The provider moves first; when that fails nothing is written here. A missing row is not an error. */
    method MoveEmail(id: string, target: string, asLabel: bool, providerMoved: bool, ghost now: nat)
      returns (status: Status)
      modifies this
      ensures status == if providerMoved then Done else BadGateway
      ensures rows == if !providerMoved then old(rows)
                      else Effect(old(rows), if asLabel then MoveLabel(id, target) else MoveFolder(id, target), now)
      ensures rows == if !providerMoved || id !in old(rows) then old(rows) else old(rows)[id := rows[id]]
      ensures providerMoved && id in old(rows) ==>
                rows[id] == old(rows)[id].(labels := rows[id].labels, state := rows[id].state, deletedAt := None)
      ensures providerMoved && !asLabel && id in old(rows) ==>
                rows[id].labels == target && IsFolderState(target, rows[id].state)
      ensures providerMoved && asLabel && id in old(rows) ==>
                && Split(rows[id].labels) == KeptAnd(NonEmpty(Split(old(rows)[id].labels)), target)
                && rows[id].state == DeriveState(Split(rows[id].labels))
    {
      if !providerMoved {
        return BadGateway;
      }
      if asLabel {
        LabelMoveRow(rows, id, target, now);
        MoveToLabel(id, target, now);
      } else {
        MoveToFolder(id, target, now);
      }
      status := Done;
    }

    method MoveToFolder(id: string, target: string, ghost now: nat)
      modifies this
      ensures rows == Effect(old(rows), MoveFolder(id, target), now)
      ensures id in rows ==> IsFolderState(target, rows[id].state)
    {
      FolderStates(target);
      var _ := UpdateEmailState(id, FolderState(target), None);
      if id in rows {
        rows := rows[id := rows[id].(labels := target)];
      }
    }

    method MoveToLabel(id: string, target: string, ghost now: nat)
      modifies this
      ensures rows == Effect(old(rows), MoveLabel(id, target), now)
    {
      if id in rows {
        var labels := Appended(rows[id].labels, target);
        rows := rows[id := rows[id].(labels := labels)];
        var _ := UpdateEmailState(id, DeriveState(Split(labels)), None);
      }
    }

    /** Splits the column, drops empty pieces, appends the target unless present, joins again. */
    static method Appended(labels: string, target: string) returns (appended: string)
      ensures appended == AppendLabel(labels, target)
    {
      var kept := NonEmpty(Split(labels));
      if target !in kept {
        kept := kept + [target];
      }
      appended := Join(kept);
    }

    method ArchiveEmail(id: string, ghost now: nat) returns (status: Status)
      modifies this
      ensures rows == Effect(old(rows), Archive(id), now)
      ensures status == if id in old(rows) then Done else NotFound
      ensures id in old(rows) ==> rows == old(rows)[id := old(rows)[id].(labels := "ARCHIVED", isArchived := true)]
      ensures id !in old(rows) ==> rows == old(rows)
    {
      if id !in rows {
        return NotFound;
      }
      rows := rows[id := rows[id].(labels := "ARCHIVED", isArchived := true)];
      status := Done;
    }

    method StarEmail(id: string, ghost now: nat) returns (status: Status)
      modifies this
      ensures rows == Effect(old(rows), ToggleStar(id), now)
      ensures status == if id in old(rows) then Done else NotFound
      ensures id in old(rows) ==> rows == old(rows)[id := old(rows)[id].(isStarred := !old(rows)[id].isStarred)]
      ensures id !in old(rows) ==> rows == old(rows)
    {
      if id !in rows {
        return NotFound;
      }
      rows := rows[id := rows[id].(isStarred := !rows[id].isStarred)];
      status := Done;
    }

    /** A missing row is not an error. */
    method MarkReadEmail(id: string, read: bool, ghost now: nat) returns (status: Status)
      modifies this
      ensures rows == Effect(old(rows), SetRead(id, read), now)
      ensures status == Done
      ensures id in old(rows) ==> rows == old(rows)[id := old(rows)[id].(isRead := read)]
      ensures id !in old(rows) ==> rows == old(rows)
    {
      if id in rows {
        rows := rows[id := rows[id].(isRead := read)];
      }
      status := Done;
    }

    method EmptyTrashFor(account: Option<string>, ghost now: nat) returns (deleted: nat)
      modifies this
      ensures rows == Effect(old(rows), EmptyTrash(account), now)
      ensures deleted == |old(rows)| - |rows|
      ensures forall id :: id in rows <==>
                id in old(rows) && !(old(rows)[id].state.isTrash && (account == None || account == Some(old(rows)[id].accountId)))
      ensures forall id :: id in rows ==> rows[id] == old(rows)[id]
    {
      var kept := map id | id in rows && !InTrashOf(rows[id], account) :: rows[id];
      assert kept.Keys <= rows.Keys;
      SubsetSize(kept.Keys, rows.Keys);
      deleted := |rows| - |kept|;
      rows := kept;
    }

    /** One tick of the retention task: expired trash first, then expired spam. */
    method Purge(trashDays: nat, spamDays: nat, now: nat)
      modifies this
      ensures rows == Effect(Effect(old(rows), PurgeTrash(trashDays), now), PurgeSpam(spamDays), now)
      ensures rows.Keys == old(rows).Keys - PurgedIds(old(rows), trashDays, spamDays, now)
      ensures forall id :: id in rows ==> rows[id] == old(rows)[id]
    {
      PurgedRows(rows, trashDays, spamDays, now);
      PurgeTrashRows(trashDays, now);
      PurgeSpamRows(spamDays, now);
    }

    method PurgeTrashRows(days: nat, now: nat)
      modifies this
      ensures rows == Effect(old(rows), PurgeTrash(days), now)
    {
      if days > 0 {
        rows := map id | id in rows && !TrashPurgeable(rows[id], now, days) :: rows[id];
      }
    }

    method PurgeSpamRows(days: nat, now: nat)
      modifies this
      ensures rows == Effect(old(rows), PurgeSpam(days), now)
    {
      if days > 0 {
        rows := map id | id in rows && !SpamPurgeable(rows[id], now, days) :: rows[id];
      }
    }
  }

  /** Stamped more than the retention period ago, by date; a period of zero days means never. */
  predicate Overdue(row: Row, days: nat, now: nat) {
    days > 0 && row.deletedAt.Some? && DaysSince(row.deletedAt.value, now) > days
  }

  ghost function PurgedIds(t: Table, trashDays: nat, spamDays: nat, now: nat): set<string> {
    set id | id in t && ((t[id].state.isTrash && Overdue(t[id], trashDays, now)) || (t[id].state.isSpam && Overdue(t[id], spamDays, now)))
  }

  lemma ExpiredIsOverdue(since: nat, now: nat, days: nat)
    ensures Expired(since, now, days) <==> DaysSince(since, now) > days
  {
  }

  lemma PurgedRows(t: Table, trashDays: nat, spamDays: nat, now: nat)
    ensures
      var after := Effect(Effect(t, PurgeTrash(trashDays), now), PurgeSpam(spamDays), now);
      && after.Keys == t.Keys - PurgedIds(t, trashDays, spamDays, now)
      && forall id :: id in after ==> after[id] == t[id]
  {
    var after := Effect(Effect(t, PurgeTrash(trashDays), now), PurgeSpam(spamDays), now);
    forall id | id in t ensures id in after <==> id !in PurgedIds(t, trashDays, spamDays, now) {
      if t[id].deletedAt.Some? {
        ExpiredIsOverdue(t[id].deletedAt.value, now, trashDays);
        ExpiredIsOverdue(t[id].deletedAt.value, now, spamDays);
      }
    }
  }

  // ---- Runs ----

  datatype Step = Step(op: Op, now: nat)

  /** The table after a sequence of writes, whichever client issued each. */
  function After(t: Table, steps: seq<Step>): Table {
    if |steps| == 0 then t
    else Effect(After(t, steps[..|steps| - 1]), steps[|steps| - 1].op, steps[|steps| - 1].now)
  }

  ghost predicate AllCoherent(t: Table) {
    forall id :: id in t ==> Coherent(t[id].state)
  }

  ghost predicate AllWellFormed(steps: seq<Step>) {
    forall i :: 0 <= i < |steps| ==> WellFormed(steps[i].op)
  }

  /** A row after a write is the row before it, or carries a state one of the writers stores. */
  lemma EffectState(t: Table, op: Op, now: nat, id: string)
    requires WellFormed(op) && id in Effect(t, op, now)
    ensures
      var state := Effect(t, op, now)[id].state;
      || (id in t && state == t[id].state)
      || state in {TRASH, SPAM, SENT, DRAFT, INBOX}
  {
  }

  lemma EffectStaysCoherent(t: Table, op: Op, now: nat)
    requires AllCoherent(t) && WellFormed(op)
    ensures AllCoherent(Effect(t, op, now))
  {
    var t' := Effect(t, op, now);
    forall id | id in t' ensures Coherent(t'[id].state) {
      EffectState(t, op, now, id);
    }
  }

  /** In every run of these writers, no row is both trash and spam, and each flag agrees with the folder. */
  lemma {:induction false} RunsStayCoherent(t: Table, steps: seq<Step>)
    requires AllCoherent(t) && AllWellFormed(steps)
    ensures AllCoherent(After(t, steps))
  {
    if |steps| == 0 {
    } else {
      var n := |steps| - 1;
      RunsStayCoherent(t, steps[..n]);
      EffectStaysCoherent(After(t, steps[..n]), steps[n].op, steps[n].now);
    }
  }

  /** Restoring undoes a deletion, and unmarking undoes a spam mark, exactly for messages that were in the
      inbox without a stamp before: sent mail, for one, comes back as inbox mail. */
  lemma UndoReachesInboxOnly(t: Table, id: string, now: nat, later: nat)
    ensures Effect(Effect(t, SoftDelete(id), now), Restore(id), later) == t <==>
            (id in t ==> t[id].state == INBOX && t[id].deletedAt.None?)
    ensures Effect(Effect(t, MarkSpam(id), now), Unspam(id), later) == t <==>
            (id in t ==> t[id].state == INBOX && t[id].deletedAt.None?)
  {
    var deleted := Effect(Effect(t, SoftDelete(id), now), Restore(id), later);
    var marked := Effect(Effect(t, MarkSpam(id), now), Unspam(id), later);
    if id in t {
      assert deleted == t[id := t[id].(state := INBOX, deletedAt := None)];
      assert marked == t[id := t[id].(state := INBOX, deletedAt := None)];
      var row := t[id].(state := INBOX, deletedAt := None);
      assert t[id := row] == t <==> row == t[id];
    }
  }

  /** After a label move the state columns say what the labels column says: at least what it said before. */
  lemma LabelMoveFollowsLabels(t: Table, id: string, target: string, now: nat)
    requires id in t
    ensures
      var row := Effect(t, MoveLabel(id, target), now)[id];
      && row.state == DeriveState(Split(row.labels))
      && row.state == MaxState(DeriveState(Split(t[id].labels)), DeriveState(Split(target)))
  {
    AppendLabelState(t[id].labels, target);
  }

  /** After a folder move they do exactly when the target is not DRAFTS, which is a folder but no label, and
      names no folder with the help of a long s, which labels do not take for an S; and, for a target with
      commas, which is no folder, when none of its pieces is a label with a state. */
  lemma FolderMoveFollowsLabels(t: Table, id: string, target: string, now: nat)
    requires id in t
    ensures
      var row := Effect(t, MoveFolder(id, target), now)[id];
      row.state == DeriveState(Split(row.labels)) <==>
        if CommaFree(target) then !UpperIs(target, "DRAFTS") && (LONG_S in target ==> FolderState(target) == INBOX)
        else DeriveState(Split(target)) == INBOX
  {
    if CommaFree(target) {
      SplitCommaFree(target);
      FolderIsLabel(target);
    } else {
      CommaIsNoFolder(target);
    }
  }

  /** Without a long s, a folder name is read as a label of that name is; with one, it is no label. */
  lemma UpperOrAscii(target: string, name: string)
    requires name in {"TRASH", "SPAM", "SENT", "DRAFT"}
    ensures EqIgnoreAsciiCase(target, name) <==> UpperIs(target, name) && LONG_S !in target
  {
    if UpperIs(target, name) && LONG_S !in target {
      forall i | 0 <= i < |target| ensures UpperAscii(target[i]) == UpperAscii(name[i]) {
        assert target[i] in target;
        assert name[i] != 'I';
      }
    }
    if EqIgnoreAsciiCase(target, name) {
      forall i | 0 <= i < |target| ensures target[i] != LONG_S && UpperUnicode(target[i]) == name[i] {
        assert UpperAscii(target[i]) == UpperAscii(name[i]);
      }
    }
  }

  lemma FolderIsLabel(target: string)
    ensures FolderState(target) == DeriveState([target]) <==>
            !UpperIs(target, "DRAFTS") && (LONG_S in target ==> FolderState(target) == INBOX)
  {
    SingleHas(target, "TRASH");
    SingleHas(target, "SPAM");
    SingleHas(target, "SENT");
    SingleHas(target, "DRAFT");
    UpperOrAscii(target, "TRASH");
    UpperOrAscii(target, "SPAM");
    UpperOrAscii(target, "SENT");
    UpperOrAscii(target, "DRAFT");
    InboxIsNoLabel(target);
  }

  lemma InboxIsNoLabel(target: string)
    ensures UpperIs(target, "INBOX") ==> !UpperIs(target, "TRASH") && !UpperIs(target, "SENT") && !UpperIs(target, "DRAFT")
  {
    if |target| > 0 {
      assert UpperIs(target, "INBOX") ==> UpperUnicode(target[0]) == 'I';
      assert UpperIs(target, "TRASH") ==> UpperUnicode(target[0]) == 'T';
      assert UpperIs(target, "DRAFT") ==> UpperUnicode(target[0]) == 'D';
    }
  }

  /** A folder called by a long s: filed as sent mail, while its label says inbox. */
  lemma LongSentMove(t: Table, id: string, now: nat)
    requires id in t
    ensures
      var row := Effect(t, MoveFolder(id, [LONG_S, 'e', 'n', 't']), now)[id];
      row.state == SENT && DeriveState(Split(row.labels)) == INBOX
  {
    var target := [LONG_S, 'e', 'n', 't'];
    assert UpperIs(target, "SENT");
    assert UpperUnicode(target[1]) != "SPAM"[1];
    assert LONG_S in target;
    SplitCommaFree(target);
    SingleHas(target, "TRASH");
    SingleHas(target, "SPAM");
    SingleHas(target, "SENT");
    SingleHas(target, "DRAFT");
    UpperOrAscii(target, "SENT");
    UpperOrAscii(target, "SPAM");
  }

  lemma CommaIsNoFolder(target: string)
    requires !CommaFree(target)
    ensures FolderState(target) == INBOX
  {
    var i :| 0 <= i < |target| && target[i] == ',';
    assert UpperUnicode(target[i]) == ',';
    forall name | name in {"TRASH", "SPAM", "INBOX", "SENT", "DRAFT", "DRAFTS"} ensures !UpperIs(target, name) {
      assert i < |name| ==> name[i] in name && name[i] != ',';
    }
  }

  /** What two of the rule actions write: single columns, without the others that belong with them. */
  function RuleArchived(row: Row): Row {
    row.(state := row.state.(folder := ArchiveFolder))
  }

  function RuleDeleted(row: Row, now: nat): Row {
    row.(state := State(true, row.state.isSpam, TrashFolder), deletedAt := Some(now))
  }

  /** Archiving by rule writes the folder only and keeps a row coherent exactly when it is neither trash nor
      spam; deleting by rule stamps it and leaves the spam flag, and keeps it coherent exactly when it is not spam. */
  lemma RulesAndCoherence(row: Row, now: nat)
    requires Coherent(row.state)
    ensures RuleArchived(row) == row.(state := State(row.state.isTrash, row.state.isSpam, ArchiveFolder))
    ensures RuleDeleted(row, now) == row.(state := State(true, row.state.isSpam, TrashFolder), deletedAt := Some(now))
    ensures Coherent(RuleArchived(row).state) <==> !row.state.isTrash && !row.state.isSpam
    ensures Coherent(RuleDeleted(row, now).state) <==> !row.state.isSpam
  {
  }

  // ---- Retention ----

  /** The retention task promises to expire what was deleted more than `days` days ago. It compares whole
      days: it is never early, at most a day late, and late exactly while the dates are `days` apart. */
  lemma ExpiryBounds(deletedAt: nat, now: nat, days: nat)
    ensures Expired(deletedAt, now, days) ==> now - deletedAt > days * SECONDS_PER_DAY
    ensures now - deletedAt >= (days + 1) * SECONDS_PER_DAY ==> Expired(deletedAt, now, days)
    ensures now - deletedAt > days * SECONDS_PER_DAY ==>
              (Expired(deletedAt, now, days) <==> now / SECONDS_PER_DAY - deletedAt / SECONDS_PER_DAY != days)
  {
    var d, n := deletedAt / SECONDS_PER_DAY, now / SECONDS_PER_DAY;
    assert d * SECONDS_PER_DAY <= deletedAt < (d + 1) * SECONDS_PER_DAY;
    assert n * SECONDS_PER_DAY <= now < (n + 1) * SECONDS_PER_DAY;
    assert (now - days * SECONDS_PER_DAY) / SECONDS_PER_DAY == n - days;
  }

  /** Deleted at the start of a day: at the end of the thirtieth day after, it is still not expired. */
  lemma ExpiryIsLate(now: nat)
    requires now == 31 * SECONDS_PER_DAY - 1
    ensures now - 0 > 30 * SECONDS_PER_DAY && !Expired(0, now, 30)
  {
  }

  /** Applying the write to the table leaves a deletion stamp on row `id` outside the trash: an upsert keeps
      the stamp and takes the flags from the labels. */
  predicate Untrashes(t: Table, op: Op, id: string) {
    && op.Sync?
    && op.m.id == id
    && id in t
    && t[id].deletedAt.Some?
    && !DeriveState(op.m.labels).isTrash
  }

  predicate StampInTrash(t: Table, id: string) {
    id in t && t[id].deletedAt.Some? ==> t[id].state.isTrash
  }

  /** Exactly the upserts of a stamped row with non-trash labels break the stamp invariant of the row. */
  lemma StampInTrashStep(t: Table, op: Op, now: nat, id: string)
    requires StampInTrash(t, id)
    ensures StampInTrash(Effect(t, op, now), id) <==> !Untrashes(t, op, id)
  {
  }

  /** The message of the last upsert of the row from step `k` on. */
  function LastSync(steps: seq<Step>, id: string, k: nat): Option<Message> {
    if |steps| <= k then None
    else
      var op := steps[|steps| - 1].op;
      if op.Sync? && op.m.id == id then Some(op.m) else LastSync(steps[..|steps| - 1], id, k)
  }

  predicate Deletes(op: Op, id: string) {
    op == SoftDelete(id) || op == RemoteDelete(id)
  }

  /** Step `k` is the last deletion of the row, and the row has carried its stamp ever since. */
  ghost predicate StampedAt(steps: seq<Step>, id: string, k: nat) {
    && k < |steps|
    && Deletes(steps[k].op, id)
    && (forall j :: k < j < |steps| ==> !Deletes(steps[j].op, id))
    && (forall j :: k < j <= |steps| ==> Stamped(After(map[], steps[..j]), id, steps[k].now))
  }

  predicate Stamped(t: Table, id: string, since: nat) {
    id in t && t[id].deletedAt == Some(since)
  }

  /** The row has been in the trash at every moment after step `k`. */
  ghost predicate InTrashSince(steps: seq<Step>, id: string, k: nat) {
    forall j :: k < j <= |steps| ==> TrashedAfter(steps, id, j)
  }

  ghost predicate TrashedAfter(steps: seq<Step>, id: string, j: nat)
    requires j <= |steps|
  {
    id in After(map[], steps[..j]) && After(map[], steps[..j])[id].state.isTrash
  }

  /** No upsert after step `k` untrashed the row. */
  ghost predicate NotUntrashedSince(steps: seq<Step>, id: string, k: nat) {
    forall i :: k < i < |steps| ==> !Untrashes(After(map[], steps[..i]), steps[i].op, id)
  }

  /** A stamped row was either stamped by this very write, or was there with the same stamp before it; its
      state is then that of the write if it upserts the row, and unchanged if not. */
  lemma StampOrigin(t: Table, op: Op, now: nat, id: string)
    requires id in Effect(t, op, now) && Effect(t, op, now)[id].deletedAt.Some?
    ensures
      var row := Effect(t, op, now)[id];
      if Deletes(op, id) then row.deletedAt == Some(now) && row.state == TRASH
      else id in t && t[id].deletedAt == row.deletedAt &&
           row.state == if op.Sync? && op.m.id == id then DeriveState(op.m.labels) else t[id].state
  {
    var t' := Effect(t, op, now);
    assert t'[id].deletedAt.Some?;
  }

  /** Every stamp comes from a deletion, and the row's state since is that of the last upsert after it. */
  lemma {:induction false} StampedSince(steps: seq<Step>, id: string) returns (k: nat)
    requires id in After(map[], steps) && After(map[], steps)[id].deletedAt.Some?
    ensures StampedAt(steps, id, k) && After(map[], steps)[id].deletedAt == Some(steps[k].now)
    ensures After(map[], steps)[id].state ==
            match LastSync(steps, id, k + 1) case None => TRASH case Some(m) => DeriveState(m.labels)
  {
    var n := |steps| - 1;
    var front, last := steps[..n], steps[n];
    var t, t' := After(map[], front), After(map[], steps);
    assert steps[..|steps|] == steps;
    StampOrigin(t, last.op, last.now, id);
    if Deletes(last.op, id) {
      k := n;
    } else {
      k := StampedSince(front, id);
      forall j | k < j <= |steps| ensures Stamped(After(map[], steps[..j]), id, steps[k].now) {
        if j <= n {
          assert front[..j] == steps[..j];
          assert Stamped(After(map[], front[..j]), id, front[k].now);
        }
      }
    }
  }

  /** From its deletion on, a stamped row stays in the trash exactly as long as no upsert untrashes it. */
  lemma {:induction false} TrashedUnlessUntrashed(steps: seq<Step>, id: string, k: nat)
    requires StampedAt(steps, id, k)
    ensures InTrashSince(steps, id, k) <==> NotUntrashedSince(steps, id, k)
  {
    if InTrashSince(steps, id, k) {
      forall i | k < i < |steps| ensures !Untrashes(After(map[], steps[..i]), steps[i].op, id) {
        assert TrashedAfter(steps, id, i + 1);
        assert steps[..i + 1][..i] == steps[..i];
      }
    }
    if NotUntrashedSince(steps, id, k) {
      forall j | k < j <= |steps| ensures TrashedAfter(steps, id, j) {
        StaysTrashed(steps, id, k, j);
      }
    }
  }

  lemma {:induction false} StaysTrashed(steps: seq<Step>, id: string, k: nat, j: nat)
    requires StampedAt(steps, id, k) && NotUntrashedSince(steps, id, k)
    requires k < j <= |steps|
    ensures TrashedAfter(steps, id, j)
    decreases j
  {
    var i := j - 1;
    assert steps[..j][..i] == steps[..i];
    assert Stamped(After(map[], steps[..j]), id, steps[k].now);
    if i == k {
    } else {
      StaysTrashed(steps, id, k, i);
      assert Stamped(After(map[], steps[..i]), id, steps[k].now);
      StampInTrashStep(After(map[], steps[..i]), steps[i].op, steps[i].now, id);
    }
  }

  /** Whatever the trash purge removes was deleted longer ago than the retention period and has carried the
      stamp of that deletion ever since; it has been in the trash ever since exactly if no upsert of this
      message untrashed it meanwhile. */
  lemma PurgedWasLongInTrash(steps: seq<Step>, days: nat, now: nat, id: string) returns (k: nat)
    requires id in After(map[], steps) && id !in Effect(After(map[], steps), PurgeTrash(days), now)
    ensures StampedAt(steps, id, k) && now - steps[k].now > days * SECONDS_PER_DAY
    ensures InTrashSince(steps, id, k) <==> NotUntrashedSince(steps, id, k)
  {
    k := StampedSince(steps, id);
    ExpiryBounds(steps[k].now, now, days);
    TrashedUnlessUntrashed(steps, id, k);
  }

  /** A deletion whose stamp expired, followed by upserts of which the last saw the message as spam. */
  ghost predicate DeletedThenSeenAsSpam(steps: seq<Step>, id: string, days: nat, now: nat) {
    exists k :: 0 <= k < |steps| && ExpiredSpam(steps, id, days, now, k)
  }

  ghost predicate ExpiredSpam(steps: seq<Step>, id: string, days: nat, now: nat, k: nat)
    requires k < |steps|
  {
    && StampedAt(steps, id, k)
    && Expired(steps[k].now, now, days)
    && LastSync(steps, id, k + 1).Some?
    && DeriveState(LastSync(steps, id, k + 1).value.labels) == SPAM
  }

  /** Marking a message as spam leaves no stamp, so the spam purge removes exactly the messages that were
      deleted and then, by a sync, seen as spam. */
  lemma SpamPurgeExactly(steps: seq<Step>, days: nat, now: nat, id: string)
    requires days > 0 && id in After(map[], steps)
    ensures id !in Effect(After(map[], steps), PurgeSpam(days), now) <==> DeletedThenSeenAsSpam(steps, id, days, now)
  {
    var t := After(map[], steps);
    forall k | 0 <= k < |steps| && StampedAt(steps, id, k) ensures Stamped(t, id, steps[k].now) {
      assert steps[..|steps|] == steps;
    }
    if t[id].deletedAt.Some? {
      var k := StampedSince(steps, id);
      assert SpamPurgeable(t[id], now, days) ==> ExpiredSpam(steps, id, days, now, k);
      assert forall k' :: 0 <= k' < |steps| && StampedAt(steps, id, k') ==> k' == k;
    }
  }

  lemma AfterNext(t: Table, steps: seq<Step>, next: Step)
    ensures After(t, steps + [next]) == Effect(After(t, steps), next.op, next.now)
  {
    assert (steps + [next])[..|steps|] == steps;
  }

  /** A message is stored, then deleted here. */
  function StoredAndDeleted(account: string, provider: string, m: Message): seq<Step> {
    [Step(Sync(account, provider, m), 0)] + [Step(SoftDelete(m.id), 0)]
  }

  lemma DeletedRow(account: string, provider: string, m: Message)
    ensures
      var t := After(map[], StoredAndDeleted(account, provider, m));
      m.id in t && t[m.id].deletedAt == Some(0) && t[m.id].state == TRASH
  {
    var first := Step(Sync(account, provider, m), 0);
    AfterNext(map[], [], first);
    assert [] + [first] == [first];
    AfterNext(map[], [first], Step(SoftDelete(m.id), 0));
  }

  /** Deleted here long ago, then seen as spam by a sync: the spam purge takes it the moment after. */
  lemma ReSyncedSpamIsPurgedAtOnce(account: string, provider: string, m: Message, now: nat)
    requires m.labels == ["SPAM"] && now >= 31 * SECONDS_PER_DAY
    ensures
      var t := After(map[], StoredAndDeleted(account, provider, m) + [Step(Sync(account, provider, m), now)]);
      m.id in t && m.id !in Effect(t, PurgeSpam(30), now)
  {
    DeletedRow(account, provider, m);
    AfterNext(map[], StoredAndDeleted(account, provider, m), Step(Sync(account, provider, m), now));
    SingleHas("SPAM", "TRASH");
    SingleHas("SPAM", "SPAM");
    ExpiryBounds(0, now, 30);
  }

  /** Deleted here long ago, back in the inbox by a sync, and trashed on the provider just now: the trash
      purge takes it the moment after, by the stamp of the first deletion. */
  lemma ReTrashedIsPurgedAtOnce(account: string, provider: string, m: Message, now: nat)
    requires m.labels == [] && now >= 31 * SECONDS_PER_DAY
    ensures
      var back := StoredAndDeleted(account, provider, m) + [Step(Sync(account, provider, m), now)];
      var again := back + [Step(Sync(account, provider, m.(labels := ["TRASH"])), now)];
      var t := After(map[], back);
      && m.id in t && t[m.id].state == INBOX
      && m.id in After(map[], again)
      && m.id !in Effect(After(map[], again), PurgeTrash(30), now)
  {
    var back := StoredAndDeleted(account, provider, m) + [Step(Sync(account, provider, m), now)];
    DeletedRow(account, provider, m);
    AfterNext(map[], StoredAndDeleted(account, provider, m), Step(Sync(account, provider, m), now));
    AfterNext(map[], back, Step(Sync(account, provider, m.(labels := ["TRASH"])), now));
    SingleHas("TRASH", "TRASH");
    ExpiryBounds(0, now, 30);
  }
}
