/** Histories that incremental sync gets wrong, as runs of the sync: what the mailbox went through, the
    records that report it, and the row it leaves. */
module UnsafeWindows {
  import opened Option
  import opened Labels
  import opened EmailRows
  import opened History
  import opened DeltaSync
  import opened GmailLabels
  import opened Refinement

  // ---- Any events can be reported ----

  function RecordOf(e: Event): Record {
    match e
    case Arrive(m) => Record([m.id], [], [], [])
    case Vanish(id) => Record([], [id], [], [])
    case Label(id, labels) => Record([], [], [LabelChange(id, labels)], [])
    case Unlabel(id, labels) => Record([], [], [], [LabelChange(id, labels)])
  }

  /** One history record for each event. */
  function RecordsOf(events: seq<Event>): seq<Record> {
    if |events| == 0 then [] else RecordsOf(events[..|events| - 1]) + [RecordOf(events[|events| - 1])]
  }

  lemma LabelsForOne(c: LabelChange, id: string)
    ensures LabelsFor([c], id) == if c.messageId == id then c.labels else []
    ensures LabelsFor([], id) == []
    ensures Mentions([c], id) <==> c.messageId == id
    ensures !Mentions([], id)
  {
    FlatMapOne(c, LabelsIfFor(id));
    assert [c][0] == c;
  }

  /** What the last record adds to what the others say. */
  lemma LastRecord(records: seq<Record>, last: Record, id: string)
    ensures AddedIds(records + [last]) == AddedIds(records) + last.added
    ensures DeletedIds(records + [last]) == DeletedIds(records) + last.deleted
    ensures AddedLabels(records + [last], id) == AddedLabels(records, id) + LabelsFor(last.labelsAdded, id)
    ensures RemovedLabels(records + [last], id) == RemovedLabels(records, id) + LabelsFor(last.labelsRemoved, id)
    ensures Relabelled(records + [last], id) <==>
            Relabelled(records, id) || Mentions(last.labelsAdded, id) || Mentions(last.labelsRemoved, id)
  {
    var all := records + [last];
    assert all[..|records|] == records && all[|records|] == last;
    RelabelledStep(all, id);
  }

  lemma EventsStep(events: seq<Event>, e: Event, id: string)
    ensures Arrives(events + [e], id) <==> Arrives(events, id) || (e.Arrive? && e.m.id == id)
    ensures Vanishes(events + [e], id) <==> Vanishes(events, id) || e == Vanish(id)
    ensures Relabels(events + [e], id) <==> Relabels(events, id) || ((e.Label? || e.Unlabel?) && e.messageId == id)
  {
    var all := events + [e];
    assert all[|events|] == e && forall i :: 0 <= i < |events| ==> all[i] == events[i];
  }

  lemma EventLabelsStep(events: seq<Event>, e: Event, id: string, l: string)
    ensures AddsLabel(events + [e], id, l) <==> AddsLabel(events, id, l) || (e.Label? && e.messageId == id && l in e.labels)
    ensures RemovesLabel(events + [e], id, l) <==>
            RemovesLabel(events, id, l) || (e.Unlabel? && e.messageId == id && l in e.labels)
  {
    var all := events + [e];
    assert all[|events|] == e && forall i :: 0 <= i < |events| ==> all[i] == events[i];
  }

  lemma {:induction false} EventIds(events: seq<Event>, id: string)
    ensures id in AddedIds(RecordsOf(events)) <==> Arrives(events, id)
    ensures id in DeletedIds(RecordsOf(events)) <==> Vanishes(events, id)
    ensures Relabelled(RecordsOf(events), id) <==> Relabels(events, id)
  {
    if |events| == 0 {
    } else {
      var front, last := events[..|events| - 1], events[|events| - 1];
      assert events == front + [last];
      EventIds(front, id);
      LastRecord(RecordsOf(front), RecordOf(last), id);
      EventsStep(front, last, id);
      if last.Label? || last.Unlabel? {
        LabelsForOne(LabelChange(last.messageId, last.labels), id);
      }
    }
  }

  lemma {:induction false} EventLabels(events: seq<Event>, id: string, l: string)
    ensures l in AddedLabels(RecordsOf(events), id) <==> AddsLabel(events, id, l)
    ensures l in RemovedLabels(RecordsOf(events), id) <==> RemovesLabel(events, id, l)
  {
    if |events| == 0 {
    } else {
      var front, last := events[..|events| - 1], events[|events| - 1];
      assert events == front + [last];
      EventLabels(front, id, l);
      LastRecord(RecordsOf(front), RecordOf(last), id);
      EventLabelsStep(front, last, id, l);
      assert LabelsFor([], id) == [];
      if last.Label? || last.Unlabel? {
        LabelsForOne(LabelChange(last.messageId, last.labels), id);
      }
    }
  }

  /** Every sequence of events has a report: one record for each. */
  lemma EventByEvent(events: seq<Event>, id: string)
    ensures ReportsFor(RecordsOf(events), events, id)
  {
    EventIds(events, id);
    forall l {
      EventLabels(events, id, l);
    }
  }

  lemma Reported(events: seq<Event>)
    ensures Reports(RecordsOf(events), events)
  {
    forall id {
      EventByEvent(events, id);
    }
  }

  // ---- Windows of one message ----

  function Holding(m: Message, labels: seq<string>): Mailbox {
    map[m.id := m.(labels := labels)]
  }

  lemma SystemLabels()
    ensures Has(["TRASH"], "TRASH") && !Has(["TRASH"], "SPAM") && !Has(["TRASH"], "SENT") && !Has(["TRASH"], "DRAFT")
    ensures Has(["SPAM"], "SPAM") && !Has(["SPAM"], "TRASH")
    ensures Has(["SENT"], "SENT") && !Has(["SENT"], "SPAM") && !Has(["SENT"], "TRASH")
    ensures !Has([], "TRASH") && !Has([], "SPAM") && !Has([], "SENT") && !Has([], "DRAFT")
  {
    OneLabelState("TRASH");
    OneLabelState("SPAM");
    OneLabelState("SENT");
    SingleHas("TRASH", "TRASH");
    SingleHas("TRASH", "SPAM");
    SingleHas("TRASH", "SENT");
    SingleHas("TRASH", "DRAFT");
    SingleHas("SPAM", "SPAM");
    SingleHas("SPAM", "TRASH");
    SingleHas("SENT", "SENT");
    SingleHas("SENT", "SPAM");
    SingleHas("SENT", "TRASH");
  }

  lemma Relabelling(m: Message, before: seq<string>, e: Event, after: seq<string>)
    requires (e.Label? || e.Unlabel?) && e.messageId == m.id
    requires forall name :: name in {"TRASH", "SPAM"} ==>
               (Has(after, name) <==> if e.Label? then Has(before, name) || Has(e.labels, name)
                                      else Has(before, name) && !Has(e.labels, name))
    ensures Evolves(Holding(m, before), e, Holding(m, after))
  {
  }

  lemma WindowOfTwo(b0: Mailbox, b1: Mailbox, b2: Mailbox, e0: Event, e1: Event)
    requires KeyedById(b0) && Evolves(b0, e0, b1) && Evolves(b1, e1, b2)
    ensures Setting([b0, b1, b2], [e0, e1], RecordsOf([e0, e1]))
  {
    Reported([e0, e1]);
  }

  predicate LabelsOn(e: Event, id: string, name: string) {
    e.Label? && e.messageId == id && Has(e.labels, name)
  }

  predicate UnlabelsOn(e: Event, id: string, name: string) {
    e.Unlabel? && e.messageId == id && Has(e.labels, name)
  }

  lemma TwoEvents(e0: Event, e1: Event, id: string, name: string)
    ensures Adds([e0, e1], id, name) <==> LabelsOn(e0, id, name) || LabelsOn(e1, id, name)
    ensures Removes([e0, e1], id, name) <==> UnlabelsOn(e0, id, name) || UnlabelsOn(e1, id, name)
    ensures e0.Subject() == id ==> Touches([e0, e1], id)
  {
    var events := [e0, e1];
    assert events[0] == e0 && events[1] == e1;
  }

  lemma OneEvent(e: Event, id: string, name: string)
    ensures Adds([e], id, name) <==> LabelsOn(e, id, name)
    ensures Removes([e], id, name) <==> UnlabelsOn(e, id, name)
    ensures e.Subject() == id ==> Touches([e], id)
  {
    assert [e][0] == e;
  }

  /** The state of the message's row after applying the reported window. */
  ghost predicate EndsAs(t: Table, account: string, provider: string, boxes: seq<Mailbox>, events: seq<Event>, now: nat,
                         id: string, state: State)
    requires |boxes| > 0
  {
    var row := RowAfterWindow(t, account, provider, RecordsOf(events), Fetched(boxes[|boxes| - 1]), now, id);
    row.Some? && row.value.state == state
  }

  /** The state a fresh listing gives a message with these labels. */
  function ListedState(account: string, provider: string, names: map<string, string>, m: Message, labels: seq<string>): State {
    FreshRow(account, provider, m.(labels := labels), names).state
  }

  lemma ListedStateDerived(account: string, provider: string, names: map<string, string>, m: Message, labels: seq<string>)
    requires HonestNames(names)
    ensures ListedState(account, provider, names, m, labels) == DeriveState(labels)
  {
    HonestNamesAgree(m.(labels := labels), names);
    FetchedLabels(m.(labels := labels));
  }

  // ---- The failing histories ----

  /** Trashed and restored within one window: trash here, inbox mail in a fresh listing. */
  lemma TrashRoundTripFails(t: Table, account: string, provider: string, names: map<string, string>, m: Message, now: nat)
    requires HonestNames(names)
    ensures
      var boxes := [Holding(m, []), Holding(m, ["TRASH"]), Holding(m, [])];
      var events := [Label(m.id, ["TRASH"]), Unlabel(m.id, ["TRASH"])];
      && Setting(boxes, events, RecordsOf(events))
      && EndsAs(t, account, provider, boxes, events, now, m.id, TRASH)
      && ListedState(account, provider, names, m, []) == INBOX
  {
    var b0, b1, e0, e1 := Holding(m, []), Holding(m, ["TRASH"]), Label(m.id, ["TRASH"]), Unlabel(m.id, ["TRASH"]);
    SystemLabels();
    Relabelling(m, [], e0, ["TRASH"]);
    Relabelling(m, ["TRASH"], e1, []);
    WindowOfTwo(b0, b1, b0, e0, e1);
    TwoEvents(e0, e1, m.id, "TRASH");
    TwoEvents(e0, e1, m.id, "SPAM");
    TouchedRow(t, account, provider, [b0, b1, b0], [e0, e1], RecordsOf([e0, e1]), now, m.id);
    ListedStateDerived(account, provider, names, m, []);
  }

  /** Moved from spam to trash within one window: inbox mail here, trash in a fresh listing. */
  lemma SpamToTrashFails(t: Table, account: string, provider: string, names: map<string, string>, m: Message, now: nat)
    requires HonestNames(names)
    ensures
      var boxes := [Holding(m, ["SPAM"]), Holding(m, []), Holding(m, ["TRASH"])];
      var events := [Unlabel(m.id, ["SPAM"]), Label(m.id, ["TRASH"])];
      && Setting(boxes, events, RecordsOf(events))
      && EndsAs(t, account, provider, boxes, events, now, m.id, INBOX)
      && ListedState(account, provider, names, m, ["TRASH"]) == TRASH
  {
    var b0, b1, b2 := Holding(m, ["SPAM"]), Holding(m, []), Holding(m, ["TRASH"]);
    var e0, e1 := Unlabel(m.id, ["SPAM"]), Label(m.id, ["TRASH"]);
    SystemLabels();
    Relabelling(m, ["SPAM"], e0, []);
    Relabelling(m, [], e1, ["TRASH"]);
    WindowOfTwo(b0, b1, b2, e0, e1);
    TwoEvents(e0, e1, m.id, "TRASH");
    TwoEvents(e0, e1, m.id, "SPAM");
    TouchedRow(t, account, provider, [b0, b1, b2], [e0, e1], RecordsOf([e0, e1]), now, m.id);
    ListedStateDerived(account, provider, names, m, ["TRASH"]);
  }

  /** Sent mail taken out of the trash: the flags are right, but it is filed in the inbox. */
  lemma RestoredSentMailIsMisfiled(t: Table, account: string, provider: string, names: map<string, string>, m: Message, now: nat)
    requires HonestNames(names)
    ensures
      var boxes := [Holding(m, ["SENT", "TRASH"]), Holding(m, ["SENT"])];
      var events := [Unlabel(m.id, ["TRASH"])];
      && Setting(boxes, events, RecordsOf(events))
      && EndsAs(t, account, provider, boxes, events, now, m.id, INBOX)
      && ListedState(account, provider, names, m, ["SENT"]) == SENT
  {
    var b0, b1, e := Holding(m, ["SENT", "TRASH"]), Holding(m, ["SENT"]), Unlabel(m.id, ["TRASH"]);
    RestoredSentMail(m, e);
    OneEvent(e, m.id, "TRASH");
    OneEvent(e, m.id, "SPAM");
    SystemLabels();
    TouchedRow(t, account, provider, [b0, b1], [e], RecordsOf([e]), now, m.id);
    ListedStateDerived(account, provider, names, m, ["SENT"]);
    OneLabelState("SENT");
  }

  lemma RestoredSentMail(m: Message, e: Event)
    requires e == Unlabel(m.id, ["TRASH"])
    ensures Setting([Holding(m, ["SENT", "TRASH"]), Holding(m, ["SENT"])], [e], RecordsOf([e]))
  {
    SystemLabels();
    assert ["SENT", "TRASH"] == ["SENT"] + ["TRASH"];
    HasConcat(["SENT"], ["TRASH"], "TRASH");
    HasConcat(["SENT"], ["TRASH"], "SPAM");
    Relabelling(m, ["SENT", "TRASH"], e, ["SENT"]);
    Reported([e]);
  }

  /** Trashed, then deleted for good within one window: the row ends in the trash without a deletion
      stamp, and the purge takes stamped rows only. */
  lemma TrashedThenDeletedHasNoStamp(t: Table, account: string, provider: string, m: Message, now: nat)
    requires m.id in t
    ensures
      var boxes := [Holding(m, []), Holding(m, ["TRASH"]), map[]];
      var events := [Label(m.id, ["TRASH"]), Vanish(m.id)];
      var row := RowAfterWindow(t, account, provider, RecordsOf(events), Fetched(boxes[2]), now, m.id);
      && Setting(boxes, events, RecordsOf(events))
      && row == Some(t[m.id].(state := TRASH, deletedAt := None))
  {
    var b0, b1, b2: Mailbox := Holding(m, []), Holding(m, ["TRASH"]), map[];
    var e0, e1 := Label(m.id, ["TRASH"]), Vanish(m.id);
    SystemLabels();
    Relabelling(m, [], e0, ["TRASH"]);
    assert b1 - {m.id} == b2;
    WindowOfTwo(b0, b1, b2, e0, e1);
    TwoEvents(e0, e1, m.id, "TRASH");
    TwoEvents(e0, e1, m.id, "SPAM");
    ReportedLabels(RecordsOf([e0, e1]), [e0, e1], m.id, "TRASH");
    ReportedLabels(RecordsOf([e0, e1]), [e0, e1], m.id, "SPAM");
    RowFromReading(t, account, provider, RecordsOf([e0, e1]), Fetched(b2), now, m.id);
  }
}
