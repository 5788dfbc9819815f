/** Incremental against full synchronisation. A provider evolves through a window of events; the window
    is reported as history records. When does applying the window leave a row in step with a fresh listing
    of the mailbox after it? Mailboxes hold messages with their raw label ids. */
module Refinement {
  import opened Option
  import opened Labels
  import opened EmailRows
  import opened History
  import opened DeltaSync
  import opened GmailLabels
  import opened MailSync

  // ---- The provider ----

  datatype Event =
    | Arrive(m: Message)
    | Vanish(messageId: string)
    | Label(messageId: string, labels: seq<string>)
    | Unlabel(messageId: string, labels: seq<string>)
  {
    function Subject(): string {
      if Arrive? then m.id else messageId
    }
  }

  /** Adding labels makes a message carry them; removing makes it carry them no more; TRASH and SPAM only
      change that way. What else about the message changes is left open. */
  ghost predicate LabelStep(before: Message, e: Event, after: Message)
    requires e.Label? || e.Unlabel?
  {
    && after.id == before.id
    && forall name :: name in {"TRASH", "SPAM"} ==>
         (Has(after.labels, name) <==>
          if e.Label? then Has(before.labels, name) || Has(e.labels, name)
          else Has(before.labels, name) && !Has(e.labels, name))
  }

  ghost predicate Evolves(before: Mailbox, e: Event, after: Mailbox) {
    match e
    case Arrive(m) => after == before[m.id := m]
    case Vanish(id) => after == before - {id}
    case Label(id, _) => id in before && id in after && LabelStep(before[id], e, after[id]) && after == before[id := after[id]]
    case Unlabel(id, _) => id in before && id in after && LabelStep(before[id], e, after[id]) && after == before[id := after[id]]
  }

  /** `boxes` are the mailbox states before, between and after the events. */
  ghost predicate IsWindow(boxes: seq<Mailbox>, events: seq<Event>) {
    && |boxes| == |events| + 1
    && KeyedById(boxes[0])
    && forall i :: 0 <= i < |events| ==> Evolves(boxes[i], events[i], boxes[i + 1])
  }

  /** A label event of the window on this message that names this label, up to letter case. */
  ghost predicate Adds(events: seq<Event>, id: string, name: string) {
    exists i :: 0 <= i < |events| && events[i].Label? && events[i].messageId == id && Has(events[i].labels, name)
  }

  ghost predicate Removes(events: seq<Event>, id: string, name: string) {
    exists i :: 0 <= i < |events| && events[i].Unlabel? && events[i].messageId == id && Has(events[i].labels, name)
  }

  ghost predicate Touches(events: seq<Event>, id: string) {
    exists i :: 0 <= i < |events| && events[i].Subject() == id
  }

  ghost predicate Vanishes(events: seq<Event>, id: string) {
    Vanish(id) in events
  }

  ghost predicate Arrives(events: seq<Event>, id: string) {
    exists i :: 0 <= i < |events| && events[i].Arrive? && events[i].m.id == id
  }

  ghost predicate Relabels(events: seq<Event>, id: string) {
    exists i :: 0 <= i < |events| && (events[i].Label? || events[i].Unlabel?) && events[i].messageId == id
  }

  /** The window adds this very label to the message. */
  ghost predicate AddsLabel(events: seq<Event>, id: string, l: string) {
    exists i :: 0 <= i < |events| && events[i].Label? && events[i].messageId == id && l in events[i].labels
  }

  ghost predicate RemovesLabel(events: seq<Event>, id: string, l: string) {
    exists i :: 0 <= i < |events| && events[i].Unlabel? && events[i].messageId == id && l in events[i].labels
  }

  /** The history records report exactly these events; how they are grouped and ordered is left open. */
  ghost predicate Reports(records: seq<Record>, events: seq<Event>) {
    forall id :: ReportsFor(records, events, id)
  }

  ghost predicate ReportsFor(records: seq<Record>, events: seq<Event>, id: string) {
    && (id in AddedIds(records) <==> Arrives(events, id))
    && (id in DeletedIds(records) <==> Vanishes(events, id))
    && (Relabelled(records, id) <==> Relabels(events, id))
    && (forall l :: l in AddedLabels(records, id) <==> AddsLabel(events, id, l))
    && (forall l :: l in RemovedLabels(records, id) <==> RemovesLabel(events, id, l))
  }

  // ---- The local table ----

  /** The row a fresh full listing would insert for the message. */
  function FreshRow(account: string, provider: string, m: Message, names: map<string, string>): Row {
    Inserted(account, provider, Parsed(m, names))
  }

  predicate SameFlags(a: Row, b: Row) {
    && a.state.isTrash == b.state.isTrash
    && a.state.isSpam == b.state.isSpam
    && a.isRead == b.isRead
    && a.isStarred == b.isStarred
  }

  /** The row has the flags a fresh listing would give the message. */
  predicate FlagsOf(row: Option<Row>, account: string, provider: string, m: Message, names: map<string, string>) {
    row.Some? && SameFlags(row.value, FreshRow(account, provider, m, names))
  }

  /** Not only the flags, but also the folder. */
  predicate StateOf(row: Option<Row>, account: string, provider: string, m: Message, names: map<string, string>) {
    row.Some? && row.value.state == FreshRow(account, provider, m, names).state
  }

  /** Every message of the mailbox has a row in step with it. */
  ghost predicate InStep(t: Table, account: string, provider: string, names: map<string, string>, box: Mailbox) {
    forall id :: InStepAt(t, account, provider, names, box, id)
  }

  predicate InStepAt(t: Table, account: string, provider: string, names: map<string, string>, box: Mailbox, id: string) {
    id in box ==> FlagsOf(Lookup(t, id), account, provider, box[id], names)
  }

  predicate SameStateFlags(a: State, b: State) {
    a.isTrash == b.isTrash && a.isSpam == b.isSpam
  }

  // ---- What the window reports and what it does ----

  lemma ReportedAdded(records: seq<Record>, events: seq<Event>, id: string, name: string)
    requires ReportsFor(records, events, id)
    ensures Has(AddedLabels(records, id), name) <==> Adds(events, id, name)
  {
    var added := AddedLabels(records, id);
    if Has(added, name) {
      var k :| 0 <= k < |added| && EqIgnoreAsciiCase(added[k], name);
      assert added[k] in added;
      var i :| 0 <= i < |events| && events[i].Label? && events[i].messageId == id && added[k] in events[i].labels;
      var j :| 0 <= j < |events[i].labels| && events[i].labels[j] == added[k];
      assert Has(events[i].labels, name);
    }
    if Adds(events, id, name) {
      var i :| 0 <= i < |events| && events[i].Label? && events[i].messageId == id && Has(events[i].labels, name);
      var j :| 0 <= j < |events[i].labels| && EqIgnoreAsciiCase(events[i].labels[j], name);
      var l := events[i].labels[j];
      assert l in events[i].labels && l in added;
      var k :| 0 <= k < |added| && added[k] == l;
      assert EqIgnoreAsciiCase(added[k], name);
    }
  }

  lemma ReportedRemoved(records: seq<Record>, events: seq<Event>, id: string, name: string)
    requires ReportsFor(records, events, id)
    ensures Has(RemovedLabels(records, id), name) <==> Removes(events, id, name)
  {
    var removed := RemovedLabels(records, id);
    if Has(removed, name) {
      var k :| 0 <= k < |removed| && EqIgnoreAsciiCase(removed[k], name);
      assert removed[k] in removed;
      var i :| 0 <= i < |events| && events[i].Unlabel? && events[i].messageId == id && removed[k] in events[i].labels;
      var j :| 0 <= j < |events[i].labels| && events[i].labels[j] == removed[k];
      assert Has(events[i].labels, name);
    }
    if Removes(events, id, name) {
      var i :| 0 <= i < |events| && events[i].Unlabel? && events[i].messageId == id && Has(events[i].labels, name);
      var j :| 0 <= j < |events[i].labels| && EqIgnoreAsciiCase(events[i].labels[j], name);
      var l := events[i].labels[j];
      assert l in events[i].labels && l in removed;
      var k :| 0 <= k < |removed| && removed[k] == l;
      assert EqIgnoreAsciiCase(removed[k], name);
    }
  }

  lemma ReportedLabels(records: seq<Record>, events: seq<Event>, id: string, name: string)
    requires Reports(records, events)
    ensures Has(AddedLabels(records, id), name) <==> Adds(events, id, name)
    ensures Has(RemovedLabels(records, id), name) <==> Removes(events, id, name)
  {
    assert ReportsFor(records, events, id);
    ReportedAdded(records, events, id, name);
    ReportedRemoved(records, events, id, name);
  }

  /** A message no event names is the same before and after the window. */
  lemma {:induction false} UntouchedStays(boxes: seq<Mailbox>, events: seq<Event>, id: string)
    requires IsWindow(boxes, events) && !Touches(events, id)
    ensures id in boxes[0] <==> id in boxes[|events|]
    ensures id in boxes[0] ==> boxes[0][id] == boxes[|events|][id]
  {
    if |events| == 0 {
    } else {
      var n := |events| - 1;
      assert events[n].Subject() != id;
      forall i | 0 <= i < n ensures events[..n][i].Subject() != id {
        assert events[..n][i] == events[i];
      }
      UntouchedStays(boxes[..|events|], events[..n], id);
      assert Evolves(boxes[n], events[n], boxes[n + 1]);
    }
  }

  lemma {:induction false} WindowKeyed(boxes: seq<Mailbox>, events: seq<Event>)
    requires IsWindow(boxes, events)
    ensures KeyedById(boxes[|events|])
  {
    if |events| == 0 {
    } else {
      var n := |events| - 1;
      WindowKeyed(boxes[..|events|], events[..n]);
      assert Evolves(boxes[n], events[n], boxes[n + 1]);
    }
  }

  // ---- Replaying the window for one message ----

  datatype Carries = Carries(trash: bool, spam: bool)

  function CarriedBy(m: Message): Carries {
    Carries(Has(m.labels, "TRASH"), Has(m.labels, "SPAM"))
  }

  function ReplayStep(before: Option<Carries>, e: Event, id: string): Option<Carries> {
    if e.Subject() != id then before
    else match e
      case Arrive(m) => Some(CarriedBy(m))
      case Vanish(_) => None
      case Label(_, labels) =>
        if before.None? then None
        else Some(Carries(before.value.trash || Has(labels, "TRASH"), before.value.spam || Has(labels, "SPAM")))
      case Unlabel(_, labels) =>
        if before.None? then None
        else Some(Carries(before.value.trash && !Has(labels, "TRASH"), before.value.spam && !Has(labels, "SPAM")))
  }

  /** Which of the two labels the message carries after the events, from what it carried before them. */
  function Replay(events: seq<Event>, id: string, start: Option<Carries>): Option<Carries> {
    if |events| == 0 then start
    else ReplayStep(Replay(events[..|events| - 1], id, start), events[|events| - 1], id)
  }

  function CarriedIn(box: Mailbox, id: string): Option<Carries> {
    if id in box then Some(CarriedBy(box[id])) else None
  }

  lemma {:induction false} ReplayTracksMailbox(boxes: seq<Mailbox>, events: seq<Event>, id: string)
    requires IsWindow(boxes, events)
    ensures Replay(events, id, CarriedIn(boxes[0], id)) == CarriedIn(boxes[|events|], id)
  {
    if |events| == 0 {
    } else {
      var n := |events| - 1;
      ReplayTracksMailbox(boxes[..|events|], events[..n], id);
      assert Evolves(boxes[n], events[n], boxes[n + 1]);
      if events[n].Label? || events[n].Unlabel? {
        var touched := events[n].messageId;
        assert LabelStep(boxes[n][touched], events[n], boxes[n + 1][touched]);
        assert "TRASH" in {"TRASH", "SPAM"} && "SPAM" in {"TRASH", "SPAM"};
      }
    }
  }

  /** When applying the window may be trusted for a message: the guard of each branch of the label loop
      against what the message carries at the end of the replayed window. */
  ghost predicate ReplaySafe(events: seq<Event>, id: string, end: Carries) {
    if Adds(events, id, "SPAM") then end.spam && !end.trash
    else if Removes(events, id, "SPAM") then !end.spam && !end.trash
    else if Adds(events, id, "TRASH") then end.trash
    else if Removes(events, id, "TRASH") then !end.trash && !end.spam
    else Vanishes(events, id) ==> end.trash
  }

  /** The state the delta apply leaves on a message the provider still has, whose labels derive `derived`. */
  ghost function WindowState(events: seq<Event>, id: string, derived: State): State {
    if Adds(events, id, "SPAM") then SPAM
    else if Removes(events, id, "SPAM") then INBOX
    else if Adds(events, id, "TRASH") then TRASH
    else if Removes(events, id, "TRASH") then INBOX
    else if Vanishes(events, id) then TRASH
    else derived
  }

  /** The window is one reported page, and nothing changes while it is applied. */
  ghost predicate Setting(boxes: seq<Mailbox>, events: seq<Event>, records: seq<Record>) {
    IsWindow(boxes, events) && Reports(records, events)
  }

  lemma TouchedIsFetched(records: seq<Record>, events: seq<Event>, id: string)
    requires Reports(records, events) && Touches(events, id)
    ensures Touched(records, id) || Vanishes(events, id)
  {
    var i :| 0 <= i < |events| && events[i].Subject() == id;
    assert ReportsFor(records, events, id);
    if events[i].Vanish? {
      assert events[i] == Vanish(id);
    }
  }

  lemma {:induction false} VanishedAndBack(boxes: seq<Mailbox>, events: seq<Event>, id: string)
    requires IsWindow(boxes, events) && id in boxes[|events|] && Vanishes(events, id)
    ensures Arrives(events, id)
  {
    var n := |events| - 1;
    assert Evolves(boxes[n], events[n], boxes[n + 1]);
    if events[n].Arrive? && events[n].m.id == id {
    } else {
      assert events[n] != Vanish(id);
      assert Vanish(id) in events[..n];
      VanishedAndBack(boxes[..|events|], events[..n], id);
      var i :| 0 <= i < n && events[..n][i].Arrive? && events[..n][i].m.id == id;
      assert events[i] == events[..n][i];
    }
  }

  /** The label loop on a row reads off the window what WindowState says. */
  lemma RelabelIsWindowState(records: seq<Record>, events: seq<Event>, id: string, row: Row, now: nat)
    requires Reports(records, events)
    ensures
      var deleted := if id in DeletedIds(records) then row.(state := TRASH, deletedAt := Some(now)) else row;
      var after := Relabel(deleted, LabelPair(AddedLabels(records, id), RemovedLabels(records, id)));
      after.state == WindowState(events, id, row.state) && after.isRead == row.isRead && after.isStarred == row.isStarred
  {
    assert ReportsFor(records, events, id);
    ReportedLabels(records, events, id, "TRASH");
    ReportedLabels(records, events, id, "SPAM");
  }

  /** Of the messages the provider still has, the sync fetches exactly those with an event in the window. */
  lemma FetchedIffTouched(boxes: seq<Mailbox>, events: seq<Event>, records: seq<Record>, id: string)
    requires Setting(boxes, events, records) && id in boxes[|events|]
    ensures Touched(records, id) <==> Touches(events, id)
  {
    assert ReportsFor(records, events, id);
    if Vanishes(events, id) {
      VanishedAndBack(boxes, events, id);
    }
    if Touches(events, id) {
      TouchedIsFetched(records, events, id);
    }
    if Touched(records, id) {
      FetchedHasEvent(records, events, id);
    }
  }

  lemma FetchedHasEvent(records: seq<Record>, events: seq<Event>, id: string)
    requires Reports(records, events) && Touched(records, id)
    ensures Touches(events, id)
  {
    assert ReportsFor(records, events, id);
    if id in AddedIds(records) {
      var i :| 0 <= i < |events| && events[i].Arrive? && events[i].m.id == id;
      assert events[i].Subject() == id;
    } else {
      var i :| 0 <= i < |events| && (events[i].Label? || events[i].Unlabel?) && events[i].messageId == id;
      assert events[i].Subject() == id;
    }
  }

  lemma UntouchedHasNoEvents(events: seq<Event>, id: string)
    requires !Touches(events, id)
    ensures NoStateEvents(events, id) && !Vanishes(events, id)
  {
    forall i | 0 <= i < |events| ensures events[i] != Vanish(id) {
      assert events[i].Subject() != id;
    }
    forall i | 0 <= i < |events| && (events[i].Label? || events[i].Unlabel?) ensures events[i].messageId != id {
      assert events[i].Subject() != id;
    }
  }

  ghost predicate NoStateEvents(events: seq<Event>, id: string) {
    && !Adds(events, id, "SPAM") && !Removes(events, id, "SPAM")
    && !Adds(events, id, "TRASH") && !Removes(events, id, "TRASH")
  }

  /** A fetched message has the state and flags of its current labels, whether its row is new or not. */
  lemma FetchedIsFresh(t: Table, account: string, provider: string, box: Mailbox, id: string)
    requires id in box
    ensures
      var row := FetchedRow(t, account, provider, Fetched(box), id);
      && row.Some?
      && row.value.state == DeriveState(box[id].labels)
      && row.value.isRead == ("UNREAD" !in box[id].labels)
      && row.value.isStarred == ("STARRED" in box[id].labels)
  {
    FetchedLabels(box[id]);
  }

  /** The row of a message that is still there and has events: read and starred flags are those of its
      labels, without condition; the state is as the last matching branch wrote it. */
  lemma TouchedRow(t: Table, account: string, provider: string, boxes: seq<Mailbox>, events: seq<Event>,
                   records: seq<Record>, now: nat, id: string)
    requires Setting(boxes, events, records) && id in boxes[|events|] && Touches(events, id)
    ensures
      var end := boxes[|events|];
      var row := RowAfterWindow(t, account, provider, records, Fetched(end), now, id);
      && row.Some?
      && row.value.isRead == ("UNREAD" !in end[id].labels)
      && row.value.isStarred == ("STARRED" in end[id].labels)
      && row.value.state == WindowState(events, id, DeriveState(end[id].labels))
  {
    var remote := Fetched(boxes[|events|]);
    FetchedIffTouched(boxes, events, records, id);
    FetchedIsFresh(t, account, provider, boxes[|events|], id);
    RelabelIsWindowState(records, events, id, FetchedRow(t, account, provider, remote, id).value, now);
  }

  /** The row of a message without events stays as it is, and so does the message. */
  lemma UntouchedRow(t: Table, account: string, provider: string, boxes: seq<Mailbox>, events: seq<Event>,
                     records: seq<Record>, now: nat, id: string)
    requires Setting(boxes, events, records) && id in boxes[|events|] && !Touches(events, id)
    ensures RowAfterWindow(t, account, provider, records, Fetched(boxes[|events|]), now, id) == Lookup(t, id)
    ensures id in boxes[0] && boxes[0][id] == boxes[|events|][id]
  {
    FetchedIffTouched(boxes, events, records, id);
    UntouchedHasNoEvents(events, id);
    UntouchedStays(boxes, events, id);
    assert ReportsFor(records, events, id);
    ReportedLabels(records, events, id, "TRASH");
    ReportedLabels(records, events, id, "SPAM");
  }

  lemma SafeMeansFlagsAgree(events: seq<Event>, id: string, labels: seq<string>)
    ensures SameStateFlags(WindowState(events, id, DeriveState(labels)), DeriveState(labels)) <==>
            ReplaySafe(events, id, Carries(Has(labels, "TRASH"), Has(labels, "SPAM")))
  {
  }

  /** The replayed window may be trusted for the message. */
  ghost predicate Safe(boxes: seq<Mailbox>, events: seq<Event>, id: string)
    requires |boxes| > 0
  {
    var replayed := Replay(events, id, CarriedIn(boxes[0], id));
    replayed.Some? && ReplaySafe(events, id, replayed.value)
  }

  lemma SafeReadsLabels(boxes: seq<Mailbox>, events: seq<Event>, id: string)
    requires IsWindow(boxes, events) && id in boxes[|events|]
    ensures
      var labels := boxes[|events|][id].labels;
      Safe(boxes, events, id) <==> SameStateFlags(WindowState(events, id, DeriveState(labels)), DeriveState(labels))
  {
    ReplayTracksMailbox(boxes, events, id);
    SafeMeansFlagsAgree(events, id, boxes[|events|][id].labels);
  }

  /** The exact condition under which incremental sync gives a message the flags a full sync would: its
      replayed events are safe, or it has none and its row was in step already. */
  lemma IncrementalRefinesFull(t: Table, account: string, provider: string, names: map<string, string>,
                               boxes: seq<Mailbox>, events: seq<Event>, records: seq<Record>, now: nat, id: string)
    requires Setting(boxes, events, records) && id in boxes[|events|]
    requires Touches(events, id) ==> NamesAgree(boxes[|events|][id], names)
    ensures
      var end := boxes[|events|];
      FlagsOf(RowAfterWindow(t, account, provider, records, Fetched(end), now, id), account, provider, end[id], names) <==>
        if Touches(events, id) then Safe(boxes, events, id)
        else id in boxes[0] && FlagsOf(Lookup(t, id), account, provider, boxes[0][id], names)
  {
    if Touches(events, id) {
      TouchedRow(t, account, provider, boxes, events, records, now, id);
      FetchedLabels(boxes[|events|][id]);
      SafeReadsLabels(boxes, events, id);
    } else {
      UntouchedRow(t, account, provider, boxes, events, records, now, id);
    }
  }

  /** The branches of the label loop that take a label away. */
  ghost predicate TakesAway(events: seq<Event>, id: string) {
    && !Adds(events, id, "SPAM")
    && (Removes(events, id, "SPAM") || (!Adds(events, id, "TRASH") && Removes(events, id, "TRASH")))
  }

  /** The folder is a stricter matter: the branches that take a label away always write INBOX, so they
      also need a message that is neither sent mail nor a draft. */
  lemma IncrementalFolder(t: Table, account: string, provider: string, names: map<string, string>,
                          boxes: seq<Mailbox>, events: seq<Event>, records: seq<Record>, now: nat, id: string)
    requires Setting(boxes, events, records) && id in boxes[|events|]
    requires Touches(events, id) ==> NamesAgree(boxes[|events|][id], names)
    ensures
      var end := boxes[|events|];
      StateOf(RowAfterWindow(t, account, provider, records, Fetched(end), now, id), account, provider, end[id], names) <==>
        if Touches(events, id) then
          Safe(boxes, events, id) && (TakesAway(events, id) ==> !Has(end[id].labels, "SENT") && !Has(end[id].labels, "DRAFT"))
        else id in boxes[0] && StateOf(Lookup(t, id), account, provider, boxes[0][id], names)
  {
    if Touches(events, id) {
      TouchedRow(t, account, provider, boxes, events, records, now, id);
      FetchedLabels(boxes[|events|][id]);
      SafeReadsLabels(boxes, events, id);
    } else {
      UntouchedRow(t, account, provider, boxes, events, records, now, id);
    }
  }

  // ---- Whole tables and sequences of windows ----

  /** What one sync sees: the mailbox through the events of a window, and the page reporting them. */
  datatype Window = Window(boxes: seq<Mailbox>, events: seq<Event>, page: HistoryPage, now: nat)

  /** `mails` are the mailboxes between the windows. */
  ghost predicate Chain(ws: seq<Window>, mails: seq<Mailbox>) {
    && |mails| == |ws| + 1
    && forall k :: 0 <= k < |ws| ==> Links(ws[k], mails[k], mails[k + 1])
  }

  ghost predicate Links(w: Window, start: Mailbox, end: Mailbox) {
    Setting(w.boxes, w.events, w.page.records) && w.boxes[0] == start && w.boxes[|w.events|] == end
  }

  /** The tables between the windows: each sync makes of every row what its window says. */
  ghost predicate SyncedAll(tables: seq<Table>, account: string, provider: string, ws: seq<Window>, mails: seq<Mailbox>)
    requires Chain(ws, mails)
  {
    && |tables| == |ws| + 1
    && forall k :: 0 <= k < |ws| ==> Synced(tables[k], tables[k + 1], account, provider, ws[k], mails[k + 1])
  }

  ghost predicate Synced(before: Table, after: Table, account: string, provider: string, w: Window, end: Mailbox) {
    RowsFollow(before, after, account, provider, GmailHistory(w.page), Fetched(end), w.now)
  }

  /** The last window with an event of the message. */
  ghost function LastTouching(ws: seq<Window>, id: string): Option<Window> {
    if |ws| == 0 then None
    else if Touches(ws[|ws| - 1].events, id) then Some(ws[|ws| - 1])
    else LastTouching(ws[..|ws| - 1], id)
  }

  ghost predicate SafeWindow(w: Window, id: string) {
    |w.boxes| > 0 && Safe(w.boxes, w.events, id)
  }

  /** After any number of incremental syncs a message's row is in step exactly when the last window with an
      event of it was safe for it; what earlier windows got wrong is mended. Without any event, the row
      must have been in step from the start. */
  lemma {:induction false} StepAfterWindows(tables: seq<Table>, account: string, provider: string, names: map<string, string>,
                                            ws: seq<Window>, mails: seq<Mailbox>, id: string)
    requires Chain(ws, mails) && SyncedAll(tables, account, provider, ws, mails)
    requires id in mails[|ws|]
    requires LastTouching(ws, id).Some? ==> NamesAgree(mails[|ws|][id], names)
    ensures
      FlagsOf(Lookup(tables[|ws|], id), account, provider, mails[|ws|][id], names) <==>
        match LastTouching(ws, id)
        case Some(w) => SafeWindow(w, id)
        case None => id in mails[0] && FlagsOf(Lookup(tables[0], id), account, provider, mails[0][id], names)
  {
    if |ws| == 0 {
    } else {
      var n := |ws| - 1;
      var w := ws[n];
      assert Links(w, mails[n], mails[n + 1]) && Synced(tables[n], tables[n + 1], account, provider, w, mails[n + 1]);
      assert Lookup(tables[n + 1], id) ==
             RowAfterAnswer(tables[n], account, provider, GmailHistory(w.page), Fetched(mails[n + 1]), w.now, id);
      IncrementalRefinesFull(tables[n], account, provider, names, w.boxes, w.events, w.page.records, w.now, id);
      if !Touches(w.events, id) {
        UntouchedStays(w.boxes, w.events, id);
        assert Chain(ws[..n], mails[..n + 1]);
        StepAfterWindows(tables[..n + 1], account, provider, names, ws[..n], mails[..n + 1], id);
      }
    }
  }

  /** A sync leaves the whole table in step exactly when every message with events has safe ones and every
      other message's row was in step before. */
  lemma SyncKeepsStep(before: Table, after: Table, account: string, provider: string, names: map<string, string>, w: Window,
                      start: Mailbox, end: Mailbox)
    requires Links(w, start, end) && Synced(before, after, account, provider, w, end)
    requires forall id :: id in end && Touches(w.events, id) ==> NamesAgree(end[id], names)
    ensures InStep(after, account, provider, names, end) <==> RowsSafe(before, account, provider, names, w, end)
  {
    forall id
      ensures InStepAt(after, account, provider, names, end, id) <==> (id in end ==> RowSafe(before, account, provider, names, w, id))
    {
      SyncKeepsRow(before, after, account, provider, names, w, start, end, id);
    }
  }

  lemma SyncKeepsRow(before: Table, after: Table, account: string, provider: string, names: map<string, string>, w: Window,
                     start: Mailbox, end: Mailbox, id: string)
    requires Links(w, start, end) && Synced(before, after, account, provider, w, end)
    requires id in end && Touches(w.events, id) ==> NamesAgree(end[id], names)
    ensures InStepAt(after, account, provider, names, end, id) <==> (id in end ==> RowSafe(before, account, provider, names, w, id))
  {
    if id in end {
      assert Lookup(after, id) == RowAfterAnswer(before, account, provider, GmailHistory(w.page), Fetched(end), w.now, id);
      IncrementalRefinesFull(before, account, provider, names, w.boxes, w.events, w.page.records, w.now, id);
    }
  }

  ghost predicate RowSafe(t: Table, account: string, provider: string, names: map<string, string>, w: Window, id: string) {
    && |w.boxes| > 0
    && if Touches(w.events, id) then Safe(w.boxes, w.events, id)
       else id in w.boxes[0] && FlagsOf(Lookup(t, id), account, provider, w.boxes[0][id], names)
  }

  ghost predicate RowsSafe(t: Table, account: string, provider: string, names: map<string, string>, w: Window, end: Mailbox) {
    forall id :: id in end ==> RowSafe(t, account, provider, names, w, id)
  }

  lemma EndIsKeyed(w: Window, start: Mailbox, end: Mailbox)
    requires Links(w, start, end)
    ensures KeyedById(Fetched(end))
  {
    WindowKeyed(w.boxes, w.events);
  }

  /** Every window can be synced: the account's own incremental sync is such a sync. */
  method SyncWindow(sync: AccountSync, w: Window, ghost start: Mailbox, end: Mailbox) returns (r: Result<nat, SyncError>)
    requires sync.provider == "gmail" && Links(w, start, end)
    modifies sync, sync.table
    ensures r.Ok? && Synced(old(sync.table.rows), sync.table.rows, sync.account, sync.provider, w, end)
  {
    EndIsKeyed(w, start, end);
    r := sync.IncrementalSync(GmailHistory(w.page), Fetched(end), w.now);
  }

  // ---- Failed fetches ----

  /** The row of a message that could not be fetched: none that was not there; otherwise read flag and star
      as before, and the state the last matching branch wrote, or the old one. */
  lemma FailedFetchRow(t: Table, account: string, provider: string, events: seq<Event>, records: seq<Record>,
                       remote: Mailbox, now: nat, id: string)
    requires Reports(records, events) && id !in remote
    ensures
      var row := RowAfterWindow(t, account, provider, records, remote, now, id);
      && (row.Some? <==> id in t)
      && (id in t ==> row.value.state == WindowState(events, id, t[id].state))
      && (id in t ==> row.value.isRead == t[id].isRead && row.value.isStarred == t[id].isStarred)
  {
    if id in t {
      RelabelIsWindowState(records, events, id, t[id], now);
    }
  }

  /** After a failed fetch the flags are a fresh full sync's exactly when there was a row, its read flag and
      star are still right, and the window's branches, applied to the old state, happen to give the new one. */
  lemma FailedFetchFlags(t: Table, account: string, provider: string, names: map<string, string>, boxes: seq<Mailbox>,
                         events: seq<Event>, records: seq<Record>, remote: Mailbox, now: nat, id: string)
    requires Setting(boxes, events, records) && id in boxes[|events|] && id !in remote
    ensures
      var listed := FreshRow(account, provider, boxes[|events|][id], names);
      FlagsOf(RowAfterWindow(t, account, provider, records, remote, now, id), account, provider, boxes[|events|][id], names) <==>
        && id in t && t[id].isRead == listed.isRead && t[id].isStarred == listed.isStarred
        && SameStateFlags(WindowState(events, id, t[id].state), listed.state)
  {
    FailedFetchRow(t, account, provider, events, records, remote, now, id);
  }

  // ---- Full listings ----

  /** The messages of the mailbox as a listing returns them, each at least once, in any order. */
  ghost predicate IsListing(ms: seq<Message>, box: Mailbox, names: map<string, string>) {
    && (forall i :: 0 <= i < |ms| ==> ms[i].id in box && ms[i] == Parsed(box[ms[i].id], names))
    && (forall id :: id in box ==> exists i :: 0 <= i < |ms| && ms[i].id == id)
  }

  /** The flags every row has after a full listing: fresh ones for the mailbox, the old ones otherwise. */
  lemma ListedRow(t: Table, account: string, provider: string, names: map<string, string>, box: Mailbox, ms: seq<Message>,
                  id: string)
    requires IsListing(ms, box, names)
    ensures
      var t' := UpsertedAll(t, account, provider, ms);
      if id in box then FlagsOf(Lookup(t', id), account, provider, box[id], names)
      else Lookup(t', id) == Lookup(t, id)
  {
    if id in box {
      var i :| 0 <= i < |ms| && ms[i].id == id;
      LastForId(ms, id, i);
      LastUpsertDecides(t, account, provider, ms, id);
    } else {
      NotForId(ms, id);
      UpsertHistory(t, account, provider, ms, id);
    }
  }

  /** A full listing puts the table in step, whatever it held before. */
  lemma FullListingInStep(t: Table, account: string, provider: string, names: map<string, string>, box: Mailbox, ms: seq<Message>)
    requires IsListing(ms, box, names)
    ensures InStep(UpsertedAll(t, account, provider, ms), account, provider, names, box)
  {
    forall id ensures InStepAt(UpsertedAll(t, account, provider, ms), account, provider, names, box, id) {
      ListedRow(t, account, provider, names, box, ms, id);
    }
  }

  /** The two tables have the same row for the message, as far as the flags go. */
  predicate SameRowAndFlags(a: Table, b: Table, id: string) {
    (id in a <==> id in b) && (id in a && id in b ==> SameFlags(a[id], b[id]))
  }

  lemma ListingKeepsRow(t: Table, account: string, provider: string, names: map<string, string>, box: Mailbox, ms: seq<Message>,
                        id: string)
    requires IsListing(ms, box, names)
    ensures SameRowAndFlags(UpsertedAll(t, account, provider, ms), t, id) <==>
            InStepAt(t, account, provider, names, box, id)
  {
    ListedRow(t, account, provider, names, box, ms, id);
  }

  ghost predicate SameRowsAndFlags(a: Table, b: Table) {
    forall id :: SameRowAndFlags(a, b, id)
  }

  lemma SameRowsExactly(a: Table, t: Table, account: string, provider: string, names: map<string, string>, box: Mailbox)
    requires forall id :: SameRowAndFlags(a, t, id) <==> InStepAt(t, account, provider, names, box, id)
    ensures SameRowsAndFlags(a, t) <==> InStep(t, account, provider, names, box)
  {
    if SameRowsAndFlags(a, t) {
      forall id ensures InStepAt(t, account, provider, names, box, id) {
        assert SameRowAndFlags(a, t, id);
      }
    } else {
      var id :| !SameRowAndFlags(a, t, id);
      assert !InStepAt(t, account, provider, names, box, id);
    }
  }

  /** A full sync on top changes no flag and adds no row exactly when the table was in step: after safe
      windows it has nothing left to do. */
  lemma FullSyncConfirms(t: Table, account: string, provider: string, names: map<string, string>, box: Mailbox, ms: seq<Message>)
    requires IsListing(ms, box, names)
    ensures SameRowsAndFlags(UpsertedAll(t, account, provider, ms), t) <==> InStep(t, account, provider, names, box)
  {
    var t' := UpsertedAll(t, account, provider, ms);
    forall id ensures SameRowAndFlags(t', t, id) <==> InStepAt(t, account, provider, names, box, id) {
      ListingKeepsRow(t, account, provider, names, box, ms, id);
    }
    SameRowsExactly(t', t, account, provider, names, box);
  }

  lemma {:induction false} LastForId(ms: seq<Message>, id: string, i: nat)
    requires i < |ms| && ms[i].id == id
    ensures LastWith(ms, ForId(id)).Some?
    ensures LastWith(ms, ForId(id)).value in ms && LastWith(ms, ForId(id)).value.id == id
  {
    if ms[|ms| - 1].id == id {
    } else {
      LastForId(ms[..|ms| - 1], id, i);
    }
  }

  lemma {:induction false} NotForId(ms: seq<Message>, id: string)
    requires forall i :: 0 <= i < |ms| ==> ms[i].id != id
    ensures LastWith(ms, ForId(id)).None?
  {
    if |ms| == 0 {
    } else {
      NotForId(ms[..|ms| - 1], id);
    }
  }

  // ---- Messages the provider no longer has ----

  lemma {:induction false} GoneMeansVanished(boxes: seq<Mailbox>, events: seq<Event>, id: string, k: nat)
    requires IsWindow(boxes, events) && k <= |events| && id in boxes[k] && id !in boxes[|events|]
    ensures Vanishes(events, id)
    decreases |events|
  {
    var n := |events| - 1;
    assert Evolves(boxes[n], events[n], boxes[n + 1]);
    if events[n] == Vanish(id) {
    } else {
      GoneMeansVanished(boxes[..|events|], events[..n], id, k);
      assert Vanish(id) in events[..n];
    }
  }

  /** A message that was there at some moment of the window, and is gone at its end, gets no row it did not
      have. A row it has ends in the local trash with the sync's deletion stamp exactly when the window
      reports no TRASH or SPAM event for it; such an event overwrites the deletion. */
  lemma DeletedMessage(t: Table, account: string, provider: string, boxes: seq<Mailbox>, events: seq<Event>,
                       records: seq<Record>, now: nat, id: string, k: nat)
    requires Setting(boxes, events, records)
    requires k <= |events| && id in boxes[k] && id !in boxes[|events|]
    ensures
      var row := RowAfterWindow(t, account, provider, records, Fetched(boxes[|events|]), now, id);
      && (row.Some? <==> id in t)
      && (row.Some? ==> (row.value.state == TRASH && row.value.deletedAt == Some(now) <==> NoStateEvents(events, id)))
  {
    GoneMeansVanished(boxes, events, id, k);
    assert ReportsFor(records, events, id);
    ReportedLabels(records, events, id, "TRASH");
    ReportedLabels(records, events, id, "SPAM");
  }

  // ---- A sufficient condition in everyday terms ----

  ghost predicate Carried(boxes: seq<Mailbox>, i: nat, id: string, name: string)
    requires i < |boxes|
  {
    id in boxes[i] && Has(boxes[i][id].labels, name)
  }

  ghost predicate NeverBoth(boxes: seq<Mailbox>, id: string) {
    forall i :: 0 <= i < |boxes| ==> !(Carried(boxes, i, id, "TRASH") && Carried(boxes, i, id, "SPAM"))
  }

  /** The message arrives at most once: provider ids are not reused. */
  ghost predicate ArrivesOnce(boxes: seq<Mailbox>, events: seq<Event>, id: string)
    requires IsWindow(boxes, events)
  {
    && !(Vanishes(events, id) && id in boxes[|events|])
    && forall i :: 0 <= i < |events| && events[i].Arrive? && events[i].m.id == id ==> id !in boxes[i]
  }

  /** Label removals reported for the message took away a label it carried. */
  ghost predicate RemovalsAreReal(boxes: seq<Mailbox>, events: seq<Event>, id: string, name: string)
    requires IsWindow(boxes, events)
  {
    forall i :: 0 <= i < |events| && events[i].Unlabel? && events[i].messageId == id && Has(events[i].labels, name)
      ==> Carried(boxes, i, id, name)
  }

  /** The message's TRASH and SPAM events in the window are all of one label and one direction. */
  ghost predicate OneKind(events: seq<Event>, id: string) {
    var t1, t2 := Adds(events, id, "TRASH"), Removes(events, id, "TRASH");
    var s1, s2 := Adds(events, id, "SPAM"), Removes(events, id, "SPAM");
    && !(t1 && t2) && !(t1 && s1) && !(t1 && s2) && !(t2 && s1) && !(t2 && s2) && !(s1 && s2)
  }

  /** From a moment on, a message keeps a label nothing removes and does not gain one nothing adds. */
  lemma {:induction false} LabelPersists(boxes: seq<Mailbox>, events: seq<Event>, id: string, name: string, i: nat, j: nat)
    requires IsWindow(boxes, events) && name in {"TRASH", "SPAM"} && i <= j <= |events|
    requires id in boxes[i] && !Vanishes(events, id)
    requires forall k :: 0 <= k < |events| && events[k].Arrive? && events[k].m.id == id ==> id !in boxes[k]
    ensures id in boxes[j]
    ensures !Removes(events, id, name) && Carried(boxes, i, id, name) ==> Carried(boxes, j, id, name)
    ensures !Adds(events, id, name) && !Carried(boxes, i, id, name) ==> !Carried(boxes, j, id, name)
    decreases j
  {
    if i == j {
    } else {
      LabelPersists(boxes, events, id, name, i, j - 1);
      assert Evolves(boxes[j - 1], events[j - 1], boxes[j]);
      assert events[j - 1] != Vanish(id);
      assert events[j - 1].Arrive? ==> events[j - 1].m.id != id;
    }
  }

  /** A label the window adds and does not remove is carried at the end. */
  lemma AddedStays(boxes: seq<Mailbox>, events: seq<Event>, id: string, name: string)
    requires IsWindow(boxes, events) && name in {"TRASH", "SPAM"} && id in boxes[|events|]
    requires ArrivesOnce(boxes, events, id) && Adds(events, id, name) && !Removes(events, id, name)
    ensures Carried(boxes, |events|, id, name)
  {
    var k :| 0 <= k < |events| && events[k].Label? && events[k].messageId == id && Has(events[k].labels, name);
    assert Evolves(boxes[k], events[k], boxes[k + 1]);
    LabelPersists(boxes, events, id, name, k + 1, |events|);
  }

  /** When the window takes one of the labels away, and adds neither, none of the two is carried at the end. */
  lemma RemovedStaysAway(boxes: seq<Mailbox>, events: seq<Event>, id: string, name: string, other: string)
    requires IsWindow(boxes, events) && id in boxes[|events|]
    requires (name == "TRASH" && other == "SPAM") || (name == "SPAM" && other == "TRASH")
    requires ArrivesOnce(boxes, events, id) && NeverBoth(boxes, id) && RemovalsAreReal(boxes, events, id, name)
    requires Removes(events, id, name) && !Adds(events, id, name) && !Adds(events, id, other)
    ensures !Carried(boxes, |events|, id, name) && !Carried(boxes, |events|, id, other)
  {
    var k :| 0 <= k < |events| && events[k].Unlabel? && events[k].messageId == id && Has(events[k].labels, name);
    assert Evolves(boxes[k], events[k], boxes[k + 1]);
    assert Carried(boxes, k, id, name);
    LabelPersists(boxes, events, id, name, k + 1, |events|);
    LabelPersists(boxes, events, id, other, k, |events|);
  }

  /** The everyday condition: no message carries both labels, removals are real, ids are not reused, and
      the message's TRASH and SPAM events in the window are of one label and one direction. */
  lemma OneKindIsSafe(boxes: seq<Mailbox>, events: seq<Event>, id: string)
    requires IsWindow(boxes, events) && id in boxes[|events|]
    requires NeverBoth(boxes, id) && ArrivesOnce(boxes, events, id) && OneKind(events, id)
    requires RemovalsAreReal(boxes, events, id, "TRASH") && RemovalsAreReal(boxes, events, id, "SPAM")
    ensures Safe(boxes, events, id)
  {
    ReplayTracksMailbox(boxes, events, id);
    if Adds(events, id, "SPAM") {
      AddedStays(boxes, events, id, "SPAM");
    } else if Removes(events, id, "SPAM") {
      RemovedStaysAway(boxes, events, id, "SPAM", "TRASH");
    } else if Adds(events, id, "TRASH") {
      AddedStays(boxes, events, id, "TRASH");
    } else if Removes(events, id, "TRASH") {
      RemovedStaysAway(boxes, events, id, "TRASH", "SPAM");
    }
  }
}
