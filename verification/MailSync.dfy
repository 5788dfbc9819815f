/** One account's provider sync: the incremental path, the fallback to a full listing, and the sync marker. */
module MailSync {
  import opened Option
  import opened Labels
  import opened EmailRows
  import opened History
  import opened DeltaSync
  import opened Outlook
  import EmailStore

  datatype ListPage = ListPage(messages: seq<Message>, nextPageToken: Option<string>)

  datatype SyncError = DeltaFailed | ListFailed

  // ---- The full listing ----

  /** A turn of the listing loop after which there is no further turn: the provider failed, gave no
      next token, or gave an empty page. */
  predicate Stops(page: Option<ListPage>) {
    page.None? || page.value.nextPageToken.None? || page.value.messages == []
  }

  /** The provider's successive answers up to and including the one the loop stops at. */
  function AnswersRead(answers: seq<Option<ListPage>>): seq<Option<ListPage>> {
    if |answers| == 0 then []
    else if Stops(answers[0]) then [answers[0]]
    else [answers[0]] + AnswersRead(answers[1..])
  }

  function MessagesOf(answers: seq<Option<ListPage>>): seq<Message> {
    if |answers| == 0 then []
    else
      MessagesOf(answers[..|answers| - 1]) +
      match answers[|answers| - 1]
        case Some(page) => page.messages
        case None => []
  }

  lemma MessagesOfTurn(answers: seq<Option<ListPage>>, k: nat)
    requires k < |answers|
    ensures answers[k].Some? ==> MessagesOf(answers[..k + 1]) == MessagesOf(answers[..k]) + answers[k].value.messages
    ensures answers[k].None? ==> MessagesOf(answers[..k + 1]) == MessagesOf(answers[..k])
  {
    assert answers[..k + 1][..k] == answers[..k];
  }

  lemma {:induction false} AnswersReadUpTo(answers: seq<Option<ListPage>>, k: nat)
    requires k < |answers| && Stops(answers[k])
    requires forall i :: 0 <= i < k ==> !Stops(answers[i])
    ensures AnswersRead(answers) == answers[..k + 1]
  {
    if k == 0 {
    } else {
      AnswersReadUpTo(answers[1..], k - 1);
    }
  }

  lemma FailureIsLast(answers: seq<Option<ListPage>>, stop: nat)
    requires stop < |answers| && forall i :: 0 <= i < stop ==> !Stops(answers[i])
    ensures None in answers[..stop + 1] <==> answers[stop].None?
  {
    assert answers[..stop + 1][stop] == answers[stop];
  }

  /** Where a walk that followed every token would end. */
  predicate TokensEnd(answers: seq<Option<ListPage>>) {
    && |answers| > 0
    && answers[|answers| - 1].Some? && answers[|answers| - 1].value.nextPageToken.None?
    && forall i :: 0 <= i < |answers| - 1 ==> answers[i].Some? && answers[i].value.nextPageToken.Some?
  }

  lemma {:induction false} MessagesOfConcat(a: seq<Option<ListPage>>, b: seq<Option<ListPage>>)
    ensures MessagesOf(a + b) == MessagesOf(a) + MessagesOf(b)
  {
    if |b| == 0 {
      assert a + b == a;
    } else {
      var whole := a + b;
      assert whole[..|whole| - 1] == a + b[..|b| - 1];
      MessagesOfConcat(a, b[..|b| - 1]);
    }
  }

  lemma {:induction false} NoMessages(answers: seq<Option<ListPage>>)
    ensures MessagesOf(answers) == [] <==> forall i :: 0 <= i < |answers| && answers[i].Some? ==> answers[i].value.messages == []
  {
    if |answers| == 0 {
    } else {
      var n := |answers| - 1;
      NoMessages(answers[..n]);
      if forall i :: 0 <= i < n && answers[..n][i].Some? ==> answers[..n][i].value.messages == [] {
        forall i | 0 <= i < n && answers[i].Some? ensures answers[i].value.messages == [] {
          assert answers[..n][i] == answers[i];
        }
      }
    }
  }

  /** No page with messages comes after an empty page. */
  ghost predicate EmptyPagesLast(answers: seq<Option<ListPage>>) {
    forall i, j :: 0 <= i < j < |answers| && IsEmptyPage(answers[i]) ==> IsEmptyPage(answers[j])
  }

  predicate IsEmptyPage(page: Option<ListPage>) {
    page.Some? && page.value.messages == []
  }

  lemma FirstStopIsEmptyOrLast(answers: seq<Option<ListPage>>, k: nat)
    requires TokensEnd(answers) && k < |answers| && Stops(answers[k])
    requires forall i :: 0 <= i < k ==> !Stops(answers[i])
    ensures k == |answers| - 1 || IsEmptyPage(answers[k])
    ensures forall i :: 0 <= i < k ==> !IsEmptyPage(answers[i])
  {
  }

  /** The listing takes in every message the provider offers along its tokens exactly when no page with
      messages comes after an empty page: the loop also stops at an empty page that has a token. */
  lemma ListingComplete(answers: seq<Option<ListPage>>)
    requires TokensEnd(answers)
    ensures MessagesOf(AnswersRead(answers)) == MessagesOf(answers) <==> EmptyPagesLast(answers)
  {
    assert Stops(answers[|answers| - 1]);
    var k := FirstStop(answers);
    var read, rest := answers[..k + 1], answers[k + 1..];
    AnswersReadUpTo(answers, k);
    FirstStopIsEmptyOrLast(answers, k);
    assert answers == read + rest;
    MessagesOfConcat(read, rest);
    NoMessages(rest);
    if MessagesOf(rest) == [] {
      assert MessagesOf(answers) == MessagesOf(read);
      forall i, j | 0 <= i < j < |answers| && IsEmptyPage(answers[i]) ensures IsEmptyPage(answers[j]) {
        assert rest[j - k - 1] == answers[j];
      }
    } else {
      assert |MessagesOf(answers)| > |MessagesOf(read)|;
      var j :| 0 <= j < |rest| && rest[j].Some? && rest[j].value.messages != [];
      assert answers[k + 1 + j] == rest[j];
      assert IsEmptyPage(answers[k]) && !IsEmptyPage(answers[k + 1 + j]);
    }
  }

  function FirstStop(answers: seq<Option<ListPage>>): (k: nat)
    requires exists i :: 0 <= i < |answers| && Stops(answers[i])
    ensures k < |answers| && Stops(answers[k])
    ensures forall i :: 0 <= i < k ==> !Stops(answers[i])
  {
    if Stops(answers[0]) then 0
    else
      assert exists i :: 0 <= i < |answers[1..]| && Stops(answers[1..][i]) by {
        var i :| 0 <= i < |answers| && Stops(answers[i]);
        assert answers[1..][i - 1] == answers[i];
      }
      1 + FirstStop(answers[1..])
  }

  /** The loop also stops at an empty page that has a token: what comes after it is never asked for. */
  lemma EmptyPageEndsListing(m: Message)
    ensures
      var answers := [Some(ListPage([], Some("more"))), Some(ListPage([m], None))];
      TokensEnd(answers) && MessagesOf(AnswersRead(answers)) == [] && MessagesOf(answers) == [m]
  {
    var empty, last := Some(ListPage([], Some("more"))), Some(ListPage([m], None));
    AnswersReadUpTo([empty, last], 0);
    assert [empty, last][..1] == [empty] && [empty][..0] == [];
    assert MessagesOf([empty]) == [];
    assert MessagesOf([empty, last]) == [] + [m];
  }

  // ---- The incremental path ----

  /** The provider's answer to a delta request: none when the call failed or the provider has no delta. */
  datatype DeltaAnswer =
    | NoAnswer
    | GmailHistory(page: HistoryPage)
    | OutlookDelta(items: seq<Item>, deltaLink: Option<string>)
  {
    function NewMarker(): Option<string> {
      match this
      case NoAnswer => None
      case GmailHistory(page) => page.historyId
      case OutlookDelta(_, deltaLink) => deltaLink
    }
  }

  /** Gmail answers with history, Outlook with items; other providers have no delta. */
  predicate AnswerOf(provider: string, answer: DeltaAnswer) {
    && (answer.GmailHistory? ==> provider == "gmail")
    && (answer.OutlookDelta? ==> provider == "outlook")
  }

  /** The common shape both kinds of answer are brought into. */
  datatype ChangeSet = ChangeSet(
    newIds: seq<string>,
    updatedIds: seq<string>,
    deletedIds: seq<string>,
    labelChanges: seq<LabelDelta>,
    newMarker: Option<string>)

  /** What an answer makes of one row; nothing here depends on an iteration order. */
  ghost function RowAfterAnswer(t: Table, account: string, provider: string, answer: DeltaAnswer, remote: Mailbox, now: nat,
                                id: string): Option<Row>
  {
    match answer
    case NoAnswer => Lookup(t, id)
    case GmailHistory(page) => RowAfterWindow(t, account, provider, page.records, remote, now, id)
    case OutlookDelta(items, _) => RowAfterItems(t, account, provider, items, remote, now, id)
  }

  ghost predicate RowsFollow(before: Table, after: Table, account: string, provider: string, answer: DeltaAnswer,
                             remote: Mailbox, now: nat)
  {
    forall id :: Lookup(after, id) == RowAfterAnswer(before, account, provider, answer, remote, now, id)
  }

  /** The upserts an answer leads to: every fetchable id once for each time it is listed. */
  function UpsertsFor(answer: DeltaAnswer, remote: Mailbox): nat {
    match answer
    case NoAnswer => 0
    case GmailHistory(page) => ReportedFor(page.records, remote)
    case OutlookDelta(items, _) => Fetchable(ModifiedIds(items), remote)
  }

  function AppliedChanges(t: Table, account: string, provider: string, c: ChangeSet, remote: Mailbox, now: nat): Table {
    Applied(t, account, provider, c.newIds + c.updatedIds, c.deletedIds, c.labelChanges, remote, now)
  }

  // ---- What is stored for an account, and what a sync may leave there ----

  datatype Stored = Stored(rows: Table, historyId: Option<string>, emailsSynced: nat)

  /** An incremental sync: a failure leaves everything as it was, an answer is applied and the marker moves. */
  ghost predicate IncrementalOutcome(account: string, provider: string, before: Stored, answer: DeltaAnswer, remote: Mailbox,
                                     now: nat, r: Result<nat, SyncError>, after: Stored)
  {
    if answer.NoAnswer? then r == Err(DeltaFailed) && after == before
    else
      && r == Ok(UpsertsFor(answer, remote))
      && RowsFollow(before.rows, after.rows, account, provider, answer, remote, now)
      && after.historyId == (if answer.NewMarker().Some? then answer.NewMarker() else before.historyId)
      && after.emailsSynced == before.emailsSynced + if answer.NewMarker().Some? then r.value else 0
  }

  /** The marker a full sync ends with: only Gmail's profile has one. */
  function ProfileMarker(provider: string, profile: Option<string>): Option<string> {
    if provider == "gmail" then profile else None
  }

  /** A full sync: the pages up to a failure stay stored; only a complete one counts and sets the marker. */
  predicate FullOutcome(account: string, provider: string, before: Stored, answers: seq<Option<ListPage>>,
                        profile: Option<string>, r: Result<nat, SyncError>, after: Stored)
  {
    var read, marker := AnswersRead(answers), ProfileMarker(provider, profile);
    && after.rows == UpsertedAll(before.rows, account, provider, MessagesOf(read))
    && r == (if None in read then Err(ListFailed) else Ok(|MessagesOf(read)|))
    && after.historyId == (if r.Ok? && marker.Some? then marker else before.historyId)
    && after.emailsSynced == before.emailsSynced + if r.Ok? then r.value else 0
  }

  /** All that a sync learns from outside: the delta answer, the messages fetched one by one, the listing's
      pages, the profile's marker, and the time. */
  datatype Input = Input(
    answer: DeltaAnswer,
    remote: Mailbox,
    listing: seq<Option<ListPage>>,
    profile: Option<string>,
    now: nat)

  /** Incremental when there is a marker and the provider answers; otherwise full, with the marker forgotten. */
  predicate IsIncremental(before: Stored, input: Input) {
    before.historyId.Some? && !input.answer.NoAnswer?
  }

  ghost predicate SyncOutcome(account: string, provider: string, before: Stored, input: Input, r: Result<nat, SyncError>,
                              after: Stored)
  {
    if IsIncremental(before, input) then
      IncrementalOutcome(account, provider, before, input.answer, input.remote, input.now, r, after)
    else
      FullOutcome(account, provider, before.(historyId := None), input.listing, input.profile, r, after)
  }

  // ---- The account ----

  /** One account's entry in the sync state, and the table of emails, which all accounts share. */
  class AccountSync {
    const account: string
    const provider: string
    const table: EmailStore.EmailTable
    var historyId: Option<string>
    var emailsSynced: nat

    constructor (account: string, provider: string, table: EmailStore.EmailTable)
      ensures this.account == account && this.provider == provider && this.table == table
      ensures historyId == None && emailsSynced == 0
    {
      this.account, this.provider, this.table := account, provider, table;
      historyId, emailsSynced := None, 0;
    }

    ghost function Contents(): Stored
      reads this, table
    {
      Stored(table.rows, historyId, emailsSynced)
    }

    /** The statement inserts one row or, on conflict, updates one: either way it affects one. */
    method UpsertEmail(m: Message) returns (affected: nat)
      modifies table
      ensures table.rows == Upserted(old(table.rows), account, provider, m)
      ensures affected == 1
    {
      if m.id in table.rows {
        table.rows := table.rows[m.id := Merged(table.rows[m.id], m)];
      } else {
        table.rows := table.rows[m.id := Inserted(account, provider, m)];
      }
      affected := 1;
    }

    /** Fetches and upserts the new and updated messages; a failed fetch is skipped. */
    method FetchAndUpsert(ids: seq<string>, remote: Mailbox) returns (upserted: nat)
      modifies table
      ensures table.rows == FetchedAll(old(table.rows), account, provider, ids, remote)
      ensures upserted == Fetchable(ids, remote)
    {
      upserted := 0;
      for k := 0 to |ids|
        invariant table.rows == FetchedAll(old(table.rows), account, provider, ids[..k], remote)
        invariant upserted == Fetchable(ids[..k], remote)
      {
        assert ids[..k + 1][..k] == ids[..k];
        if ids[k] in remote {
          var n := UpsertEmail(remote[ids[k]]);
          upserted := upserted + n;
        }
      }
      assert ids[..|ids|] == ids;
    }

    method SoftDelete(ids: seq<string>, now: nat)
      modifies table
      ensures table.rows == SoftDeletedAll(old(table.rows), ids, now)
    {
      for k := 0 to |ids|
        invariant table.rows == SoftDeletedAll(old(table.rows), ids[..k], now)
      {
        assert ids[..k + 1][..k] == ids[..k];
        var _ := table.UpdateEmailState(ids[k], TRASH, Some(now));
      }
      assert ids[..|ids|] == ids;
    }

    method ProcessLabelChanges(changes: seq<LabelDelta>)
      modifies table
      ensures table.rows == LabelWrites(old(table.rows), changes)
    {
      for k := 0 to |changes|
        invariant table.rows == LabelWrites(old(table.rows), changes[..k])
      {
        assert changes[..k + 1][..k] == changes[..k];
        var id, labels := changes[k].messageId, changes[k].labels;
        if Has(labels.added, "TRASH") {
          var _ := table.UpdateEmailState(id, TRASH, None);
        } else if Has(labels.removed, "TRASH") {
          var _ := table.UpdateEmailState(id, INBOX, None);
        }
        if Has(labels.added, "SPAM") {
          var _ := table.UpdateEmailState(id, SPAM, None);
        } else if Has(labels.removed, "SPAM") {
          var _ := table.UpdateEmailState(id, INBOX, None);
        }
      }
      assert changes[..|changes|] == changes;
    }

    /** Bringing an answer into the common shape, with what applying that to the given table.rows will do. */
    method ReadAnswer(answer: DeltaAnswer, ghost start: Table, ghost remote: Mailbox, ghost now: nat) returns (c: ChangeSet)
      requires KeyedById(remote) && !answer.NoAnswer?
      ensures c.newMarker == answer.NewMarker()
      ensures RowsFollow(start, AppliedChanges(start, account, provider, c, remote, now), account, provider, answer, remote, now)
      ensures Fetchable(c.newIds + c.updatedIds, remote) == UpsertsFor(answer, remote)
      ensures c.newIds + c.updatedIds == [] ==> c.labelChanges == []
    {
      match answer {
        case GmailHistory(page) =>
          var delta := ParseGmailHistory(page.records, page.historyId);
          c := ChangeSet(delta.added, UpdatedIds(delta.labelChanges), delta.deleted, delta.labelChanges, delta.newHistoryId);
          ReportedCount(page.records, page.historyId, delta, remote);
          WindowEverywhere(start, account, provider, page, delta, remote, now);
        case OutlookDelta(items, deltaLink) =>
          var delta := ParseOutlookDelta(items, deltaLink);
          var changes := MapFolderMoves(delta.moves);
          c := ChangeSet(delta.addedOrModified, [], delta.deleted, changes, delta.deltaLink);
          assert c.newIds + [] == c.newIds;
          FewerChanges(items);
          ItemsEverywhere(start, account, provider, items, deltaLink, remote, now);
      }
    }

    /** The three phases: fetch and upsert, soft-delete, label-driven writes. */
    method ApplyChanges(c: ChangeSet, remote: Mailbox, now: nat) returns (upserted: nat)
      modifies table
      ensures table.rows == AppliedChanges(old(table.rows), account, provider, c, remote, now)
      ensures upserted == Fetchable(c.newIds + c.updatedIds, remote)
    {
      upserted := FetchAndUpsert(c.newIds + c.updatedIds, remote);
      SoftDelete(c.deletedIds, now);
      ProcessLabelChanges(c.labelChanges);
    }

    /** The incremental path. The resulting table.rows do not depend on the order in which the aggregation
        handed out its entries. */
    method IncrementalSync(answer: DeltaAnswer, remote: Mailbox, now: nat) returns (r: Result<nat, SyncError>)
      requires KeyedById(remote) && AnswerOf(provider, answer)
      modifies this, table
      ensures IncrementalOutcome(account, provider, old(Contents()), answer, remote, now, r, Contents())
      ensures r.Err? <==> answer.NoAnswer?
      ensures r.Err? ==> r.error == DeltaFailed && Contents() == old(Contents())
      ensures answer.GmailHistory? && answer.page.historyId.Some? ==>
                historyId == answer.page.historyId && emailsSynced == old(emailsSynced) + r.value
      ensures answer.OutlookDelta? && answer.deltaLink.Some? ==>
                historyId == answer.deltaLink && emailsSynced == old(emailsSynced) + r.value
      ensures (answer.GmailHistory? && answer.page.historyId.None?) || (answer.OutlookDelta? && answer.deltaLink.None?) ==>
                historyId == old(historyId) && emailsSynced == old(emailsSynced)
    {
      if answer.NoAnswer? {
        return Err(DeltaFailed);
      }
      var c := ReadAnswer(answer, table.rows, remote, now);
      if |c.newIds| + |c.updatedIds| + |c.deletedIds| == 0 {
        NoChanges(table.rows, account, provider, c, remote, now);
        if c.newMarker.Some? {
          historyId := c.newMarker;
        }
        return Ok(0);
      }
      var inserted := ApplyChanges(c, remote, now);
      if c.newMarker.Some? {
        emailsSynced := emailsSynced + inserted;
        historyId := c.newMarker;
      }
      r := Ok(inserted);
    }

    /** The listing loop. `answers` are the provider's answers to the successive page requests. */
    method FullSync(answers: seq<Option<ListPage>>, profile: Option<string>) returns (r: Result<nat, SyncError>)
      requires exists k :: 0 <= k < |answers| && Stops(answers[k])
      modifies this, table
      ensures FullOutcome(account, provider, old(Contents()), answers, profile, r, Contents())
      ensures r.Ok? <==> None !in AnswersRead(answers)
      ensures r.Err? ==> r.error == ListFailed && historyId == old(historyId) && emailsSynced == old(emailsSynced)
      ensures r.Ok? ==> r.value == |MessagesOf(AnswersRead(answers))| && emailsSynced == old(emailsSynced) + r.value
      ensures r.Ok? ==> historyId == if provider == "gmail" && profile.Some? then profile else old(historyId)
    {
      var inserted, ok := ListAll(answers);
      if !ok {
        return Err(ListFailed);
      }
      emailsSynced := emailsSynced + inserted;
      var marker := ProfileMarker(provider, profile);
      if marker.Some? {
        historyId := marker;
      }
      r := Ok(inserted);
    }

    method ListAll(answers: seq<Option<ListPage>>) returns (inserted: nat, ok: bool)
      requires exists k :: 0 <= k < |answers| && Stops(answers[k])
      modifies table
      ensures table.rows == UpsertedAll(old(table.rows), account, provider, MessagesOf(AnswersRead(answers)))
      ensures ok <==> None !in AnswersRead(answers)
      ensures inserted == |MessagesOf(AnswersRead(answers))|
    {
      ghost var stop := FirstStop(answers);
      AnswersReadUpTo(answers, stop);
      FailureIsLast(answers, stop);
      inserted := 0;
      var k := 0;
      ghost var listed: seq<Message> := [];
      while true
        invariant k <= stop
        invariant listed == MessagesOf(answers[..k])
        invariant table.rows == UpsertedAll(old(table.rows), account, provider, listed)
        invariant inserted == |listed|
        decreases stop - k
      {
        MessagesOfTurn(answers, k);
        if answers[k].None? {
          assert k == stop;
          return inserted, false;
        }
        var page := answers[k].value;
        UpsertedAllConcat(old(table.rows), account, provider, listed, page.messages);
        var n := UpsertPage(page.messages);
        listed := listed + page.messages;
        inserted := inserted + n;
        k := k + 1;
        if page.nextPageToken.None? || page.messages == [] {
          assert k == stop + 1;
          return inserted, true;
        }
      }
    }

    method UpsertPage(ms: seq<Message>) returns (affected: nat)
      modifies table
      ensures table.rows == UpsertedAll(old(table.rows), account, provider, ms)
      ensures affected == |ms|
    {
      affected := 0;
      for k := 0 to |ms|
        invariant table.rows == UpsertedAll(old(table.rows), account, provider, ms[..k])
        invariant affected == k
      {
        assert ms[..k + 1][..k] == ms[..k];
        var n := UpsertEmail(ms[k]);
        affected := affected + n;
      }
      assert ms[..|ms|] == ms;
    }

    /** The sync of one account: incremental when there is a marker, full otherwise or when that fails;
        a failed incremental attempt first forgets the marker. */
    method Sync(input: Input) returns (r: Result<nat, SyncError>)
      requires KeyedById(input.remote) && AnswerOf(provider, input.answer)
      requires !IsIncremental(Contents(), input) ==> exists k :: 0 <= k < |input.listing| && Stops(input.listing[k])
      modifies this, table
      ensures SyncOutcome(account, provider, old(Contents()), input, r, Contents())
    {
      if historyId.Some? {
        r := IncrementalSync(input.answer, input.remote, input.now);
        if r.Ok? {
          return;
        }
        historyId := None;
      }
      r := FullSync(input.listing, input.profile);
    }
  }

  lemma UpsertedAllStep(t: Table, account: string, provider: string, ms: seq<Message>, m: Message)
    ensures UpsertedAll(t, account, provider, ms + [m]) == Upserted(UpsertedAll(t, account, provider, ms), account, provider, m)
  {
    assert (ms + [m])[..|ms|] == ms;
  }

  lemma {:induction false} UpsertedAllConcat(t: Table, account: string, provider: string, a: seq<Message>, b: seq<Message>)
    ensures UpsertedAll(t, account, provider, a + b) ==
            UpsertedAll(UpsertedAll(t, account, provider, a), account, provider, b)
  {
    if |b| == 0 {
      assert a + b == a;
    } else {
      var front, last := b[..|b| - 1], b[|b| - 1];
      assert b == front + [last] && a + b == (a + front) + [last];
      UpsertedAllConcat(t, account, provider, a, front);
      UpsertedAllStep(t, account, provider, a + front, last);
      UpsertedAllStep(UpsertedAll(t, account, provider, a), account, provider, front, last);
    }
  }

  lemma WindowEverywhere(t: Table, account: string, provider: string, page: HistoryPage, delta: Delta, remote: Mailbox, now: nat)
    requires KeyedById(remote) && IsParseOf(delta, page.records, page.historyId)
    ensures RowsFollow(t, AppliedDelta(t, account, provider, delta, remote, now), account, provider, GmailHistory(page), remote, now)
  {
    forall id {
      AppliedAt(t, account, provider, page.records, page.historyId, delta, remote, now, id);
    }
  }

  lemma ItemsEverywhere(t: Table, account: string, provider: string, items: seq<Item>, deltaLink: Option<string>,
                        remote: Mailbox, now: nat)
    requires KeyedById(remote)
    ensures
      var after := Applied(t, account, provider, ModifiedIds(items), RemovedIds(items), LabelChanges(Moves(items)), remote, now);
      RowsFollow(t, after, account, provider, OutlookDelta(items, deltaLink), remote, now)
  {
    forall id {
      OutlookRow(t, account, provider, items, remote, now, id);
    }
  }

  /** Without modified items there are no label changes. */
  lemma {:induction false} FewerChanges(items: seq<Item>)
    ensures |Moves(items)| <= |ModifiedIds(items)|
    ensures |LabelChanges(Moves(items))| <= |Moves(items)|
  {
    if |items| == 0 {
    } else {
      FewerChanges(items[..|items| - 1]);
      FewerLabels(Moves(items));
    }
  }

  lemma {:induction false} FewerLabels(moves: seq<FolderMove>)
    ensures |LabelChanges(moves)| <= |moves|
  {
    if |moves| == 0 {
    } else {
      FewerLabels(moves[..|moves| - 1]);
    }
  }

  lemma NoChanges(t: Table, account: string, provider: string, c: ChangeSet, remote: Mailbox, now: nat)
    requires c.newIds == [] && c.updatedIds == [] && c.deletedIds == [] && c.labelChanges == []
    ensures AppliedChanges(t, account, provider, c, remote, now) == t
    ensures Fetchable(c.newIds + c.updatedIds, remote) == 0
  {
    assert c.newIds + c.updatedIds == [];
  }

  // ---- What the two paths promise ----

  /** A second full sync over an unchanged provider changes no row and answers the same; only the counter
      counts every listed message again. */
  lemma FullSyncTwice(account: string, provider: string, before: Stored, answers: seq<Option<ListPage>>,
                      first: Option<string>, r: Result<nat, SyncError>, middle: Stored,
                      second: Option<string>, again: Result<nat, SyncError>, after: Stored)
    requires FullOutcome(account, provider, before, answers, first, r, middle)
    requires FullOutcome(account, provider, middle, answers, second, again, after)
    ensures after.rows == middle.rows && again == r
    ensures after.emailsSynced - middle.emailsSynced == middle.emailsSynced - before.emailsSynced
  {
    UpsertedAllIdempotent(before.rows, account, provider, MessagesOf(AnswersRead(answers)));
  }

  // ---- One page of a longer history ----

  /** Some table results from applying the page: the contract of an incremental sync can be met. */
  lemma SomeOutcome(account: string, provider: string, before: Stored, page: HistoryPage, remote: Mailbox, now: nat)
    returns (r: Result<nat, SyncError>, after: Stored)
    requires KeyedById(remote)
    ensures IncrementalOutcome(account, provider, before, GmailHistory(page), remote, now, r, after)
  {
    var delta := SomeParse(page.records, page.historyId);
    WindowEverywhere(before.rows, account, provider, page, delta, remote, now);
    r := Ok(ReportedFor(page.records, remote));
    after := Stored(
      AppliedDelta(before.rows, account, provider, delta, remote, now),
      if page.historyId.Some? then page.historyId else before.historyId,
      before.emailsSynced + if page.historyId.Some? then r.value else 0);
  }

  /** Every sync that is given the first page leaves the row the whole history would have left. */
  ghost predicate FirstPageIsEnough(first: HistoryPage, all: seq<Record>, id: string) {
    forall account, provider, before, remote, now, r, after ::
      KeyedById(remote) && IncrementalOutcome(account, provider, before, GmailHistory(first), remote, now, r, after) ==>
        Lookup(after.rows, id) == RowAfterWindow(before.rows, account, provider, all, remote, now, id)
  }

  /** Incremental sync applies one history page, whatever tokens it carries, and moves the marker past the
      whole window. No sync loses anything of a message by that exactly when the first page reads like all. */
  lemma FirstPageSuffices(pages: seq<HistoryPage>, id: string)
    requires |pages| > 0
    ensures
      var all := AllRecords(PagesRead(pages));
      FirstPageIsEnough(pages[0], all, id) <==> SameReading(pages[0].records, all, id)
  {
    var first, all := pages[0], AllRecords(PagesRead(pages));
    SameEffectExactly(first.records, all, id);
    if SameReading(first.records, all, id) {
      forall account, provider, before, remote, now, r, after
        | KeyedById(remote) && IncrementalOutcome(account, provider, before, GmailHistory(first), remote, now, r, after)
        ensures Lookup(after.rows, id) == RowAfterWindow(before.rows, account, provider, all, remote, now, id)
      {
        assert Lookup(after.rows, id) == RowAfterAnswer(before.rows, account, provider, GmailHistory(first), remote, now, id);
      }
    }
    if FirstPageIsEnough(first, all, id) {
      EnoughMeansSameEffect(first, all, id);
    }
  }

  lemma EnoughMeansSameEffect(first: HistoryPage, all: seq<Record>, id: string)
    requires FirstPageIsEnough(first, all, id)
    ensures SameEffect(first.records, all, id)
  {
    forall t, account, provider, remote, now | KeyedById(remote)
      ensures RowAfterWindow(t, account, provider, first.records, remote, now, id) ==
              RowAfterWindow(t, account, provider, all, remote, now, id)
    {
      var before := Stored(t, None, 0);
      var r, after := SomeOutcome(account, provider, before, first, remote, now);
      assert Lookup(after.rows, id) == RowAfterAnswer(t, account, provider, GmailHistory(first), remote, now, id);
      assert Lookup(after.rows, id) == RowAfterWindow(before.rows, account, provider, all, remote, now, id);
    }
  }

  function TwoPages(m: Message): seq<HistoryPage> {
    [HistoryPage([], Some("200"), Some("next")), HistoryPage([Record([m.id], [], [], [])], Some("200"), None)]
  }

  /** A sync that meets a two-page window: it reports success and stores the new marker, but the message
      the second page reports is in no row. The whole window would have inserted it. */
  lemma LaterHistoryPagesAreSkipped(account: string, provider: string, before: Stored, m: Message, now: nat,
                                    r: Result<nat, SyncError>, after: Stored)
    requires m.id !in before.rows
    requires IncrementalOutcome(account, provider, before, GmailHistory(TwoPages(m)[0]), map[m.id := m], now, r, after)
    ensures r == Ok(0) && after == before.(historyId := Some("200"))
    ensures m.id !in after.rows
    ensures RowAfterWindow(before.rows, account, provider, AllRecords(PagesRead(TwoPages(m))), map[m.id := m], now, m.id) ==
            Some(Inserted(account, provider, m))
  {
    var remote, record := map[m.id := m], Record([m.id], [], [], []);
    EmptyWindow();
    forall id ensures Lookup(after.rows, id) == Lookup(before.rows, id) {
      RowFromReading(before.rows, account, provider, [], remote, now, id);
    }
    SameRows(after.rows, before.rows);
    TwoPageRecords(m);
    OneAdded(m.id);
    RowFromReading(before.rows, account, provider, [record], remote, now, m.id);
  }

  lemma EmptyWindow()
    ensures AddedIds([]) == [] && DeletedIds([]) == [] && LabelMapOf([]) == map[]
    ensures forall id :: !Relabelled([], id) && AddedLabels([], id) == [] && RemovedLabels([], id) == []
    ensures forall remote :: ReportedFor([], remote) == 0
  {
    forall remote: Mailbox ensures ReportedFor([], remote) == 0 {
      assert Elements(AddedIds([])) * remote.Keys == {};
      assert LabelMapOf([]).Keys * remote.Keys == {};
    }
  }

  lemma TwoPageRecords(m: Message)
    ensures PagesRead(TwoPages(m)) == TwoPages(m)
    ensures AllRecords(TwoPages(m)) == [Record([m.id], [], [], [])]
  {
    var pages := TwoPages(m);
    assert pages[1..] == [pages[1]];
    assert PagesRead(pages[1..]) == [pages[1]];
    assert pages[..1] == [pages[0]] && [pages[0]][..0] == [];
    assert AllRecords([pages[0]]) == [];
  }

  lemma OneAdded(id: string)
    ensures
      var window := [Record([id], [], [], [])];
      AddedIds(window) == [id] && WrittenBy(window, id) == None && DeletedIds(window) == []
  {
    var record := Record([id], [], [], []);
    OneRecord(record, id);
    assert LabelsFor([], id) == [];
  }

  // ---- Answers that lose something for good ----

  /** A new message whose fetch fails is skipped, while the marker moves past its arrival. */
  lemma FailedFetchIsNotRepeated(account: string, provider: string, before: Stored, id: string, now: nat,
                                 r: Result<nat, SyncError>, after: Stored)
    requires id !in before.rows
    requires IncrementalOutcome(account, provider, before,
                                GmailHistory(HistoryPage([Record([id], [], [], [])], Some("200"), None)), map[], now, r, after)
    ensures r == Ok(0) && after == before.(historyId := Some("200"))
  {
    var window, remote: Mailbox := [Record([id], [], [], [])], map[];
    OneRecord(window[0], id);
    forall x ensures Lookup(after.rows, x) == Lookup(before.rows, x) {
      OneRecord(window[0], x);
      assert LabelsFor([], x) == [];
      RowFromReading(before.rows, account, provider, window, remote, now, x);
    }
    SameRows(after.rows, before.rows);
    assert Elements(AddedIds(window)) * remote.Keys == {} && LabelMapOf(window).Keys * remote.Keys == {};
  }

  // ---- Runs of syncs ----

  datatype Turn = Turn(before: Stored, input: Input, result: Result<nat, SyncError>, after: Stored)

  ghost predicate IsTurn(account: string, provider: string, turn: Turn) {
    && AnswerOf(provider, turn.input.answer)
    && SyncOutcome(account, provider, turn.before, turn.input, turn.result, turn.after)
  }

  /** A sequence of syncs of one account. Other writers of the table may come between two of them: only
      marker and counter carry over. */
  ghost predicate IsRun(account: string, provider: string, turns: seq<Turn>) {
    && (forall k :: 0 <= k < |turns| ==> IsTurn(account, provider, turns[k]))
    && (forall k :: 0 < k < |turns| ==> SameEntry(turns[k - 1].after, turns[k].before))
  }

  predicate SameEntry(a: Stored, b: Stored) {
    a.historyId == b.historyId && a.emailsSynced == b.emailsSynced
  }

  /** Only Gmail's profile has a marker, and only an incremental sync takes one from elsewhere: an account of
      another provider, Outlook included, never has one, and each of its syncs is a full one. */
  lemma {:induction false} NoMarkerOutsideGmail(account: string, provider: string, turns: seq<Turn>, k: nat)
    requires IsRun(account, provider, turns) && provider != "gmail"
    requires k < |turns| && turns[0].before.historyId.None?
    ensures
      var turn := turns[k];
      && turn.before.historyId.None? && turn.after.historyId.None?
      && FullOutcome(account, provider, turn.before, turn.input.listing, None, turn.result, turn.after)
  {
    if k == 0 {
    } else {
      NoMarkerOutsideGmail(account, provider, turns, k - 1);
      assert SameEntry(turns[k - 1].after, turns[k].before);
    }
    FullWithoutMarker(account, provider, turns[k]);
  }

  /** What a full sync of a Gmail account does to the marker: it stores the profile's, if it completes and
      the profile has one, and otherwise keeps what was there. */
  lemma GmailMarker(account: string, before: Stored, answers: seq<Option<ListPage>>, profile: Option<string>,
                    r: Result<nat, SyncError>, after: Stored)
    requires FullOutcome(account, "gmail", before, answers, profile, r, after)
    ensures r.Ok? && profile.Some? ==> after.historyId == profile
    ensures r.Err? || profile.None? ==> after.historyId == before.historyId
  {
  }

  /** What an answered incremental sync does to it: the answer's own marker, if there is one, replaces it. */
  lemma DeltaMarker(account: string, provider: string, before: Stored, answer: DeltaAnswer, remote: Mailbox, now: nat,
                    r: Result<nat, SyncError>, after: Stored)
    requires IncrementalOutcome(account, provider, before, answer, remote, now, r, after)
    ensures answer.GmailHistory? && answer.page.historyId.Some? ==> after.historyId == answer.page.historyId
    ensures answer.GmailHistory? && answer.page.historyId.None? ==> after.historyId == before.historyId
    ensures answer.OutlookDelta? && answer.deltaLink.Some? ==> after.historyId == answer.deltaLink
    ensures answer.OutlookDelta? && answer.deltaLink.None? ==> after.historyId == before.historyId
  {
  }

  /** Once a full sync of a Gmail account completes with the profile's marker, the account stays on the
      incremental path as long as the provider answers. */
  lemma {:induction false} GmailStaysIncremental(account: string, turns: seq<Turn>, k: nat, n: nat)
    requires IsRun(account, "gmail", turns) && k < n < |turns|
    requires turns[k].before.historyId.None? || turns[k].input.answer.NoAnswer?
    requires turns[k].result.Ok? && turns[k].input.profile.Some?
    requires forall j :: k < j <= n ==> !turns[j].input.answer.NoAnswer?
    ensures
      var turn := turns[n];
      && turn.before.historyId.Some? && turn.after.historyId.Some?
      && (n == k + 1 ==> turn.before.historyId == turns[k].input.profile)
      && IncrementalOutcome(account, "gmail", turn.before, turn.input.answer, turn.input.remote, turn.input.now,
                            turn.result, turn.after)
    decreases n
  {
    assert SameEntry(turns[n - 1].after, turns[n].before);
    assert IsTurn(account, "gmail", turns[n]) && IsTurn(account, "gmail", turns[n - 1]);
    if n == k + 1 {
      var turn := turns[k];
      GmailMarker(account, turn.before.(historyId := None), turn.input.listing, turn.input.profile, turn.result, turn.after);
    } else {
      GmailStaysIncremental(account, turns, k, n - 1);
    }
  }

  lemma FullWithoutMarker(account: string, provider: string, turn: Turn)
    requires IsTurn(account, provider, turn) && provider != "gmail" && turn.before.historyId.None?
    ensures turn.after.historyId.None?
    ensures FullOutcome(account, provider, turn.before, turn.input.listing, None, turn.result, turn.after)
  {
    assert turn.before.(historyId := None) == turn.before;
  }

  /** What the body of an error response is parsed as: a window without changes and without a marker. */
  predicate IsErrorBody(answer: DeltaAnswer) {
    answer == GmailHistory(HistoryPage([], None, None)) || answer == OutlookDelta([], None)
  }

  /** The status of the response is not looked at. Once the provider answers a marker with errors only, every
      sync succeeds with nothing done, the marker stays, and no sync ever falls back to a full one. */
  lemma {:induction false} ErrorBodiesNeverFallBack(account: string, provider: string, turns: seq<Turn>, k: nat)
    requires IsRun(account, provider, turns)
    requires k < |turns| && turns[0].before.historyId.Some?
    requires forall j :: 0 <= j <= k ==> IsErrorBody(turns[j].input.answer)
    ensures turns[k].result == Ok(0) && turns[k].after == turns[k].before
    ensures SameEntry(turns[k].after, turns[0].before)
  {
    if k == 0 {
    } else {
      ErrorBodiesNeverFallBack(account, provider, turns, k - 1);
      assert SameEntry(turns[k - 1].after, turns[k].before);
    }
    ErrorBodyChangesNothing(account, provider, turns[k]);
  }

  lemma ErrorBodyChangesNothing(account: string, provider: string, turn: Turn)
    requires IsTurn(account, provider, turn)
    requires turn.before.historyId.Some? && IsErrorBody(turn.input.answer)
    ensures turn.result == Ok(0) && turn.after == turn.before
  {
    var before, after, input := turn.before, turn.after, turn.input;
    EmptyWindow();
    forall id ensures Lookup(after.rows, id) == Lookup(before.rows, id) {
      assert Lookup(after.rows, id) == RowAfterAnswer(before.rows, account, provider, input.answer, input.remote, input.now, id);
      RowFromReading(before.rows, account, provider, [], input.remote, input.now, id);
    }
    SameRows(after.rows, before.rows);
  }
}
