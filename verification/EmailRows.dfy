/** Rows of the `emails` table and the column merge rules of the provider upsert. */
module EmailRows {
  import opened Option
  import opened Labels

  /** A normalised provider message; `labels` and `isRead` are as the provider call returned them. */
  datatype Message = Message(
    id: string,
    threadId: Option<string>,
    subject: string,
    from: string,
    to: seq<string>,
    snippet: string,
    body: Option<string>,
    bodyHtml: Option<string>,
    labels: seq<string>,
    date: int,
    isRead: bool,
    listUnsubscribe: Option<string>,
    listUnsubscribePost: Option<string>)

  datatype EmbeddingStatus = EmbeddingPending | Embedded | EmbeddingFailed | EmbeddingStale

  datatype Row = Row(
    accountId: string,
    provider: string,
    threadId: Option<string>,
    subject: string,
    fromAddr: string,
    toAddrs: seq<string>,
    receivedAt: int,
    bodyText: string,
    bodyHtml: string,
    labels: string,
    isRead: bool,
    isStarred: bool,
    hasAttachments: bool,
    embeddingStatus: EmbeddingStatus,
    state: State,
    deletedAt: Option<nat>,
    isArchived: bool,
    category: Option<string>,
    listUnsubscribe: Option<string>,
    listUnsubscribePost: Option<string>)

  /** The table, keyed by its primary key. */
  type Table = map<string, Row>

  function TextOf(m: Message): string {
    m.body.GetOr(m.snippet)
  }

  function HtmlOf(m: Message): string {
    m.bodyHtml.GetOr("")
  }

  /** The column default of `category`; an upsert does not bind the column. */
  const UNCATEGORIZED := Some("Uncategorized")

  function Inserted(account: string, provider: string, m: Message): Row {
    Row(account, provider, m.threadId, m.subject, m.from, m.to, m.date, TextOf(m), HtmlOf(m),
        Join(m.labels), m.isRead, "STARRED" in m.labels, false, EmbeddingPending,
        DeriveState(m.labels), None, false, UNCATEGORIZED, m.listUnsubscribe, m.listUnsubscribePost)
  }

  function Merged(row: Row, m: Message): Row {
    row.(
      bodyHtml := if |HtmlOf(m)| > 0 then HtmlOf(m) else row.bodyHtml,
      bodyText := if |TextOf(m)| > 0 then TextOf(m) else row.bodyText,
      labels := Join(m.labels),
      isRead := m.isRead,
      isStarred := "STARRED" in m.labels,
      state := DeriveState(m.labels),
      listUnsubscribe := if m.listUnsubscribe.Some? then m.listUnsubscribe else row.listUnsubscribe,
      listUnsubscribePost :=
        if m.listUnsubscribePost.Some? then m.listUnsubscribePost else row.listUnsubscribePost)
  }

  function Upserted(t: Table, account: string, provider: string, m: Message): Table {
    t[m.id := if m.id in t then Merged(t[m.id], m) else Inserted(account, provider, m)]
  }

  /** A first upsert inserts a row with the message's own fields and the column defaults. The text body is the
      message's body, or its snippet when it has none. */
  lemma FirstUpsert(t: Table, account: string, provider: string, m: Message)
    requires m.id !in t
    ensures
      var text := match m.body { case Some(body) => body case None => m.snippet };
      var html := match m.bodyHtml { case Some(body) => body case None => "" };
      Upserted(t, account, provider, m) ==
        t[m.id := Row(account, provider, m.threadId, m.subject, m.from, m.to, m.date, text, html, Join(m.labels),
                      m.isRead, "STARRED" in m.labels, false, EmbeddingPending, DeriveState(m.labels), None, false,
                      Some("Uncategorized"), m.listUnsubscribe, m.listUnsubscribePost)]
  {
  }

  /** A later upsert leaves other rows alone. Of its own row it takes a non-empty text (the body, or without
      one the snippet), a non-empty HTML body, present unsubscribe headers, and always labels, flags and state. */
  lemma LaterUpsert(t: Table, account: string, provider: string, m: Message)
    requires m.id in t
    ensures
      var row, after := t[m.id], Upserted(t, account, provider, m)[m.id];
      && Upserted(t, account, provider, m) == t[m.id := after]
      && (m.body.Some? && m.body.value != "" ==> after.bodyText == m.body.value)
      && (m.body.None? && m.snippet != "" ==> after.bodyText == m.snippet)
      && (m.body == Some("") || (m.body.None? && m.snippet == "") ==> after.bodyText == row.bodyText)
      && (m.bodyHtml.Some? && m.bodyHtml.value != "" ==> after.bodyHtml == m.bodyHtml.value)
      && (m.bodyHtml.None? || m.bodyHtml == Some("") ==> after.bodyHtml == row.bodyHtml)
      && (m.listUnsubscribe.Some? ==> after.listUnsubscribe == m.listUnsubscribe)
      && (m.listUnsubscribe.None? ==> after.listUnsubscribe == row.listUnsubscribe)
      && (m.listUnsubscribePost.Some? ==> after.listUnsubscribePost == m.listUnsubscribePost)
      && (m.listUnsubscribePost.None? ==> after.listUnsubscribePost == row.listUnsubscribePost)
      && after == row.(bodyText := after.bodyText, bodyHtml := after.bodyHtml, listUnsubscribe := after.listUnsubscribe,
                     listUnsubscribePost := after.listUnsubscribePost, labels := Join(m.labels), isRead := m.isRead,
                     isStarred := "STARRED" in m.labels, state := DeriveState(m.labels))
  {
  }

  function UpsertedAll(t: Table, account: string, provider: string, ms: seq<Message>): Table {
    if |ms| == 0 then t
    else Upserted(UpsertedAll(t, account, provider, ms[..|ms| - 1]), account, provider, ms[|ms| - 1])
  }

  /** One UPDATE of the state columns and `deleted_at`; a missing id matches no row. */
  function WithState(t: Table, id: string, state: State, deletedAt: Option<nat>): Table {
    if id in t then t[id := t[id].(state := state, deletedAt := deletedAt)] else t
  }

  // ---- What a row remembers of the upserts it went through ----

  /** The first and the last element with a property. */
  function FirstWith<T>(xs: seq<T>, p: T -> bool): Option<T> {
    if |xs| == 0 then None
    else
      var front := FirstWith(xs[..|xs| - 1], p);
      if front.Some? then front else if p(xs[|xs| - 1]) then Some(xs[|xs| - 1]) else None
  }

  function LastWith<T>(xs: seq<T>, p: T -> bool): Option<T> {
    if |xs| == 0 then None
    else if p(xs[|xs| - 1]) then Some(xs[|xs| - 1])
    else LastWith(xs[..|xs| - 1], p)
  }

  ghost function ForId(id: string): Message -> bool {
    (m: Message) => m.id == id
  }

  ghost function WithText(id: string): Message -> bool {
    (m: Message) => m.id == id && |TextOf(m)| > 0
  }

  ghost function WithHtml(id: string): Message -> bool {
    (m: Message) => m.id == id && |HtmlOf(m)| > 0
  }

  ghost function WithUnsubscribe(id: string): Message -> bool {
    (m: Message) => m.id == id && m.listUnsubscribe.Some?
  }

  ghost function WithUnsubscribePost(id: string): Message -> bool {
    (m: Message) => m.id == id && m.listUnsubscribePost.Some?
  }

  /** The row an upsert history leaves: every column is the value of one named message of the history. */
  ghost function RowAfter(t: Table, account: string, provider: string, ms: seq<Message>, id: string): Option<Row> {
    var last := LastWith(ms, ForId(id));
    if last.None? then
      (if id in t then Some(t[id]) else None)
    else
      var base := if id in t then t[id] else Inserted(account, provider, FirstWith(ms, ForId(id)).GetOr(last.value));
      var text := LastWith(ms, WithText(id));
      var html := LastWith(ms, WithHtml(id));
      var unsubscribe := LastWith(ms, WithUnsubscribe(id));
      var post := LastWith(ms, WithUnsubscribePost(id));
      Some(base.(
        bodyText := if text.Some? then TextOf(text.value) else base.bodyText,
        bodyHtml := if html.Some? then HtmlOf(html.value) else base.bodyHtml,
        labels := Join(last.value.labels),
        isRead := last.value.isRead,
        isStarred := "STARRED" in last.value.labels,
        state := DeriveState(last.value.labels),
        listUnsubscribe := if unsubscribe.Some? then unsubscribe.value.listUnsubscribe else base.listUnsubscribe,
        listUnsubscribePost := if post.Some? then post.value.listUnsubscribePost else base.listUnsubscribePost))
  }

  function Lookup(t: Table, id: string): Option<Row> {
    if id in t then Some(t[id]) else None
  }

  lemma {:induction false} NoneForId(ms: seq<Message>, id: string)
    requires LastWith(ms, ForId(id)).None?
    ensures FirstWith(ms, ForId(id)).None?
    ensures LastWith(ms, WithText(id)).None? && LastWith(ms, WithHtml(id)).None?
    ensures LastWith(ms, WithUnsubscribe(id)).None? && LastWith(ms, WithUnsubscribePost(id)).None?
  {
    if |ms| == 0 {
    } else {
      NoneForId(ms[..|ms| - 1], id);
    }
  }

  lemma {:induction false} SomeForId(ms: seq<Message>, id: string)
    requires LastWith(ms, ForId(id)).Some?
    ensures FirstWith(ms, ForId(id)).Some?
  {
    var n := |ms| - 1;
    if ForId(id)(ms[n]) {
    } else {
      SomeForId(ms[..n], id);
    }
  }

  lemma OtherIdStep(t: Table, account: string, provider: string, ms: seq<Message>, m: Message, id: string)
    requires m.id != id
    ensures RowAfter(t, account, provider, ms + [m], id) == RowAfter(t, account, provider, ms, id)
  {
    assert (ms + [m])[..|ms|] == ms;
  }

  lemma FirstUpsertStep(t: Table, account: string, provider: string, ms: seq<Message>, m: Message)
    requires LastWith(ms, ForId(m.id)).None?
    ensures RowAfter(t, account, provider, ms + [m], m.id) ==
            Some(if m.id in t then Merged(t[m.id], m) else Inserted(account, provider, m))
  {
    assert (ms + [m])[..|ms|] == ms;
    NoneForId(ms, m.id);
  }

  lemma LaterUpsertStep(t: Table, account: string, provider: string, ms: seq<Message>, m: Message)
    requires LastWith(ms, ForId(m.id)).Some?
    ensures RowAfter(t, account, provider, ms, m.id).Some?
    ensures RowAfter(t, account, provider, ms + [m], m.id) ==
            Some(Merged(RowAfter(t, account, provider, ms, m.id).value, m))
  {
    var id := m.id;
    assert (ms + [m])[..|ms|] == ms;
    SomeForId(ms, id);
    assert FirstWith(ms + [m], ForId(id)) == FirstWith(ms, ForId(id));
    assert LastWith(ms + [m], ForId(id)) == Some(m);
    assert LastWith(ms + [m], WithText(id)) == if |TextOf(m)| > 0 then Some(m) else LastWith(ms, WithText(id));
    assert LastWith(ms + [m], WithHtml(id)) == if |HtmlOf(m)| > 0 then Some(m) else LastWith(ms, WithHtml(id));
  }

  /** After any sequence of upserts, each body column holds the last non-empty incoming value, each
      unsubscribe column the last present one, flags, labels and state the last message's, and every
      other column (user category, embedding status, deletion stamp, ...) what it held before. */
  lemma {:induction false} UpsertHistory(t: Table, account: string, provider: string, ms: seq<Message>, id: string)
    ensures Lookup(UpsertedAll(t, account, provider, ms), id) == RowAfter(t, account, provider, ms, id)
  {
    if |ms| == 0 {
    } else {
      var front, m := ms[..|ms| - 1], ms[|ms| - 1];
      assert ms == front + [m];
      UpsertHistory(t, account, provider, front, id);
      if m.id != id {
        OtherIdStep(t, account, provider, front, m, id);
      } else if LastWith(front, ForId(id)).None? {
        FirstUpsertStep(t, account, provider, front, m);
      } else {
        LaterUpsertStep(t, account, provider, front, m);
      }
    }
  }

  /** State, read flag and star are those of the last message. */
  lemma LastUpsertDecides(t: Table, account: string, provider: string, ms: seq<Message>, id: string)
    requires LastWith(ms, ForId(id)).Some?
    ensures
      var row, last := Lookup(UpsertedAll(t, account, provider, ms), id), LastWith(ms, ForId(id)).value;
      && row.Some?
      && row.value.state == DeriveState(last.labels)
      && row.value.isRead == last.isRead
      && row.value.isStarred == ("STARRED" in last.labels)
  {
    UpsertHistory(t, account, provider, ms, id);
  }

  /** Re-listing an unchanged provider leaves every row exactly as the first listing left it. */
  lemma UpsertedAllIdempotent(t: Table, account: string, provider: string, ms: seq<Message>)
    ensures UpsertedAll(UpsertedAll(t, account, provider, ms), account, provider, ms) ==
            UpsertedAll(t, account, provider, ms)
  {
    var once := UpsertedAll(t, account, provider, ms);
    var twice := UpsertedAll(once, account, provider, ms);
    forall id ensures Lookup(twice, id) == Lookup(once, id) {
      UpsertHistory(t, account, provider, ms, id);
      UpsertHistory(once, account, provider, ms, id);
    }
    forall id ensures id in twice <==> id in once {
      assert Lookup(twice, id) == Lookup(once, id);
    }
    forall id | id in once ensures twice[id] == once[id] {
      assert Lookup(twice, id) == Lookup(once, id);
    }
  }

  /** Upserts never lose a row, and the state columns they write are coherent. */
  lemma {:induction false} UpsertedAllKeys(t: Table, account: string, provider: string, ms: seq<Message>)
    ensures UpsertedAll(t, account, provider, ms).Keys == t.Keys + set m | m in ms :: m.id
  {
    if |ms| == 0 {
    } else {
      var n := |ms| - 1;
      UpsertedAllKeys(t, account, provider, ms[..n]);
      assert ms == ms[..n] + [ms[n]];
    }
  }
}
