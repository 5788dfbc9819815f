/** Listing an IMAP mailbox page by page, newest UID first, while the mailbox changes between pages. */
module ImapPaging {
  import opened Option
  import opened Collections

  const U32_MAX := 0xFFFF_FFFF

  /** A message UID: unsigned, 32 bits. */
  type Uid = u: nat | u <= U32_MAX

  ghost predicate Descending(uids: seq<Uid>) {
    forall i, j :: 0 <= i < j < |uids| ==> uids[i] > uids[j]
  }

  ghost predicate Lists(uids: seq<Uid>, s: set<Uid>) {
    forall u :: u in uids <==> u in s
  }

  // ---- One page ----

  /** Where the list starts: just below the token's UID. No token, or one that is no number, starts at the top. */
  function StartAfter(token: Option<Uid>): Uid {
    token.GetOr(U32_MAX)
  }

  function Below(found: set<Uid>, start: Uid): set<Uid> {
    set u | u in found && u < start
  }

  /** The page of at most `n` UIDs below `start`, and whether more follow. */
  ghost predicate IsPage(found: set<Uid>, start: Uid, n: nat, fetch: seq<Uid>, more: bool) {
    && Descending(fetch)
    && |fetch| <= n
    && (forall u :: u in fetch ==> u in Below(found, start))
    && (forall u, v :: u in fetch && v in Below(found, start) && v !in fetch ==> v < u)
    && (more <==> exists v :: v in Below(found, start) && v !in fetch)
    && (more ==> |fetch| == n)
  }

  /** The search result, sorted in place from newest to oldest. */
  method SortDescending(found: set<Uid>) returns (sorted: seq<Uid>)
    ensures Descending(sorted) && Lists(sorted, found)
  {
    sorted := [];
    var left := found;
    while left != {}
      invariant left <= found
      invariant Descending(sorted) && Lists(sorted, found - left)
      decreases left
    {
      var u :| u in left;
      sorted := InsertDescending(sorted, u);
      left := left - {u};
    }
  }

  method InsertDescending(sorted: seq<Uid>, u: Uid) returns (out: seq<Uid>)
    requires Descending(sorted) && u !in sorted
    ensures Descending(out)
    ensures forall v :: v in out <==> v in sorted || v == u
  {
    var i := 0;
    while i < |sorted| && sorted[i] > u
      invariant i <= |sorted|
      invariant forall k :: 0 <= k < i ==> sorted[k] > u
    {
      i := i + 1;
    }
    assert i < |sorted| ==> sorted[i] in sorted;
    out := InsertAt(sorted, i, u);
    forall v ensures v in out <==> v in sorted || v == u {
      assert v in multiset(out) <==> v in multiset(sorted) || v == u;
    }
  }

  /** Cutting the descending list of candidates after n leaves a page. */
  lemma CutPage(found: set<Uid>, start: Uid, rest: seq<Uid>, n: nat)
    requires Descending(rest) && Lists(rest, Below(found, start))
    ensures IsPage(found, start, n, if |rest| > n then rest[..n] else rest, |rest| > n)
  {
    if |rest| > n {
      var fetch := rest[..n];
      assert rest[n] in rest && rest[n] !in fetch;
      forall k | 0 <= k < n ensures rest[k] in fetch {
        assert fetch[k] == rest[k];
      }
      forall u, v | u in fetch && v in Below(found, start) && v !in fetch ensures v < u {
        assert v in rest;
        var k :| 0 <= k < |rest| && rest[k] == v;
        var i :| 0 <= i < |fetch| && fetch[i] == u;
      }
      forall u | u in fetch ensures u in Below(found, start) {
        assert u in rest;
      }
    }
  }

  /** The search, sort, filter and take of one listing call. */
  method ListMessages(found: set<Uid>, token: Option<Uid>, n: nat) returns (fetch: seq<Uid>, next: Option<Uid>)
    ensures exists more :: IsPage(found, StartAfter(token), n, fetch, more) &&
              next == if more && n > 0 then Some(fetch[n - 1]) else None
  {
    var sorted := SortDescending(found);
    var start := StartAfter(token);
    var skip := 0;
    while skip < |sorted| && sorted[skip] >= start
      invariant skip <= |sorted|
      invariant forall k :: 0 <= k < skip ==> sorted[k] >= start
    {
      skip := skip + 1;
    }
    var rest := sorted[skip..];
    forall u ensures u in rest <==> u in Below(found, start) {
      if u in Below(found, start) {
        var k :| 0 <= k < |sorted| && sorted[k] == u;
        assert rest[k - skip] == u;
      }
    }
    var paginated := if |rest| > n then rest[..n + 1] else rest;
    var more := |paginated| > n;
    fetch := if more then paginated[..n] else paginated;
    assert more ==> paginated[..n] == rest[..n];
    CutPage(found, start, rest, n);
    if |fetch| == 0 {
      return fetch, None;
    }
    next := if more then Some(fetch[|fetch| - 1]) else None;
  }

  // ---- Following the tokens ----

  /** The mailbox at the time of the k-th request, whether a UID fetched then comes back as a message that
      can be parsed, and the messages that do, in the server's own order. */
  datatype Server = Server(
    mailbox: nat -> set<Uid>,
    delivers: (nat, Uid) -> bool,
    reply: (nat, seq<Uid>) -> seq<Uid>)

  ghost predicate NoRepeats(uids: seq<Uid>) {
    forall i, j :: 0 <= i < j < |uids| ==> uids[i] != uids[j]
  }

  /** A fetch is answered with the messages asked for, each once. */
  ghost predicate HonestReplies(server: Server) {
    forall k, fetch :: IsReply(server, k, fetch)
  }

  ghost predicate IsReply(server: Server, k: nat, fetch: seq<Uid>) {
    && NoRepeats(server.reply(k, fetch))
    && forall u :: u in server.reply(k, fetch) <==> u in fetch && server.delivers(k, u)
  }

  /** Request k looked at the band of UIDs from bounds[k + 1] up to, not including, bounds[k]. */
  ghost predicate Bands(bounds: seq<Uid>) {
    && |bounds| >= 1
    && bounds[0] == U32_MAX
    && Descending(bounds)
  }

  ghost predicate InBand(bounds: seq<Uid>, k: nat, u: Uid)
    requires k + 1 < |bounds|
  {
    bounds[k + 1] <= u < bounds[k]
  }

  /** The UID is in the band of some request, was in the mailbox then, and was delivered then. */
  ghost predicate SeenInItsBand(server: Server, bounds: seq<Uid>, u: Uid) {
    exists k :: 0 <= k < |bounds| - 1 && InBand(bounds, k, u) && u in server.mailbox(k) && server.delivers(k, u)
  }

  /** Not one message of the request's band came back. */
  ghost predicate NothingDelivered(server: Server, bounds: seq<Uid>, k: nat)
    requires k + 1 < |bounds|
  {
    forall u :: u in server.mailbox(k) && InBand(bounds, k, u) ==> !server.delivers(k, u)
  }

  /** Request k asked for the largest UIDs below bounds[k], `n` at most, and led to bounds[k + 1]. */
  ghost predicate Requests(server: Server, n: nat, bounds: seq<Uid>, fetches: seq<seq<Uid>>) {
    && |bounds| == |fetches| + 1
    && forall k :: 0 <= k < |fetches| ==> IsRequest(server, n, bounds, k, fetches[k])
  }

  ghost predicate IsRequest(server: Server, n: nat, bounds: seq<Uid>, k: nat, fetch: seq<Uid>)
    requires k + 1 < |bounds|
  {
    && IsPage(server.mailbox(k), bounds[k], n, fetch, bounds[k + 1] > 0)
    && (bounds[k + 1] > 0 ==> |fetch| > 0 && fetch[|fetch| - 1] == bounds[k + 1])
  }

  /** The server's answers, in the order it gave them. */
  function Replies(server: Server, fetches: seq<seq<Uid>>): (pages: seq<seq<Uid>>)
    ensures |pages| == |fetches|
    ensures forall k :: 0 <= k < |fetches| ==> pages[k] == server.reply(k, fetches[k])
  {
    seq(|fetches|, k requires 0 <= k < |fetches| => server.reply(k, fetches[k]))
  }

  /** Page k brought exactly the messages delivered from its band, each once. */
  ghost predicate PagesAnswer(server: Server, bounds: seq<Uid>, pages: seq<seq<Uid>>) {
    && |bounds| == |pages| + 1
    && forall k :: 0 <= k < |pages| ==> PageAnswers(server, bounds, k, pages[k])
  }

  ghost predicate PageAnswers(server: Server, bounds: seq<Uid>, k: nat, page: seq<Uid>)
    requires k + 1 < |bounds|
  {
    && NoRepeats(page)
    && forall u :: u in page <==> u in server.mailbox(k) && InBand(bounds, k, u) && server.delivers(k, u)
  }

  function Concat(pages: seq<seq<Uid>>): seq<Uid> {
    if |pages| == 0 then [] else Concat(pages[..|pages| - 1]) + pages[|pages| - 1]
  }

  /** The sync loop over an IMAP mailbox: from no token until there is none, or until a page delivers
      nothing. `bounds` are the successive starting points and the final one, `fetches` the UIDs requested.
      The requests as a whole are descending, no UID is visited twice, every page lies below the pages before
      it, and the walk is descending exactly when the server gave each of its answers in descending order. */
  method FollowTokens(server: Server, n: nat)
    returns (visited: seq<Uid>, cutShort: bool, ghost bounds: seq<Uid>, ghost fetches: seq<seq<Uid>>)
    requires n >= 1 && HonestReplies(server)
    ensures Bands(bounds) && |bounds| >= 2
    ensures Requests(server, n, bounds, fetches) && Descending(Concat(fetches))
    ensures visited == Concat(Replies(server, fetches))
    ensures NoRepeats(visited) && Separated(Replies(server, fetches))
    ensures forall u :: u in visited <==> SeenInItsBand(server, bounds, u)
    ensures Descending(visited) <==> forall k :: 0 <= k < |fetches| ==> Descending(server.reply(k, fetches[k]))
    ensures cutShort <==> bounds[|bounds| - 1] > 0
    ensures cutShort ==> NothingDelivered(server, bounds, |bounds| - 2)
  {
    visited, bounds, fetches := [], [U32_MAX], [];
    var token: Option<Uid>, k := None, 0;
    while true
      invariant Bands(bounds) && |bounds| == k + 1
      invariant bounds[k] == StartAfter(token) && bounds[k] > 0
      invariant Requests(server, n, bounds, fetches) && visited == Concat(Replies(server, fetches))
      decreases StartAfter(token)
    {
      var fetch, next := ListMessages(server.mailbox(k), token, n);
      var delivered := server.reply(k, fetch);
      BandFetched(server.mailbox(k), StartAfter(token), n, fetch, next);
      ghost var bound := if next.Some? then next.value else 0;
      ExtendRequests(server, n, bounds, fetches, bound, fetch);
      visited, bounds, fetches := visited + delivered, bounds + [bound], fetches + [fetch];
      if next.None? || delivered == [] {
        cutShort := next.Some?;
        WalkEnds(server, n, bounds, fetches);
        RequestsDescend(server, n, bounds, fetches);
        assert next.Some? ==> Replies(server, fetches)[k] == [];
        return;
      }
      token := next;
      k := k + 1;
    }
  }

  /** What the requests of a walk mean for what it visited. */
  lemma WalkEnds(server: Server, n: nat, bounds: seq<Uid>, fetches: seq<seq<Uid>>)
    requires HonestReplies(server) && Bands(bounds) && |fetches| > 0 && Requests(server, n, bounds, fetches)
    ensures
      var pages := Replies(server, fetches);
      && NoRepeats(Concat(pages)) && Separated(pages)
      && (forall u :: u in Concat(pages) <==> SeenInItsBand(server, bounds, u))
      && (Descending(Concat(pages)) <==> forall k :: 0 <= k < |fetches| ==> Descending(server.reply(k, fetches[k])))
      && (pages[|fetches| - 1] == [] ==> NothingDelivered(server, bounds, |bounds| - 2))
  {
    var pages := Replies(server, fetches);
    RequestsAnswered(server, n, bounds, fetches);
    VisitedExactly(server, bounds, pages);
    PagesInOrder(server, bounds, pages);
    assert PageAnswers(server, bounds, |fetches| - 1, pages[|fetches| - 1]);
    assert forall k :: 0 <= k < |fetches| ==> pages[k] == server.reply(k, fetches[k]);
  }

  /** One more request, for one more band, fits the requests so far. */
  lemma ExtendRequests(server: Server, n: nat, bounds: seq<Uid>, fetches: seq<seq<Uid>>, bound: Uid, fetch: seq<Uid>)
    requires Bands(bounds) && Requests(server, n, bounds, fetches) && bound < bounds[|fetches|]
    requires IsPage(server.mailbox(|fetches|), bounds[|fetches|], n, fetch, bound > 0)
    requires bound > 0 ==> |fetch| > 0 && fetch[|fetch| - 1] == bound
    ensures Bands(bounds + [bound]) && Requests(server, n, bounds + [bound], fetches + [fetch])
    ensures Concat(Replies(server, fetches + [fetch])) == Concat(Replies(server, fetches)) + server.reply(|fetches|, fetch)
  {
    var bounds', fetches' := bounds + [bound], fetches + [fetch];
    forall k | 0 <= k < |fetches'| ensures IsRequest(server, n, bounds', k, fetches'[k]) {
      if k < |fetches| {
        assert IsRequest(server, n, bounds, k, fetches[k]);
      }
    }
    assert Replies(server, fetches')[..|fetches|] == Replies(server, fetches);
  }

  /** A request asks for exactly its band. */
  lemma RequestIsBand(server: Server, n: nat, bounds: seq<Uid>, k: nat, fetch: seq<Uid>)
    requires k + 1 < |bounds| && IsRequest(server, n, bounds, k, fetch)
    ensures Descending(fetch)
    ensures forall u :: u in fetch <==> u in server.mailbox(k) && InBand(bounds, k, u)
  {
    var found := server.mailbox(k);
    forall u | u in fetch ensures InBand(bounds, k, u) {
      assert u in Below(found, bounds[k]);
      var i :| 0 <= i < |fetch| && fetch[i] == u;
    }
    forall u | u in found && InBand(bounds, k, u) ensures u in fetch {
      assert u in Below(found, bounds[k]);
      assert bounds[k + 1] > 0 ==> fetch[|fetch| - 1] in fetch;
    }
  }

  lemma RequestsAnswered(server: Server, n: nat, bounds: seq<Uid>, fetches: seq<seq<Uid>>)
    requires HonestReplies(server) && Requests(server, n, bounds, fetches)
    ensures PagesAnswer(server, bounds, Replies(server, fetches))
  {
    forall k | 0 <= k < |fetches| ensures PageAnswers(server, bounds, k, Replies(server, fetches)[k]) {
      assert IsRequest(server, n, bounds, k, fetches[k]) && IsReply(server, k, fetches[k]);
      RequestIsBand(server, n, bounds, k, fetches[k]);
    }
  }

  lemma RequestsDescend(server: Server, n: nat, bounds: seq<Uid>, fetches: seq<seq<Uid>>)
    requires Bands(bounds) && Requests(server, n, bounds, fetches)
    ensures Descending(Concat(fetches))
  {
    var asked := Server(server.mailbox, (k, u) => true, (k, fetch) => fetch);
    forall k | 0 <= k < |fetches| ensures PageAnswers(asked, bounds, k, fetches[k]) && Descending(fetches[k]) {
      assert IsRequest(server, n, bounds, k, fetches[k]);
      RequestIsBand(server, n, bounds, k, fetches[k]);
    }
    PagesInOrder(asked, bounds, fetches);
  }

  lemma {:induction false} InConcat(pages: seq<seq<Uid>>, u: Uid)
    ensures u in Concat(pages) <==> exists k :: 0 <= k < |pages| && u in pages[k]
  {
    if |pages| == 0 {
    } else {
      var n := |pages| - 1;
      InConcat(pages[..n], u);
      assert forall k :: 0 <= k < n ==> pages[..n][k] == pages[k];
    }
  }

  lemma VisitedExactly(server: Server, bounds: seq<Uid>, pages: seq<seq<Uid>>)
    requires PagesAnswer(server, bounds, pages)
    ensures forall u :: u in Concat(pages) <==> SeenInItsBand(server, bounds, u)
  {
    forall u ensures u in Concat(pages) <==> SeenInItsBand(server, bounds, u) {
      InConcat(pages, u);
      if u in Concat(pages) {
        var k :| 0 <= k < |pages| && u in pages[k];
        assert PageAnswers(server, bounds, k, pages[k]);
      }
      if SeenInItsBand(server, bounds, u) {
        var k :| 0 <= k < |pages| && InBand(bounds, k, u) && u in server.mailbox(k) && server.delivers(k, u);
        assert PageAnswers(server, bounds, k, pages[k]);
      }
    }
  }

  /** Every UID of a later page is below every UID of an earlier one. */
  ghost predicate Separated(pages: seq<seq<Uid>>) {
    forall k, l, u, v :: 0 <= k < l < |pages| && u in pages[k] && v in pages[l] ==> v < u
  }

  lemma BandsSeparate(server: Server, bounds: seq<Uid>, pages: seq<seq<Uid>>)
    requires Bands(bounds) && PagesAnswer(server, bounds, pages)
    ensures Separated(pages)
  {
    forall k, l, u, v | 0 <= k < l < |pages| && u in pages[k] && v in pages[l] ensures v < u {
      assert PageAnswers(server, bounds, k, pages[k]) && PageAnswers(server, bounds, l, pages[l]);
      assert InBand(bounds, k, u) && InBand(bounds, l, v);
      assert l == k + 1 || bounds[k + 1] > bounds[l];
    }
  }

  lemma AppendBelow(a: seq<Uid>, b: seq<Uid>)
    requires forall u, v :: u in a && v in b ==> v < u
    ensures NoRepeats(a) && NoRepeats(b) ==> NoRepeats(a + b)
    ensures Descending(a + b) <==> Descending(a) && Descending(b)
  {
    var all := a + b;
    assert forall i :: 0 <= i < |a| ==> all[i] == a[i] && all[i] in a;
    assert forall j :: 0 <= j < |b| ==> all[|a| + j] == b[j] && b[j] in b;
    if Descending(all) {
      forall i, j | 0 <= i < j < |b| ensures b[i] > b[j] {
        assert all[|a| + i] > all[|a| + j];
      }
    }
  }

  lemma {:induction false} PagesInOrder(server: Server, bounds: seq<Uid>, pages: seq<seq<Uid>>)
    requires Bands(bounds) && PagesAnswer(server, bounds, pages)
    ensures NoRepeats(Concat(pages)) && Separated(pages)
    ensures Descending(Concat(pages)) <==> forall k :: 0 <= k < |pages| ==> Descending(pages[k])
  {
    BandsSeparate(server, bounds, pages);
    if |pages| == 0 {
    } else {
      var n := |pages| - 1;
      var front, last := pages[..n], pages[n];
      forall k | 0 <= k < n ensures PageAnswers(server, bounds[..n + 1], k, front[k]) {
        assert PageAnswers(server, bounds, k, pages[k]);
        assert forall u :: InBand(bounds[..n + 1], k, u) <==> InBand(bounds, k, u);
      }
      PagesInOrder(server, bounds[..n + 1], front);
      forall u, v | u in Concat(front) && v in last ensures v < u {
        InConcat(front, u);
      }
      AppendBelow(Concat(front), last);
      assert forall k :: 0 <= k < n ==> front[k] == pages[k];
    }
  }

  /** A server that answers from the oldest message up: a walk over two messages visits both, but in
      ascending order. */
  method AscendingWalk(server: Server, n: nat) returns (visited: seq<Uid>)
    requires n >= 2 && HonestReplies(server)
    requires server.mailbox(0) == {3, 5} && server.reply(0, [5, 3]) == [3, 5]
    ensures visited == [3, 5] && !Descending(visited)
  {
    var cutShort;
    ghost var bounds, fetches;
    visited, cutShort, bounds, fetches := FollowTokens(server, n);
    assert IsRequest(server, n, bounds, 0, fetches[0]);
    TwoMessages(server.mailbox(0), n, fetches[0], bounds[1] > 0);
    assert fetches == [[5, 3]];
    var pages := [[3, 5]];
    assert Replies(server, fetches) == pages;
    assert pages[..0] == [];
    assert Concat(pages) == [] + [3, 5];
    assert visited[0] < visited[1];
  }

  lemma TwoMessages(found: set<Uid>, n: nat, fetch: seq<Uid>, more: bool)
    requires found == {3, 5} && n >= 2 && IsPage(found, U32_MAX, n, fetch, more)
    ensures !more && fetch == [5, 3]
  {
    var below := Below(found, U32_MAX);
    assert 3 in below && 5 in below;
    assert forall i :: 0 <= i < |fetch| ==> fetch[i] in fetch && fetch[i] in below;
    if |fetch| > 0 {
      TwoApart(fetch, |fetch| - 1);
    }
    assert 3 in fetch && 5 in fetch;
  }

  lemma {:induction false} TwoApart(fetch: seq<Uid>, i: nat)
    requires Descending(fetch) && i < |fetch| && forall k :: 0 <= k < |fetch| ==> fetch[k] == 3 || fetch[k] == 5
    ensures fetch[i] + 2 * i <= 5
  {
    if i == 0 {
    } else {
      TwoApart(fetch, i - 1);
      assert fetch[i] < fetch[i - 1];
    }
  }

  /** A page fetches exactly its band: from its last UID, or from the bottom when nothing follows. */
  lemma BandFetched(found: set<Uid>, start: Uid, n: nat, fetch: seq<Uid>, next: Option<Uid>)
    requires n >= 1
    requires exists more :: IsPage(found, start, n, fetch, more) && next == if more then Some(fetch[n - 1]) else None
    ensures forall u :: u in fetch <==> u in found && (if next.Some? then next.value else 0) <= u < start
    ensures next.Some? ==> 0 < next.value < start
  {
    var more :| IsPage(found, start, n, fetch, more) && next == if more then Some(fetch[n - 1]) else None;
    if more {
      var v :| v in Below(found, start) && v !in fetch;
      assert fetch[n - 1] in fetch;
      assert v < fetch[n - 1];
    }
    forall u | u in found && (if next.Some? then next.value else 0) <= u < start ensures u in fetch {
      assert u in Below(found, start);
      assert more ==> fetch[n - 1] in fetch;
    }
    forall u | u in fetch ensures (if next.Some? then next.value else 0) <= u < start {
      assert u in Below(found, start);
      var i :| 0 <= i < |fetch| && fetch[i] == u;
    }
  }

  // ---- What the bands mean for a UID ----

  /** The bands partition the UIDs between the last bound and the top: each has exactly one request. */
  lemma {:induction false} OneBand(bounds: seq<Uid>, u: Uid) returns (k: nat)
    requires Bands(bounds) && bounds[|bounds| - 1] <= u < U32_MAX
    ensures k + 1 < |bounds| && InBand(bounds, k, u)
    ensures forall j :: 0 <= j < |bounds| - 1 && InBand(bounds, j, u) ==> j == k
  {
    var n := |bounds| - 1;
    if u < bounds[n - 1] {
      k := n - 1;
    } else {
      k := OneBand(bounds[..n], u);
      assert InBand(bounds, k, u);
    }
    assert forall i, j :: 0 <= i <= j < |bounds| ==> bounds[i] >= bounds[j];
  }

  /** A completed walk visits a UID below the maximum if and only if it was there, and delivered, when
      the one request for its band was made; messages expunged before that, or arriving after it, are not. */
  lemma VisitedIffThereAtItsRequest(server: Server, bounds: seq<Uid>, u: Uid) returns (k: nat)
    requires Bands(bounds) && bounds[|bounds| - 1] == 0 && u < U32_MAX
    ensures k + 1 < |bounds| && InBand(bounds, k, u)
    ensures SeenInItsBand(server, bounds, u) <==> u in server.mailbox(k) && server.delivers(k, u)
  {
    k := OneBand(bounds, u);
  }

  /** Every message that stays in the mailbox is visited. */
  lemma StableMessageVisited(server: Server, bounds: seq<Uid>, u: Uid)
    requires Bands(bounds) && bounds[|bounds| - 1] == 0 && u < U32_MAX
    requires forall k :: 0 <= k < |bounds| - 1 ==> u in server.mailbox(k) && server.delivers(k, u)
    ensures SeenInItsBand(server, bounds, u)
  {
    var k := VisitedIffThereAtItsRequest(server, bounds, u);
  }

  /** A message with a larger UID than any token handed out belongs to the first request's band: arriving
      later, it cannot disturb the walk, and this walk does not see it. */
  lemma LateArrivalNotVisited(server: Server, bounds: seq<Uid>, u: Uid)
    requires Bands(bounds) && |bounds| > 2 && u >= bounds[1]
    requires u !in server.mailbox(0)
    ensures !SeenInItsBand(server, bounds, u)
  {
    assert forall i, j :: 0 <= i <= j < |bounds| ==> bounds[i] >= bounds[j];
  }

  /** The largest UID is in no band: a listing from the top starts strictly below it. */
  lemma LargestUidNeverVisited(server: Server, bounds: seq<Uid>)
    requires Bands(bounds)
    ensures !SeenInItsBand(server, bounds, U32_MAX)
  {
    forall k | 0 <= k < |bounds| - 1 ensures !InBand(bounds, k, U32_MAX) {
      assert k > 0 ==> bounds[k] < bounds[0];
    }
  }
}
