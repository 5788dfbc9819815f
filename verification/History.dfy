/** Gmail history windows: the aggregation of change records into a delta, the merging of pages, and
    the conversion to the typed response. */
module History {
  import opened Option

  datatype LabelChange = LabelChange(messageId: string, labels: seq<string>)

  datatype Record = Record(
    added: seq<string>,
    deleted: seq<string>,
    labelsAdded: seq<LabelChange>,
    labelsRemoved: seq<LabelChange>)

  /** The labels a window adds to and removes from one message. */
  datatype LabelPair = LabelPair(added: seq<string>, removed: seq<string>)

  datatype LabelDelta = LabelDelta(messageId: string, labels: LabelPair)

  datatype Delta = Delta(
    added: seq<string>,
    deleted: seq<string>,
    labelChanges: seq<LabelDelta>,
    newHistoryId: Option<string>)

  // ---- Reference reading of a window: what happened, in order, with repetitions ----

  function FlatMap<T>(xs: seq<T>, f: T -> seq<string>): seq<string> {
    if |xs| == 0 then [] else FlatMap(xs[..|xs| - 1], f) + f(xs[|xs| - 1])
  }

  const AddedIn: Record -> seq<string> := (r: Record) => r.added
  const DeletedIn: Record -> seq<string> := (r: Record) => r.deleted

  function LabelsIfFor(id: string): LabelChange -> seq<string> {
    (c: LabelChange) => if c.messageId == id then c.labels else []
  }

  function AddedLabelsIn(id: string): Record -> seq<string> {
    (r: Record) => LabelsFor(r.labelsAdded, id)
  }

  function RemovedLabelsIn(id: string): Record -> seq<string> {
    (r: Record) => LabelsFor(r.labelsRemoved, id)
  }

  function AddedIds(records: seq<Record>): seq<string> {
    FlatMap(records, AddedIn)
  }

  function DeletedIds(records: seq<Record>): seq<string> {
    FlatMap(records, DeletedIn)
  }

  function LabelsFor(changes: seq<LabelChange>, id: string): seq<string> {
    FlatMap(changes, LabelsIfFor(id))
  }

  function AddedLabels(records: seq<Record>, id: string): seq<string> {
    FlatMap(records, AddedLabelsIn(id))
  }

  function RemovedLabels(records: seq<Record>, id: string): seq<string> {
    FlatMap(records, RemovedLabelsIn(id))
  }

  lemma {:induction false} FlatMapConcat<T>(a: seq<T>, b: seq<T>, f: T -> seq<string>)
    ensures FlatMap(a + b, f) == FlatMap(a, f) + FlatMap(b, f)
  {
    if |b| == 0 {
      assert a + b == a;
    } else {
      var whole, n := a + b, |b| - 1;
      assert whole[..|whole| - 1] == a + b[..n] && whole[|whole| - 1] == b[n];
      FlatMapConcat(a, b[..n], f);
      assert FlatMap(a + b, f) == (FlatMap(a, f) + FlatMap(b[..n], f)) + f(b[n]);
    }
  }

  lemma FlatMapOne<T>(x: T, f: T -> seq<string>)
    ensures FlatMap([x], f) == f(x)
  {
    assert [x][..0] == [];
  }

  /** A window of one record says what the record says. */
  lemma OneRecord(record: Record, id: string)
    ensures AddedIds([record]) == record.added && DeletedIds([record]) == record.deleted
    ensures AddedLabels([record], id) == LabelsFor(record.labelsAdded, id)
    ensures RemovedLabels([record], id) == LabelsFor(record.labelsRemoved, id)
  {
    FlatMapOne(record, AddedIn);
    FlatMapOne(record, DeletedIn);
    FlatMapOne(record, AddedLabelsIn(id));
    FlatMapOne(record, RemovedLabelsIn(id));
  }

  predicate Mentions(changes: seq<LabelChange>, id: string) {
    exists i | 0 <= i < |changes| :: changes[i].messageId == id
  }

  /** Some label change of the window, possibly with an empty label list, names the message. */
  predicate Relabelled(records: seq<Record>, id: string) {
    exists i | 0 <= i < |records| :: Mentions(records[i].labelsAdded, id) || Mentions(records[i].labelsRemoved, id)
  }

  // ---- Deduplication in order of first occurrence ----

  /** `Vec::push` guarded by `contains`, over a list of candidates. */
  function PushNew(acc: seq<string>, xs: seq<string>): seq<string> {
    if |xs| == 0 then acc
    else
      var front := PushNew(acc, xs[..|xs| - 1]);
      if xs[|xs| - 1] in front then front else front + [xs[|xs| - 1]]
  }

  function Dedup(xs: seq<string>): seq<string> {
    PushNew([], xs)
  }

  ghost predicate NoRepeats<T>(xs: seq<T>) {
    forall i, j :: 0 <= i < j < |xs| ==> xs[i] != xs[j]
  }

  function FirstIndex(xs: seq<string>, x: string): (i: nat)
    requires x in xs
    ensures i < |xs| && xs[i] == x && x !in xs[..i]
  {
    if x in xs[..|xs| - 1] then FirstIndex(xs[..|xs| - 1], x)
    else
      assert xs == xs[..|xs| - 1] + [xs[|xs| - 1]];
      |xs| - 1
  }

  lemma {:induction false} PushNewConcat(acc: seq<string>, xs: seq<string>, ys: seq<string>)
    ensures PushNew(acc, xs + ys) == PushNew(PushNew(acc, xs), ys)
  {
    if |ys| == 0 {
      assert xs + ys == xs;
    } else {
      var whole := xs + ys;
      assert whole[..|whole| - 1] == xs + ys[..|ys| - 1];
      PushNewConcat(acc, xs, ys[..|ys| - 1]);
    }
  }

  /** Deduplication lists each value once, loses none and invents none. */
  lemma {:induction false} DedupSameElements(xs: seq<string>)
    ensures NoRepeats(Dedup(xs))
    ensures forall x :: x in Dedup(xs) <==> x in xs
  {
    if |xs| == 0 {
    } else {
      DedupSameElements(xs[..|xs| - 1]);
      assert xs == xs[..|xs| - 1] + [xs[|xs| - 1]];
    }
  }

  lemma FirstIndexExtend(xs: seq<string>, y: string, x: string)
    requires x in xs
    ensures FirstIndex(xs + [y], x) == FirstIndex(xs, x)
  {
    assert (xs + [y])[..|xs|] == xs;
  }

  /** ... and lists them in the order in which they first occur. */
  lemma {:induction false} DedupFirstOccurrenceOrder(xs: seq<string>, i: nat, j: nat)
    requires i < j < |Dedup(xs)|
    ensures Dedup(xs)[i] in xs && Dedup(xs)[j] in xs
    ensures FirstIndex(xs, Dedup(xs)[i]) < FirstIndex(xs, Dedup(xs)[j])
  {
    DedupSameElements(xs);
    var front, last := xs[..|xs| - 1], xs[|xs| - 1];
    assert xs == front + [last];
    DedupSameElements(front);
    var d := Dedup(front);
    FirstIndexExtend(front, last, d[i]);
    if j < |d| {
      DedupFirstOccurrenceOrder(front, i, j);
      FirstIndexExtend(front, last, d[j]);
    }
  }

  // ---- The parser ----

  type LabelMap = map<string, LabelPair>

  function EntryOf(m: LabelMap, id: string): LabelPair {
    if id in m then m[id] else LabelPair([], [])
  }

  function NoteAdded(m: LabelMap, changes: seq<LabelChange>): LabelMap {
    if |changes| == 0 then m
    else
      var front, c := NoteAdded(m, changes[..|changes| - 1]), changes[|changes| - 1];
      var e := EntryOf(front, c.messageId);
      front[c.messageId := e.(added := PushNew(e.added, c.labels))]
  }

  function NoteRemoved(m: LabelMap, changes: seq<LabelChange>): LabelMap {
    if |changes| == 0 then m
    else
      var front, c := NoteRemoved(m, changes[..|changes| - 1]), changes[|changes| - 1];
      var e := EntryOf(front, c.messageId);
      front[c.messageId := e.(removed := PushNew(e.removed, c.labels))]
  }

  function LabelMapOf(records: seq<Record>): LabelMap {
    if |records| == 0 then map[]
    else
      var last := records[|records| - 1];
      NoteRemoved(NoteAdded(LabelMapOf(records[..|records| - 1]), last.labelsAdded), last.labelsRemoved)
  }

  /** `changes` is the content of the hash map `m` in some iteration order. */
  ghost predicate Enumerates(changes: seq<LabelDelta>, m: LabelMap) {
    && (forall i, j :: 0 <= i < j < |changes| ==> changes[i].messageId != changes[j].messageId)
    && (forall i :: 0 <= i < |changes| ==>
         changes[i].messageId in m && changes[i].labels == m[changes[i].messageId])
    && (forall id :: id in m ==> exists i :: 0 <= i < |changes| && changes[i].messageId == id)
  }

  /** What a parsed window must be, whatever the iteration order of the hash map was. */
  ghost predicate IsParseOf(delta: Delta, records: seq<Record>, historyId: Option<string>) {
    && delta.added == Dedup(AddedIds(records))
    && delta.deleted == Dedup(DeletedIds(records))
    && Enumerates(delta.labelChanges, LabelMapOf(records))
    && delta.newHistoryId == historyId
  }

  method PushUnique(acc: seq<string>, xs: seq<string>) returns (out: seq<string>)
    ensures out == PushNew(acc, xs)
  {
    out := acc;
    for k := 0 to |xs|
      invariant out == PushNew(acc, xs[..k])
    {
      assert xs[..k + 1][..k] == xs[..k];
      if xs[k] !in out {
        out := out + [xs[k]];
      }
    }
    assert xs[..|xs|] == xs;
  }

  method NoteLabels(m: LabelMap, changes: seq<LabelChange>, adding: bool) returns (out: LabelMap)
    ensures out == if adding then NoteAdded(m, changes) else NoteRemoved(m, changes)
  {
    out := m;
    for k := 0 to |changes|
      invariant out == if adding then NoteAdded(m, changes[..k]) else NoteRemoved(m, changes[..k])
    {
      assert changes[..k + 1][..k] == changes[..k];
      var c := changes[k];
      var e := EntryOf(out, c.messageId);
      if adding {
        var labels := PushUnique(e.added, c.labels);
        out := out[c.messageId := e.(added := labels)];
      } else {
        var labels := PushUnique(e.removed, c.labels);
        out := out[c.messageId := e.(removed := labels)];
      }
    }
    assert changes[..|changes|] == changes;
  }

  /** The final loop over the hash map: any order the map hands its entries out in. */
  method DrainMap(m: LabelMap) returns (changes: seq<LabelDelta>)
    ensures Enumerates(changes, m)
  {
    changes := [];
    var left := m.Keys;
    while left != {}
      invariant left <= m.Keys
      invariant forall i :: 0 <= i < |changes| ==>
                  changes[i].messageId in m.Keys - left && changes[i].labels == m[changes[i].messageId]
      invariant forall i, j :: 0 <= i < j < |changes| ==> changes[i].messageId != changes[j].messageId
      invariant forall id :: id in m && id !in left ==> exists i :: 0 <= i < |changes| && changes[i].messageId == id
      decreases left
    {
      var id :| id in left;
      ghost var before := changes;
      changes := changes + [LabelDelta(id, m[id])];
      left := left - {id};
      forall x | x in m && x !in left ensures exists i :: 0 <= i < |changes| && changes[i].messageId == x {
        if x == id {
          assert changes[|before|].messageId == x;
        } else {
          var i :| 0 <= i < |before| && before[i].messageId == x;
          assert changes[i].messageId == x;
        }
      }
    }
  }

  method ParseGmailHistory(records: seq<Record>, historyId: Option<string>) returns (delta: Delta)
    ensures IsParseOf(delta, records, historyId)
  {
    var added, deleted: seq<string> := [], [];
    var labels: LabelMap := map[];
    for k := 0 to |records|
      invariant added == Dedup(AddedIds(records[..k]))
      invariant deleted == Dedup(DeletedIds(records[..k]))
      invariant labels == LabelMapOf(records[..k])
    {
      assert records[..k + 1][..k] == records[..k];
      PushNewConcat([], AddedIds(records[..k]), records[k].added);
      PushNewConcat([], DeletedIds(records[..k]), records[k].deleted);
      added := PushUnique(added, records[k].added);
      deleted := PushUnique(deleted, records[k].deleted);
      labels := NoteLabels(labels, records[k].labelsAdded, true);
      labels := NoteLabels(labels, records[k].labelsRemoved, false);
    }
    assert records[..|records|] == records;
    var changes := DrainMap(labels);
    delta := Delta(added, deleted, changes, historyId);
  }

  // ---- Every window has a parse ----

  lemma EnumerationNext(front: seq<LabelDelta>, m: LabelMap, id: string)
    requires id in m && Enumerates(front, m - {id})
    ensures Enumerates(front + [LabelDelta(id, m[id])], m)
  {
    var changes := front + [LabelDelta(id, m[id])];
    forall x | x in m ensures exists i :: 0 <= i < |changes| && changes[i].messageId == x {
      if x == id {
        assert changes[|front|].messageId == x;
      } else {
        assert x in m - {id};
        var i :| 0 <= i < |front| && front[i].messageId == x;
        assert changes[i].messageId == x;
      }
    }
  }

  lemma {:induction false} SomeEnumeration(m: LabelMap) returns (changes: seq<LabelDelta>)
    ensures Enumerates(changes, m)
    decreases m.Keys
  {
    if m.Keys == {} {
      changes := [];
    } else {
      var id :| id in m.Keys;
      var front := SomeEnumeration(m - {id});
      EnumerationNext(front, m, id);
      changes := front + [LabelDelta(id, m[id])];
    }
  }

  lemma SomeParse(records: seq<Record>, historyId: Option<string>) returns (delta: Delta)
    ensures IsParseOf(delta, records, historyId)
  {
    var changes := SomeEnumeration(LabelMapOf(records));
    delta := Delta(Dedup(AddedIds(records)), Dedup(DeletedIds(records)), changes, historyId);
  }

  // ---- The aggregation against the reference reading ----

  lemma {:induction false} NoteAddedEntry(m: LabelMap, changes: seq<LabelChange>, id: string)
    ensures id in NoteAdded(m, changes) <==> id in m || Mentions(changes, id)
    ensures EntryOf(NoteAdded(m, changes), id) ==
            LabelPair(PushNew(EntryOf(m, id).added, LabelsFor(changes, id)), EntryOf(m, id).removed)
  {
    if |changes| == 0 {
    } else {
      var n := |changes| - 1;
      NoteAddedEntry(m, changes[..n], id);
      MentionsStep(changes, id);
      PushNewConcat(EntryOf(m, id).added, LabelsFor(changes[..n], id),
                    if changes[n].messageId == id then changes[n].labels else []);
    }
  }

  lemma {:induction false} NoteRemovedEntry(m: LabelMap, changes: seq<LabelChange>, id: string)
    ensures id in NoteRemoved(m, changes) <==> id in m || Mentions(changes, id)
    ensures EntryOf(NoteRemoved(m, changes), id) ==
            LabelPair(EntryOf(m, id).added, PushNew(EntryOf(m, id).removed, LabelsFor(changes, id)))
  {
    if |changes| == 0 {
    } else {
      var n := |changes| - 1;
      NoteRemovedEntry(m, changes[..n], id);
      MentionsStep(changes, id);
      PushNewConcat(EntryOf(m, id).removed, LabelsFor(changes[..n], id),
                    if changes[n].messageId == id then changes[n].labels else []);
    }
  }

  lemma MentionsStep(changes: seq<LabelChange>, id: string)
    requires |changes| > 0
    ensures Mentions(changes, id) <==>
            Mentions(changes[..|changes| - 1], id) || changes[|changes| - 1].messageId == id
  {
    if Mentions(changes[..|changes| - 1], id) {
      var i :| 0 <= i < |changes| - 1 && changes[..|changes| - 1][i].messageId == id;
      assert changes[i].messageId == id;
    }
    if Mentions(changes, id) && changes[|changes| - 1].messageId != id {
      var i :| 0 <= i < |changes| && changes[i].messageId == id;
      assert changes[..|changes| - 1][i].messageId == id;
    }
  }

  lemma RelabelledStep(records: seq<Record>, id: string)
    requires |records| > 0
    ensures Relabelled(records, id) <==>
            || Relabelled(records[..|records| - 1], id)
            || Mentions(records[|records| - 1].labelsAdded, id)
            || Mentions(records[|records| - 1].labelsRemoved, id)
  {
    var n := |records| - 1;
    if Relabelled(records[..n], id) {
      var i :| 0 <= i < n && (Mentions(records[..n][i].labelsAdded, id) || Mentions(records[..n][i].labelsRemoved, id));
      assert records[i] == records[..n][i];
    }
    if Relabelled(records, id) {
      var i :| 0 <= i <= n && (Mentions(records[i].labelsAdded, id) || Mentions(records[i].labelsRemoved, id));
      if i < n {
        assert records[i] == records[..n][i];
      }
    }
  }

  /** One entry per relabelled message, holding the deduplicated unions of its label lists. */
  lemma {:induction false} LabelMapAggregates(records: seq<Record>, id: string)
    ensures id in LabelMapOf(records) <==> Relabelled(records, id)
    ensures EntryOf(LabelMapOf(records), id) ==
            LabelPair(Dedup(AddedLabels(records, id)), Dedup(RemovedLabels(records, id)))
  {
    if |records| == 0 {
    } else {
      var n := |records| - 1;
      var front, last := LabelMapOf(records[..n]), records[n];
      LabelMapAggregates(records[..n], id);
      RelabelledStep(records, id);
      NoteAddedEntry(front, last.labelsAdded, id);
      NoteRemovedEntry(NoteAdded(front, last.labelsAdded), last.labelsRemoved, id);
      PushNewConcat([], AddedLabels(records[..n], id), LabelsFor(last.labelsAdded, id));
      PushNewConcat([], RemovedLabels(records[..n], id), LabelsFor(last.labelsRemoved, id));
    }
  }

  // ---- Pages ----

  datatype HistoryPage = HistoryPage(records: seq<Record>, historyId: Option<string>, nextPageToken: Option<string>)

  /** The pages a walk along the tokens sees: up to and including the first without a next token. */
  function PagesRead(pages: seq<HistoryPage>): seq<HistoryPage> {
    if |pages| == 0 then []
    else if pages[0].nextPageToken.None? then [pages[0]]
    else [pages[0]] + PagesRead(pages[1..])
  }

  function AllRecords(pages: seq<HistoryPage>): seq<Record> {
    if |pages| == 0 then [] else AllRecords(pages[..|pages| - 1]) + pages[|pages| - 1].records
  }

  function LatestHistoryId(pages: seq<HistoryPage>): Option<string> {
    if |pages| == 0 then None
    else if pages[|pages| - 1].historyId.Some? then pages[|pages| - 1].historyId
    else LatestHistoryId(pages[..|pages| - 1])
  }

  /** The latest history id is that of the last page that has one. */
  lemma {:induction false} LatestIsLast(pages: seq<HistoryPage>, k: nat)
    requires k < |pages| && pages[k].historyId.Some?
    requires forall j :: k < j < |pages| ==> pages[j].historyId.None?
    ensures LatestHistoryId(pages) == pages[k].historyId
  {
    if k == |pages| - 1 {
    } else {
      LatestIsLast(pages[..|pages| - 1], k);
    }
  }

  lemma {:induction false} NoLatest(pages: seq<HistoryPage>)
    requires forall j :: 0 <= j < |pages| ==> pages[j].historyId.None?
    ensures LatestHistoryId(pages) == None
  {
    if |pages| == 0 {
    } else {
      NoLatest(pages[..|pages| - 1]);
    }
  }

  /** The label sets a list of entries gives a message, all its entries together. */
  ghost function AddedUnion(changes: seq<LabelDelta>, id: string): set<string> {
    set i, l | 0 <= i < |changes| && changes[i].messageId == id && l in changes[i].labels.added :: l
  }

  ghost function RemovedUnion(changes: seq<LabelDelta>, id: string): set<string> {
    set i, l | 0 <= i < |changes| && changes[i].messageId == id && l in changes[i].labels.removed :: l
  }

  function Elements<T(==)>(xs: seq<T>): set<T> {
    set x | x in xs
  }

  /** What a delta says about the mailbox, forgetting order and repetition. */
  ghost predicate SaysSameAs(delta: Delta, records: seq<Record>) {
    && Elements(delta.added) == Elements(AddedIds(records))
    && Elements(delta.deleted) == Elements(DeletedIds(records))
    && (forall id :: AddedUnion(delta.labelChanges, id) == Elements(AddedLabels(records, id)))
    && (forall id :: RemovedUnion(delta.labelChanges, id) == Elements(RemovedLabels(records, id)))
  }

  lemma ParseUnions(delta: Delta, records: seq<Record>, historyId: Option<string>, id: string)
    requires IsParseOf(delta, records, historyId)
    ensures AddedUnion(delta.labelChanges, id) == Elements(AddedLabels(records, id))
    ensures RemovedUnion(delta.labelChanges, id) == Elements(RemovedLabels(records, id))
  {
    LabelMapAggregates(records, id);
    DedupSameElements(AddedLabels(records, id));
    DedupSameElements(RemovedLabels(records, id));
    var m := LabelMapOf(records);
    if id in m {
      var k :| 0 <= k < |delta.labelChanges| && delta.labelChanges[k].messageId == id;
      forall l | l in EntryOf(m, id).added ensures l in AddedUnion(delta.labelChanges, id) {
        assert l in delta.labelChanges[k].labels.added;
      }
      forall l | l in EntryOf(m, id).removed ensures l in RemovedUnion(delta.labelChanges, id) {
        assert l in delta.labelChanges[k].labels.removed;
      }
    } else {
      assert Dedup(AddedLabels(records, id)) == [] == Dedup(RemovedLabels(records, id));
      assert forall l :: l in AddedLabels(records, id) ==> l in Dedup(AddedLabels(records, id));
      assert forall l :: l in RemovedLabels(records, id) ==> l in Dedup(RemovedLabels(records, id));
    }
  }

  lemma ParseSaysSame(delta: Delta, records: seq<Record>, historyId: Option<string>)
    requires IsParseOf(delta, records, historyId)
    ensures SaysSameAs(delta, records)
  {
    DedupSameElements(AddedIds(records));
    DedupSameElements(DeletedIds(records));
    forall id {
      ParseUnions(delta, records, historyId, id);
    }
  }

  lemma ElementsConcat<T>(a: seq<T>, b: seq<T>)
    ensures Elements(a + b) == Elements(a) + Elements(b)
  {
  }

  lemma UnionsConcat(a: seq<LabelDelta>, b: seq<LabelDelta>, id: string)
    ensures AddedUnion(a + b, id) == AddedUnion(a, id) + AddedUnion(b, id)
    ensures RemovedUnion(a + b, id) == RemovedUnion(a, id) + RemovedUnion(b, id)
  {
    var w := a + b;
    assert forall i :: 0 <= i < |a| ==> w[i] == a[i];
    assert forall i :: 0 <= i < |b| ==> w[|a| + i] == b[i];
    forall l | l in AddedUnion(w, id) ensures l in AddedUnion(a, id) + AddedUnion(b, id) {
      var i :| 0 <= i < |w| && w[i].messageId == id && l in w[i].labels.added;
      assert i < |a| || w[i] == b[i - |a|];
    }
    forall l | l in RemovedUnion(w, id) ensures l in RemovedUnion(a, id) + RemovedUnion(b, id) {
      var i :| 0 <= i < |w| && w[i].messageId == id && l in w[i].labels.removed;
      assert i < |a| || w[i] == b[i - |a|];
    }
    forall l | l in AddedUnion(b, id) ensures l in AddedUnion(w, id) {
      var i :| 0 <= i < |b| && b[i].messageId == id && l in b[i].labels.added;
      assert w[|a| + i] == b[i];
    }
    forall l | l in RemovedUnion(b, id) ensures l in RemovedUnion(w, id) {
      var i :| 0 <= i < |b| && b[i].messageId == id && l in b[i].labels.removed;
      assert w[|a| + i] == b[i];
    }
  }

  /** Appending a page's delta to what was merged so far says the same as parsing one longer window. */
  lemma MergeSaysSame(merged: Delta, page: Delta, before: seq<Record>, records: seq<Record>, historyId: Option<string>)
    requires SaysSameAs(merged, before) && SaysSameAs(page, records)
    ensures SaysSameAs(Delta(merged.added + page.added, merged.deleted + page.deleted,
                             merged.labelChanges + page.labelChanges, historyId), before + records)
  {
    var d := Delta(merged.added + page.added, merged.deleted + page.deleted,
                   merged.labelChanges + page.labelChanges, historyId);
    FlatMapConcat(before, records, AddedIn);
    FlatMapConcat(before, records, DeletedIn);
    ElementsConcat(merged.added, page.added);
    ElementsConcat(AddedIds(before), AddedIds(records));
    ElementsConcat(merged.deleted, page.deleted);
    ElementsConcat(DeletedIds(before), DeletedIds(records));
    forall id
      ensures AddedUnion(d.labelChanges, id) == Elements(AddedLabels(before + records, id))
      ensures RemovedUnion(d.labelChanges, id) == Elements(RemovedLabels(before + records, id))
    {
      FlatMapConcat(before, records, AddedLabelsIn(id));
      FlatMapConcat(before, records, RemovedLabelsIn(id));
      ElementsConcat(AddedLabels(before, id), AddedLabels(records, id));
      ElementsConcat(RemovedLabels(before, id), RemovedLabels(records, id));
      UnionsConcat(merged.labelChanges, page.labelChanges, id);
    }
  }

  lemma {:induction false} PagesReadUpTo(pages: seq<HistoryPage>, k: nat)
    requires k < |pages| && pages[k].nextPageToken.None?
    requires forall i :: 0 <= i < k ==> pages[i].nextPageToken.Some?
    ensures PagesRead(pages) == pages[..k + 1]
  {
    if k == 0 {
    } else {
      PagesReadUpTo(pages[1..], k - 1);
    }
  }

  /** The walk over all history pages. The provider's answers are `pages`, in request order; the walk
      ends at the first page without a token. */
  method HistoryListAll(pages: seq<HistoryPage>) returns (delta: Delta)
    requires exists k :: 0 <= k < |pages| && pages[k].nextPageToken.None?
    ensures SaysSameAs(delta, AllRecords(PagesRead(pages)))
    ensures delta.newHistoryId == LatestHistoryId(PagesRead(pages))
  {
    ghost var last :| 0 <= last < |pages| && pages[last].nextPageToken.None?;
    delta := Delta([], [], [], None);
    var k := 0;
    while true
      invariant k <= last
      invariant forall i :: 0 <= i < k ==> pages[i].nextPageToken.Some?
      invariant SaysSameAs(delta, AllRecords(pages[..k]))
      invariant delta.newHistoryId == LatestHistoryId(pages[..k])
      decreases |pages| - k
    {
      var page := pages[k];
      assert pages[..k + 1][..k] == pages[..k];
      delta := MergePage(delta, page, AllRecords(pages[..k]));
      if page.nextPageToken.None? {
        PagesReadUpTo(pages, k);
        return;
      }
      k := k + 1;
    }
  }

  /** One turn of the walk: parse the page, extend the three lists, keep the latest history id. */
  method MergePage(merged: Delta, page: HistoryPage, ghost before: seq<Record>) returns (delta: Delta)
    requires SaysSameAs(merged, before)
    ensures SaysSameAs(delta, before + page.records)
    ensures delta.newHistoryId == if page.historyId.Some? then page.historyId else merged.newHistoryId
  {
    var one := ParseGmailHistory(page.records, page.historyId);
    ParseSaysSame(one, page.records, page.historyId);
    var latest := if one.newHistoryId.Some? then one.newHistoryId else merged.newHistoryId;
    MergeSaysSame(merged, one, before, page.records, latest);
    delta := Delta(merged.added + one.added, merged.deleted + one.deleted,
                   merged.labelChanges + one.labelChanges, latest);
  }

  // ---- The typed response ----

  datatype HistoryResponse = HistoryResponse(
    added: seq<string>,
    deleted: seq<string>,
    labelsAdded: seq<LabelChange>,
    labelsRemoved: seq<LabelChange>,
    newHistoryId: string)

  function TypedAdded(changes: seq<LabelDelta>): seq<LabelChange> {
    if |changes| == 0 then []
    else
      var c := changes[|changes| - 1];
      TypedAdded(changes[..|changes| - 1]) +
      if c.labels.added == [] then [] else [LabelChange(c.messageId, c.labels.added)]
  }

  function TypedRemoved(changes: seq<LabelDelta>): seq<LabelChange> {
    if |changes| == 0 then []
    else
      var c := changes[|changes| - 1];
      TypedRemoved(changes[..|changes| - 1]) +
      if c.labels.removed == [] then [] else [LabelChange(c.messageId, c.labels.removed)]
  }

  function Typed(delta: Delta): HistoryResponse {
    HistoryResponse(delta.added, delta.deleted, TypedAdded(delta.labelChanges), TypedRemoved(delta.labelChanges),
                    delta.newHistoryId.GetOr(""))
  }

  /** The id lists are taken over as they are; a missing history id becomes the empty string. */
  lemma TypedLists(delta: Delta)
    ensures Typed(delta).added == delta.added && Typed(delta).deleted == delta.deleted
    ensures delta.newHistoryId.Some? ==> Typed(delta).newHistoryId == delta.newHistoryId.value
    ensures delta.newHistoryId.None? ==> Typed(delta).newHistoryId == ""
  {
  }

  /** An entry of either direction has labels, and there is at most one for each aggregated entry. */
  lemma {:induction false} TypedEntries(changes: seq<LabelDelta>)
    ensures forall i :: 0 <= i < |TypedAdded(changes)| ==> TypedAdded(changes)[i].labels != []
    ensures forall i :: 0 <= i < |TypedRemoved(changes)| ==> TypedRemoved(changes)[i].labels != []
    ensures |TypedAdded(changes)| <= |changes| && |TypedRemoved(changes)| <= |changes|
  {
    if |changes| == 0 {
    } else {
      TypedEntries(changes[..|changes| - 1]);
    }
  }

  lemma LabelsForExtend(changes: seq<LabelChange>, c: LabelChange, id: string)
    ensures LabelsFor(changes + [c], id) == LabelsFor(changes, id) + if c.messageId == id then c.labels else []
  {
    FlatMapConcat(changes, [c], LabelsIfFor(id));
    assert [c][..0] == [];
    assert FlatMap([c], LabelsIfFor(id)) == LabelsIfFor(id)(c);
  }

  lemma {:induction false} TypedAddedKeepsPairs(changes: seq<LabelDelta>, id: string)
    ensures Elements(LabelsFor(TypedAdded(changes), id)) == AddedUnion(changes, id)
  {
    if |changes| == 0 {
    } else {
      var front, c := changes[..|changes| - 1], changes[|changes| - 1];
      var typed, labels := TypedAdded(front), if c.messageId == id then c.labels.added else [];
      TypedAddedKeepsPairs(front, id);
      assert changes == front + [c];
      UnionsConcat(front, [c], id);
      SingleUnion(c, id);
      assert LabelsFor(TypedAdded(changes), id) == LabelsFor(typed, id) + labels by {
        if c.labels.added == [] {
          assert TypedAdded(changes) == typed;
        } else {
          LabelsForExtend(typed, LabelChange(c.messageId, c.labels.added), id);
        }
      }
      ElementsConcat(LabelsFor(typed, id), labels);
    }
  }

  lemma {:induction false} TypedRemovedKeepsPairs(changes: seq<LabelDelta>, id: string)
    ensures Elements(LabelsFor(TypedRemoved(changes), id)) == RemovedUnion(changes, id)
  {
    if |changes| == 0 {
    } else {
      var front, c := changes[..|changes| - 1], changes[|changes| - 1];
      var typed, labels := TypedRemoved(front), if c.messageId == id then c.labels.removed else [];
      TypedRemovedKeepsPairs(front, id);
      assert changes == front + [c];
      UnionsConcat(front, [c], id);
      SingleUnion(c, id);
      assert LabelsFor(TypedRemoved(changes), id) == LabelsFor(typed, id) + labels by {
        if c.labels.removed == [] {
          assert TypedRemoved(changes) == typed;
        } else {
          LabelsForExtend(typed, LabelChange(c.messageId, c.labels.removed), id);
        }
      }
      ElementsConcat(LabelsFor(typed, id), labels);
    }
  }

  /** Leaving out empty lists loses no (message, label) pair of either direction. */
  lemma TypedKeepsPairs(delta: Delta, id: string)
    ensures Elements(LabelsFor(Typed(delta).labelsAdded, id)) == AddedUnion(delta.labelChanges, id)
    ensures Elements(LabelsFor(Typed(delta).labelsRemoved, id)) == RemovedUnion(delta.labelChanges, id)
  {
    TypedAddedKeepsPairs(delta.labelChanges, id);
    TypedRemovedKeepsPairs(delta.labelChanges, id);
  }

  lemma SingleUnion(c: LabelDelta, id: string)
    ensures AddedUnion([c], id) == if c.messageId == id then Elements(c.labels.added) else {}
    ensures RemovedUnion([c], id) == if c.messageId == id then Elements(c.labels.removed) else {}
  {
    assert [c][0] == c;
  }
}
