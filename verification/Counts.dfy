/** The dashboard counts and the size of the default listing, computed over the `emails` table. */
module Counts {
  import opened Option
  import opened Labels
  import opened EmailRows
  import opened EmailStore

  function Matching(t: Table, p: Row -> bool): set<string> {
    set id | id in t && p(t[id])
  }

  /** SELECT COUNT(*) ... WHERE p */
  function Count(t: Table, p: Row -> bool): nat {
    |Matching(t, p)|
  }

  const IsActive: Row -> bool := (r: Row) => !r.state.isSpam && !r.state.isTrash
  const IsUnread: Row -> bool := (r: Row) => IsActive(r) && !r.isRead
  const IsArchivedActive: Row -> bool := (r: Row) => IsActive(r) && r.isArchived
  const IsSpam: Row -> bool := (r: Row) => r.state.isSpam
  const IsTrash: Row -> bool := (r: Row) => r.state.isTrash
  const IsSentActive: Row -> bool := (r: Row) => IsActive(r) && r.state.folder == SentFolder
  const IsSpamAndTrash: Row -> bool := (r: Row) => r.state.isSpam && r.state.isTrash
  /** The listing without any query parameter: neither spam, nor trash, nor archived. */
  const IsListedByDefault: Row -> bool := (r: Row) => IsActive(r) && !r.isArchived

  function InCategory(p: Row -> bool, c: Option<string>): Row -> bool {
    (r: Row) => p(r) && r.category == c
  }

  datatype CategoryCount = CategoryCount(total: nat, unread: nat)

  datatype EmailCounts = EmailCounts(
    total: nat, unread: nat, archived: nat, spam: nat, trash: nat, sent: nat,
    byCategory: map<Option<string>, CategoryCount>)

  /** The groups of GROUP BY category over the active rows; NULL is a group of its own. */
  function Categories(t: Table): set<Option<string>> {
    set id | id in t && IsActive(t[id]) :: t[id].category
  }

  function CountEmails(t: Table): EmailCounts {
    EmailCounts(
      Count(t, IsActive), Count(t, IsUnread), Count(t, IsArchivedActive), Count(t, IsSpam), Count(t, IsTrash),
      Count(t, IsSentActive),
      map c | c in Categories(t) :: CategoryCount(Count(t, InCategory(IsActive, c)), Count(t, InCategory(IsUnread, c))))
  }

  function DefaultListingTotal(t: Table): nat {
    Count(t, IsListedByDefault)
  }

  predicate Active(row: Row) {
    !row.state.isSpam && !row.state.isTrash
  }

  /** Each count, by the rows it counts. */
  lemma CountsAreSizes(t: Table)
    ensures CountEmails(t).total == |set id | id in t && Active(t[id])|
    ensures CountEmails(t).unread == |set id | id in t && Active(t[id]) && !t[id].isRead|
    ensures CountEmails(t).archived == |set id | id in t && Active(t[id]) && t[id].isArchived|
  {
    assert Matching(t, IsActive) == set id | id in t && Active(t[id]);
    assert Matching(t, IsUnread) == set id | id in t && Active(t[id]) && !t[id].isRead;
    assert Matching(t, IsArchivedActive) == set id | id in t && Active(t[id]) && t[id].isArchived;
  }

  lemma FolderCountsAreSizes(t: Table)
    ensures CountEmails(t).spam == |set id | id in t && t[id].state.isSpam|
    ensures CountEmails(t).trash == |set id | id in t && t[id].state.isTrash|
    ensures CountEmails(t).sent == |set id | id in t && t[id].state.folder == SentFolder && Active(t[id])|
    ensures DefaultListingTotal(t) == |set id | id in t && Active(t[id]) && !t[id].isArchived|
  {
    assert Matching(t, IsSpam) == set id | id in t && t[id].state.isSpam;
    assert Matching(t, IsTrash) == set id | id in t && t[id].state.isTrash;
    assert Matching(t, IsSentActive) == set id | id in t && t[id].state.folder == SentFolder && Active(t[id]);
    assert Matching(t, IsListedByDefault) == set id | id in t && Active(t[id]) && !t[id].isArchived;
  }

  /** One group for each category of an active row, counting the active and the unread rows of that category. */
  lemma GroupsAreSizes(t: Table, c: Option<string>)
    ensures
      var rows := set id | id in t && Active(t[id]) && t[id].category == c;
      var groups := CountEmails(t).byCategory;
      && (c in groups <==> rows != {})
      && (c in groups ==> groups[c].total == |rows| && groups[c].unread == |set id | id in rows && !t[id].isRead|)
  {
    var rows := set id | id in t && Active(t[id]) && t[id].category == c;
    if c in Categories(t) {
      var id :| id in t && IsActive(t[id]) && t[id].category == c;
      assert id in rows;
    }
    if rows != {} {
      var id :| id in rows;
      assert IsActive(t[id]) && t[id].category == c;
    }
    assert Matching(t, InCategory(IsActive, c)) == rows;
    assert Matching(t, InCategory(IsUnread, c)) == set id | id in rows && !t[id].isRead;
  }

  lemma UnionSize(a: set<string>, b: set<string>)
    ensures |a + b| + |a * b| == |a| + |b|
  {
    assert a + b == (a - b) + b;
    assert a == (a - b) + (a * b);
  }

  lemma PartitionSize(all: set<string>, active: set<string>, spam: set<string>, trash: set<string>)
    requires spam <= all && trash <= all && active == all - (spam + trash)
    ensures |active| + |spam| + |trash| == |all| + |spam * trash|
  {
    UnionSize(spam, trash);
    UnionSize(active, spam + trash);
    assert active * (spam + trash) == {};
    assert active + (spam + trash) == all;
  }

  lemma FlagSets(t: Table)
    ensures Matching(t, IsActive) == t.Keys - (Matching(t, IsSpam) + Matching(t, IsTrash))
    ensures Matching(t, IsSpam) * Matching(t, IsTrash) == Matching(t, IsSpamAndTrash)
  {
  }

  /** Every message is counted once, and a message in both spam and trash once more: the three counts
      add up to the size of the table exactly when no row carries both flags. */
  lemma CountsCoverTable(t: Table)
    ensures CountEmails(t).total + CountEmails(t).spam + CountEmails(t).trash == |t.Keys| + Count(t, IsSpamAndTrash)
  {
    FlagSets(t);
    PartitionSize(t.Keys, Matching(t, IsActive), Matching(t, IsSpam), Matching(t, IsTrash));
  }

  /** In every run of the row writers the three counts are a partition of the mailbox. */
  lemma RunCountsAddUp(steps: seq<Step>)
    requires AllWellFormed(steps)
    ensures
      var t := After(map[], steps);
      var c := CountEmails(t);
      c.total + c.spam + c.trash == |t.Keys|
  {
    var t := After(map[], steps);
    RunsStayCoherent(map[], steps);
    CountsCoverTable(t);
    assert Matching(t, IsSpamAndTrash) == {};
  }

  ghost function SumOver(cs: set<Option<string>>, f: Option<string> -> nat): nat {
    if cs == {} then 0
    else var c :| c in cs; f(c) + SumOver(cs - {c}, f)
  }

  ghost function Totals(groups: map<Option<string>, CategoryCount>): Option<string> -> nat {
    (c: Option<string>) => if c in groups then groups[c].total else 0
  }

  ghost function Unreads(groups: map<Option<string>, CategoryCount>): Option<string> -> nat {
    (c: Option<string>) => if c in groups then groups[c].unread else 0
  }

  function WithinCategories(t: Table, p: Row -> bool, cs: set<Option<string>>): set<string> {
    set id | id in t && p(t[id]) && t[id].category in cs
  }

  lemma SplitOffCategory(t: Table, p: Row -> bool, cs: set<Option<string>>, c: Option<string>)
    requires c in cs
    ensures |WithinCategories(t, p, cs)| == Count(t, InCategory(p, c)) + |WithinCategories(t, p, cs - {c})|
  {
    var one, rest := Matching(t, InCategory(p, c)), WithinCategories(t, p, cs - {c});
    assert WithinCategories(t, p, cs) == one + rest;
    assert one * rest == {};
    UnionSize(one, rest);
  }

  lemma {:induction false} SumsPerCategory(t: Table, p: Row -> bool, cs: set<Option<string>>, f: Option<string> -> nat)
    requires forall c :: c in cs ==> f(c) == Count(t, InCategory(p, c))
    ensures SumOver(cs, f) == |WithinCategories(t, p, cs)|
  {
    if cs == {} {
      assert WithinCategories(t, p, cs) == {};
    } else {
      var c :| c in cs && SumOver(cs, f) == f(c) + SumOver(cs - {c}, f);
      SumsPerCategory(t, p, cs - {c}, f);
      SplitOffCategory(t, p, cs, c);
    }
  }

  lemma EveryCategoryGrouped(t: Table, p: Row -> bool)
    requires forall r :: p(r) ==> IsActive(r)
    ensures |WithinCategories(t, p, Categories(t))| == Count(t, p)
  {
    assert WithinCategories(t, p, Categories(t)) == Matching(t, p);
  }

  /** The per-category rows add up to the total and unread counts, uncategorised mail included. */
  lemma CategoriesAddUp(t: Table)
    ensures SumOver(CountEmails(t).byCategory.Keys, Totals(CountEmails(t).byCategory)) == CountEmails(t).total
    ensures SumOver(CountEmails(t).byCategory.Keys, Unreads(CountEmails(t).byCategory)) == CountEmails(t).unread
  {
    var groups := CountEmails(t).byCategory;
    assert groups.Keys == Categories(t);
    SumsPerCategory(t, IsActive, Categories(t), Totals(groups));
    SumsPerCategory(t, IsUnread, Categories(t), Unreads(groups));
    EveryCategoryGrouped(t, IsActive);
    EveryCategoryGrouped(t, IsUnread);
  }

  /** What the client derives from the counts is what the default listing reports. */
  lemma ListingMatchesCounts(t: Table)
    ensures DefaultListingTotal(t) == CountEmails(t).total - CountEmails(t).archived
  {
    var listed, archived := Matching(t, IsListedByDefault), Matching(t, IsArchivedActive);
    assert Matching(t, IsActive) == listed + archived;
    assert listed * archived == {};
    UnionSize(listed, archived);
  }
}
