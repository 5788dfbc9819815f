/** Outlook delta responses: folder moves stand in for label changes. No account gets into a state in which
    such a response is asked for (see MailSync.NoMarkerOutsideGmail); this is what the branch would do. */
module Outlook {
  import opened Option
  import opened Labels
  import opened EmailRows
  import opened History
  import opened DeltaSync

  datatype Item = Item(id: string, removed: bool, parentFolderId: Option<string>)

  datatype FolderMove = FolderMove(messageId: string, folderName: string)

  datatype DeltaResult = DeltaResult(
    addedOrModified: seq<string>,
    deleted: seq<string>,
    deltaLink: Option<string>,
    moves: seq<FolderMove>)

  /** Unicode lower-casing as far as it can lead into the names searched for: besides the ASCII capitals, one
      letter outside ASCII has a small letter among them. */
  function LowerUnicode(c: char): char {
    if 'A' <= c <= 'Z' then (c as int + 32) as char else if c == KELVIN_SIGN then 'k' else c
  }

  predicate Contains(s: string, part: string) {
    part <= s || (s != "" && Contains(s[1..], part))
  }

  function FolderName(folderId: string): string {
    var lower := seq(|folderId|, i requires 0 <= i < |folderId| => LowerUnicode(folderId[i]));
    if Contains(lower, "deleteditems") then "deleteditems"
    else if Contains(lower, "junkemail") then "junkemail"
    else if Contains(lower, "inbox") then "inbox"
    else if Contains(lower, "sentitems") then "sentitems"
    else if Contains(lower, "drafts") then "drafts"
    else if Contains(lower, "archive") then "archive"
    else folderId
  }

  /** Exactly the 26 capitals and the Kelvin sign change. */
  lemma SmallLetters(c: char)
    ensures 'A' <= c <= 'Z' ==> 'a' <= LowerUnicode(c) <= 'z' && LowerUnicode(c) as int == 'a' as int + (c as int - 'A' as int)
    ensures LowerUnicode(KELVIN_SIGN) == 'k'
    ensures !('A' <= c <= 'Z') && c != KELVIN_SIGN ==> LowerUnicode(c) == c
  {
  }

  const WELL_KNOWN := ["deleteditems", "junkemail", "inbox", "sentitems", "drafts", "archive"]

  /** The name of a folder is the first of the well-known names that occurs in its lower-cased id; an id in which
      none occurs is its own name. */
  lemma FolderNamesByContent(folderId: string, k: nat)
    requires k <= |WELL_KNOWN|
    ensures
      var lower := seq(|folderId|, i requires 0 <= i < |folderId| => LowerUnicode(folderId[i]));
      (forall j :: 0 <= j < k ==> !Contains(lower, WELL_KNOWN[j])) ==>
        if k == |WELL_KNOWN| then FolderName(folderId) == folderId
        else Contains(lower, WELL_KNOWN[k]) ==> FolderName(folderId) == WELL_KNOWN[k]
  {
    var lower := seq(|folderId|, i requires 0 <= i < |folderId| => LowerUnicode(folderId[i]));
    if forall j :: 0 <= j < k ==> !Contains(lower, WELL_KNOWN[j]) {
      assert k > 0 ==> !Contains(lower, WELL_KNOWN[0]);
      assert k > 1 ==> !Contains(lower, WELL_KNOWN[1]);
      assert k > 2 ==> !Contains(lower, WELL_KNOWN[2]);
      assert k > 3 ==> !Contains(lower, WELL_KNOWN[3]);
      assert k > 4 ==> !Contains(lower, WELL_KNOWN[4]);
      assert k > 5 ==> !Contains(lower, WELL_KNOWN[5]);
    }
  }

  predicate OccursAt(s: string, part: string, i: nat) {
    i + |part| <= |s| && s[i..i + |part|] == part
  }

  /** What it means to occur. */
  lemma {:induction false} ContainsMeans(s: string, part: string)
    ensures Contains(s, part) <==> exists i :: OccursAt(s, part, i)
  {
    assert part <= s <==> OccursAt(s, part, 0);
    if s == "" {
    } else {
      ContainsMeans(s[1..], part);
      forall i: nat ensures OccursAt(s[1..], part, i) <==> OccursAt(s, part, i + 1) {
        if i + |part| <= |s[1..]| {
          assert s[1..][i..i + |part|] == s[i + 1..i + 1 + |part|];
        }
      }
      if Contains(s, part) && !(part <= s) {
        var i: nat :| OccursAt(s[1..], part, i);
        assert OccursAt(s, part, i + 1);
      }
      forall i: nat | OccursAt(s, part, i) ensures Contains(s, part) {
        if i == 0 {
        } else {
          assert OccursAt(s[1..], part, i - 1);
        }
      }
    }
  }

  // ---- Parsing ----

  function ModifiedIds(items: seq<Item>): seq<string> {
    if |items| == 0 then []
    else ModifiedIds(items[..|items| - 1]) + if items[|items| - 1].removed then [] else [items[|items| - 1].id]
  }

  function RemovedIds(items: seq<Item>): seq<string> {
    if |items| == 0 then []
    else RemovedIds(items[..|items| - 1]) + if items[|items| - 1].removed then [items[|items| - 1].id] else []
  }

  function Moves(items: seq<Item>): seq<FolderMove> {
    if |items| == 0 then []
    else
      var item := items[|items| - 1];
      Moves(items[..|items| - 1]) +
      if item.removed || item.parentFolderId.None? then []
      else [FolderMove(item.id, FolderName(item.parentFolderId.value))]
  }

  method ParseOutlookDelta(items: seq<Item>, deltaLink: Option<string>) returns (r: DeltaResult)
    ensures r == DeltaResult(ModifiedIds(items), RemovedIds(items), deltaLink, Moves(items))
  {
    r := DeltaResult([], [], deltaLink, []);
    for k := 0 to |items|
      invariant r == DeltaResult(ModifiedIds(items[..k]), RemovedIds(items[..k]), deltaLink, Moves(items[..k]))
    {
      assert items[..k + 1][..k] == items[..k];
      var item := items[k];
      if item.removed {
        r := r.(deleted := r.deleted + [item.id]);
      } else {
        r := r.(addedOrModified := r.addedOrModified + [item.id]);
        if item.parentFolderId.Some? {
          r := r.(moves := r.moves + [FolderMove(item.id, FolderName(item.parentFolderId.value))]);
        }
      }
    }
    assert items[..|items|] == items;
  }

  /** Every item is either a removal or a modification: the two lists together are all the ids. */
  lemma {:induction false} ItemsPartitioned(items: seq<Item>)
    ensures multiset(ModifiedIds(items)) + multiset(RemovedIds(items)) == multiset(AllIds(items))
  {
    if |items| == 0 {
    } else {
      ItemsPartitioned(items[..|items| - 1]);
    }
  }

  function AllIds(items: seq<Item>): seq<string> {
    if |items| == 0 then [] else AllIds(items[..|items| - 1]) + [items[|items| - 1].id]
  }

  // ---- Label equivalents ----

  /** The label a folder name stands for; other folders, the inbox included, stand for none. */
  function LabelFor(folderName: string): Option<string> {
    if UpperIs(folderName, "DELETEDITEMS") || UpperIs(folderName, "TRASH") then Some("TRASH")
    else if UpperIs(folderName, "JUNKEMAIL") || UpperIs(folderName, "SPAM") then Some("SPAM")
    else None
  }

  /** The two folders that stand for labels, under either of their names. */
  lemma LabelledFolders(folderName: string)
    ensures LabelFor(folderName) == Some("TRASH") <==> UpperIs(folderName, "DELETEDITEMS") || UpperIs(folderName, "TRASH")
    ensures LabelFor(folderName) == Some("SPAM") <==>
            (UpperIs(folderName, "JUNKEMAIL") || UpperIs(folderName, "SPAM")) && LabelFor(folderName) != Some("TRASH")
    ensures LabelFor(folderName) in {None, Some("TRASH"), Some("SPAM")}
  {
    assert "TRASH"[0] != "SPAM"[0];
  }

  function LabelChanges(moves: seq<FolderMove>): seq<LabelDelta> {
    if |moves| == 0 then []
    else
      var move := moves[|moves| - 1];
      LabelChanges(moves[..|moves| - 1]) +
      match LabelFor(move.folderName)
        case Some(name) => [LabelDelta(move.messageId, LabelPair([name], []))]
        case None => []
  }

  method MapFolderMoves(moves: seq<FolderMove>) returns (changes: seq<LabelDelta>)
    ensures changes == LabelChanges(moves)
  {
    changes := [];
    for k := 0 to |moves|
      invariant changes == LabelChanges(moves[..k])
    {
      assert moves[..k + 1][..k] == moves[..k];
      var name := LabelFor(moves[k].folderName);
      if name.Some? {
        changes := changes + [LabelDelta(moves[k].messageId, LabelPair([name.value], []))];
      }
    }
    assert moves[..|moves|] == moves;
  }

  /** The last move of the message into the deleted items or the junk folder. */
  function LastLabelled(moves: seq<FolderMove>, id: string): Option<string> {
    if |moves| == 0 then None
    else
      var move := moves[|moves| - 1];
      if move.messageId == id && LabelFor(move.folderName).Some? then LabelFor(move.folderName)
      else LastLabelled(moves[..|moves| - 1], id)
  }

  function StateFor(name: string): State {
    if name == "TRASH" then TRASH else SPAM
  }

  lemma OneLabel(row: Row, name: string)
    requires name in {"TRASH", "SPAM"}
    ensures Relabel(row, LabelPair([name], [])) == row.(state := StateFor(name), deletedAt := None)
  {
    assert EqIgnoreAsciiCase([name][0], name);
    if name == "TRASH" {
      assert !Has([name], "SPAM");
    }
  }

  lemma LabelWritesExtend(t: Table, changes: seq<LabelDelta>, c: LabelDelta)
    ensures LabelWrites(t, changes + [c]) == LabelWrite(LabelWrites(t, changes), c)
  {
    assert (changes + [c])[..|changes|] == changes;
  }

  /** A message ends where its last move into trash or junk put it. A later move elsewhere, back to the
      inbox for instance, changes nothing: it is mapped to no label at all. */
  lemma {:induction false} LastLabelledMoveWins(t: Table, moves: seq<FolderMove>, id: string)
    ensures Lookup(LabelWrites(t, LabelChanges(moves)), id) ==
            if id in t && LastLabelled(moves, id).Some?
            then Some(t[id].(state := StateFor(LastLabelled(moves, id).value), deletedAt := None))
            else Lookup(t, id)
  {
    if |moves| == 0 {
    } else {
      var front, move := moves[..|moves| - 1], moves[|moves| - 1];
      var before := LabelWrites(t, LabelChanges(front));
      LastLabelledMoveWins(t, front, id);
      match LabelFor(move.folderName) {
        case None =>
          assert LabelChanges(moves) == LabelChanges(front);
        case Some(name) =>
          var c := LabelDelta(move.messageId, LabelPair([name], []));
          LabelWritesExtend(t, LabelChanges(front), c);
          LabelWriteAt(before, c, id);
          if id in before {
            OneLabel(before[id], name);
          }
      }
    }
  }

  // ---- The row after a response ----

  /** The row after an Outlook response: fetched if modified, in the trash if removed, and then wherever
      the last move into trash or junk put it. */
  function RowAfterItems(t: Table, account: string, provider: string, items: seq<Item>, remote: Mailbox, now: nat,
                         id: string): Option<Row>
  {
    var row := if id in ModifiedIds(items) then FetchedRow(t, account, provider, remote, id) else Lookup(t, id);
    if row.None? then None
    else if LastLabelled(Moves(items), id).Some? then
      Some(row.value.(state := StateFor(LastLabelled(Moves(items), id).value), deletedAt := None))
    else if id in RemovedIds(items) then Some(row.value.(state := TRASH, deletedAt := Some(now)))
    else row
  }

  /** Applying a response gives every row just that; a message that was modified and could be fetched has
      the read flag the provider reported for it, whatever its labels. */
  lemma OutlookRow(t: Table, account: string, provider: string, items: seq<Item>, remote: Mailbox, now: nat, id: string)
    requires KeyedById(remote)
    ensures
      var after := Applied(t, account, provider, ModifiedIds(items), RemovedIds(items), LabelChanges(Moves(items)), remote, now);
      && Lookup(after, id) == RowAfterItems(t, account, provider, items, remote, now, id)
      && (id in ModifiedIds(items) && id in remote ==>
           id in after && after[id].isRead == remote[id].isRead && (after[id].isStarred <==> "STARRED" in remote[id].labels))
  {
    var fetched := FetchedAll(t, account, provider, ModifiedIds(items), remote);
    var trashed := SoftDeletedAll(fetched, RemovedIds(items), now);
    FetchedAllAt(t, account, provider, ModifiedIds(items), remote, id);
    SoftDeletedAllAt(fetched, RemovedIds(items), now, id);
    LastLabelledMoveWins(trashed, Moves(items), id);
    if id in ModifiedIds(items) && id in remote {
      assert Lookup(fetched, id) == FetchedRow(t, account, provider, remote, id);
      assert Lookup(LabelWrites(trashed, LabelChanges(Moves(items))), id).Some?;
    }
  }

  /** The folder of the last reported move of the message, of whatever kind. */
  function LastMove(moves: seq<FolderMove>, id: string): Option<string> {
    if |moves| == 0 then None
    else if moves[|moves| - 1].messageId == id then Some(moves[|moves| - 1].folderName)
    else LastMove(moves[..|moves| - 1], id)
  }

  /** The state that goes with a message's last folder: that of trash or junk, else what its labels derive. */
  function LastFolderState(moves: seq<FolderMove>, id: string, derived: State): State {
    var last := LastMove(moves, id);
    if last.Some? && LabelFor(last.value).Some? then StateFor(LabelFor(last.value).value) else derived
  }

  /** A move into trash or junk is followed by a move elsewhere. */
  predicate MovedOn(moves: seq<FolderMove>, id: string) {
    && LastLabelled(moves, id).Some?
    && LastMove(moves, id).Some?
    && LabelFor(LastMove(moves, id).value).None?
  }

  lemma {:induction false} LastMoveOrLabelled(moves: seq<FolderMove>, id: string)
    ensures LastMove(moves, id).None? ==> LastLabelled(moves, id).None?
    ensures LastMove(moves, id).Some? && LabelFor(LastMove(moves, id).value).Some? ==>
              LastLabelled(moves, id) == LabelFor(LastMove(moves, id).value)
  {
    if |moves| == 0 {
    } else {
      LastMoveOrLabelled(moves[..|moves| - 1], id);
    }
  }

  /** A fetched message ends in the state of its last folder exactly when no move into trash or junk is
      followed by a move elsewhere, or that state is what its labels derive anyway. */
  lemma RowFollowsLastMove(t: Table, account: string, provider: string, items: seq<Item>, remote: Mailbox, now: nat, id: string)
    requires id in ModifiedIds(items) && id !in RemovedIds(items) && id in remote
    ensures
      var moves, derived := Moves(items), DeriveState(remote[id].labels);
      var row := RowAfterItems(t, account, provider, items, remote, now, id);
      && row.Some?
      && (row.value.state == LastFolderState(moves, id, derived) <==>
           (MovedOn(moves, id) ==> StateFor(LastLabelled(moves, id).value) == derived))
  {
    LastMoveOrLabelled(Moves(items), id);
  }

  function OutAndBack(id: string): seq<Item> {
    [Item(id, false, Some("deleteditems")), Item(id, false, Some("inbox"))]
  }

  /** Deleted and moved back within one response: the message ends in the local trash. */
  lemma MoveBackToInboxFails(t: Table, account: string, provider: string, m: Message, now: nat)
    requires m.labels == []
    ensures
      var row := RowAfterItems(t, account, provider, OutAndBack(m.id), map[m.id := m], now, m.id);
      && row.Some? && row.value.state == TRASH
      && LastFolderState(Moves(OutAndBack(m.id)), m.id, DeriveState(m.labels)) == INBOX
  {
    OutAndBackMoves(m.id);
    FolderLabels();
    var moves := Moves(OutAndBack(m.id));
    TwoMoves(moves[0], moves[1], m.id);
    assert m.id in [m.id, m.id];
  }

  lemma TwoMoves(a: FolderMove, b: FolderMove, id: string)
    requires a.messageId == id && b.messageId == id
    requires LabelFor(a.folderName).Some? && LabelFor(b.folderName).None?
    ensures LastLabelled([a, b], id) == LabelFor(a.folderName)
    ensures LastMove([a, b], id) == Some(b.folderName)
  {
    assert [a, b][..1] == [a];
    assert LastLabelled([a], id) == LabelFor(a.folderName);
  }

  lemma OutAndBackMoves(id: string)
    ensures
      var items := OutAndBack(id);
      && Moves(items) == [FolderMove(id, "deleteditems"), FolderMove(id, "inbox")]
      && ModifiedIds(items) == [id, id]
      && RemovedIds(items) == []
  {
    var first, second := Item(id, false, Some("deleteditems")), Item(id, false, Some("inbox"));
    assert [first, second][..1] == [first] && [first][..0] == [];
    FolderNames();
    assert Moves([first]) == [FolderMove(id, "deleteditems")];
    assert ModifiedIds([first]) == [id];
    assert RemovedIds([first]) == [];
  }

  lemma FolderLabels()
    ensures LabelFor("deleteditems") == Some("TRASH")
    ensures LabelFor("inbox") == None
  {
    assert UpperIs("deleteditems", "DELETEDITEMS");
    assert UpperUnicode("inbox"[0]) != "TRASH"[0];
  }

  lemma FolderNames()
    ensures FolderName("deleteditems") == "deleteditems"
    ensures FolderName("inbox") == "inbox"
  {
    LowerIsSame("deleteditems");
    LowerIsSame("inbox");
    NotInShorter("inbox", "deleteditems");
    NotInShorter("inbox", "junkemail");
  }

  lemma LowerIsSame(s: string)
    requires forall i :: 0 <= i < |s| ==> 'a' <= s[i] <= 'z'
    ensures seq(|s|, i requires 0 <= i < |s| => LowerUnicode(s[i])) == s
  {
  }

  lemma {:induction false} NotInShorter(s: string, part: string)
    requires |s| < |part|
    ensures !Contains(s, part)
  {
    if s == "" {
    } else {
      NotInShorter(s[1..], part);
    }
  }
}
