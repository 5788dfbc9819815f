/** Gmail's two ways of reading a message. A listing resolves label ids to the account's label names; a
    single fetch keeps the ids. */
module GmailLabels {
  import opened Option
  import opened Labels
  import opened EmailRows
  import opened DeltaSync

  function Resolve(names: map<string, string>, labelIds: seq<string>): (labels: seq<string>)
    ensures |labels| == |labelIds|
    ensures forall i :: 0 <= i < |labels| ==> labels[i] == if labelIds[i] in names then names[labelIds[i]] else labelIds[i]
  {
    seq(|labelIds|, i requires 0 <= i < |labelIds| => if labelIds[i] in names then names[labelIds[i]] else labelIds[i])
  }

  /** A message with raw label ids, as parsed with a label-name map. */
  function Parsed(m: Message, names: map<string, string>): Message {
    var labels := Resolve(names, m.labels);
    m.(labels := labels, isRead := "UNREAD" !in labels)
  }

  /** What fetching the messages of a mailbox one by one answers. */
  function Fetched(box: Mailbox): (remote: Mailbox)
    ensures remote.Keys == box.Keys
    ensures forall id :: id in box ==> remote[id] == Parsed(box[id], map[])
  {
    map id | id in box :: Parsed(box[id], map[])
  }

  lemma FetchedLabels(m: Message)
    ensures Parsed(m, map[]).labels == m.labels
  {
  }

  /** Listing and fetching the message lead to the same state, read flag and star. */
  predicate NamesAgree(m: Message, names: map<string, string>) {
    var listed, fetched := Parsed(m, names), Parsed(m, map[]);
    && DeriveState(listed.labels) == DeriveState(fetched.labels)
    && listed.isRead == fetched.isRead
    && ("STARRED" in listed.labels <==> "STARRED" in fetched.labels)
  }

  /** No label name reads like one of the labels the sync interprets, unless it is that label's own. */
  ghost predicate HonestNames(names: map<string, string>) {
    forall l :: l in names ==> HonestName(l, names[l])
  }

  predicate HonestName(labelId: string, name: string) {
    && (EqIgnoreAsciiCase(name, "TRASH") <==> EqIgnoreAsciiCase(labelId, "TRASH"))
    && (EqIgnoreAsciiCase(name, "SPAM") <==> EqIgnoreAsciiCase(labelId, "SPAM"))
    && (EqIgnoreAsciiCase(name, "SENT") <==> EqIgnoreAsciiCase(labelId, "SENT"))
    && (EqIgnoreAsciiCase(name, "DRAFT") <==> EqIgnoreAsciiCase(labelId, "DRAFT"))
    && (name == "STARRED" <==> labelId == "STARRED")
    && (name == "UNREAD" <==> labelId == "UNREAD")
  }

  lemma ResolveHas(names: map<string, string>, labels: seq<string>, name: string)
    requires HonestNames(names) && name in {"TRASH", "SPAM", "SENT", "DRAFT"}
    ensures Has(Resolve(names, labels), name) <==> Has(labels, name)
  {
    var r := Resolve(names, labels);
    if Has(r, name) {
      var i :| 0 <= i < |r| && EqIgnoreAsciiCase(r[i], name);
      assert EqIgnoreAsciiCase(labels[i], name);
    }
    if Has(labels, name) {
      var i :| 0 <= i < |labels| && EqIgnoreAsciiCase(labels[i], name);
      assert EqIgnoreAsciiCase(r[i], name);
    }
  }

  lemma ResolveContains(names: map<string, string>, labels: seq<string>, name: string)
    requires HonestNames(names) && name in {"STARRED", "UNREAD"}
    ensures name in Resolve(names, labels) <==> name in labels
  {
    var r := Resolve(names, labels);
    if name in r {
      var i :| 0 <= i < |r| && r[i] == name;
      assert labels[i] == name;
    }
    if name in labels {
      var i :| 0 <= i < |labels| && labels[i] == name;
      assert r[i] == name;
    }
  }

  lemma HonestNamesAgree(m: Message, names: map<string, string>)
    requires HonestNames(names)
    ensures NamesAgree(m, names)
  {
    FetchedLabels(m);
    ResolveHas(names, m.labels, "TRASH");
    ResolveHas(names, m.labels, "SPAM");
    ResolveHas(names, m.labels, "SENT");
    ResolveHas(names, m.labels, "DRAFT");
    ResolveContains(names, m.labels, "STARRED");
    ResolveContains(names, m.labels, "UNREAD");
  }

  function MessageLabelled(labelId: string): Message {
    Message("", None, "", "", [], "", None, None, [labelId], 0, false, None, None)
  }

  lemma OneLabelState(labelId: string)
    ensures EqIgnoreAsciiCase(labelId, "TRASH") <==> DeriveState([labelId]) == TRASH
    ensures EqIgnoreAsciiCase(labelId, "SPAM") <==> DeriveState([labelId]) == SPAM
    ensures EqIgnoreAsciiCase(labelId, "SENT") <==> DeriveState([labelId]) == SENT
    ensures EqIgnoreAsciiCase(labelId, "DRAFT") <==> DeriveState([labelId]) == DRAFT
  {
    SingleHas(labelId, "TRASH");
    SingleHas(labelId, "SPAM");
    SingleHas(labelId, "SENT");
    SingleHas(labelId, "DRAFT");
    if |labelId| == 4 {
      assert UpperAscii("SENT"[1]) != UpperAscii("SPAM"[1]);
    } else if |labelId| == 5 {
      assert UpperAscii("DRAFT"[0]) != UpperAscii("TRASH"[0]);
    }
  }

  lemma AgreeingNameIsHonest(labelId: string, names: map<string, string>)
    requires labelId in names && NamesAgree(MessageLabelled(labelId), names)
    ensures HonestName(labelId, names[labelId])
  {
    var m := MessageLabelled(labelId);
    assert Resolve(names, [labelId]) == [names[labelId]];
    FetchedLabels(m);
    OneLabelState(labelId);
    OneLabelState(names[labelId]);
    assert forall name :: name in [names[labelId]] <==> name == names[labelId];
    assert forall name :: name in [labelId] <==> name == labelId;
  }

  /** Listing and fetching agree on the flags of every message exactly when the names are honest. */
  lemma NamesAgreeExactly(names: map<string, string>)
    ensures (forall m :: NamesAgree(m, names)) <==> HonestNames(names)
  {
    if HonestNames(names) {
      forall m ensures NamesAgree(m, names) {
        HonestNamesAgree(m, names);
      }
    }
    if forall m :: NamesAgree(m, names) {
      forall l | l in names ensures HonestName(l, names[l]) {
        assert NamesAgree(MessageLabelled(l), names);
        AgreeingNameIsHonest(l, names);
      }
    }
  }

  /** A user label named Trash: listed, its messages are trash; fetched one by one, they are inbox mail. */
  lemma UserLabelNamedTrash(m: Message)
    requires m.labels == ["Label_7"]
    ensures
      var names := map["Label_7" := "Trash"];
      && DeriveState(Parsed(m, names).labels) == TRASH
      && DeriveState(Parsed(m, map[]).labels) == INBOX
      && !HonestNames(names)
  {
    var names := map["Label_7" := "Trash"];
    assert Resolve(names, ["Label_7"]) == ["Trash"];
    FetchedLabels(m);
    assert EqIgnoreAsciiCase("Trash", "TRASH");
    OneLabelState("Trash");
    SingleHas("Label_7", "TRASH");
    SingleHas("Label_7", "SPAM");
    SingleHas("Label_7", "SENT");
    SingleHas("Label_7", "DRAFT");
    assert "Label_7" in names && !HonestName("Label_7", "Trash");
  }
}
