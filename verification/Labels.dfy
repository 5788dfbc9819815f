/** Provider labels: comparison, the state they imply, and their comma-separated column. */
module Labels {
  import opened Collections

  function UpperAscii(c: char): char {
    if 'a' <= c <= 'z' then (c as int - 32) as char else c
  }

  predicate EqIgnoreAsciiCase(a: string, b: string) {
    |a| == |b| && forall i | 0 <= i < |a| :: UpperAscii(a[i]) == UpperAscii(b[i])
  }

  /** Exactly the 26 small letters change, each into its capital. */
  lemma AsciiCapitals(c: char)
    ensures 'a' <= c <= 'z' ==> 'A' <= UpperAscii(c) <= 'Z' && UpperAscii(c) as int == 'A' as int + (c as int - 'a' as int)
    ensures !('a' <= c <= 'z') ==> UpperAscii(c) == c
  {
  }

  const LONG_S := '\U{017F}'
  const DOTLESS_I := '\U{0131}'
  const KELVIN_SIGN := '\U{212A}'

  /** Unicode upper-casing as far as it can lead into the names compared with: two letters outside ASCII
      have a single ASCII capital. */
  function UpperUnicode(c: char): char {
    if c == LONG_S then 'S' else if c == DOTLESS_I then 'I' else UpperAscii(c)
  }

  /** `s.to_uppercase() == name`, for a name in ASCII capitals. */
  predicate UpperIs(s: string, name: string) {
    |s| == |name| && forall i | 0 <= i < |s| :: UpperUnicode(s[i]) == name[i]
  }

  predicate Has(labels: seq<string>, name: string) {
    exists i | 0 <= i < |labels| :: EqIgnoreAsciiCase(labels[i], name)
  }

  /** The values the `folder` column takes. `ArchiveFolder` is written by rules only. */
  datatype Folder = InboxFolder | DraftFolder | SentFolder | SpamFolder | TrashFolder | ArchiveFolder

  /** The columns `is_trash`, `is_spam` and `folder`, which one UPDATE writes together. */
  datatype State = State(isTrash: bool, isSpam: bool, folder: Folder)

  const TRASH := State(true, false, TrashFolder)
  const SPAM := State(false, true, SpamFolder)
  const SENT := State(false, false, SentFolder)
  const DRAFT := State(false, false, DraftFolder)
  const INBOX := State(false, false, InboxFolder)

  function DeriveState(labels: seq<string>): State {
    if Has(labels, "TRASH") then TRASH
    else if Has(labels, "SPAM") then SPAM
    else if Has(labels, "SENT") then SENT
    else if Has(labels, "DRAFT") then DRAFT
    else INBOX
  }

  /** The columns, one by one: trash before spam, spam before sent, sent before draft, and else the inbox. */
  lemma DerivedColumns(labels: seq<string>)
    ensures DeriveState(labels).isTrash <==> Has(labels, "TRASH")
    ensures DeriveState(labels).isSpam <==> Has(labels, "SPAM") && !Has(labels, "TRASH")
    ensures DeriveState(labels).folder ==
            if Has(labels, "TRASH") then TrashFolder else if Has(labels, "SPAM") then SpamFolder
            else if Has(labels, "SENT") then SentFolder else if Has(labels, "DRAFT") then DraftFolder else InboxFolder
  {
  }

  /** The row invariant on the state columns. */
  predicate Coherent(s: State) {
    && !(s.isTrash && s.isSpam)
    && (s.isTrash <==> s.folder == TrashFolder)
    && (s.isSpam <==> s.folder == SpamFolder)
  }

  // ---- State derivation is a homomorphism into a total order ----

  function Rank(s: State): nat {
    match s.folder
    case InboxFolder => 0
    case DraftFolder => 1
    case SentFolder => 2
    case SpamFolder => 3
    case TrashFolder => 4
    case ArchiveFolder => 5
  }

  function MaxState(a: State, b: State): State {
    if Rank(a) < Rank(b) then b else a
  }

  lemma HasConcat(a: seq<string>, b: seq<string>, name: string)
    ensures Has(a + b, name) <==> Has(a, name) || Has(b, name)
  {
    if Has(a, name) {
      var i :| 0 <= i < |a| && EqIgnoreAsciiCase(a[i], name);
      assert (a + b)[i] == a[i];
    }
    if Has(b, name) {
      var i :| 0 <= i < |b| && EqIgnoreAsciiCase(b[i], name);
      assert (a + b)[|a| + i] == b[i];
    }
  }

  lemma SingleHas(target: string, name: string)
    ensures Has([target], name) <==> EqIgnoreAsciiCase(target, name)
  {
    assert [target][0] == target;
  }

  lemma DeriveConcat(a: seq<string>, b: seq<string>)
    ensures DeriveState(a + b) == MaxState(DeriveState(a), DeriveState(b))
  {
    HasConcat(a, b, "TRASH");
    HasConcat(a, b, "SPAM");
    HasConcat(a, b, "SENT");
    HasConcat(a, b, "DRAFT");
  }

  /** Every label of `a` also occurs in `b`, up to ASCII case. */
  ghost predicate Covers(b: seq<string>, a: seq<string>) {
    forall i :: 0 <= i < |a| ==> Has(b, a[i])
  }

  lemma HasMonotone(a: seq<string>, b: seq<string>, name: string)
    requires Covers(b, a) && Has(a, name)
    ensures Has(b, name)
  {
    var i :| 0 <= i < |a| && EqIgnoreAsciiCase(a[i], name);
    var j :| 0 <= j < |b| && EqIgnoreAsciiCase(b[j], a[i]);
    assert EqIgnoreAsciiCase(b[j], name);
  }

  /** More labels never lower the derived state; order, repetition and letter case do not matter. */
  lemma DeriveMonotone(a: seq<string>, b: seq<string>)
    requires Covers(b, a)
    ensures Rank(DeriveState(a)) <= Rank(DeriveState(b))
  {
    if Has(a, "TRASH") { HasMonotone(a, b, "TRASH"); }
    if Has(a, "SPAM") { HasMonotone(a, b, "SPAM"); }
    if Has(a, "SENT") { HasMonotone(a, b, "SENT"); }
    if Has(a, "DRAFT") { HasMonotone(a, b, "DRAFT"); }
  }

  lemma SameLabelsSameState(a: seq<string>, b: seq<string>)
    requires Covers(a, b) && Covers(b, a)
    ensures DeriveState(a) == DeriveState(b)
  {
    DeriveMonotone(a, b);
    DeriveMonotone(b, a);
  }

  // ---- The comma-separated column ----

  function Split(s: string): (parts: seq<string>)
    ensures |parts| > 0
  {
    if s == "" then [""] else SplitStep(s[0], Split(s[1..]))
  }

  /** The pieces of a string that starts with `c`, from the pieces of the rest. */
  function SplitStep(c: char, rest: seq<string>): (parts: seq<string>)
    requires |rest| > 0
    ensures |parts| > 0
  {
    if c == ',' then [""] + rest else [[c] + rest[0]] + rest[1..]
  }

  function Join(parts: seq<string>): string {
    if |parts| == 0 then ""
    else if |parts| == 1 then parts[0]
    else Join(parts[..|parts| - 1]) + "," + parts[|parts| - 1]
  }

  function NonEmpty(parts: seq<string>): (kept: seq<string>)
    ensures forall i :: 0 <= i < |kept| ==> kept[i] != "" && kept[i] in parts
  {
    if |parts| == 0 then []
    else
      var front := NonEmpty(parts[..|parts| - 1]);
      if parts[|parts| - 1] == "" then front else front + [parts[|parts| - 1]]
  }

  predicate CommaFree(s: string) {
    ',' !in s
  }

  lemma {:induction false} SplitCommaFree(s: string)
    requires CommaFree(s)
    ensures Split(s) == [s]
  {
    if s == "" {
    } else {
      assert s[0] in s;
      SplitCommaFree(s[1..]);
      assert [s[0]] + s[1..] == s;
    }
  }

  lemma SplitStepConcat(c: char, left: seq<string>, right: seq<string>)
    requires |left| > 0
    ensures SplitStep(c, left + right) == SplitStep(c, left) + right
  {
    assert (left + right)[1..] == left[1..] + right;
  }

  lemma {:induction false} SplitConcat(a: string, b: string)
    ensures Split(a + "," + b) == Split(a) + Split(b)
  {
    var whole := a + "," + b;
    if a == "" {
      assert whole[1..] == b;
    } else {
      assert whole[1..] == a[1..] + "," + b;
      SplitConcat(a[1..], b);
      SplitStepConcat(a[0], Split(a[1..]), Split(b));
    }
  }

  lemma {:induction false} SplitPartsCommaFree(s: string)
    ensures forall i :: 0 <= i < |Split(s)| ==> CommaFree(Split(s)[i])
  {
    if s == "" {
    } else {
      SplitPartsCommaFree(s[1..]);
    }
  }

  /** Splitting what was joined gives the parts back. */
  lemma {:induction false} SplitJoin(parts: seq<string>)
    requires |parts| > 0
    requires forall i :: 0 <= i < |parts| ==> CommaFree(parts[i])
    ensures Split(Join(parts)) == parts
  {
    var n := |parts| - 1;
    SplitCommaFree(parts[n]);
    if n == 0 {
    } else {
      SplitJoin(parts[..n]);
      SplitConcat(Join(parts[..n]), parts[n]);
    }
  }

  // ---- The label branch of a move ----

  /** The read-modify-write of the labels column: drop empties, append the target unless present. */
  function AppendLabel(labels: string, target: string): string {
    var kept := NonEmpty(Split(labels));
    Join(if target in kept then kept else kept + [target])
  }

  lemma {:induction false} NonEmptyKeepsState(parts: seq<string>)
    ensures DeriveState(NonEmpty(parts)) == DeriveState(parts)
  {
    if |parts| == 0 {
    } else {
      var n := |parts| - 1;
      NonEmptyKeepsState(parts[..n]);
      assert parts == parts[..n] + [parts[n]];
      DeriveConcat(parts[..n], [parts[n]]);
      DeriveConcat(NonEmpty(parts[..n]), [parts[n]]);
      if parts[n] == "" {
        assert DeriveState([parts[n]]) == INBOX;
      }
    }
  }

  lemma {:induction false} JoinKeepsState(parts: seq<string>)
    ensures DeriveState(Split(Join(parts))) ==
            DerivePieces(parts)
  {
    if |parts| == 1 {
      assert parts[..0] == [];
    } else if |parts| > 1 {
      var n := |parts| - 1;
      JoinKeepsState(parts[..n]);
      SplitConcat(Join(parts[..n]), parts[n]);
      DeriveConcat(Split(Join(parts[..n])), Split(parts[n]));
    }
  }

  /** Highest state any part implies once the part is itself split at commas. */
  ghost function DerivePieces(parts: seq<string>): State {
    if |parts| == 0 then INBOX
    else MaxState(DerivePieces(parts[..|parts| - 1]), DeriveState(Split(parts[|parts| - 1])))
  }

  lemma {:induction false} DerivePiecesCommaFree(parts: seq<string>)
    requires forall i :: 0 <= i < |parts| ==> CommaFree(parts[i])
    ensures DerivePieces(parts) == DeriveState(parts)
  {
    if |parts| == 0 {
    } else {
      var n := |parts| - 1;
      DerivePiecesCommaFree(parts[..n]);
      SplitCommaFree(parts[n]);
      assert parts == parts[..n] + [parts[n]];
      DeriveConcat(parts[..n], [parts[n]]);
    }
  }

  lemma {:induction false} PieceBound(parts: seq<string>, i: nat)
    requires i < |parts|
    ensures Rank(DeriveState(Split(parts[i]))) <= Rank(DerivePieces(parts))
  {
    if i == |parts| - 1 {
    } else {
      PieceBound(parts[..|parts| - 1], i);
    }
  }

  /** The pieces a move keeps are non-empty and free of commas. */
  lemma KeptPieces(labels: string)
    ensures forall i :: 0 <= i < |NonEmpty(Split(labels))| ==>
              CommaFree(NonEmpty(Split(labels))[i]) && NonEmpty(Split(labels))[i] != ""
  {
    var kept := NonEmpty(Split(labels));
    SplitPartsCommaFree(labels);
    forall i | 0 <= i < |kept| ensures CommaFree(kept[i]) {
      assert kept[i] in Split(labels);
    }
  }

  /** Moving to a label raises the state to the higher of the old labels' and the target's,
      whatever the target contains: commas in it are split like any other. */
  lemma AppendLabelState(labels: string, target: string)
    ensures DeriveState(Split(AppendLabel(labels, target))) ==
            MaxState(DeriveState(Split(labels)), DeriveState(Split(target)))
  {
    var kept := NonEmpty(Split(labels));
    KeptPieces(labels);
    NonEmptyKeepsState(Split(labels));
    DerivePiecesCommaFree(kept);
    if target in kept {
      var i :| 0 <= i < |kept| && kept[i] == target;
      PieceBound(kept, i);
      JoinKeepsState(kept);
    } else {
      JoinKeepsState(kept + [target]);
      assert (kept + [target])[..|kept|] == kept;
    }
  }

  lemma {:induction false} NonEmptyFixed(parts: seq<string>)
    requires forall i :: 0 <= i < |parts| ==> parts[i] != ""
    ensures NonEmpty(parts) == parts
  {
    if |parts| == 0 {
    } else {
      NonEmptyFixed(parts[..|parts| - 1]);
    }
  }

  lemma {:induction false} JoinCons(part: string, rest: seq<string>)
    requires |rest| > 0
    ensures Join([part] + rest) == part + "," + Join(rest)
  {
    var n := |rest| - 1;
    var all := [part] + rest;
    assert all[..|all| - 1] == [part] + rest[..n];
    if n > 0 {
      JoinCons(part, rest[..n]);
      assert Join(all) == part + "," + Join(rest[..n]) + "," + rest[n];
      assert part + "," + Join(rest[..n]) + "," + rest[n] == part + "," + (Join(rest[..n]) + "," + rest[n]);
    } else {
      assert [part] + rest[..0] == [part];
    }
  }

  lemma JoinStepComma(rest: seq<string>)
    requires |rest| > 0
    ensures Join(SplitStep(',', rest)) == "," + Join(rest)
  {
    JoinCons("", rest);
    assert "" + "," == ",";
  }

  lemma JoinStepOne(c: char, rest: seq<string>)
    requires |rest| == 1 && c != ','
    ensures Join(SplitStep(c, rest)) == [c] + Join(rest)
  {
    assert |SplitStep(c, rest)| == 1;
  }

  lemma JoinStepMany(c: char, rest: seq<string>)
    requires |rest| > 1 && c != ','
    ensures Join(SplitStep(c, rest)) == [c] + Join(rest)
  {
    var first, others, tail := rest[0], rest[1..], Join(rest[1..]);
    assert rest == [first] + others;
    calc {
      Join([[c] + first] + others);
    ==  { JoinCons([c] + first, others); }
      (([c] + first) + ",") + tail;
    ==  { Assoc([c], first, ","); }
      ([c] + (first + ",")) + tail;
    ==  { Assoc([c], first + ",", tail); }
      [c] + (first + "," + tail);
    ==  { JoinCons(first, others); }
      [c] + Join([first] + others);
    }
  }

  /** Joining what was split gives the string back. */
  lemma {:induction false} JoinSplit(s: string)
    ensures Join(Split(s)) == s
  {
    if s == "" {
    } else {
      JoinSplit(s[1..]);
      var c, rest := s[0], Split(s[1..]);
      if c == ',' {
        JoinStepComma(rest);
      } else if |rest| == 1 {
        JoinStepOne(c, rest);
      } else {
        JoinStepMany(c, rest);
      }
      assert s == [c] + s[1..];
    }
  }

  lemma JoinAppended(parts: seq<string>, last: string)
    requires |parts| > 0
    ensures Join(parts + [last]) == Join(parts) + "," + last
  {
    assert (parts + [last])[..|parts|] == parts;
  }

  lemma SplitAppended(kept: seq<string>, target: string)
    requires forall i :: 0 <= i < |kept| ==> CommaFree(kept[i])
    ensures Split(Join(kept + [target])) == kept + Split(target)
  {
    if |kept| > 0 {
      JoinAppended(kept, target);
      SplitConcat(Join(kept), target);
      SplitJoin(kept);
    } else {
      assert kept + [target] == [target];
      assert kept + Split(target) == Split(target);
    }
  }

  lemma {:induction false} NonEmptyConcat(a: seq<string>, b: seq<string>)
    ensures NonEmpty(a + b) == NonEmpty(a) + NonEmpty(b)
  {
    if |b| == 0 {
      assert a + b == a;
    } else {
      var n := |b| - 1;
      assert (a + b)[..|a + b| - 1] == a + b[..n] && (a + b)[|a + b| - 1] == b[n];
      NonEmptyConcat(a, b[..n]);
    }
  }

  /** Every piece but the empty ones is kept as often as it occurs. */
  lemma {:induction false} NonEmptyKeepsAll(parts: seq<string>, part: string)
    ensures multiset(NonEmpty(parts))[part] == if part == "" then 0 else multiset(parts)[part]
  {
    if |parts| == 0 {
    } else {
      var n := |parts| - 1;
      NonEmptyKeepsAll(parts[..n], part);
      assert parts == parts[..n] + [parts[n]];
    }
  }

  /** The pieces of the labels column after a move: what it kept, and the pieces of a target not among them. */
  lemma PiecesAfterMove(labels: string, target: string)
    ensures
      var kept := NonEmpty(Split(labels));
      Split(AppendLabel(labels, target)) ==
        if target in kept then kept else kept + Split(target)
  {
    var kept := NonEmpty(Split(labels));
    KeptPieces(labels);
    if target in kept {
      SplitJoin(kept);
    } else {
      SplitAppended(kept, target);
    }
  }

  /** The labels the next move starts from. */
  lemma KeptAfterMove(labels: string, target: string)
    ensures
      var kept := NonEmpty(Split(labels));
      NonEmpty(Split(AppendLabel(labels, target))) ==
        if target in kept then kept else kept + NonEmpty(Split(target))
  {
    var kept := NonEmpty(Split(labels));
    PiecesAfterMove(labels, target);
    NonEmptyFixed(kept);
    NonEmptyConcat(kept, Split(target));
  }

  lemma RepeatCommaFree(labels: string, target: string)
    requires CommaFree(target)
    ensures AppendLabel(AppendLabel(labels, target), target) == AppendLabel(labels, target)
  {
    var kept := NonEmpty(Split(labels));
    KeptAfterMove(labels, target);
    SplitCommaFree(target);
    assert [target][..0] == [];
    assert NonEmpty([target]) == if target == "" then [] else [target];
    if target == "" {
      assert kept + [] == kept;
    }
  }

  lemma KeptHasNoCommas(labels: string, target: string)
    requires !CommaFree(target)
    ensures target !in NonEmpty(Split(labels))
  {
    KeptPieces(labels);
  }

  lemma RepeatWithCommas(labels: string, target: string)
    requires !CommaFree(target)
    ensures AppendLabel(AppendLabel(labels, target), target) == AppendLabel(labels, target) <==> NonEmpty(Split(target)) == []
  {
    var kept, once, pieces := NonEmpty(Split(labels)), AppendLabel(labels, target), NonEmpty(Split(target));
    KeptHasNoCommas(labels, target);
    KeptHasNoCommas(once, target);
    KeptAfterMove(labels, target);
    if pieces == [] {
      assert kept + pieces == kept;
    } else {
      PiecesAfterMove(labels, target);
      PiecesAfterMove(once, target);
      assert |Split(AppendLabel(once, target))| == |kept| + |pieces| + |Split(target)|;
      assert |Split(once)| == |kept| + |Split(target)|;
    }
  }

  /** Repeating a move changes nothing exactly when the target is free of commas or made of nothing else;
      any other target is appended again by every repetition. */
  lemma AppendLabelIdempotence(labels: string, target: string)
    ensures AppendLabel(AppendLabel(labels, target), target) == AppendLabel(labels, target) <==>
            CommaFree(target) || NonEmpty(Split(target)) == []
  {
    if CommaFree(target) {
      RepeatCommaFree(labels, target);
    } else {
      RepeatWithCommas(labels, target);
    }
  }
}
