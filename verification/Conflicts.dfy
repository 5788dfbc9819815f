/** Conflicts between replayed offline operations and the remote state: detection, resolution, the log. */
module Conflicts {
  import opened Option
  import opened Collections

  datatype Strategy = LastWriterWins | AlwaysLocal | AlwaysRemote | Manual

  datatype Resolution = LocalWins | RemoteWins | Merged | ManualPending

  /** The two fields of the remote state that are looked at; an unreadable field counts as absent. */
  datatype Remote = Remote(deleted: Option<bool>, modifiedAt: Option<int>)

  /** The local side records when the operation was queued. */
  datatype Conflict = Conflict(
    id: string,
    queueEntryId: string,
    queuedAt: int,
    remote: Remote,
    resolution: Option<Resolution>,
    resolvedAt: Option<int>,
    createdAt: int)

  function DetectConflict(id: string, entryId: string, queuedAt: int, remote: Remote, now: int): Option<Conflict> {
    var deleted := remote.deleted.GetOr(false);
    var modified := remote.modifiedAt.Some? && remote.modifiedAt.value > queuedAt;
    if deleted || modified then Some(Conflict(id, entryId, queuedAt, remote, None, None, now)) else None
  }

  /** There is a conflict exactly when the remote was deleted, or modified after the queueing; it records both
      sides and starts out unresolved. */
  lemma ConflictDetected(id: string, entryId: string, queuedAt: int, remote: Remote, now: int)
    ensures DetectConflict(id, entryId, queuedAt, remote, now).Some? <==>
            remote.deleted == Some(true) || (remote.modifiedAt.Some? && remote.modifiedAt.value > queuedAt)
    ensures DetectConflict(id, entryId, queuedAt, remote, now).Some? ==>
              DetectConflict(id, entryId, queuedAt, remote, now).value == Conflict(id, entryId, queuedAt, remote, None, None, now)
  {
  }

  /** The operation was queued after the remote's last known change. */
  predicate LocalIsNewer(conflict: Conflict) {
    conflict.remote.modifiedAt.Some? && conflict.remote.modifiedAt.value < conflict.queuedAt
  }

  function Decide(strategy: Strategy, conflict: Conflict): Resolution {
    match strategy
    case LastWriterWins =>
      if LocalIsNewer(conflict) then LocalWins else RemoteWins
    case AlwaysLocal => LocalWins
    case AlwaysRemote => RemoteWins
    case Manual => ManualPending
  }

  /** Under last writer wins a detected conflict goes to the local side exactly when the remote was deleted
      and was last modified strictly before the operation was queued. With a remote that still exists the
      remote side always wins, so the strategy never lets a local edit override a live message. */
  lemma LastWriterOutcome(id: string, entryId: string, queuedAt: int, remote: Remote, now: int)
    requires DetectConflict(id, entryId, queuedAt, remote, now).Some?
    ensures
      var conflict := DetectConflict(id, entryId, queuedAt, remote, now).value;
      && (Decide(LastWriterWins, conflict) == LocalWins <==>
           remote.deleted == Some(true) && remote.modifiedAt.Some? && remote.modifiedAt.value < queuedAt)
      && (Decide(LastWriterWins, conflict) in {LocalWins, RemoteWins})
      && (remote.deleted != Some(true) ==> Decide(LastWriterWins, conflict) == RemoteWins)
  {
  }

  // ---- The log ----

  ghost predicate UniqueIds(log: seq<Conflict>) {
    forall i, j :: 0 <= i < j < |log| ==> log[i].id != log[j].id
  }

  predicate Logged(log: seq<Conflict>, id: string) {
    exists i | 0 <= i < |log| :: log[i].id == id
  }

  /** The columns a resolution writes: nothing at all for a manual one, whatever was there before. */
  function ResolvedRow(row: Conflict, strategy: Strategy, conflict: Conflict, now: int): Conflict {
    var r := Decide(strategy, conflict);
    if r == ManualPending then row.(resolution := None, resolvedAt := None)
    else row.(resolution := Some(r), resolvedAt := Some(now))
  }

  function AfterResolve(log: seq<Conflict>, strategy: Strategy, conflict: Conflict, now: int): (r: seq<Conflict>)
    ensures |r| == |log|
    ensures forall i :: 0 <= i < |log| ==>
              r[i] == if log[i].id == conflict.id then ResolvedRow(log[i], strategy, conflict, now) else log[i]
  {
    seq(|log|, i requires 0 <= i < |log| =>
      if log[i].id == conflict.id then ResolvedRow(log[i], strategy, conflict, now) else log[i])
  }

  /** Newest first. */
  ghost predicate IsUnresolvedListing(log: seq<Conflict>, listed: seq<Conflict>) {
    && (forall k, l :: 0 <= k < l < |listed| ==> listed[k].createdAt >= listed[l].createdAt)
    && multiset(listed) == multiset(Unresolved(log))
  }

  function Unresolved(log: seq<Conflict>): seq<Conflict> {
    if |log| == 0 then []
    else
      var last := log[|log| - 1];
      Unresolved(log[..|log| - 1]) + if last.resolution.None? then [last] else []
  }

  method InsertNewestFirst(listed: seq<Conflict>, c: Conflict) returns (out: seq<Conflict>)
    requires forall k, l :: 0 <= k < l < |listed| ==> listed[k].createdAt >= listed[l].createdAt
    ensures forall k, l :: 0 <= k < l < |out| ==> out[k].createdAt >= out[l].createdAt
    ensures multiset(out) == multiset(listed) + multiset{c}
  {
    var i := 0;
    while i < |listed| && listed[i].createdAt >= c.createdAt
      invariant i <= |listed|
      invariant forall k :: 0 <= k < i ==> listed[k].createdAt >= c.createdAt
    {
      i := i + 1;
    }
    out := InsertAt(listed, i, c);
  }

  // ---- Any sequence of logging and resolving ----

  datatype Action =
    | Log(conflict: Conflict)
    | ResolveWith(strategy: Strategy, conflict: Conflict, now: int)

  function Next(log: seq<Conflict>, action: Action): seq<Conflict> {
    match action
    case Log(conflict) => if Logged(log, conflict.id) then log else log + [conflict]
    case ResolveWith(strategy, conflict, now) => AfterResolve(log, strategy, conflict, now)
  }

  function After(actions: seq<Action>): seq<Conflict> {
    if |actions| == 0 then [] else Next(After(actions[..|actions| - 1]), actions[|actions| - 1])
  }

  /** What the history says about an id: never logged; or logged, and the verdict of the last resolution
      after that, if any (a resolution before the logging leaves no trace). */
  datatype Standing = Unknown | Open | Settled

  function NextStanding(before: Standing, action: Action, id: string): Standing {
    match action
    case Log(conflict) =>
      if before == Unknown && conflict.id == id then (if conflict.resolution.None? then Open else Settled) else before
    case ResolveWith(strategy, conflict, _) =>
      if before != Unknown && conflict.id == id then (if strategy == Manual then Open else Settled) else before
  }

  function StandingOf(actions: seq<Action>, id: string): Standing {
    if |actions| == 0 then Unknown
    else NextStanding(StandingOf(actions[..|actions| - 1], id), actions[|actions| - 1], id)
  }

  lemma UnresolvedMember(log: seq<Conflict>, c: Conflict)
    ensures c in Unresolved(log) <==> c in log && c.resolution.None?
  {
    if |log| == 0 {
    } else {
      UnresolvedMember(log[..|log| - 1], c);
      assert log == log[..|log| - 1] + [log[|log| - 1]];
    }
  }

  /** The rows of a log agree with the standing of an id. */
  ghost predicate Agrees(log: seq<Conflict>, id: string, standing: Standing) {
    && UniqueIds(log)
    && (Logged(log, id) <==> standing != Unknown)
    && forall i :: 0 <= i < |log| && log[i].id == id ==> (log[i].resolution.None? <==> standing == Open)
  }

  lemma LoggingAgrees(conflict: Conflict, id: string, before: seq<Conflict>, standing: Standing)
    requires Agrees(before, id, standing)
    ensures Agrees(Next(before, Log(conflict)), id, NextStanding(standing, Log(conflict), id))
  {
    var after := Next(before, Log(conflict));
    if !Logged(before, conflict.id) {
      assert after[|before|] == conflict && forall i :: 0 <= i < |before| ==> after[i] == before[i];
    }
  }

  lemma ResolvingAgrees(strategy: Strategy, conflict: Conflict, now: int, id: string, before: seq<Conflict>, standing: Standing)
    requires Agrees(before, id, standing)
    ensures
      var action := ResolveWith(strategy, conflict, now);
      Agrees(Next(before, action), id, NextStanding(standing, action, id))
  {
    var after := Next(before, ResolveWith(strategy, conflict, now));
    assert forall i :: 0 <= i < |before| ==> after[i].id == before[i].id;
    assert Logged(after, id) <==> Logged(before, id);
  }

  /** The log holds one row per logged id, unresolved exactly while the id's standing is open. */
  lemma {:induction false} LogMatchesStanding(actions: seq<Action>, id: string)
    ensures Agrees(After(actions), id, StandingOf(actions, id))
  {
    if |actions| == 0 {
    } else {
      var front, last := actions[..|actions| - 1], actions[|actions| - 1];
      LogMatchesStanding(front, id);
      match last
      case Log(conflict) => LoggingAgrees(conflict, id, After(front), StandingOf(front, id));
      case ResolveWith(strategy, conflict, now) =>
        ResolvingAgrees(strategy, conflict, now, id, After(front), StandingOf(front, id));
    }
  }

  /** After any sequence of logs and resolutions, by resolvers of whatever strategies, the unresolved
      conflicts are exactly the logged ones whose last resolution, if any, was manual. */
  lemma UnresolvedExactly(actions: seq<Action>, id: string)
    ensures (exists c :: c in Unresolved(After(actions)) && c.id == id) <==> StandingOf(actions, id) == Open
  {
    LogMatchesStanding(actions, id);
    var log := After(actions);
    if StandingOf(actions, id) == Open {
      var i :| 0 <= i < |log| && log[i].id == id;
      UnresolvedMember(log, log[i]);
    }
    forall c | c in Unresolved(log) && c.id == id ensures StandingOf(actions, id) == Open {
      UnresolvedMember(log, c);
      var i :| 0 <= i < |log| && log[i] == c;
    }
  }

  // ---- The resolver ----

  /** `history` is what was done to the log so far. */
  class ConflictResolver {
    const strategy: Strategy
    var log: seq<Conflict>
    ghost var history: seq<Action>

    ghost predicate Valid()
      reads this
    {
      UniqueIds(log) && log == After(history)
    }

    constructor (strategy: Strategy)
      ensures Valid() && history == [] && this.strategy == strategy
    {
      this.strategy := strategy;
      log, history := [], [];
    }

    method Find(id: string) returns (i: nat)
      ensures i <= |log|
      ensures i < |log| ==> log[i].id == id
      ensures i == |log| ==> !Logged(log, id)
    {
      i := 0;
      while i < |log|
        invariant i <= |log|
        invariant forall j :: 0 <= j < i ==> log[j].id != id
      {
        if log[i].id == id {
          return;
        }
        i := i + 1;
      }
    }

    /** A conflict whose id is already there violates the primary key. */
    method LogConflict(conflict: Conflict) returns (r: Result<(), ()>)
      requires Valid()
      modifies this
      ensures Valid() && history == old(history) + [Log(conflict)]
      ensures r == if StandingOf(old(history), conflict.id) == Unknown then Ok(()) else Err(())
      ensures r.Ok? <==> forall i :: 0 <= i < |old(log)| ==> old(log)[i].id != conflict.id
      ensures log == if r.Ok? then old(log) + [conflict] else old(log)
    {
      LogMatchesStanding(history, conflict.id);
      var i := Find(conflict.id);
      AfterNext(history, Log(conflict));
      history := history + [Log(conflict)];
      if i < |log| {
        return Err(());
      }
      log := log + [conflict];
      r := Ok(());
    }

    /** Decides and stores the verdict on the conflict's row, if it was ever logged. A manual verdict stores
        none, and clears the one that was there. */
    method Resolve(conflict: Conflict, now: int) returns (r: Resolution)
      requires Valid()
      modifies this
      ensures Valid() && history == old(history) + [ResolveWith(strategy, conflict, now)]
      ensures r == ManualPending <==> strategy == Manual
      ensures r == LocalWins <==>
                || strategy == AlwaysLocal
                || (strategy == LastWriterWins && conflict.remote.modifiedAt.Some? && conflict.remote.modifiedAt.value < conflict.queuedAt)
      ensures r != Merged
      ensures |log| == |old(log)|
      ensures forall i :: 0 <= i < |log| && log[i].id != conflict.id ==> log[i] == old(log)[i]
      ensures forall i :: 0 <= i < |log| && log[i].id == conflict.id ==>
                log[i] == if strategy == Manual then old(log)[i].(resolution := None, resolvedAt := None)
                          else old(log)[i].(resolution := Some(r), resolvedAt := Some(now))
    {
      r := Decide(strategy, conflict);
      AfterNext(history, ResolveWith(strategy, conflict, now));
      history := history + [ResolveWith(strategy, conflict, now)];
      var i := Find(conflict.id);
      if i < |log| {
        log := log[i := if r == ManualPending then log[i].(resolution := None, resolvedAt := None)
                        else log[i].(resolution := Some(r), resolvedAt := Some(now))];
      }
      ResolvedInPlace(old(log), i, strategy, conflict, now);
    }

    /** Newest first, exactly the logged conflicts whose last resolution, if any, was manual. */
    method ListUnresolved() returns (listed: seq<Conflict>)
      requires Valid()
      ensures forall k, l :: 0 <= k < l < |listed| ==> listed[k].createdAt >= listed[l].createdAt
      ensures multiset(listed) == multiset(Unresolved(log))
      ensures forall id :: (exists c :: c in listed && c.id == id) <==> StandingOf(history, id) == Open
    {
      listed := [];
      for k := 0 to |log|
        invariant IsUnresolvedListing(log[..k], listed)
      {
        UnresolvedNext(log, k);
        if log[k].resolution.None? {
          listed := InsertNewestFirst(listed, log[k]);
        }
      }
      assert log[..|log|] == log;
      ListedExactly(history, listed);
    }
  }

  /** Writing the one row with the id is writing every row with the id. */
  lemma ResolvedInPlace(log: seq<Conflict>, i: nat, strategy: Strategy, conflict: Conflict, now: int)
    requires UniqueIds(log) && i <= |log|
    requires if i < |log| then log[i].id == conflict.id else !Logged(log, conflict.id)
    ensures AfterResolve(log, strategy, conflict, now) ==
            if i < |log| then log[i := ResolvedRow(log[i], strategy, conflict, now)] else log
  {
  }

  lemma UnresolvedNext(log: seq<Conflict>, k: nat)
    requires k < |log|
    ensures Unresolved(log[..k + 1]) == Unresolved(log[..k]) + if log[k].resolution.None? then [log[k]] else []
  {
    assert log[..k + 1][..k] == log[..k];
  }

  lemma ListedExactly(actions: seq<Action>, listed: seq<Conflict>)
    requires multiset(listed) == multiset(Unresolved(After(actions)))
    ensures forall id :: (exists c :: c in listed && c.id == id) <==> StandingOf(actions, id) == Open
  {
    forall c ensures c in listed <==> c in Unresolved(After(actions)) {
      assert c in multiset(listed) <==> c in multiset(Unresolved(After(actions)));
    }
    forall id ensures (exists c :: c in listed && c.id == id) <==> StandingOf(actions, id) == Open {
      UnresolvedExactly(actions, id);
    }
  }

  lemma AfterNext(actions: seq<Action>, next: Action)
    ensures After(actions + [next]) == Next(After(actions), next)
  {
    assert (actions + [next])[..|actions|] == actions;
  }
}
