/** The per-account pipeline lock and the protocol its clients follow. The lock itself never checks who
    releases it, so exclusion is a property of the clients together with the map. */
module AccountLock {
  import opened Option

  datatype Phase = SyncingPhase | EmbeddingPhase

  datatype Activity = Activity(jobId: string, accountId: string, phase: Phase, startedAt: int, source: string)

  type Locks = map<string, Activity>

  // ---- The three writes, shared by the map and the protocol ----

  function Acquired(locks: Locks, account: string, activity: Activity): Locks {
    if account in locks then locks else locks[account := activity]
  }

  function Released(locks: Locks, account: string): Locks {
    locks - {account}
  }

  function WithPhase(locks: Locks, account: string, phase: Phase): Locks {
    if account in locks then locks[account := locks[account].(phase := phase)] else locks
  }

  /** A release undoes what was done since the attempt to acquire exactly when that attempt succeeded: a
      client that was turned away must not release. */
  lemma ReleaseUndoesAcquire(locks: Locks, account: string, activity: Activity, phase: Phase)
    ensures Released(WithPhase(Acquired(locks, account, activity), account, phase), account) == locks <==> account !in locks
  {
    var held := WithPhase(Acquired(locks, account, activity), account, phase);
    assert account in held;
    assert account !in Released(held, account);
  }

  class AccountLockMap {
    var locks: Locks

    constructor ()
      ensures locks == map[]
    {
      locks := map[];
    }

    method TryAcquire(account: string, activity: Activity) returns (r: Result<(), Activity>)
      modifies this
      ensures r == if account in old(locks) then Err(old(locks)[account]) else Ok(())
      ensures locks == if r.Ok? then old(locks)[account := activity] else old(locks)
    {
      if account in locks {
        return Err(locks[account]);
      }
      locks := locks[account := activity];
      r := Ok(());
    }

    method Release(account: string)
      modifies this
      ensures locks == Released(old(locks), account)
      ensures account !in locks
      ensures forall other :: other != account ==>
                (other in locks <==> other in old(locks)) && (other in locks ==> locks[other] == old(locks)[other])
    {
      locks := locks - {account};
    }

    method UpdatePhase(account: string, phase: Phase)
      modifies this
      ensures locks == WithPhase(old(locks), account, phase)
      ensures locks.Keys == old(locks).Keys
      ensures forall other :: other in locks ==>
                locks[other] == if other == account then old(locks)[other].(phase := phase) else old(locks)[other]
    {
      if account in locks {
        locks := locks[account := locks[account].(phase := phase)];
      }
    }

    method GetActivity(account: string) returns (activity: Option<Activity>)
      ensures activity.Some? <==> account in locks
      ensures activity.Some? ==> locks[account] == activity.value
    {
      activity := if account in locks then Some(locks[account]) else None;
    }

    /** The poll closure, undisturbed: skip when busy; on a failed sync release and report; otherwise announce
        the embedding phase, run it whatever comes of it, and release. `shown` is what the map shows about
        the account while the embedding runs. */
    method Poll(account: string, activity: Activity, synced: Result<nat, string>)
      returns (r: Result<nat, string>, shown: Option<Activity>)
      modifies this
      ensures locks == old(locks)
      ensures r == if account in old(locks) then Ok(0) else synced
      ensures shown == if account !in old(locks) && synced.Ok? then Some(activity.(phase := EmbeddingPhase)) else None
    {
      shown := None;
      ReleaseUndoesAcquire(locks, account, activity, activity.phase);
      ReleaseUndoesAcquire(locks, account, activity, EmbeddingPhase);
      var lock := TryAcquire(account, activity);
      if lock.Err? {
        return Ok(0), None;
      }
      if synced.Err? {
        Release(account);
        return synced, None;
      }
      UpdatePhase(account, EmbeddingPhase);
      shown := GetActivity(account);
      Release(account);
      r := synced;
    }

    /** The ingestion request and its background task, undisturbed: refused when busy, with the activity found;
        otherwise the embedding pipeline runs whether or not the sync succeeded in time. */
    method Ingest(account: string, activity: Activity) returns (r: Result<string, Activity>, shown: Option<Activity>)
      modifies this
      ensures locks == old(locks)
      ensures r == if account in old(locks) then Err(old(locks)[account]) else Ok(activity.jobId)
      ensures shown == if account !in old(locks) then Some(activity.(phase := EmbeddingPhase)) else None
    {
      ReleaseUndoesAcquire(locks, account, activity, EmbeddingPhase);
      var lock := TryAcquire(account, activity);
      if lock.Err? {
        return Err(lock.error), None;
      }
      UpdatePhase(account, EmbeddingPhase);
      shown := GetActivity(account);
      Release(account);
      r := Ok(activity.jobId);
    }
  }

  // ---- The clients ----

  /** A poll closure gives up and releases when its sync fails; an ingestion task carries on to the
      embedding pipeline after a failed or timed-out sync. */
  datatype Kind = Poll | Ingestion

  /** What a client has done so far. */
  datatype Pc =
    | Starting    // about to try the lock
    | Syncing     // holds the lock, provider sync under way
    | SyncFailed  // about to release and report the error
    | Synced      // about to announce the embedding phase
    | Embedding   // embedding pipeline under way
    | Embedded    // about to release
    | Ended

  datatype Client = Client(kind: Kind, account: string, jobId: string, source: string, startedAt: int, pc: Pc)

  predicate Holds(c: Client) {
    c.pc != Starting && c.pc != Ended
  }

  /** The activity a client announces at its point in the program. */
  function ActivityOf(c: Client): Activity {
    Activity(c.jobId, c.account, if c.pc in {Embedding, Embedded} then EmbeddingPhase else SyncingPhase, c.startedAt, c.source)
  }

  datatype System = System(locks: Locks, clients: seq<Client>)

  /** The atomic steps: one lock call each, or the end of a piece of work between two lock calls. */
  datatype Action =
    | Spawn(client: Client)
    | TryLock(i: nat)
    | SyncEnds(i: nat, ok: bool)
    | Announce(i: nat)
    | EmbeddingEnds(i: nat)
    | Unlock(i: nat)

  predicate Enabled(s: System, a: Action) {
    match a
    case Spawn(client) => client.pc == Starting
    case TryLock(i) => i < |s.clients| && s.clients[i].pc == Starting
    case SyncEnds(i, _) => i < |s.clients| && s.clients[i].pc == Syncing
    case Announce(i) => i < |s.clients| && s.clients[i].pc == Synced
    case EmbeddingEnds(i) => i < |s.clients| && s.clients[i].pc == Embedding
    case Unlock(i) => i < |s.clients| && s.clients[i].pc in {SyncFailed, Embedded}
  }

  function Moved(s: System, i: nat, pc: Pc): seq<Client>
    requires i < |s.clients|
  {
    s.clients[i := s.clients[i].(pc := pc)]
  }

  function Act(s: System, a: Action): System
    requires Enabled(s, a)
  {
    match a
    case Spawn(client) => s.(clients := s.clients + [client])
    case TryLock(i) =>
      var c := s.clients[i];
      System(Acquired(s.locks, c.account, ActivityOf(c)), Moved(s, i, if c.account in s.locks then Ended else Syncing))
    case SyncEnds(i, ok) =>
      s.(clients := Moved(s, i, if ok || s.clients[i].kind == Ingestion then Synced else SyncFailed))
    case Announce(i) => System(WithPhase(s.locks, s.clients[i].account, EmbeddingPhase), Moved(s, i, Embedding))
    case EmbeddingEnds(i) => s.(clients := Moved(s, i, Embedded))
    case Unlock(i) => System(Released(s.locks, s.clients[i].account), Moved(s, i, Ended))
  }

  /** What each step changes: one client's place in its program, and the map only where it calls the lock. A
      failed sync leads a poll closure to its release and an ingestion task on to the embedding. */
  lemma StepsOneByOne(s: System, a: Action)
    requires Enabled(s, a)
    ensures a.Spawn? ==> Act(s, a) == System(s.locks, s.clients + [a.client])
    ensures !a.Spawn? ==>
              var c, c' := s.clients[a.i], Act(s, a).clients[a.i];
              && Act(s, a).clients == s.clients[a.i := c.(pc := c'.pc)]
              && (a.TryLock? && c.account in s.locks ==> c'.pc == Ended && Act(s, a).locks == s.locks)
              && (a.TryLock? && c.account !in s.locks ==>
                   c'.pc == Syncing &&
                   Act(s, a).locks == s.locks[c.account := Activity(c.jobId, c.account, SyncingPhase, c.startedAt, c.source)])
              && (a.SyncEnds? ==>
                   Act(s, a).locks == s.locks &&
                   c'.pc == if a.ok then Synced else if c.kind == Poll then SyncFailed else Synced)
              && (a.Announce? ==>
                   c'.pc == Embedding &&
                   Act(s, a).locks ==
                     if c.account in s.locks then s.locks[c.account := s.locks[c.account].(phase := EmbeddingPhase)] else s.locks)
              && (a.EmbeddingEnds? ==> c'.pc == Embedded && Act(s, a).locks == s.locks)
              && (a.Unlock? ==> c'.pc == Ended && Act(s, a).locks == s.locks - {c.account})
  {
  }

  /** The lock map is exactly the announcements of the holding clients, at most one per account. */
  ghost predicate Inv(s: System) {
    Announced(s) && Exclusive(s) && Covered(s)
  }

  ghost predicate Announced(s: System) {
    forall i :: 0 <= i < |s.clients| && Holds(s.clients[i]) ==>
      s.clients[i].account in s.locks && s.locks[s.clients[i].account] == ActivityOf(s.clients[i])
  }

  ghost predicate Exclusive(s: System) {
    forall i, j :: 0 <= i < j < |s.clients| && Holds(s.clients[i]) && Holds(s.clients[j]) ==>
      s.clients[i].account != s.clients[j].account
  }

  ghost predicate Covered(s: System) {
    forall account :: account in s.locks ==> HeldBySome(s, account)
  }

  ghost predicate HeldBySome(s: System, account: string) {
    exists i :: 0 <= i < |s.clients| && Holds(s.clients[i]) && s.clients[i].account == account
  }

  lemma ActKeepsCovered(s: System, a: Action)
    requires Inv(s) && Enabled(s, a)
    ensures Covered(Act(s, a))
  {
    var s' := Act(s, a);
    forall account | account in s'.locks ensures HeldBySome(s', account) {
      if account in s.locks {
        assert HeldBySome(s, account);
        var i :| 0 <= i < |s.clients| && Holds(s.clients[i]) && s.clients[i].account == account;
        assert Holds(s'.clients[i]) && s'.clients[i].account == account;
      } else {
        assert a.TryLock?;
        assert Holds(s'.clients[a.i]);
      }
    }
  }

  lemma ActKeepsExclusive(s: System, a: Action)
    requires Inv(s) && Enabled(s, a)
    ensures Exclusive(Act(s, a))
  {
    var s' := Act(s, a);
    forall i, j | 0 <= i < j < |s'.clients| && Holds(s'.clients[i]) && Holds(s'.clients[j])
      ensures s'.clients[i].account != s'.clients[j].account
    {
      if a.TryLock? && (i == a.i || j == a.i) {
        var other := if i == a.i then j else i;
        assert Holds(s.clients[other]) && s.clients[other].account in s.locks;
      }
    }
  }

  lemma ActKeepsAnnounced(s: System, a: Action)
    requires Inv(s) && Enabled(s, a)
    ensures Announced(Act(s, a))
  {
    var s' := Act(s, a);
    forall i | 0 <= i < |s'.clients| && Holds(s'.clients[i])
      ensures s'.clients[i].account in s'.locks && s'.locks[s'.clients[i].account] == ActivityOf(s'.clients[i])
    {
      if !a.Spawn? && i != a.i && Holds(s.clients[a.i]) {
        assert s.clients[i].account != s.clients[a.i].account;
      }
    }
  }

  lemma ActKeepsInv(s: System, a: Action)
    requires Inv(s) && Enabled(s, a)
    ensures Inv(Act(s, a))
  {
    ActKeepsAnnounced(s, a);
    ActKeepsExclusive(s, a);
    ActKeepsCovered(s, a);
  }

  ghost predicate Legal(s: System, actions: seq<Action>)
    decreases |actions|, 0
  {
    |actions| == 0 ||
    (Legal(s, actions[..|actions| - 1]) && Enabled(Run(s, actions[..|actions| - 1]), actions[|actions| - 1]))
  }

  ghost function Run(s: System, actions: seq<Action>): System
    requires Legal(s, actions)
    decreases |actions|, 1
  {
    if |actions| == 0 then s else Act(Run(s, actions[..|actions| - 1]), actions[|actions| - 1])
  }

  lemma {:induction false} RunKeepsInv(s: System, actions: seq<Action>)
    requires Inv(s) && Legal(s, actions)
    ensures Inv(Run(s, actions))
  {
    if |actions| == 0 {
    } else {
      RunKeepsInv(s, actions[..|actions| - 1]);
      ActKeepsInv(Run(s, actions[..|actions| - 1]), actions[|actions| - 1]);
    }
  }

  /** In every interleaving an account is locked exactly when some client is between its successful
      acquire and its release; that client is the only one, and the activity shown is that client's. */
  lemma LockedIffHeld(actions: seq<Action>, account: string)
    requires Legal(System(map[], []), actions)
    ensures
      var s := Run(System(map[], []), actions);
      && (account in s.locks <==> HeldBySome(s, account))
      && (forall i :: 0 <= i < |s.clients| && Holds(s.clients[i]) && s.clients[i].account == account ==>
           account in s.locks && s.locks[account] == ActivityOf(s.clients[i]))
      && (forall i, j :: 0 <= i < j < |s.clients| && s.clients[i].account == s.clients[j].account ==>
           !(Holds(s.clients[i]) && Holds(s.clients[j])))
  {
    RunKeepsInv(System(map[], []), actions);
  }

  /** A client that is turned away is told about the activity of the client that holds the lock. */
  lemma RefusalNamesHolder(s: System, i: nat)
    requires Inv(s) && Enabled(s, TryLock(i)) && s.clients[i].account in s.locks
    ensures exists j :: 0 <= j < |s.clients| && Holds(s.clients[j]) && s.locks[s.clients[i].account] == ActivityOf(s.clients[j])
    ensures Act(s, TryLock(i)).locks == s.locks
  {
    assert HeldBySome(s, s.clients[i].account);
  }

  // ---- No lock is leaked ----

  function StepsLeft(pc: Pc): nat {
    match pc
    case Starting => 5
    case Syncing => 4
    case Synced => 3
    case Embedding => 2
    case Embedded => 1
    case SyncFailed => 1
    case Ended => 0
  }

  function AllStepsLeft(clients: seq<Client>): nat {
    if |clients| == 0 then 0 else AllStepsLeft(clients[..|clients| - 1]) + StepsLeft(clients[|clients| - 1].pc)
  }

  lemma {:induction false} StepsLeftUpdate(clients: seq<Client>, i: nat, c: Client)
    requires i < |clients|
    ensures AllStepsLeft(clients[i := c]) == AllStepsLeft(clients) - StepsLeft(clients[i].pc) + StepsLeft(c.pc)
  {
    var n := |clients| - 1;
    if i == n {
      assert clients[i := c][..n] == clients[..n];
    } else {
      assert clients[i := c][..n] == clients[..n][i := c];
      StepsLeftUpdate(clients[..n], i, c);
    }
  }

  /** Every step of a client brings it closer to its end. */
  lemma StepsRunOut(s: System, a: Action)
    requires Enabled(s, a) && !a.Spawn?
    ensures AllStepsLeft(Act(s, a).clients) < AllStepsLeft(s.clients)
  {
    StepsLeftUpdate(s.clients, a.i, Act(s, a).clients[a.i]);
  }

  function Spawns(actions: seq<Action>): nat {
    if |actions| == 0 then 0 else Spawns(actions[..|actions| - 1]) + if actions[|actions| - 1].Spawn? then 1 else 0
  }

  /** Finitely many clients take finitely many steps: at most five each. */
  lemma {:induction false} RunLength(s: System, actions: seq<Action>)
    requires Legal(s, actions)
    ensures |actions| - Spawns(actions) + AllStepsLeft(Run(s, actions).clients) <= AllStepsLeft(s.clients) + 5 * Spawns(actions)
  {
    if |actions| == 0 {
    } else {
      var front, last := actions[..|actions| - 1], actions[|actions| - 1];
      RunLength(s, front);
      if last.Spawn? {
        assert Run(s, actions).clients[..|Run(s, front).clients|] == Run(s, front).clients;
      } else {
        StepsRunOut(Run(s, front), last);
      }
    }
  }

  /** When no client can take a step, all have ended, on whatever path, and no lock is left behind. */
  lemma NothingLeaks(actions: seq<Action>)
    requires Legal(System(map[], []), actions)
    requires forall a :: Enabled(Run(System(map[], []), actions), a) ==> a.Spawn?
    ensures
      var s := Run(System(map[], []), actions);
      s.locks == map[] && forall i :: 0 <= i < |s.clients| ==> s.clients[i].pc == Ended
  {
    var s := Run(System(map[], []), actions);
    RunKeepsInv(System(map[], []), actions);
    forall i | 0 <= i < |s.clients| ensures s.clients[i].pc == Ended {
      assert !Enabled(s, TryLock(i)) && !Enabled(s, SyncEnds(i, true)) && !Enabled(s, Announce(i))
          && !Enabled(s, EmbeddingEnds(i)) && !Enabled(s, Unlock(i));
    }
    assert forall account :: account in s.locks ==> HeldBySome(s, account);
    assert s.locks.Keys == {};
  }

  /** The lock does not protect itself: a release from outside the protocol is harmless exactly when the
      account is not locked. */
  lemma StrayRelease(s: System, account: string)
    requires Inv(s)
    ensures Inv(s.(locks := Released(s.locks, account))) <==> account !in s.locks
  {
    if account in s.locks {
      assert HeldBySome(s, account);
    } else {
      assert Released(s.locks, account) == s.locks;
    }
  }
}
