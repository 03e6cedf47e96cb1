/** The utilisation report: the queue entries whose reservation is still
    active, which the pricing of new bids relies on. */
module LifecycleReport {
  import opened Model
  import opened Tracking
  import opened Lifecycle
  import opened LifecycleInvariant
  import opened LifecycleBooks
  import opened LifecycleTheorems

  function Reported(db: Database, tasks: seq<Task>): seq<SlaId>
    decreases |tasks|
  {
    if tasks == [] then []
    else
      var rest := Reported(db, tasks[..|tasks| - 1]);
      var last := tasks[|tasks| - 1];
      if GetFinishable(db, last.sla).Some? then rest + [last.sla] else rest
  }

  // The report keeps each queue entry whose reservation is active.
  lemma {:induction false} ReportedCount(db: Database, tasks: seq<Task>, id: SlaId)
    ensures multiset(Reported(db, tasks))[id] == if ActiveIn(db, id) then multiset(Ids(tasks))[id] else 0
    decreases |tasks|
  {
    if tasks == [] {
      assert Ids(tasks) == [];
    } else {
      var front, last := tasks[..|tasks| - 1], tasks[|tasks| - 1];
      ReportedCount(db, front, id);
      assert tasks == front + [last];
      IdsPush(front, last);
    }
  }

  lemma IdsSplit(tasks: seq<Task>, k: nat)
    requires k <= |tasks|
    ensures Ids(tasks) == Ids(tasks[..k]) + Ids(tasks[k..])
    ensures multiset(Ids(tasks)) == multiset(Ids(tasks[..k])) + multiset(Ids(tasks[k..]))
  {
    assert Ids(tasks) == Ids(tasks[..k]) + Ids(tasks[k..]);
  }

  lemma QueueEntryUnique(sh: Shared, held: Option<Pc>, id: SlaId)
    requires TimedAt(sh, held, id) && EntriesAt(sh, held, id) && QueueOk(sh, held)
    ensures multiset(Ids(sh.tasks))[id] <= multiset(Ids(sh.log.created))[id] <= 1
  {
    IdsSplit(sh.log.created, |sh.log.created| - |sh.tasks|);
  }

  /** Every reported event is an active reservation, reported once. */
  lemma ReportIsActive(s: State, id: SlaId)
    requires Reachable(s)
    ensures id in Reported(s.shared.db, s.shared.tasks) ==> ActiveIn(s.shared.db, id)
    ensures multiset(Reported(s.shared.db, s.shared.tasks))[id] <= 1
  {
    ReachableInv(s);
    assert TimedAt(s.shared, Held(s), id) && EntriesAt(s.shared, Held(s), id);
    ReportedCount(s.shared.db, s.shared.tasks, id);
    QueueEntryUnique(s.shared, Held(s), id);
  }

  // The permit is free and no timer's finish is under way.
  ghost predicate Settled(s: State) {
    && s.permit == None
    && forall t, id :: t in s.threads ==> !s.threads[t].Expiring(id)
  }

  // How many entries have been popped.
  ghost function Popped(sh: Shared): int {
    |sh.log.created| - |sh.tasks|
  }

  lemma SettledCounts(s: State)
    requires Inv(s) && Settled(s)
    ensures 0 <= Popped(s.shared) == |s.shared.log.fired| - s.shared.log.wasted
    ensures s.shared.tasks == s.shared.log.created[Popped(s.shared)..]
    ensures multiset(Ids(s.shared.log.created)) == s.shared.timers + multiset(s.shared.log.fired)
  {
    var sh := s.shared;
    forall id
      ensures multiset(Ids(sh.log.created))[id] == (sh.timers + multiset(sh.log.fired))[id]
    {
      assert EntriesAt(sh, Held(s), id);
    }
    assert multiset(Ids(sh.log.created)) == sh.timers + multiset(sh.log.fired);
    assert |multiset(Ids(sh.log.created))| == |sh.log.created|;
    assert |multiset(sh.log.fired)| == |sh.log.fired|;
  }

  /** With no finish under way, the report is complete exactly when the oldest
      payments, as many as entries have been popped, are all over: one for each
      timer that has fired, but for one that found the queue empty. */
  lemma ReportCompleteIff(s: State)
    requires Reachable(s) && Settled(s)
    ensures 0 <= Popped(s.shared) == |s.shared.log.fired| - s.shared.log.wasted
    ensures (forall id :: ActiveIn(s.shared.db, id) <==> id in Reported(s.shared.db, s.shared.tasks))
            <==> (forall i :: 0 <= i < Popped(s.shared) ==> !ActiveIn(s.shared.db, s.shared.log.created[i].sla))
  {
    ReachableInv(s);
    SettledCounts(s);
    var sh := s.shared;
    IdsSplit(sh.log.created, Popped(sh));
    forall id
      ensures id in Reported(sh.db, sh.tasks) <==> ActiveIn(sh.db, id) && id in Ids(sh.tasks)
      ensures ActiveIn(sh.db, id) ==> id in Ids(sh.log.created)
      ensures multiset(Ids(sh.log.created))[id] <= 1
    {
      ReportedCount(sh.db, sh.tasks, id);
      assert CoveredAt(s, id) && TimedAt(sh, Held(s), id) && EntriesAt(sh, Held(s), id);
      QueueEntryUnique(sh, Held(s), id);
      assert id in Reported(sh.db, sh.tasks) <==> id in multiset(Reported(sh.db, sh.tasks));
      assert id in Ids(sh.tasks) <==> id in multiset(Ids(sh.tasks));
      assert id in Ids(sh.log.created) <==> id in multiset(Ids(sh.log.created));
    }
    PrefixOrSuffix(sh, Popped(sh));
  }

  lemma PrefixOrSuffix(sh: Shared, k: nat)
    requires k <= |sh.log.created| && sh.tasks == sh.log.created[k..]
    requires forall id :: ActiveIn(sh.db, id) ==> id in Ids(sh.log.created)
    requires forall id :: multiset(Ids(sh.log.created))[id] <= 1
    ensures (forall id :: ActiveIn(sh.db, id) ==> id in Ids(sh.tasks))
            <==> (forall i :: 0 <= i < k ==> !ActiveIn(sh.db, sh.log.created[i].sla))
  {
    var all := Ids(sh.log.created);
    IdsSplit(sh.log.created, k);
    var old', new' := Ids(sh.log.created[..k]), Ids(sh.tasks);
    forall id ensures id in all <==> id in old' || id in new' {
    }
    forall id | id in old' ensures id !in new' {
      assert multiset(old')[id] >= 1 && multiset(all)[id] <= 1;
      assert id in new' ==> multiset(new')[id] >= 1;
    }
    forall i | 0 <= i < k ensures sh.log.created[i].sla in old' {
      assert old'[i] == sh.log.created[i].sla;
    }
    forall id | id in old' ensures exists i :: 0 <= i < k && sh.log.created[i].sla == id {
      var i :| 0 <= i < |old'| && old'[i] == id;
      assert sh.log.created[i].sla == id;
    }
  }

  /** Timers firing in creation order leave the report complete. */
  lemma InOrderIsComplete(s: State)
    requires Reachable(s) && Settled(s)
    requires s.shared.log.fired <= Ids(s.shared.log.created)
    ensures forall id :: ActiveIn(s.shared.db, id) <==> id in Reported(s.shared.db, s.shared.tasks)
  {
    ReachableInv(s);
    ReportCompleteIff(s);
    var sh := s.shared;
    forall i | 0 <= i < Popped(sh) ensures !ActiveIn(sh.db, sh.log.created[i].sla) {
      var id := sh.log.fired[i];
      assert id == Ids(sh.log.created)[i] == sh.log.created[i].sla;
      assert id in multiset(sh.log.fired);
      assert TimedAt(sh, Held(s), id) && CoveredAt(s, id);
    }
  }

  /** A timer that fires while the entry of another active reservation stands in
      front takes that reservation out of the report, though it stays active and
      its timer, if it still sleeps, goes on sleeping. */
  lemma OvertakingHides(s: State, id: SlaId, older: SlaId)
    requires Reachable(s) && id in s.shared.timers && s.shared.tasks != []
    requires s.shared.tasks[0].sla == older && older != id && ActiveIn(s.shared.db, older)
    ensures older in Reported(s.shared.db, s.shared.tasks)
    ensures var after := Step(s, Fires(id)).shared;
      && ActiveIn(after.db, older)
      && older !in Reported(after.db, after.tasks)
      && (older in s.shared.timers ==> older in after.timers)
  {
    ReachableInv(s);
    var sh := s.shared;
    assert TimedAt(sh, Held(s), older) && EntriesAt(sh, Held(s), older);
    QueueEntryUnique(sh, Held(s), older);
    IdsSplit(sh.tasks, 1);
    assert Ids(sh.tasks[..1]) == [older];
    ReportedCount(sh.db, sh.tasks, older);
    ReportedCount(sh.db, sh.tasks[1..], older);
    assert older in multiset(Reported(sh.db, sh.tasks));
  }

  // The report when the i-th entry is looked up in the i-th database.
  function ReadOneByOne(dbs: seq<Database>, tasks: seq<Task>): seq<SlaId>
    requires |dbs| == |tasks|
    decreases |tasks|
  {
    if tasks == [] then []
    else
      var rest := ReadOneByOne(dbs[..|tasks| - 1], tasks[..|tasks| - 1]);
      var last := tasks[|tasks| - 1];
      if GetFinishable(dbs[|tasks| - 1], last.sla).Some? then rest + [last.sla] else rest
  }

  // Later databases show fewer of these reservations active.
  ghost predicate Fades(first: Database, mid: Database, last: Database, id: SlaId) {
    (ActiveIn(last, id) ==> ActiveIn(mid, id)) && (ActiveIn(mid, id) ==> ActiveIn(first, id))
  }

  lemma {:induction false} ReadBetween(first: Database, dbs: seq<Database>, last: Database, tasks: seq<Task>, id: SlaId)
    requires |dbs| == |tasks|
    requires forall i :: 0 <= i < |tasks| ==> Fades(first, dbs[i], last, tasks[i].sla)
    ensures multiset(Reported(last, tasks))[id] <= multiset(ReadOneByOne(dbs, tasks))[id]
    ensures multiset(ReadOneByOne(dbs, tasks))[id] <= multiset(Reported(first, tasks))[id]
    decreases |tasks|
  {
    if tasks != [] {
      var n := |tasks| - 1;
      assert Fades(first, dbs[n], last, tasks[n].sla);
      ReadBetween(first, dbs[..n], last, tasks[..n], id);
    }
  }

  // A queued reservation was paid for.
  lemma QueuedIsPaid(s: State, i: nat)
    requires Reachable(s) && i < |s.shared.tasks|
    ensures s.shared.tasks[i].sla in s.shared.db && !s.shared.db[s.shared.tasks[i].sla].Proposed?
  {
    ReachableInv(s);
    var sh := s.shared;
    var id := sh.tasks[i].sla;
    assert TimedAt(sh, Held(s), id) && EntriesAt(sh, Held(s), id);
    assert Ids(sh.tasks)[i] == id;
    assert id in multiset(Ids(sh.tasks));
    IdsSplit(sh.log.created, Popped(sh));
  }

  lemma PaidFades(first: Database, mid: Database, last: Database, id: SlaId)
    requires Advances(first, mid) && Advances(mid, last) && id in first && !first[id].Proposed?
    ensures Fades(first, mid, last, id)
  {
  }

  /** The report is read entry by entry while reservations may end: it misses
      none that is still active afterwards, and lists only such as were active
      when the reading began. */
  lemma ReportWhileFinishing(s: State, dbs: seq<Database>, last: Database, id: SlaId)
    requires Reachable(s) && |dbs| == |s.shared.tasks|
    requires forall i :: 0 <= i < |dbs| ==> Advances(s.shared.db, dbs[i]) && Advances(dbs[i], last)
    ensures id in Reported(last, s.shared.tasks) ==> id in ReadOneByOne(dbs, s.shared.tasks)
    ensures id in ReadOneByOne(dbs, s.shared.tasks) ==> id in Reported(s.shared.db, s.shared.tasks)
    ensures multiset(ReadOneByOne(dbs, s.shared.tasks))[id] <= 1
  {
    var db, tasks := s.shared.db, s.shared.tasks;
    forall i | 0 <= i < |tasks| ensures Fades(db, dbs[i], last, tasks[i].sla) {
      QueuedIsPaid(s, i);
      PaidFades(db, dbs[i], last, tasks[i].sla);
    }
    ReadBetween(db, dbs, last, tasks, id);
    ReportIsActive(s, id);
    assert id in Reported(last, tasks) ==> id in multiset(Reported(last, tasks));
    assert id in ReadOneByOne(dbs, tasks) ==> id in multiset(ReadOneByOne(dbs, tasks));
    assert id in multiset(ReadOneByOne(dbs, tasks)) ==> id in ReadOneByOne(dbs, tasks);
    assert id in multiset(Reported(db, tasks)) ==> id in Reported(db, tasks);
  }
}
