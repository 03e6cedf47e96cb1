/** What holds in every state of every run of the reservation life cycle. */
module LifecycleTheorems {
  import opened Model
  import opened Tracking
  import opened Occupancy
  import opened Lifecycle
  import opened LifecycleInvariant
  import opened LifecycleLedger
  import opened LifecycleBooks
  import opened LifecycleBackend
  import Sections

  ghost predicate Counted(s: State) {
    && (forall id :: BookedAt(s.shared, Held(s), id))
    && (forall id :: TimedAt(s.shared, Held(s), id))
    && (forall id :: EntriesAt(s.shared, Held(s), id))
    && (forall id :: CoveredAt(s, id))
  }

  ghost predicate Inv(s: State) {
    && Core(s)
    && Balanced(s.shared, Held(s))
    && Counted(s)
    && QueueOk(s.shared, Held(s))
    && (forall id :: BackendAt(s.shared, Held(s), id))
    && (forall n :: WithinAt(s.shared, n))
  }

  lemma BalancedInit(sh: Shared)
    requires InitShared(sh)
    ensures Balanced(sh, None)
  {
    forall n, d | n in sh.used ensures BalancedAt(sh, None, n, d) {
      SumIdle(sh.db, {}, n, d);
    }
  }

  lemma CountedInit(sh: Shared, id: SlaId)
    requires InitShared(sh)
    ensures BookedAt(sh, None, id) && TimedAt(sh, None, id) && EntriesAt(sh, None, id)
    ensures QueueOk(sh, None) && BackendAt(sh, None, id)
  {
    assert Ids(sh.log.created) == [];
  }

  lemma InvInit(s: State)
    requires Init(s)
    ensures Inv(s)
  {
    BalancedInit(s.shared);
    forall id
      ensures BookedAt(s.shared, None, id) && TimedAt(s.shared, None, id) && EntriesAt(s.shared, None, id)
      ensures QueueOk(s.shared, None) && BackendAt(s.shared, None, id)
    {
      CountedInit(s.shared, id);
    }
    assert QueueOk(s.shared, None) by { CountedInit(s.shared, 0); }
  }

  lemma BalancedStep(s: State, e: Event)
    requires Core(s) && Enabled(s, e) && Balanced(s.shared, Held(s))
    ensures Balanced(Step(s, e).shared, Held(Step(s, e)))
  {
    var after := Step(s, e);
    UsedKeys(s, e);
    forall n, d | n in after.shared.used ensures BalancedAt(after.shared, Held(after), n, d) {
      assert BalancedAt(s.shared, Held(s), n, d);
      BalancedStepAt(s, e, n, d);
    }
  }

  lemma UsedKeys(s: State, e: Event)
    requires Core(s) && Enabled(s, e)
    ensures Step(s, e).shared.used.Keys == s.shared.used.Keys
  {
    CoreStep(s, e);
    if e.Runs? {
      AvailableKept(s.shared, s.threads[e.thread], e.ok);
    }
  }

  lemma CountedStep(s: State, e: Event)
    requires Core(s) && Enabled(s, e) && Counted(s)
    ensures Counted(Step(s, e))
  {
    var after := Step(s, e);
    forall id ensures BookedAt(after.shared, Held(after), id) { BookedStep(s, e, id); }
    forall id ensures TimedAt(after.shared, Held(after), id) { TimedStep(s, e, id); }
    forall id ensures EntriesAt(after.shared, Held(after), id) { EntriesStep(s, e, id); }
    forall id ensures CoveredAt(after, id) { CoveredStep(s, e, id); }
  }

  lemma InvStep(s: State, e: Event)
    requires Inv(s) && Enabled(s, e)
    ensures Inv(Step(s, e))
    ensures Advances(s.shared.db, Step(s, e).shared.db)
  {
    var after := Step(s, e);
    CoreStep(s, e);
    BalancedStep(s, e);
    CountedStep(s, e);
    QueueStep(s, e);
    forall id ensures BackendAt(after.shared, Held(after), id) { BackendStep(s, e, id); }
    forall n ensures WithinAt(after.shared, n) { WithinStep(s, e, n); }
  }

  // Ranks never go back, offers never change, records never disappear.
  lemma {:induction false} InvRun(s: State, events: seq<Event>)
    requires Inv(s) && CanRun(s, events)
    ensures Inv(After(s, events))
    ensures Advances(s.shared.db, After(s, events).shared.db)
    decreases |events|
  {
    if events != [] {
      InvStep(s, events[0]);
      InvRun(Step(s, events[0]), events[1..]);
    }
  }

  lemma {:induction false} RunsJoin(s: State, events: seq<Event>, more: seq<Event>)
    requires CanRun(s, events) && CanRun(After(s, events), more)
    ensures CanRun(s, events + more) && After(s, events + more) == After(After(s, events), more)
    decreases |events|
  {
    var all := events + more;
    if events == [] {
      assert all == more;
    } else {
      RunsJoin(Step(s, events[0]), events[1..], more);
      assert all[0] == events[0] && all[1..] == events[1..] + more;
    }
  }

  ghost predicate Reachable(s: State) {
    exists init, events :: Init(init) && CanRun(init, events) && After(init, events) == s
  }

  lemma ReachableInv(s: State)
    requires Reachable(s)
    ensures Inv(s)
  {
    var init, events :| Init(init) && CanRun(init, events) && After(init, events) == s;
    InvInit(init);
    InvRun(init, events);
  }

  /** Two threads are never inside a critical section together. */
  lemma MutualExclusion(s: State, t: Tid, u: Tid)
    requires Reachable(s) && t in s.threads && u in s.threads
    requires s.threads[t].Critical() && s.threads[u].Critical()
    ensures t == u && s.permit == Some(t)
  {
    ReachableInv(s);
  }

  /** No update of the ledger is lost, whatever the interleaving. */
  lemma LedgerMatches(s: State, n: K8sNode, d: Dimension)
    requires Reachable(s) && n in s.shared.used
    ensures s.shared.used[n].Of(d) + Unwritten(Held(s), n, d)
            == Load(s.shared.db, n, d) + Unreleased(s.shared.db, Held(s), n, d)
    ensures s.permit == None ==> s.shared.used[n].Of(d) == Load(s.shared.db, n, d)
  {
    ReachableInv(s);
    assert BalancedAt(s.shared, Held(s), n, d);
  }

  /** The ledger never goes below zero, not even in the release a finish is
      about to write: the assertions of `set_used` cannot fire. */
  lemma LedgerNeverNegative(s: State, n: K8sNode, d: Dimension)
    requires Reachable(s) && n in s.shared.used
    ensures 0.0 <= s.shared.used[n].Of(d)
    ensures forall t :: t in s.threads && s.threads[t].FinUsed? && s.threads[t].rec.node == n ==>
              0.0 <= s.threads[t].read.Minus(s.threads[t].rec.sla.Demand()).Of(d)
  {
    ReachableInv(s);
    LedgerMatches(s, n, d);
    SumNonNegative(s.shared.db, s.shared.db.Keys, n, d);
    if Held(s).Some? && Held(s).value.OwesLedger() && Held(s).value.rec.node == n {
      WriterFacts(s.shared, Held(s).value, n, d);
    }
  }

  /** Wherever a thread takes the permit, the sections find what they rely on. */
  lemma SectionsFindCoherence(s: State)
    requires Reachable(s) && s.permit == None
    ensures Sections.Coherent(s.shared.db, s.shared.used, s.shared.available)
  {
    ReachableInv(s);
    var sh := s.shared;
    forall n | n in sh.used ensures sh.used[n].NonNegative() {
      LedgerNeverNegative(s, n, Ram);
      LedgerNeverNegative(s, n, Cpu);
    }
    forall id | id in sh.db && sh.db[id].Active()
      ensures sh.used[sh.db[id].node].Minus(sh.db[id].sla.Demand()).NonNegative()
    {
      var n := sh.db[id].node;
      forall d: Dimension ensures sh.db[id].sla.Demand().Of(d) <= sh.used[n].Of(d) {
        LedgerMatches(s, n, d);
        SumSplit(sh.db, sh.db.Keys, id, n, d);
        SumNonNegative(sh.db, sh.db.Keys - {id}, n, d);
      }
      assert sh.db[id].sla.Demand().Of(Ram) <= sh.used[n].Of(Ram);
      assert sh.db[id].sla.Demand().Of(Cpu) <= sh.used[n].Of(Cpu);
    }
  }

  // The amount a payment still owes is part of the load.
  lemma WriterFacts(sh: Shared, pc: Pc, n: K8sNode, d: Dimension)
    requires Shape(sh) && Facts(sh, pc) && pc.OwesLedger() && pc.rec.node == n
    ensures pc.rec.sla.Demand().Of(d) <= Load(sh.db, n, d)
  {
    SumSplit(sh.db, sh.db.Keys, pc.id, n, d);
    SumNonNegative(sh.db, sh.db.Keys - {pc.id}, n, d);
  }

  /** Each payment is booked once and released once, whether the timer or the
      failed liveness check gets there first. */
  lemma ReleasedExactlyOnce(s: State, id: SlaId)
    requires Reachable(s)
    ensures s.shared.log.released[id] <= s.shared.log.reserved[id] <= 1
    ensures s.permit == None ==>
      && (s.shared.log.reserved[id] == 1 <==> id in s.shared.db && !s.shared.db[id].Proposed?)
      && (s.shared.log.released[id] == 1 <==> id in s.shared.db && s.shared.db[id].Finished?)
  {
    ReachableInv(s);
    assert BookedAt(s.shared, Held(s), id);
    HeldFacts(s);
  }

  /** Every active reservation is on its way to its end. */
  lemma ActiveWillExpire(s: State, id: SlaId)
    requires Reachable(s) && ActiveIn(s.shared.db, id)
    ensures || id in s.shared.timers
            || (Held(s).Some? && Held(s).value.PayingUntimed(id))
            || exists t :: t in s.threads && s.threads[t].Expiring(id)
  {
    ReachableInv(s);
    assert CoveredAt(s, id);
  }

  /** Once no timer sleeps and no thread is left, everything is given back. */
  lemma QuietMeansEmpty(s: State)
    requires Reachable(s) && s.shared.timers == multiset{} && s.threads == map[]
    ensures forall n :: n in s.shared.used ==> s.shared.used[n] == ZERO
    ensures s.shared.log.released == s.shared.log.reserved
    ensures s.shared.deployed == s.shared.log.leaked
  {
    ReachableInv(s);
    assert Held(s) == None;
    forall id ensures !ActiveIn(s.shared.db, id) {
      assert CoveredAt(s, id);
    }
    forall n | n in s.shared.used ensures s.shared.used[n] == ZERO {
      forall d: Dimension ensures s.shared.used[n].Of(d) == 0.0 {
        assert forall id :: id in s.shared.db ==> !ActiveIn(s.shared.db, id);
        assert BalancedAt(s.shared, Held(s), n, d);
        SumIdle(s.shared.db, s.shared.db.Keys, n, d);
      }
      assert s.shared.used[n].Of(Ram) == 0.0 && s.shared.used[n].Of(Cpu) == 0.0;
    }
    forall id ensures s.shared.log.released[id] == s.shared.log.reserved[id] {
      assert BookedAt(s.shared, Held(s), id);
      assert !ActiveIn(s.shared.db, id);
    }
    forall id ensures id in s.shared.deployed <==> id in s.shared.log.leaked {
      assert BackendAt(s.shared, Held(s), id);
      assert !ActiveIn(s.shared.db, id);
    }
  }

  /** No run over-commits a node, if every accepted SLA asks for a replica, or
      for nothing: any number of bids may have been made against the same free room. */
  lemma NeverOvercommitted(s: State, n: K8sNode)
    requires Reachable(s) && Replicated(s.shared.db) && Reserved(s.shared.db, n)
    ensures n in s.shared.used && n in s.shared.available
    ensures s.shared.used[n].Below(s.shared.available[n])
  {
    ReachableInv(s);
    assert WithinAt(s.shared, n);
  }

  lemma RunAdvances(s: State, events: seq<Event>)
    requires Reachable(s) && CanRun(s, events)
    ensures Advances(s.shared.db, After(s, events).shared.db)
  {
    ReachableInv(s);
    InvRun(s, events);
  }

  /** A record only moves forward and Finished is final, even when a liveness
      check resumes after the finish. */
  lemma FinishedIsFinal(s: State, events: seq<Event>, id: SlaId)
    requires Reachable(s) && CanRun(s, events) && id in s.shared.db
    ensures id in After(s, events).shared.db
    ensures s.shared.db[id].Rank() <= After(s, events).shared.db[id].Rank()
    ensures s.shared.db[id].Finished? ==> After(s, events).shared.db[id] == s.shared.db[id]
  {
    RunAdvances(s, events);
  }

  /** With the permit free the backend runs exactly the Provisioned and Live
      functions, and those it refused to remove, which are all Finished. */
  lemma BackendMatches(s: State, id: SlaId)
    requires Reachable(s) && s.permit == None
    ensures id in s.shared.deployed <==> RunningIn(s.shared.db, id) || id in s.shared.log.leaked
    ensures id in s.shared.log.leaked ==> id in s.shared.db && s.shared.db[id].Finished?
  {
    ReachableInv(s);
    assert BackendAt(s.shared, Held(s), id);
  }

  /** The queue is the end of the creation history. It holds one entry per
      sleeping timer, and at most one entry more: over a whole run at most one
      timer can fire before its entry is pushed and find the queue empty. */
  lemma QueueFollowsTimers(s: State)
    requires Reachable(s)
    ensures |s.shared.tasks| <= |s.shared.log.created|
    ensures s.shared.tasks == s.shared.log.created[|s.shared.log.created| - |s.shared.tasks|..]
    ensures !Unpushed(Held(s)) ==> |s.shared.timers| <= |s.shared.tasks| <= |s.shared.timers| + 1
    ensures !Unpushed(Held(s)) ==> (|s.shared.tasks| == |s.shared.timers| <==> s.shared.log.wasted == 0)
  {
    ReachableInv(s);
  }
}
