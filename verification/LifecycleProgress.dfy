/** Every reservation can come to its end: from any state of any run, without
    new arrivals, the threads and the timers can all run out. */
module LifecycleProgress {
  import opened Model
  import opened Lifecycle
  import opened LifecycleTheorems
  import Sections

  // An event that brings nothing new into the node.
  predicate Settling(e: Event) {
    e.Fires? || e.Runs?
  }

  ghost predicate GoesTo(s: State, after: State) {
    exists events :: Leads(s, events, after)
  }

  ghost predicate Leads(s: State, events: seq<Event>, after: State) {
    && CanRun(s, events) && After(s, events) == after
    && forall e :: e in events ==> Settling(e)
  }

  lemma GoesOn(s: State, mid: State, after: State)
    requires GoesTo(s, mid) && GoesTo(mid, after)
    ensures GoesTo(s, after)
  {
    var events :| Leads(s, events, mid);
    var more :| Leads(mid, more, after);
    RunsJoin(s, events, more);
    assert Leads(s, events + more, after);
  }

  lemma GoesNowhere(s: State)
    ensures GoesTo(s, s)
  {
    assert Leads(s, [], s);
  }

  lemma GoesBy(s: State, e: Event)
    requires Enabled(s, e) && Settling(e)
    ensures GoesTo(s, Step(s, e))
  {
    assert [e][1..] == [];
    assert CanRun(Step(s, e), []);
    assert Leads(s, [e], Step(s, e));
  }

  lemma GoesKeeps(s: State, after: State)
    requires Inv(s) && GoesTo(s, after)
    ensures Inv(after)
  {
    var events :| Leads(s, events, after);
    InvRun(s, events);
  }

  // ---- one thread ----

  // How many accesses a thread is from its end, at most, if its liveness check
  // times out.
  function Left(pc: Pc): nat {
    match pc
    case ProvWait(_) => 15
    case ProvHeld(_) => 14
    case ProvPaid(_, _) => 13
    case ProvDeployed(_, _) => 12
    case ProvDone(_) => 11
    case LiveProbe(_, _) => 11
    case LiveTry(_) => 10
    case LiveAnswered(_, _) => 1
    case PayWait(_) => 10
    case FinWait(_, _) => 9
    case FinHeld(_, _) => 8
    case FinRemoving(_, _) => 7
    case FinRecord(_, _, _) => 6
    case FinFinishable(_, _, _, _) => 5
    case FinSaved(_) => 4
    case FinNoted(_, _) => 3
    case FinUsed(_, _, _) => 2
    case FinDone(_) => 1
    case _ => Sections.PayLeft(pc)
  }

  predicate Finishing(pc: Pc) {
    pc.FinWait? || pc.Removing() || pc.Recording() || pc.Releasing()
  }

  // What a turn does to the work that is left.
  ghost predicate Shrinks(sh: Shared, pc: Pc, t: Turn) {
    && (t.next.Some? ==> Left(t.next.value) < Left(pc))
    && (Finishing(pc) ==> t.shared.timers == sh.timers && (t.next.Some? ==> Finishing(t.next.value)))
    && t.shared.log.leaked == sh.log.leaked
  }

  lemma PayShrinks(sh: Shared, pc: Pc)
    requires pc.Paying()
    ensures Shrinks(sh, pc, PayTurn(sh, pc))
  {
  }

  lemma ProvisionShrinks(sh: Shared, pc: Pc)
    requires pc.Provisioning()
    ensures Shrinks(sh, pc, ProvisionTurn(sh, pc, true))
  {
  }

  lemma LiveShrinks(sh: Shared, pc: Pc)
    requires pc.Watching()
    ensures Shrinks(sh, pc, LiveTurn(sh, pc, false))
  {
  }

  lemma AcquireShrinks(sh: Shared, pc: Pc)
    requires pc.Waiting()
    ensures Shrinks(sh, pc, AcquireTurn(sh, pc))
  {
  }

  lemma RemoveShrinks(sh: Shared, pc: Pc)
    requires pc.Removing()
    ensures Shrinks(sh, pc, RemoveTurn(sh, pc, true))
  {
  }

  lemma RecordShrinks(sh: Shared, pc: Pc)
    requires pc.Recording()
    ensures Shrinks(sh, pc, RecordTurn(sh, pc))
  {
  }

  lemma ReleaseShrinks(sh: Shared, pc: Pc)
    requires pc.Releasing()
    ensures Shrinks(sh, pc, ReleaseTurn(sh, pc))
  {
  }

  // The backend consents and the liveness check times out.
  lemma TurnShrinks(sh: Shared, pc: Pc)
    ensures Shrinks(sh, pc, Takes(sh, pc, !pc.Watching()))
  {
    if pc.Waiting() {
      AcquireShrinks(sh, pc);
    } else if pc.Watching() {
      LiveShrinks(sh, pc);
    } else if pc.Provisioning() {
      ProvisionShrinks(sh, pc);
    } else if pc.Removing() {
      RemoveShrinks(sh, pc);
    } else if pc.Recording() {
      RecordShrinks(sh, pc);
    } else if pc.Releasing() {
      ReleaseShrinks(sh, pc);
    } else {
      PayShrinks(sh, pc);
    }
  }

  // The thread can move, and nobody else is inside.
  ghost predicate Free(s: State, t: Tid) {
    t in s.threads && s.permit == if s.threads[t].Critical() then Some(t) else None
  }

  lemma FreeMoves(s: State, t: Tid)
    requires Free(s, t)
    ensures var ok := !s.threads[t].Watching();
      && Enabled(s, Runs(t, ok))
      && var turn := Takes(s.shared, s.threads[t], ok);
         var after := Step(s, Runs(t, ok));
         && after.shared == turn.shared
         && match turn.next
            case None => after.permit == None && after.threads == s.threads - {t}
            case Some(next) => Free(after, t) && after.threads == s.threads[t := next]
  {
  }

  // Left to itself a thread runs out, and the others stay where they are.
  lemma {:induction false} ThreadEnds(s: State, t: Tid) returns (after: State)
    requires Free(s, t)
    ensures GoesTo(s, after) && after.threads == s.threads - {t} && after.permit == None
    ensures Finishing(s.threads[t]) ==> after.shared.timers == s.shared.timers
    ensures after.shared.log.leaked == s.shared.log.leaked
    decreases Left(s.threads[t])
  {
    var pc := s.threads[t];
    var e := Runs(t, !pc.Watching());
    FreeMoves(s, t);
    TurnShrinks(s.shared, pc);
    GoesBy(s, e);
    after := Step(s, e);
    if t in after.threads {
      var mid := after;
      after := ThreadEnds(mid, t);
      GoesOn(s, mid, after);
      assert s.threads[t := mid.threads[t]] - {t} == s.threads - {t};
    }
  }

  // ---- all of them ----

  lemma SomeoneIsFree(s: State) returns (t: Tid)
    requires Inv(s) && s.threads != map[]
    ensures Free(s, t)
  {
    if s.permit.Some? {
      t := s.permit.value;
    } else {
      t :| t in s.threads;
    }
  }

  lemma {:induction false} ThreadsEnd(s: State) returns (after: State)
    requires Inv(s)
    ensures GoesTo(s, after) && Inv(after) && after.threads == map[]
    ensures after.shared.log.leaked == s.shared.log.leaked
    decreases |s.threads|
  {
    if s.threads == map[] {
      GoesNowhere(s);
      after := s;
    } else {
      var t := SomeoneIsFree(s);
      var mid := ThreadEnds(s, t);
      GoesKeeps(s, mid);
      assert mid.threads.Keys == s.threads.Keys - {t};
      after := ThreadsEnd(mid);
      GoesOn(s, mid, after);
    }
  }

  // A timer fires and its finish runs out.
  lemma TimerEnds(s: State, id: SlaId) returns (after: State)
    requires Inv(s) && s.threads == map[] && id in s.shared.timers
    ensures GoesTo(s, after) && Inv(after) && after.threads == map[]
    ensures after.shared.timers == s.shared.timers - multiset{id}
    ensures after.shared.log.leaked == s.shared.log.leaked
  {
    var mid := Step(s, Fires(id));
    assert mid.threads == map[s.next := FinWait(id, true)];
    GoesBy(s, Fires(id));
    after := ThreadEnds(mid, s.next);
    assert after.threads.Keys == {};
    GoesOn(s, mid, after);
    GoesKeeps(s, after);
  }

  lemma {:induction false} TimersEnd(s: State) returns (after: State)
    requires Inv(s) && s.threads == map[]
    ensures GoesTo(s, after) && Inv(after) && after.threads == map[] && after.shared.timers == multiset{}
    ensures after.shared.log.leaked == s.shared.log.leaked
    decreases |s.shared.timers|
  {
    if s.shared.timers == multiset{} {
      GoesNowhere(s);
      after := s;
    } else {
      var id :| id in s.shared.timers;
      var mid := TimerEnds(s, id);
      after := TimersEnd(mid);
      GoesOn(s, mid, after);
    }
  }

  /** From every state of every run some continuation without new arrivals leaves
      no thread and no timer. Then all resources are given back, everything that
      was booked is released, and the backend runs only what it had refused to
      remove before. */
  lemma EverythingCanEnd(s: State) returns (after: State)
    requires Reachable(s)
    ensures GoesTo(s, after) && after.threads == map[] && after.shared.timers == multiset{}
    ensures forall n :: n in after.shared.used ==> after.shared.used[n] == ZERO
    ensures after.shared.log.released == after.shared.log.reserved
    ensures after.shared.deployed == s.shared.log.leaked
  {
    ReachableInv(s);
    var mid := ThreadsEnd(s);
    after := TimersEnd(mid);
    GoesOn(s, mid, after);
    GoesReachable(s, after);
    QuietMeansEmpty(after);
  }

  lemma GoesReachable(s: State, after: State)
    requires Reachable(s) && GoesTo(s, after)
    ensures Reachable(after)
  {
    var init, events :| Init(init) && CanRun(init, events) && After(init, events) == s;
    var more :| Leads(s, more, after);
    RunsJoin(init, events, more);
  }
}
