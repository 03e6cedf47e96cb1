/** What one thread brings about when it runs while the others stand still: the
    whole state it leaves, written out. */
module LifecycleOutcomes {
  import opened Model
  import opened Tracking
  import opened Lifecycle
  import Sections

  // The thread makes n accesses in a row, each with the same answer.
  ghost predicate RunsTo(s: State, t: Tid, ok: bool, n: nat, after: State)
    decreases n
  {
    if n == 0 then s == after
    else Enabled(s, Runs(t, ok)) && RunsTo(Step(s, Runs(t, ok)), t, ok, n - 1, after)
  }

  // However many they are.
  ghost predicate Comes(s: State, t: Tid, ok: bool, after: State) {
    exists n: nat :: RunsTo(s, t, ok, n, after)
  }

  lemma ComesHere(s: State, t: Tid, ok: bool)
    ensures Comes(s, t, ok, s)
  {
    assert RunsTo(s, t, ok, 0, s);
  }

  lemma ComesBy(s: State, t: Tid, ok: bool, after: State)
    requires Enabled(s, Runs(t, ok)) && Comes(Step(s, Runs(t, ok)), t, ok, after)
    ensures Comes(s, t, ok, after)
  {
    var n: nat :| RunsTo(Step(s, Runs(t, ok)), t, ok, n, after);
    assert RunsTo(s, t, ok, n + 1, after);
  }

  // The thread stands at `pc` and is the only one that may be inside.
  ghost predicate StandsAt(s: State, t: Tid, pc: Pc) {
    t in s.threads && s.threads[t] == pc && s.permit == if pc.Critical() then Some(t) else None
  }

  // The state with the thread moved on, or gone.
  ghost function Moved(s: State, t: Tid, sh: Shared, next: Option<Pc>): State {
    match next
    case None => s.(shared := sh, permit := None, threads := s.threads - {t})
    case Some(pc) => s.(shared := sh, permit := if pc.Critical() then Some(t) else None, threads := s.threads[t := pc])
  }

  // One access.
  lemma OneAccess(s: State, t: Tid, pc: Pc, ok: bool, turn: Turn)
    requires StandsAt(s, t, pc) && Takes(s.shared, pc, ok) == turn
    ensures Enabled(s, Runs(t, ok)) && Step(s, Runs(t, ok)) == Moved(s, t, turn.shared, turn.next)
  {
  }

  lemma MovedTwice(s: State, t: Tid, sh: Shared, pc: Pc, after: Shared, next: Option<Pc>)
    ensures Moved(Moved(s, t, sh, Some(pc)), t, after, next) == Moved(s, t, after, next)
  {
    assert s.threads[t := pc] - {t} == s.threads - {t};
  }

  // From `pc` on `sh` the thread ends up as `next` on `after`.
  ghost predicate Leaves(s: State, t: Tid, ok: bool, sh: Shared, next: Option<Pc>) {
    Comes(s, t, ok, Moved(s, t, sh, next))
  }

  lemma LeavesBy(s: State, t: Tid, pc: Pc, ok: bool, sh: Shared, via: Pc, after: Shared, next: Option<Pc>)
    requires StandsAt(s, t, pc) && Takes(s.shared, pc, ok) == Turn(sh, Some(via))
    requires Leaves(Moved(s, t, sh, Some(via)), t, ok, after, next)
    ensures Leaves(s, t, ok, after, next)
  {
    OneAccess(s, t, pc, ok, Turn(sh, Some(via)));
    MovedTwice(s, t, sh, via, after, next);
    ComesBy(s, t, ok, Moved(s, t, after, next));
  }

  lemma LeavesAt(s: State, t: Tid, pc: Pc, ok: bool, sh: Shared, next: Option<Pc>)
    requires StandsAt(s, t, pc) && Takes(s.shared, pc, ok) == Turn(sh, next)
    ensures Leaves(s, t, ok, sh, next)
  {
    OneAccess(s, t, pc, ok, Turn(sh, next));
    ComesHere(Moved(s, t, sh, next), t, ok);
    ComesBy(s, t, ok, Moved(s, t, sh, next));
  }

  lemma StandsMoved(s: State, t: Tid, sh: Shared, pc: Pc)
    ensures StandsAt(Moved(s, t, sh, Some(pc)), t, pc) && Moved(s, t, sh, Some(pc)).shared == sh
  {
  }

  // ---- provisioning ----

  // What a provisioning leaves, by the backend's answer.
  function Provisioning(sh: Shared, id: SlaId, accepts: bool): Shared {
    if id in sh.db && sh.db[id].Paid? && accepts then
      sh.(db := sh.db[id := Provisioned(sh.db[id].bid, sh.db[id].sla, sh.db[id].node, id)],
          deployed := sh.deployed + {id})
    else sh
  }

  lemma DeploysAccepted(s: State, t: Tid, id: SlaId, r: Record)
    requires StandsAt(s, t, ProvPaid(id, r)) && id in s.shared.db && s.shared.db[id] == r && r.Paid?
    ensures Leaves(s, t, true, Provisioning(s.shared, id, true), Some(LiveTry(id)))
  {
    var sh, after := s.shared, Provisioning(s.shared, id, true);
    var deployed := sh.(deployed := sh.deployed + {id});
    var p := Provisioned(r.bid, r.sla, r.node, id);
    var s1 := Moved(s, t, deployed, Some(ProvDeployed(id, p)));
    var s2 := Moved(s1, t, after, Some(ProvDone(id)));
    StandsMoved(s, t, deployed, ProvDeployed(id, p));
    StandsMoved(s1, t, after, ProvDone(id));
    LeavesAt(s2, t, ProvDone(id), true, after, Some(LiveTry(id)));
    LeavesBy(s1, t, ProvDeployed(id, p), true, after, ProvDone(id), after, Some(LiveTry(id)));
    LeavesBy(s, t, ProvPaid(id, r), true, deployed, ProvDeployed(id, p), after, Some(LiveTry(id)));
  }

  // Whether it succeeds.
  predicate Provisions(sh: Shared, id: SlaId, accepts: bool) {
    id in sh.db && sh.db[id].Paid? && accepts
  }

  lemma HeldProvisions(s: State, t: Tid, id: SlaId, accepts: bool)
    requires StandsAt(s, t, ProvHeld(id))
    ensures Leaves(s, t, accepts, Provisioning(s.shared, id, accepts),
                   if Provisions(s.shared, id, accepts) then Some(LiveTry(id)) else None)
  {
    var sh := s.shared;
    if id in sh.db && sh.db[id].Paid? {
      var r := sh.db[id];
      var s1 := Moved(s, t, sh, Some(ProvPaid(id, r)));
      StandsMoved(s, t, sh, ProvPaid(id, r));
      if accepts {
        DeploysAccepted(s1, t, id, r);
        LeavesBy(s, t, ProvHeld(id), true, sh, ProvPaid(id, r), Provisioning(sh, id, true), Some(LiveTry(id)));
      } else {
        LeavesAt(s1, t, ProvPaid(id, r), false, sh, None);
        LeavesBy(s, t, ProvHeld(id), false, sh, ProvPaid(id, r), sh, None);
      }
    } else {
      LeavesAt(s, t, ProvHeld(id), accepts, sh, None);
    }
  }

  /** A provisioning that waits for the free permit and then runs undisturbed: if
      the function is Paid and the backend accepts, it is deployed and recorded
      Provisioned under its own name, and its liveness is checked next; otherwise
      nothing changes. It is the section that the locked service is held to. */
  lemma ProvisionOutcome(s: State, t: Tid, id: SlaId, accepts: bool)
    requires StandsAt(s, t, ProvWait(id))
    ensures Leaves(s, t, accepts, Provisioning(s.shared, id, accepts),
                   if Provisions(s.shared, id, accepts) then Some(LiveTry(id)) else None)
    ensures Sections.ProvisionSection(s.shared.db, id, accepts) ==
            (Provisioning(s.shared, id, accepts).db, Provisions(s.shared, id, accepts))
  {
    var sh := s.shared;
    StandsMoved(s, t, sh, ProvHeld(id));
    HeldProvisions(Moved(s, t, sh, Some(ProvHeld(id))), t, id, accepts);
    LeavesBy(s, t, ProvWait(id), accepts, sh, ProvHeld(id), Provisioning(sh, id, accepts),
             if Provisions(sh, id, accepts) then Some(LiveTry(id)) else None);
  }

  // ---- liveness ----

  /** A liveness check that has not timed out, undisturbed and with a live answer:
      it makes a Provisioned function Live, and tries again on any other. */
  lemma LiveOutcome(s: State, t: Tid, id: SlaId)
    requires StandsAt(s, t, LiveTry(id))
    ensures var sh := s.shared;
      if id in sh.db && sh.db[id].Provisioned? then
        var r := sh.db[id];
        Leaves(s, t, true, sh.(db := sh.db[id := Live(r.bid, r.sla, r.node, r.functionName)]), None)
      else Leaves(s, t, true, sh, Some(LiveTry(id)))
  {
    var sh := s.shared;
    if id in sh.db && sh.db[id].Provisioned? {
      var r := sh.db[id];
      var after := sh.(db := sh.db[id := Live(r.bid, r.sla, r.node, r.functionName)]);
      var s1 := Moved(s, t, sh, Some(LiveProbe(id, r)));
      StandsMoved(s, t, sh, LiveProbe(id, r));
      StandsMoved(s1, t, sh, LiveAnswered(id, r));
      LeavesAt(Moved(s1, t, sh, Some(LiveAnswered(id, r))), t, LiveAnswered(id, r), true, after, None);
      LeavesBy(s1, t, LiveProbe(id, r), true, sh, LiveAnswered(id, r), after, None);
      LeavesBy(s, t, LiveTry(id), true, sh, LiveProbe(id, r), after, None);
    } else {
      LeavesAt(s, t, LiveTry(id), true, sh, Some(LiveTry(id)));
    }
  }

  /** A probe without a live answer is tried again, and a check that has timed out
      goes on to finish the function. */
  lemma DeadOutcome(s: State, t: Tid, id: SlaId, seen: ProvisionedRecord)
    ensures StandsAt(s, t, LiveProbe(id, seen)) ==> Leaves(s, t, false, s.shared, Some(LiveTry(id)))
    ensures StandsAt(s, t, LiveTry(id)) ==> Leaves(s, t, false, s.shared, Some(FinWait(id, false)))
  {
    if StandsAt(s, t, LiveProbe(id, seen)) {
      LeavesAt(s, t, LiveProbe(id, seen), false, s.shared, Some(LiveTry(id)));
    } else if StandsAt(s, t, LiveTry(id)) {
      LeavesAt(s, t, LiveTry(id), false, s.shared, Some(FinWait(id, false)));
    }
  }

  // ---- payment ----

  lemma {:induction false} PaysAlone(s: State, t: Tid, pc: Pc)
    requires StandsAt(s, t, pc) && pc.Paying()
    ensures Leaves(s, t, true, Sections.PayAlone(s.shared, pc), None)
    decreases Sections.PayLeft(pc)
  {
    var turn := PayTurn(s.shared, pc);
    Sections.PaysOn(s.shared, pc, true);
    if turn.next.Some? {
      StandsMoved(s, t, turn.shared, turn.next.value);
      PaysAlone(Moved(s, t, turn.shared, turn.next), t, turn.next.value);
      LeavesBy(s, t, pc, true, turn.shared, turn.next.value, Sections.PayAlone(s.shared, pc), None);
    } else {
      LeavesAt(s, t, pc, true, turn.shared, None);
    }
  }

  // The proposal is known, and there is room for every replica on its node.
  predicate Payable(sh: Shared, id: SlaId) {
    && id in sh.db && sh.db[id].Proposed? && sh.db[id].node in sh.used && sh.db[id].node in sh.available
    && RoomFor(sh.used[sh.db[id].node], sh.available[sh.db[id].node], sh.db[id].sla)
  }

  // What a payment leaves of database, ledger, timers and queue.
  ghost predicate Booked(sh: Shared, after: Shared, id: SlaId)
    requires Payable(sh, id)
  {
    var r := sh.db[id];
    && after.db == sh.db[id := Paid(r.bid, r.sla, r.node)]
    && after.used == sh.used[r.node := Resources(sh.used[r.node].ram + r.sla.memory, sh.used[r.node].cpu + r.sla.cpu)]
    && after.timers == sh.timers + multiset{id}
    && after.tasks == sh.tasks + [Task(id, r.node)]
  }

  // What it leaves by whether it goes through.
  ghost predicate PaysFor(sh: Shared, after: Shared, id: SlaId) {
    if Payable(sh, id) then Booked(sh, after, id) else after == sh
  }

  lemma PayWrites(sh: Shared, id: SlaId)
    ensures PaysFor(sh, Sections.PayAlone(sh, PayHeld(id)), id)
  {
    Sections.PayAloneIsSection(sh, id);
  }

  lemma HeldPays(s: State, t: Tid, id: SlaId)
    requires StandsAt(s, t, PayWait(id))
    ensures Leaves(s, t, true, Sections.PayAlone(s.shared, PayHeld(id)), None)
  {
    var sh := s.shared;
    StandsMoved(s, t, sh, PayHeld(id));
    PaysAlone(Moved(s, t, sh, Some(PayHeld(id))), t, PayHeld(id));
    LeavesBy(s, t, PayWait(id), true, sh, PayHeld(id), Sections.PayAlone(sh, PayHeld(id)), None);
  }

  /** A payment that waits for the free permit and then runs undisturbed goes
      through exactly when all replicas fit one after another: then it books one of
      them, starts the timer and queues the entry; otherwise nothing changes. */
  lemma PaymentOutcome(s: State, t: Tid, id: SlaId) returns (after: Shared)
    requires StandsAt(s, t, PayWait(id))
    ensures Leaves(s, t, true, after, None) && PaysFor(s.shared, after, id)
  {
    after := Sections.PayAlone(s.shared, PayHeld(id));
    HeldPays(s, t, id);
    PayWrites(s.shared, id);
  }

  // ---- finish ----

  lemma {:induction false} ReleasesAlone(s: State, t: Tid, pc: Pc, ok: bool)
    requires StandsAt(s, t, pc) && pc.Releasing()
    ensures Leaves(s, t, ok, Sections.ReleaseAlone(s.shared, pc), None)
    decreases Sections.ReleaseLeft(pc)
  {
    var turn := ReleaseTurn(s.shared, pc);
    Sections.FinishesOn(s.shared, pc, ok);
    if turn.next.Some? {
      StandsMoved(s, t, turn.shared, turn.next.value);
      ReleasesAlone(Moved(s, t, turn.shared, turn.next), t, turn.next.value, ok);
      LeavesBy(s, t, pc, ok, turn.shared, turn.next.value, Sections.ReleaseAlone(s.shared, pc), None);
    } else {
      LeavesAt(s, t, pc, ok, turn.shared, None);
    }
  }

  function FinishLeft(pc: Pc): nat {
    if pc.FinHeld? then 4
    else if pc.FinRemoving? then 3
    else if pc.FinRecord? then 2
    else if pc.FinFinishable? then 1
    else 0
  }

  lemma {:induction false} FinishesAlone(s: State, t: Tid, pc: Pc, ok: bool)
    requires StandsAt(s, t, pc) && (pc.Removing() || pc.Recording() || pc.Releasing())
    ensures Leaves(s, t, ok, Sections.FinishAlone(s.shared, pc, ok), None)
    decreases FinishLeft(pc)
  {
    if pc.Releasing() {
      ReleasesAlone(s, t, pc, ok);
    } else {
      var turn := if pc.Removing() then RemoveTurn(s.shared, pc, ok) else RecordTurn(s.shared, pc);
      Sections.FinishesOn(s.shared, pc, ok);
      StandsMoved(s, t, turn.shared, turn.next.value);
      FinishesAlone(Moved(s, t, turn.shared, turn.next), t, turn.next.value, ok);
      LeavesBy(s, t, pc, ok, turn.shared, turn.next.value, Sections.FinishAlone(s.shared, pc, ok), None);
    }
  }

  // What a finish leaves of database and ledger.
  ghost predicate GivenBack(sh: Shared, after: Shared, id: SlaId) {
    if id in sh.db && (sh.db[id].Paid? || sh.db[id].Provisioned? || sh.db[id].Live?) then
      var r := sh.db[id];
      && after.db == sh.db[id := Finished(r.bid, r.sla, r.node)]
      && after.used == if r.node !in sh.used then sh.used else
           sh.used[r.node := Resources(sh.used[r.node].ram - r.sla.memory, sh.used[r.node].cpu - r.sla.cpu)]
    else after.db == sh.db && after.used == sh.used
  }

  lemma FinishWrites(sh: Shared, id: SlaId, byTimer: bool, agrees: bool)
    ensures var after := Sections.FinishAlone(sh, FinHeld(id, byTimer), agrees);
      GivenBack(sh, after, id) && after.timers == sh.timers && after.tasks == sh.tasks
      && after.deployed == if id in sh.db && (sh.db[id].Provisioned? || sh.db[id].Live?) && agrees
                           then sh.deployed - {id} else sh.deployed
  {
    Sections.FinishAloneIsSection(sh, id, byTimer, agrees);
  }

  lemma HeldFinishes(s: State, t: Tid, id: SlaId, byTimer: bool, agrees: bool)
    requires StandsAt(s, t, FinWait(id, byTimer))
    ensures Leaves(s, t, agrees, Sections.FinishAlone(s.shared, FinHeld(id, byTimer), agrees), None)
  {
    var sh := s.shared;
    StandsMoved(s, t, sh, FinHeld(id, byTimer));
    FinishesAlone(Moved(s, t, sh, Some(FinHeld(id, byTimer))), t, FinHeld(id, byTimer), agrees);
    LeavesBy(s, t, FinWait(id, byTimer), agrees, sh, FinHeld(id, byTimer),
             Sections.FinishAlone(sh, FinHeld(id, byTimer), agrees), None);
  }

  /** A finish that waits for the free permit and then runs undisturbed: an active
      record becomes Finished and its amount is given back, whatever the backend
      answers; a function that runs is removed exactly if it agrees; timers and
      queue stay. */
  lemma FinishOutcome(s: State, t: Tid, id: SlaId, byTimer: bool, agrees: bool) returns (after: Shared)
    requires StandsAt(s, t, FinWait(id, byTimer))
    ensures Leaves(s, t, agrees, after, None)
    ensures GivenBack(s.shared, after, id) && after.timers == s.shared.timers && after.tasks == s.shared.tasks
    ensures after.deployed ==
            if id in s.shared.db && (s.shared.db[id].Provisioned? || s.shared.db[id].Live?) && agrees
            then s.shared.deployed - {id} else s.shared.deployed
  {
    after := Sections.FinishAlone(s.shared, FinHeld(id, byTimer), agrees);
    HeldFinishes(s, t, id, byTimer, agrees);
    FinishWrites(s.shared, id, byTimer, agrees);
  }

  // ---- from the request on ----

  // The state with a new thread standing at the wait.
  function Waits(s: State, sh: Shared, pc: Pc, timers: map<SlaId, Tid>): State {
    State(sh, s.permit, s.threads[s.next := pc], s.next + 1, timers)
  }

  /** A request to provision that meets the free permit and runs undisturbed. */
  lemma ProvisionRequest(s: State, id: SlaId, accepts: bool)
    requires s.permit == None
    ensures Leaves(Step(s, ProvisionArrives(id)), s.next, accepts, Provisioning(s.shared, id, accepts),
                   if Provisions(s.shared, id, accepts) then Some(LiveTry(id)) else None)
    ensures Step(s, ProvisionArrives(id)) == Waits(s, s.shared, ProvWait(id), s.callbacks)
  {
    ProvisionOutcome(Waits(s, s.shared, ProvWait(id), s.callbacks), s.next, id, accepts);
  }

  /** A payment that meets the free permit and runs undisturbed. */
  lemma PaymentRequest(s: State, id: SlaId) returns (after: Shared)
    requires s.permit == None
    ensures Leaves(Step(s, PayArrives(id)), s.next, true, after, None) && PaysFor(s.shared, after, id)
    ensures Step(s, PayArrives(id)) == Waits(s, s.shared, PayWait(id), s.callbacks)
  {
    after := PaymentOutcome(Waits(s, s.shared, PayWait(id), s.callbacks), s.next, id);
  }

  // What the timer task leaves of timers and queue before its callback runs.
  ghost predicate Popped(sh: Shared, after: Shared, id: SlaId)
    requires id in sh.timers
  {
    && after.timers == sh.timers[id := sh.timers[id] - 1]
    && after.tasks == if |sh.tasks| == 0 then sh.tasks else sh.tasks[1..]
  }

  lemma FirePops(sh: Shared, id: SlaId)
    requires id in sh.timers
    ensures var fired := FireTurn(sh, id); Popped(sh, fired, id) && fired.db == sh.db && fired.used == sh.used
  {
  }

  lemma CallbackWaits(s: State, id: SlaId) returns (waits: State)
    requires s.permit == None && id in s.shared.timers
    ensures Step(s, Fires(id)) == waits && waits.shared == FireTurn(s.shared, id)
    ensures waits == Waits(s, waits.shared, FinWait(id, true), s.callbacks[id := s.next])
    ensures StandsAt(waits, s.next, FinWait(id, true))
  {
    waits := Step(s, Fires(id));
  }

  /** A timer that fires while the permit is free, its callback running undisturbed:
      the timer is gone, the front entry of the queue is dropped whatever it is, and
      the timer's own reservation is finished and given back. */
  lemma Expiry(s: State, id: SlaId, agrees: bool) returns (after: Shared)
    requires s.permit == None && id in s.shared.timers
    ensures Leaves(Step(s, Fires(id)), s.next, agrees, after, None)
    ensures Popped(s.shared, after, id) && GivenBack(s.shared, after, id)
  {
    var waits := CallbackWaits(s, id);
    after := FinishOutcome(waits, s.next, id, true, agrees);
    FirePops(s.shared, id);
  }
}
