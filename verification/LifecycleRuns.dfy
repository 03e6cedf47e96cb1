/** Runs that reach the states the code does not seem meant to reach: an
    over-committed node, a wasted pop of the queue, a hidden reservation. */
module LifecycleRuns {
  import opened Model
  import opened Tracking
  import opened Lifecycle
  import opened LifecycleBooks
  import opened LifecycleBackend
  import opened LifecycleTheorems
  import opened LifecycleReport
  import opened Sections

  lemma ReachableStep(s: State, e: Event)
    requires Reachable(s) && Enabled(s, e)
    ensures Reachable(Step(s, e))
  {
    var init, events :| Init(init) && CanRun(init, events) && After(init, events) == s;
    assert [e][1..] == [] && CanRun(s, [e]);
    RunsJoin(init, events, [e]);
  }

  // One node with the given resources and nothing on it.
  lemma Start(n: K8sNode, limit: Resources) returns (s: State)
    ensures Reachable(s) && Calm(s)
    ensures s.shared.db == map[] && s.shared.timers == multiset{} && s.shared.tasks == []
    ensures s.shared.used == map[n := ZERO] && s.shared.available == map[n := limit]
    ensures s.shared.log.wasted == 0
  {
    var log := Log([], [], 0, multiset{}, multiset{}, {});
    s := State(Shared(map[], map[n := ZERO], map[n := limit], multiset{}, [], {}, log),
               None, map[], 0, map[]);
    assert Init(s) && CanRun(s, []) && After(s, []) == s;
  }

  // Nobody is at work.
  ghost predicate Calm(s: State) {
    s.permit == None && s.threads == map[]
  }

  lemma Bid(s: State, record: Record) returns (after: State)
    requires Reachable(s) && Calm(s) && Enabled(s, Bids(record))
    ensures Reachable(after) && Calm(after) && after.shared == BidTurn(s.shared, record)
  {
    ReachableStep(s, Bids(record));
    after := Step(s, Bids(record));
  }

  // ---- one thread running alone ----

  ghost predicate Alone(s: State, t: Tid, pc: Pc) {
    s.threads == map[t := pc] && s.permit == if pc.Critical() then Some(t) else None
  }

  ghost predicate GoesOn(s: State, t: Tid, next: Option<Pc>) {
    match next
    case None => Calm(s)
    case Some(pc) => Alone(s, t, pc)
  }

  lemma AloneSettles(s: State, t: Tid, pc: Pc, turn: Turn)
    requires Alone(s, t, pc)
    ensures Settle(s, t, turn).shared == turn.shared && GoesOn(Settle(s, t, turn), t, turn.next)
  {
    assert map[t := pc] - {t} == map[];
  }

  lemma Moves(s: State, t: Tid, pc: Pc, ok: bool) returns (after: State)
    requires Reachable(s) && Alone(s, t, pc)
    ensures Reachable(after) && after.shared == Takes(s.shared, pc, ok).shared
    ensures GoesOn(after, t, Takes(s.shared, pc, ok).next)
  {
    ReachableStep(s, Runs(t, ok));
    after := Step(s, Runs(t, ok));
    AloneSettles(s, t, pc, Takes(s.shared, pc, ok));
  }

  lemma {:induction false} PayMoves(s: State, t: Tid, pc: Pc) returns (after: State)
    requires Reachable(s) && Alone(s, t, pc) && pc.Paying()
    ensures Reachable(after) && Calm(after) && after.shared == PayAlone(s.shared, pc)
    decreases PayLeft(pc)
  {
    PaysOn(s.shared, pc, true);
    after := Moves(s, t, pc, true);
    var turn := PayTurn(s.shared, pc);
    if turn.next.Some? {
      after := PayMoves(after, t, turn.next.value);
    }
  }

  lemma StartsPaying(s: State, id: SlaId) returns (after: State, t: Tid)
    requires Reachable(s) && Calm(s)
    ensures Reachable(after) && Alone(after, t, PayHeld(id)) && after.shared == s.shared
  {
    t := s.next;
    ReachableStep(s, PayArrives(id));
    after := Step(s, PayArrives(id));
    assert Alone(after, t, PayWait(id));
    after := Moves(after, t, PayWait(id), true);
  }

  // A whole payment with nobody else at work.
  lemma Pays(s: State, id: SlaId) returns (after: State)
    requires Reachable(s) && Calm(s)
    requires PaySection(s.shared.db, s.shared.used, s.shared.available, id).ok
    ensures Reachable(after) && Calm(after)
    ensures var section := PaySection(s.shared.db, s.shared.used, s.shared.available, id);
      after.shared.db == section.db && after.shared.used == section.used
    ensures after.shared.available == s.shared.available
    ensures after.shared.timers == s.shared.timers + multiset{id}
    ensures after.shared.tasks == s.shared.tasks + [Task(id, s.shared.db[id].node)]
  {
    var t;
    after, t := StartsPaying(s, id);
    after := PayMoves(after, t, PayHeld(id));
    PayAloneIsSection(s.shared, id);
    AvailableStays(s.shared, PayHeld(id));
  }

  lemma {:induction false} AvailableStays(sh: Shared, pc: Pc)
    requires pc.Paying()
    ensures PayAlone(sh, pc).available == sh.available
    decreases PayLeft(pc)
  {
    var turn := PayTurn(sh, pc);
    if turn.next.Some? {
      AvailableStays(turn.shared, turn.next.value);
    }
  }

  lemma {:induction false} ReleaseMoves(s: State, t: Tid, pc: Pc) returns (after: State)
    requires Reachable(s) && Alone(s, t, pc) && pc.Releasing()
    ensures Reachable(after) && Calm(after) && after.shared == ReleaseAlone(s.shared, pc)
    decreases ReleaseLeft(pc)
  {
    FinishesOn(s.shared, pc, true);
    after := Moves(s, t, pc, true);
    var turn := ReleaseTurn(s.shared, pc);
    if turn.next.Some? {
      after := ReleaseMoves(after, t, turn.next.value);
    }
  }

  lemma {:induction false} FinishMoves(s: State, t: Tid, pc: Pc) returns (after: State)
    requires Reachable(s) && Alone(s, t, pc) && (pc.Removing() || pc.Recording() || pc.Releasing())
    ensures Reachable(after) && Calm(after) && after.shared == FinishAlone(s.shared, pc, true)
    decreases if pc.FinHeld? then 4 else if pc.FinRemoving? then 3 else if pc.FinRecord? then 2
        else if pc.FinFinishable? then 1 else 0
  {
    if pc.Releasing() {
      after := ReleaseMoves(s, t, pc);
    } else {
      FinishesOn(s.shared, pc, true);
      after := Moves(s, t, pc, true);
      var turn := if pc.Removing() then RemoveTurn(s.shared, pc, true) else RecordTurn(s.shared, pc);
      after := FinishMoves(after, t, turn.next.value);
    }
  }

  // A timer fires and its callback finishes with nobody else at work.
  lemma Expires(s: State, id: SlaId) returns (after: State)
    requires Reachable(s) && Calm(s) && id in s.shared.timers && s.shared.tasks != []
    ensures Reachable(after) && Calm(after)
    ensures after.shared.db == FinishSection(s.shared.db, s.shared.used, id, true).db
    ensures after.shared.timers == s.shared.timers - multiset{id}
    ensures after.shared.tasks == s.shared.tasks[1..]
  {
    var t := s.next;
    ReachableStep(s, Fires(id));
    after := Step(s, Fires(id));
    assert Alone(after, t, FinWait(id, true));
    after := Moves(after, t, FinWait(id, true), true);
    after := FinishMoves(after, t, FinHeld(id, true));
    FinishAloneIsSection(FireTurn(s.shared, id), id, true, true);
  }

  // ---- over-commitment ----

  ghost predicate Overcommitted(s: State, n: K8sNode) {
    && Reserved(s.shared.db, n) && n in s.shared.used && n in s.shared.available
    && !s.shared.used[n].Below(s.shared.available[n])
  }

  // The SLA is the only one that was ever accepted.
  ghost predicate Only(sla: Sla, s: State) {
    forall id :: id in s.shared.db && !s.shared.db[id].Proposed? ==> s.shared.db[id].sla == sla
  }

  lemma Overcommits(sla: Sla, n: K8sNode) returns (s: State)
    requires sla.Demand().NonNegative() && !Covered(sla)
    ensures Reachable(s) && Only(sla, s) && Overcommitted(s, n)
  {
    s := Start(n, Tight(sla));
    var p := Proposed(0.0, sla, n);
    s := Bid(s, p);
    TightLedger(sla);
    s := Pays(s, sla.id);
    assert s.shared.db[sla.id] == p.ToPaid();
  }

  /** An SLA can bring a run to an over-committed node by itself exactly when it
      asks for something and for no replica. */
  lemma OvercommitsIff(sla: Sla)
    requires sla.Demand().NonNegative()
    ensures (exists s, n :: Reachable(s) && Only(sla, s) && Overcommitted(s, n))
            <==> sla.maxReplica == 0 && sla.Demand() != ZERO
  {
    if !Covered(sla) {
      var s := Overcommits(sla, 0);
    } else if s, n :| Reachable(s) && Only(sla, s) && Overcommitted(s, n) {
      NeverOvercommitted(s, n);
    }
  }

  // ---- the queue ----

  // An SLA that any node with some room accepts.
  function Small(id: SlaId): Sla {
    Sla(id, 0.0, 0.0, 0.0, 1.0, 1, 0.0)
  }

  lemma PayMovesTo(s: State, t: Tid, pc: Pc, sh: Shared, next: Pc) returns (after: State)
    requires Reachable(s) && Alone(s, t, pc) && pc.Paying() && PayTurn(s.shared, pc) == Turn(sh, Some(next))
    ensures Reachable(after) && Alone(after, t, next) && after.shared == sh
  {
    PaysOn(s.shared, pc, true);
    after := Moves(s, t, pc, true);
  }

  // The turns of a payment that goes through, up to its tracking write.
  lemma TurnsUntilSaved(sh: Shared, id: SlaId, p: Record)
    requires GetProposed(sh.db, id) == Some(p) && p.node in sh.used && p.node in sh.available
    requires Satisfiable(sh.used[p.node], sh.available[p.node], p.sla)
    ensures var u := sh.used[p.node];
      && PayTurn(sh, PayHeld(id)) == Turn(sh, Some(PayProposal(id, p)))
      && PayTurn(sh, PayProposal(id, p)) == Turn(sh, Some(PayUsed(id, p, u)))
      && PayTurn(sh, PayUsed(id, p, u)) == Turn(sh, Some(PayChecked(id, p, u)))
      && PayTurn(sh, PayChecked(id, p, u)) == Turn(sh.(db := sh.db[id := p.ToPaid()]), Some(PaySaved(id, p, u)))
  {
  }

  // And from there up to the creation of its timer.
  lemma TurnsUntilSpawned(sh: Shared, id: SlaId, p: Record, u: Resources) returns (booked: Shared, spawned: Shared)
    requires GetPaid(sh.db, id) == Some(p.ToPaid()) && p.node in sh.used
    ensures PayTurn(sh, PaySaved(id, p, u)) == Turn(sh, Some(PayConfirmed(id, p.ToPaid(), u)))
    ensures PayTurn(sh, PayConfirmed(id, p.ToPaid(), u)) == Turn(booked, Some(PayRecorded(id, p.ToPaid())))
    ensures PayTurn(booked, PayRecorded(id, p.ToPaid())) == Turn(spawned, Some(PaySpawned(id, p.ToPaid())))
    ensures id in spawned.timers && spawned.tasks == sh.tasks && spawned.log.wasted == sh.log.wasted
  {
    booked := PayTurn(sh, PayConfirmed(id, p.ToPaid(), u)).shared;
    spawned := PayTurn(booked, PayRecorded(id, p.ToPaid())).shared;
  }

  lemma UntilSaved(s: State, t: Tid, id: SlaId, p: Record) returns (after: State)
    requires Reachable(s) && Alone(s, t, PayHeld(id))
    requires GetProposed(s.shared.db, id) == Some(p) && p.node in s.shared.used && p.node in s.shared.available
    requires Satisfiable(s.shared.used[p.node], s.shared.available[p.node], p.sla)
    ensures Reachable(after) && Alone(after, t, PaySaved(id, p, s.shared.used[p.node]))
    ensures after.shared == s.shared.(db := s.shared.db[id := p.ToPaid()])
  {
    var sh, u := s.shared, s.shared.used[p.node];
    TurnsUntilSaved(sh, id, p);
    after := PayMovesTo(s, t, PayHeld(id), sh, PayProposal(id, p));
    after := PayMovesTo(after, t, PayProposal(id, p), sh, PayUsed(id, p, u));
    after := PayMovesTo(after, t, PayUsed(id, p, u), sh, PayChecked(id, p, u));
    after := PayMovesTo(after, t, PayChecked(id, p, u), sh.(db := sh.db[id := p.ToPaid()]), PaySaved(id, p, u));
  }

  lemma UntilSpawned(s: State, t: Tid, id: SlaId, p: Record, u: Resources) returns (after: State)
    requires Reachable(s) && Alone(s, t, PaySaved(id, p, u))
    requires GetPaid(s.shared.db, id) == Some(p.ToPaid()) && p.node in s.shared.used
    ensures Reachable(after) && Alone(after, t, PaySpawned(id, p.ToPaid()))
    ensures id in after.shared.timers && after.shared.tasks == s.shared.tasks
    ensures after.shared.log.wasted == s.shared.log.wasted
  {
    var booked, spawned := TurnsUntilSpawned(s.shared, id, p, u);
    after := PayMovesTo(s, t, PaySaved(id, p, u), s.shared, PayConfirmed(id, p.ToPaid(), u));
    after := PayMovesTo(after, t, PayConfirmed(id, p.ToPaid(), u), booked, PayRecorded(id, p.ToPaid()));
    after := PayMovesTo(after, t, PayRecorded(id, p.ToPaid()), spawned, PaySpawned(id, p.ToPaid()));
  }

  lemma Proposes(id: SlaId, n: K8sNode) returns (s: State)
    ensures Reachable(s) && Calm(s)
    ensures s.shared.db == map[id := Proposed(0.0, Small(id), n)]
    ensures s.shared.used == map[n := ZERO] && s.shared.available == map[n := Resources(1.0, 1.0)]
    ensures s.shared.timers == multiset{} && s.shared.tasks == [] && s.shared.log.wasted == 0
  {
    s := Start(n, Resources(1.0, 1.0));
    s := Bid(s, Proposed(0.0, Small(id), n));
  }

  lemma SmallFits(id: SlaId)
    ensures Satisfiable(ZERO, Resources(1.0, 1.0), Small(id)) && ZERO.Plus(Small(id).Demand()) == ZERO
  {
  }

  /** A run in which a timer fires before its entry is queued and pops nothing. */
  lemma PopIsWasted(id: SlaId, n: K8sNode) returns (s: State)
    ensures Reachable(s) && s.shared.log.wasted == 1
  {
    var p := Proposed(0.0, Small(id), n);
    s := Proposes(id, n);
    SmallFits(id);
    var t;
    s, t := StartsPaying(s, id);
    s := UntilSaved(s, t, id, p);
    s := UntilSpawned(s, t, id, p, ZERO);
    s := FiresEarly(s, id);
  }

  lemma FiresEarly(s: State, id: SlaId) returns (after: State)
    requires Reachable(s) && id in s.shared.timers && s.shared.tasks == []
    ensures Reachable(after) && after.shared.log.wasted == s.shared.log.wasted + 1
  {
    ReachableStep(s, Fires(id));
    after := Step(s, Fires(id));
  }

  lemma ProposesTwo(id: SlaId, other: SlaId, n: K8sNode) returns (s: State)
    requires id != other
    ensures Reachable(s) && Calm(s)
    ensures s.shared.db == map[id := Proposed(0.0, Small(id), n), other := Proposed(0.0, Small(other), n)]
    ensures s.shared.used == map[n := ZERO] && s.shared.available == map[n := Resources(1.0, 1.0)]
    ensures s.shared.timers == multiset{} && s.shared.tasks == []
  {
    s := Proposes(id, n);
    s := Bid(s, Proposed(0.0, Small(other), n));
  }

  lemma PaysTwo(id: SlaId, other: SlaId, n: K8sNode) returns (s: State)
    requires id != other
    ensures Reachable(s) && Calm(s)
    ensures ActiveIn(s.shared.db, id)
    ensures s.shared.timers == multiset{id, other} && s.shared.tasks == [Task(id, n), Task(other, n)]
  {
    s := ProposesTwo(id, other, n);
    SmallFits(id);
    s := Pays(s, id);
    assert s.shared.used[n] == ZERO;
    SmallFits(other);
    s := Pays(s, other);
  }

  /** A run after which an active reservation is missing from the report, with
      nobody at work and no pop wasted: the younger of two timers fired first. */
  lemma ReservationIsHidden(id: SlaId, other: SlaId, n: K8sNode) returns (s: State)
    requires id != other
    ensures Reachable(s) && Settled(s) && s.shared.log.wasted == 0
    ensures ActiveIn(s.shared.db, id) && id !in Reported(s.shared.db, s.shared.tasks)
  {
    s := PaysTwo(id, other, n);
    var before := s.shared;
    s := Expires(s, other);
    assert s.shared.tasks == [Task(other, n)] && s.shared.timers == multiset{id};
    assert ActiveIn(s.shared.db, id);
    QueueFollowsTimers(s);
    ReportedCount(s.shared.db, s.shared.tasks, id);
    assert Ids(s.shared.tasks) == [other];
  }
}
