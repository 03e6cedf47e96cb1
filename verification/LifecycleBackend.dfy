/** What the backend runs, and how much a k8s node is asked to carry. */
module LifecycleBackend {
  import opened Model
  import opened Tracking
  import opened Lifecycle
  import opened LifecycleInvariant
  import opened LifecycleBooks

  predicate RunningIn(db: Database, id: SlaId) {
    id in db && db[id].Running()
  }

  // The backend has removed the function; the record does not say so yet.
  predicate RemovedAhead(held: Option<Pc>, id: SlaId) {
    held.Some? && held.value.Recording() && held.value.removed && held.value.id == id
  }

  // The backend refused to remove the function; the record does not say so yet.
  predicate RefusedAhead(held: Option<Pc>, id: SlaId) {
    held.Some? && held.value.Recording() && !held.value.removed && held.value.id == id
  }

  // The backend has deployed the function; the record does not say so yet.
  predicate DeployedAhead(held: Option<Pc>, id: SlaId) {
    held.Some? && held.value.ProvDeployed? && held.value.id == id
  }

  ghost predicate BackendAt(sh: Shared, held: Option<Pc>, id: SlaId) {
    && (id in sh.deployed <==>
        || (RunningIn(sh.db, id) && !RemovedAhead(held, id))
        || id in sh.log.leaked
        || DeployedAhead(held, id))
    && (id in sh.log.leaked ==>
          id in sh.db && (sh.db[id].Finished? || (sh.db[id].Running() && RefusedAhead(held, id))))
    && (RefusedAhead(held, id) && RunningIn(sh.db, id) ==> id in sh.log.leaked)
  }

  lemma BackendBid(sh: Shared, held: Option<Pc>, record: Record, id: SlaId)
    requires record.Proposed? && record.sla.id !in sh.db && BackendAt(sh, held, id)
    ensures BackendAt(BidTurn(sh, record), held, id)
  {
  }

  lemma BackendLive(sh: Shared, held: Option<Pc>, pc: Pc, ok: bool, id: SlaId)
    requires Facts(sh, pc) && pc.Watching() && BackendAt(sh, held, id)
    ensures BackendAt(LiveTurn(sh, pc, ok).shared, held, id)
  {
  }

  // A turn leaves the backend as the records say.
  ghost predicate Deploys(t: Turn, id: SlaId) {
    BackendAt(t.shared, OnlyCritical(t.next), id)
  }

  predicate Ahead(held: Option<Pc>, id: SlaId) {
    RemovedAhead(held, id) || RefusedAhead(held, id) || DeployedAhead(held, id)
  }

  lemma PayingIsNotAhead(pc: Option<Pc>, id: SlaId)
    requires pc.Some? ==> pc.value.Paying()
    ensures !Ahead(OnlyCritical(pc), id)
  {
  }

  // No record begins or ceases to run.
  ghost predicate SameRunning(db: Database, after: Database, id: SlaId) {
    && RunningIn(after, id) == RunningIn(db, id)
    && (id in db ==> id in after && (db[id].Finished? ==> after[id].Finished?))
  }

  lemma PaySameRunning(sh: Shared, pc: Pc, id: SlaId)
    requires Facts(sh, pc) && pc.Paying()
    ensures var after := PayTurn(sh, pc).shared;
      SameRunning(sh.db, after.db, id) && after.deployed == sh.deployed && after.log.leaked == sh.log.leaked
  {
  }

  lemma BackendKept(sh: Shared, after: Shared, held: Option<Pc>, next: Option<Pc>, id: SlaId)
    requires BackendAt(sh, held, id) && !Ahead(held, id) && !Ahead(next, id)
    requires SameRunning(sh.db, after.db, id) && after.deployed == sh.deployed && after.log.leaked == sh.log.leaked
    ensures BackendAt(after, next, id)
  {
  }

  lemma BackendPay(sh: Shared, pc: Pc, id: SlaId)
    requires Shape(sh) && Facts(sh, pc) && pc.Paying() && BackendAt(sh, OnlyCritical(Some(pc)), id)
    ensures Deploys(PayTurn(sh, pc), id)
  {
    var t := PayTurn(sh, pc);
    PayGoesOn(sh, pc);
    PayingIsNotAhead(Some(pc), id);
    PayingIsNotAhead(t.next, id);
    PaySameRunning(sh, pc, id);
    BackendKept(sh, t.shared, OnlyCritical(Some(pc)), OnlyCritical(t.next), id);
  }

  lemma BackendProvision(sh: Shared, pc: Pc, ok: bool, id: SlaId)
    requires Shape(sh) && Facts(sh, pc) && pc.Provisioning() && BackendAt(sh, OnlyCritical(Some(pc)), id)
    ensures Deploys(ProvisionTurn(sh, pc, ok), id)
  {
  }

  lemma BackendRemove(sh: Shared, pc: Pc, ok: bool, id: SlaId)
    requires Shape(sh) && Facts(sh, pc) && pc.Removing() && BackendAt(sh, OnlyCritical(Some(pc)), id)
    ensures Deploys(RemoveTurn(sh, pc, ok), id)
  {
  }

  lemma BackendRecord(sh: Shared, pc: Pc, id: SlaId)
    requires Shape(sh) && Facts(sh, pc) && pc.Recording() && BackendAt(sh, OnlyCritical(Some(pc)), id)
    ensures Deploys(RecordTurn(sh, pc), id)
  {
  }

  lemma BackendRelease(sh: Shared, pc: Pc, id: SlaId)
    requires Shape(sh) && Facts(sh, pc) && pc.Releasing() && BackendAt(sh, OnlyCritical(Some(pc)), id)
    ensures Deploys(ReleaseTurn(sh, pc), id)
  {
  }

  lemma BackendAcquire(sh: Shared, pc: Pc, id: SlaId)
    requires pc.Waiting() && BackendAt(sh, OnlyCritical(Some(pc)), id)
    ensures Deploys(AcquireTurn(sh, pc), id)
  {
  }

  lemma BackendTurn(sh: Shared, pc: Pc, ok: bool, id: SlaId)
    requires Shape(sh) && Facts(sh, pc) && !pc.Watching() && BackendAt(sh, OnlyCritical(Some(pc)), id)
    ensures Deploys(Takes(sh, pc, ok), id)
  {
    if pc.Waiting() {
      BackendAcquire(sh, pc, id);
    } else if pc.Provisioning() {
      BackendProvision(sh, pc, ok, id);
    } else if pc.Removing() {
      BackendRemove(sh, pc, ok, id);
    } else if pc.Recording() {
      BackendRecord(sh, pc, id);
    } else if pc.Releasing() {
      BackendRelease(sh, pc, id);
    } else {
      BackendPay(sh, pc, id);
    }
  }

  lemma BackendStep(s: State, e: Event, id: SlaId)
    requires Core(s) && Enabled(s, e) && BackendAt(s.shared, Held(s), id)
    ensures BackendAt(Step(s, e).shared, Held(Step(s, e)), id)
  {
    if !e.Runs? {
      HeldOther(s, e);
      if e.Bids? {
        BackendBid(s.shared, Held(s), e.record, id);
      }
    } else {
      HeldRuns(s, e.thread, e.ok);
      if s.threads[e.thread].Watching() {
        BackendLive(s.shared, Held(s), s.threads[e.thread], e.ok, id);
      } else {
        BackendTurn(s.shared, s.threads[e.thread], e.ok, id);
      }
    }
  }

  // ---- capacity ----

  // Asks for at least one replica, or for nothing.
  predicate Covered(sla: Sla) {
    1 <= sla.maxReplica || sla.Demand() == ZERO
  }

  // Every accepted SLA does.
  ghost predicate Replicated(db: Database) {
    forall id :: id in db && !db[id].Proposed? ==> Covered(db[id].sla)
  }

  ghost predicate Reserved(db: Database, n: K8sNode) {
    exists id :: id in db && db[id].Active() && db[id].node == n
  }

  ghost predicate WithinAt(sh: Shared, n: K8sNode) {
    Replicated(sh.db) && Reserved(sh.db, n) ==>
      n in sh.used && n in sh.available && sh.used[n].Below(sh.available[n])
  }

  // The check of a payment: reserving one replica stays below the limit,
  // because the test was made with all of them.
  lemma SatisfiableCovers(used: Resources, available: Resources, sla: Sla)
    requires Satisfiable(used, available, sla) && sla.Demand().NonNegative() && Covered(sla)
    ensures used.Plus(sla.Demand()).Below(available) && used.Below(available)
  {
    if 1 <= sla.maxReplica {
      assert sla.memory * 1.0 <= sla.memory * sla.maxReplica as real;
      assert sla.cpu * 1.0 <= sla.cpu * sla.maxReplica as real;
    }
  }

  lemma WithinKept(sh: Shared, after: Shared, n: K8sNode)
    requires WithinAt(sh, n) && Advances(sh.db, after.db)
    requires after.used == sh.used && after.available == sh.available
    requires Reserved(after.db, n) ==> Reserved(sh.db, n)
    ensures WithinAt(after, n)
  {
    assert Replicated(after.db) ==> Replicated(sh.db);
  }

  // A turn leaves the node within its capacity.
  ghost predicate Fits(t: Turn, n: K8sNode) {
    WithinAt(t.shared, n)
  }

  lemma WithinSavePaid(sh: Shared, pc: Pc, n: K8sNode)
    requires Shape(sh) && Facts(sh, pc) && pc.PayChecked? && WithinAt(sh, n)
    ensures Fits(PayTurn(sh, pc), n)
  {
    var after := PayTurn(sh, pc).shared;
    if Replicated(after.db) {
      if n == pc.rec.node {
        assert after.db[pc.id].sla == pc.rec.sla;
        SatisfiableCovers(pc.read, sh.available[n], pc.rec.sla);
      } else {
        PayTurnFacts(sh, pc);
        assert Reserved(after.db, n) ==> Reserved(sh.db, n);
        WithinKept(sh, after, n);
      }
    }
  }

  lemma WithinSetUsed(sh: Shared, pc: Pc, n: K8sNode)
    requires Shape(sh) && Facts(sh, pc) && pc.PayConfirmed? && WithinAt(sh, n)
    ensures Fits(PayTurn(sh, pc), n)
  {
    if Replicated(sh.db) {
      SatisfiableCovers(pc.read, sh.available[pc.rec.node], pc.rec.sla);
    }
  }

  lemma WithinRelease(sh: Shared, pc: Pc, n: K8sNode)
    requires Shape(sh) && Facts(sh, pc) && pc.FinUsed? && WithinAt(sh, n)
    ensures Fits(ReleaseTurn(sh, pc), n)
  {
  }

  ghost predicate KeepsLedger(sh: Shared, t: Turn) {
    t.shared.used == sh.used && t.shared.available == sh.available
  }

  lemma PayKeepsLedger(sh: Shared, pc: Pc)
    requires pc.Paying() && !pc.PayConfirmed?
    ensures KeepsLedger(sh, PayTurn(sh, pc))
  {
  }

  lemma ReleaseKeepsLedger(sh: Shared, pc: Pc)
    requires pc.Releasing() && !pc.FinUsed?
    ensures KeepsLedger(sh, ReleaseTurn(sh, pc))
  {
  }

  lemma LiveKeepsLedger(sh: Shared, pc: Pc, ok: bool)
    ensures pc.Waiting() ==> KeepsLedger(sh, AcquireTurn(sh, pc))
    ensures pc.Watching() ==> KeepsLedger(sh, LiveTurn(sh, pc, ok))
    ensures pc.Provisioning() ==> KeepsLedger(sh, ProvisionTurn(sh, pc, ok))
  {
  }

  lemma FinishKeepsLedger(sh: Shared, pc: Pc, ok: bool)
    ensures pc.Removing() ==> KeepsLedger(sh, RemoveTurn(sh, pc, ok))
    ensures pc.Recording() ==> KeepsLedger(sh, RecordTurn(sh, pc))
  {
  }

  lemma LedgerKept(sh: Shared, pc: Pc, ok: bool)
    requires !pc.PayConfirmed? && !pc.FinUsed?
    ensures KeepsLedger(sh, Takes(sh, pc, ok))
  {
    if pc.Waiting() || pc.Watching() || pc.Provisioning() {
      LiveKeepsLedger(sh, pc, ok);
    } else if pc.Removing() || pc.Recording() {
      FinishKeepsLedger(sh, pc, ok);
    } else if pc.Releasing() {
      ReleaseKeepsLedger(sh, pc);
    } else {
      PayKeepsLedger(sh, pc);
    }
  }

  lemma AvailableKept(sh: Shared, pc: Pc, ok: bool)
    ensures Takes(sh, pc, ok).shared.available == sh.available
  {
    if !pc.PayConfirmed? && !pc.FinUsed? {
      LedgerKept(sh, pc, ok);
    }
  }

  lemma WithinOther(sh: Shared, pc: Pc, ok: bool, n: K8sNode)
    requires Shape(sh) && Facts(sh, pc) && WithinAt(sh, n) && !pc.PayChecked? && !pc.PayConfirmed? && !pc.FinUsed?
    ensures Fits(Takes(sh, pc, ok), n)
  {
    var after := Takes(sh, pc, ok).shared;
    TurnFacts(sh, pc, ok);
    LedgerKept(sh, pc, ok);
    if Reserved(after.db, n) {
      var id :| id in after.db && after.db[id].Active() && after.db[id].node == n;
      NoNewActivity(sh, pc, ok, id);
    }
    WithinKept(sh, after, n);
  }

  lemma WithinTurn(sh: Shared, pc: Pc, ok: bool, n: K8sNode)
    requires Shape(sh) && Facts(sh, pc) && WithinAt(sh, n)
    ensures Fits(Takes(sh, pc, ok), n)
  {
    if pc.PayChecked? {
      WithinSavePaid(sh, pc, n);
    } else if pc.PayConfirmed? {
      WithinSetUsed(sh, pc, n);
    } else if pc.FinUsed? {
      WithinRelease(sh, pc, n);
    } else {
      WithinOther(sh, pc, ok, n);
    }
  }

  lemma WithinBid(sh: Shared, record: Record, n: K8sNode)
    requires record.Proposed? && record.sla.id !in sh.db && WithinAt(sh, n)
    ensures WithinAt(BidTurn(sh, record), n)
  {
    var after := BidTurn(sh, record);
    if Reserved(after.db, n) {
      var id :| id in after.db && after.db[id].Active() && after.db[id].node == n;
      assert id in sh.db && sh.db[id].Active() && sh.db[id].node == n;
    }
    WithinKept(sh, after, n);
  }

  lemma WithinStep(s: State, e: Event, n: K8sNode)
    requires Core(s) && Enabled(s, e) && WithinAt(s.shared, n)
    ensures WithinAt(Step(s, e).shared, n)
  {
    if e.Bids? {
      WithinBid(s.shared, e.record, n);
    } else if e.Runs? {
      WithinTurn(s.shared, s.threads[e.thread], e.ok, n);
    }
  }

  // The payment's check is enough to reserve one replica on any ledger.
  ghost predicate Protects(sla: Sla) {
    forall used: Resources, available: Resources ::
      Satisfiable(used, available, sla) ==> used.Plus(sla.Demand()).Below(available)
  }

  // Just the room the SLA needs. With no replica the check compares the ledger
  // as it is, so a node with this room accepts it.
  function Tight(sla: Sla): Resources {
    Resources(if 0.0 < sla.memory then sla.memory else 1.0, if 0.0 < sla.cpu then sla.cpu else 1.0)
  }

  lemma TightLedger(sla: Sla)
    requires sla.Demand().NonNegative() && !Covered(sla)
    ensures Satisfiable(ZERO, Tight(sla), sla) && !ZERO.Plus(sla.Demand()).Below(Tight(sla))
  {
  }

  lemma ProtectsIff(sla: Sla)
    requires sla.Demand().NonNegative()
    ensures Protects(sla) <==> Covered(sla)
  {
    if Covered(sla) {
      forall used: Resources, available: Resources | Satisfiable(used, available, sla)
        ensures used.Plus(sla.Demand()).Below(available)
      {
        SatisfiableCovers(used, available, sla);
      }
    } else {
      TightLedger(sla);
    }
  }
}
