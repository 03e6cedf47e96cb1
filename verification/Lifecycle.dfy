/** The reservation life cycle of a fog node as a state machine. Every event is
    one access to shared state (database, ledger, task queue, backend, permit);
    between two accesses any other thread may move. */
module Lifecycle {
  import opened Model
  import opened Tracking

  type Tid = nat
  type Ledger = map<K8sNode, Resources>

  datatype Task = Task(sla: SlaId, node: K8sNode)

  // Where a thread stands. Pay*, Prov* and Fin* after the wait hold the permit
  // of the semaphore; the liveness check (Live*) never takes it.
  datatype Pc =
    | PayWait(id: SlaId)
    | PayHeld(id: SlaId)
    | PayProposal(id: SlaId, rec: Record)
    | PayUsed(id: SlaId, rec: Record, read: Resources)
    | PayChecked(id: SlaId, rec: Record, read: Resources)
    | PaySaved(id: SlaId, rec: Record, read: Resources)
    | PayConfirmed(id: SlaId, rec: Record, read: Resources)
    | PayRecorded(id: SlaId, rec: Record)
    | PaySpawned(id: SlaId, rec: Record)
    | PayDone(id: SlaId)
    | ProvWait(id: SlaId)
    | ProvHeld(id: SlaId)
    | ProvPaid(id: SlaId, rec: Record)
    | ProvDeployed(id: SlaId, rec: Record)
    | ProvDone(id: SlaId)
    | LiveTry(id: SlaId)
    | LiveProbe(id: SlaId, seen: ProvisionedRecord)
    | LiveAnswered(id: SlaId, seen: ProvisionedRecord)
    | FinWait(id: SlaId, byTimer: bool)
    | FinHeld(id: SlaId, byTimer: bool)
    | FinRemoving(id: SlaId, byTimer: bool)
    | FinRecord(id: SlaId, byTimer: bool, removed: bool)
    | FinFinishable(id: SlaId, byTimer: bool, removed: bool, rec: Record)
    | FinSaved(id: SlaId)
    | FinNoted(id: SlaId, rec: Record)
    | FinUsed(id: SlaId, rec: Record, read: Resources)
    | FinDone(id: SlaId)
  {
    predicate Waiting() {
      PayWait? || ProvWait? || FinWait?
    }

    predicate Watching() {
      LiveTry? || LiveProbe? || LiveAnswered?
    }

    predicate Paying() {
      || PayHeld? || PayProposal? || PayUsed? || PayChecked? || PaySaved?
      || PayConfirmed? || PayRecorded? || PaySpawned? || PayDone?
    }

    predicate Provisioning() {
      ProvHeld? || ProvPaid? || ProvDeployed? || ProvDone?
    }

    predicate Removing() {
      FinHeld? || FinRemoving?
    }

    predicate Recording() {
      FinRecord? || FinFinishable?
    }

    predicate Releasing() {
      FinSaved? || FinNoted? || FinUsed? || FinDone?
    }

    predicate Critical() {
      Paying() || Provisioning() || Removing() || Recording() || Releasing()
    }

    // A cron callback that has not yet written the finished record.
    predicate Expiring(i: SlaId) {
      && (FinWait? || FinHeld? || FinRemoving? || FinRecord? || FinFinishable?)
      && byTimer
      && id == i
    }

    // A payment between its tracking write and the creation of its timer.
    predicate PayingUntimed(i: SlaId) {
      (PaySaved? || PayConfirmed? || PayRecorded?) && id == i
    }

    // A payment whose record is written and whose ledger entry is not.
    predicate OwesLedger() {
      PaySaved? || PayConfirmed?
    }

    // A finish whose record is written and whose ledger entry is not released.
    predicate OwesRelease() {
      FinSaved? || FinNoted? || FinUsed?
    }
  }

  // What the threads share.
  datatype Shared = Shared(
    db: Database,
    used: Ledger,
    available: Ledger,
    timers: multiset<SlaId>,     // one-shot timers still asleep
    tasks: seq<Task>,            // the cron queue
    deployed: set<SlaId>,        // what the backend runs
    log: Log)

  // History kept for the statements only; no step reads it.
  datatype Log = Log(
    created: seq<Task>,          // every entry ever pushed on the queue
    fired: seq<SlaId>,           // timers in the order they fired
    wasted: nat,                 // pops that found the queue empty
    reserved: multiset<SlaId>,   // ledger writes of payments
    released: multiset<SlaId>,   // ledger writes of finishes
    leaked: set<SlaId>)          // functions whose removal failed

  datatype State = State(
    shared: Shared,
    permit: Option<Tid>,
    threads: map<Tid, Pc>,
    next: Tid,
    callbacks: map<SlaId, Tid>)  // history: the thread each timer started

  datatype Event =
    | Bids(record: Record)               // a proposal enters the database
    | PayArrives(id: SlaId)
    | ProvisionArrives(id: SlaId)
    | Fires(id: SlaId)                   // a timer wakes up
    | Runs(thread: Tid, ok: bool)        // ok: the backend's answer, or no timeout yet

  function GetUsed(ledger: Ledger, node: K8sNode): Option<Resources> {
    if node in ledger then Some(ledger[node]) else None
  }

  predicate Satisfiable(used: Resources, available: Resources, sla: Sla) {
    && used.cpu + sla.cpu * sla.maxReplica as real < available.cpu
    && used.ram + sla.memory * sla.maxReplica as real < available.ram
  }

  // The ledger of a node after reserving a demand k times, one after another.
  function Repeated(used: Resources, demand: Resources, k: nat): Resources {
    if k == 0 then used else Repeated(used, demand, k - 1).Plus(demand)
  }

  // Every replica can be reserved, and something is left in both dimensions.
  predicate RoomFor(used: Resources, available: Resources, sla: Sla) {
    Repeated(used, Resources(sla.memory, sla.cpu), sla.maxReplica).Below(available)
  }

  lemma {:induction false} RepeatedIs(used: Resources, demand: Resources, k: nat)
    ensures Repeated(used, demand, k) == Resources(used.ram + demand.ram * k as real, used.cpu + demand.cpu * k as real)
    decreases k
  {
    if k > 0 {
      RepeatedIs(used, demand, k - 1);
      assert demand.ram * k as real == demand.ram * (k - 1) as real + demand.ram;
      assert demand.cpu * k as real == demand.cpu * (k - 1) as real + demand.cpu;
    }
  }

  /** The capacity check accepts an SLA exactly when all its replicas fit one after
      another, with something left in RAM and CPU. */
  lemma SatisfiableIff(used: Resources, available: Resources, sla: Sla)
    ensures Satisfiable(used, available, sla) <==> RoomFor(used, available, sla)
  {
    RepeatedIs(used, Resources(sla.memory, sla.cpu), sla.maxReplica);
  }

  ghost predicate InitShared(sh: Shared) {
    && sh.db == map[]
    && sh.used.Keys == sh.available.Keys
    && (forall n :: n in sh.used ==> sh.used[n] == ZERO)
    && sh.timers == multiset{}
    && sh.tasks == []
    && sh.deployed == {}
    && sh.log == Log([], [], 0, multiset{}, multiset{}, {})
  }

  ghost predicate Init(s: State) {
    InitShared(s.shared) && s.permit == None && s.threads == map[] && s.callbacks == map[]
  }

  // One access of a thread standing at `pc`: the shared state it leaves and
  // where it stands next (nowhere once it is over).
  datatype Turn = Turn(shared: Shared, next: Option<Pc>)

  function AcquireTurn(sh: Shared, pc: Pc): Turn
    requires pc.Waiting()
  {
    match pc
    case PayWait(id) => Turn(sh, Some(PayHeld(id)))
    case ProvWait(id) => Turn(sh, Some(ProvHeld(id)))
    case FinWait(id, o) => Turn(sh, Some(FinHeld(id, o)))
  }

  function PayTurn(sh: Shared, pc: Pc): Turn
    requires pc.Paying()
  {
    match pc
    case PayHeld(id) =>
      (match GetProposed(sh.db, id)
       case None => Turn(sh, None)
       case Some(p) => Turn(sh, Some(PayProposal(id, p))))
    case PayProposal(id, p) =>
      (match GetUsed(sh.used, p.node)
       case None => Turn(sh, None)
       case Some(u) => Turn(sh, Some(PayUsed(id, p, u))))
    case PayUsed(id, p, u) =>
      (match GetUsed(sh.available, p.node)
       case None => Turn(sh, None)
       case Some(a) => Turn(sh, if Satisfiable(u, a, p.sla) then Some(PayChecked(id, p, u)) else None))
    case PayChecked(id, p, u) =>
      Turn(sh.(db := SavePaid(sh.db, id, p.ToPaid())), Some(PaySaved(id, p, u)))
    case PaySaved(id, p, u) =>
      (match GetPaid(sh.db, id)
       case None => Turn(sh, None)
       case Some(r) => Turn(sh, Some(PayConfirmed(id, r, u))))
    case PayConfirmed(id, r, u) =>
      if r.node !in sh.used then Turn(sh, None)
      else Turn(sh.(used := sh.used[r.node := u.Plus(r.sla.Demand())],
                    log := sh.log.(reserved := sh.log.reserved + multiset{id})),
                Some(PayRecorded(id, r)))
    case PayRecorded(id, r) =>
      Turn(sh.(timers := sh.timers + multiset{id}), Some(PaySpawned(id, r)))
    case PaySpawned(id, r) =>
      Turn(sh.(tasks := sh.tasks + [Task(id, r.node)],
               log := sh.log.(created := sh.log.created + [Task(id, r.node)])),
           Some(PayDone(id)))
    case PayDone(_) => Turn(sh, None)
  }

  function ProvisionTurn(sh: Shared, pc: Pc, ok: bool): Turn
    requires pc.Provisioning()
  {
    match pc
    case ProvHeld(id) =>
      (match GetPaid(sh.db, id)
       case None => Turn(sh, None)
       case Some(r) => Turn(sh, Some(ProvPaid(id, r))))
    case ProvPaid(id, r) =>
      if ok
      then Turn(sh.(deployed := sh.deployed + {id}), Some(ProvDeployed(id, r.ToProvisioned(id))))
      else Turn(sh, None)
    case ProvDeployed(id, r) =>
      Turn(sh.(db := SaveProvisioned(sh.db, id, r)), Some(ProvDone(id)))
    case ProvDone(id) => Turn(sh, Some(LiveTry(id)))
  }

  // The liveness check, retried until it succeeds or times out.
  function LiveTurn(sh: Shared, pc: Pc, ok: bool): Turn
    requires pc.Watching()
  {
    match pc
    case LiveTry(id) =>
      if !ok then Turn(sh, Some(FinWait(id, false)))
      else (match GetProvisioned(sh.db, id)
            case None => Turn(sh, Some(pc))
            case Some(v) => Turn(sh, Some(LiveProbe(id, v))))
    case LiveProbe(id, v) => Turn(sh, Some(if ok then LiveAnswered(id, v) else LiveTry(id)))
    case LiveAnswered(id, v) => Turn(sh.(db := SaveLive(sh.db, id, v.ToLive())), None)
  }

  // Asking the backend to remove the function, if it runs.
  function RemoveTurn(sh: Shared, pc: Pc, ok: bool): Turn
    requires pc.Removing()
  {
    match pc
    case FinHeld(id, o) =>
      (match GetRemovable(sh.db, id)
       case None => Turn(sh, Some(FinRecord(id, o, false)))
       case Some(_) => Turn(sh, Some(FinRemoving(id, o))))
    case FinRemoving(id, o) =>
      if ok
      then Turn(sh.(deployed := sh.deployed - {id}), Some(FinRecord(id, o, true)))
      else Turn(sh.(log := sh.log.(leaked := sh.log.leaked + {id})), Some(FinRecord(id, o, false)))
  }

  // Recording the end of the function, whatever the backend answered.
  function RecordTurn(sh: Shared, pc: Pc): Turn
    requires pc.Recording()
  {
    match pc
    case FinRecord(id, o, removed) =>
      (match GetFinishable(sh.db, id)
       case None => Turn(sh, Some(FinDone(id)))
       case Some(r) => Turn(sh, Some(FinFinishable(id, o, removed, r.ToFinished()))))
    case FinFinishable(id, o, removed, f) =>
      Turn(sh.(db := SaveFinished(sh.db, id, f)), Some(FinSaved(id)))
  }

  // Giving the resources back.
  function ReleaseTurn(sh: Shared, pc: Pc): Turn
    requires pc.Releasing()
  {
    match pc
    case FinSaved(id) =>
      (match GetFinished(sh.db, id)
       case None => Turn(sh, Some(FinDone(id)))
       case Some(f) => Turn(sh, Some(FinNoted(id, f))))
    case FinNoted(id, f) =>
      (match GetUsed(sh.used, f.node)
       case None => Turn(sh, Some(FinDone(id)))
       case Some(u) => Turn(sh, Some(FinUsed(id, f, u))))
    case FinUsed(id, f, u) =>
      if f.node !in sh.used then Turn(sh, Some(FinDone(id)))
      else Turn(sh.(used := sh.used[f.node := u.Minus(f.sla.Demand())],
                    log := sh.log.(released := sh.log.released + multiset{id})),
                Some(FinDone(id)))
    case FinDone(_) => Turn(sh, None)
  }

  function Takes(sh: Shared, pc: Pc, ok: bool): Turn {
    if pc.Waiting() then AcquireTurn(sh, pc)
    else if pc.Watching() then LiveTurn(sh, pc, ok)
    else if pc.Provisioning() then ProvisionTurn(sh, pc, ok)
    else if pc.Removing() then RemoveTurn(sh, pc, ok)
    else if pc.Recording() then RecordTurn(sh, pc)
    else if pc.Releasing() then ReleaseTurn(sh, pc)
    else PayTurn(sh, pc)
  }

  function BidTurn(sh: Shared, record: Record): Shared {
    sh.(db := Insert(sh.db, record))
  }

  // The timer task pops the front of the queue, whatever entry stands there,
  // and goes on as a finish callback.
  function FireTurn(sh: Shared, id: SlaId): Shared {
    sh.(timers := sh.timers - multiset{id},
        tasks := if sh.tasks == [] then [] else sh.tasks[1..],
        log := sh.log.(fired := sh.log.fired + [id],
                       wasted := if sh.tasks == [] then sh.log.wasted + 1 else sh.log.wasted))
  }

  ghost predicate Enabled(s: State, e: Event) {
    match e
    case Bids(record) =>
      // Ids are minted per auction, so a proposal never meets an older record.
      && record.Proposed?
      && record.sla.id !in s.shared.db
      && record.node in s.shared.used
      && record.sla.Demand().NonNegative()
    case PayArrives(_) => true
    case ProvisionArrives(_) => true
    case Fires(id) => id in s.shared.timers
    case Runs(t, _) =>
      && t in s.threads
      && (s.threads[t].Waiting() ==> s.permit == None)
  }

  // A thread gets the permit on leaving a wait, keeps it through its critical
  // section, and gives it back when it leaves the section or ends.
  function Settle(s: State, t: Tid, turn: Turn): State
    requires t in s.threads
  {
    State(
      turn.shared,
      if turn.next.Some? && turn.next.value.Critical() then Some(t)
      else if s.threads[t].Critical() then None
      else s.permit,
      if turn.next.Some? then s.threads[t := turn.next.value] else s.threads - {t},
      s.next,
      s.callbacks)
  }

  function Starts(s: State, pc: Pc): State {
    s.(threads := s.threads[s.next := pc], next := s.next + 1)
  }

  function Step(s: State, e: Event): State
    requires Enabled(s, e)
  {
    match e
    case Bids(record) => s.(shared := BidTurn(s.shared, record))
    case PayArrives(id) => Starts(s, PayWait(id))
    case ProvisionArrives(id) => Starts(s, ProvWait(id))
    case Fires(id) =>
      Starts(s, FinWait(id, true)).(
        shared := FireTurn(s.shared, id),
        callbacks := s.callbacks[id := s.next])
    case Runs(t, ok) => Settle(s, t, Takes(s.shared, s.threads[t], ok))
  }

  // A run is a sequence of events, each enabled where it is taken.
  ghost predicate CanRun(s: State, events: seq<Event>)
    decreases |events|
  {
    events == [] || (Enabled(s, events[0]) && CanRun(Step(s, events[0]), events[1..]))
  }

  function After(s: State, events: seq<Event>): State
    requires CanRun(s, events)
    decreases |events|
  {
    if events == [] then s else After(Step(s, events[0]), events[1..])
  }
}
