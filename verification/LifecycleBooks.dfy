/** Counting over whole runs: every payment is booked once and released once,
    starts one timer, and puts one entry on the cron queue. */
module LifecycleBooks {
  import opened Model
  import opened Tracking
  import opened Lifecycle
  import opened LifecycleInvariant

  // ---- reservations and releases ----

  ghost predicate BookedAt(sh: Shared, held: Option<Pc>, id: SlaId) {
    && sh.log.reserved[id] ==
       (if id in sh.db && !sh.db[id].Proposed? && !(held.Some? && held.value.OwesLedger() && held.value.id == id)
        then 1 else 0)
    && sh.log.released[id] ==
       (if id in sh.db && sh.db[id].Finished? && !(held.Some? && held.value.OwesRelease() && held.value.id == id)
        then 1 else 0)
  }

  // How a turn leaves the bookings.
  ghost predicate Books(t: Turn, id: SlaId) {
    BookedAt(t.shared, OnlyCritical(t.next), id)
  }

  lemma BookedAcquire(sh: Shared, pc: Pc, id: SlaId)
    requires pc.Waiting() && BookedAt(sh, OnlyCritical(Some(pc)), id)
    ensures Books(AcquireTurn(sh, pc), id)
  {
  }

  lemma BookedTurn(sh: Shared, pc: Pc, ok: bool, id: SlaId)
    requires Shape(sh) && Facts(sh, pc) && !pc.Watching() && BookedAt(sh, OnlyCritical(Some(pc)), id)
    ensures Books(Takes(sh, pc, ok), id)
  {
    if pc.Waiting() {
      BookedAcquire(sh, pc, id);
    } else if pc.Provisioning() {
      BookedProvision(sh, pc, ok, id);
    } else if pc.Removing() {
      BookedRemove(sh, pc, ok, id);
    } else if pc.Recording() {
      BookedRecord(sh, pc, id);
    } else if pc.Releasing() {
      BookedRelease(sh, pc, id);
    } else {
      BookedPay(sh, pc, id);
    }
  }

  lemma BookedPay(sh: Shared, pc: Pc, id: SlaId)
    requires Shape(sh) && Facts(sh, pc) && pc.Paying() && BookedAt(sh, OnlyCritical(Some(pc)), id)
    ensures Books(PayTurn(sh, pc), id)
  {
  }

  lemma BookedProvision(sh: Shared, pc: Pc, ok: bool, id: SlaId)
    requires Shape(sh) && Facts(sh, pc) && pc.Provisioning() && BookedAt(sh, OnlyCritical(Some(pc)), id)
    ensures Books(ProvisionTurn(sh, pc, ok), id)
  {
  }

  lemma BookedRemove(sh: Shared, pc: Pc, ok: bool, id: SlaId)
    requires Shape(sh) && Facts(sh, pc) && pc.Removing() && BookedAt(sh, OnlyCritical(Some(pc)), id)
    ensures Books(RemoveTurn(sh, pc, ok), id)
  {
  }

  lemma BookedRecord(sh: Shared, pc: Pc, id: SlaId)
    requires Shape(sh) && Facts(sh, pc) && pc.Recording() && BookedAt(sh, OnlyCritical(Some(pc)), id)
    ensures Books(RecordTurn(sh, pc), id)
  {
  }

  lemma BookedRelease(sh: Shared, pc: Pc, id: SlaId)
    requires Shape(sh) && Facts(sh, pc) && pc.Releasing() && BookedAt(sh, OnlyCritical(Some(pc)), id)
    ensures Books(ReleaseTurn(sh, pc), id)
  {
  }

  lemma BookedLive(sh: Shared, held: Option<Pc>, pc: Pc, ok: bool, id: SlaId)
    requires Facts(sh, pc) && pc.Watching() && BookedAt(sh, held, id)
    ensures BookedAt(LiveTurn(sh, pc, ok).shared, held, id)
  {
  }

  lemma BookedStep(s: State, e: Event, id: SlaId)
    requires Core(s) && Enabled(s, e) && BookedAt(s.shared, Held(s), id)
    ensures BookedAt(Step(s, e).shared, Held(Step(s, e)), id)
  {
    if !e.Runs? {
      HeldOther(s, e);
    } else {
      HeldRuns(s, e.thread, e.ok);
      if s.threads[e.thread].Watching() {
        BookedLive(s.shared, Held(s), s.threads[e.thread], e.ok, id);
      } else {
        BookedTurn(s.shared, s.threads[e.thread], e.ok, id);
      }
    }
  }

  // ---- timers ----

  ghost predicate TimedAt(sh: Shared, held: Option<Pc>, id: SlaId) {
    && sh.timers[id] + multiset(sh.log.fired)[id] <= 1
    && (id in sh.timers || id in sh.log.fired ==> id in sh.db && !sh.db[id].Proposed?)
    && (held.Some? && held.value.PayingUntimed(id) ==> id !in sh.timers && id !in sh.log.fired)
  }

  // How a turn leaves the timers.
  ghost predicate Times(t: Turn, id: SlaId) {
    TimedAt(t.shared, OnlyCritical(t.next), id)
  }

  lemma TimedAcquire(sh: Shared, pc: Pc, id: SlaId)
    requires pc.Waiting() && TimedAt(sh, OnlyCritical(Some(pc)), id)
    ensures Times(AcquireTurn(sh, pc), id)
  {
  }

  lemma TimedTurn(sh: Shared, pc: Pc, ok: bool, id: SlaId)
    requires Shape(sh) && Facts(sh, pc) && !pc.Watching() && TimedAt(sh, OnlyCritical(Some(pc)), id)
    ensures Times(Takes(sh, pc, ok), id)
  {
    if pc.Waiting() {
      TimedAcquire(sh, pc, id);
    } else if pc.Provisioning() {
      TimedProvision(sh, pc, ok, id);
    } else if pc.Removing() {
      TimedRemove(sh, pc, ok, id);
    } else if pc.Recording() {
      TimedRecord(sh, pc, id);
    } else if pc.Releasing() {
      TimedRelease(sh, pc, id);
    } else {
      TimedPay(sh, pc, id);
    }
  }

  lemma TimedProvision(sh: Shared, pc: Pc, ok: bool, id: SlaId)
    requires Shape(sh) && Facts(sh, pc) && pc.Provisioning() && TimedAt(sh, OnlyCritical(Some(pc)), id)
    ensures Times(ProvisionTurn(sh, pc, ok), id)
  {
  }

  lemma TimedRemove(sh: Shared, pc: Pc, ok: bool, id: SlaId)
    requires Shape(sh) && Facts(sh, pc) && pc.Removing() && TimedAt(sh, OnlyCritical(Some(pc)), id)
    ensures Times(RemoveTurn(sh, pc, ok), id)
  {
  }

  lemma TimedRecord(sh: Shared, pc: Pc, id: SlaId)
    requires Shape(sh) && Facts(sh, pc) && pc.Recording() && TimedAt(sh, OnlyCritical(Some(pc)), id)
    ensures Times(RecordTurn(sh, pc), id)
  {
  }

  lemma TimedRelease(sh: Shared, pc: Pc, id: SlaId)
    requires Shape(sh) && Facts(sh, pc) && pc.Releasing() && TimedAt(sh, OnlyCritical(Some(pc)), id)
    ensures Times(ReleaseTurn(sh, pc), id)
  {
  }

  // A payment creates its timer for a record that has none.
  lemma TimedSpawn(sh: Shared, pc: Pc, id: SlaId)
    requires Facts(sh, pc) && pc.PayRecorded? && TimedAt(sh, OnlyCritical(Some(pc)), id)
    ensures Times(PayTurn(sh, pc), id)
  {
  }

  lemma TimedSave(sh: Shared, pc: Pc, id: SlaId)
    requires Facts(sh, pc) && pc.PayChecked? && TimedAt(sh, OnlyCritical(Some(pc)), id)
    ensures Times(PayTurn(sh, pc), id)
  {
  }

  lemma TimedPay(sh: Shared, pc: Pc, id: SlaId)
    requires Shape(sh) && Facts(sh, pc) && pc.Paying() && TimedAt(sh, OnlyCritical(Some(pc)), id)
    ensures Times(PayTurn(sh, pc), id)
  {
    if pc.PayRecorded? {
      TimedSpawn(sh, pc, id);
    } else if pc.PayChecked? {
      TimedSave(sh, pc, id);
    }
  }

  lemma TimedLive(sh: Shared, held: Option<Pc>, pc: Pc, ok: bool, id: SlaId)
    requires Facts(sh, pc) && pc.Watching() && TimedAt(sh, held, id)
    ensures TimedAt(LiveTurn(sh, pc, ok).shared, held, id)
  {
  }

  lemma TimedFire(sh: Shared, held: Option<Pc>, which: SlaId, id: SlaId)
    requires which in sh.timers && TimedAt(sh, held, which) && TimedAt(sh, held, id)
    ensures TimedAt(FireTurn(sh, which), held, id)
  {
    assert multiset(sh.log.fired + [which]) == multiset(sh.log.fired) + multiset{which};
  }

  lemma TimedStep(s: State, e: Event, id: SlaId)
    requires Core(s) && Enabled(s, e)
    requires forall i :: TimedAt(s.shared, Held(s), i)
    ensures TimedAt(Step(s, e).shared, Held(Step(s, e)), id)
  {
    if !e.Runs? {
      HeldOther(s, e);
      if e.Fires? {
        TimedFire(s.shared, Held(s), e.id, id);
      }
    } else {
      HeldRuns(s, e.thread, e.ok);
      if s.threads[e.thread].Watching() {
        TimedLive(s.shared, Held(s), s.threads[e.thread], e.ok, id);
      } else {
        TimedTurn(s.shared, s.threads[e.thread], e.ok, id);
      }
    }
  }

  // ---- the cron queue ----

  // Outside payments no turn touches timers or the queue.
  lemma QuietTurn(sh: Shared, pc: Pc, ok: bool)
    requires !pc.Paying()
    ensures SameQueue(sh, Takes(sh, pc, ok).shared)
    ensures var next := OnlyCritical(Takes(sh, pc, ok).next); next.Some? ==> !next.value.PaySpawned?
  {
  }

  function Ids(tasks: seq<Task>): seq<SlaId> {
    seq(|tasks|, i requires 0 <= i < |tasks| => tasks[i].sla)
  }

  // A payment whose timer exists and whose queue entry does not.
  predicate Unpushed(held: Option<Pc>) {
    held.Some? && held.value.PaySpawned?
  }

  // The queue is a suffix of the entries ever created; it holds one entry per
  // sleeping timer, plus one for each pop that found the queue empty.
  ghost predicate QueueOk(sh: Shared, held: Option<Pc>) {
    && |sh.tasks| <= |sh.log.created|
    && sh.tasks == sh.log.created[|sh.log.created| - |sh.tasks|..]
    && |sh.tasks| + (if Unpushed(held) then 1 else 0) == |sh.timers| + sh.log.wasted
    && sh.log.wasted <= 1
  }

  lemma QueuePay(sh: Shared, pc: Pc)
    requires pc.Paying() && QueueOk(sh, Some(pc))
    ensures var t := PayTurn(sh, pc); OnlyCritical(t.next) == t.next && QueueOk(t.shared, t.next)
  {
  }

  lemma QueueFire(sh: Shared, held: Option<Pc>, id: SlaId)
    requires QueueOk(sh, held) && id in sh.timers
    ensures QueueOk(FireTurn(sh, id), held)
  {
  }

  // The same timers and the same queue.
  ghost predicate SameQueue(sh: Shared, after: Shared) {
    && after.timers == sh.timers && after.tasks == sh.tasks
    && after.log.created == sh.log.created && after.log.fired == sh.log.fired
    && after.log.wasted == sh.log.wasted
  }

  // Outside payments a turn keeps the queue, and nobody owes it an entry who
  // did not before.
  lemma QuietRuns(s: State, t: Tid, ok: bool)
    requires Core(s) && Enabled(s, Runs(t, ok)) && !s.threads[t].Paying()
    ensures SameQueue(s.shared, Step(s, Runs(t, ok)).shared)
    ensures || Held(Step(s, Runs(t, ok))) == Held(s)
            || (!Unpushed(Held(s)) && !Unpushed(Held(Step(s, Runs(t, ok)))))
  {
    HeldRuns(s, t, ok);
    QuietTurn(s.shared, s.threads[t], ok);
  }

  lemma QueueKept(sh: Shared, after: Shared, held: Option<Pc>, next: Option<Pc>)
    requires QueueOk(sh, held) && SameQueue(sh, after) && (next == held || (!Unpushed(held) && !Unpushed(next)))
    ensures QueueOk(after, next)
  {
  }

  // A payment holds the permit before its turn, and keeps it as long as it goes on.
  lemma PayRuns(s: State, t: Tid, ok: bool)
    requires Core(s) && Enabled(s, Runs(t, ok)) && s.threads[t].Paying()
    ensures Held(s) == Some(s.threads[t])
    ensures var turn := PayTurn(s.shared, s.threads[t]);
      OnlyCritical(turn.next) == turn.next ==>
        Step(s, Runs(t, ok)).shared == turn.shared && Held(Step(s, Runs(t, ok))) == turn.next
  {
    HeldRuns(s, t, ok);
  }

  lemma QueueStep(s: State, e: Event)
    requires Core(s) && Enabled(s, e) && QueueOk(s.shared, Held(s))
    ensures QueueOk(Step(s, e).shared, Held(Step(s, e)))
  {
    if !e.Runs? {
      HeldOther(s, e);
      if e.Fires? {
        QueueFire(s.shared, Held(s), e.id);
      }
    } else if s.threads[e.thread].Paying() {
      PayRuns(s, e.thread, e.ok);
      QueuePay(s.shared, s.threads[e.thread]);
    } else {
      QuietRuns(s, e.thread, e.ok);
      QueueKept(s.shared, Step(s, e).shared, Held(s), Held(Step(s, e)));
    }
  }

  // One entry is created for each timer, asleep or fired.
  ghost predicate EntriesAt(sh: Shared, held: Option<Pc>, id: SlaId) {
    multiset(Ids(sh.log.created))[id] + (if Unpushed(held) && held.value.id == id then 1 else 0) ==
    sh.timers[id] + multiset(sh.log.fired)[id]
  }

  lemma IdsPush(tasks: seq<Task>, task: Task)
    ensures multiset(Ids(tasks + [task])) == multiset(Ids(tasks)) + multiset{task.sla}
  {
    assert Ids(tasks + [task]) == Ids(tasks) + [task.sla];
  }

  lemma EntriesPay(sh: Shared, pc: Pc, id: SlaId)
    requires pc.Paying() && EntriesAt(sh, Some(pc), id)
    ensures var t := PayTurn(sh, pc); OnlyCritical(t.next) == t.next && EntriesAt(t.shared, t.next, id)
  {
    if pc.PaySpawned? {
      IdsPush(sh.log.created, Task(pc.id, pc.rec.node));
    }
  }

  lemma EntriesKept(sh: Shared, after: Shared, held: Option<Pc>, next: Option<Pc>, id: SlaId)
    requires EntriesAt(sh, held, id) && SameQueue(sh, after)
    requires next == held || (!Unpushed(held) && !Unpushed(next))
    ensures EntriesAt(after, next, id)
  {
  }

  lemma EntriesFire(sh: Shared, held: Option<Pc>, which: SlaId, id: SlaId)
    requires which in sh.timers && EntriesAt(sh, held, id)
    ensures EntriesAt(FireTurn(sh, which), held, id)
  {
    assert multiset(sh.log.fired + [which]) == multiset(sh.log.fired) + multiset{which};
  }

  lemma EntriesStep(s: State, e: Event, id: SlaId)
    requires Core(s) && Enabled(s, e) && EntriesAt(s.shared, Held(s), id)
    ensures EntriesAt(Step(s, e).shared, Held(Step(s, e)), id)
  {
    if !e.Runs? {
      HeldOther(s, e);
      if e.Fires? {
        EntriesFire(s.shared, Held(s), e.id, id);
      }
    } else if s.threads[e.thread].Paying() {
      PayRuns(s, e.thread, e.ok);
      EntriesPay(s.shared, s.threads[e.thread], id);
    } else {
      QuietRuns(s, e.thread, e.ok);
      EntriesKept(s.shared, Step(s, e).shared, Held(s), Held(Step(s, e)), id);
    }
  }

  // ---- every active reservation will expire ----

  predicate ActiveIn(db: Database, id: SlaId) {
    id in db && db[id].Active()
  }

  ghost predicate CoveredAt(s: State, id: SlaId) {
    ActiveIn(s.shared.db, id) ==>
      || id in s.shared.timers
      || (Held(s).Some? && Held(s).value.PayingUntimed(id))
      || (id in s.callbacks && s.callbacks[id] in s.threads && s.threads[s.callbacks[id]].Expiring(id))
  }

  // A turn makes a record active only by a payment that then owes a timer.
  ghost predicate Activates(sh: Shared, t: Turn, id: SlaId) {
    ActiveIn(t.shared.db, id) ==> ActiveIn(sh.db, id) || (t.next.Some? && t.next.value.PayingUntimed(id))
  }

  ghost predicate StaysIdle(sh: Shared, t: Turn, id: SlaId) {
    ActiveIn(t.shared.db, id) ==> ActiveIn(sh.db, id)
  }

  lemma PayIdle(sh: Shared, pc: Pc, id: SlaId)
    requires pc.Paying() && !pc.PayChecked?
    ensures StaysIdle(sh, PayTurn(sh, pc), id)
  {
  }

  lemma ProvisionIdle(sh: Shared, pc: Pc, ok: bool, id: SlaId)
    requires Facts(sh, pc) && pc.Provisioning()
    ensures StaysIdle(sh, ProvisionTurn(sh, pc, ok), id)
  {
  }

  lemma LiveIdle(sh: Shared, pc: Pc, ok: bool, id: SlaId)
    requires Facts(sh, pc) && pc.Watching()
    ensures StaysIdle(sh, LiveTurn(sh, pc, ok), id)
  {
  }

  lemma FinishIdle(sh: Shared, pc: Pc, ok: bool, id: SlaId)
    requires Facts(sh, pc)
    ensures pc.Removing() ==> StaysIdle(sh, RemoveTurn(sh, pc, ok), id)
    ensures pc.Recording() ==> StaysIdle(sh, RecordTurn(sh, pc), id)
    ensures pc.Releasing() ==> StaysIdle(sh, ReleaseTurn(sh, pc), id)
  {
  }

  // Only the tracking write of a payment makes a record active.
  lemma NoNewActivity(sh: Shared, pc: Pc, ok: bool, id: SlaId)
    requires Facts(sh, pc) && !pc.PayChecked?
    ensures StaysIdle(sh, Takes(sh, pc, ok), id)
  {
    if pc.Watching() {
      LiveIdle(sh, pc, ok, id);
    } else if pc.Provisioning() {
      ProvisionIdle(sh, pc, ok, id);
    } else if pc.Removing() || pc.Recording() || pc.Releasing() {
      FinishIdle(sh, pc, ok, id);
    } else if pc.Paying() {
      PayIdle(sh, pc, id);
    }
  }

  lemma TurnActivity(sh: Shared, pc: Pc, ok: bool, id: SlaId)
    requires Facts(sh, pc)
    ensures Activates(sh, Takes(sh, pc, ok), id)
  {
    if !pc.PayChecked? {
      NoNewActivity(sh, pc, ok, id);
    }
  }

  lemma ExpiringTurn(sh: Shared, pc: Pc, ok: bool, id: SlaId)
    requires Facts(sh, pc) && pc.Expiring(id)
    ensures var t := Takes(sh, pc, ok);
      ActiveIn(t.shared.db, id) ==> t.next.Some? && t.next.value.Expiring(id)
  {
  }

  lemma UntimedTurn(sh: Shared, pc: Pc, ok: bool, id: SlaId)
    requires Facts(sh, pc) && pc.PayingUntimed(id)
    ensures var t := Takes(sh, pc, ok);
      (t.next.Some? && t.next.value.PayingUntimed(id)) || id in t.shared.timers
  {
  }

  lemma TimersGrow(sh: Shared, pc: Pc, ok: bool, id: SlaId)
    ensures id in sh.timers ==> id in Takes(sh, pc, ok).shared.timers
  {
    if !pc.Paying() {
      QuietTurn(sh, pc, ok);
    }
  }

  lemma CoveredRuns(s: State, t: Tid, ok: bool, id: SlaId)
    requires Core(s) && Enabled(s, Runs(t, ok)) && CoveredAt(s, id)
    ensures CoveredAt(Step(s, Runs(t, ok)), id)
  {
    var pc := s.threads[t];
    HeldRuns(s, t, ok);
    TurnActivity(s.shared, pc, ok, id);
    TimersGrow(s.shared, pc, ok, id);
    if pc.Expiring(id) {
      ExpiringTurn(s.shared, pc, ok, id);
    }
    if pc.PayingUntimed(id) {
      UntimedTurn(s.shared, pc, ok, id);
    }
  }

  lemma CoveredStep(s: State, e: Event, id: SlaId)
    requires Core(s) && Enabled(s, e) && CoveredAt(s, id)
    ensures CoveredAt(Step(s, e), id)
  {
    if e.Runs? {
      CoveredRuns(s, e.thread, e.ok, id);
    } else {
      HeldOther(s, e);
    }
  }
}
