/** What every step of the life cycle keeps. */
module LifecycleInvariant {
  import opened Model
  import opened Tracking
  import opened Lifecycle

  ghost predicate Shape(sh: Shared) {
    && sh.used.Keys == sh.available.Keys
    && forall id :: id in sh.db ==>
         && sh.db[id].sla.id == id
         && sh.db[id].node in sh.used
         && sh.db[id].sla.Demand().NonNegative()
  }

  // One thread at most is between its acquisition and its release.
  ghost predicate Mutex(s: State) {
    && (forall t :: t in s.threads ==> t < s.next && (s.threads[t].Critical() <==> s.permit == Some(t)))
    && (s.permit.Some? ==> s.permit.value in s.threads)
  }

  // What a thread remembers is still true of the shared state.
  ghost predicate Facts(sh: Shared, pc: Pc) {
    match pc
    case PayProposal(id, p) => id in sh.db && sh.db[id] == p && p.Proposed?
    case PayUsed(id, p, u) => id in sh.db && sh.db[id] == p && p.Proposed? && GetUsed(sh.used, p.node) == Some(u)
    case PayChecked(id, p, u) =>
      && id in sh.db && sh.db[id] == p && p.Proposed? && GetUsed(sh.used, p.node) == Some(u)
      && p.node in sh.available && Satisfiable(u, sh.available[p.node], p.sla)
    case PaySaved(id, p, u) =>
      && id in sh.db && sh.db[id] == p.ToPaid() && GetUsed(sh.used, p.node) == Some(u)
      && p.node in sh.available && Satisfiable(u, sh.available[p.node], p.sla)
    case PayConfirmed(id, r, u) =>
      && id in sh.db && sh.db[id] == r && r.Paid? && GetUsed(sh.used, r.node) == Some(u)
      && r.node in sh.available && Satisfiable(u, sh.available[r.node], r.sla)
    case PayRecorded(id, r) => id in sh.db && sh.db[id] == r && r.Paid?
    case PaySpawned(id, r) => id in sh.db && sh.db[id] == r && r.Paid?
    case ProvPaid(id, r) => id in sh.db && sh.db[id] == r && r.Paid?
    case ProvDeployed(id, r) => id in sh.db && sh.db[id].Paid? && r == sh.db[id].ToProvisioned(id)
    case LiveProbe(id, v) => id in sh.db && v.SameOffer(sh.db[id]) && v.Rank() <= sh.db[id].Rank()
    case LiveAnswered(id, v) => id in sh.db && v.SameOffer(sh.db[id]) && v.Rank() <= sh.db[id].Rank()
    case FinRemoving(id, _) => id in sh.db && sh.db[id].Running()
    case FinRecord(id, _, removed) => removed ==> id in sh.db && sh.db[id].Running()
    case FinFinishable(id, _, removed, f) =>
      id in sh.db && sh.db[id].Active() && f == sh.db[id].ToFinished() && (removed ==> sh.db[id].Running())
    case FinSaved(id) => id in sh.db && sh.db[id].Finished?
    case FinNoted(id, f) => id in sh.db && sh.db[id] == f && f.Finished?
    case FinUsed(id, f, u) => id in sh.db && sh.db[id] == f && f.Finished? && GetUsed(sh.used, f.node) == Some(u)
    case _ => true
  }

  ghost predicate AllFacts(s: State) {
    forall t :: t in s.threads ==> Facts(s.shared, s.threads[t])
  }

  ghost predicate Core(s: State) {
    Shape(s.shared) && Mutex(s) && AllFacts(s)
  }

  // ---- one turn ----

  // What a turn keeps and establishes.
  ghost predicate Follows(sh: Shared, pc: Pc, t: Turn) {
    && Shape(t.shared) && Advances(sh.db, t.shared.db)
    && (t.next.Some? ==> Facts(t.shared, t.next.value))
    && (t.next.Some? && t.next.value.Critical() ==> !pc.Watching())
    && (pc.Waiting() ==> t.next.Some? && t.next.value.Critical())
  }

  lemma PayReadFacts(sh: Shared, pc: Pc)
    requires Shape(sh) && Facts(sh, pc) && (pc.PayHeld? || pc.PayProposal? || pc.PayUsed?)
    ensures Follows(sh, pc, PayTurn(sh, pc))
  {
  }

  lemma PayWriteFacts(sh: Shared, pc: Pc)
    requires Shape(sh) && Facts(sh, pc) && (pc.PayChecked? || pc.PayConfirmed?)
    ensures Follows(sh, pc, PayTurn(sh, pc))
  {
  }

  lemma PayTailFacts(sh: Shared, pc: Pc)
    requires Shape(sh) && Facts(sh, pc) && (pc.PaySaved? || pc.PayRecorded? || pc.PaySpawned? || pc.PayDone?)
    ensures Follows(sh, pc, PayTurn(sh, pc))
  {
  }

  lemma PayGoesOn(sh: Shared, pc: Pc)
    requires pc.Paying()
    ensures var next := PayTurn(sh, pc).next; next.Some? ==> next.value.Paying()
  {
  }

  lemma PayTurnFacts(sh: Shared, pc: Pc)
    requires Shape(sh) && Facts(sh, pc) && pc.Paying()
    ensures Follows(sh, pc, PayTurn(sh, pc))
    ensures var next := PayTurn(sh, pc).next; next.Some? ==> next.value.Paying()
  {
    PayGoesOn(sh, pc);
    if pc.PayHeld? || pc.PayProposal? || pc.PayUsed? {
      PayReadFacts(sh, pc);
    } else if pc.PayChecked? || pc.PayConfirmed? {
      PayWriteFacts(sh, pc);
    } else {
      PayTailFacts(sh, pc);
    }
  }

  lemma ProvisionTurnFacts(sh: Shared, pc: Pc, ok: bool)
    requires Shape(sh) && Facts(sh, pc) && pc.Provisioning()
    ensures Follows(sh, pc, ProvisionTurn(sh, pc, ok))
    ensures var next := ProvisionTurn(sh, pc, ok).next; next.Some? ==> next.value.Provisioning() || next.value.LiveTry?
  {
  }

  lemma SaveLiveFacts(sh: Shared, id: SlaId, v: ProvisionedRecord)
    requires Shape(sh) && id in sh.db && v.SameOffer(sh.db[id])
    ensures var after := sh.(db := SaveLive(sh.db, id, v.ToLive()));
      Shape(after) && Advances(sh.db, after.db)
  {
  }

  lemma LiveTurnFacts(sh: Shared, pc: Pc, ok: bool)
    requires Shape(sh) && Facts(sh, pc) && pc.Watching()
    ensures Follows(sh, pc, LiveTurn(sh, pc, ok))
  {
    if pc.LiveTry? {
      if ok && GetProvisioned(sh.db, pc.id).Some? {
        assert LiveTurn(sh, pc, ok) == Turn(sh, Some(LiveProbe(pc.id, GetProvisioned(sh.db, pc.id).value)));
        assert Facts(sh, LiveProbe(pc.id, GetProvisioned(sh.db, pc.id).value));
      }
    } else if pc.LiveProbe? {
    } else {
      SaveLiveFacts(sh, pc.id, pc.seen);
    }
  }

  lemma SaveFinishedFacts(sh: Shared, id: SlaId)
    requires Shape(sh) && id in sh.db && sh.db[id].Active()
    ensures var after := sh.(db := SaveFinished(sh.db, id, sh.db[id].ToFinished()));
      Shape(after) && Advances(sh.db, after.db)
  {
  }

  lemma RemoveTurnFacts(sh: Shared, pc: Pc, ok: bool)
    requires Shape(sh) && Facts(sh, pc) && pc.Removing()
    ensures Follows(sh, pc, RemoveTurn(sh, pc, ok))
  {
  }

  lemma RecordTurnFacts(sh: Shared, pc: Pc)
    requires Shape(sh) && Facts(sh, pc) && pc.Recording()
    ensures Follows(sh, pc, RecordTurn(sh, pc))
  {
    if pc.FinFinishable? {
      SaveFinishedFacts(sh, pc.id);
    }
  }

  lemma ReleaseTurnFacts(sh: Shared, pc: Pc)
    requires Shape(sh) && Facts(sh, pc) && pc.Releasing()
    ensures Follows(sh, pc, ReleaseTurn(sh, pc))
  {
  }

  lemma AcquireFollows(sh: Shared, pc: Pc)
    requires Shape(sh) && pc.Waiting()
    ensures Follows(sh, pc, AcquireTurn(sh, pc))
  {
  }

  lemma TurnFacts(sh: Shared, pc: Pc, ok: bool)
    requires Shape(sh) && Facts(sh, pc)
    ensures Follows(sh, pc, Takes(sh, pc, ok))
  {
    if pc.Waiting() {
      AcquireFollows(sh, pc);
    } else if pc.Watching() {
      LiveTurnFacts(sh, pc, ok);
    } else if pc.Provisioning() {
      ProvisionTurnFacts(sh, pc, ok);
    } else if pc.Removing() {
      RemoveTurnFacts(sh, pc, ok);
    } else if pc.Recording() {
      RecordTurnFacts(sh, pc);
    } else if pc.Releasing() {
      ReleaseTurnFacts(sh, pc);
    } else {
      PayTurnFacts(sh, pc);
    }
  }

  // ---- the other threads ----

  // A liveness check only relies on the offer and on a rank already reached.
  lemma OutsideFacts(before: Shared, after: Shared, other: Pc)
    requires Facts(before, other) && !other.Critical()
    requires Advances(before.db, after.db)
    ensures Facts(after, other)
  {
  }

  lemma BidFacts(sh: Shared, record: Record, other: Pc)
    requires Facts(sh, other) && record.sla.id !in sh.db
    ensures Facts(BidTurn(sh, record), other)
  {
  }

  lemma FireFacts(sh: Shared, id: SlaId, other: Pc)
    requires Facts(sh, other)
    ensures Facts(FireTurn(sh, id), other)
  {
  }

  // The unlocked liveness check cannot falsify what the permit holder relies on.
  lemma LiveKeepsHolder(sh: Shared, pc: Pc, ok: bool, holder: Pc)
    requires Shape(sh) && Facts(sh, pc) && Facts(sh, holder)
    requires pc.Watching() && holder.Critical()
    ensures Facts(LiveTurn(sh, pc, ok).shared, holder)
  {
  }

  lemma BystanderFacts(s: State, t: Tid, ok: bool, other: Tid)
    requires Core(s) && Enabled(s, Runs(t, ok)) && other in s.threads && other != t
    ensures Facts(Takes(s.shared, s.threads[t], ok).shared, s.threads[other])
  {
    TurnFacts(s.shared, s.threads[t], ok);
    if !s.threads[other].Critical() {
      OutsideFacts(s.shared, Takes(s.shared, s.threads[t], ok).shared, s.threads[other]);
    } else {
      assert s.permit == Some(other);
      LiveKeepsHolder(s.shared, s.threads[t], ok, s.threads[other]);
    }
  }

  lemma RunsCore(s: State, t: Tid, ok: bool)
    requires Core(s) && Enabled(s, Runs(t, ok))
    ensures Core(Step(s, Runs(t, ok)))
    ensures Advances(s.shared.db, Step(s, Runs(t, ok)).shared.db)
  {
    TurnFacts(s.shared, s.threads[t], ok);
    var after := Step(s, Runs(t, ok));
    forall other | other in after.threads
      ensures Facts(after.shared, after.threads[other])
    {
      if other != t {
        BystanderFacts(s, t, ok, other);
      }
    }
  }

  lemma BidsCore(s: State, record: Record)
    requires Core(s) && Enabled(s, Bids(record))
    ensures Core(s.(shared := BidTurn(s.shared, record)))
  {
    forall t | t in s.threads ensures Facts(BidTurn(s.shared, record), s.threads[t]) {
      BidFacts(s.shared, record, s.threads[t]);
    }
  }

  lemma StartsCore(s: State, pc: Pc)
    requires Core(s) && pc.Waiting()
    ensures Core(Starts(s, pc))
  {
  }

  lemma FiresCore(s: State, id: SlaId)
    requires Core(s)
    ensures Core(s.(shared := FireTurn(s.shared, id)))
  {
    forall t | t in s.threads ensures Facts(FireTurn(s.shared, id), s.threads[t]) {
      FireFacts(s.shared, id, s.threads[t]);
    }
  }

  lemma CoreStep(s: State, e: Event)
    requires Core(s) && Enabled(s, e)
    ensures Core(Step(s, e))
    ensures Advances(s.shared.db, Step(s, e).shared.db)
  {
    match e
    case Bids(record) => BidsCore(s, record);
    case PayArrives(id) => StartsCore(s, PayWait(id));
    case ProvisionArrives(id) => StartsCore(s, ProvWait(id));
    case Fires(id) =>
      FiresCore(s, id);
      StartsCore(s.(shared := FireTurn(s.shared, id)), FinWait(id, true));
    case Runs(t, ok) => RunsCore(s, t, ok);
  }

  // Where the permit holder stands, if anyone holds it.
  ghost function Held(s: State): Option<Pc> {
    if s.permit.Some? && s.permit.value in s.threads then Some(s.threads[s.permit.value]) else None
  }

  function OnlyCritical(pc: Option<Pc>): Option<Pc> {
    if pc.Some? && pc.value.Critical() then pc else None
  }

  lemma HeldFacts(s: State)
    requires Core(s)
    ensures Held(s).Some? ==> Held(s).value.Critical() && Facts(s.shared, Held(s).value)
  {
  }

  lemma HeldSettle(s: State, t: Tid, turn: Turn)
    requires Core(s) && t in s.threads && (s.threads[t].Waiting() ==> s.permit == None)
    requires turn.next.Some? && turn.next.value.Critical() ==> !s.threads[t].Watching()
    ensures s.threads[t].Watching() ==> Held(Settle(s, t, turn)) == Held(s)
    ensures !s.threads[t].Watching() ==>
      && Held(s) == OnlyCritical(Some(s.threads[t]))
      && Held(Settle(s, t, turn)) == OnlyCritical(turn.next)
  {
  }

  lemma HeldRuns(s: State, t: Tid, ok: bool)
    requires Core(s) && Enabled(s, Runs(t, ok))
    ensures Held(s).Some? ==> Held(s).value.Critical() && Facts(s.shared, Held(s).value)
    ensures s.threads[t].Watching() ==> Held(Step(s, Runs(t, ok))) == Held(s)
    ensures !s.threads[t].Watching() ==>
      && Held(s) == OnlyCritical(Some(s.threads[t]))
      && Held(Step(s, Runs(t, ok))) == OnlyCritical(Takes(s.shared, s.threads[t], ok).next)
  {
    TurnFacts(s.shared, s.threads[t], ok);
    HeldSettle(s, t, Takes(s.shared, s.threads[t], ok));
  }

  lemma HeldOther(s: State, e: Event)
    requires Core(s) && Enabled(s, e) && !e.Runs?
    ensures Held(s).Some? ==> Held(s).value.Critical() && Facts(s.shared, Held(s).value)
    ensures Held(Step(s, e)) == Held(s)
  {
  }
}
