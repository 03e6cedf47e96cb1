/** The ledger of used resources agrees with the tracked functions, entry by
    entry, in every state the machine reaches. */
module LifecycleLedger {
  import opened Model
  import opened Tracking
  import opened Occupancy
  import opened Lifecycle
  import opened LifecycleInvariant

  // The reservation whose record is already Paid and whose amount is not yet
  // in the ledger.
  function Unwritten(held: Option<Pc>, n: K8sNode, d: Dimension): real {
    if held.Some? && held.value.OwesLedger() && held.value.rec.node == n
    then held.value.rec.sla.Demand().Of(d) else 0.0
  }

  // The reservation whose record is already Finished and whose amount is still
  // in the ledger.
  function Unreleased(db: Database, held: Option<Pc>, n: K8sNode, d: Dimension): real {
    if held.Some? && held.value.OwesRelease() && held.value.id in db && db[held.value.id].node == n
    then db[held.value.id].sla.Demand().Of(d) else 0.0
  }

  ghost predicate BalancedAt(sh: Shared, held: Option<Pc>, n: K8sNode, d: Dimension)
    requires n in sh.used
  {
    sh.used[n].Of(d) + Unwritten(held, n, d) == Load(sh.db, n, d) + Unreleased(sh.db, held, n, d)
  }

  ghost predicate Balanced(sh: Shared, held: Option<Pc>) {
    forall n, d :: n in sh.used ==> BalancedAt(sh, held, n, d)
  }

  // Lemmas named ...At speak of one k8s node.

  // A turn leaves the ledger balanced.
  ghost predicate Balances(t: Turn, n: K8sNode, d: Dimension) {
    n in t.shared.used && BalancedAt(t.shared, OnlyCritical(t.next), n, d)
  }

  lemma LoadKept(db: Database, id: SlaId, r: Record, n: K8sNode, d: Dimension)
    requires id in db ==> Weight(r, n, d) == Weight(db[id], n, d)
    requires id !in db ==> Weight(r, n, d) == 0.0
    ensures Load(db[id := r], n, d) == Load(db, n, d)
  {
    LoadUpdate(db, id, r, n, d);
  }

  lemma BidAt(sh: Shared, held: Option<Pc>, record: Record, n: K8sNode, d: Dimension)
    requires n in sh.used && BalancedAt(sh, held, n, d)
    requires record.Proposed? && record.sla.id !in sh.db
    requires held.Some? ==> Facts(sh, held.value)
    ensures BalancedAt(BidTurn(sh, record), held, n, d)
  {
    LoadKept(sh.db, record.sla.id, record, n, d);
  }

  // A move that keeps the offer and stays active keeps the balance.
  lemma RefreshAt(sh: Shared, held: Option<Pc>, id: SlaId, r: Record, n: K8sNode, d: Dimension)
    requires n in sh.used && BalancedAt(sh, held, n, d)
    requires id in sh.db && r.SameOffer(sh.db[id]) && r.Active() && sh.db[id].Active()
    ensures BalancedAt(sh.(db := sh.db[id := r]), held, n, d)
  {
    LoadKept(sh.db, id, r, n, d);
  }

  lemma LiveAt(sh: Shared, held: Option<Pc>, pc: Pc, ok: bool, n: K8sNode, d: Dimension)
    requires Facts(sh, pc) && pc.Watching() && n in sh.used && BalancedAt(sh, held, n, d)
    ensures BalancedAt(LiveTurn(sh, pc, ok).shared, held, n, d)
  {
    if pc.LiveAnswered? && sh.db[pc.id].Provisioned? {
      RefreshAt(sh, held, pc.id, pc.seen.ToLive(), n, d);
    } else {
      assert LiveTurn(sh, pc, ok).shared == sh;
    }
  }

  lemma SavePaidAt(sh: Shared, pc: Pc, n: K8sNode, d: Dimension)
    requires Facts(sh, pc) && pc.PayChecked? && n in sh.used && BalancedAt(sh, OnlyCritical(Some(pc)), n, d)
    ensures Balances(PayTurn(sh, pc), n, d)
  {
    LoadUpdate(sh.db, pc.id, pc.rec.ToPaid(), n, d);
  }

  lemma PayAt(sh: Shared, pc: Pc, n: K8sNode, d: Dimension)
    requires Facts(sh, pc) && pc.Paying() && n in sh.used && BalancedAt(sh, OnlyCritical(Some(pc)), n, d)
    ensures Balances(PayTurn(sh, pc), n, d)
  {
    if pc.PayChecked? {
      SavePaidAt(sh, pc, n, d);
    }
  }

  lemma ProvisionAt(sh: Shared, pc: Pc, ok: bool, n: K8sNode, d: Dimension)
    requires Facts(sh, pc) && pc.Provisioning() && n in sh.used && BalancedAt(sh, OnlyCritical(Some(pc)), n, d)
    ensures Balances(ProvisionTurn(sh, pc, ok), n, d)
  {
    if pc.ProvDeployed? {
      RefreshAt(sh, Some(pc), pc.id, pc.rec, n, d);
    }
  }

  lemma RemoveAt(sh: Shared, pc: Pc, ok: bool, n: K8sNode, d: Dimension)
    requires Facts(sh, pc) && pc.Removing() && n in sh.used && BalancedAt(sh, OnlyCritical(Some(pc)), n, d)
    ensures Balances(RemoveTurn(sh, pc, ok), n, d)
  {
  }

  lemma RecordAt(sh: Shared, pc: Pc, n: K8sNode, d: Dimension)
    requires Facts(sh, pc) && pc.Recording() && n in sh.used && BalancedAt(sh, OnlyCritical(Some(pc)), n, d)
    ensures Balances(RecordTurn(sh, pc), n, d)
  {
    if pc.FinFinishable? {
      LoadUpdate(sh.db, pc.id, pc.rec, n, d);
    }
  }

  lemma ReleaseAt(sh: Shared, pc: Pc, n: K8sNode, d: Dimension)
    requires Facts(sh, pc) && pc.Releasing() && n in sh.used && BalancedAt(sh, OnlyCritical(Some(pc)), n, d)
    ensures Balances(ReleaseTurn(sh, pc), n, d)
  {
  }

  lemma AcquireAt(sh: Shared, pc: Pc, n: K8sNode, d: Dimension)
    requires pc.Waiting() && n in sh.used && BalancedAt(sh, OnlyCritical(Some(pc)), n, d)
    ensures Balances(AcquireTurn(sh, pc), n, d)
  {
  }

  lemma TurnAt(sh: Shared, pc: Pc, ok: bool, n: K8sNode, d: Dimension)
    requires Facts(sh, pc) && !pc.Watching() && n in sh.used && BalancedAt(sh, OnlyCritical(Some(pc)), n, d)
    ensures Balances(Takes(sh, pc, ok), n, d)
  {
    if pc.Waiting() {
      AcquireAt(sh, pc, n, d);
    } else if pc.Provisioning() {
      ProvisionAt(sh, pc, ok, n, d);
    } else if pc.Removing() {
      RemoveAt(sh, pc, ok, n, d);
    } else if pc.Recording() {
      RecordAt(sh, pc, n, d);
    } else if pc.Releasing() {
      ReleaseAt(sh, pc, n, d);
    } else {
      PayAt(sh, pc, n, d);
    }
  }

  lemma BalancedStepAt(s: State, e: Event, n: K8sNode, d: Dimension)
    requires Core(s) && Enabled(s, e) && n in s.shared.used && BalancedAt(s.shared, Held(s), n, d)
    ensures var s' := Step(s, e); n in s'.shared.used && BalancedAt(s'.shared, Held(s'), n, d)
  {
    match e
    case Bids(record) =>
      HeldOther(s, e);
      BidAt(s.shared, Held(s), record, n, d);
    case Runs(t, ok) =>
      HeldRuns(s, t, ok);
      if s.threads[t].Watching() {
        LiveAt(s.shared, Held(s), s.threads[t], ok, n, d);
      } else {
        TurnAt(s.shared, s.threads[t], ok, n, d);
      }
    case _ => HeldOther(s, e);
  }
}
