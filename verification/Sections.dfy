/** The critical sections of the function service as single moves: what a
    payment, a provisioning or a finish does when the permit keeps every other
    one out. The state machine taken step by step does exactly this. */
module Sections {
  import opened Model
  import opened Tracking
  import opened Lifecycle

  // What a section finds when it starts: amounts are not negative and whatever
  // an active record asks for is in the ledger of its node.
  ghost predicate Coherent(db: Database, used: Ledger, available: Ledger) {
    && used.Keys == available.Keys
    && (forall n :: n in used ==> used[n].NonNegative())
    && (forall id :: id in db ==>
          && db[id].sla.id == id
          && db[id].sla.Demand().NonNegative()
          && db[id].node in used
          && (db[id].Active() ==> used[db[id].node].Minus(db[id].sla.Demand()).NonNegative()))
  }

  // The outcome of a section on the database and the ledger.
  datatype Outcome = Outcome(db: Database, used: Ledger, ok: bool)

  function PaySection(db: Database, used: Ledger, available: Ledger, id: SlaId): Outcome {
    match GetProposed(db, id)
    case None => Outcome(db, used, false)
    case Some(p) =>
      if p.node in used && p.node in available && RoomFor(used[p.node], available[p.node], p.sla)
      then Outcome(db[id := p.ToPaid()], used[p.node := used[p.node].Plus(p.sla.Demand())], true)
      else Outcome(db, used, false)
  }

  function ProvisionSection(db: Database, id: SlaId, deployed: bool): (r: (Database, bool)) {
    match GetPaid(db, id)
    case None => (db, false)
    case Some(p) => if deployed then (db[id := p.ToProvisioned(id)], true) else (db, false)
  }

  // `ok` also needs the backend's consent when it had to remove something.
  function FinishSection(db: Database, used: Ledger, id: SlaId, removed: bool): Outcome {
    match GetFinishable(db, id)
    case None => Outcome(db, used, false)
    case Some(r) =>
      var finished := db[id := r.ToFinished()];
      if r.node in used
      then Outcome(finished, used[r.node := used[r.node].Minus(r.sla.Demand())], r.Running() ==> removed)
      else Outcome(finished, used, false)
  }

  // Which turn a thread takes.
  lemma PaysOn(sh: Shared, pc: Pc, ok: bool)
    requires pc.Paying()
    ensures Takes(sh, pc, ok) == PayTurn(sh, pc)
  {
  }

  lemma FinishesOn(sh: Shared, pc: Pc, ok: bool)
    ensures pc.Releasing() ==> Takes(sh, pc, ok) == ReleaseTurn(sh, pc)
    ensures pc.Recording() ==> Takes(sh, pc, ok) == RecordTurn(sh, pc)
    ensures pc.Removing() ==> Takes(sh, pc, ok) == RemoveTurn(sh, pc, ok)
  {
  }

  function PayLeft(pc: Pc): nat
    requires pc.Paying()
  {
    match pc
    case PayHeld(_) => 9
    case PayProposal(_, _) => 8
    case PayUsed(_, _, _) => 7
    case PayChecked(_, _, _) => 6
    case PaySaved(_, _, _) => 5
    case PayConfirmed(_, _, _) => 4
    case PayRecorded(_, _) => 3
    case PaySpawned(_, _) => 2
    case PayDone(_) => 1
  }

  // A payment that keeps moving, undisturbed, until it drops the permit.
  function PayAlone(sh: Shared, pc: Pc): Shared
    requires pc.Paying()
    decreases PayLeft(pc)
  {
    var t := PayTurn(sh, pc);
    if t.next.Some? then PayAlone(t.shared, t.next.value) else t.shared
  }

  lemma {:induction false} PayTail(sh: Shared, id: SlaId, r: Record)
    ensures PayAlone(sh, PayRecorded(id, r)) ==
            PayTurn(PayTurn(sh, PayRecorded(id, r)).shared, PaySpawned(id, r)).shared
  {
    var spawned := PayTurn(sh, PayRecorded(id, r)).shared;
    var pushed := PayTurn(spawned, PaySpawned(id, r)).shared;
    assert PayAlone(pushed, PayDone(id)) == pushed;
  }

  lemma {:induction false} PayLedgerWrite(sh: Shared, id: SlaId, r: Record, u: Resources)
    requires id in sh.db && sh.db[id] == r && r.Paid? && r.node in sh.used
    ensures var end := PayAlone(sh, PayConfirmed(id, r, u));
      && end.db == sh.db
      && end.used == sh.used[r.node := u.Plus(r.sla.Demand())]
      && end.timers == sh.timers + multiset{id}
      && end.tasks == sh.tasks + [Task(id, r.node)]
  {
    var recorded := PayTurn(sh, PayConfirmed(id, r, u));
    assert recorded.next == Some(PayRecorded(id, r));
    PayTail(recorded.shared, id, r);
  }

  lemma {:induction false} PayWrites(sh: Shared, id: SlaId, p: Record, u: Resources)
    requires id in sh.db && sh.db[id] == p && p.Proposed? && p.node in sh.used
    ensures var end := PayAlone(sh, PayChecked(id, p, u));
      && end.db == sh.db[id := p.ToPaid()]
      && end.used == sh.used[p.node := u.Plus(p.sla.Demand())]
      && end.timers == sh.timers + multiset{id}
      && end.tasks == sh.tasks + [Task(id, p.node)]
  {
    var saved := sh.(db := sh.db[id := p.ToPaid()]);
    assert PayTurn(sh, PayChecked(id, p, u)) == Turn(saved, Some(PaySaved(id, p, u)));
    assert PayTurn(saved, PaySaved(id, p, u)) == Turn(saved, Some(PayConfirmed(id, p.ToPaid(), u)));
    PayLedgerWrite(saved, id, p.ToPaid(), u);
  }

  /** Step by step and undisturbed, a payment is its section; on success it
      also leaves one timer asleep and one entry at the back of the queue. */
  lemma {:induction false} PayAloneIsSection(sh: Shared, id: SlaId)
    ensures var end := PayAlone(sh, PayHeld(id));
      var section := PaySection(sh.db, sh.used, sh.available, id);
      && end.db == section.db && end.used == section.used
      && (section.ok ==>
            && end.timers == sh.timers + multiset{id}
            && end.tasks == sh.tasks + [Task(id, sh.db[id].node)])
      && (!section.ok ==> end == sh)
  {
    if GetProposed(sh.db, id).Some? {
      var p := sh.db[id];
      assert PayAlone(sh, PayHeld(id)) == PayAlone(sh, PayProposal(id, p));
      if p.node in sh.used {
        var u := sh.used[p.node];
        if p.node in sh.available {
          SatisfiableIff(u, sh.available[p.node], p.sla);
        }
        assert PayAlone(sh, PayProposal(id, p)) == PayAlone(sh, PayUsed(id, p, u));
        if p.node in sh.available && Satisfiable(u, sh.available[p.node], p.sla) {
          assert PayAlone(sh, PayUsed(id, p, u)) == PayAlone(sh, PayChecked(id, p, u));
          PayWrites(sh, id, p, u);
        }
      }
    }
  }

  function ReleaseLeft(pc: Pc): nat
    requires pc.Releasing()
  {
    match pc
    case FinSaved(_) => 4
    case FinNoted(_, _) => 3
    case FinUsed(_, _, _) => 2
    case FinDone(_) => 1
  }

  function ReleaseAlone(sh: Shared, pc: Pc): Shared
    requires pc.Releasing()
    decreases ReleaseLeft(pc)
  {
    var t := ReleaseTurn(sh, pc);
    if t.next.Some? then ReleaseAlone(t.shared, t.next.value) else t.shared
  }

  // A finish that keeps moving, undisturbed, until it drops the permit.
  function FinishAlone(sh: Shared, pc: Pc, ok: bool): Shared
    requires pc.Removing() || pc.Recording() || pc.Releasing()
    decreases if pc.FinHeld? then 4 else if pc.FinRemoving? then 3 else if pc.FinRecord? then 2
        else if pc.FinFinishable? then 1 else 0
  {
    if pc.Releasing() then ReleaseAlone(sh, pc)
    else
      var t := if pc.Removing() then RemoveTurn(sh, pc, ok) else RecordTurn(sh, pc);
      FinishAlone(t.shared, t.next.value, ok)
  }

  lemma {:induction false} ReleaseWrites(sh: Shared, id: SlaId)
    requires id in sh.db && sh.db[id].Finished?
    ensures var end := ReleaseAlone(sh, FinSaved(id));
      var f := sh.db[id];
      && end.db == sh.db && end.deployed == sh.deployed
      && end.tasks == sh.tasks && end.timers == sh.timers
      && end.used == if f.node in sh.used
                     then sh.used[f.node := sh.used[f.node].Minus(f.sla.Demand())] else sh.used
  {
    var f := sh.db[id];
    assert ReleaseAlone(sh, FinSaved(id)) == ReleaseAlone(sh, FinNoted(id, f));
    if f.node in sh.used {
      var u := sh.used[f.node];
      assert ReleaseAlone(sh, FinNoted(id, f)) == ReleaseAlone(sh, FinUsed(id, f, u));
      var end := ReleaseTurn(sh, FinUsed(id, f, u)).shared;
      assert ReleaseAlone(end, FinDone(id)) == end;
    } else {
      assert ReleaseAlone(sh, FinDone(id)) == sh;
    }
  }

  lemma {:induction false} RecordWrites(sh: Shared, id: SlaId, byTimer: bool, removed: bool, ok: bool)
    ensures var end := FinishAlone(sh, FinRecord(id, byTimer, removed), ok);
      var section := FinishSection(sh.db, sh.used, id, ok);
      && end.db == section.db && end.used == section.used && end.deployed == sh.deployed
      && end.tasks == sh.tasks && end.timers == sh.timers
  {
    if GetFinishable(sh.db, id).Some? {
      var f := sh.db[id].ToFinished();
      var saved := sh.(db := sh.db[id := f]);
      assert FinishAlone(sh, FinRecord(id, byTimer, removed), ok) ==
          FinishAlone(sh, FinFinishable(id, byTimer, removed, f), ok);
      assert RecordTurn(sh, FinFinishable(id, byTimer, removed, f)) == Turn(saved, Some(FinSaved(id)));
      assert FinishAlone(saved, FinSaved(id), ok) == ReleaseAlone(saved, FinSaved(id));
      ReleaseWrites(saved, id);
    } else {
      assert FinishAlone(sh, FinDone(id), ok) == ReleaseAlone(sh, FinDone(id)) == sh;
    }
  }

  /** Step by step and undisturbed, a finish is its section, whether or not the
      backend agrees to remove the function. */
  lemma {:induction false} FinishAloneIsSection(sh: Shared, id: SlaId, byTimer: bool, ok: bool)
    ensures var end := FinishAlone(sh, FinHeld(id, byTimer), ok);
      var section := FinishSection(sh.db, sh.used, id, ok);
      && end.db == section.db && end.used == section.used
      && end.tasks == sh.tasks && end.timers == sh.timers
      && end.deployed == (if GetRemovable(sh.db, id).Some? && ok then sh.deployed - {id} else sh.deployed)
  {
    if GetRemovable(sh.db, id).Some? {
      var asked := RemoveTurn(sh, FinRemoving(id, byTimer), ok).shared;
      assert FinishAlone(sh, FinHeld(id, byTimer), ok) == FinishAlone(sh, FinRemoving(id, byTimer), ok);
      assert FinishAlone(sh, FinRemoving(id, byTimer), ok) == FinishAlone(asked, FinRecord(id, byTimer, ok), ok);
      RecordWrites(asked, id, byTimer, ok, ok);
    } else {
      assert FinishAlone(sh, FinHeld(id, byTimer), ok) == FinishAlone(sh, FinRecord(id, byTimer, false), ok);
      RecordWrites(sh, id, byTimer, false, ok);
    }
  }

  /** Paying and then finishing gives the ledger back as it was. */
  lemma FinishUndoesPay(db: Database, used: Ledger, available: Ledger, id: SlaId, removed: bool)
    requires PaySection(db, used, available, id).ok
    ensures var paid := PaySection(db, used, available, id);
      var finished := FinishSection(paid.db, paid.used, id, removed);
      && finished.used == used && finished.ok
      && finished.db == db[id := db[id].ToFinished()]
      // A second finish changes nothing.
      && FinishSection(finished.db, finished.used, id, removed) == Outcome(finished.db, finished.used, false)
  {
    var paid := PaySection(db, used, available, id);
    var node := db[id].node;
    assert paid.used[node].Minus(db[id].sla.Demand()) == used[node];
    assert paid.used[node := used[node]] == used;
  }
}
