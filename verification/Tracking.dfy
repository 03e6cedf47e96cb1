/** Records of the functions known to a fog node and the database that holds
    them (`model/dto/function.rs`, `repository/function_tracking.rs`).
    The functions on maps say what each access to the database does. */
module Tracking {
  import opened Model

  // The name under which the backend deploys a function is derived from its
  // SLA id, so the id stands for the name.
  datatype Record =
    | Proposed(bid: real, sla: Sla, node: K8sNode)
    | Paid(bid: real, sla: Sla, node: K8sNode)
    | Provisioned(bid: real, sla: Sla, node: K8sNode, functionName: SlaId)
    | Live(bid: real, sla: Sla, node: K8sNode, functionName: SlaId)
    | Finished(bid: real, sla: Sla, node: K8sNode)
  {
    function ToPaid(): Record {
      Paid(bid, sla, node)
    }

    function ToProvisioned(name: SlaId): Record {
      Provisioned(bid, sla, node, name)
    }

    function ToLive(): Record
      requires Provisioned?
    {
      Live(bid, sla, node, functionName)
    }

    function ToFinished(): Record {
      Finished(bid, sla, node)
    }

    // The states that occupy resources.
    predicate Active() {
      Paid? || Provisioned? || Live?
    }

    // The states in which the backend runs the function.
    predicate Running() {
      Provisioned? || Live?
    }

    function Rank(): nat {
      match this
      case Proposed(_, _, _) => 0
      case Paid(_, _, _) => 1
      case Provisioned(_, _, _, _) => 2
      case Live(_, _, _, _) => 3
      case Finished(_, _, _) => 4
    }

    // Same offer: no transition changes the bid, the SLA or the k8s node.
    predicate SameOffer(other: Record) {
      bid == other.bid && sla == other.sla && node == other.node
    }
  }

  type ProvisionedRecord = r: Record | r.Provisioned?
    witness Provisioned(0.0, Sla(0, 0.0, 0.0, 0.0, 0.0, 1, 0.0), 0, 0)

  type Database = map<SlaId, Record>

  function Insert(db: Database, record: Record): Database {
    db[record.sla.id := record]
  }

  function GetProposed(db: Database, id: SlaId): Option<Record> {
    if id in db && db[id].Proposed? then Some(db[id]) else None
  }

  function GetPaid(db: Database, id: SlaId): Option<Record> {
    if id in db && db[id].Paid? then Some(db[id]) else None
  }

  function GetProvisioned(db: Database, id: SlaId): Option<ProvisionedRecord> {
    if id in db && db[id].Provisioned? then Some(db[id]) else None
  }

  function GetRemovable(db: Database, id: SlaId): Option<Record> {
    if id in db && db[id].Running() then Some(db[id]) else None
  }

  function GetFinishable(db: Database, id: SlaId): Option<Record> {
    if id in db && db[id].Active() then Some(db[id]) else None
  }

  function GetFinished(db: Database, id: SlaId): Option<Record> {
    if id in db && db[id].Finished? then Some(db[id]) else None
  }

  function SavePaid(db: Database, id: SlaId, record: Record): Database {
    if id in db && db[id].Proposed? then db[id := record] else db
  }

  function SaveProvisioned(db: Database, id: SlaId, record: Record): Database {
    if id in db && db[id].Paid? then db[id := record] else db
  }

  function SaveLive(db: Database, id: SlaId, record: Record): Database {
    if id in db && db[id].Provisioned? then db[id := record] else db
  }

  function SaveFinished(db: Database, id: SlaId, record: Record): Database {
    if id in db then db[id := record] else db
  }

  // A later database keeps every record, its offer, and never a lower rank.
  ghost predicate Advances(before: Database, after: Database) {
    forall id :: id in before ==>
      && id in after
      && after[id].SameOffer(before[id])
      && before[id].Rank() <= after[id].Rank()
  }
}
