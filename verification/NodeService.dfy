/** The stores of a fog node and the locked function service over them, as
    objects updated in place. Their methods are held to the maps and sections
    that the state machine is made of. */
module NodeService {
  import opened Model
  import opened Lifecycle
  import opened LifecycleReport
  import opened Sections
  import Tracking

  /** The concurrent map of the known functions. */
  class FunctionTracking {
    var database: Tracking.Database

    constructor ()
      ensures database == map[]
    {
      database := map[];
    }

    // Overwrites whatever was stored under the SLA id.
    method Insert(record: Tracking.Record)
      modifies this
      ensures database == Tracking.Insert(old(database), record)
    {
      database := database[record.sla.id := record];
    }

    method SavePaid(id: SlaId, record: Tracking.Record)
      modifies this
      ensures database == Tracking.SavePaid(old(database), id, record)
    {
      if id in database {
        if database[id].Proposed? {
          database := database[id := record];
        }
      }
    }

    method SaveProvisioned(id: SlaId, record: Tracking.Record)
      modifies this
      ensures database == Tracking.SaveProvisioned(old(database), id, record)
    {
      if id in database {
        if database[id].Paid? {
          database := database[id := record];
        }
      }
    }

    method SaveLive(id: SlaId, record: Tracking.Record)
      modifies this
      ensures database == Tracking.SaveLive(old(database), id, record)
    {
      if id in database {
        if database[id].Provisioned? {
          database := database[id := record];
        }
      }
    }

    method SaveFinished(id: SlaId, record: Tracking.Record)
      modifies this
      ensures database == Tracking.SaveFinished(old(database), id, record)
    {
      if id in database {
        database := database[id := record];
      }
    }
  }

  /** The ledger of used resources over a fixed set of k8s nodes. */
  class ResourceTracking {
    var resourcesUsed: Ledger
    const resourcesAvailable: Ledger
    const nodes: seq<K8sNode>

    constructor (available: Ledger, nodes: seq<K8sNode>)
      ensures resourcesAvailable == available && this.nodes == nodes
      ensures resourcesUsed.Keys == available.Keys
      ensures forall n :: n in resourcesUsed ==> resourcesUsed[n] == ZERO
    {
      resourcesAvailable := available;
      this.nodes := nodes;
      resourcesUsed := map n | n in available :: ZERO;
    }

    predicate KeyExists(name: K8sNode)
      reads this
    {
      name in resourcesUsed && name in resourcesAvailable
    }

    // The source asserts that both amounts are not negative.
    method SetUsed(name: K8sNode, amount: Resources) returns (ok: bool)
      requires KeyExists(name) ==> amount.NonNegative()
      modifies this`resourcesUsed
      ensures ok == old(KeyExists(name))
      ensures resourcesUsed == if ok then old(resourcesUsed)[name := amount] else old(resourcesUsed)
    {
      ok := KeyExists(name);
      if ok {
        resourcesUsed := resourcesUsed[name := amount];
      }
    }

    method GetUsed(name: K8sNode) returns (r: Option<Resources>)
      ensures r == if KeyExists(name) then Some(resourcesUsed[name]) else None
    {
      if KeyExists(name) {
        return Some(resourcesUsed[name]);
      }
      return None;
    }

    method GetAvailable(name: K8sNode) returns (r: Option<Resources>)
      ensures r == if KeyExists(name) then Some(resourcesAvailable[name]) else None
    {
      if KeyExists(name) {
        return Some(resourcesAvailable[name]);
      }
      return None;
    }

    // The first node, in the order of the list, with room for every replica.
    method GetANode(sla: Sla) returns (r: Option<K8sNode>)
      requires forall i :: 0 <= i < |nodes| ==> KeyExists(nodes[i])
      ensures r.Some? ==> FirstWithRoom(r.value, sla)
      ensures r.None? ==> forall i :: 0 <= i < |nodes| ==> !HasRoom(nodes[i], sla)
    {
      for i := 0 to |nodes|
        invariant forall j :: 0 <= j < i ==> !HasRoom(nodes[j], sla)
      {
        SatisfiableIff(resourcesUsed[nodes[i]], resourcesAvailable[nodes[i]], sla);
        if Satisfiable(resourcesUsed[nodes[i]], resourcesAvailable[nodes[i]], sla) {
          return Some(nodes[i]);
        }
      }
      return None;
    }

    // No node before it in the list has room.
    ghost predicate FirstWithRoom(name: K8sNode, sla: Sla)
      reads this
    {
      exists i :: 0 <= i < |nodes| && nodes[i] == name && HasRoom(name, sla)
                  && forall j :: 0 <= j < i ==> !HasRoom(nodes[j], sla)
    }

    predicate HasRoom(name: K8sNode, sla: Sla)
      reads this
    {
      KeyExists(name) && RoomFor(resourcesUsed[name], resourcesAvailable[name], sla)
    }
  }

  datatype TaskEntry = TaskEntry(task: Task, createdAt: real)

  datatype UnprovisionEvent = UnprovisionEvent(timestamp: real, sla: Sla, node: K8sNode)

  function Tasks(entries: seq<TaskEntry>): seq<Task> {
    seq(|entries|, i requires 0 <= i < |entries| => entries[i].task)
  }

  /** The one-shot timers still asleep and the queue of their entries: pushed at
      the back when a payment creates its timer, popped at the front when a timer
      fires, whichever timer that is. */
  class Cron {
    var sleeping: multiset<SlaId>
    var tasks: seq<TaskEntry>

    constructor ()
      ensures sleeping == multiset{} && tasks == []
    {
      sleeping, tasks := multiset{}, [];
    }

    // The timer is started before its entry is queued.
    method AddOneshot(task: Task, now: real)
      modifies this
      ensures sleeping == old(sleeping) + multiset{task.sla}
      ensures tasks == old(tasks) + [TaskEntry(task, now)]
    {
      sleeping := sleeping + multiset{task.sla};
      tasks := tasks + [TaskEntry(task, now)];
    }

    method Expire(id: SlaId)
      requires id in sleeping
      modifies this
      ensures sleeping == old(sleeping) - multiset{id}
      ensures tasks == if old(tasks) == [] then [] else old(tasks)[1..]
    {
      sleeping := sleeping - multiset{id};
      if tasks != [] {
        tasks := tasks[1..];
      }
    }
  }

  /** What the backend runs. Whether it accepts a call is not ours to decide. */
  class Backend {
    var deployed: set<SlaId>

    constructor ()
      ensures deployed == {}
    {
      deployed := {};
    }

    method ProvisionFunction(id: SlaId, accepts: bool) returns (ok: bool)
      modifies this
      ensures ok == accepts && deployed == if accepts then old(deployed) + {id} else old(deployed)
    {
      ok := accepts;
      if accepts {
        deployed := deployed + {id};
      }
    }

    method RemoveFunction(id: SlaId, accepts: bool) returns (ok: bool)
      modifies this
      ensures ok == accepts && deployed == if accepts then old(deployed) - {id} else old(deployed)
    {
      ok := accepts;
      if accepts {
        deployed := deployed - {id};
      }
    }
  }

  // The queue entries whose reservation is still active, in queue order, each
  // with the time at which it ends.
  function Events(db: Tracking.Database, entries: seq<TaskEntry>): seq<UnprovisionEvent>
    decreases |entries|
  {
    if entries == [] then []
    else
      var rest := Events(db, entries[..|entries| - 1]);
      var last := entries[|entries| - 1];
      match Tracking.GetFinishable(db, last.task.sla)
      case None => rest
      case Some(r) => rest + [UnprovisionEvent(last.createdAt + r.sla.duration, r.sla, last.task.node)]
  }

  /** The events carry the reported reservations, one for one. */
  lemma {:induction false} EventsAreReported(db: Tracking.Database, entries: seq<TaskEntry>)
    requires forall id :: id in db ==> db[id].sla.id == id
    ensures var events := Events(db, entries);
      && |events| == |Reported(db, Tasks(entries))|
      && forall i :: 0 <= i < |events| ==>
           events[i].sla.id == Reported(db, Tasks(entries))[i] && events[i].sla.id in db
           && events[i].sla == db[events[i].sla.id].sla
    decreases |entries|
  {
    if entries != [] {
      var front := entries[..|entries| - 1];
      EventsAreReported(db, front);
      assert Tasks(entries)[..|entries| - 1] == Tasks(front);
    }
  }

  // The event of a queue entry whose reservation is active: when it was queued
  // and how long it lasts, the SLA on record, the node of the entry.
  ghost predicate IsEvent(db: Tracking.Database, entry: TaskEntry, event: UnprovisionEvent) {
    && entry.task.sla in db
    && (db[entry.task.sla].Paid? || db[entry.task.sla].Provisioned? || db[entry.task.sla].Live?)
    && event.sla == db[entry.task.sla].sla && event.node == entry.task.node
    && event.timestamp == entry.createdAt + db[entry.task.sla].sla.duration
  }

  // The events are those of the entries at these positions, in order, and no
  // other entry has an active reservation.
  ghost predicate AreEvents(db: Tracking.Database, entries: seq<TaskEntry>, events: seq<UnprovisionEvent>,
                            at: seq<nat>) {
    && |at| == |events|
    && (forall i, j :: 0 <= i < j < |at| ==> at[i] < at[j])
    && (forall i :: 0 <= i < |at| ==> at[i] < |entries| && IsEvent(db, entries[at[i]], events[i]))
    && (forall k :: 0 <= k < |entries| && Tracking.GetFinishable(db, entries[k].task.sla).Some? ==> k in at)
  }

  /** There is one event for each active entry of the queue, in queue order, and it
      says when the reservation ends, where, and for which SLA. */
  lemma {:induction false} EventsAre(db: Tracking.Database, entries: seq<TaskEntry>) returns (at: seq<nat>)
    ensures AreEvents(db, entries, Events(db, entries), at)
    decreases |entries|
  {
    if entries == [] {
      at := [];
    } else {
      var n := |entries| - 1;
      at := EventsAre(db, entries[..n]);
      if Tracking.GetFinishable(db, entries[n].task.sla).Some? {
        at := at + [n];
      }
    }
  }

  /** The function service while its permit is held. */
  class Function {
    const tracking: FunctionTracking
    const resources: ResourceTracking
    const cron: Cron
    const backend: Backend

    constructor (tracking: FunctionTracking, resources: ResourceTracking, cron: Cron, backend: Backend)
      ensures this.tracking == tracking && this.resources == resources && this.cron == cron && this.backend == backend
    {
      this.tracking := tracking;
      this.resources := resources;
      this.cron := cron;
      this.backend := backend;
    }

    ghost predicate Valid()
      reads tracking, resources
    {
      Coherent(tracking.database, resources.resourcesUsed, resources.resourcesAvailable)
    }

    method PayFunction(id: SlaId) returns (r: Option<Tracking.Record>)
      requires Valid()
      modifies tracking, resources
      ensures var section := PaySection(old(tracking.database), old(resources.resourcesUsed),
          resources.resourcesAvailable, id);
        && tracking.database == section.db
        && resources.resourcesUsed == section.used
        && r.Some? == section.ok
        && (r.Some? ==> id in section.db && r.value == section.db[id] && r.value.Paid?)
    {
      var proposal := Tracking.GetProposed(tracking.database, id);
      if proposal.None? {
        return None;
      }
      var p := proposal.value;
      var used := resources.GetUsed(p.node);
      var available := resources.GetAvailable(p.node);
      if used.None? || available.None? {
        return None;
      }
      SatisfiableIff(used.value, available.value, p.sla);
      if !Satisfiable(used.value, available.value, p.sla) {
        return None;
      }
      tracking.SavePaid(id, p.ToPaid());
      r := Tracking.GetPaid(tracking.database, id);
      var stored := resources.SetUsed(p.node, used.value.Plus(p.sla.Demand()));
    }

    // `accepts` is the backend's answer, if it is asked.
    method ProvisionFunction(id: SlaId, accepts: bool) returns (ok: bool)
      modifies tracking, backend
      ensures (tracking.database, ok) == ProvisionSection(old(tracking.database), id, accepts)
      ensures backend.deployed == if ok then old(backend.deployed) + {id} else old(backend.deployed)
    {
      var paid := Tracking.GetPaid(tracking.database, id);
      if paid.None? {
        return false;
      }
      var deployed := backend.ProvisionFunction(id, accepts);
      if !deployed {
        return false;
      }
      tracking.SaveProvisioned(id, paid.value.ToProvisioned(id));
      return true;
    }

    // A refusal of the backend does not stop the release.
    method FinishFunction(id: SlaId, accepts: bool) returns (ok: bool)
      requires Valid()
      modifies tracking, resources, backend
      ensures Outcome(tracking.database, resources.resourcesUsed, ok) ==
              FinishSection(old(tracking.database), old(resources.resourcesUsed), id, accepts)
      ensures backend.deployed ==
              if Tracking.GetRemovable(old(tracking.database), id).Some? && accepts then old(backend.deployed) - {id}
              else old(backend.deployed)
    {
      ok := true;
      if Tracking.GetRemovable(tracking.database, id).Some? {
        ok := backend.RemoveFunction(id, accepts);
      }
      var finishable := Tracking.GetFinishable(tracking.database, id);
      if finishable.None? {
        return false;
      }
      tracking.SaveFinished(id, finishable.value.ToFinished());
      var record := Tracking.GetFinished(tracking.database, id).value;
      var used := resources.GetUsed(record.node);
      var stored := resources.SetUsed(record.node, used.value.Minus(record.sla.Demand()));
    }

    method GetUtilisationVariations() returns (events: seq<UnprovisionEvent>)
      ensures events == Events(tracking.database, cron.tasks)
    {
      events := [];
      var i := 0;
      while i < |cron.tasks|
        invariant 0 <= i <= |cron.tasks|
        invariant events == Events(tracking.database, cron.tasks[..i])
      {
        assert cron.tasks[..i + 1][..i] == cron.tasks[..i];
        var entry := cron.tasks[i];
        var record := Tracking.GetFinishable(tracking.database, entry.task.sla);
        if record.Some? {
          var timestamp := entry.createdAt + record.value.sla.duration;
          events := events + [UnprovisionEvent(timestamp, record.value.sla, entry.task.node)];
        }
        i := i + 1;
      }
      assert cron.tasks[..i] == cron.tasks;
    }
  }
}
