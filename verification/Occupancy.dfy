/** The resources that the records of a database occupy on one k8s node. */
module Occupancy {
  import opened Model
  import opened Basics
  import opened Tracking

  function Weight(r: Record, n: K8sNode, d: Dimension): real {
    if r.Active() && r.node == n then r.sla.Demand().Of(d) else 0.0
  }

  // Sum over the records stored under some ids, taken in any order.
  ghost function Sum(db: Database, ids: set<SlaId>, n: K8sNode, d: Dimension): real
    requires ids <= db.Keys
    decreases |ids|
  {
    if ids == {} then 0.0
    else
      var id := Pick(ids);
      Weight(db[id], n, d) + (Sum(db, ids - {id}, n, d))
  }

  ghost function Load(db: Database, n: K8sNode, d: Dimension): real {
    Sum(db, db.Keys, n, d)
  }

  // The sum does not depend on which record is taken first.
  lemma {:induction false} SumSplit(db: Database, ids: set<SlaId>, id: SlaId, n: K8sNode, d: Dimension)
    requires id in ids && ids <= db.Keys
    ensures Sum(db, ids, n, d) == Weight(db[id], n, d) + (Sum(db, ids - {id}, n, d))
    decreases |ids|
  {
    var first := Pick(ids);
    if first != id {
      SumSplit(db, ids - {first}, id, n, d);
      SumSplit(db, ids - {id}, first, n, d);
      assert ids - {first} - {id} == ids - {id} - {first};
    }
  }

  lemma {:induction false} SumAgrees(db: Database, other: Database, ids: set<SlaId>, n: K8sNode, d: Dimension)
    requires ids <= db.Keys && ids <= other.Keys
    requires forall id :: id in ids ==> db[id] == other[id]
    ensures Sum(db, ids, n, d) == Sum(other, ids, n, d)
    decreases |ids|
  {
    if ids != {} {
      SumAgrees(db, other, ids - {Pick(ids)}, n, d);
    }
  }

  lemma LoadUpdate(db: Database, id: SlaId, r: Record, n: K8sNode, d: Dimension)
    ensures Load(db[id := r], n, d) ==
            (if id in db then Load(db, n, d) - (Weight(db[id], n, d)) else Load(db, n, d)) + (Weight(r, n, d))
  {
    var others := db.Keys - {id};
    SumSplit(db[id := r], db[id := r].Keys, id, n, d);
    assert db[id := r].Keys - {id} == others;
    SumAgrees(db, db[id := r], others, n, d);
    if id in db {
      SumSplit(db, db.Keys, id, n, d);
    } else {
      assert others == db.Keys;
    }
  }

  lemma {:induction false} SumNonNegative(db: Database, ids: set<SlaId>, n: K8sNode, d: Dimension)
    requires ids <= db.Keys
    requires forall id :: id in db ==> db[id].sla.Demand().NonNegative()
    ensures 0.0 <= Sum(db, ids, n, d)
    decreases |ids|
  {
    if ids != {} {
      SumNonNegative(db, ids - {Pick(ids)}, n, d);
    }
  }

  lemma {:induction false} SumIdle(db: Database, ids: set<SlaId>, n: K8sNode, d: Dimension)
    requires ids <= db.Keys
    requires forall id :: id in db && db[id].node == n ==> !db[id].Active()
    ensures Sum(db, ids, n, d) == 0.0
    decreases |ids|
  {
    if ids != {} {
      SumIdle(db, ids - {Pick(ids)}, n, d);
    }
  }
}
