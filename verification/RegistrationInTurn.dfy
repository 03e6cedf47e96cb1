/** Registrations that the market handles one after the other: they keep its
    registry a tree. */
module RegistrationInTurn {
  import opened Model
  import opened Registry
  import opened RegistryAccess
  import opened Registration

  // Nobody is at work in the market.
  ghost predicate Idle(s: State) {
    forall c :: c in s.requests ==> !s.requests[c].Inside?
  }

  // A handler only starts when no other is at work.
  ghost predicate InTurn(plan: Plan, s: State, run: seq<Event>)
    requires CanRun(plan, s, run)
    decreases |run|
  {
    run != [] ==> (run[0].Deliver? ==> Idle(s)) && InTurn(plan, Step(plan, s, run[0]), run[1..])
  }

  ghost predicate ReachableInTurn(plan: Plan, s: State) {
    exists run :: CanRun(plan, START, run) && InTurn(plan, START, run) && After(plan, START, run) == s
  }

  ghost predicate Fine(nodes: Nodes) {
    nodes == map[] || Valid(nodes)
  }

  ghost predicate ChildPushed(was: Nodes, nodes: Nodes, job: Job) {
    job.Child? && Valid(was) && job.parent in was && job.id !in was && nodes == Pushed(was, job.parent, job.id)
  }

  ghost predicate RootAdded(was: Nodes, nodes: Nodes, id: NodeId) {
    Valid(was) && id !in was && nodes == WithRoot(was, id, 0)
  }

  ghost predicate SecondRoot(nodes: Nodes, id: NodeId) {
    exists was :: RootAdded(was, nodes, id)
  }

  // Where the check of a tree stands.
  ghost predicate Underway(nodes: Nodes, pc: Pc)
    requires pc.Walking()
  {
    && Valid(nodes) && pc.job.id in nodes
    && (forall id :: id in pc.stack ==> id in nodes)
    && (pc.Finding? || pc.Agreeing? ==> pc.at in nodes && pc.children == nodes[pc.at].children)
  }

  // What the only handler at work finds.
  ghost predicate Phase(nodes: Nodes, pc: Pc) {
    match pc
    case Pushing(job) => Fine(nodes) && job.id !in nodes
    case Inserting(job) =>
      if job.Child? then exists was :: ChildPushed(was, nodes, job) else Fine(nodes) && job.id !in nodes
    case ReadingRoots(job) => job.id in nodes && (Valid(nodes) || (job.Root? && SecondRoot(nodes, job.id)))
    case Removing(job) => job.Root? && SecondRoot(nodes, job.id)
    case Locating(_) => false
    case Unlisting(_, _) => false
    case Done(_, _) => false
    case _ => Underway(nodes, pc)
  }

  lemma AddPhase(nodes: Nodes, pc: Pc)
    requires Sound(pc) && (pc.Pushing? || pc.Inserting?) && Phase(nodes, pc)
    ensures var t := Takes(nodes, pc);
      && (t.next.Done? ==> !t.next.ok && t.nodes == nodes && Fine(nodes) && pc.job.id !in nodes)
      && (!t.next.Done? ==> Phase(t.nodes, t.next))
      && t.nodes.Keys - {pc.job.id} == nodes.Keys - {pc.job.id}
  {
    var job, t := pc.job, Takes(nodes, pc);
    if pc.Pushing? {
      if t.next.Inserting? {
        assert ChildPushed(nodes, t.nodes, job);
      }
    } else if job.Child? {
      var was :| ChildPushed(was, nodes, job);
      FreshChildAccepted(was, job.parent, job.id, 0);
      assert t.nodes == WithChild(was, job.parent, job.id, 0);
    } else if nodes == map[] {
      FirstRoot(job.id, 0);
    } else {
      assert RootAdded(nodes, t.nodes, job.id);
    }
  }

  lemma SecondRootSeen(nodes: Nodes, id: NodeId)
    requires SecondRoot(nodes, id)
    ensures |Roots(nodes)| != 1 && Fine(nodes - {id})
  {
    var was :| RootAdded(was, nodes, id);
    SecondRootRejected(was, id, 0);
    assert Roots(nodes) == Roots(was) + {id};
  }

  // On a tree no part of the check fails.
  lemma CheckPhase(nodes: Nodes, pc: Pc)
    requires pc.Walking() && Phase(nodes, pc)
    ensures var next := CheckStep(nodes, pc);
      if next.Done? then next.ok else Phase(nodes, next)
  {
    if pc.Finding? || pc.Agreeing? {
      assert Fits(nodes, pc.at);
    }
  }

  lemma RootsPhase(nodes: Nodes, pc: Pc)
    requires pc.ReadingRoots? && Phase(nodes, pc)
    ensures !CheckStep(nodes, pc).Done? && Phase(nodes, CheckStep(nodes, pc))
  {
    if !Valid(nodes) {
      SecondRootSeen(nodes, pc.job.id);
    }
  }

  // What an access of the only handler at work leaves.
  lemma PhaseTurn(nodes: Nodes, pc: Pc)
    requires Sound(pc) && Phase(nodes, pc)
    ensures !pc.Done?
    ensures var t := Takes(nodes, pc);
      && t.nodes.Keys - {pc.job.id} == nodes.Keys - {pc.job.id}
      && if t.next.Done? then Fine(t.nodes) && (pc.job.id in t.nodes <==> t.next.ok) else Phase(t.nodes, t.next)
  {
    if pc.Pushing? || pc.Inserting? {
      AddPhase(nodes, pc);
    } else if pc.ReadingRoots? {
      RootsPhase(nodes, pc);
    } else if pc.Removing? {
      SecondRootSeen(nodes, pc.job.id);
    } else {
      CheckPhase(nodes, pc);
    }
  }

  ghost predicate OnlyOne(s: State) {
    forall c, d :: c in s.requests && d in s.requests && s.requests[c].Inside? && s.requests[d].Inside? ==> c == d
  }

  ghost predicate InsideAt(s: State, c: NodeId) {
    c in s.requests && s.requests[c].Inside?
  }

  ghost predicate AtWork(s: State, c: NodeId) {
    InsideAt(s, c) ==>
      Phase(s.nodes, s.requests[c].pc) && s.nodes.Keys - {c} == s.accepted
  }

  ghost predicate TurnInv(plan: Plan, s: State) {
    && Inv(plan, s)
    && OnlyOne(s)
    && (forall c :: c in s.requests ==> c !in s.accepted)
    && (forall c {:trigger AtWork(s, c)} :: AtWork(s, c))
    && (Idle(s) ==> Fine(s.nodes) && s.nodes.Keys == s.accepted)
  }

  // Events outside the market change nobody's place in it.
  lemma OutsideStep(plan: Plan, s: State, e: Event)
    requires TurnInv(plan, s) && Enabled(plan, s, e) && (e.Start? || e.Relay? || e.Lose?)
    ensures TurnInv(plan, Step(plan, s, e))
  {
    var t := Step(plan, s, e);
    InvStep(plan, s, e);
    assert e.id in t.requests ==> !t.requests[e.id].Inside?;
    forall c ensures AtWork(t, c) {
      assert AtWork(s, c);
    }
    if Idle(t) {
      forall c | c in s.requests ensures !s.requests[c].Inside? {
        assert c != e.id ==> c in t.requests && t.requests[c] == s.requests[c];
      }
    }
  }

  lemma DeliverStep(plan: Plan, s: State, e: Event)
    requires TurnInv(plan, s) && Enabled(plan, s, e) && e.Deliver? && Idle(s)
    ensures TurnInv(plan, Step(plan, s, e))
  {
    var t := Step(plan, s, e);
    InvStep(plan, s, e);
    assert HandlesAt(plan, t, e.id);
    forall c ensures AtWork(t, c) {
      if c == e.id {
        assert s.nodes.Keys - {c} == s.nodes.Keys;
      }
    }
  }

  // What the handler leaves, by itself.
  lemma HandlerStep(plan: Plan, s: State, id: NodeId)
    requires TurnInv(plan, s) && Enabled(plan, s, Access(id))
    ensures var t := Step(plan, s, Access(id));
      && t.nodes.Keys - {id} == s.accepted
      && if InsideAt(t, id) then Phase(t.nodes, t.requests[id].pc)
         else Fine(t.nodes) && (id in t.nodes <==> id in t.accepted)
    ensures var t := Step(plan, s, Access(id));
      && (id in t.requests ==> id !in t.accepted) && t.accepted - {id} == s.accepted
  {
    assert HandlesAt(plan, s, id) && AtWork(s, id);
    PhaseTurn(s.nodes, s.requests[id].pc);
  }

  // And what it leaves alone.
  lemma OthersWait(plan: Plan, s: State, id: NodeId)
    requires OnlyOne(s) && Enabled(plan, s, Access(id))
    ensures var t := Step(plan, s, Access(id));
      forall c :: c in t.requests && c != id ==> c in s.requests && t.requests[c] == s.requests[c] && !InsideAt(t, c)
  {
  }

  lemma AccessStep(plan: Plan, s: State, e: Event)
    requires TurnInv(plan, s) && Enabled(plan, s, e) && e.Access?
    ensures TurnInv(plan, Step(plan, s, e))
  {
    var t := Step(plan, s, e);
    InvStep(plan, s, e);
    HandlerStep(plan, s, e.id);
    OthersWait(plan, s, e.id);
    forall c ensures AtWork(t, c) {
    }
    if Idle(t) {
      assert !InsideAt(t, e.id);
      assert t.nodes.Keys == t.accepted;
    }
  }

  lemma TurnStep(plan: Plan, s: State, e: Event)
    requires TurnInv(plan, s) && Enabled(plan, s, e) && (e.Deliver? ==> Idle(s))
    ensures TurnInv(plan, Step(plan, s, e))
  {
    if e.Deliver? {
      DeliverStep(plan, s, e);
    } else if e.Access? {
      AccessStep(plan, s, e);
    } else {
      OutsideStep(plan, s, e);
    }
  }

  lemma {:induction false} TurnRun(plan: Plan, s: State, run: seq<Event>)
    requires TurnInv(plan, s) && CanRun(plan, s, run) && InTurn(plan, s, run)
    ensures TurnInv(plan, After(plan, s, run))
    decreases |run|
  {
    if run != [] {
      TurnStep(plan, s, run[0]);
      TurnRun(plan, Step(plan, s, run[0]), run[1..]);
    }
  }

  lemma ListedIff(plan: Plan, s: State, p: NodeId, c: NodeId)
    requires Inv(plan, s) && Valid(s.nodes) && p in s.nodes
    ensures c in s.nodes[p].children <==> c in Known(s, p) && c in s.nodes
  {
    assert EntryAt(plan, s, p) && Fits(s.nodes, p);
    if c in s.nodes {
      assert EntryAt(plan, s, c) && Fits(s.nodes, c);
      var k: nat :| Linked(plan, s, c, k);
    }
  }

  lemma ReachableTurnInv(plan: Plan, s: State)
    requires ReachableInTurn(plan, s)
    ensures TurnInv(plan, s)
  {
    var run :| CanRun(plan, START, run) && InTurn(plan, START, run) && After(plan, START, run) == s;
    StartTurnInv(plan);
    TurnRun(plan, START, run);
  }

  lemma StartTurnInv(plan: Plan)
    ensures TurnInv(plan, START)
  {
  }

  /** If the market handles its registrations one after the other, then after any
      run, with requests lost, retried and interleaved on their way, its registry
      is empty or a tree whenever it is idle. It holds exactly the accepted nodes,
      and lists under each exactly those of them that the node itself has recorded. */
  lemma RegistryAgrees(plan: Plan, s: State)
    requires ReachableInTurn(plan, s) && Idle(s)
    ensures s.nodes == map[] || Valid(s.nodes)
    ensures s.nodes.Keys == s.accepted
    ensures forall p, c :: p in s.nodes ==> (c in s.nodes[p].children <==> c in Known(s, p) && c in s.nodes)
  {
    ReachableTurnInv(plan, s);
    forall p, c | p in s.nodes ensures c in s.nodes[p].children <==> c in Known(s, p) && c in s.nodes {
      ListedIff(plan, s, p, c);
    }
  }

  /** On a tree or an empty registry a handler that works alone accepts a node
      that is not registered exactly when its parent is, or as a root when
      nothing is; otherwise it changes nothing. */
  lemma AcceptedIff(nodes: Nodes, job: Job)
    requires Fine(nodes) && job.id !in nodes
    ensures Accepted(nodes, job) <==> if job.Child? then job.parent in nodes else nodes == map[]
    ensures Fine(Left(nodes, job))
    ensures if Accepted(nodes, job) then Left(nodes, job).Keys == nodes.Keys + {job.id} else Left(nodes, job) == nodes
  {
    match job
    case Root(id) =>
      if nodes == map[] {
        FirstRoot(id, 0);
        ValidChecks(WithRoot(nodes, id, 0));
      } else {
        SecondRootRejected(nodes, id, 0);
      }
    case Child(parent, id) =>
      if parent in nodes {
        FreshChildAccepted(nodes, parent, id, 0);
      }
  }
}
