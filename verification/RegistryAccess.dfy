/** The market's registry as its handlers touch it: every access to the map of
    nodes is one step, and between two steps of a registration other
    registrations may take theirs. */
module RegistryAccess {
  import opened Model
  import opened Network
  import opened Registry
  import opened Basics

  datatype Job = Child(parent: NodeId, id: NodeId) | Root(id: NodeId)

  // The access a handler makes next. A lookup that finds nothing where the code
  // unwraps its result ends the handler without a rollback.
  datatype Pc =
    | Pushing(job: Job)
    | Inserting(job: Job)
    | ReadingRoots(job: Job)
    | Popping(job: Job, stack: seq<NodeId>)
    | Finding(job: Job, stack: seq<NodeId>, at: NodeId, children: seq<NodeId>, i: nat)
    | Agreeing(job: Job, stack: seq<NodeId>, at: NodeId, children: seq<NodeId>, i: nat)
    | Locating(job: Job)
    | Unlisting(job: Job, pos: nat)
    | Removing(job: Job)
    | Done(job: Job, ok: bool)
  {
    predicate Walking() {
      Popping? || Finding? || Agreeing?
    }

    predicate Undoing() {
      Locating? || Unlisting? || Removing?
    }
  }

  datatype Turn = Turn(nodes: Nodes, next: Pc)

  function Starting(job: Job): Pc {
    if job.Child? then Pushing(job) else Inserting(job)
  }

  // Where a handler goes when its check fails.
  function Failed(job: Job): Pc {
    if job.Child? then Locating(job) else Removing(job)
  }

  function Pushed(nodes: Nodes, parent: NodeId, child: NodeId): Nodes
    requires parent in nodes
  {
    nodes[parent := nodes[parent].(children := nodes[parent].children + [child])]
  }

  function Entry(job: Job): Node {
    if job.Child? then Node(Some(job.parent), [], 0) else Node(None, [], 0)
  }

  // Adding the node.
  function AddTurn(nodes: Nodes, pc: Pc): Turn
    requires (pc.Pushing? && pc.job.Child?) || pc.Inserting?
  {
    match pc
    case Pushing(job) =>
      if job.parent in nodes then Turn(Pushed(nodes, job.parent, job.id), Inserting(job))
      else Turn(nodes, Done(job, false))
    case Inserting(job) => Turn(nodes[job.id := Entry(job)], ReadingRoots(job))
  }

  // Checking the tree; nothing is written.
  ghost function CheckStep(nodes: Nodes, pc: Pc): Pc
    requires pc.ReadingRoots? || pc.Walking()
  {
    match pc
    case ReadingRoots(job) =>
      if |Roots(nodes)| == 1 then Popping(job, [Pick(Roots(nodes))]) else Failed(job)
    case Popping(job, stack) =>
      if stack == [] then Done(job, true)
      else if Last(stack) !in nodes then Done(job, false)
      else Finding(job, stack[..|stack| - 1], Last(stack), nodes[Last(stack)].children, 0)
    case Finding(job, stack, at, children, i) =>
      if |children| <= i then Agreeing(job, stack, at, children, 0)
      else if children[i] in nodes then Finding(job, stack, at, children, i + 1)
      else Failed(job)
    case Agreeing(job, stack, at, children, i) =>
      if |children| <= i then Popping(job, stack + children)
      else if children[i] !in nodes then Done(job, false)
      else if nodes[children[i]].parent.Some? && nodes[children[i]].parent != Some(at) then Failed(job)
      else Agreeing(job, stack, at, children, i + 1)
  }

  // Undoing a rejected registration.
  function UndoTurn(nodes: Nodes, pc: Pc): Turn
    requires pc.Undoing() && (pc.job.Child? || pc.Removing?)
  {
    match pc
    case Locating(job) =>
      if job.parent !in nodes then Turn(nodes, Done(job, false))
      else (match PositionFromEnd(nodes[job.parent].children, job.id)
            case None => Turn(nodes, Done(job, false))
            case Some(pos) => Turn(nodes, Unlisting(job, pos)))
    case Unlisting(job, pos) =>
      if job.parent !in nodes || |nodes[job.parent].children| <= pos then Turn(nodes, Done(job, false))
      else
        var left := RemoveAt(nodes[job.parent].children, pos);
        Turn(nodes[job.parent := nodes[job.parent].(children := left)], Removing(job))
    case Removing(job) => Turn(nodes - {job.id}, Done(job, false))
  }

  predicate Sound(pc: Pc) {
    pc.Pushing? || pc.Locating? || pc.Unlisting? ==> pc.job.Child?
  }

  ghost function Takes(nodes: Nodes, pc: Pc): (t: Turn)
    requires Sound(pc) && !pc.Done?
    ensures Sound(t.next) && t.next.job == pc.job
    ensures t.next.Done? && t.next.ok <==> pc.Popping? && pc.stack == []
  {
    if pc.Pushing? || pc.Inserting? then AddTurn(nodes, pc)
    else if pc.Undoing() then UndoTurn(nodes, pc)
    else Turn(nodes, CheckStep(nodes, pc))
  }

  // What the handler leaves when nobody else is at work.
  ghost function Left(nodes: Nodes, job: Job): Nodes {
    match job
    case Root(id) => RootAppended(nodes, id, 0)
    case Child(parent, id) => Appended(nodes, parent, id, 0)
  }

  // And what it answers.
  ghost predicate Accepted(nodes: Nodes, job: Job) {
    match job
    case Root(id) => Checks(WithRoot(nodes, id, 0))
    case Child(parent, id) => parent in nodes && Checks(WithChild(nodes, parent, id, 0))
  }

  // A handler at `pc` that makes n accesses with nobody else at work.
  ghost function Alone(nodes: Nodes, pc: Pc, n: nat): Turn
    requires Sound(pc)
    decreases n
  {
    if n == 0 || pc.Done? then Turn(nodes, pc)
    else
      var t := Takes(nodes, pc);
      Alone(t.nodes, t.next, n - 1)
  }

  lemma {:induction false} AloneJoins(nodes: Nodes, pc: Pc, n: nat, m: nat)
    requires Sound(pc)
    ensures Sound(Alone(nodes, pc, n).next)
    ensures Alone(nodes, pc, n + m) == Alone(Alone(nodes, pc, n).nodes, Alone(nodes, pc, n).next, m)
    decreases n
  {
    if n > 0 && !pc.Done? {
      var t := Takes(nodes, pc);
      AloneJoins(t.nodes, t.next, n - 1, m);
    }
  }

  // Alone, the handler gets from one place to another.
  ghost predicate Leads(nodes: Nodes, pc: Pc, after: Nodes, next: Pc)
    requires Sound(pc)
  {
    exists n: nat :: Alone(nodes, pc, n) == Turn(after, next)
  }

  lemma LeadsOn(nodes: Nodes, pc: Pc, mid: Nodes, via: Pc, after: Nodes, next: Pc)
    requires Sound(pc) && Sound(via) && Leads(nodes, pc, mid, via) && Leads(mid, via, after, next)
    ensures Leads(nodes, pc, after, next)
  {
    var n: nat :| Alone(nodes, pc, n) == Turn(mid, via);
    var m: nat :| Alone(mid, via, m) == Turn(after, next);
    AloneJoins(nodes, pc, n, m);
    assert Alone(nodes, pc, n + m) == Turn(after, next);
  }

  lemma LeadsHere(nodes: Nodes, pc: Pc)
    requires Sound(pc)
    ensures Leads(nodes, pc, nodes, pc)
  {
    assert Alone(nodes, pc, 0) == Turn(nodes, pc);
  }

  lemma LeadsStep(nodes: Nodes, pc: Pc, after: Nodes, next: Pc)
    requires Sound(pc) && !pc.Done?
    requires Leads(Takes(nodes, pc).nodes, Takes(nodes, pc).next, after, next)
    ensures Leads(nodes, pc, after, next)
  {
    var t := Takes(nodes, pc);
    var n: nat :| Alone(t.nodes, t.next, n) == Turn(after, next);
    assert Alone(nodes, pc, n + 1) == Turn(after, next);
  }

  // ---- the check alone ----

  lemma {:induction false} FindsAll(nodes: Nodes, job: Job, stack: seq<NodeId>, at: NodeId, children: seq<NodeId>,
                                    i: nat)
    requires i <= |children|
    ensures (forall j :: i <= j < |children| ==> children[j] in nodes) ==>
              Leads(nodes, Finding(job, stack, at, children, i), nodes, Agreeing(job, stack, at, children, 0))
    ensures !(forall j :: i <= j < |children| ==> children[j] in nodes) ==>
              Leads(nodes, Finding(job, stack, at, children, i), nodes, Failed(job))
    decreases |children| - i
  {
    var pc := Finding(job, stack, at, children, i);
    if i == |children| || children[i] !in nodes {
      LeadsHere(nodes, CheckStep(nodes, pc));
    } else {
      FindsAll(nodes, job, stack, at, children, i + 1);
    }
    if forall j :: i <= j < |children| ==> children[j] in nodes {
      LeadsStep(nodes, pc, nodes, Agreeing(job, stack, at, children, 0));
    } else {
      LeadsStep(nodes, pc, nodes, Failed(job));
    }
  }

  predicate Agrees(nodes: Nodes, at: NodeId, c: NodeId)
    requires c in nodes
  {
    nodes[c].parent.Some? ==> nodes[c].parent == Some(at)
  }

  lemma {:induction false} AgreesAll(nodes: Nodes, job: Job, stack: seq<NodeId>, at: NodeId, children: seq<NodeId>,
                                     i: nat)
    requires i <= |children| && forall c :: c in children ==> c in nodes
    ensures (forall j :: i <= j < |children| ==> Agrees(nodes, at, children[j])) ==>
              Leads(nodes, Agreeing(job, stack, at, children, i), nodes, Popping(job, stack + children))
    ensures !(forall j :: i <= j < |children| ==> Agrees(nodes, at, children[j])) ==>
              Leads(nodes, Agreeing(job, stack, at, children, i), nodes, Failed(job))
    decreases |children| - i
  {
    var pc := Agreeing(job, stack, at, children, i);
    if i == |children| || !Agrees(nodes, at, children[i]) {
      LeadsHere(nodes, CheckStep(nodes, pc));
    } else {
      AgreesAll(nodes, job, stack, at, children, i + 1);
    }
    if forall j :: i <= j < |children| ==> Agrees(nodes, at, children[j]) {
      LeadsStep(nodes, pc, nodes, Popping(job, stack + children));
    } else {
      LeadsStep(nodes, pc, nodes, Failed(job));
    }
  }

  // One turn of the loop, in small steps.
  lemma TurnAlone(nodes: Nodes, job: Job, stack: seq<NodeId>, id: NodeId)
    requires id in nodes
    ensures LinksAgree(nodes, id) ==>
              Leads(nodes, Popping(job, stack + [id]), nodes, Popping(job, stack + nodes[id].children))
    ensures !LinksAgree(nodes, id) ==> Leads(nodes, Popping(job, stack + [id]), nodes, Failed(job))
  {
    var pc := Popping(job, stack + [id]);
    var children := nodes[id].children;
    var end := if LinksAgree(nodes, id) then Popping(job, stack + children) else Failed(job);
    assert (stack + [id])[..|stack|] == stack;
    FindsAll(nodes, job, stack, id, children, 0);
    if forall c :: c in children ==> c in nodes {
      AgreesAll(nodes, job, stack, id, children, 0);
      assert LinksAgree(nodes, id) <==> forall j :: 0 <= j < |children| ==> Agrees(nodes, id, children[j]);
      LeadsOn(nodes, Finding(job, stack, id, children, 0), nodes, Agreeing(job, stack, id, children, 0), nodes, end);
    }
    LeadsStep(nodes, pc, nodes, end);
  }

  // A path from the root to a node whose links disagree fails the check.
  lemma PathFails(nodes: Nodes, p: seq<NodeId>)
    requires FromRoot(nodes, p) && !LinksAgree(nodes, Last(p))
    ensures !Checks(nodes)
  {
  }

  ghost function Verdict(nodes: Nodes, job: Job): Pc {
    if Checks(nodes) then Done(job, true) else Failed(job)
  }

  lemma {:induction false} LoopAlone(nodes: Nodes, job: Job, root: NodeId, visited: seq<NodeId>, stack: seq<NodeId>,
                                     paths: seq<seq<NodeId>>)
    requires |Roots(nodes)| == 1 && IsRoot(nodes, root) && Ends(nodes)
    requires Led(nodes, stack, paths) && Explored(nodes, root, visited, stack)
    ensures Leads(nodes, Popping(job, stack), nodes, Verdict(nodes, job))
    decreases Owed(nodes, paths)
  {
    if stack == [] {
      ExploredAll(nodes, root, visited);
      LeadsHere(nodes, Done(job, true));
      LeadsStep(nodes, Popping(job, []), nodes, Done(job, true));
    } else {
      var front, id := stack[..|stack| - 1], Last(stack);
      var ways, path := paths[..|paths| - 1], paths[|paths| - 1];
      assert stack == front + [id] && paths == ways + [path];
      LedPop(nodes, front, ways, id, path);
      TurnAlone(nodes, job, front, id);
      if LinksAgree(nodes, id) {
        LedOn(nodes, front, ways, id, path);
        ExploredOn(nodes, root, visited, front, id);
        var children := nodes[id].children;
        LoopAlone(nodes, job, root, visited + [id], front + children, ways + Branches(path, children, |children|));
        LeadsOn(nodes, Popping(job, stack), nodes, Popping(job, front + children), nodes, Verdict(nodes, job));
      } else {
        PathFails(nodes, path);
      }
    }
  }

  /** With nobody else at work, the accesses of a check give the answer that the
      registry as a whole calls for. */
  lemma CheckAlone(nodes: Nodes, job: Job)
    requires Ends(nodes)
    ensures Leads(nodes, ReadingRoots(job), nodes, Verdict(nodes, job))
  {
    var pc := ReadingRoots(job);
    if |Roots(nodes)| == 1 {
      var root := Pick(Roots(nodes));
      assert Backed(nodes, [root]);
      LoopAlone(nodes, job, root, [], [root], [[root]]);
    } else {
      LeadsHere(nodes, Failed(job));
    }
    LeadsStep(nodes, pc, nodes, Verdict(nodes, job));
  }

  lemma UndoAlone(nodes: Nodes, job: Job)
    ensures Leads(nodes, Failed(job), if job.Child? then RolledBack(nodes, job.parent, job.id) else nodes - {job.id},
                  Done(job, false))
  {
    var end := Done(job, false);
    var t := Takes(nodes, Failed(job));
    if t.next.Unlisting? {
      var u := Takes(nodes, t.next);
      var r := Takes(u.nodes, u.next);
      LeadsHere(r.nodes, end);
      LeadsStep(u.nodes, u.next, r.nodes, end);
      LeadsStep(nodes, t.next, r.nodes, end);
      LeadsStep(nodes, Failed(job), r.nodes, end);
    } else {
      LeadsHere(t.nodes, end);
      LeadsStep(nodes, Failed(job), t.nodes, end);
    }
  }

  /** An entry that another handler has removed meanwhile: a child that is looked for
      rejects the registration and undoes it; every other lookup ends the handler
      where it stands, and what it added stays. */
  lemma MissingEntry(nodes: Nodes, job: Job, stack: seq<NodeId>, gone: NodeId, at: NodeId, children: seq<NodeId>,
                     i: nat)
    requires gone !in nodes && i < |children| && children[i] == gone
    ensures Leads(nodes, Popping(job, stack + [gone]), nodes, Done(job, false))
    ensures Leads(nodes, Agreeing(job, stack, at, children, i), nodes, Done(job, false))
    ensures Leads(nodes, Finding(job, stack, at, children, i),
                  if job.Child? then RolledBack(nodes, job.parent, job.id) else nodes - {job.id}, Done(job, false))
    ensures job.Child? && job.parent == gone ==>
      Leads(nodes, Locating(job), nodes, Done(job, false)) && Leads(nodes, Unlisting(job, i), nodes, Done(job, false))
  {
    var end := Done(job, false);
    LeadsHere(nodes, end);
    LeadsStep(nodes, Popping(job, stack + [gone]), nodes, end);
    LeadsStep(nodes, Agreeing(job, stack, at, children, i), nodes, end);
    UndoAlone(nodes, job);
    var undone := if job.Child? then RolledBack(nodes, job.parent, job.id) else nodes - {job.id};
    LeadsStep(nodes, Finding(job, stack, at, children, i), undone, end);
    if job.Child? && job.parent == gone {
      LeadsStep(nodes, Locating(job), nodes, end);
      LeadsStep(nodes, Unlisting(job, i), nodes, end);
    }
  }

  // The registry once the node is added.
  function Added(nodes: Nodes, job: Job): Nodes
    requires job.Child? ==> job.parent in nodes
  {
    if job.Child? then WithChild(nodes, job.parent, job.id, 0) else WithRoot(nodes, job.id, 0)
  }

  lemma AddAlone(nodes: Nodes, job: Job)
    requires job.Child? ==> job.parent in nodes
    ensures Leads(nodes, Starting(job), Added(nodes, job), ReadingRoots(job))
  {
    var after := Added(nodes, job);
    LeadsHere(after, ReadingRoots(job));
    if job.Child? {
      var pushed := Pushed(nodes, job.parent, job.id);
      LeadsStep(pushed, Inserting(job), after, ReadingRoots(job));
      LeadsStep(nodes, Pushing(job), after, ReadingRoots(job));
    } else {
      LeadsStep(nodes, Inserting(job), after, ReadingRoots(job));
    }
  }

  /** With nobody else at work, the accesses of a registration amount to the one
      move of the registry's method. */
  lemma AppendAlone(nodes: Nodes, job: Job)
    requires Checkable(nodes)
    ensures Leads(nodes, Starting(job), Left(nodes, job), Done(job, Accepted(nodes, job)))
  {
    var end := Done(job, Accepted(nodes, job));
    if job.Child? && job.parent !in nodes {
      LeadsHere(nodes, end);
      LeadsStep(nodes, Pushing(job), nodes, end);
    } else {
      var added := Added(nodes, job);
      if job.Child? {
        ChildCheckable(nodes, job.parent, job.id, 0);
      } else {
        RootCheckable(nodes, job.id, 0);
      }
      AddAlone(nodes, job);
      CheckAlone(added, job);
      LeadsOn(nodes, Starting(job), added, ReadingRoots(job), added, Verdict(added, job));
      if !Checks(added) {
        UndoAlone(added, job);
        LeadsOn(nodes, Starting(job), added, Failed(job), Left(nodes, job), end);
      }
    }
  }
}
