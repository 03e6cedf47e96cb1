/** Registrations that the market handles at the same time: they can leave its
    registry no tree, and exactly when. */
module RegistrationOverlap {
  import opened Model
  import opened Network
  import opened Registry
  import opened RegistryAccess
  import opened Registration
  import opened RegistrationInTurn
  import opened Basics

  lemma {:induction false} OneMore(plan: Plan, s: State, run: seq<Event>, e: Event)
    requires CanRun(plan, s, run) && Enabled(plan, After(plan, s, run), e)
    ensures CanRun(plan, s, run + [e]) && After(plan, s, run + [e]) == Step(plan, After(plan, s, run), e)
    decreases |run|
  {
    var longer := run + [e];
    if run == [] {
      assert longer[1..] == [];
    } else {
      OneMore(plan, Step(plan, s, run[0]), run[1..], e);
      assert longer[0] == run[0] && longer[1..] == run[1..] + [e];
    }
  }

  lemma Moves(plan: Plan, s: State, e: Event) returns (after: State)
    requires Reachable(plan, s) && Enabled(plan, s, e)
    ensures Reachable(plan, after) && after == Step(plan, s, e)
  {
    var run :| CanRun(plan, START, run) && After(plan, START, run) == s;
    OneMore(plan, START, run, e);
    after := Step(plan, s, e);
  }

  // ---- one handler goes on while the others wait ----

  lemma {:induction false} GoesOn(plan: Plan, s: State, id: NodeId, n: nat) returns (after: State)
    requires Reachable(plan, s) && id in s.requests && s.requests[id].Inside?
    requires id in plan && Sound(s.requests[id].pc) && !s.requests[id].pc.Done?
    ensures Reachable(plan, after) && after == Settle(s, id, Alone(s.nodes, s.requests[id].pc, n))
    decreases n
  {
    var pc := s.requests[id].pc;
    if n == 0 {
      assert s.requests[id := Inside(pc)] == s.requests;
      after := s;
    } else {
      after := Moves(plan, s, Access(id));
      var t := Takes(s.nodes, pc);
      if !t.next.Done? {
        var mid := after;
        after := GoesOn(plan, mid, id, n - 1);
        SettleTwice(s, id, t, Alone(t.nodes, t.next, n - 1));
      }
    }
  }

  lemma SettleTwice(s: State, id: NodeId, t: Turn, u: Turn)
    requires !t.next.Done?
    ensures Settle(Settle(s, id, t), id, u) == Settle(s, id, u)
  {
    var mid := Settle(s, id, t);
    assert mid.requests - {id} == s.requests - {id};
    assert mid.requests[id := AtMarket] == s.requests[id := AtMarket];
    assert mid.requests[id := Inside(u.next)] == s.requests[id := Inside(u.next)];
  }

  lemma IsRejected(plan: Plan, s: State, id: NodeId, pc: Pc, nodes: Nodes) returns (after: State)
    requires Reachable(plan, s) && id in s.requests && s.requests[id] == Inside(pc)
    requires id in plan && Sound(pc) && !pc.Done?
    requires Leads(s.nodes, pc, nodes, Done(pc.job, false))
    ensures Reachable(plan, after) && after == s.(nodes := nodes, requests := s.requests[id := AtMarket])
  {
    var n: nat :| Alone(s.nodes, pc, n) == Turn(nodes, Done(pc.job, false));
    after := GoesOn(plan, s, id, n);
  }

  lemma Enters(plan: Plan, s: State, id: NodeId, job: Job) returns (after: State)
    requires Reachable(plan, s) && id in plan && id in s.requests && s.requests[id] == AtMarket
    requires job == Handling(Request(plan, id))
    ensures Reachable(plan, after) && after == s.(requests := s.requests[id := Inside(Starting(job))])
  {
    after := Moves(plan, s, Deliver(id));
  }

  lemma Accesses(plan: Plan, s: State, id: NodeId, pc: Pc, nodes: Nodes, next: Pc) returns (after: State)
    requires Reachable(plan, s) && id in plan && id in s.requests && s.requests[id] == Inside(pc)
    requires Sound(pc) && !pc.Done? && !next.Done? && Takes(s.nodes, pc) == Turn(nodes, next)
    ensures Reachable(plan, after) && after == s.(nodes := nodes, requests := s.requests[id := Inside(next)])
  {
    after := Moves(plan, s, Access(id));
  }

  // ---- two children of one node of a tree ----

  // The tree, but for the children list of p and for entries of new children.
  ghost predicate Near(tree: Nodes, p: NodeId, nodes: Nodes) {
    && Valid(tree) && p in tree && p in nodes
    && (forall id :: id in tree ==> id in nodes && nodes[id].parent == tree[id].parent)
    && (forall id :: id in tree && id != p ==> nodes[id] == tree[id])
    && (forall id :: id in nodes && id !in tree ==> nodes[id] == Entry(Child(p, id)))
    && (forall c :: c in nodes[p].children && c in nodes ==> nodes[c].parent == Some(p))
  }

  ghost predicate Dangles(nodes: Nodes, p: NodeId, c: NodeId) {
    p in nodes && c in nodes[p].children && c !in nodes
  }

  // A listed node that is not registered.
  ghost predicate Dangling(nodes: Nodes, p: NodeId) {
    exists c :: Dangles(nodes, p, c)
  }

  lemma NearEnds(tree: Nodes, p: NodeId, nodes: Nodes)
    requires Near(tree, p, nodes)
    ensures Ends(nodes)
  {
    forall w, c | FromRoot(nodes, w) && c in nodes[Last(w)].children && c in nodes ensures nodes[c].parent.Some? {
      var u := Last(w);
      if u in tree && u != p {
        assert Fits(tree, u);
      }
    }
  }

  // The way down to p is still there, and the check finds the missing child.
  lemma NearFails(tree: Nodes, p: NodeId, nodes: Nodes, c: NodeId)
    requires Near(tree, p, nodes) && Dangles(nodes, p, c)
    ensures !Checks(nodes) && !Valid(nodes)
  {
    assert Fits(tree, p);
    var w :| FromRoot(tree, w) && Last(w) == p;
    ValidBacked(tree, w);
    forall i | 0 <= i < |w| - 1 ensures w[i + 1] in nodes[w[i]].children {
      BackedDiffers(tree, w, i, |w| - 1);
      assert w[i + 1] in tree[w[i]].children;
    }
    assert FromRoot(nodes, w);
    PathFails(nodes, w);
    assert !Fits(nodes, p);
  }

  // A handler that inserts its node and finds another missing goes back.
  lemma InsertFails(tree: Nodes, p: NodeId, nodes: Nodes, id: NodeId, missing: NodeId)
    requires var added := nodes[id := Entry(Child(p, id))];
      Near(tree, p, added) && Dangles(added, p, missing)
    ensures var added := nodes[id := Entry(Child(p, id))];
      Leads(nodes, Inserting(Child(p, id)), RolledBack(added, p, id), Done(Child(p, id), false))
  {
    var job := Child(p, id);
    var added := nodes[id := Entry(Child(p, id))];
    var end, back := Done(job, false), RolledBack(added, p, id);
    NearEnds(tree, p, added);
    NearFails(tree, p, added, missing);
    CheckAlone(added, job);
    UndoAlone(added, job);
    LeadsOn(added, ReadingRoots(job), added, Failed(job), back, end);
    LeadsStep(nodes, Inserting(job), back, end);
  }

  function Relisted(nodes: Nodes, p: NodeId, children: seq<NodeId>): Nodes
    requires p in nodes
  {
    nodes[p := nodes[p].(children := children)]
  }

  lemma RelistedNear(tree: Nodes, p: NodeId, children: seq<NodeId>)
    requires Valid(tree) && p in tree
    requires forall c :: c in children && c in tree ==> c in tree[p].children
    ensures Near(tree, p, Relisted(tree, p, children))
    ensures forall id :: id !in tree ==> Near(tree, p, Relisted(tree, p, children)[id := Entry(Child(p, id))])
  {
    assert Fits(tree, p);
  }

  // The first rollback takes the first of the list instead of the last.
  lemma FirstRollback(tree: Nodes, p: NodeId, a: NodeId, b: NodeId)
    requires p in tree && b !in tree
    ensures var list := tree[p].children + [a, b];
      RolledBack(Relisted(tree, p, list)[b := Entry(Child(p, b))], p, b) == Relisted(tree, p, list[1..])
  {
    var list := tree[p].children + [a, b];
    var added := Relisted(tree, p, list)[b := Entry(Child(p, b))];
    assert Last(list) == b && PositionFromEnd(list, b) == Some(0);
    assert RemoveAt(list, 0) == list[1..];
    assert RolledBack(added, p, b) == Relisted(tree, p, list[1..]);
  }

  // What the second leaves of the list, and whether it finds the node at all.
  function Second(list: seq<NodeId>, a: NodeId, b: NodeId): seq<NodeId> {
    if list == [] then [b] else RemoveAt(list[1..] + [a, b], 1)
  }

  lemma SecondRollback(tree: Nodes, p: NodeId, a: NodeId, b: NodeId)
    requires p in tree && a !in tree && a != b
    ensures var list := tree[p].children;
      var left := Relisted(tree, p, Second(list, a, b));
      RolledBack(Relisted(tree, p, (list + [a, b])[1..])[a := Entry(Child(p, a))], p, a)
      == if list == [] then left[a := Entry(Child(p, a))] else left
  {
    var list := tree[p].children;
    var m := (list + [a, b])[1..];
    var added := Relisted(tree, p, m)[a := Entry(Child(p, a))];
    if list == [] {
      assert m == [b] && PositionFromEnd([b], a) == None;
    } else {
      assert m == list[1..] + [a, b];
      assert m[..|m| - 1] == list[1..] + [a];
      assert PositionFromEnd(list[1..] + [a], a) == Some(0);
      assert PositionFromEnd(m, a) == Some(1);
      assert RolledBack(added, p, a) == Relisted(tree, p, RemoveAt(m, 1));
    }
  }

  // A registered node that its parent does not list.
  ghost predicate Orphans(nodes: Nodes, p: NodeId) {
    p in nodes && exists c :: c in nodes && nodes[c].parent == Some(p) && c !in nodes[p].children
  }

  // What is left of the tree.
  ghost function Wreck(tree: Nodes, p: NodeId, a: NodeId, b: NodeId): Nodes
    requires p in tree
  {
    var left := Relisted(tree, p, Second(tree[p].children, a, b));
    if tree[p].children == [] then left[a := Entry(Child(p, a))] else left
  }

  lemma SecondMembers(list: seq<NodeId>, a: NodeId, b: NodeId)
    ensures forall c :: c in Second(list, a, b) ==> c in list || c == a || c == b
    ensures b in Second(list, a, b) || (|list| == 1 && a in Second(list, a, b))
    ensures list != [] && NoRepeat(list) && list[0] != a && list[0] != b ==> list[0] !in Second(list, a, b)
  {
    if list != [] {
      var m := list[1..] + [a, b];
      assert m[|m| - 1] == b && m[|m| - 2] == a;
      assert forall c :: c in Second(list, a, b) ==> c in m;
      if |list| == 1 {
        assert Second(list, a, b)[0] == a;
      } else {
        assert Second(list, a, b)[|m| - 2] == b;
      }
      if NoRepeat(list) {
        assert list == [list[0]] + list[1..];
        assert multiset(list)[list[0]] == 1 + multiset(list[1..])[list[0]];
      }
    }
  }

  lemma IsWreck(tree: Nodes, p: NodeId, a: NodeId, b: NodeId)
    requires Valid(tree) && p in tree && a !in tree && b !in tree && a != b
    ensures var nodes := Wreck(tree, p, a, b);
      !Valid(nodes) && !Checks(nodes) && Orphans(nodes, p) && Dangling(nodes, p)
  {
    var list := tree[p].children;
    var nodes := Wreck(tree, p, a, b);
    var missing := if b in Second(list, a, b) then b else a;
    assert Fits(tree, p);
    SecondMembers(list, a, b);
    RelistedNear(tree, p, Second(list, a, b));
    assert Dangles(nodes, p, missing);
    NearFails(tree, p, nodes, missing);
    var orphan := if list == [] then a else list[0];
    assert orphan in nodes && orphan !in nodes[p].children;
  }

  ghost predicate Waits(plan: Plan, s: State, p: NodeId, id: NodeId) {
    id in plan && plan[id] == NodeConnected(p) && id in s.requests && s.requests[id] == AtMarket && id !in s.nodes
  }

  lemma Pushes(plan: Plan, s: State, p: NodeId, id: NodeId) returns (after: State)
    requires Reachable(plan, s) && p in s.nodes && id in plan && plan[id] == NodeConnected(p)
    requires id in s.requests && s.requests[id] == AtMarket
    ensures Reachable(plan, after)
    ensures after == s.(nodes := Pushed(s.nodes, p, id), requests := s.requests[id := Inside(Inserting(Child(p, id)))])
  {
    after := Enters(plan, s, id, Child(p, id));
    after := Accesses(plan, after, id, Pushing(Child(p, id)), Pushed(s.nodes, p, id), Inserting(Child(p, id)));
  }

  // Both handlers have put their node on the list, and neither has inserted it.
  lemma BothPush(plan: Plan, s: State, p: NodeId, a: NodeId, b: NodeId) returns (after: State)
    requires Reachable(plan, s) && p in s.nodes && a != b && Waits(plan, s, p, a) && Waits(plan, s, p, b)
    ensures Reachable(plan, after)
    ensures after == s.(nodes := Relisted(s.nodes, p, s.nodes[p].children + [a, b]),
                        requests := s.requests[a := Inside(Inserting(Child(p, a)))]
                                              [b := Inside(Inserting(Child(p, b)))])
  {
    after := Pushes(plan, s, p, a);
    after := Pushes(plan, after, p, b);
    PushedTwice(s.nodes, p, a, b);
  }

  lemma PushedTwice(nodes: Nodes, p: NodeId, a: NodeId, b: NodeId)
    requires p in nodes
    ensures Pushed(Pushed(nodes, p, a), p, b) == Relisted(nodes, p, nodes[p].children + [a, b])
  {
    assert nodes[p].children + [a] + [b] == nodes[p].children + [a, b];
  }

  // Then one of them fails over the other, and the other over what it left.
  lemma OneFails(plan: Plan, s: State, tree: Nodes, p: NodeId, a: NodeId, b: NodeId) returns (after: State)
    requires Reachable(plan, s) && Valid(tree) && p in tree && a !in tree && b !in tree && a != b
    requires b in plan && b in s.requests && s.requests[b] == Inside(Inserting(Child(p, b)))
    requires s.nodes == Relisted(tree, p, tree[p].children + [a, b])
    ensures Reachable(plan, after)
    ensures after == s.(nodes := Relisted(tree, p, (tree[p].children + [a, b])[1..]),
                        requests := s.requests[b := AtMarket])
  {
    var list := tree[p].children + [a, b];
    RelistedNear(tree, p, list);
    assert list[|list| - 2] == a;
    InsertFails(tree, p, s.nodes, b, a);
    FirstRollback(tree, p, a, b);
    after := IsRejected(plan, s, b, Inserting(Child(p, b)), Relisted(tree, p, list[1..]));
  }

  lemma OtherFails(plan: Plan, s: State, tree: Nodes, p: NodeId, a: NodeId, b: NodeId) returns (after: State)
    requires Reachable(plan, s) && Valid(tree) && p in tree && a !in tree && b !in tree && a != b
    requires a in plan && a in s.requests && s.requests[a] == Inside(Inserting(Child(p, a)))
    requires s.nodes == Relisted(tree, p, (tree[p].children + [a, b])[1..])
    ensures Reachable(plan, after)
    ensures after == s.(nodes := Wreck(tree, p, a, b), requests := s.requests[a := AtMarket])
  {
    var list := (tree[p].children + [a, b])[1..];
    RelistedNear(tree, p, list);
    assert list[|list| - 1] == b;
    InsertFails(tree, p, s.nodes, a, b);
    SecondRollback(tree, p, a, b);
    after := IsRejected(plan, s, a, Inserting(Child(p, a)), Wreck(tree, p, a, b));
  }

  /** From every tree that the market reaches: two nodes that register under the
      same parent at the same time can both be rejected and leave no tree behind,
      with a registered node that its parent no longer lists and a listed one
      that is not registered. */
  lemma OverlapBreaks(plan: Plan, s: State, p: NodeId, a: NodeId, b: NodeId) returns (after: State)
    requires Reachable(plan, s) && Idle(s) && Valid(s.nodes) && p in s.nodes
    requires a != b && Waits(plan, s, p, a) && Waits(plan, s, p, b)
    ensures Reachable(plan, after) && Idle(after)
    ensures !Valid(after.nodes) && !Checks(after.nodes) && Orphans(after.nodes, p)
    ensures Dangling(after.nodes, p)
  {
    after := BothPush(plan, s, p, a, b);
    after := OneFails(plan, after, s.nodes, p, a, b);
    after := OtherFails(plan, after, s.nodes, p, a, b);
    IsWreck(s.nodes, p, a, b);
  }

  // ---- which configurations are safe ----

  // A node is configured under a node of the market.
  ghost predicate Layered(plan: Plan) {
    exists r, c :: Under(plan, r, c)
  }

  ghost predicate Under(plan: Plan, r: NodeId, c: NodeId) {
    r in plan && plan[r].MarketConnected? && c in plan && plan[c] == NodeConnected(r)
  }

  // The root is checked while the child is on its list and not yet inserted.
  lemma RootLost(plan: Plan, r: NodeId, c: NodeId) returns (s: State)
    requires Under(plan, r, c)
    ensures Reachable(plan, s) && Idle(s) && s.nodes == map[c := Entry(Child(r, c))]
  {
    s := BothArrive(plan, r, c);
    s := BothAdd(plan, s, r, c);
    s := RootFails(plan, s, r, c);
    s := ChildStays(plan, s, r, c);
  }

  lemma BothArrive(plan: Plan, r: NodeId, c: NodeId) returns (s: State)
    requires Under(plan, r, c)
    ensures Reachable(plan, s) && s.nodes == map[]
    ensures s.requests == map[r := Inside(Inserting(Root(r))), c := Inside(Pushing(Child(r, c)))]
  {
    s := START;
    assert CanRun(plan, START, []) && After(plan, START, []) == START;
    s := Moves(plan, s, Start(r));
    s := Moves(plan, s, Start(c));
    s := Moves(plan, s, Relay(c));
    s := Enters(plan, s, r, Root(r));
    s := Enters(plan, s, c, Child(r, c));
  }

  lemma BothAdd(plan: Plan, s: State, r: NodeId, c: NodeId) returns (after: State)
    requires Under(plan, r, c) && Reachable(plan, s) && s.nodes == map[]
    requires s.requests == map[r := Inside(Inserting(Root(r))), c := Inside(Pushing(Child(r, c)))]
    ensures Reachable(plan, after) && after.nodes == map[r := Entry(Root(r)).(children := [c])]
    ensures after.requests == map[r := Inside(ReadingRoots(Root(r))), c := Inside(Inserting(Child(r, c)))]
  {
    var root := map[r := Entry(Root(r))];
    after := Accesses(plan, s, r, Inserting(Root(r)), root, ReadingRoots(Root(r)));
    after := Accesses(plan, after, c, Pushing(Child(r, c)), Pushed(root, r, c), Inserting(Child(r, c)));
    assert [] + [c] == [c];
  }

  lemma RootFails(plan: Plan, s: State, r: NodeId, c: NodeId) returns (after: State)
    requires Under(plan, r, c) && Reachable(plan, s) && s.nodes == map[r := Entry(Root(r)).(children := [c])]
    requires s.requests == map[r := Inside(ReadingRoots(Root(r))), c := Inside(Inserting(Child(r, c)))]
    ensures Reachable(plan, after) && after.nodes == map[]
    ensures after.requests == map[r := AtMarket, c := Inside(Inserting(Child(r, c)))]
  {
    RootLeads(s.nodes, r, c);
    after := IsRejected(plan, s, r, ReadingRoots(Root(r)), map[]);
  }

  lemma RootLeads(nodes: Nodes, r: NodeId, c: NodeId)
    requires r != c && nodes == map[r := Entry(Root(r)).(children := [c])]
    ensures Leads(nodes, ReadingRoots(Root(r)), map[], Done(Root(r), false))
  {
    assert Roots(nodes) == {r};
    assert nodes - {r} == map[];
    assert c in nodes[r].children && !LinksAgree(nodes, r);
    UndoAlone(nodes, Root(r));
    TurnAlone(nodes, Root(r), [], r);
    assert [] + [r] == [r];
    LeadsOn(nodes, Popping(Root(r), [r]), nodes, Failed(Root(r)), map[], Done(Root(r), false));
    LeadsStep(nodes, ReadingRoots(Root(r)), map[], Done(Root(r), false));
  }

  lemma ChildStays(plan: Plan, s: State, r: NodeId, c: NodeId) returns (after: State)
    requires Under(plan, r, c) && Reachable(plan, s) && s.nodes == map[]
    requires s.requests == map[r := AtMarket, c := Inside(Inserting(Child(r, c)))]
    ensures Reachable(plan, after) && Idle(after) && after.nodes == map[c := Entry(Child(r, c))]
  {
    ChildLeads(r, c);
    after := IsRejected(plan, s, c, Inserting(Child(r, c)), map[c := Entry(Child(r, c))]);
  }

  lemma ChildLeads(r: NodeId, c: NodeId)
    requires r != c
    ensures Leads(map[], Inserting(Child(r, c)), map[c := Entry(Child(r, c))], Done(Child(r, c), false))
  {
    var job := Child(r, c);
    var nodes := map[c := Entry(job)];
    assert Roots(nodes) == {};
    UndoAlone(nodes, job);
    LeadsStep(nodes, ReadingRoots(job), nodes, Done(job, false));
    LeadsStep(map[], Inserting(job), nodes, Done(job, false));
  }

  // ---- with no node under a node of the market ----

  ghost predicate RootWalk(pc: Pc)
    requires pc.Walking()
  {
    if pc.Popping? then pc.stack == [pc.job.id] || pc.stack == []
    else pc.stack == [] && pc.at == pc.job.id && pc.children == []
  }

  // What a handler finds when only roots are ever added.
  ghost predicate RootPhase(nodes: Nodes, pc: Pc) {
    if pc.job.Child? then pc.Pushing?
    else
      && (pc.Inserting? || pc.ReadingRoots? || pc.Walking() || pc.Removing?)
      && (pc.Inserting? <==> pc.job.id !in nodes)
      && (pc.Walking() ==> RootWalk(pc))
  }

  ghost predicate RootsOnly(plan: Plan, nodes: Nodes) {
    forall c :: c in nodes ==> c in plan && plan[c].MarketConnected? && nodes[c] == Entry(Root(c))
  }

  ghost predicate PhaseAt(s: State, c: NodeId) {
    && (InsideAt(s, c) ==> RootPhase(s.nodes, s.requests[c].pc))
    && (c in s.nodes ==> c in s.accepted || InsideAt(s, c))
    && (c in s.accepted ==> c in s.nodes && c !in s.requests)
  }

  // The root has been seen to be the only one.
  ghost predicate Claims(s: State, c: NodeId) {
    c in s.accepted || (InsideAt(s, c) && s.requests[c].pc.Walking())
  }

  ghost predicate ClaimsAgree(s: State, c: NodeId, d: NodeId) {
    Claims(s, c) && Claims(s, d) ==> c == d
  }

  ghost predicate RootsInv(plan: Plan, s: State) {
    && Inv(plan, s)
    && RootsOnly(plan, s.nodes)
    && (forall c {:trigger PhaseAt(s, c)} :: PhaseAt(s, c))
    && (forall c, d {:trigger ClaimsAgree(s, c, d)} :: ClaimsAgree(s, c, d))
  }

  // The only root that a reader sees is its own.
  lemma OnlyItself(plan: Plan, nodes: Nodes, id: NodeId)
    requires RootsOnly(plan, nodes) && id in nodes && |Roots(nodes)| == 1
    ensures nodes.Keys == {id} && Pick(Roots(nodes)) == id
  {
    forall c | c in nodes ensures c == id {
      SoleRoot(nodes, id, c);
    }
    assert Pick(Roots(nodes)) in Roots(nodes);
  }

  lemma RegisteredIsAbove(plan: Plan, nodes: Nodes, p: NodeId, c: NodeId)
    requires RootsOnly(plan, nodes) && c in plan && plan[c] == NodeConnected(p)
    ensures c !in nodes
    ensures p in nodes ==> Under(plan, p, c)
  {
  }

  lemma RootPhaseTurn(plan: Plan, nodes: Nodes, pc: Pc)
    requires !Layered(plan) && RootsOnly(plan, nodes) && Sound(pc) && !pc.Done? && RootPhase(nodes, pc)
    requires pc.job.id in plan && pc.job == Handling(Request(plan, pc.job.id))
    ensures var t := Takes(nodes, pc);
      && RootsOnly(plan, t.nodes)
      && t.nodes.Keys - {pc.job.id} == nodes.Keys - {pc.job.id}
      && (if t.next.Done? then pc.job.id in t.nodes <==> t.next.ok else RootPhase(t.nodes, t.next))
      && (t.next.Done? && t.next.ok ==> pc.Walking())
      && (t.next.Walking() && !pc.Walking() ==> nodes.Keys == {pc.job.id})
  {
    if pc.job.Child? {
      RegisteredIsAbove(plan, nodes, pc.job.parent, pc.job.id);
    } else if pc.ReadingRoots? && |Roots(nodes)| == 1 {
      OnlyItself(plan, nodes, pc.job.id);
    }
  }

  lemma RootsOutside(plan: Plan, s: State, e: Event)
    requires RootsInv(plan, s) && Enabled(plan, s, e) && !e.Access?
    ensures RootsInv(plan, Step(plan, s, e))
  {
    var t := Step(plan, s, e);
    InvStep(plan, s, e);
    forall c ensures PhaseAt(t, c) && (Claims(t, c) ==> Claims(s, c)) {
      assert PhaseAt(s, c) && HandlesAt(plan, t, c);
    }
    forall c, d ensures ClaimsAgree(t, c, d) {
      assert ClaimsAgree(s, c, d);
    }
  }

  lemma ClaimIsKnown(plan: Plan, s: State, c: NodeId)
    requires RootsInv(plan, s) && Claims(s, c)
    ensures c in s.nodes
  {
    assert PhaseAt(s, c) && HandlesAt(plan, s, c);
  }

  // Only the handler that moved can claim what it did not claim before, and
  // then no other node is registered.
  lemma ClaimStep(plan: Plan, s: State, e: Event, c: NodeId)
    requires !Layered(plan) && RootsInv(plan, s) && Enabled(plan, s, e) && e.Access?
    ensures Claims(Step(plan, s, e), c) ==> Claims(s, c) || (c == e.id && s.nodes.Keys == {c})
  {
    assert HandlesAt(plan, s, e.id) && PhaseAt(s, e.id);
    RootPhaseTurn(plan, s.nodes, s.requests[e.id].pc);
  }

  lemma RootsAccess(plan: Plan, s: State, e: Event)
    requires !Layered(plan) && RootsInv(plan, s) && Enabled(plan, s, e) && e.Access?
    ensures RootsInv(plan, Step(plan, s, e))
  {
    var t := Step(plan, s, e);
    InvStep(plan, s, e);
    RootsAccessPhase(plan, s, e);
    forall c, d ensures ClaimsAgree(t, c, d) {
      ClaimStep(plan, s, e, c);
      ClaimStep(plan, s, e, d);
      assert ClaimsAgree(s, c, d);
      if Claims(s, c) { ClaimIsKnown(plan, s, c); }
      if Claims(s, d) { ClaimIsKnown(plan, s, d); }
    }
  }

  lemma RootsAccessPhase(plan: Plan, s: State, e: Event)
    requires !Layered(plan) && RootsInv(plan, s) && Enabled(plan, s, e) && e.Access?
    ensures RootsOnly(plan, Step(plan, s, e).nodes)
    ensures forall c {:trigger PhaseAt(Step(plan, s, e), c)} :: PhaseAt(Step(plan, s, e), c)
  {
    var t := Step(plan, s, e);
    assert HandlesAt(plan, s, e.id) && PhaseAt(s, e.id);
    RootPhaseTurn(plan, s.nodes, s.requests[e.id].pc);
    forall c ensures PhaseAt(t, c) {
      assert PhaseAt(s, c) && HandlesAt(plan, s, c);
    }
  }

  lemma {:induction false} RootsRun(plan: Plan, s: State, run: seq<Event>)
    requires !Layered(plan) && RootsInv(plan, s) && CanRun(plan, s, run)
    ensures RootsInv(plan, After(plan, s, run))
    decreases |run|
  {
    if run != [] {
      if run[0].Access? {
        RootsAccess(plan, s, run[0]);
      } else {
        RootsOutside(plan, s, run[0]);
      }
      RootsRun(plan, Step(plan, s, run[0]), run[1..]);
    }
  }

  lemma RootsAreFine(plan: Plan, s: State)
    requires !Layered(plan) && Reachable(plan, s) && Idle(s)
    ensures Fine(s.nodes)
  {
    var run :| CanRun(plan, START, run) && After(plan, START, run) == s;
    RootsRun(plan, START, run);
    if s.nodes != map[] {
      var r :| r in s.nodes;
      assert PhaseAt(s, r);
      forall c | c in s.nodes ensures c == r {
        assert PhaseAt(s, c) && ClaimsAgree(s, c, r);
      }
      assert s.nodes == WithRoot(map[], r, 0);
      FirstRoot(r, 0);
    }
  }

  lemma LostIsNotFine(r: NodeId, c: NodeId)
    requires r != c
    ensures !Fine(map[c := Entry(Child(r, c))])
  {
    var nodes := map[c := Entry(Child(r, c))];
    assert !Fits(nodes, c);
  }

  /** The market's idle registry is empty or a tree in all runs, whatever
      registrations it handles at the same time, exactly when no node is
      configured under a node of the market. */
  lemma TreeAtRestIff(plan: Plan)
    ensures (forall s :: Reachable(plan, s) && Idle(s) ==> s.nodes == map[] || Valid(s.nodes)) <==> !Layered(plan)
  {
    if r, c :| Under(plan, r, c) {
      var s := RootLost(plan, r, c);
      LostIsNotFine(r, c);
    } else {
      forall s | Reachable(plan, s) && Idle(s) ensures s.nodes == map[] || Valid(s.nodes) {
        RootsAreFine(plan, s);
      }
    }
  }
}
