/** How a starting node registers: it sends a request to its parent, which
    records it and forwards it upward until the market adds it to its registry. */
module Registration {
  import opened Model
  import opened Network
  import Registry
  import opened RegistryAccess

  // What a node is configured with.
  datatype Situation = MarketConnected | NodeConnected(parent: NodeId)

  type Plan = map<NodeId, Situation>

  datatype RegisterNode = MarketNode(nodeId: NodeId) | Node(nodeId: NodeId, parent: NodeId)

  // ---- one node ----

  // The children a node has recorded, with their descriptions.
  class NodeSituation {
    const myId: NodeId
    const situation: Situation
    var children: map<NodeId, nat>

    constructor (myId: NodeId, situation: Situation)
      ensures this.myId == myId && this.situation == situation && children == map[]
    {
      this.myId := myId;
      this.situation := situation;
      children := map[];
    }

    method Register(id: NodeId, description: nat)
      modifies this
      ensures children == old(children)[id := description]
    {
      children := children[id := description];
    }

    // A recorded child shadows the parent, whose description takes this node's
    // own bandwidth.
    function GetFogNodeNeighbor(id: NodeId, parentDescription: nat): (r: Option<nat>)
      reads this
      ensures r.Some? <==> id in children || situation == NodeConnected(id)
      ensures r.Some? ==> if id in children then r.value == children[id] else r.value == parentDescription
    {
      if id in children then Some(children[id])
      else if situation == NodeConnected(id) then Some(parentDescription)
      else None
    }

    // The children in whatever order the table yields them, then the parent.
    method GetNeighbors() returns (neighbors: seq<NodeId>)
      ensures forall v :: v in neighbors <==> v in children || situation == NodeConnected(v)
      ensures (situation.NodeConnected? ==> situation.parent !in children) ==> Distinct(neighbors)
      ensures situation.NodeConnected? ==> neighbors != [] && Last(neighbors) == situation.parent
    {
      neighbors := [];
      var rest := children.Keys;
      while rest != {}
        invariant rest <= children.Keys && Distinct(neighbors)
        invariant forall v :: v in neighbors <==> v in children.Keys - rest
        decreases |rest|
      {
        var id :| id in rest;
        rest := rest - {id};
        DistinctAppend(neighbors, id);
        neighbors := neighbors + [id];
      }
      if situation.NodeConnected? {
        if situation.parent !in children {
          DistinctAppend(neighbors, situation.parent);
        }
        neighbors := neighbors + [situation.parent];
      }
    }
  }

  // The children a node knows after a request went through it.
  function Recorded(children: set<NodeId>, me: NodeId, register: RegisterNode): set<NodeId> {
    if register.Node? && register.parent == me then children + {register.nodeId} else children
  }

  class NodeLife {
    const nodeSituation: NodeSituation

    constructor (nodeSituation: NodeSituation)
      ensures this.nodeSituation == nodeSituation
    {
      this.nodeSituation := nodeSituation;
    }

    // `upward` is what the forwarded request answers.
    method RegisterChildNode(register: RegisterNode, description: nat, upward: bool)
      returns (ok: bool, forwarded: Option<RegisterNode>)
      modifies nodeSituation
      ensures forwarded == if register.MarketNode? then None else Some(register)
      ensures ok <==> register.Node? && upward
      ensures nodeSituation.children.Keys == Recorded(old(nodeSituation.children.Keys), nodeSituation.myId, register)
      ensures nodeSituation.children ==
              if register.Node? && register.parent == nodeSituation.myId
              then old(nodeSituation.children)[register.nodeId := description] else old(nodeSituation.children)
    {
      match register
      case MarketNode(_) =>
        return false, None;
      case Node(id, parent) =>
        if nodeSituation.myId == parent {
          nodeSituation.Register(id, description);
        }
        return upward, Some(register);
    }
  }

  // ---- all of them ----

  // Where a request has got to. Inside the market a handler works on it.
  datatype Place = AtNode(node: NodeId) | AtMarket | Inside(pc: Pc)

  datatype State = State(
    children: map<NodeId, set<NodeId>>,
    requests: map<NodeId, Place>,
    accepted: set<NodeId>,
    nodes: Registry.Nodes)

  // A node starts registering, a request goes through the node it is at, the
  // market starts to handle one, its handler accesses the registry once, one is
  // lost on the way.
  datatype Event = Start(id: NodeId) | Relay(id: NodeId) | Deliver(id: NodeId) | Access(id: NodeId) | Lose(id: NodeId)

  function Upward(situation: Situation): Place {
    match situation
    case MarketConnected => AtMarket
    case NodeConnected(parent) => AtNode(parent)
  }

  function Request(plan: Plan, id: NodeId): RegisterNode
    requires id in plan
  {
    match plan[id]
    case MarketConnected => MarketNode(id)
    case NodeConnected(parent) => Node(id, parent)
  }

  function Handling(register: RegisterNode): Job {
    match register
    case MarketNode(id) => Root(id)
    case Node(id, parent) => Child(parent, id)
  }

  function Known(s: State, id: NodeId): set<NodeId> {
    if id in s.children then s.children[id] else {}
  }

  ghost predicate Enabled(plan: Plan, s: State, e: Event) {
    && e.id in plan
    && match e
       case Start(id) => id !in s.requests && id !in s.accepted
       case Relay(id) => id in s.requests && s.requests[id].AtNode? && s.requests[id].node in plan
       case Deliver(id) => id in s.requests && s.requests[id].AtMarket?
       case Access(id) =>
         && id in s.requests && s.requests[id].Inside?
         && Sound(s.requests[id].pc) && !s.requests[id].pc.Done?
       case Lose(id) => id in s.requests && !s.requests[id].Inside?
  }

  // A rejected request is sent again.
  ghost function Settle(s: State, id: NodeId, turn: Turn): State {
    if !turn.next.Done? then s.(nodes := turn.nodes, requests := s.requests[id := Inside(turn.next)])
    else if turn.next.ok then s.(nodes := turn.nodes, requests := s.requests - {id}, accepted := s.accepted + {id})
    else s.(nodes := turn.nodes, requests := s.requests[id := AtMarket])
  }

  ghost function Step(plan: Plan, s: State, e: Event): State
    requires Enabled(plan, s, e)
  {
    match e
    case Start(id) => s.(requests := s.requests[id := Upward(plan[id])])
    case Relay(id) =>
      var at := s.requests[id].node;
      s.(children := s.children[at := Recorded(Known(s, at), at, Request(plan, id))],
         requests := s.requests[id := Upward(plan[at])])
    case Deliver(id) => s.(requests := s.requests[id := Inside(Starting(Handling(Request(plan, id))))])
    case Access(id) => Settle(s, id, Takes(s.nodes, s.requests[id].pc))
    case Lose(id) => s.(requests := s.requests - {id})
  }

  const START := State(map[], map[], {}, map[])

  ghost predicate CanRun(plan: Plan, s: State, run: seq<Event>)
    decreases |run|
  {
    run != [] ==> Enabled(plan, s, run[0]) && CanRun(plan, Step(plan, s, run[0]), run[1..])
  }

  ghost function After(plan: Plan, s: State, run: seq<Event>): State
    requires CanRun(plan, s, run)
    decreases |run|
  {
    if run == [] then s else After(plan, Step(plan, s, run[0]), run[1..])
  }

  // ---- what every step of every interleaving keeps ----

  // The node is k hops below a node of the market, and every node on the way
  // up has recorded the one below it.
  ghost predicate Linked(plan: Plan, s: State, id: NodeId, k: nat)
    decreases k
  {
    && id in plan
    && match plan[id]
       case MarketConnected => k == 0
       case NodeConnected(parent) => k > 0 && id in Known(s, parent) && Linked(plan, s, parent, k - 1)
  }

  ghost predicate Tied(plan: Plan, s: State, id: NodeId) {
    exists k: nat :: Linked(plan, s, id, k)
  }

  // A node records only its own children, and before their request goes on.
  ghost predicate Records(plan: Plan, s: State) {
    && (forall p, c :: c in Known(s, p) ==> c in plan && plan[c] == NodeConnected(p))
    && (forall c :: c in s.requests ==> c in plan)
    && (forall c :: c in s.requests && plan[c].NodeConnected? ==>
          s.requests[c] == AtNode(plan[c].parent) || c in Known(s, plan[c].parent))
  }

  // A handler works on its own request, and adds the node only under a parent
  // it has found.
  ghost predicate HandlesAt(plan: Plan, s: State, c: NodeId) {
    c in s.requests && c in plan && s.requests[c].Inside? ==>
      && s.requests[c].pc.job == Handling(Request(plan, c))
      && Sound(s.requests[c].pc) && !s.requests[c].pc.Done?
      && (!s.requests[c].pc.Pushing? ==> Tied(plan, s, c))
  }

  ghost predicate Handles(plan: Plan, s: State) {
    forall c {:trigger HandlesAt(plan, s, c)} :: HandlesAt(plan, s, c)
  }

  // An entry names the configured parent and lists only nodes configured under
  // it, and the node is tied to the market.
  ghost predicate EntryAt(plan: Plan, s: State, c: NodeId) {
    c in s.nodes ==>
      && c in plan
      && s.nodes[c].parent == (if plan[c].NodeConnected? then Some(plan[c].parent) else None)
      && (forall d :: d in s.nodes[c].children ==> d in plan && plan[d] == NodeConnected(c))
      && Tied(plan, s, c)
  }

  ghost predicate Entries(plan: Plan, s: State) {
    forall c {:trigger EntryAt(plan, s, c)} :: EntryAt(plan, s, c)
  }

  ghost predicate Inv(plan: Plan, s: State) {
    Records(plan, s) && Handles(plan, s) && Entries(plan, s)
  }

  lemma {:induction false} LinkedKept(plan: Plan, s: State, t: State, id: NodeId, k: nat)
    requires Linked(plan, s, id, k) && forall p :: Known(s, p) <= Known(t, p)
    ensures Linked(plan, t, id, k)
    decreases k
  {
    if plan[id].NodeConnected? {
      LinkedKept(plan, s, t, plan[id].parent, k - 1);
    }
  }

  lemma TiedKept(plan: Plan, s: State, t: State, id: NodeId)
    requires Tied(plan, s, id) && forall p :: Known(s, p) <= Known(t, p)
    ensures Tied(plan, t, id)
  {
    var k: nat :| Linked(plan, s, id, k);
    LinkedKept(plan, s, t, id, k);
  }

  lemma KnownGrows(plan: Plan, s: State, e: Event)
    requires Enabled(plan, s, e)
    ensures forall p :: Known(s, p) <= Known(Step(plan, s, e), p)
  {
  }

  lemma RecordsStep(plan: Plan, s: State, e: Event)
    requires Records(plan, s) && Enabled(plan, s, e)
    ensures Records(plan, Step(plan, s, e))
  {
    var t := Step(plan, s, e);
    KnownGrows(plan, s, e);
    if e.Relay? {
      var at := s.requests[e.id].node;
      assert forall p :: p != at ==> Known(t, p) == Known(s, p);
    } else {
      assert forall p :: Known(t, p) == Known(s, p);
    }
  }

  // One access writes an entry of the handler's own, or a children list.
  lemma AccessWrites(nodes: Registry.Nodes, pc: Pc, c: NodeId)
    requires Sound(pc) && !pc.Done?
    ensures var after := Takes(nodes, pc).nodes;
      c in after ==>
        || (c == pc.job.id && pc.Inserting? && after[c] == Entry(pc.job))
        || (c in nodes && after[c].parent == nodes[c].parent
            && forall d :: d in after[c].children ==>
                 d in nodes[c].children || (pc.Pushing? && c == pc.job.parent && d == pc.job.id))
    ensures pc.Pushing? && !Takes(nodes, pc).next.Done? ==> pc.job.parent in nodes
  {
  }

  lemma EntryStep(plan: Plan, s: State, e: Event, c: NodeId)
    requires Inv(plan, s) && Enabled(plan, s, e)
    ensures EntryAt(plan, Step(plan, s, e), c)
  {
    var t := Step(plan, s, e);
    KnownGrows(plan, s, e);
    assert EntryAt(plan, s, c) && HandlesAt(plan, s, e.id);
    if e.Access? {
      AccessWrites(s.nodes, s.requests[e.id].pc, c);
    }
    if c in t.nodes {
      TiedKept(plan, s, t, c);
    }
  }

  // A node whose parent is registered is tied to the market through it.
  lemma TiedUnder(plan: Plan, s: State, c: NodeId)
    requires Inv(plan, s) && c in s.requests && s.requests[c].Inside?
    requires plan[c].NodeConnected? ==> plan[c].parent in s.nodes
    ensures Tied(plan, s, c)
  {
    if plan[c].NodeConnected? {
      assert EntryAt(plan, s, plan[c].parent);
      var k: nat :| Linked(plan, s, plan[c].parent, k);
      assert Linked(plan, s, c, k + 1);
    } else {
      assert Linked(plan, s, c, 0);
    }
  }

  lemma HandlesStep(plan: Plan, s: State, e: Event, c: NodeId)
    requires Inv(plan, s) && Enabled(plan, s, e)
    ensures HandlesAt(plan, Step(plan, s, e), c)
  {
    var t := Step(plan, s, e);
    KnownGrows(plan, s, e);
    assert HandlesAt(plan, s, c);
    if c in t.requests && t.requests[c].Inside? {
      if e.Deliver? && c == e.id {
        if plan[c].MarketConnected? {
          assert Linked(plan, t, c, 0);
        }
      } else if e.Access? && c == e.id {
        var pc := s.requests[c].pc;
        AccessWrites(s.nodes, pc, c);
        if pc.Pushing? {
          TiedUnder(plan, s, c);
        }
        TiedKept(plan, s, t, c);
      } else if !t.requests[c].pc.Pushing? {
        TiedKept(plan, s, t, c);
      }
    }
  }

  lemma InvStep(plan: Plan, s: State, e: Event)
    requires Inv(plan, s) && Enabled(plan, s, e)
    ensures Inv(plan, Step(plan, s, e))
  {
    var t := Step(plan, s, e);
    RecordsStep(plan, s, e);
    forall c ensures HandlesAt(plan, t, c) { HandlesStep(plan, s, e, c); }
    forall c ensures EntryAt(plan, t, c) { EntryStep(plan, s, e, c); }
  }

  lemma {:induction false} InvRun(plan: Plan, s: State, run: seq<Event>)
    requires Inv(plan, s) && CanRun(plan, s, run)
    ensures Inv(plan, After(plan, s, run))
    decreases |run|
  {
    if run != [] {
      InvStep(plan, s, run[0]);
      InvRun(plan, Step(plan, s, run[0]), run[1..]);
    }
  }

  ghost predicate Reachable(plan: Plan, s: State) {
    exists run :: CanRun(plan, START, run) && After(plan, START, run) == s
  }

  lemma ReachableInv(plan: Plan, s: State)
    requires Reachable(plan, s)
    ensures Inv(plan, s)
  {
    var run :| CanRun(plan, START, run) && After(plan, START, run) == s;
    InvRun(plan, START, run);
  }

  /** However the registrations interleave, an entry of the registry names the
      parent its node is configured with, which has recorded it, and lists only
      nodes configured under its own. */
  lemma EntriesAreTrue(plan: Plan, s: State, c: NodeId)
    requires Reachable(plan, s) && c in s.nodes
    ensures c in plan
    ensures s.nodes[c].parent == if plan[c].NodeConnected? then Some(plan[c].parent) else None
    ensures plan[c].NodeConnected? ==> c in Known(s, plan[c].parent)
    ensures forall d :: d in s.nodes[c].children ==> d in plan && plan[d] == NodeConnected(c)
  {
    ReachableInv(plan, s);
    assert EntryAt(plan, s, c);
    var k: nat :| Linked(plan, s, c, k);
  }

  // ---- the overlay ----

  lemma {:induction false} LinkedOnce(plan: Plan, s: State, id: NodeId, k: nat, l: nat)
    requires Linked(plan, s, id, k) && Linked(plan, s, id, l)
    ensures k == l
    decreases k
  {
    if plan[id].NodeConnected? {
      LinkedOnce(plan, s, plan[id].parent, k - 1, l - 1);
    }
  }

  ghost function Overlay(plan: Plan, s: State): set<NodeId> {
    set id | id in plan && Tied(plan, s, id)
  }

  // The neighbours every node of the overlay lists.
  ghost predicate Lists(plan: Plan, s: State, g: Graph) {
    && g.Keys == Overlay(plan, s)
    && forall u :: u in g ==>
         && Distinct(g[u])
         && forall v :: v in g[u] <==> v in Known(s, u) || plan[u] == NodeConnected(v)
  }

  ghost function Depth(plan: Plan, s: State, id: NodeId): (k: nat)
    requires id in Overlay(plan, s)
    ensures Linked(plan, s, id, k)
  {
    var k: nat :| Linked(plan, s, id, k);
    k
  }

  lemma ParentLinked(plan: Plan, s: State, id: NodeId)
    requires Records(plan, s) && id in Overlay(plan, s) && plan[id].NodeConnected?
    ensures plan[id].parent in Overlay(plan, s) && id in Known(s, plan[id].parent)
    ensures Depth(plan, s, id) == Depth(plan, s, plan[id].parent) + 1
  {
    var k := Depth(plan, s, id);
    var parent := plan[id].parent;
    assert Linked(plan, s, parent, k - 1);
    LinkedOnce(plan, s, parent, k - 1, Depth(plan, s, parent));
  }

  lemma ChildLinked(plan: Plan, s: State, id: NodeId, child: NodeId)
    requires Records(plan, s) && id in Overlay(plan, s) && child in Known(s, id)
    ensures child in Overlay(plan, s) && plan[child] == NodeConnected(id)
    ensures Depth(plan, s, child) == Depth(plan, s, id) + 1
  {
    assert Linked(plan, s, child, Depth(plan, s, id) + 1);
    ParentLinked(plan, s, child);
  }

  // Both ends of a link list it, and one of them is above the other.
  lemma LinkBothWays(plan: Plan, s: State, g: Graph, u: NodeId, v: NodeId)
    requires Records(plan, s) && Lists(plan, s, g) && u in g && v in g[u]
    ensures v in g && u in g[v]
    ensures || (plan[u] == NodeConnected(v) && Depth(plan, s, u) == Depth(plan, s, v) + 1)
            || (plan[v] == NodeConnected(u) && Depth(plan, s, v) == Depth(plan, s, u) + 1)
  {
    if v in Known(s, u) {
      ChildLinked(plan, s, u, v);
    } else {
      ParentLinked(plan, s, u);
    }
  }

  ghost function Above(plan: Plan): map<NodeId, NodeId> {
    map u | u in plan && plan[u].NodeConnected? :: plan[u].parent
  }

  ghost function Depths(plan: Plan, s: State): map<NodeId, nat> {
    map u | u in Overlay(plan, s) :: Depth(plan, s, u)
  }

  lemma OverlayIsRooted(plan: Plan, s: State, g: Graph)
    requires Records(plan, s) && Lists(plan, s, g)
    ensures Rooted(g, Above(plan), Depths(plan, s))
  {
    forall u, v | u in g && v in g[u]
      ensures v in g && (Climbs(Above(plan), Depths(plan, s), u, v) || Climbs(Above(plan), Depths(plan, s), v, u))
    {
      LinkBothWays(plan, s, g, u, v);
    }
  }

  lemma OverlayIsUndirected(plan: Plan, s: State, g: Graph)
    requires Records(plan, s) && Lists(plan, s, g)
    ensures Undirected(g)
  {
    forall u | u in g ensures LinksBack(g, u) {
      forall v | v in g[u] ensures v in g && u in g[v] && v != u {
        LinkBothWays(plan, s, g, u, v);
      }
    }
  }

  /** After any run, whatever order the tables yield their entries in and however
      the market's handlers interleave, the nodes that can be asked for bids form
      a tree, and every registered node is one of them. */
  lemma OverlayIsTree(plan: Plan, s: State, g: Graph)
    requires Reachable(plan, s) && Lists(plan, s, g)
    ensures Tree(g)
    ensures s.nodes.Keys <= g.Keys
  {
    ReachableInv(plan, s);
    OverlayIsUndirected(plan, s, g);
    OverlayIsRooted(plan, s, g);
    RootedIsTree(g, Above(plan), Depths(plan, s));
    forall id | id in s.nodes ensures id in g {
      assert EntryAt(plan, s, id);
    }
  }
}
