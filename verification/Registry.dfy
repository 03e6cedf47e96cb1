/** The market's registry of fog nodes: a map of parents and children, and
    the check that it forms a tree. */
module Registry {
  import opened Model
  import opened Network
  import opened Basics

  // The record kept for a node is not looked at here.
  datatype Node = Node(parent: Option<NodeId>, children: seq<NodeId>, data: nat)

  type Nodes = map<NodeId, Node>

  predicate IsRoot(nodes: Nodes, id: NodeId) {
    id in nodes && nodes[id].parent.None?
  }

  function Roots(nodes: Nodes): set<NodeId> {
    set id | id in nodes && nodes[id].parent.None?
  }

  ghost predicate NoRepeat(s: seq<NodeId>) {
    forall id :: multiset(s)[id] <= 1
  }

  // A path that follows children lists.
  ghost predicate Down(nodes: Nodes, p: seq<NodeId>) {
    && p != []
    && (forall i :: 0 <= i < |p| ==> p[i] in nodes)
    && (forall i :: 0 <= i < |p| - 1 ==> p[i + 1] in nodes[p[i]].children)
  }

  ghost predicate FromRoot(nodes: Nodes, p: seq<NodeId>) {
    Down(nodes, p) && IsRoot(nodes, p[0])
  }

  // Every child is known, and if it names a parent it names this node.
  predicate LinksAgree(nodes: Nodes, id: NodeId)
    requires id in nodes
  {
    forall c :: c in nodes[id].children ==>
      c in nodes && (nodes[c].parent.Some? ==> nodes[c].parent == Some(id))
  }

  // What the check establishes: one root, and agreeing links wherever the
  // children lists lead from it.
  ghost predicate Checks(nodes: Nodes) {
    && |Roots(nodes)| == 1
    && forall p :: FromRoot(nodes, p) ==> LinksAgree(nodes, Last(p))
  }

  // The children lists never lead from the root back to it; otherwise the check
  // would not end.
  ghost predicate Ends(nodes: Nodes) {
    |Roots(nodes)| == 1 ==>
      forall p, c :: FromRoot(nodes, p) && c in nodes[Last(p)].children && c in nodes ==> nodes[c].parent.Some?
  }

  ghost predicate Attached(nodes: Nodes, id: NodeId) {
    exists p :: FromRoot(nodes, p) && Last(p) == id
  }

  // The links of a node are mutual, and the root leads to it.
  ghost predicate Fits(nodes: Nodes, id: NodeId)
    requires id in nodes
  {
    && NoRepeat(nodes[id].children)
    && (forall c :: c in nodes[id].children ==> c in nodes && nodes[c].parent == Some(id))
    && (nodes[id].parent.Some? ==>
          nodes[id].parent.value in nodes && id in nodes[nodes[id].parent.value].children)
    && Attached(nodes, id)
  }

  /** A registry that is a tree. */
  ghost predicate Valid(nodes: Nodes) {
    && |Roots(nodes)| == 1
    && forall id {:trigger Fits(nodes, id)} :: id in nodes ==> Fits(nodes, id)
  }

  lemma ValidChecks(nodes: Nodes)
    requires Valid(nodes)
    ensures Checks(nodes) && Ends(nodes)
  {
    forall p | FromRoot(nodes, p) ensures LinksAgree(nodes, Last(p)) {
      assert Fits(nodes, Last(p));
    }
    forall p, c | FromRoot(nodes, p) && c in nodes[Last(p)].children && c in nodes ensures nodes[c].parent.Some? {
      assert Fits(nodes, Last(p));
    }
  }

  lemma SoleRoot(nodes: Nodes, root: NodeId, id: NodeId)
    requires |Roots(nodes)| == 1 && IsRoot(nodes, root) && IsRoot(nodes, id)
    ensures id == root
  {
    assert Roots(nodes) * {root} == {root};
    assert |Roots(nodes) - {root}| == 0;
    assert id !in Roots(nodes) - {root};
  }

  // ---- the check ----

  // A path down from the root along which the parents agree.
  ghost predicate Backed(nodes: Nodes, p: seq<NodeId>) {
    && FromRoot(nodes, p)
    && forall i :: 0 <= i < |p| - 1 ==> nodes[p[i + 1]].parent == Some(p[i])
  }

  lemma {:induction false} BackedDiffers(nodes: Nodes, p: seq<NodeId>, i: nat, j: nat)
    requires Backed(nodes, p) && i < j < |p|
    ensures p[i] != p[j]
    decreases i
  {
    assert nodes[p[j - 1 + 1]].parent == Some(p[j - 1]);
    if i > 0 {
      assert nodes[p[i - 1 + 1]].parent == Some(p[i - 1]);
      BackedDiffers(nodes, p, i - 1, j - 1);
    }
  }

  lemma BackedFits(nodes: Nodes, p: seq<NodeId>)
    requires Backed(nodes, p)
    ensures |p| <= |nodes|
  {
    forall i, j | 0 <= i < j < |p| ensures p[i] != p[j] {
      BackedDiffers(nodes, p, i, j);
    }
    DistinctFits(p, nodes.Keys);
  }

  // How many visits a node can cause when the path to it can still grow by d.
  ghost function Visits(nodes: Nodes, id: NodeId, d: nat): nat
    requires id in nodes
    decreases d, 1, 0
  {
    1 + if d == 0 then 0 else VisitsAll(nodes, nodes[id].children, |nodes[id].children|, d - 1)
  }

  ghost function VisitsAll(nodes: Nodes, ids: seq<NodeId>, k: nat, d: nat): nat
    requires k <= |ids|
    decreases d, 2, k
  {
    if k == 0 then 0
    else VisitsAll(nodes, ids, k - 1, d) + if ids[k - 1] in nodes then Visits(nodes, ids[k - 1], d) else 0
  }

  ghost predicate AllBacked(nodes: Nodes, paths: seq<seq<NodeId>>) {
    forall i :: 0 <= i < |paths| ==> Backed(nodes, paths[i])
  }

  // The visits still owed to a stack, each entry with the path that led to it.
  ghost function Owed(nodes: Nodes, paths: seq<seq<NodeId>>): nat
    requires AllBacked(nodes, paths)
    decreases |paths|
  {
    if paths == [] then 0
    else
      var p := paths[|paths| - 1];
      BackedFits(nodes, p);
      Owed(nodes, paths[..|paths| - 1]) + Visits(nodes, Last(p), |nodes| - |p|)
  }

  lemma OwedPush(nodes: Nodes, paths: seq<seq<NodeId>>, p: seq<NodeId>)
    requires AllBacked(nodes, paths) && Backed(nodes, p)
    ensures AllBacked(nodes, paths + [p]) && |p| <= |nodes|
    ensures Owed(nodes, paths + [p]) == Owed(nodes, paths) + Visits(nodes, Last(p), |nodes| - |p|)
  {
    BackedFits(nodes, p);
    var more := paths + [p];
    assert more[..|more| - 1] == paths && more[|more| - 1] == p;
  }

  // The paths to the first k children of the node at the end of p.
  ghost function Branches(p: seq<NodeId>, children: seq<NodeId>, k: nat): seq<seq<NodeId>>
    requires k <= |children|
  {
    if k == 0 then [] else Branches(p, children, k - 1) + [p + [children[k - 1]]]
  }

  lemma {:induction false} BranchesAt(p: seq<NodeId>, children: seq<NodeId>, k: nat, i: nat)
    requires i < k <= |children|
    ensures |Branches(p, children, k)| == k && Branches(p, children, k)[i] == p + [children[i]]
    decreases k
  {
    if k > 1 {
      BranchesAt(p, children, k - 1, if i < k - 1 then i else 0);
    }
  }

  lemma BranchBacked(nodes: Nodes, p: seq<NodeId>, i: nat)
    requires Backed(nodes, p) && LinksAgree(nodes, Last(p)) && |Roots(nodes)| == 1 && Ends(nodes)
    requires i < |nodes[Last(p)].children|
    ensures Backed(nodes, p + [nodes[Last(p)].children[i]])
  {
    var c := nodes[Last(p)].children[i];
    assert c in nodes[Last(p)].children;
  }

  lemma OwedBranch(nodes: Nodes, paths: seq<seq<NodeId>>, p: seq<NodeId>, k: nat)
    requires Down(nodes, p) && 0 < k <= |nodes[Last(p)].children|
    requires AllBacked(nodes, paths + Branches(p, nodes[Last(p)].children, k - 1))
    requires Backed(nodes, p + [nodes[Last(p)].children[k - 1]])
    ensures var children := nodes[Last(p)].children;
      && |p| < |nodes|
      && children[k - 1] in nodes
      && AllBacked(nodes, paths + Branches(p, children, k))
      && Owed(nodes, paths + Branches(p, children, k)) ==
         Owed(nodes, paths + Branches(p, children, k - 1)) + Visits(nodes, children[k - 1], |nodes| - |p| - 1)
  {
    var children := nodes[Last(p)].children;
    var before := paths + Branches(p, children, k - 1);
    var last := p + [children[k - 1]];
    OwedPush(nodes, before, last);
    assert paths + Branches(p, children, k) == before + [last];
  }

  lemma {:induction false} OwedBranches(nodes: Nodes, paths: seq<seq<NodeId>>, p: seq<NodeId>, k: nat)
    requires AllBacked(nodes, paths) && Backed(nodes, p)
    requires LinksAgree(nodes, Last(p)) && |Roots(nodes)| == 1 && Ends(nodes)
    requires k <= |nodes[Last(p)].children|
    ensures k > 0 ==> |p| < |nodes|
    ensures AllBacked(nodes, paths + Branches(p, nodes[Last(p)].children, k))
    ensures Owed(nodes, paths + Branches(p, nodes[Last(p)].children, k)) ==
            Owed(nodes, paths) + if k == 0 then 0 else VisitsAll(nodes, nodes[Last(p)].children, k, |nodes| - |p| - 1)
    decreases k
  {
    var children := nodes[Last(p)].children;
    if k == 0 {
      assert paths + Branches(p, children, 0) == paths;
    } else {
      OwedBranches(nodes, paths, p, k - 1);
      BranchBacked(nodes, p, k - 1);
      OwedBranch(nodes, paths, p, k);
    }
  }

  // Each entry of the stack with the path that led to it.
  ghost predicate Led(nodes: Nodes, stack: seq<NodeId>, paths: seq<seq<NodeId>>) {
    && |paths| == |stack|
    && AllBacked(nodes, paths)
    && forall i :: 0 <= i < |stack| ==> Last(paths[i]) == stack[i]
  }

  lemma LedPop(nodes: Nodes, stack: seq<NodeId>, paths: seq<seq<NodeId>>, id: NodeId, p: seq<NodeId>)
    requires Led(nodes, stack + [id], paths + [p]) && |stack| == |paths|
    ensures Led(nodes, stack, paths) && Backed(nodes, p) && Last(p) == id
  {
    var ids, ps := stack + [id], paths + [p];
    assert ps[|paths|] == p && ids[|stack|] == id;
    forall i | 0 <= i < |paths| ensures Backed(nodes, paths[i]) && Last(paths[i]) == stack[i] {
      assert ps[i] == paths[i] && ids[i] == stack[i];
    }
  }

  lemma LedPush(nodes: Nodes, stack: seq<NodeId>, paths: seq<seq<NodeId>>, p: seq<NodeId>, children: seq<NodeId>)
    requires Led(nodes, stack, paths) && p != []
    requires AllBacked(nodes, paths + Branches(p, children, |children|))
    ensures Led(nodes, stack + children, paths + Branches(p, children, |children|))
  {
    var k := |children|;
    var on := paths + Branches(p, children, k);
    if k > 0 {
      BranchesAt(p, children, k, 0);
    }
    forall i | 0 <= i < |on| ensures Last(on[i]) == (stack + children)[i] {
      if i >= |paths| {
        BranchesAt(p, children, k, i - |paths|);
      }
    }
  }

  // One turn of the loop: the node on top gives way to its children.
  lemma LedOn(nodes: Nodes, stack: seq<NodeId>, paths: seq<seq<NodeId>>, id: NodeId, p: seq<NodeId>)
    requires Led(nodes, stack + [id], paths + [p]) && |stack| == |paths|
    requires |Roots(nodes)| == 1 && Ends(nodes) && id in nodes && LinksAgree(nodes, id)
    ensures var children := nodes[id].children;
      var on := paths + Branches(p, children, |children|);
      && Led(nodes, stack + children, on)
      && Owed(nodes, on) < Owed(nodes, paths + [p])
  {
    LedPop(nodes, stack, paths, id, p);
    OwedPush(nodes, paths, p);
    OwedBranches(nodes, paths, p, |nodes[id].children|);
    LedPush(nodes, stack, paths, p, nodes[id].children);
  }

  // Every child of a visited node is visited or waits.
  ghost predicate Explored(nodes: Nodes, root: NodeId, visited: seq<NodeId>, stack: seq<NodeId>) {
    && (root in visited || root in stack)
    && (forall id :: id in visited ==> id in nodes && LinksAgree(nodes, id))
    && (forall id, c :: id in visited && id in nodes && c in nodes[id].children ==> c in visited || c in stack)
  }

  lemma ExploredOn(nodes: Nodes, root: NodeId, visited: seq<NodeId>, stack: seq<NodeId>, id: NodeId)
    requires Explored(nodes, root, visited, stack + [id]) && id in nodes && LinksAgree(nodes, id)
    ensures Explored(nodes, root, visited + [id], stack + nodes[id].children)
  {
  }

  // No node was seen twice, and each but the root was put there by its parent.
  ghost predicate Once(nodes: Nodes, root: NodeId, visited: seq<NodeId>, stack: seq<NodeId>) {
    && NoRepeat(visited + stack)
    && forall id :: id in visited || id in stack ==>
         id in nodes && (id == root || (nodes[id].parent.Some? && nodes[id].parent.value in visited))
  }

  lemma OnceOn(nodes: Nodes, root: NodeId, visited: seq<NodeId>, stack: seq<NodeId>, id: NodeId)
    requires Valid(nodes) && IsRoot(nodes, root) && Once(nodes, root, visited, stack + [id]) && id in nodes
    ensures Once(nodes, root, visited + [id], stack + nodes[id].children)
  {
    var children := nodes[id].children;
    var seen: seq<NodeId> := visited + (stack + [id]);
    var now: seq<NodeId> := visited + [id] + (stack + children);
    assert Fits(nodes, id);
    assert multiset(now) == multiset(seen) + multiset(children);
    assert id !in visited by {
      assert multiset(seen)[id] == multiset(visited)[id] + multiset(stack)[id] + 1;
    }
    forall x: NodeId ensures multiset(now)[x] <= 1 {
      if x in children {
        assert x !in seen;
      }
    }
  }

  // A set that holds the root and every child of its members holds every node
  // the children lists lead to.
  lemma {:induction false} ClosedHolds(nodes: Nodes, visited: seq<NodeId>, p: seq<NodeId>)
    requires Down(nodes, p) && p[0] in visited
    requires forall id, c :: id in visited && id in nodes && c in nodes[id].children ==> c in visited
    ensures Last(p) in visited
    decreases |p|
  {
    if |p| > 1 {
      var front := p[..|p| - 1];
      assert p[|p| - 2 + 1] in nodes[p[|p| - 2]].children;
      ClosedHolds(nodes, visited, front);
    }
  }

  lemma ExploredAll(nodes: Nodes, root: NodeId, visited: seq<NodeId>)
    requires |Roots(nodes)| == 1 && IsRoot(nodes, root) && Explored(nodes, root, visited, [])
    ensures Checks(nodes)
    ensures Valid(nodes) ==> forall id :: id in nodes ==> id in visited
  {
    forall p | FromRoot(nodes, p) ensures Last(p) in visited {
      SoleRoot(nodes, root, p[0]);
      ClosedHolds(nodes, visited, p);
    }
    if Valid(nodes) {
      forall id | id in nodes ensures id in visited {
        assert Fits(nodes, id);
      }
    }
  }

  // ---- registering ----

  // The parent's list grows, then the child's entry is written.
  function WithChild(nodes: Nodes, parent: NodeId, child: NodeId, data: nat): Nodes
    requires parent in nodes
  {
    var pushed := nodes[parent := nodes[parent].(children := nodes[parent].children + [child])];
    pushed[child := Node(Some(parent), [], data)]
  }

  function WithRoot(nodes: Nodes, root: NodeId, data: nat): Nodes {
    nodes[root := Node(None, [], data)]
  }

  // The distance from the end of the list of the last occurrence.
  function PositionFromEnd(s: seq<NodeId>, id: NodeId): (r: Option<nat>)
    ensures r.Some? ==> r.value < |s| && s[|s| - 1 - r.value] == id
    ensures r.None? <==> id !in s
    decreases |s|
  {
    if s == [] then None
    else if Last(s) == id then Some(0)
    else
      match PositionFromEnd(s[..|s| - 1], id)
      case None => None
      case Some(k) => Some(k + 1)
  }

  function RemoveAt(s: seq<NodeId>, i: nat): seq<NodeId>
    requires i < |s|
  {
    s[..i] + s[i + 1..]
  }

  // The undoing of a rejected child: the position counted from the end is used
  // as an index from the front.
  function RolledBack(nodes: Nodes, parent: NodeId, child: NodeId): Nodes {
    if parent !in nodes then nodes
    else
      match PositionFromEnd(nodes[parent].children, child)
      case None => nodes
      case Some(pos) =>
        nodes[parent := nodes[parent].(children := RemoveAt(nodes[parent].children, pos))] - {child}
  }

  // What a registration leaves behind.
  ghost function Appended(nodes: Nodes, parent: NodeId, child: NodeId, data: nat): Nodes {
    if parent !in nodes then nodes
    else
      var added := WithChild(nodes, parent, child, data);
      if Checks(added) then added else RolledBack(added, parent, child)
  }

  ghost function RootAppended(nodes: Nodes, root: NodeId, data: nat): Nodes {
    var added := WithRoot(nodes, root, data);
    if Checks(added) then added else added - {root}
  }

  // What every history of registrations keeps: at most one root, and a check
  // that ends.
  ghost predicate Checkable(nodes: Nodes) {
    |Roots(nodes)| <= 1 && Ends(nodes)
  }

  class FogNode {
    var nodes: Nodes

    constructor ()
      ensures nodes == map[] && Checkable(nodes)
    {
      nodes := map[];
    }

    method CheckTree() returns (ok: bool, ghost visited: seq<NodeId>)
      requires Ends(nodes)
      ensures ok <==> Checks(nodes)
      // On a tree every node is visited exactly once.
      ensures Valid(nodes) ==> ok && forall id :: multiset(visited)[id] == if id in nodes then 1 else 0
    {
      visited := [];
      var roots := Roots(nodes);
      if |roots| != 1 {
        return false, [];
      }
      var root :| root in roots;
      var stack := [root];
      ghost var paths := [[root]];
      while stack != []
        invariant Led(nodes, stack, paths)
        invariant Explored(nodes, root, visited, stack)
        invariant Valid(nodes) ==> Once(nodes, root, visited, stack)
        decreases Owed(nodes, paths)
      {
        var id := stack[|stack| - 1];
        ghost var path := paths[|paths| - 1];
        assert stack == stack[..|stack| - 1] + [id] && paths == paths[..|paths| - 1] + [path];
        stack, paths := stack[..|stack| - 1], paths[..|paths| - 1];
        LedPop(nodes, stack, paths, id, path);
        if Valid(nodes) {
          ValidChecks(nodes);
          OnceOn(nodes, root, visited, stack, id);
        }
        if !LinksAgree(nodes, id) {
          return false, visited;
        }
        LedOn(nodes, stack, paths, id, path);
        ExploredOn(nodes, root, visited, stack, id);
        var children := nodes[id].children;
        visited := visited + [id];
        paths := paths + Branches(path, children, |children|);
        stack := stack + children;
      }
      ExploredAll(nodes, root, visited);
      assert visited + [] == visited;
      return true, visited;
    }

    method AppendNewChild(parent: NodeId, child: NodeId, data: nat) returns (ok: bool)
      requires Checkable(nodes)
      modifies this
      ensures ok <==> parent in old(nodes) && Checks(WithChild(old(nodes), parent, child, data))
      ensures nodes == Appended(old(nodes), parent, child, data)
      ensures Checkable(nodes)
    {
      if parent !in nodes {
        return false;
      }
      ChildCheckable(nodes, parent, child, data);
      RolledBackCheckable(nodes, parent, child, data);
      nodes := nodes[parent := nodes[parent].(children := nodes[parent].children + [child])];
      nodes := nodes[child := Node(Some(parent), [], data)];
      ghost var visited;
      ok, visited := CheckTree();
      if !ok {
        var pos := PositionFromEnd(nodes[parent].children, child);
        if pos.None? {
          return false;
        }
        nodes := nodes[parent := nodes[parent].(children := RemoveAt(nodes[parent].children, pos.value))];
        nodes := nodes - {child};
      }
    }

    method AppendRoot(root: NodeId, data: nat) returns (ok: bool)
      requires Checkable(nodes)
      modifies this
      ensures ok <==> Checks(WithRoot(old(nodes), root, data))
      ensures nodes == RootAppended(old(nodes), root, data)
      ensures Checkable(nodes)
    {
      RootCheckable(nodes, root, data);
      nodes := nodes[root := Node(None, [], data)];
      ghost var visited;
      ok, visited := CheckTree();
      if !ok {
        nodes := nodes - {root};
      }
    }
  }

  // ---- the check ends in every history ----

  // A path of the registry with the child that does not end there was one before.
  lemma OldPath(nodes: Nodes, parent: NodeId, child: NodeId, data: nat, p: seq<NodeId>)
    requires parent in nodes && FromRoot(WithChild(nodes, parent, child, data), p) && Last(p) != child
    ensures FromRoot(nodes, p)
  {
    var added := WithChild(nodes, parent, child, data);
    forall i | 0 <= i < |p| ensures p[i] != child {
      if i < |p| - 1 {
        assert p[i + 1] in added[p[i]].children;
      }
    }
    forall i | 0 <= i < |p| - 1 ensures p[i + 1] in nodes[p[i]].children {
      assert p[i + 1] in added[p[i]].children && p[i + 1] != child;
    }
  }

  lemma RootsWithChild(nodes: Nodes, parent: NodeId, child: NodeId, data: nat)
    requires parent in nodes
    ensures Roots(WithChild(nodes, parent, child, data)) == Roots(nodes) - {child}
  {
  }

  // A node is listed with an empty children list of its own, so no chain of
  // children ever leads back to the root.
  lemma ChildCheckable(nodes: Nodes, parent: NodeId, child: NodeId, data: nat)
    requires Checkable(nodes) && parent in nodes
    ensures Checkable(WithChild(nodes, parent, child, data))
  {
    var added := WithChild(nodes, parent, child, data);
    RootsWithChild(nodes, parent, child, data);
    SubsetSize(Roots(added), Roots(nodes));
    forall p, c | |Roots(added)| == 1 && FromRoot(added, p) && c in added[Last(p)].children && c in added
      ensures added[c].parent.Some?
    {
      if Last(p) != child && c != child {
        OldPath(nodes, parent, child, data, p);
        assert c in nodes[Last(p)].children;
      }
    }
  }

  // Fewer children and fewer nodes keep it.
  lemma FewerCheckable(nodes: Nodes, fewer: Nodes)
    requires Checkable(nodes) && fewer.Keys <= nodes.Keys
    requires forall id :: id in fewer ==>
      fewer[id].parent == nodes[id].parent && forall c :: c in fewer[id].children ==> c in nodes[id].children
    ensures Checkable(fewer)
  {
    assert forall id :: id in Roots(fewer) ==> id in Roots(nodes);
    SubsetSize(Roots(fewer), Roots(nodes));
    forall p, c | |Roots(fewer)| == 1 && FromRoot(fewer, p) && c in fewer[Last(p)].children && c in fewer
      ensures fewer[c].parent.Some?
    {
      assert FromRoot(nodes, p);
    }
  }

  lemma RolledBackCheckable(nodes: Nodes, parent: NodeId, child: NodeId, data: nat)
    requires Checkable(nodes) && parent in nodes
    ensures Checkable(RolledBack(WithChild(nodes, parent, child, data), parent, child))
  {
    var added := WithChild(nodes, parent, child, data);
    var back := RolledBack(added, parent, child);
    ChildCheckable(nodes, parent, child, data);
    forall id | id in back
      ensures back[id].parent == added[id].parent && forall c :: c in back[id].children ==> c in added[id].children
    {
    }
    FewerCheckable(added, back);
  }

  // A root is written with an empty children list.
  lemma RootCheckable(nodes: Nodes, root: NodeId, data: nat)
    requires Checkable(nodes)
    ensures Ends(WithRoot(nodes, root, data))
    ensures Checkable(RootAppended(nodes, root, data))
  {
    var added := WithRoot(nodes, root, data);
    assert Roots(added) == Roots(nodes) + {root};
    if |Roots(added)| == 1 {
      forall p | FromRoot(added, p) ensures p == [root] {
        OnlyRootPath(nodes, root, data, p);
      }
    }
    if !Checks(added) {
      assert Roots(added - {root}) <= Roots(nodes);
      FewerCheckable(nodes, added - {root});
    }
  }

  lemma FirstHop(nodes: Nodes, p: seq<NodeId>)
    requires Down(nodes, p)
    ensures |p| > 1 ==> p[1] in nodes[p[0]].children
  {
    if |p| > 1 {
      assert p[0 + 1] in nodes[p[0]].children;
    }
  }

  // From a root just written the children lists lead nowhere.
  lemma OnlyRootPath(nodes: Nodes, root: NodeId, data: nat, p: seq<NodeId>)
    requires |Roots(WithRoot(nodes, root, data))| == 1 && FromRoot(WithRoot(nodes, root, data), p)
    ensures p == [root]
  {
    var added := WithRoot(nodes, root, data);
    SoleRoot(added, root, p[0]);
    FirstHop(added, p);
  }

  // ---- what registration keeps ----

  lemma FirstRoot(root: NodeId, data: nat)
    ensures Valid(WithRoot(map[], root, data))
  {
    var nodes := WithRoot(map[], root, data);
    assert Roots(nodes) == {root};
    assert FromRoot(nodes, [root]) && Last([root]) == root;
  }

  // On a tree every path from the root is backed.
  lemma ValidBacked(nodes: Nodes, p: seq<NodeId>)
    requires Valid(nodes) && FromRoot(nodes, p)
    ensures Backed(nodes, p)
  {
    forall i | 0 <= i < |p| - 1 ensures nodes[p[i + 1]].parent == Some(p[i]) {
      assert Fits(nodes, p[i]);
    }
  }

  // A node other than the root has a parent, which is another node.
  lemma ParentIsAnother(nodes: Nodes, id: NodeId)
    requires Valid(nodes) && id in nodes && nodes[id].parent.Some?
    ensures nodes[id].parent != Some(id)
  {
    assert Fits(nodes, id);
    var p :| FromRoot(nodes, p) && Last(p) == id;
    ValidBacked(nodes, p);
    var n := |p|;
    assert n > 1;
    assert nodes[p[n - 2 + 1]].parent == Some(p[n - 2]);
    BackedDiffers(nodes, p, n - 2, n - 1);
  }

  lemma FromRootKept(nodes: Nodes, parent: NodeId, child: NodeId, data: nat, p: seq<NodeId>)
    requires parent in nodes && child !in nodes && FromRoot(nodes, p)
    ensures FromRoot(WithChild(nodes, parent, child, data), p)
  {
  }

  lemma FitsKept(nodes: Nodes, parent: NodeId, child: NodeId, data: nat, id: NodeId)
    requires Valid(nodes) && parent in nodes && child !in nodes && id in nodes
    ensures Fits(WithChild(nodes, parent, child, data), id)
  {
    var after := WithChild(nodes, parent, child, data);
    assert Fits(nodes, id) && Fits(nodes, parent);
    var p :| FromRoot(nodes, p) && Last(p) == id;
    FromRootKept(nodes, parent, child, data, p);
    assert Attached(after, id);
    if id == parent {
      assert child !in nodes[parent].children;
    }
  }

  lemma FitsNew(nodes: Nodes, parent: NodeId, child: NodeId, data: nat)
    requires Valid(nodes) && parent in nodes && child !in nodes
    ensures Fits(WithChild(nodes, parent, child, data), child)
  {
    var after := WithChild(nodes, parent, child, data);
    assert Fits(nodes, parent);
    var p :| FromRoot(nodes, p) && Last(p) == parent;
    FromRootKept(nodes, parent, child, data, p);
    var q := p + [child];
    assert FromRoot(after, q) && Last(q) == child;
  }

  /** Registering a fresh node under a known parent keeps the registry a tree,
      and the check accepts it. */
  lemma FreshChildAccepted(nodes: Nodes, parent: NodeId, child: NodeId, data: nat)
    requires Valid(nodes) && parent in nodes && child !in nodes
    ensures Valid(WithChild(nodes, parent, child, data))
    ensures Checks(WithChild(nodes, parent, child, data))
  {
    var after := WithChild(nodes, parent, child, data);
    assert Roots(after) == Roots(nodes);
    forall id | id in after ensures Fits(after, id) {
      if id == child {
        FitsNew(nodes, parent, child, data);
      } else {
        FitsKept(nodes, parent, child, data, id);
      }
    }
    ValidChecks(after);
  }

  // A registered root leaves a registry without a root.
  lemma RootAsChildBreaks(nodes: Nodes, parent: NodeId, child: NodeId, data: nat)
    requires Valid(nodes) && parent in nodes && IsRoot(nodes, child)
    ensures !Valid(Appended(nodes, parent, child, data))
  {
    var after := Appended(nodes, parent, child, data);
    forall id ensures !IsRoot(after, id) {
      if IsRoot(after, id) && id != child {
        assert IsRoot(nodes, id);
        SoleRoot(nodes, child, id);
        assert false;
      }
    }
    assert forall id :: id in Roots(after) ==> IsRoot(after, id);
    assert Roots(after) == {};
  }

  // Another registered node stays listed by its former parent.
  lemma KnownChildBreaks(nodes: Nodes, parent: NodeId, child: NodeId, data: nat)
    requires Valid(nodes) && parent in nodes && child in nodes && nodes[child].parent.Some?
    ensures !Valid(Appended(nodes, parent, child, data))
  {
    var after := Appended(nodes, parent, child, data);
    var q := nodes[child].parent.value;
    assert Fits(nodes, child);
    ParentIsAnother(nodes, child);
    if q == parent {
      // Listed twice, or listed once and gone.
      var before: seq<NodeId> := nodes[q].children;
      var longer: seq<NodeId> := before + [child];
      assert multiset(longer)[child] == multiset(before)[child] + 1;
      assert longer[1..][|before| - 1] == child;
    }
    assert child in after[q].children;
    assert !Fits(after, q);
  }

  /** Registered on a tree under a known parent, a node leaves a tree behind
      exactly when it was not registered before. */
  lemma TreeKeptIff(nodes: Nodes, parent: NodeId, child: NodeId, data: nat)
    requires Valid(nodes) && parent in nodes
    ensures Valid(Appended(nodes, parent, child, data)) <==> child !in nodes
  {
    if child !in nodes {
      FreshChildAccepted(nodes, parent, child, data);
    } else if nodes[child].parent.None? {
      RootAsChildBreaks(nodes, parent, child, data);
    } else {
      KnownChildBreaks(nodes, parent, child, data);
    }
  }

  /** A second root is rejected and the registry comes back exactly. */
  lemma SecondRootRejected(nodes: Nodes, root: NodeId, data: nat)
    requires Valid(nodes) && root !in nodes
    ensures !Checks(WithRoot(nodes, root, data))
    ensures WithRoot(nodes, root, data) - {root} == nodes
  {
    var after := WithRoot(nodes, root, data);
    assert Roots(after) == Roots(nodes) + {root};
  }

  lemma RewrittenRoot(nodes: Nodes, root: NodeId, data: nat)
    requires Valid(nodes) && IsRoot(nodes, root)
    ensures Checks(WithRoot(nodes, root, data))
    ensures Valid(WithRoot(nodes, root, data)) <==> nodes.Keys == {root}
  {
    var added := WithRoot(nodes, root, data);
    assert Roots(added) == Roots(nodes);
    forall p | FromRoot(added, p) ensures p == [root] {
      OnlyRootPath(nodes, root, data, p);
    }
    if nodes.Keys == {root} {
      assert FromRoot(added, [root]) && Last([root]) == root;
      assert Fits(added, root);
    } else {
      var id :| id in nodes && id != root;
      assert !Fits(added, id);
    }
  }

  lemma RemovedNode(nodes: Nodes, id: NodeId)
    requires Valid(nodes) && id in nodes && nodes[id].parent.Some?
    ensures !Valid(nodes - {id})
  {
    assert Fits(nodes, id);
    ParentIsAnother(nodes, id);
    assert !Fits(nodes - {id}, nodes[id].parent.value);
  }

  /** Registered as a root on a tree, an id leaves a tree behind exactly when it
      was not registered before, or was the only node. */
  lemma RootKeptIff(nodes: Nodes, root: NodeId, data: nat)
    requires Valid(nodes)
    ensures Valid(RootAppended(nodes, root, data)) <==> root !in nodes || nodes.Keys == {root}
  {
    var added := WithRoot(nodes, root, data);
    if root !in nodes {
      SecondRootRejected(nodes, root, data);
    } else if nodes[root].parent.None? {
      RewrittenRoot(nodes, root, data);
    } else {
      assert Roots(added) == Roots(nodes) + {root};
      assert added - {root} == nodes - {root};
      RemovedNode(nodes, root);
      assert Fits(nodes, root) && nodes[root].parent.value in nodes;
      ParentIsAnother(nodes, root);
    }
  }

  ghost predicate AllAre(s: seq<NodeId>, x: NodeId) {
    forall c :: c in s ==> c == x
  }

  lemma {:induction false} ShiftedSame(s: seq<NodeId>, x: NodeId)
    ensures (s + [x])[1..] == s <==> AllAre(s, x)
    decreases |s|
  {
    if s == [] {
    } else if Last(s) == x {
      var front := s[..|s| - 1];
      var moved := (front + [x])[1..];
      assert s == front + [x];
      ShiftedSame(front, x);
      assert (s + [x])[1..] == moved + [x];
      assert (moved + [x])[..|front|] == moved;
      assert AllAre(front + [x], x) <==> AllAre(front, x) by {
        assert forall c :: c in front ==> c in front + [x];
      }
    } else {
      assert Last((s + [x])[1..]) == x;
      assert Last(s) in s;
    }
  }

  /** The rollback of a fresh child is exact only for a parent that lists no
      other child. */
  lemma RollbackExactIff(nodes: Nodes, parent: NodeId, child: NodeId, data: nat)
    requires parent in nodes && child !in nodes
    ensures RolledBack(WithChild(nodes, parent, child, data), parent, child) == nodes
            <==> AllAre(nodes[parent].children, child)
  {
    var before := nodes[parent].children;
    var added := WithChild(nodes, parent, child, data);
    assert Last(before + [child]) == child && PositionFromEnd(before + [child], child) == Some(0);
    var back := RolledBack(added, parent, child);
    assert RemoveAt(before + [child], 0) == (before + [child])[1..];
    assert back == nodes[parent := nodes[parent].(children := (before + [child])[1..])];
    ShiftedSame(before, child);
    if (before + [child])[1..] == before {
      assert back == nodes;
    } else {
      assert back[parent].children != before;
    }
  }
}
