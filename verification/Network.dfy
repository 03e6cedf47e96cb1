/** The overlay of fog nodes as a finite undirected graph, and the walks a
    request can take when no node sends it back where it came from. */
module Network {
  import opened Model

  // The neighbours each node lists.
  type Graph = map<NodeId, seq<NodeId>>

  ghost predicate Distinct(p: seq<NodeId>) {
    forall i, j :: 0 <= i < j < |p| ==> p[i] != p[j]
  }

  lemma DistinctAppend(p: seq<NodeId>, id: NodeId)
    requires Distinct(p) && id !in p
    ensures Distinct(p + [id])
  {
    assert forall i :: 0 <= i < |p| ==> p[i] in p;
  }

  // Every link is listed at both ends, once.
  ghost predicate Undirected(g: Graph) {
    forall u {:trigger LinksBack(g, u)} :: u in g ==> LinksBack(g, u)
  }

  ghost predicate LinksBack(g: Graph, u: NodeId)
    requires u in g
  {
    Distinct(g[u]) && forall v :: v in g[u] ==> v in g && u in g[v] && v != u
  }

  // Consecutive nodes are neighbours and no hop undoes the previous one.
  ghost predicate Walk(g: Graph, p: seq<NodeId>) {
    && p != []
    && (forall i :: 0 <= i < |p| ==> p[i] in g)
    && (forall i :: 0 <= i < |p| - 1 ==> p[i + 1] in g[p[i]])
    && (forall i :: 0 <= i < |p| - 2 ==> p[i] != p[i + 2])
  }

  // No walk comes back to a node it has left.
  ghost predicate Acyclic(g: Graph) {
    forall p {:trigger NoReturn(g, p)} :: NoReturn(g, p)
  }

  ghost predicate NoReturn(g: Graph, p: seq<NodeId>) {
    Walk(g, p) ==> Distinct(p)
  }

  // A tree, or several: the flood only sees the one it starts in.
  ghost predicate Tree(g: Graph) {
    Undirected(g) && Acyclic(g)
  }

  function Last(p: seq<NodeId>): NodeId
    requires p != []
  {
    p[|p| - 1]
  }

  // Where the request at the end of `p` came from; the market names the first
  // node as its own origin.
  function Origin(p: seq<NodeId>): NodeId
    requires p != []
  {
    if |p| == 1 then p[0] else p[|p| - 2]
  }

  lemma {:induction false} DistinctFits(p: seq<NodeId>, nodes: set<NodeId>)
    requires Distinct(p) && forall i :: 0 <= i < |p| ==> p[i] in nodes
    ensures |p| <= |nodes|
    decreases |p|
  {
    if p != [] {
      var front := p[..|p| - 1];
      forall i | 0 <= i < |front| ensures front[i] in nodes - {Last(p)} {
      }
      DistinctFits(front, nodes - {Last(p)});
    }
  }

  lemma WalkFits(g: Graph, p: seq<NodeId>)
    requires Tree(g) && Walk(g, p)
    ensures |p| <= |g|
  {
    assert NoReturn(g, p);
    DistinctFits(p, g.Keys);
  }

  // Forwarding to a neighbour other than the sender is one more hop of a walk.
  lemma WalkExtends(g: Graph, p: seq<NodeId>, n: NodeId)
    requires Tree(g) && Walk(g, p) && n in g[Last(p)] && n != Origin(p)
    ensures Walk(g, p + [n]) && Last(p + [n]) == n && Origin(p + [n]) == Last(p)
    ensures |p| < |g|
  {
    assert LinksBack(g, Last(p));
    assert Walk(g, p + [n]);
    WalkFits(g, p + [n]);
  }

  lemma WalkForwards(g: Graph, p: seq<NodeId>, k: nat)
    requires Tree(g) && Walk(g, p) && 0 < k < |p|
    ensures p[k] in g[Last(p[..k])] && p[k] != Origin(p[..k])
  {
    if k == 1 {
      assert p[1] in g[p[0]] && LinksBack(g, p[0]);
    }
  }

  // The walk back along `p` down to index i-1, and then forth along `q`.
  function Detour(p: seq<NodeId>, q: seq<NodeId>, i: nat): seq<NodeId>
    requires 0 < i <= |p| && i <= |q|
  {
    seq(|p| - i + 1, k requires 0 <= k < |p| - i + 1 => p[|p| - 1 - k]) + q[i..]
  }

  lemma DetourLinks(g: Graph, p: seq<NodeId>, q: seq<NodeId>, i: nat)
    requires Undirected(g) && Walk(g, p) && Walk(g, q)
    requires 0 < i < |p| && i < |q| && p[i - 1] == q[i - 1]
    ensures var w := Detour(p, q, i);
      && (forall k :: 0 <= k < |w| ==> w[k] in g)
      && (forall k :: 0 <= k < |w| - 1 ==> w[k + 1] in g[w[k]])
  {
    var w := Detour(p, q, i);
    var turn := |p| - i;
    forall k | 0 <= k < |w| - 1 ensures w[k + 1] in g[w[k]] {
      if k < turn {
        var b := |p| - 2 - k;
        assert w[k] == p[b + 1] && w[k + 1] == p[b] && p[b + 1] in g[p[b]] && LinksBack(g, p[b]);
      } else {
        var f := i - 1 + (k - turn);
        assert w[k] == q[f] && w[k + 1] == q[f + 1];
      }
    }
  }

  lemma DetourNeverTurns(g: Graph, p: seq<NodeId>, q: seq<NodeId>, i: nat)
    requires Walk(g, p) && Walk(g, q)
    requires 0 < i < |p| && i < |q| && p[i - 1] == q[i - 1] && p[i] != q[i]
    ensures var w := Detour(p, q, i); forall k :: 0 <= k < |w| - 2 ==> w[k] != w[k + 2]
  {
    var w := Detour(p, q, i);
    var turn := |p| - i;
    forall k | 0 <= k < |w| - 2 ensures w[k] != w[k + 2] {
      if k + 2 <= turn {
        var b := |p| - 3 - k;
        assert w[k] == p[b + 2] && w[k + 2] == p[b];
      } else if k + 1 == turn {
        assert w[k] == p[i] && w[k + 2] == q[i];
      } else {
        var f := i - 1 + (k - turn);
        assert w[k] == q[f] && w[k + 2] == q[f + 2];
      }
    }
  }

  // The first index at which two sequences differ, or the shorter length.
  function Parting(p: seq<NodeId>, q: seq<NodeId>): (i: nat)
    ensures i <= |p| && i <= |q|
    ensures forall k :: 0 <= k < i ==> p[k] == q[k]
    ensures i < |p| && i < |q| ==> p[i] != q[i]
    decreases |p|
  {
    if p == [] || q == [] || p[0] != q[0] then 0
    else
      var i := Parting(p[1..], q[1..]);
      assert forall k :: 0 < k < i + 1 ==> p[k] == p[1..][k - 1] && q[k] == q[1..][k - 1];
      i + 1
  }

  lemma ClosedIsNoWalk(g: Graph, w: seq<NodeId>)
    requires Tree(g) && |w| > 1 && w[0] == Last(w)
    ensures !Walk(g, w)
  {
    assert NoReturn(g, w);
    assert !Distinct(w) by {
      assert w[0] == w[|w| - 1];
    }
  }

  /** In a tree one walk at most leads from a node to another. */
  lemma UniqueWalk(g: Graph, p: seq<NodeId>, q: seq<NodeId>)
    requires Tree(g) && Walk(g, p) && Walk(g, q)
    requires p[0] == q[0] && Last(p) == Last(q)
    ensures p == q
  {
    assert NoReturn(g, p) && NoReturn(g, q);
    var i := Parting(p, q);
    if i < |p| && i < |q| {
      // Then back along p and forth along q would be a closed walk.
      DetourLinks(g, p, q, i);
      DetourNeverTurns(g, p, q, i);
      var w := Detour(p, q, i);
      ClosedIsNoWalk(g, w);
    }
  }

  // Every link joins a node to the one above it, which ranks lower.
  ghost predicate Rooted(g: Graph, above: map<NodeId, NodeId>, rank: map<NodeId, nat>) {
    && (forall u :: u in g ==> u in rank)
    && (forall u, v :: u in g && v in g[u] ==> v in g && (Climbs(above, rank, u, v) || Climbs(above, rank, v, u)))
  }

  ghost predicate Climbs(above: map<NodeId, NodeId>, rank: map<NodeId, nat>, u: NodeId, v: NodeId) {
    u in above && above[u] == v && u in rank && v in rank && rank[v] < rank[u]
  }

  // Once a walk goes down it goes down to its end.
  lemma {:induction false} FallsOn(g: Graph, above: map<NodeId, NodeId>, rank: map<NodeId, nat>, p: seq<NodeId>, i: nat,
                                   j: nat)
    requires Rooted(g, above, rank) && Walk(g, p)
    requires i <= j < |p| - 1 && Climbs(above, rank, p[i + 1], p[i])
    ensures Climbs(above, rank, p[j + 1], p[j]) && rank[p[i]] < rank[p[j + 1]]
    decreases j
  {
    if i < j {
      FallsOn(g, above, rank, p, i, j - 1);
      assert p[j + 1] in g[p[j]];
    }
  }

  // Until a walk goes down it goes up.
  lemma {:induction false} RisesBefore(g: Graph, above: map<NodeId, NodeId>, rank: map<NodeId, nat>, p: seq<NodeId>,
                                       i: nat, j: nat)
    requires Rooted(g, above, rank) && Walk(g, p)
    requires i <= j < |p| - 1 && Climbs(above, rank, p[j], p[j + 1])
    ensures rank[p[j + 1]] < rank[p[i]]
    decreases j - i
  {
    if i < j {
      RisesBefore(g, above, rank, p, i + 1, j);
      assert p[i + 1] in g[p[i]];
      if Climbs(above, rank, p[i + 1], p[i]) {
        FallsOn(g, above, rank, p, i, j);
      }
    }
  }

  lemma {:induction false} RootedDiffers(g: Graph, above: map<NodeId, NodeId>, rank: map<NodeId, nat>, p: seq<NodeId>,
                                         i: nat, j: nat)
    requires Rooted(g, above, rank) && Walk(g, p) && i < j < |p|
    ensures p[i] != p[j]
    decreases j - i
  {
    assert p[i + 1] in g[p[i]];
    assert p[j - 1 + 1] in g[p[j - 1]];
    if Climbs(above, rank, p[i + 1], p[i]) {
      FallsOn(g, above, rank, p, i, j - 1);
    } else if Climbs(above, rank, p[j - 1], p[j]) {
      RisesBefore(g, above, rank, p, i, j - 1);
    } else if j > i + 2 {
      RootedDiffers(g, above, rank, p, i + 1, j - 1);
    }
  }

  /** Nodes linked only to the one above them and to those below form a tree. */
  lemma RootedIsTree(g: Graph, above: map<NodeId, NodeId>, rank: map<NodeId, nat>)
    requires Undirected(g) && Rooted(g, above, rank)
    ensures Tree(g)
  {
    forall p ensures NoReturn(g, p) {
      forall i, j | Walk(g, p) && 0 <= i < j < |p| ensures p[i] != p[j] {
        RootedDiffers(g, above, rank, p, i, j);
      }
    }
  }
}
