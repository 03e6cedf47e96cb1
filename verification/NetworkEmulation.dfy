/** The graph the emulated latencies are computed on: the links of the tree of
    nodes in both directions, and the links of the IoT emulation outward only. */
module NetworkEmulation {
  import opened Basics
  import opened ShortestPaths

  datatype Site = Site(name: Vertex, latency: nat, rate: nat, children: seq<Site>)

  // The tree links u to the end of e, at either end of the link.
  ghost predicate Joins(node: Site, u: Vertex, e: Edge) {
    JoinsFirst(node, |node.children|, u, e)
  }

  // One of the first k children, with what is below it, does.
  ghost predicate JoinsFirst(node: Site, k: nat, u: Vertex, e: Edge)
    requires k <= |node.children|
  {
    exists i :: 0 <= i < k && JoinsAt(node, i, u, e)
  }

  // The link to a child, or one below the child.
  ghost predicate JoinsAt(node: Site, i: nat, u: Vertex, e: Edge)
    requires i < |node.children|
    decreases node, 0
  {
    var child := node.children[i];
    || (u == node.name && e == Edge(child.name, child.latency, child.rate))
    || (u == child.name && e == Edge(node.name, child.latency, child.rate))
    || exists j :: 0 <= j < |child.children| && JoinsAt(child, j, u, e)
  }

  class Adjacency {
    var ret: Graph

    constructor ()
      ensures ret == map[]
    {
      ret := map[];
    }

    method Add(u: Vertex, e: Edge)
      modifies this
      ensures forall v, f :: f in Edges(ret, v) <==> f in Edges(old(ret), v) || (v == u && f == e)
    {
      ret := ret[u := Edges(ret, u) + [e]];
    }

    // Both directions of every link of the tree are added, and nothing else.
    method Fun(node: Site)
      modifies this
      ensures forall u, e :: e in Edges(ret, u) <==> e in Edges(old(ret), u) || Joins(node, u, e)
      decreases node
    {
      for i := 0 to |node.children|
        invariant forall u, e :: e in Edges(ret, u) <==> e in Edges(old(ret), u) || JoinsFirst(node, i, u, e)
      {
        ghost var before := ret;
        var child := node.children[i];
        Add(node.name, Edge(child.name, child.latency, child.rate));
        Add(child.name, Edge(node.name, child.latency, child.rate));
        Fun(child);
        assert forall u, e :: JoinsFirst(node, i + 1, u, e) <==> JoinsFirst(node, i, u, e) || JoinsAt(node, i, u, e);
        assert forall u, e :: e in Edges(ret, u) <==> e in Edges(before, u) || JoinsAt(node, i, u, e);
      }
    }

    // The IoT emulation reaches the connected nodes, none of which reaches it.
    method AddIot(iot: Vertex, connections: seq<(Vertex, nat)>)
      modifies this
      ensures forall u, e :: e in Edges(ret, u) <==>
        e in Edges(old(ret), u) || (u == iot && exists i :: 0 <= i < |connections| && e == IotEdge(connections[i]))
    {
      for i := 0 to |connections|
        invariant forall u, e :: e in Edges(ret, u) <==>
          e in Edges(old(ret), u) || (u == iot && exists j :: 0 <= j < i && e == IotEdge(connections[j]))
      {
        Add(iot, IotEdge(connections[i]));
      }
    }
  }

  // An outward link of the IoT emulation, at a gigabit.
  function IotEdge(connection: (Vertex, nat)): (e: Edge)
    ensures e.to == connection.0 && e.latency == connection.1 && e.rate == 1_000_000_000
  {
    Edge(connection.0, connection.1, ONE_GBIT)
  }

  // Every link but those of the IoT emulation goes both ways.
  ghost predicate BothWays(g: Graph, iot: Vertex) {
    forall u, e :: u != iot && e in Edges(g, u) ==> e.to != iot && Edge(u, e.latency, e.rate) in Edges(g, e.to)
  }

  lemma {:induction false} JoinsBack(node: Site, i: nat, u: Vertex, e: Edge)
    requires i < |node.children| && JoinsAt(node, i, u, e)
    ensures JoinsAt(node, i, e.to, Edge(u, e.latency, e.rate))
    decreases node
  {
    var child := node.children[i];
    if j :| 0 <= j < |child.children| && JoinsAt(child, j, u, e) {
      JoinsBack(child, j, u, e);
    }
  }

  // The IoT emulation is no node of the tree.
  ghost predicate Fresh(node: Site, iot: Vertex) {
    forall u, e :: Joins(node, u, e) ==> u != iot && e.to != iot
  }

  method GenNet(node: Site, iot: Vertex, connections: seq<(Vertex, nat)>) returns (g: Graph)
    requires Fresh(node, iot)
    ensures forall u, e :: e in Edges(g, u) <==>
      Joins(node, u, e) || (u == iot && exists i :: 0 <= i < |connections| && e == IotEdge(connections[i]))
    ensures BothWays(g, iot)
  {
    var adjacency := new Adjacency();
    adjacency.Fun(node);
    adjacency.AddIot(iot, connections);
    g := adjacency.ret;
    forall u, e | u != iot && e in Edges(g, u) ensures e.to != iot && Edge(u, e.latency, e.rate) in Edges(g, e.to) {
      var i :| 0 <= i < |node.children| && JoinsAt(node, i, u, e);
      JoinsBack(node, i, u, e);
      assert Joins(node, e.to, Edge(u, e.latency, e.rate));
    }
  }

  // ---- latencies are the same both ways ----

  lemma {:induction false} WalkConcat(g: Graph, a: Vertex, b: Vertex, c: Vertex, w: seq<Hop>, x: seq<Hop>)
    requires Walk(g, a, b, w) && Walk(g, b, c, x)
    ensures Walk(g, a, c, w + x)
    ensures Length(w + x) == Length(w) + Length(x)
    ensures Bottleneck(w + x) == Min(Bottleneck(w), Bottleneck(x))
    decreases |x|
  {
    if x == [] {
      assert w + x == w;
      AtMostGigabit(w);
    } else {
      var all := w + x;
      assert all[..|all| - 1] == w + x[..|x| - 1];
      WalkConcat(g, a, b, x[|x| - 1].from, w, x[..|x| - 1]);
    }
  }

  lemma {:induction false} AtMostGigabit(w: seq<Hop>)
    ensures Bottleneck(w) <= ONE_GBIT
    decreases |w|
  {
    if w != [] {
      AtMostGigabit(w[..|w| - 1]);
    }
  }

  lemma {:induction false} WalkBack(g: Graph, iot: Vertex, src: Vertex, dst: Vertex, w: seq<Hop>)
    returns (back: seq<Hop>)
    requires BothWays(g, iot) && src != iot && Walk(g, src, dst, w)
    ensures dst != iot && Walk(g, dst, src, back)
    ensures Length(back) == Length(w) && Bottleneck(back) == Bottleneck(w)
    decreases |w|
  {
    if w == [] {
      back := [];
    } else {
      var last := w[|w| - 1];
      var rest := WalkBack(g, iot, src, last.from, w[..|w| - 1]);
      var first := [Hop(dst, Edge(last.from, last.edge.latency, last.edge.rate))];
      assert first[..0] == [];
      assert Walk(g, dst, last.from, first);
      WalkConcat(g, dst, last.from, src, first, rest);
      AtMostGigabit(rest);
      back := first + rest;
    }
  }

  // What a search from src reports.
  ghost predicate Least(g: Graph, src: Vertex, dist: Dist, rates: map<Vertex, nat>) {
    && Achieved(g, src, dist, rates)
    && forall v, w :: Walk(g, src, v, w) ==> v in dist && dist[v] <= Length(w)
  }

  lemma NoFurtherBack(g: Graph, iot: Vertex, u: Vertex, v: Vertex, dist: Dist, rates: map<Vertex, nat>, back: Dist,
                      backRates: map<Vertex, nat>)
    requires BothWays(g, iot) && u != iot && v in dist
    requires Least(g, u, dist, rates) && Least(g, v, back, backRates)
    ensures u in back && back[u] <= dist[v]
  {
    assert Has(g, u, v, dist[v], rates[v]);
    var w :| Walk(g, u, v, w) && Length(w) == dist[v];
    var x := WalkBack(g, iot, u, v, w);
  }

  /** Between any two nodes other than the IoT emulation the reported latency is
      the same both ways. */
  lemma SameBothWays(g: Graph, iot: Vertex, u: Vertex, v: Vertex, dist: Dist, rates: map<Vertex, nat>, back: Dist,
                     backRates: map<Vertex, nat>)
    requires BothWays(g, iot) && u != iot && v != iot
    requires Least(g, u, dist, rates) && Least(g, v, back, backRates)
    ensures v in dist <==> u in back
    ensures v in dist ==> dist[v] == back[u]
  {
    if v in dist {
      NoFurtherBack(g, iot, u, v, dist, rates, back, backRates);
    }
    if u in back {
      NoFurtherBack(g, iot, v, u, back, backRates, dist, rates);
    }
  }
}
