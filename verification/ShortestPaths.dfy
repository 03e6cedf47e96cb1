/** The emulated network: for each source, the least latency to every node it
    can reach, with the rate of a way that has it. */
module ShortestPaths {
  import opened Basics

  type Vertex = nat

  datatype Edge = Edge(to: Vertex, latency: nat, rate: nat)

  type Graph = map<Vertex, seq<Edge>>

  const ONE_GBIT: nat := 1_000_000_000

  // A vertex without an entry has no edges.
  function Edges(g: Graph, u: Vertex): seq<Edge> {
    if u in g then g[u] else []
  }

  // ---- walks ----

  datatype Hop = Hop(from: Vertex, edge: Edge)

  ghost predicate Walk(g: Graph, src: Vertex, dst: Vertex, w: seq<Hop>)
    decreases |w|
  {
    if w == [] then src == dst
    else
      var last := w[|w| - 1];
      last.edge.to == dst && last.edge in Edges(g, last.from) && Walk(g, src, last.from, w[..|w| - 1])
  }

  ghost function Length(w: seq<Hop>): nat
    decreases |w|
  {
    if w == [] then 0 else Length(w[..|w| - 1]) + w[|w| - 1].edge.latency
  }

  // The rate of the slowest hop, a gigabit at most.
  ghost function Bottleneck(w: seq<Hop>): nat
    decreases |w|
  {
    if w == [] then 1_000_000_000 else Min(Bottleneck(w[..|w| - 1]), w[|w| - 1].edge.rate)
  }

  // Some walk has this latency and this rate.
  ghost predicate Has(g: Graph, src: Vertex, v: Vertex, latency: nat, rate: nat) {
    exists w :: Walk(g, src, v, w) && Length(w) == latency && Bottleneck(w) == rate
  }

  lemma HasNext(g: Graph, src: Vertex, u: Vertex, latency: nat, rate: nat, e: Edge)
    requires Has(g, src, u, latency, rate) && e in Edges(g, u)
    ensures Has(g, src, e.to, latency + e.latency, Min(rate, e.rate))
  {
    var w :| Walk(g, src, u, w) && Length(w) == latency && Bottleneck(w) == rate;
    var next := w + [Hop(u, e)];
    assert next[..|next| - 1] == w;
    assert Walk(g, src, e.to, next);
  }

  lemma HasNone(g: Graph, src: Vertex)
    ensures Has(g, src, src, 0, ONE_GBIT)
  {
    assert Walk(g, src, src, []);
  }

  // ---- the search ----

  datatype Entry = Entry(distance: nat, vertex: Vertex)

  type Dist = map<Vertex, nat>

  // The first k edges of u offer no shorter way.
  ghost predicate Relaxed(g: Graph, dist: Dist, u: Vertex, k: nat) {
    && u in dist
    && k <= |Edges(g, u)|
    && forall j :: 0 <= j < k ==>
         Edges(g, u)[j].to in dist && dist[Edges(g, u)[j].to] <= dist[u] + Edges(g, u)[j].latency
  }

  // All edges of v are relaxed, or v waits in the queue with its distance.
  ghost predicate Served(g: Graph, dist: Dist, pq: multiset<Entry>, v: Vertex) {
    v in dist && (Entry(dist[v], v) in pq || Relaxed(g, dist, v, |Edges(g, v)|))
  }

  ghost predicate Achieved(g: Graph, src: Vertex, dist: Dist, rates: map<Vertex, nat>) {
    && dist.Keys == rates.Keys
    && forall v {:trigger Has(g, src, v, dist[v], rates[v])} :: v in dist ==> Has(g, src, v, dist[v], rates[v])
  }

  // Queue entries are for reached vertices and never below their distance.
  ghost predicate Queued(dist: Dist, pq: multiset<Entry>) {
    forall e :: e in pq ==> e.vertex in dist && dist[e.vertex] <= e.distance
  }

  // Everything but u is served.
  ghost predicate ServedBut(g: Graph, dist: Dist, pq: multiset<Entry>, u: Vertex) {
    forall v {:trigger Served(g, dist, pq, v)} :: v in dist && v != u ==> Served(g, dist, pq, v)
  }

  predicate Shorter(dist: Dist, u: Vertex, e: Edge)
    requires u in dist
  {
    e.to in dist ==> dist[u] + e.latency < dist[e.to]
  }

  lemma RelaxedKept(g: Graph, dist: Dist, v: Vertex, d: nat, u: Vertex, k: nat)
    requires Relaxed(g, dist, u, k) && u != v && (v in dist ==> d <= dist[v])
    ensures Relaxed(g, dist[v := d], u, k)
  {
  }

  lemma ServedKept(g: Graph, dist: Dist, pq: multiset<Entry>, v: Vertex, d: nat, x: Vertex)
    requires x == v || Served(g, dist, pq, x)
    requires v in dist ==> d <= dist[v]
    ensures Served(g, dist[v := d], pq + multiset{Entry(d, v)}, x)
  {
    if x != v && Entry(dist[x], x) !in pq {
      RelaxedKept(g, dist, v, d, x, |Edges(g, x)|);
    }
  }

  lemma ServedButKept(g: Graph, dist: Dist, pq: multiset<Entry>, u: Vertex, v: Vertex, d: nat)
    requires ServedBut(g, dist, pq, u) && (v in dist ==> d <= dist[v])
    ensures ServedBut(g, dist[v := d], pq + multiset{Entry(d, v)}, u)
  {
    var next := dist[v := d];
    forall x | x in next && x != u ensures Served(g, next, pq + multiset{Entry(d, v)}, x) {
      ServedKept(g, dist, pq, v, d, x);
    }
  }

  lemma AchievedKept(g: Graph, src: Vertex, dist: Dist, rates: map<Vertex, nat>, u: Vertex, e: Edge)
    requires Achieved(g, src, dist, rates) && u in dist && e in Edges(g, u)
    ensures Achieved(g, src, dist[e.to := dist[u] + e.latency], rates[e.to := Min(rates[u], e.rate)])
  {
    assert Has(g, src, u, dist[u], rates[u]);
    HasNext(g, src, u, dist[u], rates[u], e);
    var dist', rates' := dist[e.to := dist[u] + e.latency], rates[e.to := Min(rates[u], e.rate)];
    forall v | v in dist' ensures Has(g, src, v, dist'[v], rates'[v]) {
      if v != e.to {
        assert Has(g, src, v, dist[v], rates[v]);
      }
    }
  }

  lemma RelaxedNext(g: Graph, dist: Dist, u: Vertex, k: nat)
    requires Relaxed(g, dist, u, k) && k < |Edges(g, u)|
    ensures var e := Edges(g, u)[k];
      var next := if Shorter(dist, u, e) then dist[e.to := dist[u] + e.latency] else dist;
      Relaxed(g, next, u, k + 1)
  {
    var e := Edges(g, u)[k];
    if Shorter(dist, u, e) {
      RelaxedKept(g, dist, e.to, dist[u] + e.latency, u, k);
    }
  }

  lemma QueuedKept(dist: Dist, pq: multiset<Entry>, v: Vertex, d: nat)
    requires Queued(dist, pq) && (v in dist ==> d <= dist[v])
    ensures Queued(dist[v := d], pq + multiset{Entry(d, v)})
  {
  }

  // ---- termination ----

  ghost function Sum(dist: Dist, ids: set<Vertex>): nat
    requires ids <= dist.Keys
    decreases |ids|
  {
    if ids == {} then 0 else dist[Pick(ids)] + Sum(dist, ids - {Pick(ids)})
  }

  lemma {:induction false} SumSplit(dist: Dist, ids: set<Vertex>, id: Vertex)
    requires id in ids && ids <= dist.Keys
    ensures Sum(dist, ids) == dist[id] + Sum(dist, ids - {id})
    decreases |ids|
  {
    var first := Pick(ids);
    if first != id {
      SumSplit(dist, ids - {first}, id);
      SumSplit(dist, ids - {id}, first);
      assert ids - {first} - {id} == ids - {id} - {first};
    }
  }

  lemma {:induction false} SumSame(dist: Dist, other: Dist, ids: set<Vertex>)
    requires ids <= dist.Keys && ids <= other.Keys && forall id :: id in ids ==> dist[id] == other[id]
    ensures Sum(dist, ids) == Sum(other, ids)
    decreases |ids|
  {
    if ids != {} {
      SumSame(dist, other, ids - {Pick(ids)});
    }
  }

  // More vertices reached, or the same at less distance in all.
  ghost predicate Progress(dist: Dist, before: Dist) {
    before.Keys < dist.Keys || (before.Keys == dist.Keys && Sum(dist, dist.Keys) < Sum(before, before.Keys))
  }

  lemma ShorterIsProgress(dist: Dist, v: Vertex, d: nat)
    requires v in dist ==> d < dist[v]
    ensures Progress(dist[v := d], dist)
  {
    var next := dist[v := d];
    if v in dist {
      assert next.Keys == dist.Keys;
      SumSplit(dist, dist.Keys, v);
      SumSplit(next, dist.Keys, v);
      SumSame(dist, next, dist.Keys - {v});
    } else {
      assert v in next.Keys;
    }
  }

  lemma FewerLeft(nodes: set<Vertex>, dist: Dist, before: Dist)
    requires before.Keys < dist.Keys <= nodes
    ensures |nodes - dist.Keys| < |nodes - before.Keys|
  {
    var left, more := nodes - dist.Keys, nodes - before.Keys;
    var v :| v in dist.Keys && v !in before.Keys;
    assert left <= more - {v};
    SubsetSize(left, more - {v});
  }

  ghost function Vertices(g: Graph, src: Vertex): set<Vertex> {
    g.Keys + {src} + set u, i | u in g && 0 <= i < |g[u]| :: g[u][i].to
  }

  ghost function Left(g: Graph, src: Vertex, dist: Dist): nat {
    |Vertices(g, src) - dist.Keys|
  }

  lemma ProgressRanks(g: Graph, src: Vertex, dist: Dist, before: Dist)
    requires Progress(dist, before) && dist.Keys <= Vertices(g, src)
    ensures || Left(g, src, dist) < Left(g, src, before)
            || (Left(g, src, dist) == Left(g, src, before) && Sum(dist, dist.Keys) < Sum(before, before.Keys))
  {
    if before.Keys < dist.Keys {
      FewerLeft(Vertices(g, src), dist, before);
    }
  }

  lemma EdgeStays(g: Graph, src: Vertex, u: Vertex, i: nat)
    requires i < |Edges(g, u)|
    ensures Edges(g, u)[i].to in Vertices(g, src)
  {
  }

  // ---- the method ----

  // With all edges relaxed no walk is shorter.
  lemma {:induction false} NoShorterWalk(g: Graph, src: Vertex, dist: Dist, v: Vertex, w: seq<Hop>)
    requires src in dist && dist[src] == 0
    requires forall u {:trigger Relaxed(g, dist, u, |Edges(g, u)|)} :: u in dist ==> Relaxed(g, dist, u, |Edges(g, u)|)
    requires Walk(g, src, v, w)
    ensures v in dist && dist[v] <= Length(w)
    decreases |w|
  {
    if w != [] {
      var last := w[|w| - 1];
      NoShorterWalk(g, src, dist, last.from, w[..|w| - 1]);
      assert Relaxed(g, dist, last.from, |Edges(g, last.from)|);
    }
  }

  ghost predicate Ascending(s: seq<nat>) {
    forall i, j :: 0 <= i < j < |s| ==> s[i] <= s[j]
  }

  // What the queue still holds comes after what was taken from it.
  ghost predicate After(pq: multiset<Entry>, popped: seq<nat>) {
    && Ascending(popped)
    && (popped != [] ==> forall e :: e in pq ==> popped[|popped| - 1] <= e.distance)
  }

  lemma {:induction false} LowestExists(pq: multiset<Entry>) returns (low: Entry)
    requires pq != multiset{}
    ensures low in pq && forall e :: e in pq ==> low.distance <= e.distance
    decreases |pq|
  {
    low :| low in pq;
    var rest := pq - multiset{low};
    assert forall e :: e in pq ==> e == low || e in rest;
    if rest != multiset{} {
      var other := LowestExists(rest);
      if other.distance < low.distance {
        low := other;
      }
    }
  }

  // The state of the search, u being the vertex whose edges are looked at.
  ghost predicate Searching(g: Graph, src: Vertex, dist: Dist, rates: map<Vertex, nat>, pq: multiset<Entry>) {
    && src in dist && dist[src] == 0
    && dist.Keys <= Vertices(g, src)
    && Achieved(g, src, dist, rates)
    && Queued(dist, pq)
  }

  lemma SearchingKept(g: Graph, src: Vertex, dist: Dist, rates: map<Vertex, nat>, pq: multiset<Entry>, u: Vertex,
                      k: nat)
    requires Searching(g, src, dist, rates, pq) && u in dist && k < |Edges(g, u)| && Shorter(dist, u, Edges(g, u)[k])
    ensures var e := Edges(g, u)[k];
      var d := dist[u] + e.latency;
      Searching(g, src, dist[e.to := d], rates[e.to := Min(rates[u], e.rate)], pq + multiset{Entry(d, e.to)})
  {
    var e := Edges(g, u)[k];
    EdgeStays(g, src, u, k);
    AchievedKept(g, src, dist, rates, u, e);
    QueuedKept(dist, pq, e.to, dist[u] + e.latency);
  }

  ghost predicate AllServed(g: Graph, dist: Dist, pq: multiset<Entry>) {
    forall v {:trigger Served(g, dist, pq, v)} :: v in dist ==> Served(g, dist, pq, v)
  }

  // With nothing queued being served is being relaxed.
  lemma AllRelaxed(g: Graph, dist: Dist)
    requires AllServed(g, dist, multiset{})
    ensures forall u {:trigger Relaxed(g, dist, u, |Edges(g, u)|)} :: u in dist ==> Relaxed(g, dist, u, |Edges(g, u)|)
  {
    forall u | u in dist ensures Relaxed(g, dist, u, |Edges(g, u)|) {
      assert Served(g, dist, multiset{}, u);
    }
  }

  lemma AfterMore(pq: multiset<Entry>, popped: seq<nat>, e: Entry)
    requires After(pq, popped) && (popped != [] ==> popped[|popped| - 1] <= e.distance)
    ensures After(pq + multiset{e}, popped)
  {
  }

  lemma AfterPop(pq: multiset<Entry>, popped: seq<nat>, top: Entry)
    requires After(pq, popped) && top in pq && forall e :: e in pq ==> top.distance <= e.distance
    ensures After(pq - multiset{top}, popped + [top.distance])
  {
  }

  lemma ProgressOn(dist: Dist, middle: Dist, before: Dist)
    requires Progress(dist, middle) && (middle == before || Progress(middle, before))
    ensures Progress(dist, before)
  {
  }

  // Taking an entry leaves every vertex served but its own, which is served too
  // when the entry is stale.
  lemma ServedAfterPop(g: Graph, dist: Dist, pq: multiset<Entry>, top: Entry)
    requires AllServed(g, dist, pq) && Queued(dist, pq) && top in pq
    requires forall e :: e in pq ==> top.distance <= e.distance
    ensures Queued(dist, pq - multiset{top}) && top.vertex in dist && dist[top.vertex] <= top.distance
    ensures ServedBut(g, dist, pq - multiset{top}, top.vertex)
    ensures dist[top.vertex] < top.distance ==> Relaxed(g, dist, top.vertex, |Edges(g, top.vertex)|)
  {
    var rest := pq - multiset{top};
    forall v | v in dist && v != top.vertex ensures Served(g, dist, rest, v) {
      assert Served(g, dist, pq, v);
      assert Entry(dist[v], v) in pq ==> Entry(dist[v], v) in rest;
    }
    assert Served(g, dist, pq, top.vertex);
  }

  // What holds between two turns of the outer loop.
  ghost predicate Ready(g: Graph, src: Vertex, dist: Dist, rates: map<Vertex, nat>, pq: multiset<Entry>,
                        popped: seq<nat>) {
    Searching(g, src, dist, rates, pq) && AllServed(g, dist, pq) && After(pq, popped)
  }

  // What holds once an entry for u is taken.
  ghost predicate Popped(g: Graph, src: Vertex, u: Vertex, dist: Dist, rates: map<Vertex, nat>, pq: multiset<Entry>,
                         popped: seq<nat>) {
    && Searching(g, src, dist, rates, pq) && ServedBut(g, dist, pq, u) && After(pq, popped)
    && popped != [] && u in dist && dist[u] <= popped[|popped| - 1]
    && (dist[u] < popped[|popped| - 1] ==> Relaxed(g, dist, u, |Edges(g, u)|))
  }

  lemma ReadyPopped(g: Graph, src: Vertex, dist: Dist, rates: map<Vertex, nat>, pq: multiset<Entry>, popped: seq<nat>,
                    top: Entry)
    requires Ready(g, src, dist, rates, pq, popped) && top in pq && forall e :: e in pq ==> top.distance <= e.distance
    ensures Popped(g, src, top.vertex, dist, rates, pq - multiset{top}, popped + [top.distance])
  {
    ServedAfterPop(g, dist, pq, top);
    AfterPop(pq, popped, top);
  }

  // The inner loop: the edges of u, taken from the queue last.
  method RelaxEdges(g: Graph, ghost src: Vertex, u: Vertex, before: Dist, ratesBefore: map<Vertex, nat>,
                    queue: multiset<Entry>, ghost popped: seq<nat>)
    returns (dist: Dist, rates: map<Vertex, nat>, pq: multiset<Entry>)
    requires Popped(g, src, u, before, ratesBefore, queue, popped)
    ensures Ready(g, src, dist, rates, pq, popped)
    ensures (dist == before && pq == queue) || Progress(dist, before)
  {
    dist, rates, pq := before, ratesBefore, queue;
    var edges := Edges(g, u);
    for k := 0 to |edges|
      invariant Searching(g, src, dist, rates, pq)
      invariant u in dist && dist[u] == before[u]
      invariant ServedBut(g, dist, pq, u)
      invariant Relaxed(g, dist, u, k)
      invariant After(pq, popped)
      // A stale entry finds every edge relaxed already.
      invariant dist[u] < popped[|popped| - 1] ==> Relaxed(g, dist, u, |edges|)
      invariant (dist == before && pq == queue) || Progress(dist, before)
    {
      var e := edges[k];
      RelaxedNext(g, dist, u, k);
      if Shorter(dist, u, e) {
        var d := dist[u] + e.latency;
        SearchingKept(g, src, dist, rates, pq, u, k);
        ServedButKept(g, dist, pq, u, e.to, d);
        ShorterIsProgress(dist, e.to, d);
        ProgressOn(dist[e.to := d], dist, before);
        AfterMore(pq, popped, Entry(d, e.to));
        rates := rates[e.to := Min(rates[u], e.rate)];
        dist := dist[e.to := d];
        pq := pq + multiset{Entry(d, e.to)};
      }
    }
  }

  lemma ReadyAtStart(g: Graph, src: Vertex)
    ensures Ready(g, src, map[src := 0], map[src := ONE_GBIT], multiset{Entry(0, src)}, [])
  {
    HasNone(g, src);
  }

  lemma ReadyAtEnd(g: Graph, src: Vertex, dist: Dist, rates: map<Vertex, nat>, popped: seq<nat>)
    requires Ready(g, src, dist, rates, multiset{}, popped)
    ensures Achieved(g, src, dist, rates) && Ascending(popped)
    ensures forall v, w :: Walk(g, src, v, w) ==> v in dist && dist[v] <= Length(w)
  {
    AllRelaxed(g, dist);
    forall v, w | Walk(g, src, v, w) ensures v in dist && dist[v] <= Length(w) {
      NoShorterWalk(g, src, dist, v, w);
    }
  }

  method HeapPop(queue: multiset<Entry>) returns (top: Entry, pq: multiset<Entry>)
    requires queue != multiset{}
    ensures top in queue && pq == queue - multiset{top}
    ensures forall e :: e in queue ==> top.distance <= e.distance
  {
    ghost var low := LowestExists(queue);
    top :| top in queue && forall e :: e in queue ==> top.distance <= e.distance;
    pq := queue - multiset{top};
  }

  /** Every vertex that can be reached gets the least latency of all walks to it,
      and the rate of a walk that has this latency; nothing else is reported. */
  method Dijkstra(g: Graph, src: Vertex) returns (dist: Dist, rates: map<Vertex, nat>, ghost popped: seq<nat>)
    ensures Achieved(g, src, dist, rates)
    ensures forall v, w :: Walk(g, src, v, w) ==> v in dist && dist[v] <= Length(w)
    // The queue is emptied in the order of the distances.
    ensures Ascending(popped)
  {
    var pq := multiset{Entry(0, src)};
    dist, rates, popped := map[src := 0], map[src := ONE_GBIT], [];
    ReadyAtStart(g, src);
    while pq != multiset{}
      invariant Ready(g, src, dist, rates, pq, popped)
      decreases Left(g, src, dist), Sum(dist, dist.Keys), |pq|
    {
      ghost var before, queue := dist, pq;
      var top, rest := HeapPop(pq);
      ReadyPopped(g, src, dist, rates, pq, popped, top);
      popped := popped + [top.distance];
      dist, rates, pq := RelaxEdges(g, src, top.vertex, dist, rates, rest, popped);
      if dist != before {
        ProgressRanks(g, src, dist, before);
      }
    }
    ReadyAtEnd(g, src, dist, rates, popped);
  }
}
