/** Where the required number of proposals is not a bound: a node with n
    neighbours, each with a leaf behind it, asked for n + 1 proposals. */
module MinCpuOvershoot {
  import opened Model
  import opened LatencyEstimate
  import opened Network
  import opened Flood
  import opened MinCpuRandom
  import opened Budget

  function Upto(k: nat): (ids: set<NodeId>)
    ensures forall u: NodeId :: u in ids <==> u <= k
  {
    if k == 0 then {0} else Upto(k - 1) + {k}
  }

  function Ids(n: nat): set<NodeId> {
    Upto(2 * n)
  }

  // Node 0 in the centre, the arms 1 to n, and the leaf i + n behind arm i.
  function Links(n: nat, u: NodeId): seq<NodeId>
    requires u in Ids(n)
  {
    if u == 0 then seq(n, i requires 0 <= i => i + 1)
    else if u <= n then [u + n, 0]
    else [u - n]
  }

  function Spider(n: nat): Graph {
    map u | u in Ids(n) :: Links(n, u)
  }

  function Up(n: nat, u: NodeId): NodeId {
    if u <= n then 0 else u - n
  }

  lemma SpiderLink(n: nat, u: NodeId, v: NodeId)
    requires u in Ids(n) && v in Links(n, u)
    ensures v in Ids(n) && u in Links(n, v) && v != u
    ensures if 0 < u && (u <= n ==> v == 0) then v < u && v == Up(n, u) else u < v && u == Up(n, v)
  {
    if u == 0 {
      assert Links(n, v)[1] == 0;
    } else if v == 0 {
      assert Links(n, 0)[u - 1] == u;
    } else {
      assert Links(n, v)[0] == u;
    }
  }

  ghost function Ups(n: nat): map<NodeId, NodeId> {
    map u | u in Ids(n) :: Up(n, u)
  }

  ghost function Ranks(n: nat): map<NodeId, nat> {
    map u | u in Ids(n) :: u
  }

  lemma SpiderIsRooted(n: nat)
    ensures Rooted(Spider(n), Ups(n), Ranks(n))
  {
    var g := Spider(n);
    forall u, v | u in g && v in g[u]
      ensures v in g && (Climbs(Ups(n), Ranks(n), u, v) || Climbs(Ups(n), Ranks(n), v, u))
    {
      SpiderLink(n, u, v);
    }
  }

  lemma SpiderIsUndirected(n: nat)
    ensures Undirected(Spider(n))
  {
    var g := Spider(n);
    forall u | u in g ensures LinksBack(g, u) {
      forall v | v in g[u] ensures v in g && u in g[v] && v != u {
        SpiderLink(n, u, v);
      }
    }
  }

  lemma SpiderIsTree(n: nat)
    ensures Tree(Spider(n))
  {
    SpiderIsUndirected(n);
    SpiderIsRooted(n);
    RootedIsTree(Spider(n), Ups(n), Ranks(n));
  }

  // A hop that never makes a transfer too slow: with data to send it takes no
  // time, without data the estimate of a hop that takes time is not a number.
  function Hop(sla: Sla): Latency {
    Latency(if 0.0 < sla.inputMaxSize then 0.0 else 1.0, 0.0, 0.0, 0.0)
  }

  // Everything answers and only the centre does not bid.
  ghost predicate IsSpider(n: nat, sla: Sla, net: Overlay) {
    && net.graph == Spider(n)
    && (forall u, v :: net.latency(u, v) == Some(Hop(sla)))
    && (forall u, v :: net.bandwidth(u, v) == Some(1.0))
    && (forall u, v :: net.answers(u, v))
    && (forall u :: net.local(u) == if u == 0 then Passes else Bids(u, 0.0))
  }

  // What accumulates over such hops.
  ghost predicate Light(sla: Sla, acc: AccumulatedLatency) {
    acc.Lossless() && (0.0 < sla.inputMaxSize ==> acc.Worst() == 0.0)
  }

  ghost predicate ForwardsAt(net: Overlay, sla: Sla, acc: AccumulatedLatency, u: NodeId, v: NodeId) {
    Light(sla, acc) ==> Onward(net, sla, acc, u, v).Some? && Light(sla, Onward(net, sla, acc, u, v).value)
  }

  // Nothing is pruned.
  ghost predicate Forwards(net: Overlay, sla: Sla) {
    forall acc, u, v {:trigger ForwardsAt(net, sla, acc, u, v)} :: ForwardsAt(net, sla, acc, u, v)
  }

  // Nothing to send, or a limit that a transfer without latency meets.
  predicate Allowed(sla: Sla) {
    0.0 < sla.inputMaxSize ==> 0.0 <= sla.latencyMax
  }

  lemma LightIsFast(sla: Sla, worst: real)
    requires 0.0 <= sla.inputMaxSize && Allowed(sla)
    requires if 0.0 < sla.inputMaxSize then worst == 0.0 else 0.0 < worst
    ensures !TooSlow(sla, worst)
  {
    if 0.0 < sla.inputMaxSize {
      ClosedFormOfZero(worst, sla.inputMaxSize);
    }
  }

  lemma HopIsFast(net: Overlay, root: real -> real, sla: Sla, acc: AccumulatedLatency)
    requires Measures(net, root) && 0.0 <= sla.inputMaxSize && Allowed(sla) && Light(sla, acc)
    ensures var next := net.accumulate(acc, Hop(sla), 1.0); Light(sla, next) && !Prunes(net, sla, next)
  {
    var next := net.accumulate(acc, Hop(sla), 1.0);
    assert AccumulatesAt(net, root, acc, Hop(sla), 1.0);
    SteadyHop(root, acc, Hop(sla), 1.0, next);
    LightIsFast(sla, next.Worst());
    PrunesIff(net, root, sla, next);
  }

  lemma SpiderForwards(n: nat, net: Overlay, root: real -> real, sla: Sla)
    requires IsSpider(n, sla, net) && Measures(net, root) && 0.0 <= sla.inputMaxSize && Allowed(sla)
    ensures Forwards(net, sla)
  {
    forall acc, u, v ensures ForwardsAt(net, sla, acc, u, v) {
      if Light(sla, acc) {
        HopIsFast(net, root, sla, acc);
      }
    }
  }

  // A shuffle that leaves the order as it is.
  ghost predicate Unshuffled(g: Graph, shuffled: NodeId -> seq<NodeId>) {
    forall u :: u in g ==> shuffled(u) == g[u]
  }

  ghost predicate Asked(net: Overlay, shuffled: NodeId -> seq<NodeId>, sla: Sla, path: seq<NodeId>,
                        acc: AccumulatedLatency) {
    && Askable(net, path)
    && Shuffles(net.graph, shuffled)
    && Unshuffled(net.graph, shuffled)
    && Forwards(net, sla)
    && Light(sla, acc)
  }

  // A neighbour other than the sender is asked.
  lemma NeighborAsked(n: nat, net: Overlay, shuffled: NodeId -> seq<NodeId>, sla: Sla, path: seq<NodeId>,
                      acc: AccumulatedLatency, v: NodeId, share: nat)
    returns (next: AccumulatedLatency)
    requires IsSpider(n, sla, net) && Asked(net, shuffled, sla, path, acc)
    requires v in net.graph[Last(path)] && v != Origin(path)
    ensures Asked(net, shuffled, sla, path + [v], next) && Last(path + [v]) == v && Origin(path + [v]) == Last(path)
    ensures FollowUp(net, shuffled, sla, path, acc, v, share) ==
        Some(BidSome(net, shuffled, sla, path + [v], next, share))
  {
    assert ForwardsAt(net, sla, acc, Last(path), v);
    WalkExtends(net.graph, path, v);
    next := Onward(net, sla, acc, Last(path), v).value;
  }

  // One more neighbour asked, and what it answers is appended.
  lemma OneMore(net: Overlay, shuffled: NodeId -> seq<NodeId>, sla: Sla, path: seq<NodeId>, acc: AccumulatedLatency,
                m: nat, share: nat)
    requires Askable(net, path) && Shuffles(net.graph, shuffled) && 0 < m <= |shuffled(Last(path))|
    requires shuffled(Last(path))[m - 1] in net.graph[Last(path)]
    requires FollowUpFirst(net, shuffled, sla, path, acc, m - 1, share).Reply?
    requires var r := FollowUp(net, shuffled, sla, path, acc, shuffled(Last(path))[m - 1], share);
      r.Some? && r.value.Reply?
    ensures FollowUpFirst(net, shuffled, sla, path, acc, m, share) == Reply(
              FollowUpFirst(net, shuffled, sla, path, acc, m - 1, share).bids
              + FollowUp(net, shuffled, sla, path, acc, shuffled(Last(path))[m - 1], share).value.bids)
  {
    WalkFits(net.graph, path);
  }

  // A node that bids puts its own bid behind those of its neighbours.
  lemma OwnLast(net: Overlay, shuffled: NodeId -> seq<NodeId>, sla: Sla, path: seq<NodeId>, acc: AccumulatedLatency,
                required: nat)
    requires Askable(net, path) && Shuffles(net.graph, shuffled)
    requires net.local(Last(path)).Bids? && 0 < required <= |shuffled(Last(path))|
    requires FollowUpFirst(net, shuffled, sla, path, acc, required - 1, 1).Reply?
    ensures BidSome(net, shuffled, sla, path, acc, required).Reply?
    ensures |BidSome(net, shuffled, sla, path, acc, required).bids|
         == |FollowUpFirst(net, shuffled, sla, path, acc, required - 1, 1).bids| + 1
  {
    WalkFits(net.graph, path);
  }

  lemma LeafBids(n: nat, net: Overlay, shuffled: NodeId -> seq<NodeId>, sla: Sla, path: seq<NodeId>,
                 acc: AccumulatedLatency)
    requires IsSpider(n, sla, net) && Asked(net, shuffled, sla, path, acc) && n < Last(path)
    ensures BidSome(net, shuffled, sla, path, acc, 1).Reply?
    ensures |BidSome(net, shuffled, sla, path, acc, 1).bids| == 1
  {
    WalkFits(net.graph, path);
    assert FollowUpFirst(net, shuffled, sla, path, acc, 0, 1) == Reply([]);
  }

  // Asked for two, an arm bids itself and asks the leaf for one more.
  lemma ArmAsksLeaf(n: nat, net: Overlay, shuffled: NodeId -> seq<NodeId>, sla: Sla, path: seq<NodeId>,
                    acc: AccumulatedLatency)
    requires IsSpider(n, sla, net) && Asked(net, shuffled, sla, path, acc)
    requires 1 <= Last(path) <= n && Origin(path) == 0
    ensures |shuffled(Last(path))| == 2
    ensures FollowUpFirst(net, shuffled, sla, path, acc, 1, 1).Reply?
    ensures |FollowUpFirst(net, shuffled, sla, path, acc, 1, 1).bids| == 1
  {
    var arm := Last(path);
    var leaf := arm + n;
    assert net.graph[arm] == Links(n, arm) && Links(n, arm)[0] == leaf;
    var next := NeighborAsked(n, net, shuffled, sla, path, acc, leaf, 1);
    LeafBids(n, net, shuffled, sla, path + [leaf], next);
    OneMore(net, shuffled, sla, path, acc, 1, 1);
  }

  lemma ArmBids(n: nat, net: Overlay, shuffled: NodeId -> seq<NodeId>, sla: Sla, path: seq<NodeId>,
                acc: AccumulatedLatency)
    requires IsSpider(n, sla, net) && Asked(net, shuffled, sla, path, acc)
    requires 1 <= Last(path) <= n && Origin(path) == 0
    ensures BidSome(net, shuffled, sla, path, acc, 2).Reply?
    ensures |BidSome(net, shuffled, sla, path, acc, 2).bids| == 2
  {
    ArmAsksLeaf(n, net, shuffled, sla, path, acc);
    assert net.local(Last(path)).Bids?;
    OwnLast(net, shuffled, sla, path, acc, 2);
  }

  ghost predicate AtCentre(path: seq<NodeId>) {
    |path| == 1 && path[0] == 0
  }

  lemma ArmAnswers(n: nat, net: Overlay, shuffled: NodeId -> seq<NodeId>, sla: Sla, path: seq<NodeId>,
                   acc: AccumulatedLatency, m: nat)
    requires IsSpider(n, sla, net) && Asked(net, shuffled, sla, path, acc) && AtCentre(path) && 1 <= m <= n
    ensures 0 in net.graph && m - 1 < |net.graph[0]| && net.graph[0][m - 1] == m
    ensures var r := FollowUp(net, shuffled, sla, path, acc, m, 2); r.Some? && r.value.Reply? && |r.value.bids| == 2
  {
    assert net.graph[0] == Links(n, 0) && Links(n, 0)[m - 1] == m;
    var next := NeighborAsked(n, net, shuffled, sla, path, acc, m, 2);
    ArmBids(n, net, shuffled, sla, path + [m], next);
  }

  // What the first m neighbours return, as far as it is counted here.
  ghost predicate Collected(net: Overlay, shuffled: NodeId -> seq<NodeId>, sla: Sla, path: seq<NodeId>,
                            acc: AccumulatedLatency, m: nat, count: nat)
    requires Askable(net, path) && Shuffles(net.graph, shuffled) && m <= |shuffled(Last(path))|
  {
    var r := FollowUpFirst(net, shuffled, sla, path, acc, m, 2);
    r.Reply? && |r.bids| == count
  }

  ghost predicate CentreAsked(n: nat, net: Overlay, shuffled: NodeId -> seq<NodeId>, sla: Sla, path: seq<NodeId>,
                              acc: AccumulatedLatency)
  {
    && IsSpider(n, sla, net) && Asked(net, shuffled, sla, path, acc)
    && AtCentre(path) && |shuffled(Last(path))| == n
  }

  lemma CentreStep(n: nat, net: Overlay, shuffled: NodeId -> seq<NodeId>, sla: Sla, path: seq<NodeId>,
                   acc: AccumulatedLatency, m: nat, count: nat)
    requires CentreAsked(n, net, shuffled, sla, path, acc) && 1 <= m <= n
    requires Collected(net, shuffled, sla, path, acc, m - 1, count)
    ensures Collected(net, shuffled, sla, path, acc, m, count + 2)
  {
    ArmAnswers(n, net, shuffled, sla, path, acc, m);
    assert shuffled(Last(path))[m - 1] == m;
    OneMore(net, shuffled, sla, path, acc, m, 2);
  }

  lemma NoneCollected(net: Overlay, shuffled: NodeId -> seq<NodeId>, sla: Sla, path: seq<NodeId>,
                      acc: AccumulatedLatency)
    requires Askable(net, path) && Shuffles(net.graph, shuffled)
    ensures Collected(net, shuffled, sla, path, acc, 0, 0)
  {
  }

  lemma {:induction false} CentreCollects(n: nat, net: Overlay, shuffled: NodeId -> seq<NodeId>, sla: Sla,
                                          path: seq<NodeId>, acc: AccumulatedLatency, m: nat)
    requires CentreAsked(n, net, shuffled, sla, path, acc) && m <= n
    ensures Collected(net, shuffled, sla, path, acc, m, m + m)
    decreases m
  {
    if m == 0 {
      NoneCollected(net, shuffled, sla, path, acc);
    } else {
      CentreCollects(n, net, shuffled, sla, path, acc, m - 1);
      var count := m - 1 + (m - 1);
      CentreStep(n, net, shuffled, sla, path, acc, m, count);
      assert count + 2 == m + m;
    }
  }

  /** Asked for one proposal more than it has arms, the centre returns two for
      each arm. */
  lemma CentreBids(n: nat, net: Overlay, shuffled: NodeId -> seq<NodeId>, sla: Sla, path: seq<NodeId>,
                   acc: AccumulatedLatency)
    requires IsSpider(n, sla, net) && Asked(net, shuffled, sla, path, acc) && AtCentre(path) && 2 <= n
    ensures BidSome(net, shuffled, sla, path, acc, n + 1).Reply?
    ensures |BidSome(net, shuffled, sla, path, acc, n + 1).bids| == 2 * n
  {
    assert net.graph[0] == Links(n, 0) && |shuffled(Last(path))| == n;
    CentreCollects(n, net, shuffled, sla, path, acc, n);
    WalkFits(net.graph, path);
    assert Share(n + 1, n) == 2;
  }

  // The estimate as the nodes compute it.
  ghost function TcpWorstCase(root: real -> real): (AccumulatedLatency, real) -> Float
    requires IsRoot(root)
  {
    (acc: AccumulatedLatency, size: real) =>
      if acc.Lossless() && 0.0 <= size then TcpLatency(root, acc.Worst(), acc.packetLoss, size) else NaN
  }

  lemma SpiderNet(n: nat, root: real -> real, sla: Sla) returns (net: Overlay)
    requires IsRoot(root)
    ensures IsSpider(n, sla, net) && Measures(net, root)
  {
    net := Overlay(
      Spider(n),
      (acc: AccumulatedLatency, hop: Latency, rate: real) => acc.Accumulate(root, hop, rate),
      TcpWorstCase(root),
      (u: NodeId, v: NodeId) => Some(Hop(sla)),
      (u: NodeId, v: NodeId) => Some(1.0),
      (u: NodeId, v: NodeId) => true,
      (u: NodeId) => if u == 0 then Passes else Bids(u, 0.0));
    forall acc, hop, rate ensures AccumulatesAt(net, root, acc, hop, rate) {
    }
    forall acc, size ensures EstimatesAt(net.worstCase, root, acc, size) {
    }
  }

  lemma SpiderExists(n: nat, root: real -> real, sla: Sla)
    returns (net: Overlay, shuffled: NodeId -> seq<NodeId>, path: seq<NodeId>, acc: AccumulatedLatency)
    requires IsRoot(root) && 0.0 <= sla.inputMaxSize && Allowed(sla)
    ensures IsSpider(n, sla, net) && Measures(net, root)
    ensures First(path, acc) && AtCentre(path) && Asked(net, shuffled, sla, path, acc)
  {
    net := SpiderNet(n, root, sla);
    SpiderIsTree(n);
    SpiderForwards(n, net, root, sla);
    shuffled := (u: NodeId) => if u in Spider(n) then Spider(n)[u] else [];
    path, acc := [0], FRESH;
    assert Walk(net.graph, path);
  }

  // ---- the exact condition ----

  ghost predicate Within(net: Overlay, shuffled: NodeId -> seq<NodeId>, sla: Sla, path: seq<NodeId>,
                         acc: AccumulatedLatency, required: nat) {
    Askable(net, path) && Shuffles(net.graph, shuffled) ==>
      var r := BidSome(net, shuffled, sla, path, acc, required);
      r.Reply? ==> |r.bids| <= required
  }

  // The required number bounds the proposals on every overlay.
  ghost predicate Bounded(root: real -> real, sla: Sla, required: nat) {
    forall net, shuffled, path, acc: AccumulatedLatency ::
      Measures(net, root) && acc.Lossless() ==> Within(net, shuffled, sla, path, acc, required)
  }

  lemma TooMany(root: real -> real, sla: Sla, required: nat)
    requires IsRoot(root) && 0.0 <= sla.inputMaxSize && Allowed(sla) && 2 < required
    ensures !Bounded(root, sla, required)
  {
    var net, shuffled, path, acc := SpiderExists(required - 1, root, sla);
    CentreBids(required - 1, net, shuffled, sla, path, acc);
    assert !Within(net, shuffled, sla, path, acc, required);
  }

  // With data to send and a negative limit nobody is asked.
  lemma NothingForwarded(net: Overlay, root: real -> real, sla: Sla, acc: AccumulatedLatency, u: NodeId, v: NodeId)
    requires Measures(net, root) && 0.0 <= sla.inputMaxSize && !Allowed(sla) && acc.Lossless()
    ensures Onward(net, sla, acc, u, v).None?
  {
    MeasuresGrow(net, root);
    assert GrowsAt(net, acc, u, v);
    if Extended(net, acc, u, v).Some? {
      var next := Extended(net, acc, u, v).value;
      PrunesIff(net, root, sla, next);
      ClosedFormGrows(0.0, next.Worst(), sla.inputMaxSize);
    }
  }

  lemma {:induction false} FirstAreNone(net: Overlay, shuffled: NodeId -> seq<NodeId>, root: real -> real, sla: Sla,
                                        path: seq<NodeId>, acc: AccumulatedLatency, m: nat, share: nat)
    requires Measures(net, root) && 0.0 <= sla.inputMaxSize && !Allowed(sla) && acc.Lossless()
    requires Askable(net, path) && Shuffles(net.graph, shuffled) && m <= |shuffled(Last(path))|
    ensures FollowUpFirst(net, shuffled, sla, path, acc, m, share) == Reply([])
    decreases m
  {
    if m > 0 {
      FirstAreNone(net, shuffled, root, sla, path, acc, m - 1, share);
      WalkFits(net.graph, path);
      ShuffledNeighbor(net.graph, shuffled, Last(path), m - 1);
      NothingForwarded(net, root, sla, acc, Last(path), shuffled(Last(path))[m - 1]);
    }
  }

  lemma AtMostItsOwn(net: Overlay, shuffled: NodeId -> seq<NodeId>, root: real -> real, sla: Sla, path: seq<NodeId>,
                     acc: AccumulatedLatency, required: nat)
    requires Measures(net, root) && 0.0 <= sla.inputMaxSize && !Allowed(sla) && acc.Lossless()
    ensures Within(net, shuffled, sla, path, acc, required)
  {
    if Askable(net, path) && Shuffles(net.graph, shuffled) {
      var n := |shuffled(Last(path))|;
      WalkFits(net.graph, path);
      forall m: nat, share: nat | m <= n ensures FollowUpFirst(net, shuffled, sla, path, acc, m, share) == Reply([]) {
        FirstAreNone(net, shuffled, root, sla, path, acc, m, share);
      }
    }
  }

  /** The required number bounds the proposals on every overlay exactly when it
      is two or less, or when there is data to send and the limit is negative.
      Otherwise a node with one neighbour fewer than the number, each with one
      node behind it, collects too many. */
  lemma BoundHoldsIff(root: real -> real, sla: Sla, required: nat)
    requires IsRoot(root) && 0.0 <= sla.inputMaxSize
    ensures Bounded(root, sla, required) <==> required <= 2 || (0.0 < sla.inputMaxSize && sla.latencyMax < 0.0)
  {
    if required <= 2 {
      forall net, shuffled, path, acc ensures Within(net, shuffled, sla, path, acc, required) {
        if Askable(net, path) && Shuffles(net.graph, shuffled) {
          AtMostRequired(net, shuffled, sla, path, acc, required);
        }
      }
    } else if Allowed(sla) {
      TooMany(root, sla, required);
    } else {
      forall net, shuffled, path, acc: AccumulatedLatency | Measures(net, root) && acc.Lossless()
        ensures Within(net, shuffled, sla, path, acc, required)
      {
        AtMostItsOwn(net, shuffled, root, sla, path, acc, required);
      }
    }
  }
}
