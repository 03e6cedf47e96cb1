/** How an SLA floods the overlay: every node bids, forwards the request to all
    its neighbours but the sender, and gathers their proposals. */
module Flood {
  import opened Model
  import opened LatencyEstimate
  import opened Network

  // What a node's own auction answers when asked for a bid.
  datatype Local = Errs | Passes | Bids(id: nat, bid: real)

  // The overlay as its nodes know it: how a hop is added to the accumulated
  // latency, the worst case of a transfer of some size, the measured latency to
  // a neighbour, the neighbour's advertised bandwidth, whether a request to it
  // gets an answer. Nothing here depends on what the first two compute.
  datatype Overlay = Overlay(
    graph: Graph,
    accumulate: (AccumulatedLatency, Latency, real) -> AccumulatedLatency,
    worstCase: (AccumulatedLatency, real) -> Float,
    latency: (NodeId, NodeId) -> Option<Latency>,
    bandwidth: (NodeId, NodeId) -> Option<real>,
    answers: (NodeId, NodeId) -> bool,
    local: NodeId -> Local)

  datatype Reply = Failed | Reply(bids: seq<BidProposal>)

  ghost predicate Askable(net: Overlay, path: seq<NodeId>) {
    Tree(net.graph) && Walk(net.graph, path)
  }

  // The worst case exceeds what the SLA tolerates.
  predicate Prunes(net: Overlay, sla: Sla, acc: AccumulatedLatency) {
    Finite(sla.latencyMax).LessThan(net.worstCase(acc, sla.inputMaxSize))
  }

  // The latency accumulated after the hop from u to v, if there is data about it.
  function Extended(net: Overlay, acc: AccumulatedLatency, u: NodeId, v: NodeId): Option<AccumulatedLatency> {
    if net.latency(u, v).None? || net.bandwidth(u, v).None? then None
    else Some(net.accumulate(acc, net.latency(u, v).value, net.bandwidth(u, v).value))
  }

  // The accumulated latency with which a request goes from u to v, if it goes.
  function Onward(net: Overlay, sla: Sla, acc: AccumulatedLatency, u: NodeId, v: NodeId): Option<AccumulatedLatency> {
    match Extended(net, acc, u, v)
    case None => None
    case Some(next) => if Prunes(net, sla, next) then None else Some(next)
  }

  // The request stands at the end of `path`.
  function Bid(net: Overlay, sla: Sla, path: seq<NodeId>, acc: AccumulatedLatency): Reply
    requires Askable(net, path)
    decreases |net.graph| - |path|, 1, 0
  {
    var me := Last(path);
    WalkFits(net.graph, path);
    var bids := FollowUpToNeighbors(net, sla, path, acc, |net.graph[me]|);
    match net.local(me)
    case Errs => Failed
    case Passes => Reply(bids)
    case Bids(id, bid) => Reply(bids + [BidProposal(me, id, bid)])
  }

  // The proposals gathered from the first k neighbours; failures are dropped.
  function FollowUpToNeighbors(net: Overlay, sla: Sla, path: seq<NodeId>, acc: AccumulatedLatency,
                               k: nat): seq<BidProposal>
    requires Askable(net, path) && k <= |net.graph[Last(path)]|
    decreases |net.graph| - |path|, 0, k
  {
    if k == 0 then []
    else
      WalkFits(net.graph, path);
      FollowUpToNeighbors(net, sla, path, acc, k - 1) +
      match FollowUpToSingleNeighbor(net, sla, path, acc, net.graph[Last(path)][k - 1])
      case Some(Reply(bids)) => bids
      case _ => []
  }

  function FollowUpToSingleNeighbor(net: Overlay, sla: Sla, path: seq<NodeId>, acc: AccumulatedLatency,
                                    n: NodeId): Option<Reply>
    requires Askable(net, path) && n in net.graph[Last(path)]
    decreases |net.graph| - |path|, 0, 0
  {
    if n == Origin(path) then None
    else
      WalkExtends(net.graph, path, n);
      match Onward(net, sla, acc, Last(path), n)
      case None => None
      case Some(next) =>
        if net.answers(Last(path), n) then Some(Bid(net, sla, path + [n], next)) else Some(Failed)
  }

  // ---- what the flood finds ----

  // The request travels from the end of `path` along `q`: no node on the way
  // errs, every hop has data, is within the budget and is answered.
  ghost predicate Travels(net: Overlay, sla: Sla, path: seq<NodeId>, acc: AccumulatedLatency, q: seq<NodeId>)
    requires path != []
    decreases |q| - |path|
  {
    && path <= q
    && !net.local(Last(path)).Errs?
    && (|path| < |q| ==>
          var n := q[|path|];
          var next := Onward(net, sla, acc, Last(path), n);
          && next.Some?
          && net.answers(Last(path), n)
          && Travels(net, sla, path + [n], next.value, q))
  }

  // The proposal b is the offer of the node at the end of q.
  ghost predicate Offer(net: Overlay, sla: Sla, path: seq<NodeId>, acc: AccumulatedLatency, q: seq<NodeId>,
                        b: BidProposal)
    requires Askable(net, path)
  {
    && Walk(net.graph, q)
    && Travels(net, sla, path, acc, q)
    && Last(q) == b.nodeId
    && net.local(b.nodeId) == Bids(b.id, b.bid)
  }

  // Every proposal is an offer along a walk that goes on through one of the
  // first k neighbours.
  lemma {:induction false} FollowUpsAreOffers(net: Overlay, sla: Sla, path: seq<NodeId>, acc: AccumulatedLatency,
                                              k: nat, b: BidProposal)
    returns (q: seq<NodeId>, j: nat)
    requires Askable(net, path) && k <= |net.graph[Last(path)]| && !net.local(Last(path)).Errs?
    requires b in FollowUpToNeighbors(net, sla, path, acc, k)
    ensures Offer(net, sla, path, acc, q, b)
    ensures j < k && |path| < |q| && q[|path|] == net.graph[Last(path)][j]
    decreases |net.graph| - |path|, 0, k
  {
    WalkFits(net.graph, path);
    if b in FollowUpToNeighbors(net, sla, path, acc, k - 1) {
      q, j := FollowUpsAreOffers(net, sla, path, acc, k - 1, b);
    } else {
      j := k - 1;
      q := FollowUpIsOffer(net, sla, path, acc, net.graph[Last(path)][j], b);
    }
  }

  lemma {:induction false} FollowUpIsOffer(net: Overlay, sla: Sla, path: seq<NodeId>, acc: AccumulatedLatency,
                                           n: NodeId, b: BidProposal)
    returns (q: seq<NodeId>)
    requires Askable(net, path) && n in net.graph[Last(path)] && !net.local(Last(path)).Errs?
    requires var r := FollowUpToSingleNeighbor(net, sla, path, acc, n);
      r.Some? && r.value.Reply? && b in r.value.bids
    ensures Offer(net, sla, path, acc, q, b)
    ensures |path| < |q| && q[|path|] == n
    decreases |net.graph| - |path|, 0, 0
  {
    WalkExtends(net.graph, path, n);
    var next := Onward(net, sla, acc, Last(path), n).value;
    q := BidsAreOffers(net, sla, path + [n], next, b);
    assert path + [n] <= q;
  }

  lemma {:induction false} BidsAreOffers(net: Overlay, sla: Sla, path: seq<NodeId>, acc: AccumulatedLatency,
                                         b: BidProposal)
    returns (q: seq<NodeId>)
    requires Askable(net, path)
    requires var r := Bid(net, sla, path, acc); r.Reply? && b in r.bids
    ensures Offer(net, sla, path, acc, q, b)
    decreases |net.graph| - |path|, 1, 0
  {
    WalkFits(net.graph, path);
    var me := Last(path);
    var k := |net.graph[me]|;
    if b in FollowUpToNeighbors(net, sla, path, acc, k) {
      var j;
      q, j := FollowUpsAreOffers(net, sla, path, acc, k, b);
    } else {
      q := path;
    }
  }

  lemma {:induction false} FollowUpsContain(net: Overlay, sla: Sla, path: seq<NodeId>, acc: AccumulatedLatency,
                                            k: nat, j: nat, b: BidProposal)
    requires Askable(net, path) && j < k <= |net.graph[Last(path)]|
    requires var r := FollowUpToSingleNeighbor(net, sla, path, acc, net.graph[Last(path)][j]);
      r.Some? && r.value.Reply? && b in r.value.bids
    ensures b in FollowUpToNeighbors(net, sla, path, acc, k)
    decreases k
  {
    if j < k - 1 {
      FollowUpsContain(net, sla, path, acc, k - 1, j, b);
    }
  }

  // Every offer is found.
  lemma {:induction false} OffersAreFound(net: Overlay, sla: Sla, path: seq<NodeId>, acc: AccumulatedLatency,
                                          q: seq<NodeId>, b: BidProposal)
    requires Askable(net, path) && Offer(net, sla, path, acc, q, b)
    ensures Bid(net, sla, path, acc).Reply? && b in Bid(net, sla, path, acc).bids
    decreases |q| - |path|
  {
    var me := Last(path);
    if |path| == |q| {
      assert path == q;
    } else {
      var n := q[|path|];
      assert q[..|path|] == path;
      WalkForwards(net.graph, q, |path|);
      WalkExtends(net.graph, path, n);
      var next := Onward(net, sla, acc, me, n).value;
      OffersAreFound(net, sla, path + [n], next, q, b);
      var j :| 0 <= j < |net.graph[me]| && net.graph[me][j] == n;
      FollowUpsContain(net, sla, path, acc, |net.graph[me]|, j, b);
    }
  }

  ghost predicate OncePerNode(bids: seq<BidProposal>) {
    forall i, j :: 0 <= i < j < |bids| ==> bids[i].nodeId != bids[j].nodeId
  }

  lemma OnceConcat(a: seq<BidProposal>, b: seq<BidProposal>)
    requires OncePerNode(a) && OncePerNode(b)
    requires forall x, y :: x in a && y in b ==> x.nodeId != y.nodeId
    ensures OncePerNode(a + b)
  {
    var s := a + b;
    forall i, j | 0 <= i < j < |s| ensures s[i].nodeId != s[j].nodeId {
      if i < |a| <= j {
        assert s[i] in a && s[j] in b;
      }
    }
  }

  lemma {:induction false} FollowUpsOnce(net: Overlay, sla: Sla, path: seq<NodeId>, acc: AccumulatedLatency, k: nat)
    requires Askable(net, path) && k <= |net.graph[Last(path)]| && !net.local(Last(path)).Errs?
    ensures OncePerNode(FollowUpToNeighbors(net, sla, path, acc, k))
    decreases |net.graph| - |path|, 0, k
  {
    if k > 0 {
      WalkFits(net.graph, path);
      FollowUpsOnce(net, sla, path, acc, k - 1);
      var n := net.graph[Last(path)][k - 1];
      var r := FollowUpToSingleNeighbor(net, sla, path, acc, n);
      if r.Some? && r.value.Reply? {
        WalkExtends(net.graph, path, n);
        BidOnce(net, sla, path + [n], Onward(net, sla, acc, Last(path), n).value);
        var before := FollowUpToNeighbors(net, sla, path, acc, k - 1);
        assert LinksBack(net.graph, Last(path));
        forall x, y | x in before && y in r.value.bids ensures x.nodeId != y.nodeId {
          var p, j := FollowUpsAreOffers(net, sla, path, acc, k - 1, x);
          var q := FollowUpIsOffer(net, sla, path, acc, n, y);
          if x.nodeId == y.nodeId {
            UniqueWalk(net.graph, p, q);
          }
        }
        OnceConcat(before, r.value.bids);
      }
    }
  }

  lemma {:induction false} BidOnce(net: Overlay, sla: Sla, path: seq<NodeId>, acc: AccumulatedLatency)
    requires Askable(net, path)
    ensures Bid(net, sla, path, acc).Reply? ==> OncePerNode(Bid(net, sla, path, acc).bids)
    decreases |net.graph| - |path|, 1, 0
  {
    WalkFits(net.graph, path);
    var me := Last(path);
    if !net.local(me).Errs? {
      var k := |net.graph[me]|;
      FollowUpsOnce(net, sla, path, acc, k);
      var follow := FollowUpToNeighbors(net, sla, path, acc, k);
      if net.local(me).Bids? {
        var own := BidProposal(me, net.local(me).id, net.local(me).bid);
        forall x, y | x in follow && y in [own] ensures x.nodeId != y.nodeId {
          var q, j := FollowUpsAreOffers(net, sla, path, acc, k, x);
          if x.nodeId == me {
            UniqueWalk(net.graph, path, q);
          }
        }
        OnceConcat(follow, [own]);
      }
    }
  }

  // The request at the end of `path` reaches the node at the end of q.
  ghost predicate Reaches(net: Overlay, sla: Sla, path: seq<NodeId>, acc: AccumulatedLatency, q: seq<NodeId>)
    requires path != []
  {
    Walk(net.graph, q) && Travels(net, sla, path, acc, q)
  }

  lemma OffersAreReached(net: Overlay, sla: Sla, path: seq<NodeId>, acc: AccumulatedLatency, b: BidProposal)
    requires Askable(net, path) && Bid(net, sla, path, acc).Reply?
    ensures b in Bid(net, sla, path, acc).bids <==>
      && net.local(b.nodeId) == Bids(b.id, b.bid)
      && exists q :: Reaches(net, sla, path, acc, q) && Last(q) == b.nodeId
  {
    if b in Bid(net, sla, path, acc).bids {
      var q := BidsAreOffers(net, sla, path, acc, b);
      assert Reaches(net, sla, path, acc, q);
    } else if q :| Reaches(net, sla, path, acc, q) && Last(q) == b.nodeId && net.local(b.nodeId) == Bids(b.id, b.bid) {
      OffersAreFound(net, sla, path, acc, q, b);
    }
  }

  /** Wherever the request stands, the flood from there returns exactly one
      proposal for each node that bids and is reached, and nothing else; it fails
      only if the node it stands at errs. */
  lemma FloodIsExact(net: Overlay, sla: Sla, path: seq<NodeId>, acc: AccumulatedLatency)
    requires Askable(net, path)
    ensures var r := Bid(net, sla, path, acc);
      && (r.Failed? <==> net.local(Last(path)).Errs?)
      && (r.Reply? ==>
            && OncePerNode(r.bids)
            && forall b :: b in r.bids <==>
                 && net.local(b.nodeId) == Bids(b.id, b.bid)
                 && exists q :: Reaches(net, sla, path, acc, q) && Last(q) == b.nodeId)
  {
    var r := Bid(net, sla, path, acc);
    BidOnce(net, sla, path, acc);
    if r.Reply? {
      forall b: BidProposal
        ensures b in r.bids <==>
          && net.local(b.nodeId) == Bids(b.id, b.bid)
          && exists q :: Reaches(net, sla, path, acc, q) && Last(q) == b.nodeId
      {
        OffersAreReached(net, sla, path, acc, b);
      }
    }
  }

  /** No node is asked twice about the same SLA: at most one way leads to it. */
  lemma AskedOnce(net: Overlay, sla: Sla, path: seq<NodeId>, acc: AccumulatedLatency, p: seq<NodeId>, q: seq<NodeId>)
    requires Askable(net, path)
    requires Reaches(net, sla, path, acc, p) && Reaches(net, sla, path, acc, q) && Last(p) == Last(q)
    ensures p == q
  {
    assert path <= p && path <= q;
    UniqueWalk(net.graph, p, q);
  }
}
