/** The flood over the nodes that have registered. */
module Deployment {
  import opened Model
  import opened LatencyEstimate
  import opened Network
  import opened Flood
  import Budget
  import MarketAuction
  import Registration

  /** After any run of registrations, an SLA handed to a registered node floods a
      tree: the proposals are exactly those of the nodes it reaches, and no node
      is asked about it twice. */
  lemma RegisteredFlood(plan: Registration.Plan, s: Registration.State, net: Overlay, sla: Sla, path: seq<NodeId>,
                        acc: AccumulatedLatency)
    requires Registration.Reachable(plan, s) && Registration.Lists(plan, s, net.graph)
    requires |path| == 1 && path[0] in s.nodes
    ensures Askable(net, path)
    ensures Bid(net, sla, path, acc).Failed? <==> net.local(path[0]).Errs?
    ensures Bid(net, sla, path, acc).Reply? ==>
      && OncePerNode(Bid(net, sla, path, acc).bids)
      && forall b :: b in Bid(net, sla, path, acc).bids <==>
           && net.local(b.nodeId) == Bids(b.id, b.bid)
           && exists q :: Reaches(net, sla, path, acc, q) && Last(q) == b.nodeId
    ensures forall p, q ::
      Reaches(net, sla, path, acc, p) && Reaches(net, sla, path, acc, q) && Last(p) == Last(q) ==> p == q
  {
    Registration.OverlayIsTree(plan, s, net.graph);
    FloodIsExact(net, sla, path, acc);
    forall p, q | Reaches(net, sla, path, acc, p) && Reaches(net, sla, path, acc, q) && Last(p) == Last(q)
      ensures p == q
    {
      AskedOnce(net, sla, path, acc, p, q);
    }
  }

  // A winner and a price, as an auction over these offers may choose them.
  ghost predicate Contract(net: Overlay, sla: Sla, path: seq<NodeId>, acc: AccumulatedLatency,
                           r: MarketAuction.ChosenBid) {
    && Budget.Offered(net, sla, path, acc, r.bid)
    && (forall b :: Budget.Offered(net, sla, path, acc, b) ==> r.bid.bid <= b.bid)
    && exists b :: Budget.Offered(net, sla, path, acc, b) && b.bid == r.price
  }

  /** From the registrations to the contract: the auction over the proposals of
      the flood chooses an offer of the registered overlay, none of the nodes that
      the SLA allows offers less, and the price is what one of them asks. */
  lemma CheapestOfferWins(plan: Registration.Plan, s: Registration.State, net: Overlay, root: real -> real, sla: Sla,
                          path: seq<NodeId>, acc: AccumulatedLatency, bids: seq<BidProposal>,
                          r: MarketAuction.ChosenBid)
    requires Registration.Reachable(plan, s) && Registration.Lists(plan, s, net.graph)
    requires Budget.Measures(net, root) && 0.0 <= sla.inputMaxSize
    requires Budget.First(path, acc) && path[0] in s.nodes && MarketAuction.Chosen(multiset(bids), r)
    ensures Askable(net, path)
    ensures Bid(net, sla, path, acc) == Reply(bids) ==> Contract(net, sla, path, acc, r)
  {
    Registration.OverlayIsTree(plan, s, net.graph);
    if Bid(net, sla, path, acc) == Reply(bids) {
      OfferWins(net, root, sla, path, acc, bids, r);
    }
  }

  lemma OfferWins(net: Overlay, root: real -> real, sla: Sla, path: seq<NodeId>, acc: AccumulatedLatency,
                  bids: seq<BidProposal>, r: MarketAuction.ChosenBid)
    requires Budget.Measures(net, root) && 0.0 <= sla.inputMaxSize
    requires Budget.First(path, acc) && Askable(net, path)
    requires Bid(net, sla, path, acc) == Reply(bids) && MarketAuction.Chosen(multiset(bids), r)
    ensures Contract(net, sla, path, acc, r)
  {
    Budget.FloodMeetsTheSla(net, root, sla, path, acc);
    forall b: BidProposal ensures b in multiset(bids) <==> Budget.Offered(net, sla, path, acc, b) {
      assert b in multiset(bids) <==> b in bids;
    }
    var others := multiset(bids) - multiset{r.bid};
    if others != multiset{} {
      var b :| b in others && b.bid == r.price;
      assert b in multiset(bids);
    }
  }
}
