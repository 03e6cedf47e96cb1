/** The sequential placements as the nodes run them: loops over the neighbours,
    the sorted list of latencies, and one request at a time. */
module EdgePlacement {
  import opened Model
  import opened LatencyEstimate
  import opened Network
  import opened Flood
  import opened EdgeSearch

  method FollowUpInOrder(order: Order, net: Overlay, sla: Sla, path: seq<NodeId>, acc: AccumulatedLatency)
    returns (bids: seq<BidProposal>)
    requires Askable(net, path)
    requires AllCandidates(net, sla, path, acc, SortBy(order, Candidates(net, sla, path, acc, |net.graph[Last(path)]|)))
    ensures bids == Probe(order, net, sla, path, acc,
                          SortBy(order, Candidates(net, sla, path, acc, |net.graph[Last(path)]|)))
    decreases |net.graph| - |path|, 0
  {
    var neighbors := net.graph[Last(path)];
    var latencies: seq<Candidate> := [];
    for i := 0 to |neighbors|
      invariant latencies == Candidates(net, sla, path, acc, i)
    {
      if neighbors[i] != Origin(path) {
        var latency := Onward(net, sla, acc, Last(path), neighbors[i]);
        if latency.Some? {
          latencies := latencies + [Candidate(neighbors[i], latency.value)];
        }
      }
    }
    latencies := SortBy(order, latencies);
    var i := 0;
    while i < |latencies|
      invariant 0 <= i <= |latencies|
      invariant Probe(order, net, sla, path, acc, latencies) == Probe(order, net, sla, path, acc, latencies[i..])
    {
      var neighbor := latencies[i];
      WalkExtends(net.graph, path, neighbor.node);
      if net.answers(Last(path), neighbor.node) {
        var answer := BidOnNewFunctionAndTransmit(order, net, sla, path + [neighbor.node], neighbor.acc);
        if answer.Reply? && answer.bids != [] {
          return answer.bids;
        }
      }
      i := i + 1;
    }
    return [];
  }

  method BidOnNewFunctionAndTransmit(order: Order, net: Overlay, sla: Sla, path: seq<NodeId>, acc: AccumulatedLatency)
    returns (r: Reply)
    requires Askable(net, path)
    ensures r == Search(order, net, sla, path, acc)
    decreases |net.graph| - |path|, 1
  {
    var me := Last(path);
    WalkFits(net.graph, path);
    SortedAreCandidates(order, net, sla, path, acc);
    if order.NearestFirst? && net.local(me).Bids? {
      return Reply([BidProposal(me, net.local(me).id, net.local(me).bid)]);
    }
    var followUp := FollowUpInOrder(order, net, sla, path, acc);
    if followUp != [] {
      // The last proposal of the answer is popped.
      return Reply([followUp[|followUp| - 1]]);
    }
    if order.NearestFirst? {
      return Failed;
    }
    if net.local(me).Bids? {
      return Reply([BidProposal(me, net.local(me).id, net.local(me).bid)]);
    }
    return Reply([]);
  }
}
