/** The variant that keeps the two highest bids at every hop. */
module MaxCpu {
  import opened Model
  import opened LatencyEstimate
  import opened Network
  import opened Flood
  import opened StableSort

  // Without a description of the neighbour the bandwidth stays as it was.
  function Reckoned(net: Overlay, acc: AccumulatedLatency, u: NodeId, v: NodeId): AccumulatedLatency
    requires net.latency(u, v).Some?
  {
    var rate := if net.bandwidth(u, v).Some? then net.bandwidth(u, v).value else acc.bandwidth;
    net.accumulate(acc, net.latency(u, v).value, rate)
  }

  // A neighbour within the budget is always asked; without a description of it
  // the request itself fails.
  function FollowUp(net: Overlay, sla: Sla, path: seq<NodeId>, acc: AccumulatedLatency, n: NodeId): Option<Reply>
    requires Askable(net, path) && n in net.graph[Last(path)]
    decreases |net.graph| - |path|, 0, 0
  {
    var me := Last(path);
    if n == Origin(path) || net.latency(me, n).None? then None
    else
      WalkExtends(net.graph, path, n);
      var next := Reckoned(net, acc, me, n);
      if Prunes(net, sla, next) then None
      else if net.bandwidth(me, n).None? || !net.answers(me, n) then Some(Failed)
      else Some(BidTopTwo(net, sla, path + [n], next))
  }

  // One failing neighbour fails them all.
  function FollowUpAll(net: Overlay, sla: Sla, path: seq<NodeId>, acc: AccumulatedLatency, k: nat): Reply
    requires Askable(net, path) && k <= |net.graph[Last(path)]|
    decreases |net.graph| - |path|, 0, k
  {
    if k == 0 then Reply([])
    else
      WalkFits(net.graph, path);
      match FollowUpAll(net, sla, path, acc, k - 1)
      case Failed => Failed
      case Reply(before) =>
        match FollowUp(net, sla, path, acc, net.graph[Last(path)][k - 1])
        case None => Reply(before)
        case Some(Failed) => Failed
        case Some(Reply(bids)) => Reply(before + bids)
  }

  function BidTopTwo(net: Overlay, sla: Sla, path: seq<NodeId>, acc: AccumulatedLatency): Reply
    requires Askable(net, path)
    decreases |net.graph| - |path|, 1, 0
  {
    var me := Last(path);
    WalkFits(net.graph, path);
    match FollowUpAll(net, sla, path, acc, |net.graph[me]|)
    case Failed => Failed
    case Reply(bids) =>
      match net.local(me)
      case Errs => Failed
      case Passes => Reply(Top(2, bids))
      case Bids(id, bid) => Reply(Top(2, bids + [BidProposal(me, id, bid)]))
  }

  lemma JoinKeepsTop(kept: seq<BidProposal>, all: seq<BidProposal>, more: seq<BidProposal>)
    requires Top(2, kept) == Top(2, all)
    ensures Top(2, kept + Top(2, more)) == Top(2, all + more)
  {
    TopTop(2, more);
    TopConcat(2, kept, Top(2, more));
    TopConcat(2, all, more);
  }

  // A neighbour's answer here is the top of its answer to the flood.
  lemma {:induction false} FollowUpKeepsTop(net: Overlay, sla: Sla, path: seq<NodeId>, acc: AccumulatedLatency,
                                            n: NodeId)
    requires Askable(net, path) && n in net.graph[Last(path)]
    requires var r := FollowUp(net, sla, path, acc, n); r.Some? ==> r.value.Reply?
    ensures var r := FollowUp(net, sla, path, acc, n);
      var f := FollowUpToSingleNeighbor(net, sla, path, acc, n);
      && (r.None? ==> f.None?)
      && (r.Some? ==> f.Some? && f.value.Reply? && r.value.bids == Top(2, f.value.bids))
    decreases |net.graph| - |path|, 0, 0, 0
  {
    if FollowUp(net, sla, path, acc, n).Some? {
      WalkExtends(net.graph, path, n);
      TopTwoEverywhere(net, sla, path + [n], Onward(net, sla, acc, Last(path), n).value);
    }
  }

  // What the k-th neighbour adds to the flood.
  function Added(net: Overlay, sla: Sla, path: seq<NodeId>, acc: AccumulatedLatency, k: nat): seq<BidProposal>
    requires Askable(net, path) && 0 < k <= |net.graph[Last(path)]|
  {
    match FollowUpToSingleNeighbor(net, sla, path, acc, net.graph[Last(path)][k - 1])
    case Some(Reply(bids)) => bids
    case _ => []
  }

  lemma {:induction false} FollowUpAllStep(net: Overlay, sla: Sla, path: seq<NodeId>, acc: AccumulatedLatency, k: nat)
    requires Askable(net, path) && 0 < k <= |net.graph[Last(path)]|
    requires FollowUpAll(net, sla, path, acc, k).Reply?
    ensures FollowUpAll(net, sla, path, acc, k - 1).Reply?
    ensures FollowUpAll(net, sla, path, acc, k).bids ==
            FollowUpAll(net, sla, path, acc, k - 1).bids + Top(2, Added(net, sla, path, acc, k))
    ensures FollowUpToNeighbors(net, sla, path, acc, k) ==
            FollowUpToNeighbors(net, sla, path, acc, k - 1) + Added(net, sla, path, acc, k)
    decreases |net.graph| - |path|, 0, k - 1, 1
  {
    WalkFits(net.graph, path);
    FollowUpKeepsTop(net, sla, path, acc, net.graph[Last(path)][k - 1]);
    assert Top(2, []) == [];
  }

  lemma {:induction false} FollowUpAllKeepsTop(net: Overlay, sla: Sla, path: seq<NodeId>, acc: AccumulatedLatency,
                                               k: nat)
    requires Askable(net, path) && k <= |net.graph[Last(path)]|
    requires FollowUpAll(net, sla, path, acc, k).Reply?
    ensures Top(2, FollowUpAll(net, sla, path, acc, k).bids) == Top(2, FollowUpToNeighbors(net, sla, path, acc, k))
    decreases |net.graph| - |path|, 0, k, 0
  {
    if k > 0 {
      FollowUpAllStep(net, sla, path, acc, k);
      FollowUpAllKeepsTop(net, sla, path, acc, k - 1);
      JoinKeepsTop(FollowUpAll(net, sla, path, acc, k - 1).bids,
                   FollowUpToNeighbors(net, sla, path, acc, k - 1), Added(net, sla, path, acc, k));
    }
  }

  /** Truncating at every hop returns the same two proposals, ties included, as
      truncating the whole flood once. */
  lemma {:induction false} TopTwoEverywhere(net: Overlay, sla: Sla, path: seq<NodeId>, acc: AccumulatedLatency)
    requires Askable(net, path) && BidTopTwo(net, sla, path, acc).Reply?
    ensures Bid(net, sla, path, acc).Reply?
    ensures BidTopTwo(net, sla, path, acc).bids == Top(2, Bid(net, sla, path, acc).bids)
    decreases |net.graph| - |path|, 1, 0
  {
    WalkFits(net.graph, path);
    var me := Last(path);
    var k := |net.graph[me]|;
    FollowUpAllKeepsTop(net, sla, path, acc, k);
    if net.local(me).Bids? {
      var own := [BidProposal(me, net.local(me).id, net.local(me).bid)];
      TopConcat(2, FollowUpAll(net, sla, path, acc, k).bids, own);
      TopConcat(2, FollowUpToNeighbors(net, sla, path, acc, k), own);
    }
  }

  /** What it returns are the first two of the whole flood, highest bid first and
      equal bids in the order of the flood. */
  lemma FirstTwoOfTheFlood(net: Overlay, sla: Sla, path: seq<NodeId>, acc: AccumulatedLatency)
    requires Askable(net, path) && BidTopTwo(net, sla, path, acc).Reply?
    ensures Bid(net, sla, path, acc).Reply?
    ensures AreFirst(2, Bid(net, sla, path, acc).bids, BidTopTwo(net, sla, path, acc).bids)
  {
    TopTwoEverywhere(net, sla, path, acc);
    TopAreFirst(2, Bid(net, sla, path, acc).bids);
  }

  // ---- when there is a reply ----

  // The neighbour is within the budget and cannot be asked, or does not answer.
  ghost predicate Unanswered(net: Overlay, sla: Sla, path: seq<NodeId>, acc: AccumulatedLatency, n: NodeId)
    requires Askable(net, path)
  {
    var me := Last(path);
    && n in net.graph[me] && n != Origin(path) && net.latency(me, n).Some?
    && !Prunes(net, sla, Reckoned(net, acc, me, n))
    && (net.bandwidth(me, n).None? || !net.answers(me, n))
  }

  // The request goes on from the end of `path` along `q`, and fails at its end.
  ghost predicate FailsAlong(net: Overlay, sla: Sla, path: seq<NodeId>, acc: AccumulatedLatency, q: seq<NodeId>)
    requires Askable(net, path)
    decreases |q| - |path|
  {
    && path <= q
    && if path == q then net.local(Last(path)).Errs? || exists n :: Unanswered(net, sla, path, acc, n)
       else
         var n := q[|path|];
         && n in net.graph[Last(path)] && n != Origin(path)
         && var next := Onward(net, sla, acc, Last(path), n);
            && next.Some? && net.answers(Last(path), n)
            && Askable(net, path + [n]) && FailsAlong(net, sla, path + [n], next.value, q)
  }

  lemma {:induction false} FollowUpAllIff(net: Overlay, sla: Sla, path: seq<NodeId>, acc: AccumulatedLatency, k: nat)
    requires Askable(net, path) && k <= |net.graph[Last(path)]|
    ensures FollowUpAll(net, sla, path, acc, k).Failed? <==>
            exists j :: 0 <= j < k && FollowUp(net, sla, path, acc, net.graph[Last(path)][j]) == Some(Failed)
    decreases k
  {
    if k > 0 {
      WalkFits(net.graph, path);
      FollowUpAllIff(net, sla, path, acc, k - 1);
    }
  }

  // What makes one neighbour fail the node.
  lemma FollowUpFails(net: Overlay, sla: Sla, path: seq<NodeId>, acc: AccumulatedLatency, n: NodeId)
    requires Askable(net, path) && n in net.graph[Last(path)]
    ensures FollowUp(net, sla, path, acc, n) == Some(Failed) <==>
      || Unanswered(net, sla, path, acc, n)
      || (n != Origin(path) && Onward(net, sla, acc, Last(path), n).Some? && net.answers(Last(path), n)
          && Askable(net, path + [n])
          && BidTopTwo(net, sla, path + [n], Onward(net, sla, acc, Last(path), n).value).Failed?)
  {
    if n != Origin(path) {
      WalkExtends(net.graph, path, n);
    }
  }

  lemma BidFails(net: Overlay, sla: Sla, path: seq<NodeId>, acc: AccumulatedLatency, n: NodeId)
    requires Askable(net, path) && n in net.graph[Last(path)]
    requires FollowUp(net, sla, path, acc, n) == Some(Failed)
    ensures BidTopTwo(net, sla, path, acc).Failed?
  {
    var all := net.graph[Last(path)];
    WalkFits(net.graph, path);
    FollowUpAllIff(net, sla, path, acc, |all|);
    var j :| 0 <= j < |all| && all[j] == n;
  }

  lemma {:induction false} FailureSpreads(net: Overlay, sla: Sla, path: seq<NodeId>, acc: AccumulatedLatency,
                                          q: seq<NodeId>)
    requires Askable(net, path) && FailsAlong(net, sla, path, acc, q)
    ensures BidTopTwo(net, sla, path, acc).Failed?
    decreases |q| - |path|
  {
    WalkFits(net.graph, path);
    if path != q {
      var n := q[|path|];
      FailureSpreads(net, sla, path + [n], Onward(net, sla, acc, Last(path), n).value, q);
      FollowUpFails(net, sla, path, acc, n);
      BidFails(net, sla, path, acc, n);
    } else if !net.local(Last(path)).Errs? {
      var n :| Unanswered(net, sla, path, acc, n);
      FollowUpFails(net, sla, path, acc, n);
      BidFails(net, sla, path, acc, n);
    }
  }

  lemma {:induction false} FailureHasWay(net: Overlay, sla: Sla, path: seq<NodeId>, acc: AccumulatedLatency)
    returns (q: seq<NodeId>)
    requires Askable(net, path) && BidTopTwo(net, sla, path, acc).Failed?
    ensures FailsAlong(net, sla, path, acc, q)
    decreases |net.graph| - |path|
  {
    var all := net.graph[Last(path)];
    WalkFits(net.graph, path);
    FollowUpAllIff(net, sla, path, acc, |all|);
    if net.local(Last(path)).Errs? {
      q := path;
    } else {
      var j :| 0 <= j < |all| && FollowUp(net, sla, path, acc, all[j]) == Some(Failed);
      var n := all[j];
      FollowUpFails(net, sla, path, acc, n);
      if Unanswered(net, sla, path, acc, n) {
        q := path;
      } else {
        WalkFits(net.graph, path + [n]);
        q := FailureHasWay(net, sla, path + [n], Onward(net, sla, acc, Last(path), n).value);
        assert q[|path|] == n;
      }
    }
  }

  /** The variant replies exactly when no way that it follows ends at a node that
      errs or at one with a neighbour within the budget that it cannot describe or
      that does not answer. */
  lemma RepliesIff(net: Overlay, sla: Sla, path: seq<NodeId>, acc: AccumulatedLatency)
    requires Askable(net, path)
    ensures BidTopTwo(net, sla, path, acc).Reply? <==> forall q :: !FailsAlong(net, sla, path, acc, q)
  {
    if BidTopTwo(net, sla, path, acc).Failed? {
      var q := FailureHasWay(net, sla, path, acc);
      assert FailsAlong(net, sla, path, acc, q);
    } else {
      forall q ensures !FailsAlong(net, sla, path, acc, q) {
        if FailsAlong(net, sla, path, acc, q) {
          FailureSpreads(net, sla, path, acc, q);
        }
      }
    }
  }

  // No node errs, every neighbour is described and every request answered.
  ghost predicate Healthy(net: Overlay) {
    && (forall u :: !net.local(u).Errs?)
    && (forall u, v :: net.bandwidth(u, v).Some? && net.answers(u, v))
  }

  lemma {:induction false} HealthyFailsNowhere(net: Overlay, sla: Sla, path: seq<NodeId>, acc: AccumulatedLatency,
                                               q: seq<NodeId>)
    requires Askable(net, path) && Healthy(net)
    ensures !FailsAlong(net, sla, path, acc, q)
    decreases |q| - |path|
  {
    if path <= q && path != q && FailsAlong(net, sla, path, acc, q) {
      var n := q[|path|];
      HealthyFailsNowhere(net, sla, path + [n], Onward(net, sla, acc, Last(path), n).value, q);
    }
  }

  /** On a healthy overlay the variant always replies. */
  lemma HealthyReplies(net: Overlay, sla: Sla, path: seq<NodeId>, acc: AccumulatedLatency)
    requires Askable(net, path) && Healthy(net)
    ensures BidTopTwo(net, sla, path, acc).Reply?
  {
    RepliesIff(net, sla, path, acc);
    forall q ensures !FailsAlong(net, sla, path, acc, q) {
      HealthyFailsNowhere(net, sla, path, acc, q);
    }
  }
}
