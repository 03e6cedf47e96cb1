/** The variant that asks random neighbours for a required number of proposals,
    splitting what is left of the number among them at every hop. */
module MinCpuRandom {
  import opened Model
  import opened LatencyEstimate
  import opened Network
  import opened Flood
  import opened EdgeSearch

  // Each node's neighbours in the order its shuffle gave.
  ghost predicate Shuffles(g: Graph, shuffled: NodeId -> seq<NodeId>) {
    forall u :: u in g ==> multiset(shuffled(u)) == multiset(g[u])
  }

  lemma ShuffledNeighbor(g: Graph, shuffled: NodeId -> seq<NodeId>, u: NodeId, i: nat)
    requires Shuffles(g, shuffled) && u in g && i < |shuffled(u)|
    ensures shuffled(u)[i] in g[u]
  {
    assert shuffled(u)[i] in multiset(shuffled(u));
  }

  // How many proposals each of n neighbours is asked for, k being still needed:
  // one if the neighbours are enough, else k by n rounded up.
  function Share(k: nat, n: nat): (r: nat)
    requires 0 < n
    ensures 0 < r
    ensures k <= 2 * n ==> r <= 2
    decreases k
  {
    if k <= n then 1 else 1 + Share(k - n, n)
  }

  lemma {:induction false} ShareRoundsUp(k: nat, n: nat)
    requires 0 < n && 0 < k
    ensures (Share(k, n) - 1) * n < k <= Share(k, n) * n
    decreases k
  {
    if k > n {
      ShareRoundsUp(k - n, n);
      assert Share(k, n) * n == Share(k - n, n) * n + n;
      assert (Share(k, n) - 1) * n == (Share(k - n, n) - 1) * n + n;
    }
  }

  function FollowUp(net: Overlay, shuffled: NodeId -> seq<NodeId>, sla: Sla, path: seq<NodeId>,
                    acc: AccumulatedLatency, n: NodeId, share: nat): Option<Reply>
    requires Askable(net, path) && Shuffles(net.graph, shuffled) && n in net.graph[Last(path)]
    decreases |net.graph| - |path|, 0, 0
  {
    if n == Origin(path) then None
    else
      WalkExtends(net.graph, path, n);
      match Onward(net, sla, acc, Last(path), n)
      case None => None
      case Some(next) =>
        if net.answers(Last(path), n) then Some(BidSome(net, shuffled, sla, path + [n], next, share)) else Some(Failed)
  }

  // One failing neighbour fails them all.
  function FollowUpFirst(net: Overlay, shuffled: NodeId -> seq<NodeId>, sla: Sla, path: seq<NodeId>,
                         acc: AccumulatedLatency, m: nat, share: nat): Reply
    requires Askable(net, path) && Shuffles(net.graph, shuffled) && m <= |shuffled(Last(path))|
    decreases |net.graph| - |path|, 0, m
  {
    if m == 0 then Reply([])
    else
      WalkFits(net.graph, path);
      ShuffledNeighbor(net.graph, shuffled, Last(path), m - 1);
      match FollowUpFirst(net, shuffled, sla, path, acc, m - 1, share)
      case Failed => Failed
      case Reply(before) =>
        match FollowUp(net, shuffled, sla, path, acc, shuffled(Last(path))[m - 1], share)
        case None => Reply(before)
        case Some(Failed) => Failed
        case Some(Reply(bids)) => Reply(before + bids)
  }

  function BidSome(net: Overlay, shuffled: NodeId -> seq<NodeId>, sla: Sla, path: seq<NodeId>,
                   acc: AccumulatedLatency, required: nat): Reply
    requires Askable(net, path) && Shuffles(net.graph, shuffled)
    decreases |net.graph| - |path|, 1, 0
  {
    if required == 0 then Reply([])
    else
      var me := Last(path);
      var n := |shuffled(me)|;
      var left := if Own(net, me).Some? then required - 1 else required;
      WalkFits(net.graph, path);
      // With no neighbour at all the share divides by zero and is never used.
      var share := if n == 0 then 0 else Share(left, n);
      match FollowUpFirst(net, shuffled, sla, path, acc, if left <= n then left else n, share)
      case Failed => Failed
      case Reply(bids) => Reply(if Own(net, me).Some? then bids + [Own(net, me).value] else bids)
  }

  // The most that m neighbours return, each held to its share.
  function AtMost(m: nat, share: nat): nat {
    if m == 0 then 0 else AtMost(m - 1, share) + share
  }

  lemma SharesFit(left: nat, n: nat)
    requires 0 < n && left <= 2
    ensures AtMost(if left <= n then left else n, Share(left, n)) <= left
  {
    assert AtMost(1, Share(left, n)) == Share(left, n) && AtMost(2, 1) == 2;
  }

  lemma {:induction false} FirstBounded(net: Overlay, shuffled: NodeId -> seq<NodeId>, sla: Sla, path: seq<NodeId>,
                                        acc: AccumulatedLatency, m: nat, share: nat)
    requires Askable(net, path) && Shuffles(net.graph, shuffled) && m <= |shuffled(Last(path))|
    requires share <= 2 && FollowUpFirst(net, shuffled, sla, path, acc, m, share).Reply?
    ensures |FollowUpFirst(net, shuffled, sla, path, acc, m, share).bids| <= AtMost(m, share)
    decreases |net.graph| - |path|, 0, m
  {
    if m > 0 {
      WalkFits(net.graph, path);
      var n := shuffled(Last(path))[m - 1];
      ShuffledNeighbor(net.graph, shuffled, Last(path), m - 1);
      FirstBounded(net, shuffled, sla, path, acc, m - 1, share);
      if FollowUp(net, shuffled, sla, path, acc, n, share).Some? {
        WalkExtends(net.graph, path, n);
        AtMostRequired(net, shuffled, sla, path + [n], Onward(net, sla, acc, Last(path), n).value, share);
      }
    }
  }

  /** Asked for two proposals, as the market asks, or for fewer, the nodes
      return no more, whatever the shuffles and the tree. */
  lemma {:induction false} AtMostRequired(net: Overlay, shuffled: NodeId -> seq<NodeId>, sla: Sla, path: seq<NodeId>,
                                          acc: AccumulatedLatency, required: nat)
    requires Askable(net, path) && Shuffles(net.graph, shuffled) && required <= 2
    ensures BidSome(net, shuffled, sla, path, acc, required).Reply? ==>
              |BidSome(net, shuffled, sla, path, acc, required).bids| <= required
    decreases |net.graph| - |path|, 1, 0
  {
    if required > 0 && BidSome(net, shuffled, sla, path, acc, required).Reply? {
      var n := |shuffled(Last(path))|;
      var left := if Own(net, Last(path)).Some? then required - 1 else required;
      WalkFits(net.graph, path);
      if n > 0 {
        SharesFit(left, n);
        FirstBounded(net, shuffled, sla, path, acc, if left <= n then left else n, Share(left, n));
      }
    }
  }

  // Where a proposal of the first m neighbours comes from.
  lemma {:induction false} FirstFrom(net: Overlay, shuffled: NodeId -> seq<NodeId>, sla: Sla, path: seq<NodeId>,
                                     acc: AccumulatedLatency, m: nat, share: nat, b: BidProposal)
    returns (i: nat)
    requires Askable(net, path) && Shuffles(net.graph, shuffled) && m <= |shuffled(Last(path))|
    requires var r := FollowUpFirst(net, shuffled, sla, path, acc, m, share); r.Reply? && b in r.bids
    ensures i < m && shuffled(Last(path))[i] in net.graph[Last(path)]
    ensures var r := FollowUp(net, shuffled, sla, path, acc, shuffled(Last(path))[i], share);
      r.Some? && r.value.Reply? && b in r.value.bids
    decreases m
  {
    WalkFits(net.graph, path);
    ShuffledNeighbor(net.graph, shuffled, Last(path), m - 1);
    if b in FollowUpFirst(net, shuffled, sla, path, acc, m - 1, share).bids {
      i := FirstFrom(net, shuffled, sla, path, acc, m - 1, share, b);
    } else {
      i := m - 1;
    }
  }

  lemma {:induction false} FollowUpInFlood(net: Overlay, shuffled: NodeId -> seq<NodeId>, sla: Sla,
                                           path: seq<NodeId>, acc: AccumulatedLatency, n: NodeId, share: nat,
                                           b: BidProposal)
    requires Askable(net, path) && Shuffles(net.graph, shuffled) && n in net.graph[Last(path)]
    requires var r := FollowUp(net, shuffled, sla, path, acc, n, share); r.Some? && r.value.Reply? && b in r.value.bids
    ensures var r := FollowUpToSingleNeighbor(Tolerant(net), sla, path, acc, n);
      r.Some? && r.value.Reply? && b in r.value.bids
    decreases |net.graph| - |path|, 0
  {
    WalkExtends(net.graph, path, n);
    TolerantOnward(net, sla, path, acc, n);
    SomeOfTheFlood(net, shuffled, sla, path + [n], Onward(net, sla, acc, Last(path), n).value, share, b);
  }

  /** Whatever is returned is one of the proposals of the flood in which erring
      nodes pass. */
  lemma {:induction false} SomeOfTheFlood(net: Overlay, shuffled: NodeId -> seq<NodeId>, sla: Sla, path: seq<NodeId>,
                                          acc: AccumulatedLatency, required: nat, b: BidProposal)
    requires Askable(net, path) && Shuffles(net.graph, shuffled)
    requires var r := BidSome(net, shuffled, sla, path, acc, required); r.Reply? && b in r.bids
    ensures Bid(Tolerant(net), sla, path, acc).Reply?
    ensures b in Bid(Tolerant(net), sla, path, acc).bids
    decreases |net.graph| - |path|, 1
  {
    WalkFits(net.graph, path);
    var me := Last(path);
    var n := |shuffled(me)|;
    var left := if Own(net, me).Some? then required - 1 else required;
    if Own(net, me) != Some(b) {
      var share := if n == 0 then 0 else Share(left, n);
      var i := FirstFrom(net, shuffled, sla, path, acc, if left <= n then left else n, share, b);
      FollowUpInFlood(net, shuffled, sla, path, acc, shuffled(me)[i], share, b);
      var all := net.graph[me];
      var j :| 0 <= j < |all| && all[j] == shuffled(me)[i];
      FollowUpsContain(Tolerant(net), sla, path, acc, |all|, j, b);
    }
  }

  /** So it is one of the proposals of the flood where no node errs. */
  lemma SomeOfTheHealthyFlood(net: Overlay, shuffled: NodeId -> seq<NodeId>, sla: Sla, path: seq<NodeId>,
                              acc: AccumulatedLatency,
                              required: nat, b: BidProposal)
    requires Askable(net, path) && Shuffles(net.graph, shuffled) && NoneErrs(net)
    requires var r := BidSome(net, shuffled, sla, path, acc, required); r.Reply? && b in r.bids
    ensures Bid(net, sla, path, acc).Reply? && b in Bid(net, sla, path, acc).bids
  {
    SomeOfTheFlood(net, shuffled, sla, path, acc, required, b);
    SameFlood(net, sla, path, acc);
  }

  // ---- exactly what is returned ----

  // What is still needed after the node's own bid.
  function Needed(net: Overlay, me: NodeId, required: nat): nat
    requires 0 < required
  {
    if net.local(me).Bids? then required - 1 else required
  }

  // The neighbour is among the first of the shuffle, as many as proposals are
  // needed, and each is asked for `share`.
  ghost predicate Asks(net: Overlay, shuffled: NodeId -> seq<NodeId>, sla: Sla, path: seq<NodeId>,
                       acc: AccumulatedLatency, required: nat, i: int, n: NodeId, share: nat)
    requires Askable(net, path)
  {
    && 0 < required && 0 <= i < Needed(net, Last(path), required) && i < |shuffled(Last(path))|
    && shuffled(Last(path))[i] == n && n != Origin(path)
    && (if Needed(net, Last(path), required) <= |shuffled(Last(path))| then share == 1
        else Spreads(Needed(net, Last(path), required), |shuffled(Last(path))|, share))
    && Onward(net, sla, acc, Last(path), n).Some?
  }

  // The number still needed by the number of neighbours, rounded up.
  predicate Spreads(needed: nat, n: nat, share: nat) {
    0 < share && (share - 1) * n < needed <= share * n
  }

  lemma {:induction false} SpreadsOnce(needed: nat, n: nat, share: nat)
    requires 0 < n && 0 < needed
    ensures Spreads(needed, n, share) <==> share == Share(needed, n)
  {
    ShareRoundsUp(needed, n);
    var r := Share(needed, n);
    if share < r {
      Multiples(share, r - 1, n);
    } else if r < share {
      Multiples(r, share - 1, n);
    }
  }

  lemma Multiples(a: nat, b: nat, n: nat)
    requires a <= b
    ensures a * n <= b * n
  {
    assert (b - a) * n == b * n - a * n;
    assert 0 <= (b - a) * n;
  }

  // The request goes on from the end of `path` along `q`, by neighbours that are
  // asked and answer, to a node that bids.
  ghost predicate Finds(net: Overlay, shuffled: NodeId -> seq<NodeId>, sla: Sla, path: seq<NodeId>,
                        acc: AccumulatedLatency, required: nat, q: seq<NodeId>)
    requires Askable(net, path)
    decreases |q| - |path|
  {
    && path <= q && 0 < required
    && if path == q then net.local(Last(path)).Bids?
       else
         var n := q[|path|];
         exists i, share :: Asks(net, shuffled, sla, path, acc, required, i, n, share)
           && net.answers(Last(path), n) && Askable(net, path + [n])
           && Finds(net, shuffled, sla, path + [n], Onward(net, sla, acc, Last(path), n).value, share, q)
  }

  // Or to a node of which a neighbour is asked and does not answer.
  ghost predicate Stumbles(net: Overlay, shuffled: NodeId -> seq<NodeId>, sla: Sla, path: seq<NodeId>,
                           acc: AccumulatedLatency, required: nat, q: seq<NodeId>)
    requires Askable(net, path)
    decreases |q| - |path|
  {
    && path <= q
    && if path == q then
         exists i, n, share ::
           Asks(net, shuffled, sla, path, acc, required, i, n, share) && !net.answers(Last(path), n)
       else
         var n := q[|path|];
         exists i, share :: Asks(net, shuffled, sla, path, acc, required, i, n, share)
           && net.answers(Last(path), n) && Askable(net, path + [n])
           && Stumbles(net, shuffled, sla, path + [n], Onward(net, sla, acc, Last(path), n).value, share, q)
  }

  // What the i-th of the asked neighbours is asked for.
  function ShareOf(net: Overlay, shuffled: NodeId -> seq<NodeId>, path: seq<NodeId>, required: nat): nat
    requires path != [] && 0 < required
  {
    var n := |shuffled(Last(path))|;
    if n == 0 then 0 else Share(Needed(net, Last(path), required), n)
  }

  function AskedFirst(net: Overlay, shuffled: NodeId -> seq<NodeId>, path: seq<NodeId>, required: nat): nat
    requires path != [] && 0 < required
  {
    var n := |shuffled(Last(path))|;
    if Needed(net, Last(path), required) <= n then Needed(net, Last(path), required) else n
  }

  lemma AsksIff(net: Overlay, shuffled: NodeId -> seq<NodeId>, sla: Sla, path: seq<NodeId>, acc: AccumulatedLatency,
                required: nat, i: int, n: NodeId, share: nat)
    requires Askable(net, path) && Shuffles(net.graph, shuffled) && 0 < required
    ensures Asks(net, shuffled, sla, path, acc, required, i, n, share) <==>
      && 0 <= i < AskedFirst(net, shuffled, path, required) && shuffled(Last(path))[i] == n
      && share == ShareOf(net, shuffled, path, required)
      && n != Origin(path) && Onward(net, sla, acc, Last(path), n).Some?
  {
    var needed, all := Needed(net, Last(path), required), |shuffled(Last(path))|;
    if 0 < all && 0 < needed {
      SpreadsOnce(needed, all, share);
    }
  }

  lemma {:induction false} FirstIff(net: Overlay, shuffled: NodeId -> seq<NodeId>, sla: Sla, path: seq<NodeId>,
                                    acc: AccumulatedLatency, m: nat, share: nat, b: BidProposal)
    requires Askable(net, path) && Shuffles(net.graph, shuffled) && m <= |shuffled(Last(path))|
    ensures forall i :: 0 <= i < m ==> shuffled(Last(path))[i] in net.graph[Last(path)]
    ensures FollowUpFirst(net, shuffled, sla, path, acc, m, share).Failed? <==> exists i ::
      0 <= i < m && FollowUp(net, shuffled, sla, path, acc, shuffled(Last(path))[i], share) == Some(Failed)
    ensures FollowUpFirst(net, shuffled, sla, path, acc, m, share).Reply? ==>
      (b in FollowUpFirst(net, shuffled, sla, path, acc, m, share).bids <==> exists i ::
         0 <= i < m && AnswersWith(net, shuffled, sla, path, acc, shuffled(Last(path))[i], share, b))
    decreases m
  {
    WalkFits(net.graph, path);
    forall i | 0 <= i < |shuffled(Last(path))| ensures shuffled(Last(path))[i] in net.graph[Last(path)] {
      ShuffledNeighbor(net.graph, shuffled, Last(path), i);
    }
    if m > 0 {
      FirstIff(net, shuffled, sla, path, acc, m - 1, share, b);
    }
  }

  ghost predicate AnswersWith(net: Overlay, shuffled: NodeId -> seq<NodeId>, sla: Sla, path: seq<NodeId>,
                              acc: AccumulatedLatency, n: NodeId, share: nat, b: BidProposal)
    requires Askable(net, path) && Shuffles(net.graph, shuffled) && n in net.graph[Last(path)]
  {
    var r := FollowUp(net, shuffled, sla, path, acc, n, share);
    r.Some? && r.value.Reply? && b in r.value.bids
  }

  // The reply in terms of the neighbours asked.
  lemma BidSomeIs(net: Overlay, shuffled: NodeId -> seq<NodeId>, sla: Sla, path: seq<NodeId>, acc: AccumulatedLatency,
                  required: nat, b: BidProposal)
    requires Askable(net, path) && Shuffles(net.graph, shuffled) && 0 < required
    ensures AskedFirst(net, shuffled, path, required) <= |shuffled(Last(path))|
    ensures var first := FollowUpFirst(net, shuffled, sla, path, acc, AskedFirst(net, shuffled, path, required),
                                       ShareOf(net, shuffled, path, required));
      var r := BidSome(net, shuffled, sla, path, acc, required);
      && (r.Failed? <==> first.Failed?)
      && (r.Reply? ==> (b in r.bids <==> b in first.bids || Own(net, Last(path)) == Some(b)))
  {
    WalkFits(net.graph, path);
  }

  lemma {:induction false} ReturnedHasWay(net: Overlay, shuffled: NodeId -> seq<NodeId>, sla: Sla, path: seq<NodeId>,
                                          acc: AccumulatedLatency, required: nat, b: BidProposal)
    returns (q: seq<NodeId>)
    requires Askable(net, path) && Shuffles(net.graph, shuffled)
    requires var r := BidSome(net, shuffled, sla, path, acc, required); r.Reply? && b in r.bids
    ensures Finds(net, shuffled, sla, path, acc, required, q)
    ensures Last(q) == b.nodeId && net.local(b.nodeId) == Bids(b.id, b.bid)
    decreases |net.graph| - |path|
  {
    BidSomeIs(net, shuffled, sla, path, acc, required, b);
    if Own(net, Last(path)) == Some(b) {
      q := path;
    } else {
      var m, share := AskedFirst(net, shuffled, path, required), ShareOf(net, shuffled, path, required);
      FirstIff(net, shuffled, sla, path, acc, m, share, b);
      var i :| 0 <= i < m && AnswersWith(net, shuffled, sla, path, acc, shuffled(Last(path))[i], share, b);
      var n := shuffled(Last(path))[i];
      WalkExtends(net.graph, path, n);
      WalkFits(net.graph, path + [n]);
      q := ReturnedHasWay(net, shuffled, sla, path + [n], Onward(net, sla, acc, Last(path), n).value, share, b);
      FindsOn(net, shuffled, sla, path, acc, required, i, n, share, q);
    }
  }

  lemma FindsOn(net: Overlay, shuffled: NodeId -> seq<NodeId>, sla: Sla, path: seq<NodeId>, acc: AccumulatedLatency,
                required: nat, i: nat, n: NodeId, share: nat, q: seq<NodeId>)
    requires Askable(net, path) && Shuffles(net.graph, shuffled) && 0 < required && Askable(net, path + [n])
    requires i < AskedFirst(net, shuffled, path, required) && shuffled(Last(path))[i] == n
    requires share == ShareOf(net, shuffled, path, required)
    requires n != Origin(path) && Onward(net, sla, acc, Last(path), n).Some? && net.answers(Last(path), n)
    requires Finds(net, shuffled, sla, path + [n], Onward(net, sla, acc, Last(path), n).value, share, q)
    ensures Finds(net, shuffled, sla, path, acc, required, q)
  {
    assert (path + [n])[|path|] == n && q[|path|] == n;
    AsksIff(net, shuffled, sla, path, acc, required, i, n, share);
  }

  // What a neighbour that is asked contributes.
  lemma AskedAnswers(net: Overlay, shuffled: NodeId -> seq<NodeId>, sla: Sla, path: seq<NodeId>,
                     acc: AccumulatedLatency, required: nat, i: int, n: NodeId, share: nat)
    requires Askable(net, path) && Shuffles(net.graph, shuffled) && 0 < required
    requires Asks(net, shuffled, sla, path, acc, required, i, n, share)
    ensures n in net.graph[Last(path)] && Askable(net, path + [n]) && |path| < |net.graph|
    ensures var r := FollowUp(net, shuffled, sla, path, acc, n, share);
      r == Some(if net.answers(Last(path), n)
                then BidSome(net, shuffled, sla, path + [n], Onward(net, sla, acc, Last(path), n).value, share)
                else Failed)
    ensures BidSome(net, shuffled, sla, path, acc, required).Reply? ==>
              FollowUp(net, shuffled, sla, path, acc, n, share).value.Reply?
    ensures FollowUp(net, shuffled, sla, path, acc, n, share).value.Failed? ==>
              BidSome(net, shuffled, sla, path, acc, required).Failed?
  {
    WalkFits(net.graph, path);
    ShuffledNeighbor(net.graph, shuffled, Last(path), i);
    WalkExtends(net.graph, path, n);
    AsksIff(net, shuffled, sla, path, acc, required, i, n, share);
    var b := BidProposal(0, 0, 0.0);
    BidSomeIs(net, shuffled, sla, path, acc, required, b);
    FirstIff(net, shuffled, sla, path, acc, AskedFirst(net, shuffled, path, required), share, b);
  }

  lemma {:induction false} WayIsReturned(net: Overlay, shuffled: NodeId -> seq<NodeId>, sla: Sla, path: seq<NodeId>,
                                         acc: AccumulatedLatency, required: nat, q: seq<NodeId>, b: BidProposal)
    requires Askable(net, path) && Shuffles(net.graph, shuffled)
    requires BidSome(net, shuffled, sla, path, acc, required).Reply?
    requires Finds(net, shuffled, sla, path, acc, required, q)
    requires Last(q) == b.nodeId && net.local(b.nodeId) == Bids(b.id, b.bid)
    ensures b in BidSome(net, shuffled, sla, path, acc, required).bids
    decreases |q| - |path|
  {
    BidSomeIs(net, shuffled, sla, path, acc, required, b);
    if path != q {
      var n := q[|path|];
      var i, share :| Asks(net, shuffled, sla, path, acc, required, i, n, share)
        && net.answers(Last(path), n) && Askable(net, path + [n])
        && Finds(net, shuffled, sla, path + [n], Onward(net, sla, acc, Last(path), n).value, share, q);
      AskedAnswers(net, shuffled, sla, path, acc, required, i, n, share);
      WayIsReturned(net, shuffled, sla, path + [n], Onward(net, sla, acc, Last(path), n).value, share, q, b);
      AsksIff(net, shuffled, sla, path, acc, required, i, n, share);
      FirstIff(net, shuffled, sla, path, acc, AskedFirst(net, shuffled, path, required), share, b);
      assert AnswersWith(net, shuffled, sla, path, acc, shuffled(Last(path))[i], share, b);
    }
  }

  lemma {:induction false} StumbleFails(net: Overlay, shuffled: NodeId -> seq<NodeId>, sla: Sla, path: seq<NodeId>,
                                        acc: AccumulatedLatency, required: nat, q: seq<NodeId>)
    requires Askable(net, path) && Shuffles(net.graph, shuffled)
    requires Stumbles(net, shuffled, sla, path, acc, required, q)
    ensures BidSome(net, shuffled, sla, path, acc, required).Failed?
    decreases |q| - |path|
  {
    if path == q {
      var i, n, share :| Asks(net, shuffled, sla, path, acc, required, i, n, share) && !net.answers(Last(path), n);
      AskedAnswers(net, shuffled, sla, path, acc, required, i, n, share);
    } else {
      var n := q[|path|];
      var i, share :| Asks(net, shuffled, sla, path, acc, required, i, n, share)
        && net.answers(Last(path), n) && Askable(net, path + [n])
        && Stumbles(net, shuffled, sla, path + [n], Onward(net, sla, acc, Last(path), n).value, share, q);
      StumbleFails(net, shuffled, sla, path + [n], Onward(net, sla, acc, Last(path), n).value, share, q);
      AskedAnswers(net, shuffled, sla, path, acc, required, i, n, share);
    }
  }

  lemma {:induction false} FailureHasWay(net: Overlay, shuffled: NodeId -> seq<NodeId>, sla: Sla, path: seq<NodeId>,
                                         acc: AccumulatedLatency, required: nat)
    returns (q: seq<NodeId>)
    requires Askable(net, path) && Shuffles(net.graph, shuffled)
    requires BidSome(net, shuffled, sla, path, acc, required).Failed?
    ensures Stumbles(net, shuffled, sla, path, acc, required, q)
    decreases |net.graph| - |path|
  {
    var b := BidProposal(0, 0, 0.0);
    BidSomeIs(net, shuffled, sla, path, acc, required, b);
    var m, share := AskedFirst(net, shuffled, path, required), ShareOf(net, shuffled, path, required);
    FirstIff(net, shuffled, sla, path, acc, m, share, b);
    var i :| 0 <= i < m && FollowUp(net, shuffled, sla, path, acc, shuffled(Last(path))[i], share) == Some(Failed);
    var n := shuffled(Last(path))[i];
    AsksIff(net, shuffled, sla, path, acc, required, i, n, share);
    assert Asks(net, shuffled, sla, path, acc, required, i, n, share);
    if net.answers(Last(path), n) {
      WalkExtends(net.graph, path, n);
      WalkFits(net.graph, path + [n]);
      q := FailureHasWay(net, shuffled, sla, path + [n], Onward(net, sla, acc, Last(path), n).value, share);
      assert (path + [n])[|path|] == n && q[|path|] == n;
    } else {
      q := path;
    }
  }

  /** The reply fails exactly when some neighbour that is asked on the way does not
      answer; otherwise it holds the bids of exactly those nodes that a way of
      asked neighbours leads to while proposals are still needed. */
  lemma ReturnedIff(net: Overlay, shuffled: NodeId -> seq<NodeId>, sla: Sla, path: seq<NodeId>, acc: AccumulatedLatency,
                    required: nat)
    requires Askable(net, path) && Shuffles(net.graph, shuffled)
    ensures var r := BidSome(net, shuffled, sla, path, acc, required);
      && (r.Failed? <==> exists q :: Stumbles(net, shuffled, sla, path, acc, required, q))
      && (r.Reply? ==> forall b :: b in r.bids <==>
            && net.local(b.nodeId) == Bids(b.id, b.bid)
            && exists q :: Finds(net, shuffled, sla, path, acc, required, q) && Last(q) == b.nodeId)
  {
    var r := BidSome(net, shuffled, sla, path, acc, required);
    if r.Failed? {
      var q := FailureHasWay(net, shuffled, sla, path, acc, required);
      assert Stumbles(net, shuffled, sla, path, acc, required, q);
    } else {
      forall q ensures !Stumbles(net, shuffled, sla, path, acc, required, q) {
        if Stumbles(net, shuffled, sla, path, acc, required, q) {
          StumbleFails(net, shuffled, sla, path, acc, required, q);
        }
      }
      forall b: BidProposal ensures b in r.bids <==>
        && net.local(b.nodeId) == Bids(b.id, b.bid)
        && exists q :: Finds(net, shuffled, sla, path, acc, required, q) && Last(q) == b.nodeId
      {
        if b in r.bids {
          var q := ReturnedHasWay(net, shuffled, sla, path, acc, required, b);
        } else if q :| Finds(net, shuffled, sla, path, acc, required, q) && Last(q) == b.nodeId
                       && net.local(b.nodeId) == Bids(b.id, b.bid) {
          WayIsReturned(net, shuffled, sla, path, acc, required, q, b);
        }
      }
    }
  }
}
