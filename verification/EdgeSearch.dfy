/** The two sequential placements: ask the neighbours one by one, nearest first
    after oneself, or furthest first before oneself, and stop at the first bid. */
module EdgeSearch {
  import opened Model
  import opened LatencyEstimate
  import opened Network
  import opened Flood

  datatype Order = NearestFirst | FurthestFirst

  // A neighbour worth asking, with the latency accumulated on the way to it.
  datatype Candidate = Candidate(node: NodeId, acc: AccumulatedLatency)

  function Precedes(order: Order, a: Candidate, b: Candidate): bool {
    if order.NearestFirst? then a.acc.median <= b.acc.median else b.acc.median <= a.acc.median
  }

  // The candidates among the first k neighbours, in the order they are listed.
  function Candidates(net: Overlay, sla: Sla, path: seq<NodeId>, acc: AccumulatedLatency, k: nat): seq<Candidate>
    requires Askable(net, path) && k <= |net.graph[Last(path)]|
    decreases k
  {
    if k == 0 then []
    else
      var n := net.graph[Last(path)][k - 1];
      var before := Candidates(net, sla, path, acc, k - 1);
      if n == Origin(path) then before
      else
        match Onward(net, sla, acc, Last(path), n)
        case None => before
        case Some(next) => before + [Candidate(n, next)]
  }

  // Stable insertion: behind everything that may precede it.
  function Place(order: Order, s: seq<Candidate>, c: Candidate): seq<Candidate>
    decreases |s|
  {
    if s == [] then [c]
    else if Precedes(order, s[0], c) then [s[0]] + Place(order, s[1..], c)
    else [c] + s
  }

  function SortBy(order: Order, s: seq<Candidate>): seq<Candidate>
    decreases |s|
  {
    if s == [] then [] else Place(order, SortBy(order, s[..|s| - 1]), s[|s| - 1])
  }

  // What makes a candidate of the request at the end of `path`.
  ghost predicate IsCandidate(net: Overlay, sla: Sla, path: seq<NodeId>, acc: AccumulatedLatency, c: Candidate)
    requires Askable(net, path)
  {
    && c.node in net.graph[Last(path)]
    && c.node != Origin(path)
    && Onward(net, sla, acc, Last(path), c.node) == Some(c.acc)
  }

  lemma InPrefix(s: seq<NodeId>, k: nat, x: NodeId)
    requires 0 < k <= |s|
    ensures x in s[..k] <==> x in s[..k - 1] || x == s[k - 1]
  {
    assert s[..k] == s[..k - 1] + [s[k - 1]];
  }

  lemma {:induction false} CandidatesIff(net: Overlay, sla: Sla, path: seq<NodeId>, acc: AccumulatedLatency, k: nat,
                                         c: Candidate)
    requires Askable(net, path) && k <= |net.graph[Last(path)]|
    ensures c in Candidates(net, sla, path, acc, k)
            <==> IsCandidate(net, sla, path, acc, c) && c.node in net.graph[Last(path)][..k]
    decreases k
  {
    if k > 0 {
      CandidatesIff(net, sla, path, acc, k - 1, c);
      InPrefix(net.graph[Last(path)], k, c.node);
    }
  }

  lemma {:induction false} PlaceContents(order: Order, s: seq<Candidate>, c: Candidate, x: Candidate)
    ensures x in Place(order, s, c) <==> x == c || x in s
    decreases |s|
  {
    if s != [] {
      PlaceContents(order, s[1..], c, x);
    }
  }

  lemma {:induction false} SortContents(order: Order, s: seq<Candidate>, x: Candidate)
    ensures x in SortBy(order, s) <==> x in s
    decreases |s|
  {
    if s != [] {
      var front, last := s[..|s| - 1], s[|s| - 1];
      SortContents(order, front, x);
      PlaceContents(order, SortBy(order, front), last, x);
      assert s == front + [last];
    }
  }

  ghost predicate Ordered(order: Order, s: seq<Candidate>) {
    forall i, j :: 0 <= i < j < |s| ==> Precedes(order, s[i], s[j])
  }

  lemma {:induction false} PlaceOrdered(order: Order, s: seq<Candidate>, c: Candidate)
    requires Ordered(order, s)
    ensures Ordered(order, Place(order, s, c))
    decreases |s|
  {
    if s != [] {
      if Precedes(order, s[0], c) {
        PlaceOrdered(order, s[1..], c);
        forall x | x in Place(order, s[1..], c) ensures Precedes(order, s[0], x) {
          PlaceContents(order, s[1..], c, x);
        }
      } else {
        forall x | x in s ensures Precedes(order, c, x) {
        }
      }
    }
  }

  /** The neighbours are asked nearest first, or furthest first. */
  lemma {:induction false} SortOrdered(order: Order, s: seq<Candidate>)
    ensures Ordered(order, SortBy(order, s))
    decreases |s|
  {
    if s != [] {
      SortOrdered(order, s[..|s| - 1]);
      PlaceOrdered(order, SortBy(order, s[..|s| - 1]), s[|s| - 1]);
    }
  }

  ghost predicate AllCandidates(net: Overlay, sla: Sla, path: seq<NodeId>, acc: AccumulatedLatency, cs: seq<Candidate>)
    requires Askable(net, path)
  {
    forall i :: 0 <= i < |cs| ==> IsCandidate(net, sla, path, acc, cs[i])
  }

  lemma SortedAreCandidates(order: Order, net: Overlay, sla: Sla, path: seq<NodeId>, acc: AccumulatedLatency)
    requires Askable(net, path)
    ensures AllCandidates(net, sla, path, acc,
                          SortBy(order, Candidates(net, sla, path, acc, |net.graph[Last(path)]|)))
  {
    var k := |net.graph[Last(path)]|;
    var cs := SortBy(order, Candidates(net, sla, path, acc, k));
    forall i | 0 <= i < |cs| ensures IsCandidate(net, sla, path, acc, cs[i]) {
      SortContents(order, Candidates(net, sla, path, acc, k), cs[i]);
      CandidatesIff(net, sla, path, acc, k, cs[i]);
    }
  }

  function Own(net: Overlay, me: NodeId): Option<BidProposal> {
    match net.local(me)
    case Bids(id, bid) => Some(BidProposal(me, id, bid))
    case _ => None
  }

  // What a candidate answers.
  function Answer(order: Order, net: Overlay, sla: Sla, path: seq<NodeId>, acc: AccumulatedLatency, c: Candidate): Reply
    requires Askable(net, path) && IsCandidate(net, sla, path, acc, c)
    decreases |net.graph| - |path|, 0, 0
  {
    WalkExtends(net.graph, path, c.node);
    if net.answers(Last(path), c.node) then Search(order, net, sla, path + [c.node], c.acc) else Failed
  }

  // The first non-empty answer among the candidates, in their order.
  function Probe(order: Order, net: Overlay, sla: Sla, path: seq<NodeId>, acc: AccumulatedLatency,
                 cs: seq<Candidate>): seq<BidProposal>
    requires Askable(net, path) && AllCandidates(net, sla, path, acc, cs)
    decreases |net.graph| - |path|, 0, |cs|
  {
    if cs == [] then []
    else
      var answer := Answer(order, net, sla, path, acc, cs[0]);
      if answer.Reply? && answer.bids != [] then answer.bids
      else Probe(order, net, sla, path, acc, cs[1..])
  }

  // Nearest first asks itself before the others and fails without any bid;
  // furthest first asks itself last and then replies with no bid.
  function Search(order: Order, net: Overlay, sla: Sla, path: seq<NodeId>, acc: AccumulatedLatency): Reply
    requires Askable(net, path)
    decreases |net.graph| - |path|, 1, 0
  {
    var me := Last(path);
    SortedAreCandidates(order, net, sla, path, acc);
    WalkFits(net.graph, path);
    if order.NearestFirst? && Own(net, me).Some? then Reply([Own(net, me).value])
    else
      var found := Probe(order, net, sla, path, acc, SortBy(order, Candidates(net, sla, path, acc, |net.graph[me]|)));
      Conclude(order, Own(net, me), found)
  }

  function Conclude(order: Order, own: Option<BidProposal>, found: seq<BidProposal>): Reply {
    if found != [] then Reply([found[|found| - 1]])
    else if order.NearestFirst? then Failed
    else if own.Some? then Reply([own.value])
    else Reply([])
  }

  // The searches treat a node whose auction errs like one that passes.
  function Tolerant(net: Overlay): Overlay {
    net.(local := (n: NodeId) => if net.local(n).Errs? then Passes else net.local(n))
  }

  lemma TolerantOnward(net: Overlay, sla: Sla, path: seq<NodeId>, acc: AccumulatedLatency, v: NodeId)
    requires Askable(net, path)
    ensures Onward(Tolerant(net), sla, acc, Last(path), v) == Onward(net, sla, acc, Last(path), v)
  {
  }

  ghost predicate NoneErrs(net: Overlay) {
    forall n :: !net.local(n).Errs?
  }

  lemma {:induction false} SameFollowUps(net: Overlay, sla: Sla, path: seq<NodeId>, acc: AccumulatedLatency, k: nat)
    requires Askable(net, path) && NoneErrs(net) && k <= |net.graph[Last(path)]|
    ensures FollowUpToNeighbors(Tolerant(net), sla, path, acc, k) == FollowUpToNeighbors(net, sla, path, acc, k)
    decreases |net.graph| - |path|, 0, k
  {
    if k > 0 {
      SameFollowUps(net, sla, path, acc, k - 1);
      WalkFits(net.graph, path);
      var n := net.graph[Last(path)][k - 1];
      TolerantOnward(net, sla, path, acc, n);
      if n != Origin(path) && Onward(net, sla, acc, Last(path), n).Some? {
        WalkExtends(net.graph, path, n);
        SameFlood(net, sla, path + [n], Onward(net, sla, acc, Last(path), n).value);
      }
    }
  }

  /** Where no node errs, treating erring nodes as passing changes nothing. */
  lemma {:induction false} SameFlood(net: Overlay, sla: Sla, path: seq<NodeId>, acc: AccumulatedLatency)
    requires Askable(net, path) && NoneErrs(net)
    ensures Bid(Tolerant(net), sla, path, acc) == Bid(net, sla, path, acc)
    decreases |net.graph| - |path|, 1, 0
  {
    WalkFits(net.graph, path);
    SameFollowUps(net, sla, path, acc, |net.graph[Last(path)]|);
  }

  ghost predicate Finds(r: Reply, net: Overlay, sla: Sla, path: seq<NodeId>, acc: AccumulatedLatency)
    requires Askable(net, path)
  {
    var flood := Bid(Tolerant(net), sla, path, acc);
    && flood.Reply?
    && (r.Reply? && r.bids != [] <==> flood.bids != [])
    && (r.Reply? ==> |r.bids| <= 1 && forall b :: b in r.bids ==> b in flood.bids)
  }

  // A candidate answers with a bid exactly when the flood gets one from it.
  lemma {:induction false} AnswerFinds(order: Order, net: Overlay, sla: Sla, path: seq<NodeId>, acc: AccumulatedLatency,
                                       c: Candidate)
    requires Askable(net, path) && IsCandidate(net, sla, path, acc, c)
    ensures var r := FollowUpToSingleNeighbor(Tolerant(net), sla, path, acc, c.node);
      var answer := Answer(order, net, sla, path, acc, c);
      && r.Some?
      && (answer.Reply? && answer.bids != [] <==> r.value.Reply? && r.value.bids != [])
      && (answer.Reply? ==> |answer.bids| <= 1)
      && (answer.Reply? ==> forall b :: b in answer.bids ==> r.value.Reply? && b in r.value.bids)
    decreases |net.graph| - |path|, 0, 0
  {
    TolerantOnward(net, sla, path, acc, c.node);
    WalkExtends(net.graph, path, c.node);
    SearchFinds(order, net, sla, path + [c.node], c.acc);
  }

  lemma AnswerInFlood(net: Overlay, sla: Sla, path: seq<NodeId>, acc: AccumulatedLatency, n: NodeId, b: BidProposal)
    requires Askable(net, path) && n in net.graph[Last(path)] && !net.local(Last(path)).Errs?
    requires var r := FollowUpToSingleNeighbor(net, sla, path, acc, n); r.Some? && r.value.Reply? && b in r.value.bids
    ensures Bid(net, sla, path, acc).Reply? && b in Bid(net, sla, path, acc).bids
  {
    var all := net.graph[Last(path)];
    var j :| 0 <= j < |all| && all[j] == n;
    FollowUpsContain(net, sla, path, acc, |all|, j, b);
  }

  lemma {:induction false} ProbeFinds(order: Order, net: Overlay, sla: Sla, path: seq<NodeId>, acc: AccumulatedLatency,
                                      cs: seq<Candidate>)
    requires Askable(net, path) && AllCandidates(net, sla, path, acc, cs)
    ensures var found := Probe(order, net, sla, path, acc, cs);
      && (forall b :: b in found ==> b in Bid(Tolerant(net), sla, path, acc).bids)
      && |found| <= 1
      && (found == [] ==> forall c :: c in cs ==>
            var r := FollowUpToSingleNeighbor(Tolerant(net), sla, path, acc, c.node);
            r.Some? && (r.value.Reply? ==> r.value.bids == []))
    decreases |net.graph| - |path|, 0, |cs|
  {
    if cs != [] {
      var c := cs[0];
      AnswerFinds(order, net, sla, path, acc, c);
      var answer := Answer(order, net, sla, path, acc, c);
      if answer.Reply? && answer.bids != [] {
        forall b | b in answer.bids ensures b in Bid(Tolerant(net), sla, path, acc).bids {
          AnswerInFlood(Tolerant(net), sla, path, acc, c.node, b);
        }
      } else {
        ProbeFinds(order, net, sla, path, acc, cs[1..]);
        assert forall x :: x in cs ==> x == c || x in cs[1..];
      }
    }
  }

  lemma {:induction false} NoFollowUp(net: Overlay, sla: Sla, path: seq<NodeId>, acc: AccumulatedLatency, k: nat)
    requires Askable(net, path) && k <= |net.graph[Last(path)]|
    requires forall n :: n in net.graph[Last(path)] ==>
      var r := FollowUpToSingleNeighbor(net, sla, path, acc, n);
      r.Some? && r.value.Reply? ==> r.value.bids == []
    ensures FollowUpToNeighbors(net, sla, path, acc, k) == []
    decreases k
  {
    if k > 0 {
      NoFollowUp(net, sla, path, acc, k - 1);
    }
  }

  lemma NothingFound(order: Order, net: Overlay, sla: Sla, path: seq<NodeId>, acc: AccumulatedLatency,
                     cs: seq<Candidate>)
    requires Askable(net, path)
    requires cs == SortBy(order, Candidates(net, sla, path, acc, |net.graph[Last(path)]|))
    requires AllCandidates(net, sla, path, acc, cs)
    requires forall c :: c in cs ==>
      var r := FollowUpToSingleNeighbor(Tolerant(net), sla, path, acc, c.node);
      r.Some? && (r.value.Reply? ==> r.value.bids == [])
    ensures FollowUpToNeighbors(Tolerant(net), sla, path, acc, |net.graph[Last(path)]|) == []
  {
    var me := Last(path);
    var k := |net.graph[me]|;
    forall n | n in net.graph[me]
      ensures var r := FollowUpToSingleNeighbor(Tolerant(net), sla, path, acc, n);
        r.Some? && r.value.Reply? ==> r.value.bids == []
    {
      if n != Origin(path) && Onward(net, sla, acc, me, n).Some? {
        var c := Candidate(n, Onward(net, sla, acc, me, n).value);
        CandidatesIff(net, sla, path, acc, k, c);
        SortContents(order, Candidates(net, sla, path, acc, k), c);
      }
    }
    NoFollowUp(Tolerant(net), sla, path, acc, k);
  }

  lemma OwnIsInFlood(net: Overlay, sla: Sla, path: seq<NodeId>, acc: AccumulatedLatency)
    requires Askable(net, path)
    ensures Bid(Tolerant(net), sla, path, acc).Reply?
    ensures var bids := Bid(Tolerant(net), sla, path, acc).bids;
      var follow := FollowUpToNeighbors(Tolerant(net), sla, path, acc, |net.graph[Last(path)]|);
      bids == if Own(net, Last(path)).Some? then follow + [Own(net, Last(path)).value] else follow
  {
  }

  lemma ConcludeFinds(order: Order, own: Option<BidProposal>, found: seq<BidProposal>, bids: seq<BidProposal>)
    requires forall b :: b in found ==> b in bids
    requires own.Some? ==> own.value in bids
    requires found == [] && own.None? ==> bids == []
    requires order.NearestFirst? ==> own.None?
    ensures var r := Conclude(order, own, found);
      && (r.Reply? && r.bids != [] <==> bids != [])
      && (r.Reply? ==> |r.bids| <= 1 && forall b :: b in r.bids ==> b in bids)
  {
    if found != [] {
      assert found[|found| - 1] in found;
    }
  }

  /** Either search yields a bid exactly when the flood yields one, and the bid
      it yields is one of the flood's. */
  lemma {:induction false} SearchFinds(order: Order, net: Overlay, sla: Sla, path: seq<NodeId>, acc: AccumulatedLatency)
    requires Askable(net, path)
    ensures Finds(Search(order, net, sla, path, acc), net, sla, path, acc)
    decreases |net.graph| - |path|, 1, 0
  {
    WalkFits(net.graph, path);
    SortedAreCandidates(order, net, sla, path, acc);
    var cs := SortBy(order, Candidates(net, sla, path, acc, |net.graph[Last(path)]|));
    ProbeFinds(order, net, sla, path, acc, cs);
    OwnIsInFlood(net, sla, path, acc);
    var found := Probe(order, net, sla, path, acc, cs);
    if found == [] {
      NothingFound(order, net, sla, path, acc, cs);
    }
    if order.FurthestFirst? || Own(net, Last(path)).None? {
      ConcludeFinds(order, Own(net, Last(path)), found, Bid(Tolerant(net), sla, path, acc).bids);
    }
  }

  // ---- compared with the flood that drops what an erring node gathered ----

  lemma {:induction false} TravelsTolerant(net: Overlay, sla: Sla, path: seq<NodeId>, acc: AccumulatedLatency,
                                           q: seq<NodeId>)
    requires Askable(net, path) && Walk(net.graph, q) && Travels(net, sla, path, acc, q)
    ensures Travels(Tolerant(net), sla, path, acc, q)
    decreases |q| - |path|
  {
    if |path| < |q| {
      var n := q[|path|];
      assert q[..|path|] == path;
      WalkForwards(net.graph, q, |path|);
      WalkExtends(net.graph, path, n);
      TolerantOnward(net, sla, path, acc, n);
      TravelsTolerant(net, sla, path + [n], Onward(net, sla, acc, Last(path), n).value, q);
    }
  }

  // Letting erring nodes pass loses no proposal.
  lemma FloodIsWithin(net: Overlay, sla: Sla, path: seq<NodeId>, acc: AccumulatedLatency, b: BidProposal)
    requires Askable(net, path)
    requires Bid(net, sla, path, acc).Reply? && b in Bid(net, sla, path, acc).bids
    ensures Bid(Tolerant(net), sla, path, acc).Reply? && b in Bid(Tolerant(net), sla, path, acc).bids
  {
    var q := BidsAreOffers(net, sla, path, acc, b);
    TravelsTolerant(net, sla, path, acc, q);
    assert Offer(Tolerant(net), sla, path, acc, q, b);
    OffersAreFound(Tolerant(net), sla, path, acc, q, b);
  }

  ghost predicate Yields(r: Reply) {
    r.Reply? && r.bids != []
  }

  /** Either search yields a bid whenever the flood does; where no node errs it
      yields one only then, and one of the flood's. */
  lemma SearchMeetsFlood(order: Order, net: Overlay, sla: Sla, path: seq<NodeId>, acc: AccumulatedLatency)
    requires Askable(net, path)
    ensures Yields(Bid(net, sla, path, acc)) ==> Yields(Search(order, net, sla, path, acc))
    ensures NoneErrs(net) && Yields(Search(order, net, sla, path, acc)) ==>
      && Bid(net, sla, path, acc).Reply?
      && forall b :: b in Search(order, net, sla, path, acc).bids ==> b in Bid(net, sla, path, acc).bids
  {
    SearchFinds(order, net, sla, path, acc);
    if Yields(Bid(net, sla, path, acc)) {
      FloodIsWithin(net, sla, path, acc, Bid(net, sla, path, acc).bids[0]);
    }
    if NoneErrs(net) {
      SameFlood(net, sla, path, acc);
    }
  }

  /** Either search yields a bid exactly when some way leads to a node that bids,
      with every hop described, within the budget and answered; nodes on the way
      may err. */
  lemma SearchYieldsIff(order: Order, net: Overlay, sla: Sla, path: seq<NodeId>, acc: AccumulatedLatency)
    requires Askable(net, path)
    ensures Yields(Search(order, net, sla, path, acc)) <==>
            exists q :: Reaches(Tolerant(net), sla, path, acc, q) && net.local(Last(q)).Bids?
  {
    SearchFinds(order, net, sla, path, acc);
    var flood := Bid(Tolerant(net), sla, path, acc);
    FloodIsExact(Tolerant(net), sla, path, acc);
    if flood.bids != [] {
      var b := flood.bids[0];
      assert b in flood.bids;
    }
    if q :| Reaches(Tolerant(net), sla, path, acc, q) && net.local(Last(q)).Bids? {
      var offer := net.local(Last(q));
      assert BidProposal(Last(q), offer.id, offer.bid) in flood.bids;
    }
  }

  // ---- who is asked before whom ----

  // Where a neighbour stands in the list.
  ghost predicate StandsBefore(list: seq<NodeId>, u: NodeId, v: NodeId) {
    exists i, j :: 0 <= i < j < |list| && list[i] == u && list[j] == v
  }

  // The lower median goes first, or the higher; of equal ones the one listed
  // first.
  ghost predicate Sooner(order: Order, list: seq<NodeId>, a: Candidate, b: Candidate) {
    if order.NearestFirst?
    then a.acc.median < b.acc.median || (a.acc.median == b.acc.median && StandsBefore(list, a.node, b.node))
    else b.acc.median < a.acc.median || (a.acc.median == b.acc.median && StandsBefore(list, a.node, b.node))
  }

  ghost predicate InTurn(order: Order, list: seq<NodeId>, s: seq<Candidate>) {
    forall i, j :: 0 <= i < j < |s| ==> Sooner(order, list, s[i], s[j])
  }

  lemma SoonerJoins(order: Order, list: seq<NodeId>, a: Candidate, b: Candidate, c: Candidate)
    requires Distinct(list) && Sooner(order, list, a, b) && Sooner(order, list, b, c)
    ensures Sooner(order, list, a, c)
  {
    if StandsBefore(list, a.node, b.node) && StandsBefore(list, b.node, c.node) {
      var i, j :| 0 <= i < j < |list| && list[i] == a.node && list[j] == b.node;
      var k, l :| 0 <= k < l < |list| && list[k] == b.node && list[l] == c.node;
      assert j == k;
    }
  }

  lemma {:induction false} PlaceInTurn(order: Order, list: seq<NodeId>, s: seq<Candidate>, c: Candidate)
    requires Distinct(list) && InTurn(order, list, s)
    requires forall x :: x in s ==> StandsBefore(list, x.node, c.node)
    ensures InTurn(order, list, Place(order, s, c))
    decreases |s|
  {
    if s != [] {
      if Precedes(order, s[0], c) {
        PlaceInTurn(order, list, s[1..], c);
        assert s[0] in s && Sooner(order, list, s[0], c);
        forall x | x in Place(order, s[1..], c) ensures Sooner(order, list, s[0], x) {
          PlaceContents(order, s[1..], c, x);
        }
      } else {
        assert Sooner(order, list, c, s[0]);
        forall x | x in s ensures Sooner(order, list, c, x) {
          if x != s[0] {
            SoonerJoins(order, list, c, s[0], x);
          }
        }
      }
    }
  }

  lemma SortedBefore(order: Order, net: Overlay, sla: Sla, path: seq<NodeId>, acc: AccumulatedLatency, k: nat,
                     x: Candidate)
    requires Askable(net, path) && 0 < k <= |net.graph[Last(path)]|
    requires x in SortBy(order, Candidates(net, sla, path, acc, k - 1))
    ensures StandsBefore(net.graph[Last(path)], x.node, net.graph[Last(path)][k - 1])
  {
    SortContents(order, Candidates(net, sla, path, acc, k - 1), x);
    CandidatesIff(net, sla, path, acc, k - 1, x);
    var list := net.graph[Last(path)];
    var i :| 0 <= i < |list[..k - 1]| && list[..k - 1][i] == x.node;
    assert list[i] == x.node;
  }

  lemma {:induction false} SortInTurn(order: Order, net: Overlay, sla: Sla, path: seq<NodeId>, acc: AccumulatedLatency,
                                      k: nat)
    requires Askable(net, path) && k <= |net.graph[Last(path)]|
    ensures InTurn(order, net.graph[Last(path)], SortBy(order, Candidates(net, sla, path, acc, k)))
    decreases k
  {
    if k > 0 {
      SortInTurn(order, net, sla, path, acc, k - 1);
      var before, now := Candidates(net, sla, path, acc, k - 1), Candidates(net, sla, path, acc, k);
      if now != before {
        var c := now[|now| - 1];
        assert now == before + [c] && now[..|now| - 1] == before;
        assert LinksBack(net.graph, Last(path));
        forall x | x in SortBy(order, before) ensures StandsBefore(net.graph[Last(path)], x.node, c.node) {
          SortedBefore(order, net, sla, path, acc, k, x);
        }
        PlaceInTurn(order, net.graph[Last(path)], SortBy(order, before), c);
      }
    }
  }

  // ---- whose bid is returned ----

  lemma {:induction false} ProbeFirst(order: Order, net: Overlay, sla: Sla, path: seq<NodeId>, acc: AccumulatedLatency,
                                      cs: seq<Candidate>)
    requires Askable(net, path) && AllCandidates(net, sla, path, acc, cs)
    ensures var found := Probe(order, net, sla, path, acc, cs);
      if found == [] then forall i :: 0 <= i < |cs| ==> !Yields(Answer(order, net, sla, path, acc, cs[i]))
      else exists i :: FirstYield(order, net, sla, path, acc, cs, i, found)
    decreases |cs|
  {
    if cs != [] {
      var answer := Answer(order, net, sla, path, acc, cs[0]);
      if Yields(answer) {
        assert FirstYield(order, net, sla, path, acc, cs, 0, answer.bids);
      } else {
        ProbeFirst(order, net, sla, path, acc, cs[1..]);
        var found := Probe(order, net, sla, path, acc, cs[1..]);
        if found != [] {
          var i :| FirstYield(order, net, sla, path, acc, cs[1..], i, found);
          assert cs[1..][i] == cs[i + 1];
          assert FirstYield(order, net, sla, path, acc, cs, i + 1, found);
        }
      }
    }
  }

  // The i-th answers with these proposals, and none before it answers with any.
  ghost predicate FirstYield(order: Order, net: Overlay, sla: Sla, path: seq<NodeId>, acc: AccumulatedLatency,
                             cs: seq<Candidate>, i: int, found: seq<BidProposal>)
    requires Askable(net, path) && AllCandidates(net, sla, path, acc, cs)
  {
    && 0 <= i < |cs|
    && Answer(order, net, sla, path, acc, cs[i]) == Reply(found)
    && forall j :: 0 <= j < i ==> !Yields(Answer(order, net, sla, path, acc, cs[j]))
  }

  // The candidate answers with a bid, and no candidate before it does: none that
  // is nearer, or further, and none that is as near and listed before.
  ghost predicate Chosen(order: Order, net: Overlay, sla: Sla, path: seq<NodeId>, acc: AccumulatedLatency, c: Candidate)
    requires Askable(net, path)
  {
    && IsCandidate(net, sla, path, acc, c)
    && Yields(Answer(order, net, sla, path, acc, c))
    && forall d :: IsCandidate(net, sla, path, acc, d) && Sooner(order, net.graph[Last(path)], d, c) ==>
         !Yields(Answer(order, net, sla, path, acc, d))
  }

  ghost predicate NoneYields(order: Order, net: Overlay, sla: Sla, path: seq<NodeId>, acc: AccumulatedLatency)
    requires Askable(net, path)
  {
    forall d :: IsCandidate(net, sla, path, acc, d) ==> !Yields(Answer(order, net, sla, path, acc, d))
  }

  lemma NotBoth(order: Order, list: seq<NodeId>, a: Candidate, b: Candidate)
    requires Distinct(list) && Sooner(order, list, a, b)
    ensures !Sooner(order, list, b, a) && a != b
  {
  }

  lemma IsAmong(order: Order, net: Overlay, sla: Sla, path: seq<NodeId>, acc: AccumulatedLatency, d: Candidate)
    requires Askable(net, path) && IsCandidate(net, sla, path, acc, d)
    ensures d in SortBy(order, Candidates(net, sla, path, acc, |net.graph[Last(path)]|))
  {
    var list := net.graph[Last(path)];
    assert list[..|list|] == list;
    CandidatesIff(net, sla, path, acc, |list|, d);
    SortContents(order, Candidates(net, sla, path, acc, |list|), d);
  }

  lemma FirstIsChosen(order: Order, net: Overlay, sla: Sla, path: seq<NodeId>, acc: AccumulatedLatency,
                      cs: seq<Candidate>, i: nat, found: seq<BidProposal>)
    requires Askable(net, path) && AllCandidates(net, sla, path, acc, cs)
    requires cs == SortBy(order, Candidates(net, sla, path, acc, |net.graph[Last(path)]|))
    requires found != [] && FirstYield(order, net, sla, path, acc, cs, i, found)
    ensures Chosen(order, net, sla, path, acc, cs[i])
  {
    var list := net.graph[Last(path)];
    SortInTurn(order, net, sla, path, acc, |list|);
    assert LinksBack(net.graph, Last(path));
    forall d | IsCandidate(net, sla, path, acc, d) && Sooner(order, list, d, cs[i])
      ensures !Yields(Answer(order, net, sla, path, acc, d))
    {
      IsAmong(order, net, sla, path, acc, d);
      var j :| 0 <= j < |cs| && cs[j] == d;
      NotBoth(order, list, d, cs[i]);
    }
  }

  // What the search answers: nearest first, the node's own bid if it has one, and
  // no reply without any bid; furthest first, its own bid only if no neighbour
  // answers with one.
  ghost predicate Serves(order: Order, net: Overlay, sla: Sla, path: seq<NodeId>, acc: AccumulatedLatency, r: Reply)
    requires Askable(net, path)
  {
    var me := Last(path);
    if order.NearestFirst? && net.local(me).Bids? then
      r == Reply([BidProposal(me, net.local(me).id, net.local(me).bid)])
    else if NoneYields(order, net, sla, path, acc) then
      if order.NearestFirst? then r == Failed
      else if net.local(me).Bids? then r == Reply([BidProposal(me, net.local(me).id, net.local(me).bid)])
      else r == Reply([])
    else exists c :: Chosen(order, net, sla, path, acc, c) && r == Answer(order, net, sla, path, acc, c)
  }

  /** A neighbour's bid is that of the nearest neighbour, or of the furthest, that
      answers with one, and among neighbours as near that of the one listed first. */
  lemma SearchServes(order: Order, net: Overlay, sla: Sla, path: seq<NodeId>, acc: AccumulatedLatency)
    requires Askable(net, path)
    ensures Serves(order, net, sla, path, acc, Search(order, net, sla, path, acc))
  {
    WalkFits(net.graph, path);
    SortedAreCandidates(order, net, sla, path, acc);
    var cs := SortBy(order, Candidates(net, sla, path, acc, |net.graph[Last(path)]|));
    var found := Probe(order, net, sla, path, acc, cs);
    ProbeFirst(order, net, sla, path, acc, cs);
    if found == [] {
      forall d | IsCandidate(net, sla, path, acc, d) ensures !Yields(Answer(order, net, sla, path, acc, d)) {
        IsAmong(order, net, sla, path, acc, d);
      }
    } else {
      var i :| FirstYield(order, net, sla, path, acc, cs, i, found);
      FirstIsChosen(order, net, sla, path, acc, cs, i, found);
      ProbeFinds(order, net, sla, path, acc, cs);
      assert found == [found[|found| - 1]];
    }
  }
}
