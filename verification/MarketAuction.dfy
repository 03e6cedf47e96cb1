/** The market's auction: the lowest bid wins and is paid the second lowest. */
module MarketAuction {
  import opened Model

  datatype ChosenBid = ChosenBid(bid: BidProposal, price: real)

  predicate Ascending(s: seq<BidProposal>) {
    forall i, j :: 0 <= i < j < |s| ==> s[i].bid <= s[j].bid
  }

  predicate Lowest(s: seq<BidProposal>, i: nat) {
    i < |s| && forall j :: 0 <= j < |s| ==> s[i].bid <= s[j].bid
  }

  lemma {:induction false} LowestExists(s: seq<BidProposal>) returns (i: nat)
    requires s != []
    ensures Lowest(s, i)
    decreases |s|
  {
    var n := |s| - 1;
    i := n;
    if n > 0 {
      var k := LowestExists(s[..n]);
      if s[k].bid < s[n].bid {
        i := k;
      }
      forall j | 0 <= j < |s| ensures s[i].bid <= s[j].bid {
        if j < n {
          assert s[..n][k].bid <= s[..n][j].bid;
        }
      }
    }
  }

  lemma MovesOne(s: seq<BidProposal>, rest: seq<BidProposal>, i: nat)
    requires i < |rest|
    ensures multiset(s + [rest[i]]) + multiset(rest[..i] + rest[i + 1..]) == multiset(s) + multiset(rest)
  {
    assert rest == rest[..i] + [rest[i]] + rest[i + 1..];
  }

  ghost predicate Below(s: seq<BidProposal>, rest: seq<BidProposal>) {
    forall i, j :: 0 <= i < |s| && 0 <= j < |rest| ==> s[i].bid <= rest[j].bid
  }

  lemma StaysAbove(s: seq<BidProposal>, rest: seq<BidProposal>, i: nat)
    requires Ascending(s) && Below(s, rest) && Lowest(rest, i)
    ensures Ascending(s + [rest[i]]) && Below(s + [rest[i]], rest[..i] + rest[i + 1..])
  {
    var left := rest[..i] + rest[i + 1..];
    forall j | 0 <= j < |left|
      ensures rest[i].bid <= left[j].bid && forall k :: 0 <= k < |s| ==> s[k].bid <= left[j].bid
    {
      assert left[j] == rest[if j < i then j else j + 1];
    }
  }

  // Sorts without fixing the order of equal bids.
  method SortUnstable(bids: seq<BidProposal>) returns (s: seq<BidProposal>)
    ensures multiset(s) == multiset(bids) && Ascending(s)
  {
    s := [];
    var rest := bids;
    while rest != []
      invariant multiset(s) + multiset(rest) == multiset(bids)
      invariant Ascending(s) && Below(s, rest)
      decreases |rest|
    {
      ghost var k := LowestExists(rest);
      var i :| 0 <= i < |rest| && Lowest(rest, i);
      MovesOne(s, rest, i);
      StaysAbove(s, rest, i);
      s, rest := s + [rest[i]], rest[..i] + rest[i + 1..];
    }
  }

  // What may come out: a lowest bid, paid the lowest of the others, or its own
  // when there is no other.
  ghost predicate Chosen(bids: multiset<BidProposal>, r: ChosenBid) {
    && r.bid in bids
    && (forall b :: b in bids ==> r.bid.bid <= b.bid)
    && var others := bids - multiset{r.bid};
       if others == multiset{} then r.price == r.bid.bid
       else (exists b :: b in others && b.bid == r.price) && (forall b :: b in others ==> r.price <= b.bid)
  }

  lemma AboveFirst(s: seq<BidProposal>)
    requires Ascending(s) && s != []
    ensures forall b :: b in multiset(s) ==> s[0].bid <= b.bid
  {
    forall b | b in multiset(s) ensures s[0].bid <= b.bid {
      assert b in s;
    }
  }

  lemma FirstIsChosen(s: seq<BidProposal>)
    requires Ascending(s) && s != []
    ensures Chosen(multiset(s), ChosenBid(s[0], if |s| == 1 then s[0].bid else s[1].bid))
  {
    var rest := s[1..];
    assert s == [s[0]] + rest;
    assert multiset(s) - multiset{s[0]} == multiset(rest);
    AboveFirst(s);
    if |s| > 1 {
      assert rest[0] in multiset(rest);
      AboveFirst(rest);
    }
  }

  method Auction(bids: seq<BidProposal>) returns (r: Option<ChosenBid>)
    ensures r.None? <==> bids == []
    ensures r.Some? ==> Chosen(multiset(bids), r.value)
  {
    var sorted := SortUnstable(bids);
    if |sorted| == 0 {
      assert |multiset(bids)| == 0;
      return None;
    }
    FirstIsChosen(sorted);
    if |sorted| == 1 {
      return Some(ChosenBid(sorted[0], sorted[0].bid));
    }
    return Some(ChosenBid(sorted[0], sorted[1].bid));
  }

  /** Whatever order the proposals come in and however ties fall, the winning
      bid and the price are the same. */
  lemma PriceIsFixed(bids: multiset<BidProposal>, r: ChosenBid, r': ChosenBid)
    requires Chosen(bids, r) && Chosen(bids, r')
    ensures r.bid.bid == r'.bid.bid && r.price == r'.price
    ensures r.bid.bid <= r.price
  {
    if r.bid != r'.bid {
      // Each is the second of the other.
      assert r'.bid in bids - multiset{r.bid};
      assert r.bid in bids - multiset{r'.bid};
    }
  }

  // ---- bidding ----

  // What a node earns whose cost is `cost`.
  function Gain(me: NodeId, cost: real, r: ChosenBid): real {
    if r.bid.nodeId == me then r.price - cost else 0.0
  }

  // What may come out when the node bids against the others.
  ghost predicate Against(others: multiset<BidProposal>, me: NodeId, id: nat, bid: real, r: ChosenBid) {
    Chosen(others + multiset{BidProposal(me, id, bid)}, r)
  }

  // Among these competitors no bid earns more than the true cost, however the
  // ties of either auction fall.
  ghost predicate TruthIsBest(others: multiset<BidProposal>, me: NodeId, id: nat) {
    forall cost, bid, honest, other ::
      Against(others, me, id, cost, honest) && Against(others, me, id, bid, other) ==>
        Gain(me, cost, other) <= Gain(me, cost, honest)
  }

  // With competitors, a node gets paid the lowest of their bids when it wins.
  lemma PaidTheOthers(others: multiset<BidProposal>, me: NodeId, id: nat, bid: real, r: ChosenBid, low: BidProposal)
    requires forall b :: b in others ==> b.nodeId != me
    requires low in others && forall b :: b in others ==> low.bid <= b.bid
    requires Against(others, me, id, bid, r)
    ensures r.bid.nodeId == me ==> r.price == low.bid && bid <= low.bid
    ensures r.bid.nodeId != me ==> low.bid <= bid
  {
    var own := BidProposal(me, id, bid);
    var all := others + multiset{own};
    assert own in all && low in all;
    if r.bid.nodeId == me {
      assert r.bid == own;
      assert all - multiset{own} == others;
    } else {
      assert r.bid in others;
    }
  }

  lemma {:induction false} LowestOf(bids: multiset<BidProposal>) returns (low: BidProposal)
    requires bids != multiset{}
    ensures low in bids && forall b :: b in bids ==> low.bid <= b.bid
    decreases |bids|
  {
    low :| low in bids;
    var rest := bids - multiset{low};
    assert forall b :: b in bids ==> b == low || b in rest;
    if rest != multiset{} {
      var other := LowestOf(rest);
      if other.bid < low.bid {
        low := other;
      }
    }
  }

  /** Bidding the true cost is the best a node can do exactly when it has a
      competitor; alone it is paid whatever it asks. */
  lemma TruthIsBestIff(others: multiset<BidProposal>, me: NodeId, id: nat)
    requires forall b :: b in others ==> b.nodeId != me
    ensures TruthIsBest(others, me, id) <==> others != multiset{}
  {
    if others == multiset{} {
      var honest, greedy := ChosenBid(BidProposal(me, id, 1.0), 1.0), ChosenBid(BidProposal(me, id, 2.0), 2.0);
      FirstIsChosen([honest.bid]);
      FirstIsChosen([greedy.bid]);
      assert others + multiset{honest.bid} == multiset([honest.bid]);
      assert others + multiset{greedy.bid} == multiset([greedy.bid]);
      assert Against(others, me, id, 1.0, honest) && Against(others, me, id, 2.0, greedy);
      assert Gain(me, 1.0, honest) < Gain(me, 1.0, greedy);
    } else {
      var low := LowestOf(others);
      forall cost, bid, honest, other |
        Against(others, me, id, cost, honest) && Against(others, me, id, bid, other)
        ensures Gain(me, cost, other) <= Gain(me, cost, honest)
      {
        PaidTheOthers(others, me, id, cost, honest, low);
        PaidTheOthers(others, me, id, bid, other, low);
      }
    }
  }
}
