/** Pruning hop by hop loses nothing: the flood reaches a node exactly when the
    whole way to it meets the latency the SLA asks for. */
module Budget {
  import opened Model
  import opened LatencyEstimate
  import opened Network
  import opened Flood

  // ---- the latencies of an overlay ----

  ghost predicate AccumulatesAt(net: Overlay, root: real -> real, acc: AccumulatedLatency, hop: Latency, rate: real) {
    net.accumulate(acc, hop, rate) == acc.Accumulate(root, hop, rate)
  }

  ghost predicate EstimatesAt(worstCase: (AccumulatedLatency, real) -> Float, root: real -> real,
                              acc: AccumulatedLatency, size: real)
    requires IsRoot(root)
  {
    acc.Lossless() && 0.0 <= size ==> worstCase(acc, size) == TcpLatency(root, acc.Worst(), acc.packetLoss, size)
  }

  ghost predicate Estimates(worstCase: (AccumulatedLatency, real) -> Float, root: real -> real)
    requires IsRoot(root)
  {
    forall acc, size {:trigger EstimatesAt(worstCase, root, acc, size)} :: EstimatesAt(worstCase, root, acc, size)
  }

  // All nodes accumulate and estimate alike, and no measured latency is negative.
  ghost predicate Measures(net: Overlay, root: real -> real) {
    && IsRoot(root)
    && (forall acc, hop, rate {:trigger AccumulatesAt(net, root, acc, hop, rate)} ::
        AccumulatesAt(net, root, acc, hop, rate))
    && Estimates(net.worstCase, root)
    && forall u, v :: net.latency(u, v).Some? ==> net.latency(u, v).value.Sane()
  }

  // One more hop keeps the loss at zero and never lowers the worst case.
  ghost predicate GrowsAt(net: Overlay, acc: AccumulatedLatency, u: NodeId, v: NodeId) {
    acc.Lossless() && Extended(net, acc, u, v).Some? ==>
      Extended(net, acc, u, v).value.Lossless() && acc.Worst() <= Extended(net, acc, u, v).value.Worst()
  }

  ghost predicate Grows(net: Overlay) {
    forall acc, u, v {:trigger GrowsAt(net, acc, u, v)} :: GrowsAt(net, acc, u, v)
  }

  lemma MeasuresGrow(net: Overlay, root: real -> real)
    requires Measures(net, root)
    ensures Grows(net)
  {
    forall acc, u, v ensures GrowsAt(net, acc, u, v) {
      if acc.Lossless() && Extended(net, acc, u, v).Some? {
        var hop, rate := net.latency(u, v).value, net.bandwidth(u, v).value;
        assert AccumulatesAt(net, root, acc, hop, rate);
        AccumulateGrows(root, acc, hop, rate);
      }
    }
  }

  lemma WorstCaseIs(net: Overlay, root: real -> real, acc: AccumulatedLatency, size: real)
    requires Measures(net, root) && acc.Lossless() && 0.0 <= size
    ensures net.worstCase(acc, size) ==
            if 0.0 < size then Finite(ClosedForm(acc.Worst(), size))
            else if acc.Worst() == 0.0 then Finite(0.0) else NaN
  {
    assert EstimatesAt(net.worstCase, root, acc, size);
    if 0.0 < size {
      LosslessEstimate(root, acc.Worst(), size);
    } else {
      EmptyTransfer(root, acc.Worst());
    }
  }

  // When a hop is too slow: the closed form exceeds the limit. With nothing to
  // send nothing is, unless there is no latency and the limit is negative.
  predicate TooSlow(sla: Sla, worst: real) {
    if 0.0 < sla.inputMaxSize then sla.latencyMax < ClosedForm(worst, sla.inputMaxSize)
    else worst == 0.0 && sla.latencyMax < 0.0
  }

  /** A hop is pruned exactly when it is too slow by the closed form. */
  lemma PrunesIff(net: Overlay, root: real -> real, sla: Sla, acc: AccumulatedLatency)
    requires Measures(net, root) && acc.Lossless() && 0.0 <= sla.inputMaxSize
    ensures Prunes(net, sla, acc) <==> TooSlow(sla, acc.Worst())
  {
    WorstCaseIs(net, root, acc, sla.inputMaxSize);
  }

  // Pruning goes by the accumulated worst case alone.
  ghost predicate PrunesAt(net: Overlay, sla: Sla, acc: AccumulatedLatency) {
    acc.Lossless() ==> (Prunes(net, sla, acc) <==> TooSlow(sla, acc.Worst()))
  }

  ghost predicate PrunesBy(net: Overlay, sla: Sla) {
    forall acc {:trigger PrunesAt(net, sla, acc)} :: PrunesAt(net, sla, acc)
  }

  lemma MeasuresPrune(net: Overlay, root: real -> real, sla: Sla)
    requires Measures(net, root) && 0.0 <= sla.inputMaxSize
    ensures PrunesBy(net, sla)
  {
    forall acc ensures PrunesAt(net, sla, acc) {
      if acc.Lossless() {
        PrunesIff(net, root, sla, acc);
      }
    }
  }

  lemma ClosedFormGrows(a: real, b: real, size: real)
    requires 0.0 <= a <= b
    ensures ClosedForm(a, size) <= ClosedForm(b, size)
  {
    var factor := Rounds(size) + 1.5;
    assert 0.0 < factor;
    if a < b {
      Product(b - a, factor, (b - a) * factor);
    }
    assert ClosedForm(b, size) - ClosedForm(a, size) == 2.6 * ((b - a) * factor);
  }

  // ---- along a way ----

  // The latency accumulated along a whole walk, if every hop has data.
  function Along(net: Overlay, first: AccumulatedLatency, q: seq<NodeId>): Option<AccumulatedLatency>
    requires q != []
    decreases |q|
  {
    if |q| == 1 then Some(first)
    else
      match Along(net, first, q[..|q| - 1])
      case None => None
      case Some(acc) => Extended(net, acc, q[|q| - 2], q[|q| - 1])
  }

  // No node from index i on errs, every request from there on is answered.
  ghost predicate ClearFrom(net: Overlay, q: seq<NodeId>, i: nat) {
    && (forall j :: i <= j < |q| ==> !net.local(q[j]).Errs?)
    && (forall j :: i <= j < |q| - 1 ==> net.answers(q[j], q[j + 1]))
  }

  // The first m nodes of q have data on every hop and are not over the limit.
  ghost predicate FineAt(net: Overlay, sla: Sla, first: AccumulatedLatency, q: seq<NodeId>, m: nat)
    requires 0 < m <= |q|
  {
    Along(net, first, q[..m]).Some? && !Prunes(net, sla, Along(net, first, q[..m]).value)
  }

  // So do all beginnings of q longer than i.
  ghost predicate FineFrom(net: Overlay, sla: Sla, first: AccumulatedLatency, q: seq<NodeId>, i: nat)
    decreases |q| - i
  {
    i < |q| ==> FineAt(net, sla, first, q, i + 1) && FineFrom(net, sla, first, q, i + 1)
  }

  lemma {:induction false} FineToTheEnd(net: Overlay, sla: Sla, first: AccumulatedLatency, q: seq<NodeId>, i: nat,
                                        m: nat)
    requires i < m <= |q| && FineFrom(net, sla, first, q, i)
    ensures FineAt(net, sla, first, q, m)
    decreases |q| - i
  {
    if i + 1 < m {
      FineToTheEnd(net, sla, first, q, i + 1, m);
    }
  }

  lemma ClearStep(net: Overlay, q: seq<NodeId>, i: nat)
    requires i < |q|
    ensures ClearFrom(net, q, i) <==>
            !net.local(q[i]).Errs? && (i < |q| - 1 ==> net.answers(q[i], q[i + 1])) && ClearFrom(net, q, i + 1)
  {
  }

  lemma NextPrefix(q: seq<NodeId>, k: nat)
    requires 0 < k < |q|
    ensures q[..k] + [q[k]] == q[..k + 1] && Last(q[..k]) == q[k - 1]
    ensures q[..k + 1][..k] == q[..k]
  {
  }

  lemma AlongStep(net: Overlay, sla: Sla, first: AccumulatedLatency, q: seq<NodeId>, k: nat)
    requires 0 < k < |q| && Along(net, first, q[..k]).Some?
    ensures Along(net, first, q[..k + 1]) == Extended(net, Along(net, first, q[..k]).value, q[k - 1], q[k])
    ensures FineAt(net, sla, first, q, k + 1) <==>
            Onward(net, sla, Along(net, first, q[..k]).value, q[k - 1], q[k]).Some?
    ensures FineAt(net, sla, first, q, k + 1) ==>
              Onward(net, sla, Along(net, first, q[..k]).value, q[k - 1], q[k]) == Along(net, first, q[..k + 1])
  {
    NextPrefix(q, k);
  }

  // What the request does at the k-th node of q.
  lemma TravelsStep(net: Overlay, sla: Sla, first: AccumulatedLatency, q: seq<NodeId>, k: nat)
    requires 0 < k < |q| && Along(net, first, q[..k]).Some?
    ensures Travels(net, sla, q[..k], Along(net, first, q[..k]).value, q) <==>
      && !net.local(q[k - 1]).Errs?
      && net.answers(q[k - 1], q[k])
      && FineAt(net, sla, first, q, k + 1)
      && Travels(net, sla, q[..k + 1], Along(net, first, q[..k + 1]).value, q)
  {
    NextPrefix(q, k);
    AlongStep(net, sla, first, q, k);
  }

  lemma {:induction false} TravelsIff(net: Overlay, sla: Sla, first: AccumulatedLatency, q: seq<NodeId>, k: nat)
    requires 0 < k <= |q| && Along(net, first, q[..k]).Some?
    ensures Travels(net, sla, q[..k], Along(net, first, q[..k]).value, q)
            <==> ClearFrom(net, q, k - 1) && FineFrom(net, sla, first, q, k)
    decreases |q| - k
  {
    ClearStep(net, q, k - 1);
    if k < |q| {
      TravelsStep(net, sla, first, q, k);
      if FineAt(net, sla, first, q, k + 1) {
        TravelsIff(net, sla, first, q, k + 1);
      }
    } else {
      assert q[..k] == q;
    }
  }

  lemma PrefixOf(q: seq<NodeId>, m: nat)
    requires m <= |q|
    ensures m < |q| ==> q[..|q| - 1][..m] == q[..m]
    ensures m == |q| ==> q[..m] == q
  {
  }

  lemma {:induction false} AlongGrows(net: Overlay, first: AccumulatedLatency, q: seq<NodeId>, m: nat)
    requires Grows(net) && first.Lossless() && 0 < m <= |q| && Along(net, first, q).Some?
    ensures Along(net, first, q).value.Lossless()
    ensures Along(net, first, q[..m]).Some? && Along(net, first, q[..m]).value.Lossless()
    ensures Along(net, first, q[..m]).value.Worst() <= Along(net, first, q).value.Worst()
    decreases |q|
  {
    PrefixOf(q, m);
    if |q| > 1 {
      var front := q[..|q| - 1];
      AlongGrows(net, first, front, if m < |q| then m else |q| - 1);
      assert GrowsAt(net, Along(net, first, front).value, q[|q| - 2], q[|q| - 1]);
    }
  }

  // The whole way q has data, and its end-to-end worst case is within the limit.
  // With nothing to send and a negative limit only a first hop without any
  // latency is too slow.
  ghost predicate Affordable(net: Overlay, sla: Sla, first: AccumulatedLatency, q: seq<NodeId>)
    requires q != []
  {
    && Along(net, first, q).Some?
    && (1 < |q| ==>
          if 0.0 < sla.inputMaxSize
          then ClosedForm(Along(net, first, q).value.Worst(), sla.inputMaxSize) <= sla.latencyMax
          else
            || 0.0 <= sla.latencyMax
            || (Along(net, first, q[..2]).Some? && Along(net, first, q[..2]).value.Worst() != 0.0))
  }

  // A beginning of an affordable way is not pruned.
  lemma AffordableFine(net: Overlay, sla: Sla, first: AccumulatedLatency, q: seq<NodeId>, m: nat)
    requires Grows(net) && PrunesBy(net, sla) && first.Lossless()
    requires 1 < m <= |q| && Affordable(net, sla, first, q)
    ensures FineAt(net, sla, first, q, m)
  {
    AlongGrows(net, first, q, m);
    var part := Along(net, first, q[..m]).value;
    assert PrunesAt(net, sla, part);
    if 0.0 < sla.inputMaxSize {
      ClosedFormGrows(part.Worst(), Along(net, first, q).value.Worst(), sla.inputMaxSize);
    } else {
      AlongGrows(net, first, q[..m], 2);
      assert q[..m][..2] == q[..2];
    }
  }

  lemma {:induction false} AffordableFineFrom(net: Overlay, sla: Sla, first: AccumulatedLatency, q: seq<NodeId>, i: nat)
    requires Grows(net) && PrunesBy(net, sla) && first.Lossless()
    requires 0 < i && q != [] && Affordable(net, sla, first, q)
    ensures FineFrom(net, sla, first, q, i)
    decreases |q| - i
  {
    if i < |q| {
      AffordableFine(net, sla, first, q, i + 1);
      AffordableFineFrom(net, sla, first, q, i + 1);
    }
  }

  lemma FineAffordable(net: Overlay, sla: Sla, first: AccumulatedLatency, q: seq<NodeId>)
    requires Grows(net) && PrunesBy(net, sla) && first.Lossless()
    requires q != [] && FineFrom(net, sla, first, q, 1)
    ensures Affordable(net, sla, first, q)
  {
    assert q[..|q|] == q;
    if |q| > 1 {
      FineToTheEnd(net, sla, first, q, 1, |q|);
      FineToTheEnd(net, sla, first, q, 1, 2);
      AlongGrows(net, first, q, 2);
      assert PrunesAt(net, sla, Along(net, first, q).value);
      assert PrunesAt(net, sla, Along(net, first, q[..2]).value);
    }
  }

  lemma FineIff(net: Overlay, sla: Sla, first: AccumulatedLatency, q: seq<NodeId>)
    requires Grows(net) && PrunesBy(net, sla) && first.Lossless() && q != []
    ensures FineFrom(net, sla, first, q, 1) <==> Affordable(net, sla, first, q)
  {
    if Affordable(net, sla, first, q) {
      AffordableFineFrom(net, sla, first, q, 1);
    } else if FineFrom(net, sla, first, q, 1) {
      FineAffordable(net, sla, first, q);
    }
  }

  // ---- what accumulates, in terms of the hops ----

  // Every hop of q has data.
  ghost predicate Described(net: Overlay, q: seq<NodeId>) {
    forall i :: 0 <= i < |q| - 1 ==> DescribedAt(net, q[i], q[i + 1])
  }

  ghost predicate DescribedAt(net: Overlay, u: NodeId, v: NodeId) {
    net.latency(u, v).Some? && net.bandwidth(u, v).Some?
  }

  // The last hop of q.
  ghost function Hop(net: Overlay, q: seq<NodeId>): Latency
    requires Described(net, q) && 1 < |q|
  {
    assert DescribedAt(net, q[|q| - 2], q[|q| - 2 + 1]);
    net.latency(q[|q| - 2], q[|q| - 1]).value
  }

  ghost function Rate(net: Overlay, q: seq<NodeId>): real
    requires Described(net, q) && 1 < |q|
  {
    assert DescribedAt(net, q[|q| - 2], q[|q| - 2 + 1]);
    net.bandwidth(q[|q| - 2], q[|q| - 1]).value
  }

  // The medians of the hops, summed up.
  ghost function Medians(net: Overlay, q: seq<NodeId>): real
    requires Described(net, q)
    decreases |q|
  {
    if |q| <= 1 then 0.0 else Medians(net, q[..|q| - 1]) + Hop(net, q).median
  }

  ghost function Averages(net: Overlay, q: seq<NodeId>): real
    requires Described(net, q)
    decreases |q|
  {
    if |q| <= 1 then 0.0 else Averages(net, q[..|q| - 1]) + Hop(net, q).average
  }

  // The squares of their interquantile ranges, summed up.
  ghost function SquaredRanges(net: Overlay, q: seq<NodeId>): real
    requires Described(net, q)
    decreases |q|
  {
    if |q| <= 1 then 0.0
    else SquaredRanges(net, q[..|q| - 1]) + Hop(net, q).interquantileRange * Hop(net, q).interquantileRange
  }

  // The lowest of their rates, ten gigabytes per second at most.
  ghost function LowestRate(net: Overlay, q: seq<NodeId>): real
    requires Described(net, q)
    decreases |q|
  {
    if |q| <= 1 then 10000000000.0
    else if Rate(net, q) < LowestRate(net, q[..|q| - 1]) then Rate(net, q)
    else LowestRate(net, q[..|q| - 1])
  }

  lemma DescribedIff(net: Overlay, q: seq<NodeId>)
    requires 1 < |q|
    ensures Described(net, q) <==> Described(net, q[..|q| - 1]) && DescribedAt(net, q[|q| - 2], q[|q| - 1])
  {
    var front := q[..|q| - 1];
    if Described(net, q) {
      assert DescribedAt(net, q[|q| - 2], q[|q| - 2 + 1]);
      forall i | 0 <= i < |front| - 1 ensures DescribedAt(net, front[i], front[i + 1]) {
        assert DescribedAt(net, q[i], q[i + 1]);
      }
    } else if Described(net, front) && DescribedAt(net, q[|q| - 2], q[|q| - 1]) {
      forall i | 0 <= i < |q| - 1 ensures DescribedAt(net, q[i], q[i + 1]) {
        if i < |q| - 2 {
          assert DescribedAt(net, front[i], front[i + 1]);
        }
      }
    }
  }

  lemma {:induction false} AlongDescribed(net: Overlay, first: AccumulatedLatency, q: seq<NodeId>)
    requires q != []
    ensures Along(net, first, q).Some? <==> Described(net, q)
    decreases |q|
  {
    if |q| > 1 {
      AlongDescribed(net, first, q[..|q| - 1]);
      DescribedIff(net, q);
    }
  }

  // What has accumulated is what the hops sum up to.
  ghost predicate SumsUp(net: Overlay, q: seq<NodeId>, acc: AccumulatedLatency)
    requires Described(net, q)
  {
    && acc.median == Medians(net, q) && acc.average == Averages(net, q)
    && 0.0 <= acc.medianUncertainty && Square(1.349 * acc.medianUncertainty) == SquaredRanges(net, q)
    && acc.bandwidth == LowestRate(net, q)
  }

  lemma SumsUpOn(net: Overlay, root: real -> real, q: seq<NodeId>, acc: AccumulatedLatency)
    requires Measures(net, root) && 1 < |q| && Described(net, q) && Described(net, q[..|q| - 1])
    requires SumsUp(net, q[..|q| - 1], acc)
    ensures Extended(net, acc, q[|q| - 2], q[|q| - 1]).Some?
    ensures SumsUp(net, q, Extended(net, acc, q[|q| - 2], q[|q| - 1]).value)
  {
    var hop, rate := Hop(net, q), Rate(net, q);
    assert AccumulatesAt(net, root, acc, hop, rate);
    AccumulateIs(root, acc, hop, rate);
  }

  /** Along any way on which every hop has data the medians and the averages add
      up, and so do the squares of the ranges; the rate is the lowest. */
  lemma {:induction false} AlongSums(net: Overlay, root: real -> real, first: AccumulatedLatency, q: seq<NodeId>)
    requires Measures(net, root) && q != [] && Along(net, first, q).Some? && first == FRESH
    ensures Described(net, q) && SumsUp(net, q, Along(net, first, q).value)
    decreases |q|
  {
    AlongDescribed(net, first, q);
    if |q| > 1 {
      AlongSums(net, root, first, q[..|q| - 1]);
      SumsUpOn(net, root, q, Along(net, first, q[..|q| - 1]).value);
    }
  }

  // The root of the sum of squares, as a standard deviation.
  ghost predicate IsSpread(net: Overlay, q: seq<NodeId>, spread: real)
    requires Described(net, q)
  {
    0.0 <= spread && (1.349 * spread) * (1.349 * spread) == SquaredRanges(net, q)
  }

  // The way has data, and the estimate for the sum of its latencies is within
  // the limit. With nothing to send and a negative limit only a first hop
  // without any latency is too slow.
  ghost predicate Meets(net: Overlay, sla: Sla, q: seq<NodeId>) {
    && Described(net, q)
    && (1 < |q| ==>
          if 0.0 < sla.inputMaxSize
          then forall spread :: IsSpread(net, q, spread) ==> Within(Medians(net, q) + spread, sla)
          else
            || 0.0 <= sla.latencyMax
            || HasLatency(net, q[0], q[1]))
  }

  ghost predicate Within(worst: real, sla: Sla) {
    2.6 * worst * ((if sla.inputMaxSize <= 48180.0 then 1.0 else sla.inputMaxSize / 48180.0) + 1.5) <= sla.latencyMax
  }

  ghost predicate HasLatency(net: Overlay, u: NodeId, v: NodeId) {
    && net.latency(u, v).Some?
    && (net.latency(u, v).value.median != 0.0 || net.latency(u, v).value.interquantileRange != 0.0)
  }

  lemma SpreadOnce(net: Overlay, q: seq<NodeId>, acc: AccumulatedLatency, spread: real)
    requires Described(net, q) && SumsUp(net, q, acc)
    ensures IsSpread(net, q, spread) <==> spread == acc.medianUncertainty
  {
    if IsSpread(net, q, spread) {
      SquareOnce(1.349 * spread, 1.349 * acc.medianUncertainty);
    }
  }

  lemma FirstHop(net: Overlay, root: real -> real, first: AccumulatedLatency, q: seq<NodeId>)
    requires Measures(net, root) && first == FRESH && 1 < |q| && Described(net, q)
    ensures Along(net, first, q[..2]).Some?
    ensures Along(net, first, q[..2]).value.Worst() != 0.0 <==> HasLatency(net, q[0], q[1])
  {
    var two := q[..2];
    assert two[..1] == [q[0]];
    assert DescribedAt(net, q[0], q[0 + 1]);
    var hop := net.latency(q[0], q[1]).value;
    var rate := net.bandwidth(q[0], q[1]).value;
    assert AccumulatesAt(net, root, first, hop, rate);
    AccumulateIs(root, first, hop, rate);
    FirstSpread(first.Accumulate(root, hop, rate).medianUncertainty, hop.interquantileRange, first.medianUncertainty);
  }

  lemma FirstSpread(u: real, r: real, before: real)
    requires before == 0.0 && 0.0 <= u && Square(1.349 * u) == Square(1.349 * before) + Square(r)
    requires 0.0 <= r
    ensures u != 0.0 <==> r != 0.0
  {
    SquareOnce(1.349 * u, r);
  }

  lemma WithinIs(worst: real, sla: Sla)
    requires 0.0 < sla.inputMaxSize
    ensures Within(worst, sla) <==> ClosedForm(worst, sla.inputMaxSize) <= sla.latencyMax
  {
  }

  lemma SpreadMeets(net: Overlay, sla: Sla, q: seq<NodeId>, acc: AccumulatedLatency)
    requires Described(net, q) && SumsUp(net, q, acc) && 0.0 < sla.inputMaxSize
    ensures (forall spread :: IsSpread(net, q, spread) ==> Within(Medians(net, q) + spread, sla)) <==>
            ClosedForm(acc.Worst(), sla.inputMaxSize) <= sla.latencyMax
  {
    WithinIs(acc.Worst(), sla);
    SpreadOnce(net, q, acc, acc.medianUncertainty);
    forall spread | IsSpread(net, q, spread) ensures Medians(net, q) + spread == acc.Worst() {
      SpreadOnce(net, q, acc, spread);
    }
  }

  lemma AffordableIff(net: Overlay, root: real -> real, sla: Sla, first: AccumulatedLatency, q: seq<NodeId>)
    requires Measures(net, root) && first == FRESH && q != []
    ensures Affordable(net, sla, first, q) <==> Meets(net, sla, q)
  {
    AlongDescribed(net, first, q);
    if Described(net, q) && 1 < |q| {
      FirstHop(net, root, first, q);
      AlongSums(net, root, first, q);
      if 0.0 < sla.inputMaxSize {
        SpreadMeets(net, sla, q, Along(net, first, q).value);
      }
    }
  }

  lemma ReachesIfFine(net: Overlay, sla: Sla, path: seq<NodeId>, acc: AccumulatedLatency, q: seq<NodeId>)
    requires |path| == 1 && path <= q && Walk(net.graph, q)
    ensures Reaches(net, sla, path, acc, q) <==> ClearFrom(net, q, 0) && FineFrom(net, sla, acc, q, 1)
  {
    assert q[..1] == path;
    TravelsIff(net, sla, acc, q, 1);
  }

  lemma ReachesWhen(net: Overlay, sla: Sla, path: seq<NodeId>, acc: AccumulatedLatency, q: seq<NodeId>)
    requires Grows(net) && PrunesBy(net, sla) && acc.Lossless()
    requires |path| == 1 && path <= q && Walk(net.graph, q)
    ensures Reaches(net, sla, path, acc, q) <==> ClearFrom(net, q, 0) && Affordable(net, sla, acc, q)
  {
    ReachesIfFine(net, sla, path, acc, q);
    FineIff(net, sla, acc, q);
  }

  // A request as the market hands it to the first node.
  ghost predicate First(path: seq<NodeId>, acc: AccumulatedLatency) {
    |path| == 1 && acc == FRESH
  }

  lemma FreshIsLossless(path: seq<NodeId>, acc: AccumulatedLatency)
    requires First(path, acc)
    ensures acc.Lossless() && acc.Worst() == 0.0
  {
  }

  lemma ReachesAffordable(net: Overlay, root: real -> real, sla: Sla, path: seq<NodeId>, acc: AccumulatedLatency,
                          q: seq<NodeId>)
    requires Measures(net, root) && 0.0 <= sla.inputMaxSize
    requires First(path, acc) && path <= q && Walk(net.graph, q)
    ensures Reaches(net, sla, path, acc, q) <==> ClearFrom(net, q, 0) && Affordable(net, sla, acc, q)
  {
    MeasuresGrow(net, root);
    MeasuresPrune(net, root, sla);
    FreshIsLossless(path, acc);
    ReachesWhen(net, sla, path, acc, q);
  }

  /** The flood reaches the end of q exactly when nothing on the way fails and
      the end-to-end estimate, written out in terms of the hops, meets the SLA. */
  lemma ReachesIff(net: Overlay, root: real -> real, sla: Sla, path: seq<NodeId>, acc: AccumulatedLatency,
                   q: seq<NodeId>)
    requires Measures(net, root) && 0.0 <= sla.inputMaxSize
    requires First(path, acc) && path <= q && Walk(net.graph, q)
    ensures Reaches(net, sla, path, acc, q) <==> ClearFrom(net, q, 0) && Meets(net, sla, q)
  {
    ReachesAffordable(net, root, sla, path, acc, q);
    AffordableIff(net, root, sla, acc, q);
  }

  // A clear and affordable way leads from the node asked first to the bidder.
  ghost predicate Offered(net: Overlay, sla: Sla, path: seq<NodeId>, acc: AccumulatedLatency, b: BidProposal) {
    && net.local(b.nodeId) == Bids(b.id, b.bid)
    && exists q :: OffersAlong(net, sla, path, acc, q, b)
  }

  ghost predicate OffersAlong(net: Overlay, sla: Sla, path: seq<NodeId>, acc: AccumulatedLatency, q: seq<NodeId>,
                              b: BidProposal) {
    && Walk(net.graph, q) && path <= q && Last(q) == b.nodeId
    && ClearFrom(net, q, 0) && Meets(net, sla, q)
  }

  lemma ReachedIsOffered(net: Overlay, root: real -> real, sla: Sla, path: seq<NodeId>, acc: AccumulatedLatency,
                         b: BidProposal)
    requires Measures(net, root) && 0.0 <= sla.inputMaxSize && First(path, acc)
    ensures (exists q :: Reaches(net, sla, path, acc, q) && Last(q) == b.nodeId) <==>
            (exists q :: OffersAlong(net, sla, path, acc, q, b))
  {
    if q :| Reaches(net, sla, path, acc, q) && Last(q) == b.nodeId {
      ReachesIff(net, root, sla, path, acc, q);
      assert OffersAlong(net, sla, path, acc, q, b);
    }
    if q :| OffersAlong(net, sla, path, acc, q, b) {
      ReachesIff(net, root, sla, path, acc, q);
      assert Reaches(net, sla, path, acc, q);
    }
  }

  /** The flood in one statement: a proposal for each bidding node to which a
      clear and affordable way leads, and no other proposal; no reply at all
      exactly when the first node errs. */
  lemma FloodMeetsTheSla(net: Overlay, root: real -> real, sla: Sla, path: seq<NodeId>, acc: AccumulatedLatency)
    requires Measures(net, root) && 0.0 <= sla.inputMaxSize
    requires First(path, acc) && Askable(net, path)
    ensures Bid(net, sla, path, acc).Failed? <==> net.local(Last(path)).Errs?
    ensures Bid(net, sla, path, acc).Reply? ==>
      && OncePerNode(Bid(net, sla, path, acc).bids)
      && forall b :: b in Bid(net, sla, path, acc).bids <==> Offered(net, sla, path, acc, b)
  {
    FloodIsExact(net, sla, path, acc);
    forall b: BidProposal ensures (exists q :: Reaches(net, sla, path, acc, q) && Last(q) == b.nodeId) <==>
                     (exists q :: OffersAlong(net, sla, path, acc, q, b))
    {
      ReachedIsOffered(net, root, sla, path, acc, b);
    }
  }
}
