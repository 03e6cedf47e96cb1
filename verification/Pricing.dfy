/** The quadratic price of a bid: what running the function costs on top of the
    reservations that are still to end. */
module Pricing {
  import opened Model
  import opened Lifecycle
  import NodeService

  // A reservation's share of its node's CPU and the whole seconds it has left.
  datatype Pending = Pending(share: real, seconds: nat)

  // CPU-seconds still to be used by the reservations.
  function Utilisation(ps: seq<Pending>): real
    decreases |ps|
  {
    if ps == [] then 0.0
    else Utilisation(ps[..|ps| - 1]) + ps[|ps| - 1].share * (ps[|ps| - 1].seconds as real)
  }

  function Quote(price: real, aa: real, bb: real, share: real, utilisation: real, duration: real): real {
    price * share * (2.0 * aa * utilisation + (aa * share + bb) * duration)
  }

  // ---- the cost the price stands for ----

  // The CPU reserved during second k.
  ghost function LoadAt(ps: seq<Pending>, k: nat): real
    decreases |ps|
  {
    if ps == [] then 0.0
    else LoadAt(ps[..|ps| - 1], k) + if k < ps[|ps| - 1].seconds then ps[|ps| - 1].share else 0.0
  }

  // What a second costs, by the load.
  ghost function Quadratic(aa: real, bb: real): real -> real {
    u => aa * u * u + bb * u
  }

  ghost function Marginal(rate: real -> real, u: real, share: real): real {
    rate(u + share) - rate(u)
  }

  // What the first n seconds cost more with the share on top.
  ghost function WholeSeconds(rate: real -> real, ps: seq<Pending>, share: real, n: nat): real {
    if n == 0 then 0.0
    else WholeSeconds(rate, ps, share, n - 1) + Marginal(rate, LoadAt(ps, n - 1), share)
  }

  // The last second counts for the fraction of it that is used.
  ghost function ExtraCost(rate: real -> real, ps: seq<Pending>, share: real, duration: real): real
    requires 0.0 <= duration
  {
    var n := duration.Floor;
    WholeSeconds(rate, ps, share, n) + (duration - n as real) * Marginal(rate, LoadAt(ps, n), share)
  }

  ghost function Excess(seconds: nat, duration: real): real {
    if duration < seconds as real then seconds as real - duration else 0.0
  }

  // CPU-seconds the reservations use after the duration is over.
  ghost function Overrun(ps: seq<Pending>, duration: real): real
    decreases |ps|
  {
    if ps == [] then 0.0
    else Overrun(ps[..|ps| - 1], duration) + ps[|ps| - 1].share * Excess(ps[|ps| - 1].seconds, duration)
  }

  // ---- sums swapped ----

  ghost function LoadOver(ps: seq<Pending>, n: nat): real {
    if n == 0 then 0.0 else LoadOver(ps, n - 1) + LoadAt(ps, n - 1)
  }

  // CPU-seconds used within the duration, second by second.
  ghost function LoadWithin(ps: seq<Pending>, duration: real): real
    requires 0.0 <= duration
  {
    var n := duration.Floor;
    LoadOver(ps, n) + (duration - n as real) * LoadAt(ps, n)
  }

  // A name for products, under which they are compared as they stand.
  ghost function Times(a: real, b: real): real {
    a * b
  }

  lemma Distributes(k: real, a: real, b: real)
    ensures k * (a + b) == k * a + k * b
  {
  }

  lemma Splits(k: real, sum: real, a: real, b: real)
    requires sum == a + b
    ensures k * sum == k * a + k * b
  {
  }

  lemma Scales(k: real, c: real, part: real, load: real, scaled: real)
    requires scaled == part * load
    ensures k * scaled + c * part == part * (k * load + c * 1.0)
  {
    assert k * scaled == part * (k * load);
    Distributes(part, k * load, c);
  }

  // A cost that depends linearly on CPU-seconds and on seconds.
  ghost predicate Linear(cost: (real, real) -> real) {
    && (forall l, t, m, s, a, b :: AddsAt(cost, l, t, m, s, a, b))
    && (forall part, l, a :: ScalesAt(cost, part, l, a))
  }

  ghost predicate AddsAt(cost: (real, real) -> real, l: real, t: real, m: real, s: real, a: real, b: real) {
    a == l + m && b == t + s ==> cost(a, b) == cost(l, t) + cost(m, s)
  }

  ghost predicate ScalesAt(cost: (real, real) -> real, part: real, l: real, a: real) {
    a == part * l ==> cost(a, part) == part * cost(l, 1.0)
  }

  ghost predicate IsMarginal(cost: (real, real) -> real, rate: real -> real, share: real) {
    forall u :: Marginal(rate, u, share) == cost(u, 1.0)
  }

  lemma {:induction false} WholeSecondsIs(cost: (real, real) -> real, rate: real -> real, ps: seq<Pending>, share: real,
                                          n: nat)
    requires Linear(cost) && IsMarginal(cost, rate, share)
    ensures WholeSeconds(rate, ps, share, n) == cost(LoadOver(ps, n), n as real)
  {
    if n == 0 {
      assert AddsAt(cost, 0.0, 0.0, 0.0, 0.0, 0.0, 0.0);
    } else {
      WholeSecondsIs(cost, rate, ps, share, n - 1);
      assert AddsAt(cost, LoadOver(ps, n - 1), (n - 1) as real, LoadAt(ps, n - 1), 1.0, LoadOver(ps, n), n as real);
    }
  }

  lemma AddPart(cost: (real, real) -> real, load: real, time: real, part: real, u: real, marginal: real, sum: real,
                total: real)
    requires Linear(cost) && marginal == cost(u, 1.0) && total == time + part && sum == load + part * u
    ensures cost(load, time) + part * marginal == cost(sum, total)
  {
    var more := part * u;
    assert ScalesAt(cost, part, u, more);
    assert AddsAt(cost, load, time, more, part, sum, total);
  }

  lemma ExtraCostIs(cost: (real, real) -> real, rate: real -> real, ps: seq<Pending>, share: real, duration: real)
    requires Linear(cost) && IsMarginal(cost, rate, share) && 0.0 <= duration
    ensures ExtraCost(rate, ps, share, duration) == cost(LoadWithin(ps, duration), duration)
  {
    var n := duration.Floor;
    WholeSecondsIs(cost, rate, ps, share, n);
    var u := LoadAt(ps, n);
    AddPart(cost, LoadOver(ps, n), n as real, duration - n as real, u, Marginal(rate, u, share),
        LoadWithin(ps, duration), duration);
  }

  lemma LinearQuote(cost: (real, real) -> real, rate: real -> real, ps: seq<Pending>, share: real, duration: real)
    requires Linear(cost) && IsMarginal(cost, rate, share) && 0.0 <= duration
    ensures cost(Utilisation(ps), duration) == ExtraCost(rate, ps, share, duration) + cost(Overrun(ps, duration), 0.0)
  {
    ExtraCostIs(cost, rate, ps, share, duration);
    LoadWithinIs(ps, duration);
    assert AddsAt(cost, LoadWithin(ps, duration), duration, Overrun(ps, duration), 0.0, Utilisation(ps), duration);
  }

  ghost function Coefficients(k: real, c: real): (real, real) -> real {
    (load, time) => k * load + c * time
  }

  lemma CoefficientsAreLinear(k: real, c: real)
    ensures Linear(Coefficients(k, c))
  {
    var cost := Coefficients(k, c);
    forall l, t, m, s, a, b ensures AddsAt(cost, l, t, m, s, a, b) {
      if a == l + m && b == t + s {
        Splits(k, a, l, m);
        Splits(c, b, t, s);
      }
    }
    forall part, l, a ensures ScalesAt(cost, part, l, a) {
      if a == part * l {
        Scales(k, c, part, l, a);
      }
    }
  }

  lemma Associates(a: real, b: real, c: real)
    ensures a * b * c == a * (b * c)
  {
  }

  lemma Commutes(a: real, b: real)
    ensures a * b == b * a
  {
  }

  lemma SumSquared(u: real, v: real, share: real)
    requires v == u + share
    ensures v * v == u * u + (u * share + u * share) + share * share
  {
    Splits(v, v, u, share);
    Commutes(v, u);
    Splits(u, v, u, share);
    Commutes(v, share);
    Splits(share, v, u, share);
    Commutes(share, u);
  }

  // The square term grows by aa * (2 u share + share^2).
  lemma SquareGrows(aa: real, u: real, v: real, share: real)
    requires v == u + share
    ensures aa * v * v == aa * u * u + 2.0 * aa * share * u + share * (aa * share)
  {
    SumSquared(u, v, share);
    Associates(aa, v, v);
    Associates(aa, u, u);
    var twice := u * share + u * share;
    Splits(aa, v * v, u * u + twice, share * share);
    Splits(aa, u * u + twice, u * u, twice);
    Twice(aa, u, share);
    Swaps(aa, share, share);
  }

  lemma Twice(aa: real, u: real, share: real)
    ensures aa * (u * share + u * share) == 2.0 * aa * share * u
  {
    Distributes(aa, u * share, u * share);
    Swaps(aa, u, share);
    Commutes(u, aa * share);
    Associates(2.0, aa, share);
    Associates(2.0, aa * share, u);
  }

  lemma Swaps(a: real, b: real, c: real)
    ensures a * (b * c) == b * (a * c)
  {
    Associates(a, b, c);
    Commutes(a, b);
    Associates(b, a, c);
  }

  lemma Expands(aa: real, bb: real, u: real, share: real, k: real, c: real)
    requires k == 2.0 * aa * share && c == share * (aa * share + bb)
    ensures Marginal(Quadratic(aa, bb), u, share) == Coefficients(k, c)(u, 1.0)
  {
    var v := u + share;
    SquareGrows(aa, u, v, share);
    Splits(bb, v, u, share);
    Commutes(bb, share);
    Distributes(share, aa * share, bb);
    assert Quadratic(aa, bb)(v) == aa * v * v + bb * v;
    assert Quadratic(aa, bb)(u) == aa * u * u + bb * u;
  }

  lemma QuadraticIsMarginal(aa: real, bb: real, share: real, k: real, c: real)
    requires k == 2.0 * aa * share && c == share * (aa * share + bb)
    ensures IsMarginal(Coefficients(k, c), Quadratic(aa, bb), share)
  {
    forall u ensures Marginal(Quadratic(aa, bb), u, share) == Coefficients(k, c)(u, 1.0) {
      Expands(aa, bb, u, share, k, c);
    }
  }

  // The seconds of a reservation that lie within the first n.
  function Counted(n: nat, seconds: nat): nat {
    if n < seconds then n else seconds
  }

  // What a reservation uses within the first n seconds.
  ghost function Within(p: Pending): nat -> real {
    (n: nat) => p.share * Counted(n, p.seconds) as real
  }

  // What it uses of second n.
  ghost function Uses(p: Pending, n: nat): real {
    if n < p.seconds then p.share else 0.0
  }

  ghost predicate AddsUp(within: nat -> real, p: Pending) {
    within(0) == 0.0 && forall n: nat :: within(n + 1) == within(n) + Uses(p, n)
  }

  lemma WithinAddsUp(p: Pending)
    ensures AddsUp(Within(p), p)
  {
    assert Counted(0, p.seconds) == 0;
    forall n: nat ensures Within(p)(n + 1) == Within(p)(n) + Uses(p, n) {
      if n < p.seconds {
        Splits(p.share, (n + 1) as real, n as real, 1.0);
      }
    }
  }

  lemma LastLoad(ps: seq<Pending>, p: Pending, n: nat)
    ensures LoadAt(ps + [p], n) == LoadAt(ps, n) + Uses(p, n)
  {
    assert (ps + [p])[..|ps|] == ps;
  }

  lemma {:induction false} LoadOverSplits(ps: seq<Pending>, p: Pending, within: nat -> real, n: nat)
    requires AddsUp(within, p)
    ensures LoadOver(ps + [p], n) == LoadOver(ps, n) + within(n)
  {
    if n > 0 {
      LoadOverSplits(ps, p, within, n - 1);
      LastLoad(ps, p, n - 1);
      assert within(n - 1 + 1) == within(n - 1) + Uses(p, n - 1);
    }
  }

  lemma LoadWithinParts(ps: seq<Pending>, duration: real, n: nat, part: real)
    requires 0.0 <= duration && n == duration.Floor && part == duration - n as real
    ensures LoadWithin(ps, duration) == LoadOver(ps, n) + Times(part, LoadAt(ps, n))
  {
  }

  lemma TimesSplits(k: real, sum: real, a: real, b: real)
    requires sum == a + b
    ensures Times(k, sum) == Times(k, a) + Times(k, b)
  {
  }

  lemma LoadWithinSplits(ps: seq<Pending>, p: Pending, within: nat -> real, duration: real, n: nat, part: real)
    requires AddsUp(within, p)
    requires 0.0 <= duration && n == duration.Floor && part == duration - n as real
    ensures LoadWithin(ps + [p], duration) == LoadWithin(ps, duration) + within(n) + Times(part, Uses(p, n))
  {
    LastLoad(ps, p, n);
    LoadOverSplits(ps, p, within, n);
    LoadWithinParts(ps, duration, n, part);
    LoadWithinParts(ps + [p], duration, n, part);
    TimesSplits(part, LoadAt(ps + [p], n), LoadAt(ps, n), Uses(p, n));
  }

  lemma LoadWithinGrows(ps: seq<Pending>, p: Pending, duration: real)
    requires 0.0 <= duration
    ensures LoadWithin(ps + [p], duration) + Times(p.share, Excess(p.seconds, duration))
         == LoadWithin(ps, duration) + Times(p.share, p.seconds as real)
  {
    WithinAddsUp(p);
    var n := duration.Floor;
    LoadWithinSplits(ps, p, Within(p), duration, n, duration - n as real);
    LastReservation(p, duration);
  }

  // Summing over the seconds or over the reservations makes no difference.
  lemma {:induction false} LoadWithinIs(ps: seq<Pending>, duration: real)
    requires 0.0 <= duration
    ensures LoadWithin(ps, duration) + Overrun(ps, duration) == Utilisation(ps)
    decreases |ps|
  {
    if ps == [] {
      NoLoad(duration.Floor);
    } else {
      var front, p := ps[..|ps| - 1], ps[|ps| - 1];
      assert ps == front + [p];
      LoadWithinIs(front, duration);
      LoadWithinGrows(front, p, duration);
    }
  }

  lemma {:induction false} NoLoad(n: nat)
    ensures LoadOver([], n) == 0.0
  {
    if n > 0 {
      NoLoad(n - 1);
    }
  }

  lemma LastReservation(p: Pending, duration: real)
    requires 0.0 <= duration
    ensures var n := duration.Floor;
      Within(p)(n) + Times(duration - n as real, Uses(p, n)) + Times(p.share, Excess(p.seconds, duration))
      == Times(p.share, p.seconds as real)
  {
    var n := duration.Floor;
    var part := duration - n as real;
    if n < p.seconds {
      assert duration <= p.seconds as real;
      Commutes(part, p.share);
      Splits(p.share, duration, n as real, part);
      Splits(p.share, p.seconds as real, duration, p.seconds as real - duration);
    }
  }

  lemma QuoteIs(price: real, aa: real, bb: real, share: real, utilisation: real, duration: real, k: real, c: real)
    requires k == 2.0 * aa * share && c == share * (aa * share + bb)
    ensures Quote(price, aa, bb, share, utilisation, duration) == price * Coefficients(k, c)(utilisation, duration)
  {
    var load, time := 2.0 * aa * utilisation, (aa * share + bb) * duration;
    Distributes(share, load, time);
    assert share * load == k * utilisation;
    assert share * time == c * duration;
    assert price * share * (load + time) == price * (share * (load + time));
  }

  // The quadratic rate has a linear marginal cost, and the quote is its price.
  lemma QuadraticCost(price: real, aa: real, bb: real, share: real, utilisation: real, duration: real, over: real)
    returns (cost: (real, real) -> real)
    ensures Linear(cost) && IsMarginal(cost, Quadratic(aa, bb), share)
    ensures Quote(price, aa, bb, share, utilisation, duration) == Times(price, cost(utilisation, duration))
    ensures cost(over, 0.0) == Times(2.0 * aa * share, over)
  {
    var k, c := 2.0 * aa * share, share * (aa * share + bb);
    cost := Coefficients(k, c);
    CoefficientsAreLinear(k, c);
    QuadraticIsMarginal(aa, bb, share, k, c);
    QuoteIs(price, aa, bb, share, utilisation, duration, k, c);
  }

  // What the share adds to the bill, and what the overrun would add.
  ghost function CoveringPrice(price: real, aa: real, bb: real, ps: seq<Pending>, share: real, duration: real): real
    requires 0.0 <= duration
  {
    Times(price, ExtraCost(Quadratic(aa, bb), ps, share, duration) + Times(2.0 * aa * share, Overrun(ps, duration)))
  }

  lemma LinearIsCovering(q: real, cost: (real, real) -> real, price: real, aa: real, bb: real, ps: seq<Pending>,
                         share: real, duration: real)
    requires Linear(cost) && IsMarginal(cost, Quadratic(aa, bb), share) && 0.0 <= duration
    requires q == Times(price, cost(Utilisation(ps), duration))
    requires cost(Overrun(ps, duration), 0.0) == Times(2.0 * aa * share, Overrun(ps, duration))
    ensures q == CoveringPrice(price, aa, bb, ps, share, duration)
  {
    LinearQuote(cost, Quadratic(aa, bb), ps, share, duration);
  }

  /** A quote is the extra cost, at the electricity price, of the function on top
      of the pending reservations, plus what the overrun of those reservations
      would add. */
  lemma QuoteIsExtraCost(price: real, aa: real, bb: real, ps: seq<Pending>, share: real, duration: real)
    requires 0.0 <= duration
    ensures Quote(price, aa, bb, share, Utilisation(ps), duration) == CoveringPrice(price, aa, bb, ps, share, duration)
  {
    var used, over := Utilisation(ps), Overrun(ps, duration);
    var cost := QuadraticCost(price, aa, bb, share, used, duration, over);
    LinearIsCovering(Quote(price, aa, bb, share, used, duration), cost, price, aa, bb, ps, share, duration);
  }

  lemma Positive(a: real, b: real)
    requires 0.0 < a && 0.0 < b
    ensures 0.0 < a * b
  {
  }

  lemma {:induction false} OverrunIs(ps: seq<Pending>, duration: real)
    requires forall i :: 0 <= i < |ps| ==> 0.0 <= ps[i].share
    ensures 0.0 <= Overrun(ps, duration)
    ensures Overrun(ps, duration) == 0.0 <==>
      forall i :: 0 <= i < |ps| ==> ps[i].share == 0.0 || ps[i].seconds as real <= duration
    decreases |ps|
  {
    if ps != [] {
      var front, p := ps[..|ps| - 1], ps[|ps| - 1];
      OverrunIs(front, duration);
      if p.share > 0.0 && duration < p.seconds as real {
        Positive(p.share, p.seconds as real - duration);
      } else {
        assert p.share * Excess(p.seconds, duration) == 0.0;
        assert forall i :: 0 <= i < |front| ==> ps[i] == front[i];
      }
    }
  }

  /** No quote is below the extra cost, and it is the extra cost exactly when
      every reservation that uses CPU ends within the duration. */
  lemma QuoteCovers(price: real, aa: real, bb: real, ps: seq<Pending>, share: real, duration: real)
    requires 0.0 < price && 0.0 < aa && 0.0 < share && 0.0 <= duration
    requires forall i :: 0 <= i < |ps| ==> 0.0 <= ps[i].share
    ensures price * ExtraCost(Quadratic(aa, bb), ps, share, duration)
         <= Quote(price, aa, bb, share, Utilisation(ps), duration)
    ensures (Quote(price, aa, bb, share, Utilisation(ps), duration) ==
             price * ExtraCost(Quadratic(aa, bb), ps, share, duration)) <==>
      forall i :: 0 <= i < |ps| ==> ps[i].share == 0.0 || ps[i].seconds as real <= duration
  {
    QuoteIsExtraCost(price, aa, bb, ps, share, duration);
    OverrunIs(ps, duration);
    var extra, over := ExtraCost(Quadratic(aa, bb), ps, share, duration), Overrun(ps, duration);
    Distributes(price, extra, 2.0 * aa * share * over);
    if over > 0.0 {
      Positive(aa, share);
      Positive(2.0 * aa * share, over);
      Positive(price, 2.0 * aa * share * over);
    }
  }

  // ---- computing it ----

  const LOWEST_BID := 0.000001

  // The whole seconds until a time in milliseconds.
  function SecondsUntil(timestamp: real, now: real): (s: nat)
    ensures now < timestamp ==> 1000.0 * s as real <= timestamp - now < 1000.0 * (s + 1) as real
    ensures timestamp <= now ==> s == 0
  {
    if now < timestamp then ((timestamp - now) / 1000.0).Floor else 0
  }

  function Share(available: Ledger, node: K8sNode, sla: Sla): real
    requires node in available && available[node].cpu != 0.0
  {
    sla.cpu / available[node].cpu
  }

  function PendingOf(available: Ledger, events: seq<NodeService.UnprovisionEvent>, now: real): seq<Pending>
    requires forall n :: n in available ==> available[n].cpu != 0.0
    requires forall i :: 0 <= i < |events| ==> events[i].node in available
  {
    seq(|events|, i requires 0 <= i < |events| =>
      Pending(Share(available, events[i].node, events[i].sla), SecondsUntil(events[i].timestamp, now)))
  }

  // The share of the node's CPU that an SLA asks for.
  ghost predicate IsShare(available: Ledger, node: K8sNode, sla: Sla, share: real) {
    node in available && share * available[node].cpu == sla.cpu
  }

  // The reservation that an event ends: its share and the whole seconds it has left.
  ghost predicate IsPending(available: Ledger, event: NodeService.UnprovisionEvent, now: real, p: Pending) {
    && IsShare(available, event.node, event.sla, p.share)
    && (if now < event.timestamp
        then 1000.0 * p.seconds as real <= event.timestamp - now < 1000.0 * (p.seconds + 1) as real
        else p.seconds == 0)
  }

  ghost predicate ArePending(available: Ledger, events: seq<NodeService.UnprovisionEvent>, now: real,
                             ps: seq<Pending>) {
    |ps| == |events| && forall i :: 0 <= i < |ps| ==> IsPending(available, events[i], now, ps[i])
  }

  lemma ShareIs(available: Ledger, node: K8sNode, sla: Sla)
    requires node in available && available[node].cpu != 0.0
    ensures IsShare(available, node, sla, Share(available, node, sla))
  {
  }

  lemma PendingAre(available: Ledger, events: seq<NodeService.UnprovisionEvent>, now: real)
    requires forall n :: n in available ==> available[n].cpu != 0.0
    requires forall i :: 0 <= i < |events| ==> events[i].node in available
    ensures ArePending(available, events, now, PendingOf(available, events, now))
  {
    var ps := PendingOf(available, events, now);
    forall i | 0 <= i < |ps| ensures IsPending(available, events[i], now, ps[i]) {
      ShareIs(available, events[i].node, events[i].sla);
    }
  }

  lemma SameQuotient(a: real, b: real, c: real)
    requires c != 0.0 && a * c == b * c
    ensures a == b
  {
    assert a * c / c == a && b * c / c == b;
  }

  // There is only one such share, and only one such number of seconds.
  lemma PendingOnce(available: Ledger, event: NodeService.UnprovisionEvent, now: real, p: Pending, q: Pending)
    requires event.node in available && available[event.node].cpu != 0.0
    requires IsPending(available, event, now, p) && IsPending(available, event, now, q)
    ensures p == q
  {
    SameQuotient(p.share, q.share, available[event.node].cpu);
  }

  /** The events determine the reservations that the price is computed from. */
  lemma ArePendingOnce(available: Ledger, events: seq<NodeService.UnprovisionEvent>, now: real,
                       ps: seq<Pending>, qs: seq<Pending>)
    requires forall n :: n in available ==> available[n].cpu != 0.0
    requires ArePending(available, events, now, ps) && ArePending(available, events, now, qs)
    ensures ps == qs
  {
    forall i | 0 <= i < |ps| ensures ps[i] == qs[i] {
      assert IsPending(available, events[i], now, ps[i]) && IsPending(available, events[i], now, qs[i]);
      PendingOnce(available, events[i], now, ps[i], qs[i]);
    }
  }

  // No room on any node; an unknown node among the events; a bid so low that
  // the source's assertion on it fails; a bid.
  datatype ComputedBid = NoRoom | Fails | TooLow | Computed(node: K8sNode, bid: real)

  // What running the function on the node adds to the electricity bill, the
  // overrun of the pending reservations included.
  ghost predicate IsFairPrice(available: Ledger, events: seq<NodeService.UnprovisionEvent>, now: real,
                              aa: real, bb: real, electricityPrice: real, node: K8sNode, sla: Sla, bid: real)
    requires 0.0 <= sla.duration
  {
    exists ps, share :: FairWith(available, events, now, aa, bb, electricityPrice, node, sla, bid, ps, share)
  }

  ghost predicate FairWith(available: Ledger, events: seq<NodeService.UnprovisionEvent>, now: real,
                           aa: real, bb: real, electricityPrice: real, node: K8sNode, sla: Sla, bid: real,
                           ps: seq<Pending>, share: real)
    requires 0.0 <= sla.duration
  {
    && ArePending(available, events, now, ps) && IsShare(available, node, sla, share)
    && bid == CoveringPrice(electricityPrice, aa, bb, ps, share, sla.duration / 1000.0)
  }

  /** The pricing part of a node's auction service. */
  class Auction {
    const resources: NodeService.ResourceTracking
    const functions: NodeService.Function

    constructor (functions: NodeService.Function)
      ensures this.functions == functions && this.resources == functions.resources
    {
      this.functions := functions;
      this.resources := functions.resources;
    }

    ghost predicate Valid()
      reads resources
    {
      && (forall i :: 0 <= i < |resources.nodes| ==> resources.KeyExists(resources.nodes[i]))
      && (forall n :: n in resources.resourcesAvailable ==> resources.resourcesAvailable[n].cpu != 0.0)
    }

    // The price on a node, given the reservations in the queue now.
    ghost predicate Prices(node: K8sNode, sla: Sla, now: real, aa: real, bb: real, electricityPrice: real, bid: real)
      requires 0.0 <= sla.duration
      reads resources, functions.tracking, functions.cron
    {
      IsFairPrice(resources.resourcesAvailable,
                  NodeService.Events(functions.tracking.database, functions.cron.tasks),
                  now, aa, bb, electricityPrice, node, sla, bid)
    }

    // Some reservation is on a node that is not known.
    ghost predicate Stray()
      reads resources, functions.tracking, functions.cron
    {
      var events := NodeService.Events(functions.tracking.database, functions.cron.tasks);
      exists i :: 0 <= i < |events| && !resources.KeyExists(events[i].node)
    }

    // The loop over the pending reservations.
    method SumUtilisation(events: seq<NodeService.UnprovisionEvent>, now: real) returns (r: Option<real>)
      requires Valid()
      ensures r.None? <==> exists i :: 0 <= i < |events| && !resources.KeyExists(events[i].node)
      ensures r.Some? ==> exists ps ::
        ArePending(resources.resourcesAvailable, events, now, ps) && r.value == Utilisation(ps)
    {
      var utilisation := 0.0;
      for i := 0 to |events|
        invariant forall j :: 0 <= j < i ==> resources.KeyExists(events[j].node)
        invariant utilisation == Utilisation(PendingOf(resources.resourcesAvailable, events[..i], now))
      {
        var available := resources.GetAvailable(events[i].node);
        if available.None? {
          return None;
        }
        utilisation := utilisation + events[i].sla.cpu / available.value.cpu * 
          SecondsUntil(events[i].timestamp, now) as real;
        UtilisationGrows(resources.resourcesAvailable, events, now, i);
      }
      assert events[..|events|] == events;
      PendingAre(resources.resourcesAvailable, events, now);
      return Some(utilisation);
    }

    method ComputeBid(sla: Sla, now: real, aa: real, bb: real, electricityPrice: real) returns (r: ComputedBid)
      requires Valid() && 0.0 <= sla.duration
      ensures r.NoRoom? <==> forall i :: 0 <= i < |resources.nodes| ==> !resources.HasRoom(resources.nodes[i], sla)
      ensures r.Fails? <==> !r.NoRoom? && Stray()
      ensures r.Computed? ==>
        && resources.FirstWithRoom(r.node, sla)
        && Prices(r.node, sla, now, aa, bb, electricityPrice, r.bid)
        && 0.000001 < r.bid
      ensures r.TooLow? ==> exists node, bid ::
        && resources.FirstWithRoom(node, sla)
        && Prices(node, sla, now, aa, bb, electricityPrice, bid)
        && bid <= 0.000001
    {
      var found := resources.GetANode(sla);
      if found.None? {
        return NoRoom;
      }
      var node := found.value;
      var events := functions.GetUtilisationVariations();
      var utilisation := SumUtilisation(events, now);
      if utilisation.None? {
        return Fails;
      }
      var share := Share(resources.resourcesAvailable, node, sla);
      var bid := Quote(electricityPrice, aa, bb, share, utilisation.value, sla.duration / 1000.0);
      ghost var ps :| ArePending(resources.resourcesAvailable, events, now, ps) && utilisation.value == Utilisation(ps);
      ShareIs(resources.resourcesAvailable, node, sla);
      QuoteIsExtraCost(electricityPrice, aa, bb, ps, share, sla.duration / 1000.0);
      assert FairWith(resources.resourcesAvailable, events, now, aa, bb, electricityPrice, node, sla, bid, ps, share);
      assert Prices(node, sla, now, aa, bb, electricityPrice, bid);
      if bid <= LOWEST_BID {
        return TooLow;
      }
      return Computed(node, bid);
    }
  }

  lemma UtilisationGrows(available: Ledger, events: seq<NodeService.UnprovisionEvent>, now: real, i: nat)
    requires forall n :: n in available ==> available[n].cpu != 0.0
    requires i < |events| && forall j :: 0 <= j <= i ==> events[j].node in available
    ensures Utilisation(PendingOf(available, events[..i + 1], now))
         == Utilisation(PendingOf(available, events[..i], now))
            + Share(available, events[i].node, events[i].sla) * SecondsUntil(events[i].timestamp, now) as real
  {
    var more := PendingOf(available, events[..i + 1], now);
    assert more[..|more| - 1] == PendingOf(available, events[..i], now);
  }
}
