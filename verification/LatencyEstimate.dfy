/** Latency accumulated along a path and the worst case derived from it.
    Times are in milliseconds, sizes in bytes. The square root is a parameter:
    any function that squares back to its argument. */
module LatencyEstimate {
  ghost predicate IsRoot(root: real -> real) {
    forall x :: 0.0 <= x ==> 0.0 <= root(x) && root(x) * root(x) == x
  }

  lemma Product(a: real, b: real, p: real)
    requires 0.0 < a && 0.0 < b && p == a * b
    ensures 0.0 < p
  {
  }

  lemma SquaresGrow(r: real, u: real)
    requires 0.0 <= r < u
    ensures r * r < u * u
  {
    Product(u - r, u, (u - r) * u);
    assert (u - r) * u == u * u - r * u;
    assert 0.0 <= r * (u - r);
    assert r * (u - r) == r * u - r * r;
  }

  lemma RootOfZero(root: real -> real)
    requires IsRoot(root)
    ensures root(0.0) == 0.0
  {
    var r := root(0.0);
    assert 0.0 <= r && r * r == 0.0;
    if 0.0 < r {
      Product(r, r, 0.0);
    }
  }

  function SumOfSquares(a: real, b: real): real {
    a * a + b * b
  }

  datatype Latency = Latency(median: real, average: real, interquantileRange: real, packetLoss: real) {
    // The standard deviation a normal distribution with this range would have.
    function Deviation(): real {
      interquantileRange / 1.349
    }

    predicate Sane() {
      0.0 <= median && 0.0 <= interquantileRange
    }
  }

  datatype AccumulatedLatency = AccumulatedLatency(
    median: real,
    average: real,
    medianUncertainty: real,
    packetLoss: real,
    bandwidth: real)
  {
    function Accumulate(root: real -> real, latency: Latency, rate: real): AccumulatedLatency {
      AccumulatedLatency(
        median + latency.median,
        average + latency.average,
        root(SumOfSquares(latency.Deviation(), medianUncertainty)),
        packetLoss * latency.packetLoss,
        if rate < bandwidth then rate else bandwidth)
    }

    // The one-way latency the worst case is computed from.
    function Worst(): real {
      median + medianUncertainty
    }

    // The default accumulator and everything built on it.
    predicate Lossless() {
      0.0 <= median && 0.0 <= medianUncertainty && packetLoss == 0.0
    }
  }

  // 10 gigabytes per second.
  const FRESH := AccumulatedLatency(0.0, 0.0, 0.0, 0.0, 10000000000.0)

  // The floating-point values a division of non-negative numbers can give.
  datatype Float = Finite(value: real) | PosInf | NaN {
    // Every comparison with NaN is false.
    predicate LessThan(other: Float) {
      match this
      case NaN => false
      case PosInf => false
      case Finite(x) => other.PosInf? || (other.Finite? && x < other.value)
    }

    predicate NonNegative() {
      Finite? ==> 0.0 <= value
    }

    function Over(other: Float): (r: Float)
      requires NonNegative() && other.NonNegative()
      ensures r.NonNegative()
    {
      if NaN? || other.NaN? then NaN
      else if PosInf? then (if other.PosInf? then NaN else PosInf)
      else if other.PosInf? then Finite(0.0)
      else if other.value == 0.0 then (if value == 0.0 then NaN else PosInf)
      else Finite(value / other.value)
    }

    function Times(factor: real): (r: Float)
      requires NonNegative() && 0.0 < factor
      ensures r.NonNegative()
    {
      if Finite? then Finite(value * factor) else this
    }

    function Add(amount: real): (r: Float)
      requires NonNegative() && 0.0 <= amount
      ensures r.NonNegative()
    {
      if Finite? then Finite(value + amount) else this
    }
  }

  const MSS := 1460.0
  const MAX_WINDOW := 33.0
  const TIMEOUT := 20.0

  function Min(a: real, b: real): real {
    if a < b then a else b
  }

  // What a segment costs in time when some are lost.
  function LossCost(root: real -> real, rtt: real, loss: real): (r: real)
    requires 0.0 <= rtt && 0.0 <= loss
    requires 0.0 <= root(6.0 * loss / 8.0) && 0.0 <= root(loss * 4.0 / 3.0)
    ensures 0.0 <= r
  {
    var retry := TIMEOUT * Min(1.0, 3.0 * root(6.0 * loss / 8.0)) * loss * (1.0 + 32.0 * loss * loss);
    assert 0.0 <= retry by {
      var cap := Min(1.0, 3.0 * root(6.0 * loss / 8.0));
      assert 0.0 <= TIMEOUT * cap;
      assert 0.0 <= TIMEOUT * cap * loss;
      assert 0.0 <= loss * loss;
    }
    assert 0.0 <= root(loss * 4.0 / 3.0) * rtt;
    root(loss * 4.0 / 3.0) * rtt + retry
  }

  // The rate is limited by the window and by the loss.
  function TransferAt(size: real, rtt: real, cost: real): (r: Float)
    requires 0.0 <= size && 0.0 <= rtt && 0.0 <= cost
    ensures r.NonNegative()
  {
    var byWindow := Finite(Min(size / MSS, MAX_WINDOW)).Over(Finite(rtt));
    var byLoss := Finite(1.0).Over(Finite(cost));
    var rate := (if byWindow.LessThan(byLoss) then byWindow else byLoss).Times(MSS);
    Finite(size).Over(rate)
  }

  // An estimate of the time to transfer `size` bytes over TCP.
  function TcpLatency(root: real -> real, oneWay: real, loss: real, size: real): Float
    requires 0.0 <= oneWay && 0.0 <= loss && 0.0 <= size
    requires 0.0 <= root(6.0 * loss / 8.0) && 0.0 <= root(loss * 4.0 / 3.0)
  {
    var rtt := 2.0 * oneWay;
    TransferAt(size, rtt, LossCost(root, rtt, loss)).Add(1.5 * rtt).Times(1.3)
  }

  // A transfer that fits the largest window, 33 segments of 1460 bytes, takes one
  // round trip; beyond it the time grows with the size.
  function Rounds(size: real): real {
    if size <= 48180.0 then 1.0 else size / 48180.0
  }

  function ClosedForm(worst: real, size: real): real {
    2.6 * worst * (Rounds(size) + 1.5)
  }

  // The estimate, from the time that the transfer takes.
  lemma EstimateFrom(root: real -> real, oneWay: real, loss: real, size: real, time: real)
    requires 0.0 <= oneWay && 0.0 <= loss && 0.0 <= size
    requires 0.0 <= root(6.0 * loss / 8.0) && 0.0 <= root(loss * 4.0 / 3.0)
    requires TransferAt(size, 2.0 * oneWay, LossCost(root, 2.0 * oneWay, loss)) == Finite(time)
    ensures TcpLatency(root, oneWay, loss, size) == Finite(1.3 * (time + 3.0 * oneWay))
  {
  }

  lemma NoLossCost(root: real -> real, rtt: real)
    requires IsRoot(root) && 0.0 <= rtt
    ensures 0.0 <= root(6.0 * 0.0 / 8.0) && 0.0 <= root(0.0 * 4.0 / 3.0)
    ensures LossCost(root, rtt, 0.0) == 0.0
  {
    RootOfZero(root);
  }

  lemma TransferWithoutLoss(size: real, rtt: real)
    requires 0.0 < size && 0.0 <= rtt
    ensures TransferAt(size, rtt, 0.0) == Finite(rtt * Rounds(size))
  {
    if 0.0 < rtt {
      WindowedTransfer(size, rtt);
    }
  }

  lemma ClosedFormIs(oneWay: real, size: real, time: real)
    requires time == 2.0 * oneWay * Rounds(size)
    ensures 1.3 * (time + 3.0 * oneWay) == ClosedForm(oneWay, size)
  {
    var r := Rounds(size);
    assert 2.6 * oneWay * (r + 1.5) == 2.6 * oneWay * r + 2.6 * oneWay * 1.5;
    assert 2.6 * oneWay * r == 1.3 * (2.0 * oneWay * r);
  }

  /** Without loss the estimate is linear in the one-way latency. */
  lemma LosslessEstimate(root: real -> real, oneWay: real, size: real)
    requires IsRoot(root) && 0.0 <= oneWay && 0.0 < size
    ensures 0.0 <= root(6.0 * 0.0 / 8.0) && 0.0 <= root(0.0 * 4.0 / 3.0)
    ensures TcpLatency(root, oneWay, 0.0, size) == Finite(ClosedForm(oneWay, size))
  {
    var time := 2.0 * oneWay * Rounds(size);
    NoLossCost(root, 2.0 * oneWay);
    TransferWithoutLoss(size, 2.0 * oneWay);
    EstimateFrom(root, oneWay, 0.0, size, time);
    ClosedFormIs(oneWay, size, time);
  }

  lemma WindowedTransfer(size: real, rtt: real)
    requires 0.0 < size && 0.0 < rtt
    ensures var window := Min(size / MSS, MAX_WINDOW);
      var rate := window / rtt * MSS;
      0.0 < window / rtt && 0.0 < rate && size / rate == rtt * Rounds(size)
  {
    var window := Min(size / MSS, MAX_WINDOW);
    var rate := window / rtt * MSS;
    assert 0.0 < window;
    assert 0.0 < window / rtt;
    assert rate * rtt == window * MSS by {
      assert window / rtt * rtt == window;
    }
    var x := rtt * Rounds(size);
    assert rate * x == window * MSS * Rounds(size);
    assert window * MSS * Rounds(size) == size;
    assert size / rate == x by {
      assert rate * x == size;
      assert rate * x / rate == x;
    }
  }

  /** With nothing to send the estimate is not a number, unless the latency is
      zero; no comparison with it ever prunes. */
  lemma EmptyTransfer(root: real -> real, oneWay: real)
    requires IsRoot(root) && 0.0 <= oneWay
    ensures 0.0 <= root(6.0 * 0.0 / 8.0) && 0.0 <= root(0.0 * 4.0 / 3.0)
    ensures TcpLatency(root, oneWay, 0.0, 0.0) == if oneWay == 0.0 then Finite(0.0) else NaN
  {
    NoLossCost(root, 2.0 * oneWay);
  }

  lemma RootAtLeast(root: real -> real, a: real, u: real)
    requires IsRoot(root) && 0.0 <= u
    ensures 0.0 <= root(SumOfSquares(a, u)) && u <= root(SumOfSquares(a, u))
  {
    assert 0.0 <= a * a && 0.0 <= u * u;
    var r := root(SumOfSquares(a, u));
    assert 0.0 <= r && r * r == SumOfSquares(a, u);
    if r < u {
      SquaresGrow(r, u);
    }
  }

  /** One more hop keeps the loss at zero and never lowers the worst case. */
  lemma AccumulateGrows(root: real -> real, acc: AccumulatedLatency, hop: Latency, rate: real)
    requires IsRoot(root) && acc.Lossless() && hop.Sane()
    ensures acc.Accumulate(root, hop, rate).Lossless()
    ensures acc.Worst() <= acc.Accumulate(root, hop, rate).Worst()
  {
    RootAtLeast(root, hop.Deviation(), acc.medianUncertainty);
    assert acc.packetLoss * hop.packetLoss == 0.0 * hop.packetLoss == 0.0;
  }

  /** A hop whose latency does not vary adds its median to the worst case when
      nothing varied before. */
  lemma SteadyHop(root: real -> real, acc: AccumulatedLatency, hop: Latency, rate: real, next: AccumulatedLatency)
    requires IsRoot(root) && acc.Lossless() && hop.Sane() && next == acc.Accumulate(root, hop, rate)
    requires hop.interquantileRange == 0.0
    ensures next.Lossless() && acc.median + hop.median <= next.Worst()
    ensures acc.medianUncertainty == 0.0 ==> next.Worst() == acc.median + hop.median
  {
    AccumulateGrows(root, acc, hop, rate);
    assert hop.Deviation() == 0.0;
    if acc.medianUncertainty == 0.0 {
      assert SumOfSquares(hop.Deviation(), acc.medianUncertainty) == 0.0;
      RootOfZero(root);
    }
  }

  lemma ClosedFormOfZero(worst: real, size: real)
    requires worst == 0.0
    ensures ClosedForm(worst, size) == 0.0
  {
  }

  // ---- accumulating ----

  /** One more hop adds its median and its average, and its range, taken as that
      of a normal distribution, adds in quadrature; the rate is the lesser one. */
  lemma AccumulateIs(root: real -> real, acc: AccumulatedLatency, hop: Latency, rate: real)
    requires IsRoot(root)
    ensures var next := acc.Accumulate(root, hop, rate);
      && next.median == acc.median + hop.median
      && next.average == acc.average + hop.average
      && 0.0 <= next.medianUncertainty
      && Square(1.349 * next.medianUncertainty)
         == Square(1.349 * acc.medianUncertainty) + Square(hop.interquantileRange)
      && next.packetLoss == acc.packetLoss * hop.packetLoss
      && next.bandwidth <= acc.bandwidth && next.bandwidth <= rate
      && (next.bandwidth == acc.bandwidth || next.bandwidth == rate)
  {
    var d, u := hop.Deviation(), acc.medianUncertainty;
    var sum := SumOfSquares(d, u);
    assert 0.0 <= d * d && 0.0 <= u * u;
    assert root(sum) * root(sum) == sum;
    assert hop.interquantileRange == 1.349 * d;
    Scaled(root(sum));
    Scaled(u);
    Scaled(d);
  }

  function Square(x: real): real {
    x * x
  }

  lemma Scaled(x: real)
    ensures Square(1.349 * x) == 1.819801 * (x * x)
  {
  }

  // A square has one root that is not negative.
  lemma SquareOnce(a: real, b: real)
    requires 0.0 <= a && 0.0 <= b && Square(a) == Square(b)
    ensures a == b
  {
    if a < b {
      SquaresGrow(a, b);
    } else if b < a {
      SquaresGrow(b, a);
    }
  }

  // ---- with loss ----

  function Max(a: real, b: real): real {
    if a < b then b else a
  }

  // What the loss adds to a round trip for every segment.
  function RetryTime(third: real, loss: real): real {
    20.0 * Min(1.0, 3.0 * third) * loss * (1.0 + 32.0 * loss * loss)
  }

  lemma Quotient(size: real, rate: real, time: real)
    requires 0.0 < rate && rate * time == size
    ensures size / rate == time
  {
    assert rate * time / rate == time;
  }

  lemma Regroups(a: real, b: real, c: real)
    ensures a * b * c == a * (b * c) && a * (b * c) == b * (a * c)
  {
  }

  lemma Grows(x: real, y: real, k: real)
    requires 0.0 < k && x < y
    ensures x * k < y * k
  {
    Product(y - x, k, (y - x) * k);
    assert (y - x) * k == y * k - x * k;
  }

  lemma Cancels(x: real, y: real, k: real)
    requires 0.0 < k && y * k <= x * k
    ensures y <= x
  {
    if x < y {
      Grows(x, y, k);
    }
  }

  lemma Inverts(size: real, cost: real)
    requires 0.0 < size && 0.0 < cost
    ensures 0.0 < 1.0 / cost && size / (1.0 / cost * MSS) == size * cost / 1460.0
  {
    var c, time := 1.0 / cost, size * cost / 1460.0;
    assert c * cost == 1.0;
    assert 0.0 < c;
    assert MSS * time == size * cost;
    Regroups(c, MSS, time);
    Regroups(c, size, cost);
    assert size * (c * cost) == size;
    Quotient(size, c * MSS, time);
  }

  // The smaller rate takes the longer time.
  lemma Slower(a: real, b: real, x: real, y: real)
    requires 0.0 < a <= b && 0.0 <= x && a * x == b * y
    ensures y <= x
  {
    assert 0.0 <= (b - a) * x && (b - a) * x == b * x - a * x;
    assert b * x == x * b && b * y == y * b;
    Cancels(x, y, b);
  }

  lemma RetryIsPositive(third: real, loss: real)
    requires 0.0 < third && 0.0 < loss
    ensures 0.0 < RetryTime(third, loss)
  {
    var cap, more := Min(1.0, 3.0 * third), 1.0 + 32.0 * loss * loss;
    Product(loss, loss, loss * loss);
    Product(cap, loss, cap * loss);
    Product(cap * loss, more, cap * loss * more);
    assert RetryTime(third, loss) == 20.0 * (cap * loss * more);
  }

  lemma TransferBy(size: real, rate: real, time: real)
    requires 0.0 < rate && size / (rate * MSS) == time && 0.0 < size
    ensures rate * MSS * time == size && 0.0 <= time
  {
    assert size / (rate * MSS) * (rate * MSS) == size;
  }

  // The transfer at the lesser of the two rates, one by the window and one by
  // what a segment costs.
  lemma TransferTime(size: real, rtt: real, cost: real)
    requires 0.0 < size && 0.0 <= rtt && 0.0 < cost
    ensures TransferAt(size, rtt, cost) == Finite(Max(rtt * Rounds(size), size * cost / 1460.0))
  {
    Inverts(size, cost);
    var byCost := 1.0 / cost;
    assert 0.0 < size * cost;
    if 0.0 < rtt {
      WindowedTransfer(size, rtt);
      var byWindow := Min(size / MSS, MAX_WINDOW) / rtt;
      Faster(size, byWindow, byCost, rtt * Rounds(size), size * cost / 1460.0);
    } else {
      assert Max(0.0, size * cost / 1460.0) == size * cost / 1460.0;
    }
  }

  lemma Faster(size: real, a: real, b: real, x: real, y: real)
    requires 0.0 < a && 0.0 < b && 0.0 < size
    requires size / (a * MSS) == x && size / (b * MSS) == y
    ensures a <= b ==> y <= x
    ensures b <= a ==> x <= y
  {
    TransferBy(size, a, x);
    TransferBy(size, b, y);
    if a <= b {
      Slower(a * MSS, b * MSS, x, y);
    }
    if b <= a {
      Slower(b * MSS, a * MSS, y, x);
    }
  }

  lemma RootsAre(root: real -> real, loss: real, half: real, third: real)
    requires IsRoot(root) && 0.0 < loss
    requires 0.0 <= half && half * half == loss * 4.0 / 3.0
    requires 0.0 <= third && third * third == 6.0 * loss / 8.0
    ensures root(loss * 4.0 / 3.0) == half && root(6.0 * loss / 8.0) == third && 0.0 < third
  {
    SquareOnce(half, root(loss * 4.0 / 3.0));
    SquareOnce(third, root(6.0 * loss / 8.0));
    if third == 0.0 {
      RootOfZero(root);
    }
  }

  lemma LossCostIs(root: real -> real, rtt: real, loss: real, half: real, third: real)
    requires 0.0 <= rtt && 0.0 < loss && 0.0 < third && 0.0 <= half
    requires root(loss * 4.0 / 3.0) == half && root(6.0 * loss / 8.0) == third
    ensures LossCost(root, rtt, loss) == half * rtt + RetryTime(third, loss)
    ensures 0.0 < LossCost(root, rtt, loss)
  {
    RetryIsPositive(third, loss);
    assert 0.0 <= half * rtt;
  }

  /** With loss the transfer takes as long as the window or the loss makes it,
      whichever is longer. The two roots are given by their squares. */
  lemma LossyEstimate(root: real -> real, oneWay: real, loss: real, size: real, half: real, third: real, cost: real)
    requires IsRoot(root) && 0.0 <= oneWay && 0.0 < loss && 0.0 < size
    requires 0.0 <= half && half * half == loss * 4.0 / 3.0
    requires 0.0 <= third && third * third == 6.0 * loss / 8.0
    requires cost == half * (2.0 * oneWay) + RetryTime(third, loss)
    ensures 0.0 <= root(6.0 * loss / 8.0) && 0.0 <= root(loss * 4.0 / 3.0)
    ensures TcpLatency(root, oneWay, loss, size) ==
            Finite(1.3 * (Max(2.0 * oneWay * Rounds(size), size * cost / 1460.0) + 3.0 * oneWay))
  {
    RootsAre(root, loss, half, third);
    LossCostIs(root, 2.0 * oneWay, loss, half, third);
    TransferTime(size, 2.0 * oneWay, cost);
    EstimateFrom(root, oneWay, loss, size, Max(2.0 * oneWay * Rounds(size), size * cost / 1460.0));
  }
}
