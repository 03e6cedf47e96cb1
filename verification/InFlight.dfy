/** The limit on bids per second: two counters, one for even and one for odd
    seconds, each put back to zero by a request of the other kind. */
module InFlight {
  import opened Basics

  const WRAP: nat := 0x1_0000_0000

  // A 32-bit counter.
  newtype Counter = x: int | 0 <= x < 0x1_0000_0000

  function Increment(c: Counter): (r: Counter)
    ensures r as int == (c as int + 1) % 0x1_0000_0000
  {
    if c == 0xFFFF_FFFF then 0 else c + 1
  }

  class Limiter {
    var even: Counter
    var odd: Counter
    const size: nat

    constructor (size: nat)
      ensures even == 0 && odd == 0 && this.size == size
    {
      even, odd, this.size := 0, 0, size;
    }

    method CheckInFlight(second: nat) returns (allowed: bool)
      modifies this
      ensures State(even, odd) == After(old(State(even, odd)), second)
      ensures allowed == Allows(old(State(even, odd)), second, size)
    {
      var inc;
      if second % 2 == 0 {
        inc := even;
        even, odd := Increment(even), 0;
      } else {
        inc := odd;
        odd, even := Increment(odd), 0;
      }
      allowed := inc as int <= size;
    }
  }

  datatype State = State(even: Counter, odd: Counter)

  const START := State(0, 0)

  function After(s: State, second: nat): State {
    if second % 2 == 0 then State(Increment(s.even), 0) else State(0, Increment(s.odd))
  }

  function Counted(s: State, second: nat): Counter {
    if second % 2 == 0 then s.even else s.odd
  }

  predicate Allows(s: State, second: nat, size: nat) {
    Counted(s, second) as int <= size
  }

  // ---- traces ----

  // The state after the first k requests of a trace of seconds.
  ghost function Reached(trace: seq<nat>, k: nat): State
    requires k <= |trace|
  {
    if k == 0 then START else After(Reached(trace, k - 1), trace[k - 1])
  }

  ghost predicate Allowed(trace: seq<nat>, k: nat, size: nat)
    requires k < |trace|
  {
    Allows(Reached(trace, k), trace[k], size)
  }

  // Requests from i up to k, all in seconds of one parity.
  ghost predicate SameParity(trace: seq<nat>, i: nat, k: nat)
    requires i <= k <= |trace|
  {
    forall j :: i <= j < k ==> trace[j] % 2 == trace[i] % 2
  }

  // A run of one parity starts at i: it is the first request or the one before
  // was of the other parity.
  ghost predicate Starts(trace: seq<nat>, i: nat)
    requires i < |trace|
  {
    i == 0 || trace[i - 1] % 2 != trace[i] % 2
  }

  lemma ResidueNext(n: nat)
    ensures (n % WRAP + 1) % WRAP == (n + 1) % WRAP
  {
  }

  // In a run the counter of its parity counts the run's requests, modulo the
  // width of the counter.
  lemma {:induction false} CountsRun(trace: seq<nat>, i: nat, k: nat)
    requires i < |trace| && i <= k <= |trace| && Starts(trace, i) && SameParity(trace, i, k)
    ensures Counted(Reached(trace, k), trace[i]) as int == (k - i) % WRAP
    decreases k
  {
    if k > i {
      CountsRun(trace, i, k - 1);
      assert trace[k - 1] % 2 == trace[i] % 2;
      ResidueNext(k - 1 - i);
    }
  }

  /** The request that comes n-th after the start of its run is let through
      exactly when n, modulo the width of the counter, is at most the limit. */
  lemma AllowedIff(trace: seq<nat>, i: nat, k: nat, size: nat)
    requires i <= k < |trace| && Starts(trace, i) && SameParity(trace, i, k + 1)
    ensures Allowed(trace, k, size) <==> (k - i) % WRAP <= size
  {
    CountsRun(trace, i, k);
    assert trace[k] % 2 == trace[i] % 2;
  }

  // How many of the requests from i up to k are let through.
  ghost function Through(trace: seq<nat>, i: nat, k: nat, size: nat): nat
    requires i <= k <= |trace|
    decreases k - i
  {
    if i == k then 0 else Through(trace, i, k - 1, size) + if Allowed(trace, k - 1, size) then 1 else 0
  }

  // n requests in a row of residues; those at most `size` are let through.
  function LetThrough(n: nat, size: nat): nat {
    n / WRAP * Min(size + 1, WRAP) + Min(n % WRAP, size + 1)
  }

  lemma LetThroughNext(n: nat, size: nat)
    ensures LetThrough(n + 1, size) == LetThrough(n, size) + if n % WRAP <= size then 1 else 0
  {
    if (n + 1) % WRAP == 0 {
      assert n % WRAP == WRAP - 1 && (n + 1) / WRAP == n / WRAP + 1;
    } else {
      assert (n + 1) % WRAP == n % WRAP + 1 && (n + 1) / WRAP == n / WRAP;
    }
  }

  lemma {:induction false} RunThrough(trace: seq<nat>, i: nat, k: nat, size: nat)
    requires i < |trace| && i <= k <= |trace| && Starts(trace, i) && SameParity(trace, i, k)
    ensures Through(trace, i, k, size) == LetThrough(k - i, size)
    decreases k
  {
    if k > i {
      RunThrough(trace, i, k - 1, size);
      AllowedIff(trace, i, k - 1, size);
      LetThroughNext(k - 1 - i, size);
    }
  }

  // ---- bounds ----

  lemma {:induction false} LetThroughGrows(m: nat, d: nat, size: nat)
    ensures LetThrough(m, size) <= LetThrough(m + d, size)
    decreases d
  {
    if d > 0 {
      LetThroughGrows(m, d - 1, size);
      LetThroughNext(m + d - 1, size);
    }
  }

  lemma LetThroughWraps(m: nat, size: nat)
    ensures LetThrough(m + WRAP, size) <= LetThrough(m, size) + size + 1
  {
    assert (m + WRAP) % WRAP == m % WRAP && (m + WRAP) / WRAP == m / WRAP + 1;
  }

  // How many full widths of the counter d requests need.
  function Rounds(d: nat): nat {
    (d + WRAP - 1) / WRAP
  }

  // At most so many are let through in that many widths of the counter.
  function Bound(rounds: nat, size: nat): nat {
    rounds * (size + 1)
  }

  lemma RoundsMore(d: nat, size: nat)
    requires WRAP <= d
    ensures Bound(Rounds(d), size) == Bound(Rounds(d - WRAP), size) + size + 1
  {
    assert Rounds(d) == Rounds(d - WRAP) + 1;
    assert (Rounds(d - WRAP) + 1) * (size + 1) == Rounds(d - WRAP) * (size + 1) + (size + 1);
  }

  lemma RoundsFew(d: nat, size: nat)
    requires 0 < d <= WRAP
    ensures Bound(Rounds(d), size) == size + 1
  {
    assert Rounds(d) == 1;
  }

  lemma {:induction false} LetThroughBound(m: nat, d: nat, size: nat)
    ensures LetThrough(m + d, size) <= LetThrough(m, size) + Bound(Rounds(d), size)
    decreases d
  {
    if 0 < d <= WRAP {
      RoundsFew(d, size);
      LetThroughGrows(m + d, WRAP - d, size);
      LetThroughWraps(m, size);
    } else if d > WRAP {
      RoundsMore(d, size);
      LetThroughBound(m, d - WRAP, size);
      LetThroughWraps(m + d - WRAP, size);
    }
  }

  // Where the run that request i belongs to starts.
  lemma {:induction false} RunStart(trace: seq<nat>, i: nat) returns (start: nat)
    requires i < |trace|
    ensures start <= i && Starts(trace, start) && SameParity(trace, start, i + 1)
    decreases i
  {
    if Starts(trace, i) {
      start := i;
    } else {
      start := RunStart(trace, i - 1);
      assert trace[i - 1] % 2 == trace[start] % 2;
    }
  }

  lemma {:induction false} ThroughSplits(trace: seq<nat>, i: nat, j: nat, k: nat, size: nat)
    requires i <= j <= k <= |trace|
    ensures Through(trace, i, k, size) == Through(trace, i, j, size) + Through(trace, j, k, size)
    decreases k
  {
    if j < k {
      ThroughSplits(trace, i, j, k - 1, size);
    }
  }

  /** Of requests in a row whose seconds are of one parity, one more than the
      limit is let through at most, for every 2^32 of them. */
  lemma SameParityBound(trace: seq<nat>, i: nat, k: nat, size: nat)
    requires i <= k <= |trace| && SameParity(trace, i, k)
    ensures Through(trace, i, k, size) <= Bound(Rounds(k - i), size)
    ensures k - i <= WRAP ==> Through(trace, i, k, size) <= size + 1
  {
    if i < k {
      var start := RunStart(trace, i);
      assert trace[i] % 2 == trace[start] % 2;
      RunThrough(trace, start, k, size);
      RunThrough(trace, start, i, size);
      ThroughSplits(trace, start, i, k, size);
      LetThroughBound(i - start, k - i, size);
      if k - i <= WRAP {
        RoundsFew(k - i, size);
      }
    }
  }

  ghost predicate NonDecreasing(trace: seq<nat>) {
    forall i, j :: 0 <= i < j < |trace| ==> trace[i] <= trace[j]
  }

  // How many of the first k requests came in the second, and were let through.
  ghost function InSecond(trace: seq<nat>, k: nat, second: nat): nat
    requires k <= |trace|
  {
    if k == 0 then 0 else InSecond(trace, k - 1, second) + if trace[k - 1] == second then 1 else 0
  }

  ghost function ThroughInSecond(trace: seq<nat>, k: nat, second: nat, size: nat): nat
    requires k <= |trace|
  {
    if k == 0 then 0
    else
      ThroughInSecond(trace, k - 1, second, size)
      + if trace[k - 1] == second && Allowed(trace, k - 1, size) then 1 else 0
  }

  // With a clock that never goes back, the requests of a second come in a row.
  lemma {:induction false} SecondIsStretch(trace: seq<nat>, k: nat, second: nat, size: nat) returns (i: nat, j: nat)
    requires NonDecreasing(trace) && k <= |trace|
    ensures i <= j <= k && forall l :: i <= l < j ==> trace[l] == second
    ensures j < k ==> second < trace[k - 1]
    ensures j - i == InSecond(trace, k, second) && Through(trace, i, j, size) == ThroughInSecond(trace, k, second, size)
    decreases k
  {
    if k == 0 {
      i, j := 0, 0;
    } else {
      i, j := SecondIsStretch(trace, k - 1, second, size);
      if trace[k - 1] == second {
        j := k;
      } else if trace[k - 1] < second {
        i, j := k, k;
      }
    }
  }

  /** In any one second one more than the limit is let through at most, for every
      2^32 requests of that second. */
  lemma SecondBound(trace: seq<nat>, second: nat, size: nat)
    requires NonDecreasing(trace)
    ensures ThroughInSecond(trace, |trace|, second, size) <= Bound(Rounds(InSecond(trace, |trace|, second)), size)
    ensures InSecond(trace, |trace|, second) <= WRAP ==> ThroughInSecond(trace, |trace|, second, size) <= size + 1
  {
    var i, j := SecondIsStretch(trace, |trace|, second, size);
    SameParityBound(trace, i, j, size);
  }
}
