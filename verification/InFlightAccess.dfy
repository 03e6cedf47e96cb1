/** The limit on bids per second when the two accesses of a request to the
    counters are apart: other requests may come between them. */
module InFlightAccess {
  import opened InFlight

  // A request of a second counts itself, and puts the other counter back to zero.
  datatype Access = Counts(second: nat) | Resets(second: nat)

  function Take(s: State, a: Access): State {
    match a
    case Counts(second) =>
      if second % 2 == 0 then s.(even := Increment(s.even)) else s.(odd := Increment(s.odd))
    case Resets(second) => if second % 2 == 0 then s.(odd := 0) else s.(even := 0)
  }

  ghost function TakeAll(s: State, trace: seq<Access>): State
    decreases |trace|
  {
    if trace == [] then s else Take(TakeAll(s, trace[..|trace| - 1]), trace[|trace| - 1])
  }

  /** With nothing between its accesses a request moves the counters as the
      limiter's method does. */
  lemma TogetherIsAfter(s: State, second: nat)
    ensures TakeAll(s, [Counts(second), Resets(second)]) == After(s, second)
  {
    var both := [Counts(second), Resets(second)];
    var one := [Counts(second)];
    assert both[..1] == one && one[..0] == [];
    assert TakeAll(s, one) == Take(TakeAll(s, []), Counts(second));
    assert TakeAll(s, both) == Take(TakeAll(s, one), Resets(second));
  }

  predicate CountsFor(a: Access, second: nat) {
    a.Counts? && a.second % 2 == second % 2
  }

  // How many requests of the seconds of this parity counted themselves.
  ghost function Requests(trace: seq<Access>, second: nat): nat
    decreases |trace|
  {
    if trace == [] then 0
    else
      var last := trace[|trace| - 1];
      Requests(trace[..|trace| - 1], second) + if CountsFor(last, second) then 1 else 0
  }

  // And how many of them were let through.
  ghost function Through(s: State, trace: seq<Access>, second: nat, size: nat): nat
    decreases |trace|
  {
    if trace == [] then 0
    else
      var before, last := trace[..|trace| - 1], trace[|trace| - 1];
      Through(s, before, second, size)
      + if CountsFor(last, second) && Allows(TakeAll(s, before), second, size) then 1 else 0
  }

  // Nothing puts the counter of these seconds back to zero.
  ghost predicate NoReset(trace: seq<Access>, second: nat) {
    forall a :: a in trace && a.Resets? ==> a.second % 2 == second % 2
  }

  lemma TakeCounts(s: State, a: Access, second: nat)
    requires a.Resets? ==> a.second % 2 == second % 2
    ensures Counted(Take(s, a), second) as int ==
            if CountsFor(a, second) then (Counted(s, second) as int + 1) % WRAP else Counted(s, second) as int
  {
  }

  ghost predicate Tallies(s: State, trace: seq<Access>, second: nat, size: nat, n: nat) {
    && Counted(TakeAll(s, trace), second) as int == n % WRAP
    && LetThrough(n, size) == LetThrough(Counted(s, second) as nat, size) + Through(s, trace, second, size)
  }

  lemma TalliesOn(s: State, trace: seq<Access>, second: nat, size: nat, n: nat)
    requires trace != [] && Tallies(s, trace[..|trace| - 1], second, size, n)
    requires var last := trace[|trace| - 1]; last.Resets? ==> last.second % 2 == second % 2
    ensures Tallies(s, trace, second, size, if CountsFor(trace[|trace| - 1], second) then n + 1 else n)
  {
    var before, last := trace[..|trace| - 1], trace[|trace| - 1];
    TakeCounts(TakeAll(s, before), last, second);
    if CountsFor(last, second) {
      LetThroughNext(n, size);
      ResidueNext(n);
    }
  }

  // The counter counts, and lets through what it lets through.
  lemma {:induction false} ThroughCounts(s: State, trace: seq<Access>, second: nat, size: nat)
    requires NoReset(trace, second)
    ensures Tallies(s, trace, second, size, Counted(s, second) as nat + Requests(trace, second))
    decreases |trace|
  {
    if trace != [] {
      ThroughCounts(s, trace[..|trace| - 1], second, size);
      TalliesOn(s, trace, second, size, Counted(s, second) as nat + Requests(trace[..|trace| - 1], second));
    }
  }

  /** As long as no request of the other parity puts the counter back to zero,
      one more than the limit is let through at most, for every 2^32 requests. */
  lemma BoundBetweenResets(s: State, trace: seq<Access>, second: nat, size: nat)
    requires NoReset(trace, second)
    ensures Through(s, trace, second, size) <= Bound(Rounds(Requests(trace, second)), size)
    ensures Requests(trace, second) <= WRAP ==> Through(s, trace, second, size) <= size + 1
  {
    var c := Counted(s, second) as nat;
    ThroughCounts(s, trace, second, size);
    LetThroughBound(c, Requests(trace, second), size);
    if 0 < Requests(trace, second) <= WRAP {
      RoundsFew(Requests(trace, second), size);
    }
  }

  // ---- a late reset ----

  lemma {:induction false} Joined(s: State, a: seq<Access>, b: seq<Access>, second: nat, size: nat)
    ensures TakeAll(s, a + b) == TakeAll(TakeAll(s, a), b)
    ensures Through(s, a + b, second, size) == Through(s, a, second, size) + Through(TakeAll(s, a), b, second, size)
    decreases |b|
  {
    if b == [] {
      assert a + b == a;
    } else {
      var front := b[..|b| - 1];
      Joined(s, a, front, second, size);
      assert (a + b)[..|a + b| - 1] == a + front;
    }
  }

  function Burst(a: Access, n: nat): seq<Access> {
    seq(n, i => a)
  }

  lemma {:induction false} BurstRequests(a: Access, n: nat, second: nat)
    ensures Requests(Burst(a, n), second) == if CountsFor(a, second) then n else 0
    decreases n
  {
    if n > 0 {
      BurstRequests(a, n - 1, second);
      assert Burst(a, n)[..n - 1] == Burst(a, n - 1);
    }
  }

  // From a counter at zero as many requests as the limit and one are let through.
  lemma BurstThrough(s: State, second: nat, size: nat)
    requires Counted(s, second) == 0 && size < WRAP
    ensures Through(s, Burst(Counts(second), size + 1), second, size) == size + 1
    ensures Counted(TakeAll(s, Burst(Counts(second), size + 1)), second) as int == (size + 1) % WRAP
  {
    BurstRequests(Counts(second), size + 1, second);
    ThroughCounts(s, Burst(Counts(second), size + 1), second, size);
    FromZero(size);
  }

  lemma FromZero(size: nat)
    requires size < WRAP
    ensures LetThrough(0, size) == 0 && LetThrough(size + 1, size) == size + 1
  {
    if size + 1 == WRAP {
      assert (size + 1) / WRAP == 1 && (size + 1) % WRAP == 0;
    } else {
      assert (size + 1) / WRAP == 0 && (size + 1) % WRAP == size + 1;
    }
  }

  // One request of a second counts itself; twice as many as the limit and one
  // come in the next, and it puts their counter back halfway. They put back its
  // counter at the end.
  function LateReset(second: nat, n: nat): seq<Access> {
    [Counts(second)] + Burst(Counts(second + 1), n) + [Resets(second)] + Burst(Counts(second + 1), n)
    + Burst(Resets(second + 1), n + n)
  }

  lemma {:induction false} ResetsLetNothing(s: State, second: nat, n: nat, size: nat)
    ensures Through(s, Burst(Resets(second), n), second, size) == 0
    decreases n
  {
    if n > 0 {
      ResetsLetNothing(s, second, n - 1, size);
      assert Burst(Resets(second), n)[..n - 1] == Burst(Resets(second), n - 1);
    }
  }

  lemma OneCounts(s: State, second: nat, size: nat)
    ensures Through(s, [Counts(second)], second + 1, size) == 0 == Through(s, [Resets(second)], second + 1, size)
    ensures TakeAll(s, [Counts(second)]) == Take(s, Counts(second))
    ensures TakeAll(s, [Resets(second)]) == Take(s, Resets(second))
  {
    assert [Counts(second)][..0] == [] && [Resets(second)][..0] == [];
  }

  lemma ThreeJoined(s: State, a: seq<Access>, b: seq<Access>, c: seq<Access>, second: nat, size: nat)
    ensures TakeAll(s, a + b + c) == TakeAll(TakeAll(TakeAll(s, a), b), c)
    ensures Through(s, a + b + c, second, size) ==
            Through(s, a, second, size) + Through(TakeAll(s, a), b, second, size)
            + Through(TakeAll(TakeAll(s, a), b), c, second, size)
  {
    Joined(s, a, b, second, size);
    Joined(s, a + b, c, second, size);
  }

  // Up to the late reset: the burst is let through, and the counter is at zero.
  lemma UntilReset(second: nat, size: nat, burst: seq<Access>)
    requires size < WRAP && burst == Burst(Counts(second + 1), size + 1)
    ensures Through(START, [Counts(second)] + burst + [Resets(second)], second + 1, size) == size + 1
    ensures Counted(TakeAll(START, [Counts(second)] + burst + [Resets(second)]), second + 1) == 0
  {
    var first, late := [Counts(second)], [Resets(second)];
    OneCounts(START, second, size);
    BurstThrough(TakeAll(START, first), second + 1, size);
    OneCounts(TakeAll(TakeAll(START, first), burst), second, size);
    ThreeJoined(START, first, burst, late, second + 1, size);
  }

  /** A reset that comes late lets through twice as many as the limit and one in
      one second, though no clock goes back and no counter overflows. */
  lemma LateResetDoubles(second: nat, size: nat)
    requires size < WRAP
    ensures Through(START, LateReset(second, size + 1), second + 1, size) == 2 * (size + 1)
  {
    var next, n := second + 1, size + 1;
    var burst, tail := Burst(Counts(next), n), Burst(Resets(next), n + n);
    var before := [Counts(second)] + burst + [Resets(second)];
    UntilReset(second, size, burst);
    BurstThrough(TakeAll(START, before), next, size);
    ResetsLetNothing(TakeAll(TakeAll(START, before), burst), next, n + n, size);
    ThreeJoined(START, before, burst, tail, next, size);
  }
}
