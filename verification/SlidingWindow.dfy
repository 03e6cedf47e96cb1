/** Median and quartiles of the last samples: a ring of samples in the order they
    came, and the same samples kept in ascending order. */
module SlidingWindow {
  import opened Model
  import opened Basics

  ghost predicate Ascending(s: seq<real>) {
    forall i, j :: 0 <= i < j < |s| ==> s[i] <= s[j]
  }

  // ---- the ordered list ----

  function Inserted(s: seq<real>, x: real): seq<real>
    decreases |s|
  {
    if s == [] || x <= s[0] then [x] + s else [s[0]] + Inserted(s[1..], x)
  }

  function Removed(s: seq<real>, x: real): seq<real>
    requires x in s
    decreases |s|
  {
    if s[0] == x then s[1..] else [s[0]] + Removed(s[1..], x)
  }

  lemma {:induction false} InsertedContents(s: seq<real>, x: real)
    ensures multiset(Inserted(s, x)) == multiset(s) + multiset{x}
    decreases |s|
  {
    if s == [] || x <= s[0] {
      Contents(x, s);
    } else {
      InsertedContents(s[1..], x);
      Contents(s[0], Inserted(s[1..], x));
      Uncons(s);
    }
  }

  lemma {:induction false} RemovedContents(s: seq<real>, x: real)
    requires x in s
    ensures multiset(Removed(s, x)) == multiset(s) - multiset{x}
    decreases |s|
  {
    Uncons(s);
    if s[0] != x {
      RemovedContents(s[1..], x);
      Contents(s[0], Removed(s[1..], x));
      assert x in multiset(s[1..]);
    }
  }

  ghost predicate Above(s: seq<real>, low: real) {
    forall i :: 0 <= i < |s| ==> low <= s[i]
  }

  lemma AscendingCons(x: real, s: seq<real>)
    ensures Ascending([x] + s) <==> Ascending(s) && Above(s, x)
  {
    var t := [x] + s;
    if Ascending(t) {
      forall i, j | 0 <= i < j < |s| ensures s[i] <= s[j] {
        assert t[i + 1] <= t[j + 1];
      }
      forall i | 0 <= i < |s| ensures x <= s[i] {
        assert t[0] <= t[i + 1];
      }
    }
  }

  lemma {:induction false} InsertedAbove(s: seq<real>, x: real, low: real)
    requires Above(s, low) && low <= x
    ensures Above(Inserted(s, x), low)
    decreases |s|
  {
    if s != [] && x > s[0] {
      InsertedAbove(s[1..], x, low);
    }
  }

  lemma {:induction false} InsertedAscends(s: seq<real>, x: real)
    requires Ascending(s)
    ensures Ascending(Inserted(s, x))
    decreases |s|
  {
    if s == [] || x <= s[0] {
      AscendingCons(x, s);
    } else {
      InsertedAscends(s[1..], x);
      InsertedAbove(s[1..], x, s[0]);
      AscendingCons(s[0], Inserted(s[1..], x));
    }
  }

  lemma {:induction false} RemovedAbove(s: seq<real>, x: real, low: real)
    requires x in s && Above(s, low)
    ensures Above(Removed(s, x), low)
    decreases |s|
  {
    if s[0] != x {
      RemovedAbove(s[1..], x, low);
    }
  }

  lemma {:induction false} RemovedAscends(s: seq<real>, x: real)
    requires x in s && Ascending(s)
    ensures Ascending(Removed(s, x))
    decreases |s|
  {
    if s[0] != x {
      RemovedAscends(s[1..], x);
      RemovedAbove(s[1..], x, s[0]);
      AscendingCons(s[0], Removed(s[1..], x));
    }
  }

  // ---- the window ----

  ghost function Window(history: seq<real>, size: nat): seq<real> {
    if |history| <= size then history else history[|history| - size..]
  }

  // The ring read from its oldest sample on.
  ghost function Rotated(ring: seq<real>, cursor: nat): seq<real>
    requires cursor <= |ring|
  {
    ring[cursor..] + ring[..cursor]
  }

  lemma RotateOn(ring: seq<real>, cursor: nat, value: real)
    requires cursor < |ring|
    ensures Rotated(ring[cursor := value], (cursor + 1) % |ring|) == Rotated(ring, cursor)[1..] + [value]
    ensures Rotated(ring, cursor)[0] == ring[cursor]
  {
    if cursor + 1 == |ring| {
      assert (cursor + 1) % |ring| == 0;
    } else {
      assert (cursor + 1) % |ring| == cursor + 1;
    }
  }

  // The ring holds the last samples of the history.
  ghost predicate Remembers(ring: seq<real>, size: nat, cursor: nat, history: seq<real>) {
    && cursor < size
    && |ring| <= size
    && if |ring| < size then cursor == 0 && ring == history
       else |history| >= size && Rotated(ring, cursor) == Window(history, size)
  }

  // The list holds the same samples in order.
  ghost predicate Keeps(ring: seq<real>, size: nat, cursor: nat, list: seq<real>, history: seq<real>) {
    Remembers(ring, size, cursor, history) && Ascending(list) && multiset(list) == multiset(ring)
  }

  lemma WindowMoves(history: seq<real>, size: nat, value: real)
    requires 0 < size <= |history|
    ensures Window(history + [value], size) == Window(history, size)[1..] + [value]
  {
  }

  lemma RemembersFull(ring: seq<real>, size: nat, cursor: nat, history: seq<real>, value: real)
    requires Remembers(ring, size, cursor, history) && |ring| == size
    ensures Remembers(ring[cursor := value], size, (cursor + 1) % size, history + [value])
  {
    RotateOn(ring, cursor, value);
    WindowMoves(history, size, value);
  }

  lemma RemembersMore(ring: seq<real>, size: nat, cursor: nat, history: seq<real>, value: real)
    requires Remembers(ring, size, cursor, history) && |ring| < size
    ensures Remembers(ring + [value], size, cursor, history + [value])
  {
    if |ring| + 1 == size {
      assert Rotated(ring + [value], 0) == ring + [value];
    }
  }

  class RingOrderedSkipList {
    var ring: seq<real>
    const windowSize: nat
    var cursor: nat
    var skiplist: seq<real>
    ghost var history: seq<real>

    ghost predicate Valid()
      reads this
    {
      Keeps(ring, windowSize, cursor, skiplist, history)
    }

    constructor WithSize(windowSize: nat)
      requires 0 < windowSize
      ensures Valid() && this.windowSize == windowSize && history == []
    {
      ring, this.windowSize, cursor, skiplist, history := [], windowSize, 0, [], [];
    }

    // The oldest sample is always found in the ordered list.
    method Insert(value: real)
      requires Valid()
      modifies this
      ensures Valid() && history == old(history) + [value]
    {
      ghost var longer := history + [value];
      if |ring| == windowSize {
        var oldest := ring[cursor];
        assert oldest in skiplist by {
          KeepsFull(ring, windowSize, cursor, skiplist, history, value);
        }
        var samples, next, list := ring[cursor := value], (cursor + 1) % windowSize,
            Inserted(Removed(skiplist, oldest), value);
        assert Keeps(samples, windowSize, next, list, longer) by {
          KeepsFull(ring, windowSize, cursor, skiplist, history, value);
        }
        ring, cursor, skiplist := samples, next, list;
      } else {
        var samples, list := ring + [value], Inserted(skiplist, value);
        assert Keeps(samples, windowSize, cursor, list, longer) by {
          KeepsMore(ring, windowSize, cursor, skiplist, history, value);
        }
        ring, skiplist := samples, list;
      }
      history := longer;
    }
  }

  lemma OrderedFull(ring: seq<real>, cursor: nat, list: seq<real>, value: real)
    requires Ascending(list) && multiset(list) == multiset(ring) && cursor < |ring|
    ensures ring[cursor] in list
    ensures var next := Inserted(Removed(list, ring[cursor]), value);
      Ascending(next) && multiset(next) == multiset(ring[cursor := value])
  {
    SameMembers(ring, list, cursor);
    RemovedContents(list, ring[cursor]);
    RemovedAscends(list, ring[cursor]);
    InsertedContents(Removed(list, ring[cursor]), value);
    InsertedAscends(Removed(list, ring[cursor]), value);
    Replaced(ring, cursor, value);
  }

  lemma KeepsFull(ring: seq<real>, size: nat, cursor: nat, list: seq<real>, history: seq<real>, value: real)
    requires Keeps(ring, size, cursor, list, history) && |ring| == size
    ensures ring[cursor] in list
    ensures Keeps(ring[cursor := value], size, (cursor + 1) % size, Inserted(Removed(list, ring[cursor]), value),
        history + [value])
  {
    OrderedFull(ring, cursor, list, value);
    RemembersFull(ring, size, cursor, history, value);
  }

  lemma KeepsMore(ring: seq<real>, size: nat, cursor: nat, list: seq<real>, history: seq<real>, value: real)
    requires Keeps(ring, size, cursor, list, history) && |ring| < size
    ensures Keeps(ring + [value], size, cursor, Inserted(list, value), history + [value])
  {
    InsertedContents(list, value);
    InsertedAscends(list, value);
    RemembersMore(ring, size, cursor, history, value);
  }

  lemma SameMembers(s: seq<real>, t: seq<real>, i: nat)
    requires multiset(s) == multiset(t) && i < |s|
    ensures s[i] in t
  {
    assert s[i] in multiset(s);
    assert s[i] in multiset(t);
  }

  lemma Replaced(s: seq<real>, i: nat, x: real)
    requires i < |s|
    ensures multiset(s[i := x]) == multiset(s) - multiset{s[i]} + multiset{x}
  {
  }

  // The first of an ascending sequence is the lowest of its contents.
  lemma FirstIsLowest(s: seq<real>, x: real)
    requires Ascending(s) && x in multiset(s)
    ensures s != [] && s[0] <= x
  {
    assert x in s;
  }

  lemma FirstsSame(s: seq<real>, t: seq<real>)
    requires Ascending(s) && Ascending(t) && multiset(s) == multiset(t) && s != []
    ensures t != [] && s[0] == t[0]
  {
    assert s[0] in multiset(s);
    FirstIsLowest(t, s[0]);
    assert t[0] in multiset(t);
    FirstIsLowest(s, t[0]);
  }

  lemma TailsSame(s: seq<real>, t: seq<real>)
    requires multiset(s) == multiset(t) && s != [] && t != [] && s[0] == t[0]
    ensures multiset(s[1..]) == multiset(t[1..])
  {
    Uncons(s);
    Uncons(t);
    assert multiset(s[1..]) == multiset(s) - multiset{s[0]};
    assert multiset(t[1..]) == multiset(t) - multiset{t[0]};
  }

  lemma {:induction false} AscendingUnique(s: seq<real>, t: seq<real>)
    requires Ascending(s) && Ascending(t) && multiset(s) == multiset(t)
    ensures s == t
    decreases |s|
  {
    assert |s| == |multiset(s)| == |t|;
    if s != [] {
      FirstsSame(s, t);
      TailsSame(s, t);
      AscendingUnique(s[1..], t[1..]);
      assert s == [s[0]] + s[1..] && t == [t[0]] + t[1..];
    }
  }

  /** What is kept in order is the last samples sorted, and there is only one way
      to sort them. */
  lemma OrderedIsSortedWindow(window: RingOrderedSkipList, sorted: seq<real>)
    requires window.Valid()
    requires Ascending(sorted) && multiset(sorted) == multiset(Window(window.history, window.windowSize))
    ensures window.skiplist == sorted
  {
    var ring, cursor := window.ring, window.cursor;
    assert ring == ring[..cursor] + ring[cursor..];
    AscendingUnique(window.skiplist, sorted);
  }

  // ---- order statistics ----

  function GetOrdered(s: seq<real>, index: nat): Option<real> {
    if index < |s| then Some(s[index]) else None
  }

  function GetEven(s: seq<real>, index1: nat, index2: nat): Option<real> {
    match (GetOrdered(s, index1), GetOrdered(s, index2))
    case (None, None) => None
    case (None, Some(x)) => Some(x)
    case (Some(x), None) => Some(x)
    case (Some(x), Some(y)) => Some((x + y) / 2.0)
  }

  function Q1Of(s: seq<real>): Option<real> {
    if |s| < 4 then None
    else
      var index := |s| / 4;
      if |s| % 4 == 0 || |s| % 4 == 1 then GetEven(s, index, index - 1) else GetOrdered(s, index)
  }

  function Q3Of(s: seq<real>): Option<real> {
    if |s| < 4 then None
    else
      var index := |s| * 3 / 4;
      if |s| % 4 == 0 || |s| % 4 == 1 then GetEven(s, index, index - 1) else GetOrdered(s, index)
  }

  function MedianOf(s: seq<real>): Option<real> {
    if |s| < 4 then None
    else
      var index := |s| / 2;
      if |s| % 2 == 0 then GetEven(s, index - 1, index) else GetOrdered(s, index)
  }

  function RangeOf(s: seq<real>): Option<real> {
    match (Q1Of(s), Q3Of(s))
    case (Some(q1), Some(q3)) => Some(q3 - q1)
    case _ => None
  }

  // How many samples are at most, and at least, x.
  function AtMost(s: seq<real>, x: real): nat {
    if s == [] then 0 else AtMost(s[1..], x) + if s[0] <= x then 1 else 0
  }

  function AtLeast(s: seq<real>, x: real): nat {
    if s == [] then 0 else AtLeast(s[1..], x) + if x <= s[0] then 1 else 0
  }

  lemma {:induction false} CountConcat(s: seq<real>, t: seq<real>, x: real)
    ensures AtMost(s + t, x) == AtMost(s, x) + AtMost(t, x)
    ensures AtLeast(s + t, x) == AtLeast(s, x) + AtLeast(t, x)
    decreases |s|
  {
    if s == [] {
      assert s + t == t;
    } else {
      assert (s + t)[1..] == s[1..] + t;
      CountConcat(s[1..], t, x);
    }
  }

  function Without(s: seq<real>, i: nat): seq<real>
    requires i < |s|
  {
    s[..i] + s[i + 1..]
  }

  lemma CountWithout(s: seq<real>, i: nat, x: real)
    requires i < |s|
    ensures AtMost(s, x) == AtMost(Without(s, i), x) + if s[i] <= x then 1 else 0
    ensures AtLeast(s, x) == AtLeast(Without(s, i), x) + if x <= s[i] then 1 else 0
  {
    assert s == s[..i] + s[i..];
    CountConcat(s[..i], s[i..], x);
    CountConcat(s[..i], s[i + 1..], x);
  }

  lemma ContentsWithout(s: seq<real>, i: nat)
    requires i < |s|
    ensures multiset(Without(s, i)) == multiset(s) - multiset{s[i]}
  {
    assert s == s[..i] + [s[i]] + s[i + 1..];
  }

  // Counting does not depend on the order.
  lemma {:induction false} CountSame(s: seq<real>, t: seq<real>, x: real)
    requires multiset(s) == multiset(t)
    ensures AtMost(s, x) == AtMost(t, x) && AtLeast(s, x) == AtLeast(t, x)
    decreases |s|
  {
    assert |s| == |multiset(s)| == |t|;
    if s != [] {
      SameMembers(s, t, 0);
      var i :| 0 <= i < |t| && t[i] == s[0];
      ContentsWithout(s, 0);
      ContentsWithout(t, i);
      CountSame(Without(s, 0), Without(t, i), x);
      CountWithout(s, 0, x);
      CountWithout(t, i, x);
    }
  }

  lemma {:induction false} AllAtMost(s: seq<real>, x: real)
    requires forall i :: 0 <= i < |s| ==> s[i] <= x
    ensures AtMost(s, x) == |s|
    decreases |s|
  {
    if s != [] {
      AllAtMost(s[1..], x);
    }
  }

  lemma {:induction false} AllAtLeast(s: seq<real>, x: real)
    requires forall i :: 0 <= i < |s| ==> x <= s[i]
    ensures AtLeast(s, x) == |s|
    decreases |s|
  {
    if s != [] {
      AllAtLeast(s[1..], x);
    }
  }

  // At least a samples are at most x, and at least b are at least x.
  ghost predicate Ranks(s: seq<real>, x: real, a: nat, b: nat) {
    a <= AtMost(s, x) && b <= AtLeast(s, x)
  }

  lemma BetweenRanks(s: seq<real>, x: real, lo: nat, hi: nat)
    requires Ascending(s) && lo <= |s| && hi <= |s|
    requires forall i :: 0 <= i < lo ==> s[i] <= x
    requires forall i :: hi <= i < |s| ==> x <= s[i]
    ensures Ranks(s, x, lo, |s| - hi)
  {
    assert s == s[..lo] + s[lo..] && s == s[..hi] + s[hi..];
    CountConcat(s[..lo], s[lo..], x);
    CountConcat(s[..hi], s[hi..], x);
    AllAtMost(s[..lo], x);
    AllAtLeast(s[hi..], x);
  }

  lemma Q1Ranks(s: seq<real>)
    requires Ascending(s) && |s| >= 4
    ensures Ranks(s, Q1Of(s).value, |s| / 4, |s| - |s| / 4)
  {
    BetweenRanks(s, Q1Of(s).value, |s| / 4, |s| / 4);
  }

  lemma Q3Ranks(s: seq<real>)
    requires Ascending(s) && |s| >= 4
    ensures Ranks(s, Q3Of(s).value, |s| * 3 / 4, |s| - |s| * 3 / 4)
  {
    BetweenRanks(s, Q3Of(s).value, |s| * 3 / 4, |s| * 3 / 4);
  }

  lemma MedianRanks(s: seq<real>)
    requires Ascending(s) && |s| >= 4
    ensures Ranks(s, MedianOf(s).value, (|s| + 1) / 2, (|s| + 1) / 2)
  {
    BetweenRanks(s, MedianOf(s).value, (|s| + 1) / 2, |s| / 2);
  }

  lemma RanksSame(s: seq<real>, samples: seq<real>, x: real, a: nat, b: nat)
    requires multiset(s) == multiset(samples) && Ranks(s, x, a, b)
    ensures Ranks(samples, x, a, b)
  {
    CountSame(s, samples, x);
  }

  /** In any order of the samples: with four or more, a quarter of them lies at
      or below the first quartile and three quarters at or above it; the other
      way round for the third; and half on either side of the median. */
  lemma QuartilesRank(s: seq<real>, samples: seq<real>)
    requires Ascending(s) && multiset(s) == multiset(samples)
    ensures Q1Of(s).Some? <==> |samples| >= 4
    ensures Q3Of(s).Some? <==> |samples| >= 4
    ensures MedianOf(s).Some? <==> |samples| >= 4
    ensures var n := |samples|;
      n >= 4 ==>
        && Ranks(samples, Q1Of(s).value, n / 4, n - n / 4)
        && Ranks(samples, Q3Of(s).value, n * 3 / 4, n - n * 3 / 4)
        && Ranks(samples, MedianOf(s).value, (n + 1) / 2, (n + 1) / 2)
  {
    var n := |samples|;
    assert |s| == |multiset(s)| == n;
    if n >= 4 {
      Q1Ranks(s);
      Q3Ranks(s);
      MedianRanks(s);
      RanksSame(s, samples, Q1Of(s).value, n / 4, n - n / 4);
      RanksSame(s, samples, Q3Of(s).value, n * 3 / 4, n - n * 3 / 4);
      RanksSame(s, samples, MedianOf(s).value, (n + 1) / 2, (n + 1) / 2);
    }
  }

  // The sample at the index, or the mean of it and the one before.
  ghost predicate StandsAt(s: seq<real>, x: real, index: nat, between: bool) {
    0 < index < |s| && if between then x + x == s[index - 1] + s[index] else x == s[index]
  }

  // Where the quartiles and the median stand among the sorted samples.
  ghost predicate AreQuartiles(s: seq<real>, q1: real, median: real, q3: real) {
    && StandsAt(s, q1, |s| / 4, |s| % 4 <= 1)
    && StandsAt(s, q3, |s| * 3 / 4, |s| % 4 <= 1)
    && StandsAt(s, median, |s| / 2, |s| % 2 == 0)
  }

  /** The quartiles and the median are samples or means of two neighbouring ones:
      the quartiles when the number of samples is a multiple of four or one over,
      the median when it is even. */
  lemma QuartilesAre(s: seq<real>)
    requires |s| >= 4
    ensures Q1Of(s).Some? && Q3Of(s).Some? && MedianOf(s).Some?
    ensures AreQuartiles(s, Q1Of(s).value, MedianOf(s).value, Q3Of(s).value)
    ensures RangeOf(s) == Some(Q3Of(s).value - Q1Of(s).value)
  {
  }

  /** The quartiles are in order, and their range is within that of the samples. */
  lemma QuartilesOrdered(s: seq<real>)
    requires Ascending(s) && |s| >= 4
    ensures Q1Of(s).value <= MedianOf(s).value <= Q3Of(s).value
    ensures RangeOf(s).Some?
    ensures 0.0 <= RangeOf(s).value <= s[|s| - 1] - s[0]
  {
  }

  // The samples with their signs turned.
  ghost function Mirror(s: seq<real>): seq<real> {
    seq(|s|, i requires 0 <= i < |s| => -s[|s| - 1 - i])
  }

  lemma MedianMirrors(s: seq<real>)
    requires Ascending(s) && |s| >= 4
    ensures MedianOf(Mirror(s)) == Some(-MedianOf(s).value)
  {
  }

  /** Samples with their signs turned have their median turned. Their quartiles
      swap too, except when the number of samples is one over a multiple of four:
      then only if the samples on both sides of the third quartile agree. */
  lemma QuartilesMirrorIff(s: seq<real>)
    requires Ascending(s) && |s| >= 4
    ensures MedianOf(Mirror(s)) == Some(-MedianOf(s).value)
    ensures Q3Of(s).value == -Q1Of(Mirror(s)).value <==>
      |s| % 4 != 1 || s[|s| * 3 / 4 - 1] == s[|s| * 3 / 4 + 1]
  {
    MedianMirrors(s);
    var m := |s| / 4;
    if |s| % 4 == 1 {
      assert Mirror(s)[m] == -s[3 * m] && Mirror(s)[m - 1] == -s[3 * m + 1];
    }
  }

  class MovingMedian {
    const window: RingOrderedSkipList

    constructor (size: nat)
      requires 4 <= size
      ensures window.Valid() && window.windowSize == size && window.history == []
    {
      window := new RingOrderedSkipList.WithSize(size);
    }

    method Update(value: real)
      requires window.Valid()
      modifies window
      ensures window.Valid() && window.history == old(window.history) + [value]
    {
      window.Insert(value);
    }

    function Q1(): Option<real>
      reads window
    {
      Q1Of(window.skiplist)
    }

    function Q3(): Option<real>
      reads window
    {
      Q3Of(window.skiplist)
    }

    function Median(): Option<real>
      reads window
    {
      MedianOf(window.skiplist)
    }

    function InterquantileRange(): Option<real>
      reads window
    {
      RangeOf(window.skiplist)
    }
  }

  /** After any updates the statistics are those of the last samples sorted, and
      stand where they should among those samples. */
  lemma StatisticsOfWindow(m: MovingMedian, sorted: seq<real>)
    requires m.window.Valid() && 4 <= m.window.windowSize
    requires Ascending(sorted) && multiset(sorted) == multiset(Window(m.window.history, m.window.windowSize))
    ensures m.Q1() == Q1Of(sorted) && m.Q3() == Q3Of(sorted)
    ensures m.Median() == MedianOf(sorted) && m.InterquantileRange() == RangeOf(sorted)
    ensures m.Median().Some? <==> 4 <= |m.window.history|
    ensures var samples := Window(m.window.history, m.window.windowSize);
      m.Median().Some? ==>
        && m.Q1().Some? && m.Q3().Some? && m.InterquantileRange().Some?
        && AreQuartiles(sorted, m.Q1().value, m.Median().value, m.Q3().value)
        && m.InterquantileRange().value == m.Q3().value - m.Q1().value
        && Ranks(samples, m.Q1().value, |samples| / 4, |samples| - |samples| / 4)
        && Ranks(samples, m.Q3().value, |samples| * 3 / 4, |samples| - |samples| * 3 / 4)
        && Ranks(samples, m.Median().value, (|samples| + 1) / 2, (|samples| + 1) / 2)
        && m.Q1().value <= m.Median().value <= m.Q3().value
        && 0.0 <= m.InterquantileRange().value <= sorted[|sorted| - 1] - sorted[0]
  {
    OrderedIsSortedWindow(m.window, sorted);
    QuartilesRank(sorted, Window(m.window.history, m.window.windowSize));
    if m.Median().Some? {
      assert |sorted| == |multiset(sorted)|;
      QuartilesOrdered(sorted);
      QuartilesAre(sorted);
    }
  }
}
