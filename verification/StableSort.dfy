/** Stable sorting of proposals, highest bid first, and what survives of it when
    only the first few are kept. */
module StableSort {
  import opened Model
  import opened Basics

  // On equal bids the left sequence goes first.
  function Merge(a: seq<BidProposal>, b: seq<BidProposal>): seq<BidProposal>
    decreases |a| + |b|
  {
    if a == [] then b
    else if b == [] then a
    else if b[0].bid <= a[0].bid then [a[0]] + Merge(a[1..], b)
    else [b[0]] + Merge(a, b[1..])
  }

  function Sort(s: seq<BidProposal>): seq<BidProposal>
    decreases |s|
  {
    if s == [] then [] else Merge(Sort(s[..|s| - 1]), [s[|s| - 1]])
  }

  ghost predicate Descending(s: seq<BidProposal>) {
    forall i, j :: 0 <= i < j < |s| ==> s[j].bid <= s[i].bid
  }

  // The proposals with a given bid, in order.
  function At(s: seq<BidProposal>, bid: real): seq<BidProposal>
    decreases |s|
  {
    if s == [] then [] else (if s[0].bid == bid then [s[0]] else []) + At(s[1..], bid)
  }

  lemma {:induction false} AtConcat(a: seq<BidProposal>, b: seq<BidProposal>, bid: real)
    ensures At(a + b, bid) == At(a, bid) + At(b, bid)
    decreases |a|
  {
    if a == [] {
      assert a + b == b;
    } else {
      AtConcat(a[1..], b, bid);
      assert (a + b)[0] == a[0] && (a + b)[1..] == a[1..] + b;
      Joins(if a[0].bid == bid then [a[0]] else [], At(a[1..], bid), At(b, bid));
    }
  }

  lemma Joins(x: seq<BidProposal>, y: seq<BidProposal>, z: seq<BidProposal>)
    ensures (x + y) + z == x + (y + z)
  {
  }

  lemma {:induction false} MergeContents(a: seq<BidProposal>, b: seq<BidProposal>)
    ensures multiset(Merge(a, b)) == multiset(a) + multiset(b)
    decreases |a| + |b|
  {
    if a != [] && b != [] {
      if b[0].bid <= a[0].bid {
        MergeContents(a[1..], b);
        Uncons(a);
        Contents(a[0], Merge(a[1..], b));
      } else {
        MergeContents(a, b[1..]);
        Uncons(b);
        Contents(b[0], Merge(a, b[1..]));
      }
    }
  }

  lemma DescendingCons(x: BidProposal, s: seq<BidProposal>)
    requires Descending(s) && (s != [] ==> s[0].bid <= x.bid)
    ensures Descending([x] + s)
  {
    var t := [x] + s;
    forall j | 0 < j < |t| ensures t[j].bid <= x.bid {
      assert t[j] == s[j - 1];
    }
  }

  lemma {:induction false} MergeDescending(a: seq<BidProposal>, b: seq<BidProposal>)
    requires Descending(a) && Descending(b)
    ensures Descending(Merge(a, b))
    ensures Merge(a, b) != [] ==>
              (a != [] && Merge(a, b)[0] == a[0]) || (b != [] && Merge(a, b)[0] == b[0])
    decreases |a| + |b|
  {
    if a != [] && b != [] {
      if b[0].bid <= a[0].bid {
        MergeDescending(a[1..], b);
        DescendingCons(a[0], Merge(a[1..], b));
      } else {
        MergeDescending(a, b[1..]);
        DescendingCons(b[0], Merge(a, b[1..]));
      }
    }
  }

  lemma {:induction false} AtAbsent(s: seq<BidProposal>, bid: real)
    requires forall i :: 0 <= i < |s| ==> s[i].bid < bid
    ensures At(s, bid) == []
    decreases |s|
  {
    if s != [] {
      AtAbsent(s[1..], bid);
    }
  }

  lemma {:induction false} MergeStable(a: seq<BidProposal>, b: seq<BidProposal>, bid: real)
    requires Descending(a) && Descending(b)
    ensures At(Merge(a, b), bid) == At(a, bid) + At(b, bid)
    decreases |a| + |b|
  {
    if a != [] && b != [] {
      if b[0].bid <= a[0].bid {
        MergeStable(a[1..], b, bid);
      } else {
        MergeStable(a, b[1..], bid);
        if b[0].bid == bid {
          AtAbsent(a, bid);
        }
      }
    }
  }

  lemma {:induction false} SortContents(s: seq<BidProposal>)
    ensures multiset(Sort(s)) == multiset(s)
    decreases |s|
  {
    if s != [] {
      var front, last := s[..|s| - 1], [s[|s| - 1]];
      assert s == front + last;
      SortContents(front);
      MergeContents(Sort(front), last);
    }
  }

  lemma {:induction false} SortDescends(s: seq<BidProposal>)
    ensures Descending(Sort(s))
    decreases |s|
  {
    if s != [] {
      SortDescends(s[..|s| - 1]);
      MergeDescending(Sort(s[..|s| - 1]), [s[|s| - 1]]);
    }
  }

  lemma {:induction false} SortKeepsOrder(s: seq<BidProposal>, bid: real)
    ensures At(Sort(s), bid) == At(s, bid)
    decreases |s|
  {
    if s != [] {
      var front, last := s[..|s| - 1], [s[|s| - 1]];
      assert s == front + last;
      SortKeepsOrder(front, bid);
      SortDescends(front);
      MergeStable(Sort(front), last, bid);
      AtConcat(front, last, bid);
    }
  }

  /** What a stable sort promises: descending, the same proposals, and equal
      bids in their original order. */
  lemma SortIsStable(s: seq<BidProposal>, bid: real)
    ensures Descending(Sort(s))
    ensures multiset(Sort(s)) == multiset(s)
    ensures At(Sort(s), bid) == At(s, bid)
  {
    SortContents(s);
    SortDescends(s);
    SortKeepsOrder(s, bid);
  }

  function Take(k: nat, s: seq<BidProposal>): seq<BidProposal> {
    if |s| <= k then s else s[..k]
  }

  function Top(k: nat, s: seq<BidProposal>): seq<BidProposal> {
    Take(k, Sort(s))
  }

  // t holds the proposals of s, highest bid first, equal bids in their order in s.
  ghost predicate SortedAs(s: seq<BidProposal>, t: seq<BidProposal>) {
    Descending(t) && multiset(t) == multiset(s) && forall bid :: At(t, bid) == At(s, bid)
  }

  // The k that come first, or all if there are fewer.
  ghost predicate AreFirst(k: nat, s: seq<BidProposal>, first: seq<BidProposal>) {
    exists rest :: SortedAs(s, first + rest) && |first| == if |s| < k then |s| else k
  }

  lemma SortSorts(s: seq<BidProposal>)
    ensures SortedAs(s, Sort(s))
  {
    forall bid ensures At(Sort(s), bid) == At(s, bid) {
      SortIsStable(s, bid);
    }
    SortIsStable(s, 0.0);
  }

  lemma TopAreFirst(k: nat, s: seq<BidProposal>)
    ensures AreFirst(k, s, Top(k, s))
  {
    SortSorts(s);
    var sorted := Sort(s);
    assert |sorted| == |multiset(s)| == |s|;
    var rest := sorted[|Take(k, sorted)|..];
    assert Take(k, sorted) + rest == sorted;
  }

  lemma {:induction false} MergeLast(x: seq<BidProposal>, y: seq<BidProposal>, z: BidProposal)
    ensures Merge(Merge(x, y), [z]) == Merge(x, Merge(y, [z]))
    decreases |x| + |y|
  {
    if x != [] && y != [] {
      if y[0].bid <= x[0].bid {
        MergeLast(x[1..], y, z);
        assert Merge(x, y)[1..] == Merge(x[1..], y);
      } else {
        MergeLast(x, y[1..], z);
        assert Merge(x, y)[1..] == Merge(x, y[1..]);
        assert Merge(y, [z])[1..] == if z.bid <= y[0].bid then Merge(y[1..], [z]) else y;
      }
      assert Merge(y, [z])[1..] == if z.bid <= y[0].bid then Merge(y[1..], [z]) else y;
    }
  }

  lemma {:induction false} SortConcat(a: seq<BidProposal>, b: seq<BidProposal>)
    ensures Sort(a + b) == Merge(Sort(a), Sort(b))
    decreases |b|
  {
    if b == [] {
      assert a + b == a;
      assert Merge(Sort(a), []) == Sort(a);
    } else {
      var front, last := b[..|b| - 1], b[|b| - 1];
      SortConcat(a, front);
      assert (a + b)[..|a + b| - 1] == a + front;
      MergeLast(Sort(a), Sort(front), last);
    }
  }

  lemma TakeTail(k: nat, s: seq<BidProposal>)
    requires 0 < k && s != []
    ensures Take(k, s) != [] && Take(k, s)[0] == s[0]
    ensures Take(k - 1, Take(k, s)[1..]) == Take(k - 1, s[1..])
    ensures Take(k - 1, Take(k, s)) == Take(k - 1, s)
  {
  }

  lemma TakeHead(k: nat, x: BidProposal, s: seq<BidProposal>, t: seq<BidProposal>)
    requires 0 < k && Take(k - 1, s) == Take(k - 1, t)
    ensures Take(k, [x] + s) == Take(k, [x] + t)
  {
    assert Take(k, [x] + s) == [x] + Take(k - 1, s);
    assert Take(k, [x] + t) == [x] + Take(k - 1, t);
  }

  lemma {:induction false} TakeMerge(k: nat, a: seq<BidProposal>, b: seq<BidProposal>)
    ensures Take(k, Merge(a, b)) == Take(k, Merge(Take(k, a), Take(k, b)))
    decreases k
  {
    if k > 0 && a != [] && b != [] {
      var a', b' := Take(k, a), Take(k, b);
      TakeTail(k, a);
      TakeTail(k, b);
      if b[0].bid <= a[0].bid {
        TakeMerge(k - 1, a[1..], b);
        TakeMerge(k - 1, a'[1..], b');
        TakeHead(k, a[0], Merge(a[1..], b), Merge(a'[1..], b'));
      } else {
        TakeMerge(k - 1, a, b[1..]);
        TakeMerge(k - 1, a', b'[1..]);
        TakeHead(k, b[0], Merge(a, b[1..]), Merge(a', b'[1..]));
      }
    }
  }

  lemma {:induction false} SortSorted(s: seq<BidProposal>)
    requires Descending(s)
    ensures Sort(s) == s
    decreases |s|
  {
    if s != [] {
      var front, last := s[..|s| - 1], s[|s| - 1];
      SortSorted(front);
      MergeBehind(front, last);
      assert front + [last] == s;
    }
  }

  lemma {:induction false} MergeBehind(s: seq<BidProposal>, x: BidProposal)
    requires forall i :: 0 <= i < |s| ==> x.bid <= s[i].bid
    ensures Merge(s, [x]) == s + [x]
    decreases |s|
  {
    if s != [] {
      MergeBehind(s[1..], x);
      assert s + [x] == [s[0]] + (s[1..] + [x]);
    }
  }

  /** Truncating the parts before joining them does not change the top. */
  lemma TopConcat(k: nat, a: seq<BidProposal>, b: seq<BidProposal>)
    ensures Top(k, a + b) == Take(k, Merge(Top(k, a), Top(k, b)))
  {
    SortConcat(a, b);
    TakeMerge(k, Sort(a), Sort(b));
  }

  lemma TopTop(k: nat, s: seq<BidProposal>)
    ensures Top(k, Top(k, s)) == Top(k, s)
  {
    SortDescends(s);
    SortSorted(Top(k, s));
  }
}
