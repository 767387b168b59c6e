/** The thresholded sum of the branch-prediction exercise, before and after sorting. */
module Threshold {
  const THRESHOLD := 256
  const SIZE := 65536
  const ROUNDS := 10000

  function Part(x: int): int { if x >= THRESHOLD then x else 0 }

  function Sum(s: seq<int>): int {
    if s == [] then 0 else Sum(s[..|s| - 1]) + Part(s[|s| - 1])
  }

  /** The sum adds up over any division of the data; an element counts with its value from
      256 on, and not at all below. */
  lemma {:induction false} SumAddsUp(a: seq<int>, b: seq<int>, x: int)
    ensures Sum(a + b) == Sum(a) + Sum(b)
    ensures x >= 256 ==> Sum([x]) == x
    ensures x < 256 ==> Sum([x]) == 0
    decreases b
  {
    assert [x][..0] == [];
    if b == [] {
      assert a + b == a;
    } else {
      var k := |b| - 1;
      assert (a + b)[..|a + b| - 1] == a + b[..k];
      SumAddsUp(a, b[..k], x);
    }
  }

  /** The nested loops of both programs. */
  method Total(data: array<int>, rounds: nat) returns (sum: int)
    ensures sum == rounds * Sum(data[..])
  {
    sum := 0;
    for j := 0 to rounds
      invariant sum == j * Sum(data[..])
    {
      ghost var before := sum;
      for i := 0 to data.Length
        invariant sum == before + Sum(data[..i])
      {
        assert data[..i + 1][..i] == data[..i];
        if data[i] >= 256 {
          sum := sum + data[i];
        }
      }
      assert data[..data.Length] == data[..];
      assert (j + 1) * Sum(data[..]) == j * Sum(data[..]) + Sum(data[..]);
    }
  }

  lemma {:induction false} SumWithout(s: seq<int>, i: nat)
    requires i < |s|
    ensures Sum(s) == Sum(s[..i] + s[i + 1..]) + Part(s[i])
  {
    var k := |s| - 1;
    var t := s[..i] + s[i + 1..];
    if i == k {
      assert t == s[..k];
    } else {
      SumWithout(s[..k], i);
      assert t[..|t| - 1] == s[..k][..i] + s[..k][i + 1..];
      assert t[|t| - 1] == s[k];
    }
  }

  /** The sum does not depend on the order: whatever permutation the sort produces, the
      program prints the same number. */
  lemma {:induction false} OrderDoesNotMatter(a: seq<int>, b: seq<int>)
    requires multiset(a) == multiset(b)
    ensures Sum(a) == Sum(b)
    decreases a
  {
    if a == [] {
      assert |multiset(b)| == 0;
    } else {
      var k := |a| - 1;
      assert a[k] in multiset(a);
      assert a[k] in b;
      var i :| 0 <= i < |b| && b[i] == a[k];
      RemoveBoth(a, b, i);
      OrderDoesNotMatter(a[..k], b[..i] + b[i + 1..]);
      SumWithout(b, i);
    }
  }

  lemma RemoveBoth(a: seq<int>, b: seq<int>, i: nat)
    requires a != [] && i < |b| && b[i] == a[|a| - 1] && multiset(a) == multiset(b)
    ensures multiset(a[..|a| - 1]) == multiset(b[..i] + b[i + 1..])
  {
    var k := |a| - 1;
    var c := b[..i] + b[i + 1..];
    assert a == a[..k] + [b[i]];
    assert multiset(a[..k]) == multiset(a) - multiset{b[i]};
    assert b == b[..i] + [b[i]] + b[i + 1..];
    assert multiset(c) == multiset(b) - multiset{b[i]};
  }

  /** qsort's order on shorts: their difference is negative, zero or positive. */
  predicate SortedByCompare(s: seq<int>) { forall i, j :: 0 <= i < j < |s| ==> s[i] - s[j] <= 0 }

  /** Over sorted data the branch changes its value at most once, from not taken to taken. */
  lemma {:induction false} OneSwitch(s: seq<int>) returns (split: nat)
    requires SortedByCompare(s)
    ensures split <= |s|
    ensures forall i :: 0 <= i < |s| ==> (s[i] >= THRESHOLD <==> i >= split)
  {
    if s == [] || s[|s| - 1] < THRESHOLD {
      split := |s|;
    } else {
      split := OneSwitch(s[..|s| - 1]);
      assert forall i :: 0 <= i < |s| - 1 ==> s[i] == s[..|s| - 1][i];
      if split == |s| - 1 {
        assert s[split] >= THRESHOLD;
      }
    }
  }

  /** The optimised program: order stands for what qsort leaves in the array. It prints what
      the basic program prints. */
  method SortedTotal(data: array<int>, rounds: nat, order: seq<int>) returns (sum: int)
    requires multiset(order) == multiset(data[..]) && SortedByCompare(order)
    modifies data
    ensures data[..] == order
    ensures sum == rounds * Sum(old(data[..]))
  {
    OrderDoesNotMatter(order, data[..]);
    assert |multiset(order)| == |multiset(data[..])|;
    forall i | 0 <= i < data.Length {
      data[i] := order[i];
    }
    assert data[..] == order;
    sum := Total(data, rounds);
  }

  lemma {:induction false} SumBound(s: seq<int>)
    requires forall i :: 0 <= i < |s| ==> 0 <= s[i] < 512
    ensures 0 <= Sum(s) <= 511 * |s|
  {
    if s != [] {
      SumBound(s[..|s| - 1]);
    }
  }

  /** At the program's sizes every partial total, after whole rounds and i elements of the
      next one, fits a signed 64-bit accumulator. */
  lemma TotalFits(s: seq<int>, rounds: nat, i: nat)
    requires |s| == SIZE && rounds < ROUNDS && i <= |s|
    requires forall k :: 0 <= k < |s| ==> 0 <= s[k] < 512
    ensures 0 <= rounds * Sum(s) + Sum(s[..i]) < 0x8000_0000_0000_0000
  {
    SumBound(s);
    SumBound(s[..i]);
    Product(rounds, Sum(s), ROUNDS, 511 * SIZE);
  }

  lemma Product(a: nat, x: nat, b: nat, y: nat)
    requires a <= b && x <= y
    ensures 0 <= a * x <= b * y
  {
    assert a * x <= b * x;
    assert b * x <= b * y;
  }
}
