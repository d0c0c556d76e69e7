/** Half-open ranges of naturals, and lists of them read as sets. */
module Ranges {

  datatype Range = Range(first: nat, second: nat) {
    predicate Has(x: int) {
      first <= x < second
    }
  }

  /** Every range is non-empty, and consecutive ranges neither overlap nor touch. */
  ghost predicate Canonical(rs: seq<Range>) {
    && (forall k :: 0 <= k < |rs| ==> rs[k].first < rs[k].second)
    && (forall i, j :: 0 <= i < j < |rs| ==> rs[i].second < rs[j].first)
  }

  /** The check as the debug build makes it: one pass that compares each range with its predecessor. */
  ghost predicate AdjacentlyOrdered(rs: seq<Range>) {
    && (forall k :: 0 <= k < |rs| ==> rs[k].first < rs[k].second)
    && (forall k :: 0 < k < |rs| ==> rs[k - 1].second < rs[k].first)
  }

  lemma {:induction false} AdjacentOrderIsCanonical(rs: seq<Range>)
    ensures AdjacentlyOrdered(rs) <==> Canonical(rs)
  {
    if AdjacentlyOrdered(rs) {
      forall i, j | 0 <= i < j < |rs|
        ensures rs[i].second < rs[j].first
      {
        ChainedOrder(rs, i, j);
      }
    }
  }

  lemma {:induction false} ChainedOrder(rs: seq<Range>, i: nat, j: nat)
    requires AdjacentlyOrdered(rs) && i < j < |rs|
    ensures rs[i].second < rs[j].first
    decreases j
  {
    if i < j - 1 {
      ChainedOrder(rs, i, j - 1);
    }
  }

  lemma EntryIsProper(rs: seq<Range>, k: nat)
    requires Canonical(rs) && k < |rs|
    ensures rs[k].first < rs[k].second
  {
  }

  ghost predicate Mem(rs: seq<Range>, x: int) {
    exists k :: 0 <= k < |rs| && rs[k].Has(x)
  }

  /** The set of indices that a list of ranges stands for. */
  ghost function Members(rs: seq<Range>): (s: set<nat>)
    ensures forall x: nat :: x in s <==> Mem(rs, x)
  {
    var s := set r, x: nat | r in rs && r.first <= x < r.second && r.Has(x) :: x;
    assert forall x: nat :: Mem(rs, x) ==> x in s by {
      forall x: nat | Mem(rs, x)
        ensures x in s
      {
        var k :| 0 <= k < |rs| && rs[k].Has(x);
        assert rs[k] in rs;
      }
    }
    s
  }

  ghost function Interval(lo: nat, hi: nat): (s: set<nat>)
    ensures forall x: nat :: x in s <==> lo <= x < hi
  {
    var s := set x: nat | lo <= x < hi && Range(lo, hi).Has(x);
    assert forall x: nat :: Range(lo, hi).Has(x) ==> x in s;
    s
  }

  lemma {:induction false} IntervalSize(lo: nat, hi: nat)
    requires lo <= hi
    ensures |Interval(lo, hi)| == hi - lo
  {
    if lo == hi {
      assert Interval(lo, hi) == {};
    } else {
      IntervalSize(lo, hi - 1);
      assert Interval(lo, hi) == Interval(lo, hi - 1) + {hi - 1};
    }
  }

  lemma MemSplit(rs: seq<Range>, p: nat)
    requires p <= |rs|
    ensures forall x :: Mem(rs, x) <==> Mem(rs[..p], x) || Mem(rs[p..], x)
  {
    forall x
      ensures Mem(rs, x) <==> Mem(rs[..p], x) || Mem(rs[p..], x)
    {
      if Mem(rs, x) {
        var k :| 0 <= k < |rs| && rs[k].Has(x);
        if k < p {
          assert rs[..p][k].Has(x);
        } else {
          assert rs[p..][k - p].Has(x);
        }
      }
    }
  }

  function Width(rs: seq<Range>): int {
    if rs == [] then 0 else Width(rs[..|rs| - 1]) + (rs[|rs| - 1].second - rs[|rs| - 1].first)
  }

  function Shifted(rs: seq<Range>, d: int): seq<Range>
    requires forall k :: 0 <= k < |rs| ==> rs[k].first + d >= 0 && rs[k].second + d >= 0
  {
    seq(|rs|, k requires 0 <= k < |rs| => Range(rs[k].first + d, rs[k].second + d))
  }

  lemma MembersConcat(a: seq<Range>, b: seq<Range>)
    ensures Members(a + b) == Members(a) + Members(b)
  {
    MemSplit(a + b, |a|);
    assert (a + b)[..|a|] == a && (a + b)[|a|..] == b;
  }

  lemma MembersSingle(r: Range)
    ensures Members([r]) == Interval(r.first, r.second)
  {
    assert [r][0] == r;
    assert forall x: nat :: r.Has(x) ==> Mem([r], x);
  }

  lemma MembersSplit(rs: seq<Range>, p: nat)
    requires p <= |rs|
    ensures Members(rs) == Members(rs[..p]) + Members(rs[p..])
  {
    MemSplit(rs, p);
  }

  lemma MembersShifted(rs: seq<Range>, d: int)
    requires forall k :: 0 <= k < |rs| ==> rs[k].first + d >= 0 && rs[k].second + d >= 0
    ensures forall x: nat :: x in Members(Shifted(rs, d)) <==> x - d >= 0 && x - d in Members(rs)
  {
    forall x: nat
      ensures Mem(Shifted(rs, d), x) <==> x - d >= 0 && Mem(rs, x - d)
    {
      if Mem(Shifted(rs, d), x) {
        var k :| 0 <= k < |rs| && Shifted(rs, d)[k].Has(x);
        assert rs[k].Has(x - d);
      }
      if x - d >= 0 && Mem(rs, x - d) {
        var k :| 0 <= k < |rs| && rs[k].Has(x - d);
        assert Shifted(rs, d)[k].Has(x);
      }
    }
  }

  lemma {:induction false} WidthConcat(a: seq<Range>, b: seq<Range>)
    ensures Width(a + b) == Width(a) + Width(b)
    decreases b
  {
    if b == [] {
      assert a + b == a;
    } else {
      assert (a + b)[..|a + b| - 1] == a + b[..|b| - 1];
      WidthConcat(a, b[..|b| - 1]);
    }
  }

  lemma {:induction false} WidthSingle(r: Range)
    ensures Width([r]) == r.second - r.first
  {
    assert [r][..0] == [];
  }

  lemma CanonicalConcat(a: seq<Range>, b: seq<Range>)
    requires Canonical(a) && Canonical(b)
    requires a != [] && b != [] ==> a[|a| - 1].second < b[0].first
    ensures Canonical(a + b)
  {
  }

  lemma SplitLast(rs: seq<Range>)
    requires Canonical(rs) && rs != []
    ensures Canonical(rs[..|rs| - 1])
    ensures Members(rs) == Members(rs[..|rs| - 1]) + Interval(rs[|rs| - 1].first, rs[|rs| - 1].second)
    ensures Members(rs[..|rs| - 1]) !! Interval(rs[|rs| - 1].first, rs[|rs| - 1].second)
  {
    PrefixBelow(rs[..|rs| - 1], rs[|rs| - 1].first);
    MembersSplit(rs, |rs| - 1);
    assert rs[|rs| - 1..] == [rs[|rs| - 1]];
    MembersSingle(rs[|rs| - 1]);
  }

  /** The summed widths of a canonical list count its members. */
  lemma {:induction false} WidthCountsMembers(rs: seq<Range>)
    requires Canonical(rs)
    ensures Width(rs) == |Members(rs)|
  {
    if rs == [] {
      assert Members(rs) == {};
    } else {
      SplitLast(rs);
      IntervalSize(rs[|rs| - 1].first, rs[|rs| - 1].second);
      WidthCountsMembers(rs[..|rs| - 1]);
    }
  }

  /** The index of the range that contains x or, when none does, of the first one after x. */
  ghost predicate IsPosition(rs: seq<Range>, x: int, p: int) {
    && 0 <= p <= |rs|
    && (forall k :: 0 <= k < p ==> rs[k].second <= x)
    && (p < |rs| ==> x < rs[p].second)
  }

  lemma PositionIsUnique(rs: seq<Range>, x: int, p: int, q: int)
    requires IsPosition(rs, x, p) && IsPosition(rs, x, q)
    ensures p == q
  {
  }

  lemma PrefixBelow(rs: seq<Range>, x: int)
    requires forall k :: 0 <= k < |rs| ==> rs[k].second <= x
    ensures forall y :: y in Members(rs) ==> y < x
  {
    forall y | y in Members(rs)
      ensures y < x
    {
      var k :| 0 <= k < |rs| && rs[k].Has(y);
    }
  }

  lemma SuffixAbove(rs: seq<Range>, x: int)
    requires forall k :: 0 <= k < |rs| ==> rs[k].first >= x
    ensures forall y :: y in Members(rs) ==> y >= x
  {
    forall y | y in Members(rs)
      ensures y >= x
    {
      var k :| 0 <= k < |rs| && rs[k].Has(y);
    }
  }

  lemma MemberAtPosition(rs: seq<Range>, x: nat, p: int)
    requires Canonical(rs) && IsPosition(rs, x, p)
    ensures x in Members(rs) <==> p < |rs| && rs[p].first <= x
  {
    if p < |rs| && rs[p].first <= x {
      assert rs[p].Has(x);
    }
    if x in Members(rs) {
      var k :| 0 <= k < |rs| && rs[k].Has(x);
      assert k == p;
    }
  }
}
