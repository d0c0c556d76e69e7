/** Bringing a list of changes into an order in which they can be carried out. */
module ChangeLists {
  import opened Schemas

  /** The partition as the library makes it: the first removal trades places with the last other change. */
  function Partition(cs: seq<SchemaChange>, first: nat, last: nat): (r: seq<SchemaChange>)
    requires first <= last <= |cs|
    ensures |r| == |cs|
    decreases last - first
  {
    if first == last then cs
    else if !cs[first].RemoveProperty? then Partition(cs, first + 1, last)
    else if cs[last - 1].RemoveProperty? then Partition(cs, first, last - 1)
    else Partition(cs[first := cs[last - 1]][last - 1 := cs[first]], first + 1, last - 1)
  }

  ghost predicate IsPartitioned(cs: seq<SchemaChange>) {
    forall i, j :: 0 <= i < j < |cs| && cs[i].RemoveProperty? ==> cs[j].RemoveProperty?
  }

  lemma SwapKeepsAll(cs: seq<SchemaChange>, i: nat, j: nat)
    requires i < j < |cs|
    ensures multiset(cs[i := cs[j]][j := cs[i]]) == multiset(cs)
  {
  }

  /** Nothing gets lost. */
  lemma {:induction false} PartitionKeepsAll(cs: seq<SchemaChange>, first: nat, last: nat)
    requires first <= last <= |cs|
    ensures multiset(Partition(cs, first, last)) == multiset(cs)
    decreases last - first
  {
    if first == last {
    } else if !cs[first].RemoveProperty? {
      PartitionKeepsAll(cs, first + 1, last);
    } else if cs[last - 1].RemoveProperty? {
      PartitionKeepsAll(cs, first, last - 1);
    } else {
      SwapKeepsAll(cs, first, last - 1);
      PartitionKeepsAll(cs[first := cs[last - 1]][last - 1 := cs[first]], first + 1, last - 1);
    }
  }

  /** Removals come last. */
  lemma {:induction false} PartitionIsPartitioned(cs: seq<SchemaChange>, first: nat, last: nat)
    requires first <= last <= |cs|
    requires forall k :: 0 <= k < first ==> !cs[k].RemoveProperty?
    requires forall k :: last <= k < |cs| ==> cs[k].RemoveProperty?
    ensures IsPartitioned(Partition(cs, first, last))
    decreases last - first
  {
    if first == last {
    } else if !cs[first].RemoveProperty? {
      PartitionIsPartitioned(cs, first + 1, last);
    } else if cs[last - 1].RemoveProperty? {
      PartitionIsPartitioned(cs, first, last - 1);
    } else {
      PartitionIsPartitioned(cs[first := cs[last - 1]][last - 1 := cs[first]], first + 1, last - 1);
    }
  }

  /** What has been passed is not moved any more. */
  lemma {:induction false} PartitionKeepsPassed(cs: seq<SchemaChange>, first: nat, last: nat, k: nat)
    requires k < first <= last <= |cs|
    ensures Partition(cs, first, last)[k] == cs[k]
    decreases last - first
  {
    if first == last {
    } else if !cs[first].RemoveProperty? {
      PartitionKeepsPassed(cs, first + 1, last, k);
    } else if cs[last - 1].RemoveProperty? {
      PartitionKeepsPassed(cs, first, last - 1, k);
    } else {
      PartitionKeepsPassed(cs[first := cs[last - 1]][last - 1 := cs[first]], first + 1, last - 1, k);
    }
  }

  lemma {:induction false} PartitionKeepsFront(cs: seq<SchemaChange>, k: nat)
    requires k <= |cs| && forall j :: 0 <= j < k ==> !cs[j].RemoveProperty?
    ensures Partition(cs, 0, |cs|)[..k] == cs[..k]
  {
    SkipFront(cs, 0, k);
    forall j | 0 <= j < k
      ensures Partition(cs, k, |cs|)[j] == cs[j]
    {
      PartitionKeepsPassed(cs, k, |cs|, j);
    }
  }

  lemma {:induction false} SkipFront(cs: seq<SchemaChange>, first: nat, k: nat)
    requires first <= k <= |cs| && forall j :: first <= j < k ==> !cs[j].RemoveProperty?
    ensures Partition(cs, first, |cs|) == Partition(cs, k, |cs|)
    decreases k - first
  {
    if first < k {
      SkipFront(cs, first + 1, k);
    }
  }

  lemma {:induction false} PartitionKeepsRest(cs: seq<SchemaChange>, first: nat, last: nat, k: nat)
    requires first <= last <= k < |cs|
    ensures Partition(cs, first, last)[k] == cs[k]
    decreases last - first
  {
    if first == last {
    } else if !cs[first].RemoveProperty? {
      PartitionKeepsRest(cs, first + 1, last, k);
    } else if cs[last - 1].RemoveProperty? {
      PartitionKeepsRest(cs, first, last - 1, k);
    } else {
      PartitionKeepsRest(cs[first := cs[last - 1]][last - 1 := cs[first]], first + 1, last - 1, k);
    }
  }

  /** Every change other than a removal has a place in the result. */
  lemma {:induction false} PlaceAfterPartition(cs: seq<SchemaChange>, first: nat, last: nat, x: nat) returns (a: nat)
    requires first <= x < last <= |cs| && !cs[x].RemoveProperty?
    ensures first <= a < last && Partition(cs, first, last)[a] == cs[x]
    decreases last - first
  {
    if !cs[first].RemoveProperty? {
      if x == first {
        a := first;
        PartitionKeepsPassed(cs, first + 1, last, a);
      } else {
        a := PlaceAfterPartition(cs, first + 1, last, x);
      }
    } else if cs[last - 1].RemoveProperty? {
      a := PlaceAfterPartition(cs, first, last - 1, x);
    } else {
      var swapped := cs[first := cs[last - 1]][last - 1 := cs[first]];
      if x == last - 1 {
        a := first;
        PartitionKeepsPassed(swapped, first + 1, last - 1, a);
      } else {
        a := PlaceAfterPartition(swapped, first + 1, last - 1, x);
      }
    }
  }

  /** The first removal, or the end, of a list in which only removals follow a removal. */
  ghost predicate IsBorder(cs: seq<SchemaChange>, m: nat) {
    && m <= |cs|
    && (forall k :: 0 <= k < m ==> !cs[k].RemoveProperty?)
    && (forall k :: m <= k < |cs| ==> cs[k].RemoveProperty?)
  }

  /**
   * Two neighbours that are not removals keep their order exactly when the second one stands in front of where
   * the removals will begin; otherwise they come out the other way round.
   */
  lemma {:induction false} NeighboursAfterPartition(cs: seq<SchemaChange>, first: nat, last: nat, x: nat, m: nat)
    returns (a: nat, b: nat)
    requires first <= x && x + 1 < last <= |cs| && !cs[x].RemoveProperty? && !cs[x + 1].RemoveProperty?
    requires IsBorder(Partition(cs, first, last), m)
    ensures first <= a < last && first <= b < last && a != b
    ensures Partition(cs, first, last)[a] == cs[x] && Partition(cs, first, last)[b] == cs[x + 1]
    ensures a < b <==> x + 1 < m
    decreases last - first
  {
    if !cs[first].RemoveProperty? {
      if x == first {
        a := first;
        PartitionKeepsPassed(cs, first + 1, last, a);
        b := PlaceAfterPartition(cs, first + 1, last, x + 1);
      } else {
        a, b := NeighboursAfterPartition(cs, first + 1, last, x, m);
      }
    } else if cs[last - 1].RemoveProperty? {
      a, b := NeighboursAfterPartition(cs, first, last - 1, x, m);
    } else {
      var swapped := cs[first := cs[last - 1]][last - 1 := cs[first]];
      if x + 1 == last - 1 {
        b := first;
        PartitionKeepsPassed(swapped, first + 1, last - 1, b);
        PartitionKeepsRest(swapped, first + 1, last - 1, last - 1);
        a := PlaceAfterPartition(swapped, first + 1, last - 1, x);
      } else {
        a, b := NeighboursAfterPartition(swapped, first + 1, last - 1, x, m);
      }
    }
  }

  // ----- counting removals -----

  function Removals(cs: seq<SchemaChange>): nat {
    if cs == [] then 0
    else Removals(cs[..|cs| - 1]) + if cs[|cs| - 1].RemoveProperty? then 1 else 0
  }

  lemma {:induction false} RemovalsConcat(a: seq<SchemaChange>, b: seq<SchemaChange>)
    ensures Removals(a + b) == Removals(a) + Removals(b)
    decreases b
  {
    if b == [] {
      assert a + b == a;
    } else {
      assert (a + b)[..|a + b| - 1] == a + b[..|b| - 1];
      RemovalsConcat(a, b[..|b| - 1]);
    }
  }

  lemma {:induction false} SwapKeepsRemovals(cs: seq<SchemaChange>, i: nat, j: nat)
    requires i < j < |cs|
    ensures Removals(cs[i := cs[j]][j := cs[i]]) == Removals(cs)
  {
    var a, b, d, x, y := cs[..i], cs[i + 1..j], cs[j + 1..], [cs[i]], [cs[j]];
    assert cs == a + x + b + y + d && cs[i := cs[j]][j := cs[i]] == a + y + b + x + d;
    FiveParts(a, x, b, y, d);
    FiveParts(a, y, b, x, d);
  }

  lemma {:induction false} FiveParts(a: seq<SchemaChange>, x: seq<SchemaChange>, b: seq<SchemaChange>, y: seq<SchemaChange>,
                                     d: seq<SchemaChange>)
    ensures Removals(a + x + b + y + d) == Removals(a) + Removals(x) + Removals(b) + Removals(y) + Removals(d)
  {
    RemovalsConcat(a, x);
    RemovalsConcat(a + x, b);
    RemovalsConcat(a + x + b, y);
    RemovalsConcat(a + x + b + y, d);
  }

  lemma {:induction false} PartitionKeepsRemovals(cs: seq<SchemaChange>, first: nat, last: nat)
    requires first <= last <= |cs|
    ensures Removals(Partition(cs, first, last)) == Removals(cs)
    decreases last - first
  {
    if first == last {
    } else if !cs[first].RemoveProperty? {
      PartitionKeepsRemovals(cs, first + 1, last);
    } else if cs[last - 1].RemoveProperty? {
      PartitionKeepsRemovals(cs, first, last - 1);
    } else {
      SwapKeepsRemovals(cs, first, last - 1);
      PartitionKeepsRemovals(cs[first := cs[last - 1]][last - 1 := cs[first]], first + 1, last - 1);
    }
  }

  lemma {:induction false} BorderIsCounted(cs: seq<SchemaChange>)
    requires IsPartitioned(cs)
    ensures Removals(cs) <= |cs| && IsBorder(cs, |cs| - Removals(cs))
  {
    if cs != [] {
      BorderIsCounted(cs[..|cs| - 1]);
      var m := |cs| - 1 - Removals(cs[..|cs| - 1]);
      assert m < |cs| - 1 ==> cs[m] == cs[..|cs| - 1][m] && cs[m].RemoveProperty?;
      forall k | 0 <= k < |cs| - 1
        ensures cs[k] == cs[..|cs| - 1][k]
      {
      }
    }
  }

  /**
   * What the partition does to two neighbours that are not removals: it swaps them if and only if the place of the
   * second one is at least the number of changes that are not removals.
   */
  lemma PartitionSwapsNeighbours(cs: seq<SchemaChange>, x: nat) returns (a: nat, b: nat)
    requires x + 1 < |cs| && !cs[x].RemoveProperty? && !cs[x + 1].RemoveProperty?
    ensures Removals(cs) <= |cs| && IsBorder(Partition(cs, 0, |cs|), |cs| - Removals(cs))
    ensures a < |cs| && b < |cs| && a != b && Partition(cs, 0, |cs|)[a] == cs[x] && Partition(cs, 0, |cs|)[b] == cs[x + 1]
    ensures b < a <==> x + 1 >= |cs| - Removals(cs)
  {
    PartitionIsPartitioned(cs, 0, |cs|);
    PartitionKeepsRemovals(cs, 0, |cs|);
    BorderIsCounted(Partition(cs, 0, |cs|));
    a, b := NeighboursAfterPartition(cs, 0, |cs|, x, |cs| - Removals(cs));
  }

  // ----- lists that differ in their removals only -----

  ghost predicate SameOrder(a: seq<SchemaChange>, b: seq<SchemaChange>) {
    |a| == |b| && forall k :: 0 <= k < |a| ==> a[k] == b[k] || (a[k].RemoveProperty? && b[k].RemoveProperty?)
  }

  lemma {:induction false} PartitionKeepsOrder(a: seq<SchemaChange>, b: seq<SchemaChange>, first: nat, last: nat)
    requires SameOrder(a, b) && first <= last <= |a|
    ensures SameOrder(Partition(a, first, last), Partition(b, first, last))
    decreases last - first
  {
    if first == last {
    } else if !a[first].RemoveProperty? {
      PartitionKeepsOrder(a, b, first + 1, last);
    } else if a[last - 1].RemoveProperty? {
      PartitionKeepsOrder(a, b, first, last - 1);
    } else {
      PartitionKeepsOrder(a[first := a[last - 1]][last - 1 := a[first]],
                          b[first := b[last - 1]][last - 1 := b[first]], first + 1, last - 1);
    }
  }

  method PartitionRemovals(cs: seq<SchemaChange>) returns (r: seq<SchemaChange>, border: nat)
    ensures r == Partition(cs, 0, |cs|)
    ensures multiset(r) == multiset(cs) && border <= |r|
    ensures forall k :: 0 <= k < border ==> !r[k].RemoveProperty?
    ensures forall k :: border <= k < |r| ==> r[k].RemoveProperty?
  {
    PartitionKeepsAll(cs, 0, |cs|);
    r := cs;
    var first, last := 0, |cs|;
    while first < last
      invariant first <= last <= |r| == |cs|
      invariant Partition(r, first, last) == Partition(cs, 0, |cs|)
      invariant forall k :: 0 <= k < first ==> !r[k].RemoveProperty?
      invariant forall k :: last <= k < |r| ==> r[k].RemoveProperty?
      decreases last - first
    {
      if !r[first].RemoveProperty? {
        first := first + 1;
      } else {
        last := last - 1;
        while first < last && r[last].RemoveProperty?
          invariant first <= last < |r|
          invariant Partition(r, first, last + 1) == Partition(cs, 0, |cs|)
          invariant forall k :: last < k < |r| ==> r[k].RemoveProperty?
        {
          last := last - 1;
        }
        if first < last {
          r := r[first := r[last]][last := r[first]];
          first := first + 1;
        }
      }
    }
    border := first;
  }

  // ----- sorting the removals by descending column -----

  ghost predicate Descending(cs: seq<SchemaChange>) {
    && (forall k :: 0 <= k < |cs| ==> cs[k].RemoveProperty?)
    && (forall i, j :: 0 <= i < j < |cs| ==> cs[i].property.tableColumn >= cs[j].property.tableColumn)
  }

  lemma InsertedIsDescending(r: seq<SchemaChange>, p: nat, c: SchemaChange)
    requires Descending(r) && p <= |r| && c.RemoveProperty?
    requires forall i :: 0 <= i < p ==> r[i].property.tableColumn >= c.property.tableColumn
    requires p < |r| ==> r[p].property.tableColumn < c.property.tableColumn
    ensures Descending(r[..p] + [c] + r[p..])
  {
    var s := r[..p] + [c] + r[p..];
    forall k | 0 <= k < |s|
      ensures s[k] == if k < p then r[k] else if k == p then c else r[k - 1]
    {
    }
  }

  lemma InsertedCount(r: seq<SchemaChange>, p: nat, c: SchemaChange)
    requires p <= |r|
    ensures multiset(r[..p] + [c] + r[p..]) == multiset(r) + multiset{c}
  {
    assert r == r[..p] + r[p..];
  }

  method PlaceOf(r: seq<SchemaChange>, c: SchemaChange) returns (p: nat)
    requires Descending(r) && c.RemoveProperty?
    ensures p <= |r| && forall i :: 0 <= i < p ==> r[i].property.tableColumn >= c.property.tableColumn
    ensures p < |r| ==> r[p].property.tableColumn < c.property.tableColumn
  {
    p := 0;
    while p < |r| && r[p].property.tableColumn >= c.property.tableColumn
      invariant p <= |r| && forall i :: 0 <= i < p ==> r[i].property.tableColumn >= c.property.tableColumn
    {
      p := p + 1;
    }
  }

  method SortRemovals(cs: seq<SchemaChange>) returns (r: seq<SchemaChange>)
    requires forall k :: 0 <= k < |cs| ==> cs[k].RemoveProperty?
    ensures multiset(r) == multiset(cs) && Descending(r)
  {
    r := [];
    var k := 0;
    while k < |cs|
      invariant k <= |cs| && multiset(r) == multiset(cs[..k]) && Descending(r)
    {
      var p := PlaceOf(r, cs[k]);
      InsertedIsDescending(r, p, cs[k]);
      InsertedCount(r, p, cs[k]);
      hide Descending;
      OneMoreCounted(cs, k);
      r := r[..p] + [cs[k]] + r[p..];
      k := k + 1;
    }
    assert cs[..k] == cs;
  }

  lemma OneMoreCounted(cs: seq<SchemaChange>, k: nat)
    requires k < |cs|
    ensures multiset(cs[..k + 1]) == multiset(cs[..k]) + multiset{cs[k]}
  {
    assert cs[..k + 1] == cs[..k] + [cs[k]];
  }

  // ----- what a permutation keeps -----

  lemma {:induction false} DistinctCounts(s: seq<SchemaChange>)
    requires Distinct(s)
    ensures forall c :: multiset(s)[c] <= 1
  {
    if s != [] {
      var s0, c := s[..|s| - 1], s[|s| - 1];
      assert s == s0 + [c];
      DistinctCounts(s0);
      assert c !in s0;
    }
  }

  lemma CountsDistinct(s: seq<SchemaChange>)
    requires forall c :: multiset(s)[c] <= 1
    ensures Distinct(s)
  {
    forall i, j | 0 <= i < j < |s|
      ensures s[i] != s[j]
    {
      assert s == s[..j] + [s[j]] + s[j + 1..];
      var front, rest := s[..j], s[j + 1..];
      assert multiset(s) == multiset(front) + multiset{s[j]} + multiset(rest);
      assert multiset(s)[s[j]] <= 1;
      assert s[i] in front && multiset(front)[s[i]] > 0;
    }
  }

  lemma PermutationKeeps(a: seq<SchemaChange>, b: seq<SchemaChange>)
    requires multiset(a) == multiset(b)
    ensures Distinct(a) ==> Distinct(b)
    ensures forall c :: c in a <==> c in b
  {
    if Distinct(a) {
      DistinctCounts(a);
      CountsDistinct(b);
    }
    forall c
      ensures c in a <==> c in b
    {
      assert c in a <==> c in multiset(a);
      assert c in b <==> c in multiset(b);
    }
  }
}
