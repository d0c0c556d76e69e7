/** The maximal runs of a set: they are the entries of its canonical list, which is therefore the only one. */
module Runs {
  import opened Ranges

  /** A member whose predecessor is none. */
  predicate StartsRun(s: set<nat>, x: nat) {
    x in s && x - 1 !in s
  }

  ghost function RunStartsBelow(s: set<nat>, x: nat): set<nat> {
    set y | y in s && y < x && StartsRun(s, y)
  }

  /** How many maximal runs of the set start below the index. */
  ghost function RunsBelow(s: set<nat>, x: nat): nat {
    |RunStartsBelow(s, x)|
  }

  /** All of the range belongs to the set, and neither neighbour does. */
  ghost predicate IsRun(s: set<nat>, r: Range) {
    && r.first < r.second && r.first - 1 !in s && r.second !in s
    && forall x: nat :: r.Has(x) ==> x in s
  }

  lemma EntryIsRun(rs: seq<Range>, k: nat)
    requires Canonical(rs) && k < |rs|
    ensures IsRun(Members(rs), rs[k])
  {
    assert !Mem(rs, rs[k].first - 1) && !Mem(rs, rs[k].second);
  }

  lemma RunIsEntry(rs: seq<Range>, r: Range) returns (k: nat)
    requires Canonical(rs) && IsRun(Members(rs), r)
    ensures k < |rs| && rs[k] == r
  {
    assert r.Has(r.first);
    k :| 0 <= k < |rs| && rs[k].Has(r.first);
    EntryIsRun(rs, k);
    var e := rs[k];
    assert e.Has(r.first - 1) == (e.first < r.first);
    assert r.Has(e.second) == (e.second < r.second) && e.Has(r.second) == (r.second < e.second);
  }

  lemma StartIsFirst(rs: seq<Range>, y: nat) returns (k: nat)
    requires Canonical(rs) && StartsRun(Members(rs), y)
    ensures k < |rs| && rs[k].first == y
  {
    k :| 0 <= k < |rs| && rs[k].Has(y);
    assert rs[k].first < y ==> rs[k].Has(y - 1);
  }

  lemma OneMoreRun(rs: seq<Range>, j: nat)
    requires Canonical(rs) && 0 < j < |rs|
    ensures RunStartsBelow(Members(rs), rs[j].first) == RunStartsBelow(Members(rs), rs[j - 1].first) + {rs[j - 1].first}
  {
    var s, x := Members(rs), rs[j - 1].first;
    EntryIsRun(rs, j - 1);
    assert rs[j - 1].Has(x);
    hide Members;
    forall y | y in RunStartsBelow(s, rs[j].first)
      ensures y in RunStartsBelow(s, x) || y == x
    {
      var k := StartIsFirst(rs, y);
    }
  }

  lemma NoRunBelowFirst(rs: seq<Range>)
    requires Canonical(rs) && rs != []
    ensures RunStartsBelow(Members(rs), rs[0].first) == {}
  {
    var s := RunStartsBelow(Members(rs), rs[0].first);
    if y :| y in s {
      var k := StartIsFirst(rs, y);
    }
  }

  /** An entry stands at the place that the number of runs below it gives. */
  lemma {:induction false} PlaceIsRunsBelow(rs: seq<Range>, j: nat)
    requires Canonical(rs) && j < |rs|
    ensures RunsBelow(Members(rs), rs[j].first) == j
  {
    hide Members, StartsRun;
    if j == 0 {
      NoRunBelowFirst(rs);
    } else {
      OneMoreRun(rs, j);
      PlaceIsRunsBelow(rs, j - 1);
    }
  }

  lemma EntriesAgree(a: seq<Range>, b: seq<Range>, j: nat)
    requires Canonical(a) && Canonical(b) && Members(a) == Members(b) && j < |a|
    ensures j < |b| && a[j] == b[j]
  {
    EntryIsRun(a, j);
    var k := RunIsEntry(b, a[j]);
    PlaceIsRunsBelow(a, j);
    PlaceIsRunsBelow(b, k);
  }

  /** A set has only one canonical list. */
  lemma CanonicalIsUnique(a: seq<Range>, b: seq<Range>)
    requires Canonical(a) && Canonical(b) && Members(a) == Members(b)
    ensures a == b
  {
    if |a| < |b| {
      EntriesAgree(b, a, |a|);
    } else if |b| < |a| {
      EntriesAgree(a, b, |b|);
    } else {
      forall j | 0 <= j < |a|
        ensures a[j] == b[j]
      {
        EntriesAgree(a, b, j);
      }
    }
  }
}
