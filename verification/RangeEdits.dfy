/** What local edits of a canonical list do to the set it stands for. */
module RangeEdits {
  import opened Ranges
  import opened PositionalSets

  /** Entries i..j replaced by mid, and everything from j on moved by d. */
  function Spliced(rs: seq<Range>, i: nat, j: nat, mid: seq<Range>, d: int): seq<Range>
    requires i <= j <= |rs|
    requires Movable(rs[j..], d)
  {
    rs[..i] + mid + Shifted(rs[j..], d)
  }

  predicate Movable(rs: seq<Range>, d: int) {
    forall k :: 0 <= k < |rs| ==> rs[k].first + d >= 0 && rs[k].second + d >= 0
  }

  lemma ShiftedByZero(rs: seq<Range>)
    ensures Shifted(rs, 0) == rs
  {
  }

  lemma SplicedIsCanonical(rs: seq<Range>, i: nat, j: nat, mid: seq<Range>, d: int)
    requires Canonical(rs) && i <= j <= |rs| && Movable(rs[j..], d) && Canonical(mid)
    requires mid != [] && i > 0 ==> rs[i - 1].second < mid[0].first
    requires mid != [] && j < |rs| ==> mid[|mid| - 1].second < rs[j].first + d
    requires mid == [] && i > 0 && j < |rs| ==> rs[i - 1].second < rs[j].first + d
    ensures Canonical(Spliced(rs, i, j, mid, d))
  {
    var a, c := rs[..i], Shifted(rs[j..], d);
    CanonicalConcat(a, mid);
    CanonicalConcat(a + mid, c);
  }

  ghost function Moved(B: set<nat>, d: int): (r: set<nat>)
    ensures forall y: nat :: y in r <==> y - d >= 0 && y - d in B
  {
    var r := set x | x in B && x + d >= 0 :: x + d;
    assert forall y: nat :: y - d >= 0 && y - d in B ==> y in r by {
      forall y: nat | y - d >= 0 && y - d in B
        ensures y in r
      {
        var x := y - d;
        assert x in B && x + d == y;
      }
    }
    r
  }

  lemma MovedMembers(rs: seq<Range>, d: int)
    requires Movable(rs, d)
    ensures Members(Shifted(rs, d)) == Moved(Members(rs), d)
  {
    MembersShifted(rs, d);
  }

  lemma SplicedMembers(rs: seq<Range>, i: nat, j: nat, mid: seq<Range>, d: int)
    requires i <= j <= |rs| && Movable(rs[j..], d)
    ensures Members(Spliced(rs, i, j, mid, d)) == Members(rs[..i]) + Members(mid) + Moved(Members(rs[j..]), d)
  {
    MembersConcat(rs[..i] + mid, Shifted(rs[j..], d));
    MembersConcat(rs[..i], mid);
    MovedMembers(rs[j..], d);
  }

  ghost predicate AllFrom(B: set<nat>, m: int) {
    forall b :: b in B ==> b >= m
  }

  ghost predicate AllUpTo(A: set<nat>, m: int) {
    forall a :: a in A ==> a < m
  }

  /** Entry i apart: the members before it, its own interval, and the members after it. */
  lemma MembersAt(rs: seq<Range>, i: nat)
    requires Canonical(rs) && i < |rs|
    ensures Members(rs) == Members(rs[..i]) + Interval(rs[i].first, rs[i].second) + Members(rs[i + 1..])
    ensures AllUpTo(Members(rs[..i]), rs[i].first - 1) && AllFrom(Members(rs[i + 1..]), rs[i].second + 1)
  {
    MembersConcat(rs[..i] + [rs[i]], rs[i + 1..]);
    MembersConcat(rs[..i], [rs[i]]);
    assert rs == rs[..i] + [rs[i]] + rs[i + 1..];
    MembersSingle(rs[i]);
    PrefixBelow(rs[..i], rs[i].first - 1);
    SuffixAbove(rs[i + 1..], rs[i].second + 1);
  }

  /** The members before a position, and those from there on. */
  lemma MembersAround(rs: seq<Range>, index: nat, p: nat)
    requires Canonical(rs) && IsPosition(rs, index, p)
    ensures Members(rs) == Members(rs[..p]) + Members(rs[p..])
    ensures AllUpTo(Members(rs[..p]), index)
    ensures p < |rs| ==> AllFrom(Members(rs[p..]), rs[p].first)
  {
    MembersSplit(rs, p);
    PrefixBelow(rs[..p], index);
    if p < |rs| {
      SuffixAbove(rs[p..], rs[p].first);
    }
  }

  /** The members below y, counted by the widths of the whole entries before y and the part of the next one. */
  lemma {:induction false} CountBelowByWidth(rs: seq<Range>, y: nat, p: nat)
    requires Canonical(rs) && p <= |rs|
    requires forall k :: 0 <= k < p ==> rs[k].second <= y
    requires p < |rs| ==> y <= rs[p].second
    ensures CountBelow(Members(rs), y) == Width(rs[..p]) + (if p < |rs| && rs[p].first < y then y - rs[p].first else 0)
  {
    PrefixIsCanonical(rs, p);
    WidthCountsMembers(rs[..p]);
    PrefixBelow(rs[..p], y);
    if p < |rs| {
      MembersAt(rs, p);
      CountBelowParts(Members(rs[..p]), rs[p].first, rs[p].second, Members(rs[p + 1..]), y);
    } else {
      assert rs[..p] == rs;
      assert Below(Members(rs), y) == Members(rs);
    }
  }

  lemma PrefixIsCanonical(rs: seq<Range>, p: nat)
    requires Canonical(rs) && p <= |rs|
    ensures Canonical(rs[..p])
  {
  }

  lemma CountBelowParts(A: set<nat>, lo: nat, hi: nat, B: set<nat>, y: nat)
    requires AllUpTo(A, y) && AllUpTo(A, lo) && AllFrom(B, hi) && y <= hi
    ensures CountBelow(A + Interval(lo, hi) + B, y) == |A| + (if lo < y then y - lo else 0)
  {
    if lo < y {
      IntervalSize(lo, y);
      assert Below(A + Interval(lo, hi) + B, y) == A + Interval(lo, y);
      assert A !! Interval(lo, y);
    } else {
      assert Below(A + Interval(lo, hi) + B, y) == A;
    }
  }

  ghost function MembersIn(S: set<nat>, lo: nat, hi: nat): set<nat> {
    set x | x in S && lo <= x < hi
  }

  lemma CountInIsDifference(S: set<nat>, lo: nat, hi: nat)
    requires lo <= hi
    ensures |MembersIn(S, lo, hi)| == CountBelow(S, hi) - CountBelow(S, lo)
  {
    assert Below(S, hi) == Below(S, lo) + MembersIn(S, lo, hi);
  }

  // ----- adding one index -----

  /** What do_add makes of the list, with p the position of the index. */
  function Added(rs: seq<Range>, p: nat, index: nat): seq<Range>
    requires p <= |rs|
  {
    if p < |rs| && rs[p].first <= index < rs[p].second then rs
    else if p > 0 && rs[p - 1].second == index then
      if p < |rs| && rs[p].first == index + 1
      then rs[..p - 1] + [Range(rs[p - 1].first, rs[p].second)] + rs[p + 1..]
      else rs[p - 1 := Range(rs[p - 1].first, index + 1)]
    else if p < |rs| && rs[p].first == index + 1 then rs[p := Range(index, rs[p].second)]
    else rs[..p] + [Range(index, index + 1)] + rs[p..]
  }

  function AddedPosition(rs: seq<Range>, p: nat, index: nat): nat
    requires p <= |rs|
  {
    if !(p < |rs| && rs[p].first <= index < rs[p].second) && p > 0 && rs[p - 1].second == index then p - 1 else p
  }

  lemma AddedAsSplice(rs: seq<Range>, p: nat, index: nat)
    requires IsPosition(rs, index, p) && !(p < |rs| && rs[p].first <= index)
    ensures Movable(rs[p..], 0) && (p < |rs| ==> Movable(rs[p + 1..], 0))
    ensures var left := p > 0 && rs[p - 1].second == index;
            var right := p < |rs| && rs[p].first == index + 1;
            var i, j := if left then p - 1 else p, if right then p + 1 else p;
            Added(rs, p, index) ==
              Spliced(rs, i, j, [Range(if left then rs[p - 1].first else index, if right then rs[p].second else index + 1)], 0)
  {
    var left := p > 0 && rs[p - 1].second == index;
    var right := p < |rs| && rs[p].first == index + 1;
    var i, j := if left then p - 1 else p, if right then p + 1 else p;
    var r := Range(if left then rs[p - 1].first else index, if right then rs[p].second else index + 1);
    ShiftedByZero(rs[j..]);
    AddedShape(rs, p, index);
  }

  lemma AddedShape(rs: seq<Range>, p: nat, index: nat)
    requires p <= |rs| && !(p < |rs| && rs[p].first <= index)
    ensures var left := p > 0 && rs[p - 1].second == index;
            var right := p < |rs| && rs[p].first == index + 1;
            var i, j := if left then p - 1 else p, if right then p + 1 else p;
            Added(rs, p, index) ==
              rs[..i] + [Range(if left then rs[p - 1].first else index, if right then rs[p].second else index + 1)] + rs[j..]
  {
  }

  lemma AddedIsCanonical(rs: seq<Range>, p: nat, index: nat)
    requires Canonical(rs) && IsPosition(rs, index, p)
    ensures Canonical(Added(rs, p, index))
  {
    if !(p < |rs| && rs[p].first <= index) {
      AddedAsSplice(rs, p, index);
      var left := p > 0 && rs[p - 1].second == index;
      var right := p < |rs| && rs[p].first == index + 1;
      var r := Range(if left then rs[p - 1].first else index, if right then rs[p].second else index + 1);
      SplicedIsCanonical(rs, if left then p - 1 else p, if right then p + 1 else p, [r], 0);
    }
  }

  lemma AddedPositionIsPosition(rs: seq<Range>, p: nat, index: nat)
    requires Canonical(rs) && IsPosition(rs, index, p)
    ensures IsPosition(Added(rs, p, index), index, AddedPosition(rs, p, index))
    ensures var q := AddedPosition(rs, p, index);
            q < |Added(rs, p, index)| && Added(rs, p, index)[q].first <= index
  {
  }

  /** Whatever it joins, adding an index adds exactly that member. */
  lemma AddedMembers(rs: seq<Range>, p: nat, index: nat)
    requires Canonical(rs) && IsPosition(rs, index, p)
    ensures Members(Added(rs, p, index)) == Members(rs) + {index}
  {
    if p < |rs| && rs[p].first <= index {
      MemberAtPosition(rs, index, p);
    } else {
      var left := p > 0 && rs[p - 1].second == index;
      var right := p < |rs| && rs[p].first == index + 1;
      var i, j := if left then p - 1 else p, if right then p + 1 else p;
      var r := Range(if left then rs[p - 1].first else index, if right then rs[p].second else index + 1);
      AddedAsSplice(rs, p, index);
      JoinedByIndex(rs, i, j, p, index, r);
    }
  }

  lemma IntervalAround(lo: nat, index: nat, hi: nat)
    requires lo <= index < hi
    ensures Interval(lo, hi) == Interval(lo, index) + {index} + Interval(index + 1, hi)
    ensures lo == index ==> Interval(lo, index) == {}
    ensures index + 1 == hi ==> Interval(index + 1, hi) == {}
  {
  }

  lemma JoinedByIndex(rs: seq<Range>, i: nat, j: nat, p: nat, index: nat, r: Range)
    requires i <= p <= j <= |rs| && p - i <= 1 && j - p <= 1 && Movable(rs[j..], 0)
    requires r == Range(if i < p then rs[i].first else index, if p < j then rs[p].second else index + 1)
    requires i < p ==> rs[i].first < rs[i].second == index
    requires p < j ==> index + 1 == rs[p].first < rs[p].second
    ensures Members(Spliced(rs, i, j, [r], 0)) == Members(rs) + {index}
  {
    SplicedMembers(rs, i, j, [r], 0);
    MembersSingle(r);
    MembersJoined(rs, i, j, p);
    assert Moved(Members(rs[j..]), 0) == Members(rs[j..]);
    IntervalAround(r.first, index, r.second);
  }

  /** Members(rs) regrouped around the at most two entries i..j next to position p. */
  lemma MembersJoined(rs: seq<Range>, i: nat, j: nat, p: nat)
    requires i <= p <= j <= |rs| && p - i <= 1 && j - p <= 1
    ensures Members(rs) == Members(rs[..i])
                         + (if i < p then Interval(rs[i].first, rs[i].second) else {})
                         + (if p < j then Interval(rs[p].first, rs[p].second) else {})
                         + Members(rs[j..])
  {
    var left := if i < p then [rs[i]] else [];
    var right := if p < j then [rs[p]] else [];
    assert rs == rs[..i] + left + right + rs[j..];
    MembersConcat(rs[..i] + left + right, rs[j..]);
    MembersConcat(rs[..i] + left, right);
    MembersConcat(rs[..i], left);
    if i < p {
      MembersSingle(rs[i]);
    }
    if p < j {
      MembersSingle(rs[p]);
    }
  }

  // ----- inserting and making room -----

  lemma ShiftForParts(A: set<nat>, B: set<nat>, index: nat, count: nat)
    requires AllUpTo(A, index) && AllFrom(B, index)
    ensures ShiftForInsertAt(A + B, index, count) == A + Moved(B, count)
  {
  }

  /** Making room in front of the entry at p, which starts at or after the index. */
  lemma RoomMade(rs: seq<Range>, p: nat, index: nat, count: nat)
    requires Canonical(rs) && IsPosition(rs, index, p) && count > 0
    requires p < |rs| && rs[p].first >= index
    ensures Canonical(Spliced(rs, p, p, [], count))
    ensures Members(Spliced(rs, p, p, [], count)) == ShiftForInsertAt(Members(rs), index, count)
  {
    SplicedIsCanonical(rs, p, p, [], count);
    SplicedMembers(rs, p, p, [], count);
    MembersAround(rs, index, p);
    ShiftForParts(Members(rs[..p]), Members(rs[p..]), index, count);
  }

  /** Making room inside the entry at p splits it. */
  lemma RoomMadeInside(rs: seq<Range>, p: nat, index: nat, count: nat)
    requires Canonical(rs) && IsPosition(rs, index, p) && count > 0
    requires p < |rs| && rs[p].first < index
    ensures var mid := [Range(rs[p].first, index), Range(index + count, rs[p].second + count)];
            Members(Spliced(rs, p, p + 1, mid, count)) == ShiftForInsertAt(Members(rs), index, count)
  {
    MembersAt(rs, p);
    SplitEntry(rs, p, index, count);
  }

  lemma SplitEntry(rs: seq<Range>, p: nat, index: nat, count: nat)
    requires p < |rs| && rs[p].first < index < rs[p].second
    requires Movable(rs[p + 1..], count)
    requires Members(rs) == Members(rs[..p]) + Interval(rs[p].first, rs[p].second) + Members(rs[p + 1..])
    requires AllUpTo(Members(rs[..p]), rs[p].first - 1) && AllFrom(Members(rs[p + 1..]), rs[p].second + 1)
    ensures var mid := [Range(rs[p].first, index), Range(index + count, rs[p].second + count)];
            Members(Spliced(rs, p, p + 1, mid, count)) == ShiftForInsertAt(Members(rs), index, count)
  {
    var mid := [Range(rs[p].first, index), Range(index + count, rs[p].second + count)];
    SplicedMembers(rs, p, p + 1, mid, count);
    MembersPair(mid[0], mid[1]);
    ShiftForSplit(Members(rs[..p]), rs[p].first, rs[p].second, Members(rs[p + 1..]), index, count);
  }

  lemma ShiftForSplit(A: set<nat>, lo: nat, hi: nat, B: set<nat>, index: nat, count: nat)
    requires AllUpTo(A, lo - 1) && AllFrom(B, hi + 1) && lo < index < hi
    ensures ShiftForInsertAt(A + Interval(lo, hi) + B, index, count)
         == A + (Interval(lo, index) + Interval(index + count, hi + count)) + Moved(B, count)
  {
    forall y: nat
      ensures y in ShiftForInsertAt(A + Interval(lo, hi) + B, index, count)
         <==> y in A + (Interval(lo, index) + Interval(index + count, hi + count)) + Moved(B, count)
    {
      var S := A + Interval(lo, hi) + B;
      if y < index {
        assert y in ShiftForInsertAt(S, index, count) <==> y in S;
        assert y in S <==> y in A || y in Interval(lo, index);
      } else if y < index + count {
        assert y !in ShiftForInsertAt(S, index, count);
      } else {
        assert y in ShiftForInsertAt(S, index, count) <==> y - count in S;
        assert y - count in S <==> lo <= y - count < hi || y - count in B;
      }
    }
  }

  lemma MembersPair(r: Range, r': Range)
    ensures Members([r, r']) == Interval(r.first, r.second) + Interval(r'.first, r'.second)
  {
    assert [r, r'] == [r] + [r'];
    MembersConcat([r], [r']);
    MembersSingle(r);
    MembersSingle(r');
  }

  lemma RoomMadeInsideIsCanonical(rs: seq<Range>, p: nat, index: nat, count: nat)
    requires Canonical(rs) && IsPosition(rs, index, p) && count > 0
    requires p < |rs| && rs[p].first < index
    ensures var mid := [Range(rs[p].first, index), Range(index + count, rs[p].second + count)];
            Canonical(Spliced(rs, p, p + 1, mid, count))
  {
    var mid := [Range(rs[p].first, index), Range(index + count, rs[p].second + count)];
    SplicedIsCanonical(rs, p, p + 1, mid, count);
  }

  /** Inserting inside, or right at the start of, the entry at p widens it. */
  lemma GrownInside(rs: seq<Range>, p: nat, index: nat, count: nat)
    requires Canonical(rs) && IsPosition(rs, index, p) && count > 0
    requires p < |rs| && rs[p].first <= index
    ensures var mid := [Range(rs[p].first, rs[p].second + count)];
            && Canonical(Spliced(rs, p, p + 1, mid, count))
            && Members(Spliced(rs, p, p + 1, mid, count)) == InsertAt(Members(rs), index, count)
  {
    var mid := [Range(rs[p].first, rs[p].second + count)];
    SplicedIsCanonical(rs, p, p + 1, mid, count);
    MembersAt(rs, p);
    GrowEntry(rs, p, index, count);
  }

  lemma GrowEntry(rs: seq<Range>, p: nat, index: nat, count: nat)
    requires p < |rs| && rs[p].Has(index) && Movable(rs[p + 1..], count)
    requires Members(rs) == Members(rs[..p]) + Interval(rs[p].first, rs[p].second) + Members(rs[p + 1..])
    requires AllUpTo(Members(rs[..p]), rs[p].first - 1) && AllFrom(Members(rs[p + 1..]), rs[p].second + 1)
    ensures var mid := [Range(rs[p].first, rs[p].second + count)];
            Members(Spliced(rs, p, p + 1, mid, count)) == InsertAt(Members(rs), index, count)
  {
    var mid := [Range(rs[p].first, rs[p].second + count)];
    SplicedMembers(rs, p, p + 1, mid, count);
    MembersSingle(mid[0]);
    InsertAtParts(Members(rs[..p]), rs[p].first, rs[p].second, Members(rs[p + 1..]), index, count);
  }

  lemma InsertAtParts(A: set<nat>, lo: nat, hi: nat, B: set<nat>, index: nat, count: nat)
    requires AllUpTo(A, lo - 1) && AllFrom(B, hi + 1) && lo <= index < hi
    ensures InsertAt(A + Interval(lo, hi) + B, index, count) == A + Interval(lo, hi + count) + Moved(B, count)
  {
  }

  // ----- erasing one index -----

  lemma EraseAtParts(A: set<nat>, lo: nat, hi: nat, B: set<nat>, index: nat)
    requires AllUpTo(A, index) && AllFrom(B, index + 1) && lo <= index < hi && AllFrom(B, hi)
    ensures EraseAt(A + Interval(lo, hi) + B, index) == A + Interval(lo, hi - 1) + Moved(B, -1)
  {
  }

  lemma EraseBetween(A: set<nat>, B: set<nat>, index: nat)
    requires AllUpTo(A, index) && AllFrom(B, index + 1)
    ensures EraseAt(A + B, index) == A + Moved(B, -1)
  {
  }

  lemma ErasedWholeEntry(rs: seq<Range>, p: nat, index: nat)
    requires Canonical(rs) && p < |rs| && rs[p] == Range(index, index + 1)
    ensures Canonical(Spliced(rs, p, p + 1, [], -1))
    ensures Members(Spliced(rs, p, p + 1, [], -1)) == EraseAt(Members(rs), index)
  {
    SplicedIsCanonical(rs, p, p + 1, [], -1);
    MembersAt(rs, p);
    EraseEntry(rs, p, [], index);
  }

  /** The entry at p loses index, and everything after it moves down. */
  lemma EraseEntry(rs: seq<Range>, p: nat, mid: seq<Range>, index: nat)
    requires p < |rs| && rs[p].Has(index) && Movable(rs[p + 1..], -1)
    requires mid == if rs[p].first + 1 == rs[p].second then [] else [Range(rs[p].first, rs[p].second - 1)]
    requires Members(rs) == Members(rs[..p]) + Interval(rs[p].first, rs[p].second) + Members(rs[p + 1..])
    requires AllUpTo(Members(rs[..p]), rs[p].first - 1) && AllFrom(Members(rs[p + 1..]), rs[p].second + 1)
    ensures Members(Spliced(rs, p, p + 1, mid, -1)) == EraseAt(Members(rs), index)
  {
    SplicedMembers(rs, p, p + 1, mid, -1);
    EraseAtParts(Members(rs[..p]), rs[p].first, rs[p].second, Members(rs[p + 1..]), index);
    if mid == [] {
      assert Interval(index, index) == {} == Members(mid);
    } else {
      MembersSingle(mid[0]);
    }
  }

  lemma ErasedInside(rs: seq<Range>, p: nat, index: nat)
    requires Canonical(rs) && p < |rs| && rs[p].Has(index) && rs[p].first + 1 < rs[p].second
    ensures var mid := [Range(rs[p].first, rs[p].second - 1)];
            && Canonical(Spliced(rs, p, p + 1, mid, -1))
            && Members(Spliced(rs, p, p + 1, mid, -1)) == EraseAt(Members(rs), index)
  {
    var mid := [Range(rs[p].first, rs[p].second - 1)];
    SplicedIsCanonical(rs, p, p + 1, mid, -1);
    MembersAt(rs, p);
    EraseEntry(rs, p, mid, index);
  }

  /** The erased index was the only gap between two entries, which now join. */
  lemma ErasedGap(rs: seq<Range>, p: nat, index: nat)
    requires Canonical(rs) && IsPosition(rs, index, p) && 0 < p < |rs| && index < rs[p].first
    requires rs[p - 1].second + 1 == rs[p].first
    ensures var mid := [Range(rs[p - 1].first, rs[p - 1].second + (rs[p].second - rs[p].first))];
            && Canonical(Spliced(rs, p - 1, p + 1, mid, -1))
            && Members(Spliced(rs, p - 1, p + 1, mid, -1)) == EraseAt(Members(rs), index)
  {
    var mid := [Range(rs[p - 1].first, rs[p - 1].second + (rs[p].second - rs[p].first))];
    SplicedIsCanonical(rs, p - 1, p + 1, mid, -1);
    MembersAt(rs, p);
    MembersAt(rs, p - 1);
    EraseGap(rs, p, mid, index);
  }

  lemma EraseGap(rs: seq<Range>, p: nat, mid: seq<Range>, index: nat)
    requires 0 < p < |rs| && Movable(rs[p + 1..], -1)
    requires rs[p - 1].first < rs[p - 1].second == index && index + 1 == rs[p].first < rs[p].second
    requires mid == [Range(rs[p - 1].first, rs[p - 1].second + (rs[p].second - rs[p].first))]
    requires AllUpTo(Members(rs[..p - 1]), rs[p - 1].first - 1) && AllFrom(Members(rs[p + 1..]), rs[p].second + 1)
    ensures Members(Spliced(rs, p - 1, p + 1, mid, -1)) == EraseAt(Members(rs), index)
  {
    SplicedMembers(rs, p - 1, p + 1, mid, -1);
    MembersSingle(mid[0]);
    MembersJoined(rs, p - 1, p + 1, p);
    EraseGapParts(Members(rs[..p - 1]), rs[p - 1], rs[p], Members(rs[p + 1..]), index);
  }

  lemma EraseGapParts(A: set<nat>, r: Range, r': Range, B: set<nat>, index: nat)
    requires AllUpTo(A, r.first - 1) && AllFrom(B, r'.second + 1)
    requires r.first < r.second == index && index + 1 == r'.first < r'.second
    ensures EraseAt(A + Interval(r.first, r.second) + Interval(r'.first, r'.second) + B, index)
         == A + Interval(r.first, r.second + (r'.second - r'.first)) + Moved(B, -1)
  {
  }

  lemma ErasedOutside(rs: seq<Range>, p: nat, index: nat)
    requires Canonical(rs) && IsPosition(rs, index, p) && p < |rs| && index < rs[p].first
    requires p > 0 ==> rs[p - 1].second + 1 < rs[p].first
    ensures Canonical(Spliced(rs, p, p, [], -1))
    ensures Members(Spliced(rs, p, p, [], -1)) == EraseAt(Members(rs), index)
  {
    SplicedIsCanonical(rs, p, p, [], -1);
    SplicedMembers(rs, p, p, [], -1);
    MembersAround(rs, index, p);
    EraseBetween(Members(rs[..p]), Members(rs[p..]), index);
  }

  lemma NothingAtOrAfter(rs: seq<Range>, index: nat)
    requires Canonical(rs) && IsPosition(rs, index, |rs|)
    ensures forall x :: x in Members(rs) ==> x < index
    ensures EraseAt(Members(rs), index) == Members(rs)
    ensures forall count: nat :: ShiftForInsertAt(Members(rs), index, count) == Members(rs)
  {
    PrefixBelow(rs, index);
  }

  // ----- removing a stretch -----

  /** One entry cut down to the pieces in mid loses exactly what the pieces leave out. */
  lemma CutEntry(rs: seq<Range>, p: nat, mid: seq<Range>)
    requires Canonical(rs) && p < |rs| && Canonical(mid)
    requires mid != [] ==> rs[p].first <= mid[0].first && mid[|mid| - 1].second <= rs[p].second
    ensures Canonical(rs[..p] + mid + rs[p + 1..])
    ensures Members(rs[..p] + mid + rs[p + 1..]) == Members(rs) - (Interval(rs[p].first, rs[p].second) - Members(mid))
  {
    CutIsCanonical(rs, p, mid);
    MembersConcat(rs[..p] + mid, rs[p + 1..]);
    MembersConcat(rs[..p], mid);
    MembersAt(rs, p);
    MembersWithin(mid, rs[p]);
    CutParts(Members(rs[..p]), rs[p], Members(rs[p + 1..]), Members(mid));
  }

  lemma CutIsCanonical(rs: seq<Range>, p: nat, mid: seq<Range>)
    requires Canonical(rs) && p < |rs| && Canonical(mid)
    requires mid != [] ==> rs[p].first <= mid[0].first && mid[|mid| - 1].second <= rs[p].second
    ensures Canonical(rs[..p] + mid + rs[p + 1..])
  {
    ShiftedByZero(rs[p + 1..]);
    SplicedIsCanonical(rs, p, p + 1, mid, 0);
  }

  lemma MembersWithin(mid: seq<Range>, r: Range)
    requires Canonical(mid) && (mid != [] ==> r.first <= mid[0].first && mid[|mid| - 1].second <= r.second)
    ensures Members(mid) <= Interval(r.first, r.second)
  {
    if mid != [] {
      PrefixBelow(mid, r.second);
      SuffixAbove(mid, r.first);
    }
  }

  lemma CutParts(A: set<nat>, r: Range, B: set<nat>, M: set<nat>)
    requires M <= Interval(r.first, r.second)
    requires AllUpTo(A, r.first - 1) && AllFrom(B, r.second + 1)
    ensures A + M + B == A + Interval(r.first, r.second) + B - (Interval(r.first, r.second) - M)
  {
  }
}
