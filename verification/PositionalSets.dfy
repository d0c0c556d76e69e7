/** What the positional operations mean on plain sets of naturals, and the laws that tie them together. */
module PositionalSets {
  import opened Ranges

  ghost function Below(S: set<nat>, y: int): set<nat> {
    set x | x in S && x < y
  }

  ghost function CountBelow(S: set<nat>, y: int): nat {
    |Below(S, y)|
  }

  /** The index of y once every member of S before it is deleted. */
  ghost function Unshift(S: set<nat>, y: nat): (i: nat)
    ensures i + CountBelow(S, y) == y
  {
    CountBelowBound(S, y);
    y - CountBelow(S, y)
  }

  /** y is where index i ends up once every member of S is inserted: outside S, with i non-members before it. */
  ghost predicate IsShift(S: set<nat>, i: nat, y: nat) {
    y !in S && Unshift(S, y) == i
  }

  ghost function Shift(S: set<nat>, i: nat): (y: nat)
    ensures IsShift(S, i, y)
  {
    assert Below(S, 0) == {};
    ShiftFrom(S, i, 0)
  }

  ghost function ShiftFrom(S: set<nat>, i: nat, from: nat): (y: nat)
    requires Unshift(S, from) <= i
    ensures IsShift(S, i, y)
    decreases |S| + i - from
  {
    SubsetSize(Below(S, from), S);
    if from !in S && Unshift(S, from) == i then from else
      UnshiftStep(S, from);
      ShiftFrom(S, i, from + 1)
  }

  lemma {:induction false} SubsetSize(A: set<nat>, B: set<nat>)
    requires A <= B
    ensures |A| <= |B|
    ensures |A| == |B| ==> A == B
    decreases A
  {
    if A != {} {
      var x :| x in A;
      SubsetSize(A - {x}, B - {x});
    }
  }

  lemma CountBelowStep(S: set<nat>, y: nat)
    ensures CountBelow(S, y + 1) == CountBelow(S, y) + (if y in S then 1 else 0)
  {
    if y in S {
      assert Below(S, y + 1) == Below(S, y) + {y};
    } else {
      assert Below(S, y + 1) == Below(S, y);
    }
  }

  lemma UnshiftStep(S: set<nat>, y: nat)
    ensures Unshift(S, y + 1) == Unshift(S, y) + (if y in S then 0 else 1)
  {
    CountBelowStep(S, y);
  }

  lemma {:induction false} CountBelowBound(S: set<nat>, y: nat)
    ensures CountBelow(S, y) <= y
  {
    if y == 0 {
      assert Below(S, 0) == {};
    } else {
      CountBelowBound(S, y - 1);
      CountBelowStep(S, y - 1);
    }
  }

  lemma {:induction false} UnshiftMonotone(S: set<nat>, x: nat, y: nat)
    requires x <= y
    ensures Unshift(S, x) <= Unshift(S, y)
    ensures x !in S && x < y ==> Unshift(S, x) < Unshift(S, y)
    decreases y
  {
    if x < y {
      UnshiftMonotone(S, x, y - 1);
      UnshiftStep(S, y - 1);
    }
  }

  lemma ShiftIsUnique(S: set<nat>, i: nat, y: nat)
    requires IsShift(S, i, y)
    ensures Shift(S, i) == y
  {
    var z := Shift(S, i);
    UnshiftMonotone(S, if y < z then y else z, if y < z then z else y);
  }

  /** shift is a strictly increasing bijection from the naturals onto the complement, with unshift as inverse. */
  lemma ShiftIsBijection(S: set<nat>)
    ensures forall i: nat :: Shift(S, i) !in S && Unshift(S, Shift(S, i)) == i
    ensures forall y: nat | y !in S :: Shift(S, Unshift(S, y)) == y
    ensures forall i: nat, j: nat | i < j :: Shift(S, i) < Shift(S, j)
  {
    forall y: nat | y !in S
      ensures Shift(S, Unshift(S, y)) == y
    {
      ShiftIsUnique(S, Unshift(S, y), y);
    }
    forall i: nat, j: nat | i < j
      ensures Shift(S, i) < Shift(S, j)
    {
      if Shift(S, j) <= Shift(S, i) {
        UnshiftMonotone(S, Shift(S, j), Shift(S, i));
      }
    }
  }

  // ----- the operations -----

  ghost function InsertAt(S: set<nat>, index: nat, count: nat): (r: set<nat>)
    ensures forall y: nat :: y in r <==>
      if y < index then y in S else y < index + count || y - count in S
  {
    var made := Interval(index, index + count);
    var moved := ShiftForInsertAt(S, index, count);
    moved + made
  }

  ghost function ShiftForInsertAt(S: set<nat>, index: nat, count: nat): (r: set<nat>)
    ensures forall y: nat :: y in r <==>
      if y < index then y in S else y >= index + count && y - count in S
  {
    var moved := set x | x in S :: if x < index then x else x + count;
    assert forall y: nat :: index + count <= y && y - count in S ==> y in moved by {
      forall y: nat | index + count <= y && y - count in S
        ensures y in moved
      {
        var x := y - count;
        assert x in S && y == (if x < index then x else x + count);
      }
    }
    moved
  }

  ghost function EraseAt(S: set<nat>, index: nat): (r: set<nat>)
    ensures forall y: nat :: y in r <==> if y < index then y in S else y + 1 in S
  {
    var moved := set x | x in S && x != index :: if x < index then x else x - 1;
    assert forall y: nat :: index <= y && y + 1 in S ==> y in moved by {
      forall y: nat | index <= y && y + 1 in S
        ensures y in moved
      {
        var x := y + 1;
        assert x in S && x != index && y == (if x < index then x else x - 1);
      }
    }
    moved
  }

  ghost function ShiftAll(S: set<nat>, P: set<nat>): set<nat> {
    set x | x in S :: Shift(P, x)
  }

  ghost function InsertAll(S: set<nat>, P: set<nat>): set<nat> {
    P + ShiftAll(S, P)
  }

  ghost function EraseAll(S: set<nat>, P: set<nat>): set<nat> {
    set x | x in S && x !in P :: Unshift(P, x)
  }

  ghost function Relocated(S: set<nat>, B: set<nat>, V: set<nat>): set<nat> {
    set v | v in V && v !in B :: RelocatedTo(S, B, v)
  }

  // ----- bulk merges undo each other -----

  lemma ShiftAllMembers(S: set<nat>, P: set<nat>)
    ensures forall y: nat :: y in ShiftAll(S, P) <==> y !in P && Unshift(P, y) in S
  {
    forall y: nat
      ensures y in ShiftAll(S, P) <==> y !in P && Unshift(P, y) in S
    {
      if y !in P {
        ShiftIsUnique(P, Unshift(P, y), y);
      }
    }
  }

  lemma EraseAllMembers(S: set<nat>, P: set<nat>)
    ensures forall i: nat :: i in EraseAll(S, P) <==> Shift(P, i) in S
  {
    forall i: nat
      ensures i in EraseAll(S, P) <==> Shift(P, i) in S
    {
      if i in EraseAll(S, P) {
        var x :| x in S && x !in P && i == Unshift(P, x);
        ShiftIsUnique(P, i, x);
      }
      if Shift(P, i) in S {
        assert Unshift(P, Shift(P, i)) == i;
      }
    }
  }

  /** Erasing at the positions just inserted, or just made room for, gives the set back. */
  lemma EraseUndoesInsert(S: set<nat>, P: set<nat>)
    ensures EraseAll(InsertAll(S, P), P) == S
    ensures EraseAll(ShiftAll(S, P), P) == S
  {
    ShiftIsBijection(P);
    ShiftAllMembers(S, P);
    EraseAllMembers(InsertAll(S, P), P);
    EraseAllMembers(ShiftAll(S, P), P);
  }

  /** Inserting at the positions just erased gives the set back, with those positions added. */
  lemma InsertUndoesErase(S: set<nat>, P: set<nat>)
    ensures InsertAll(EraseAll(S, P), P) == S + P
  {
    ShiftIsBijection(P);
    ShiftAllMembers(EraseAll(S, P), P);
    EraseAllMembers(S, P);
  }

  // ----- the bulk forms are folds of the single-index forms -----

  ghost predicate Ascending(ps: seq<nat>) {
    forall i, j :: 0 <= i < j < |ps| ==> ps[i] < ps[j]
  }

  ghost function ToSet(ps: seq<nat>): set<nat> {
    set p | p in ps
  }

  ghost function FoldInsertAt(S: set<nat>, ps: seq<nat>): set<nat> {
    if ps == [] then S else InsertAt(FoldInsertAt(S, ps[..|ps| - 1]), ps[|ps| - 1], 1)
  }

  ghost function FoldShiftForInsertAt(S: set<nat>, ps: seq<nat>): set<nat> {
    if ps == [] then S else ShiftForInsertAt(FoldShiftForInsertAt(S, ps[..|ps| - 1]), ps[|ps| - 1], 1)
  }

  /** Single erases from the last position to the first. */
  ghost function FoldEraseAtDescending(S: set<nat>, ps: seq<nat>): set<nat>
    decreases ps
  {
    if ps == [] then S else FoldEraseAtDescending(EraseAt(S, ps[|ps| - 1]), ps[..|ps| - 1])
  }

  ghost predicate AllBelow(P: set<nat>, m: nat) {
    forall p :: p in P ==> p < m
  }

  lemma CountBelowWithMaximum(P: set<nat>, m: nat, y: nat)
    requires AllBelow(P, m)
    ensures CountBelow(P + {m}, y) == CountBelow(P, y) + (if y > m then 1 else 0)
    ensures y >= m ==> CountBelow(P, y) == |P|
  {
    if y > m {
      assert Below(P + {m}, y) == Below(P, y) + {m};
      assert m !in Below(P, y);
    } else {
      assert Below(P + {m}, y) == Below(P, y);
    }
    if y >= m {
      assert Below(P, y) == P;
    }
  }

  lemma ShiftAllWithMaximum(S: set<nat>, P: set<nat>, m: nat)
    requires AllBelow(P, m)
    ensures ShiftAll(S, P + {m}) == ShiftForInsertAt(ShiftAll(S, P), m, 1)
  {
    forall y: nat
      ensures y in ShiftAll(S, P + {m}) <==> y in ShiftForInsertAt(ShiftAll(S, P), m, 1)
    {
      ShiftedBeyondMaximum(S, P, m, y);
    }
  }

  lemma ShiftedBeyondMaximum(S: set<nat>, P: set<nat>, m: nat, y: nat)
    requires AllBelow(P, m)
    ensures y in ShiftAll(S, P + {m}) <==> if y < m then y in ShiftAll(S, P) else y > m && y - 1 in ShiftAll(S, P)
  {
    ShiftAllMembers(S, P);
    ShiftAllMembers(S, P + {m});
    CountBelowWithMaximum(P, m, y);
    if y > m {
      CountBelowWithMaximum(P, m, y - 1);
    }
  }

  lemma EraseAllWithMaximum(S: set<nat>, P: set<nat>, m: nat)
    requires AllBelow(P, m)
    ensures EraseAll(S, P + {m}) == EraseAll(EraseAt(S, m), P)
  {
    EraseAllMembers(S, P + {m});
    EraseAllMembers(EraseAt(S, m), P);
    forall i: nat
      ensures i in EraseAll(S, P + {m}) <==> i in EraseAll(EraseAt(S, m), P)
    {
      var y := Shift(P, i);
      CountBelowWithMaximum(P, m, y);
      if y < m {
        ShiftIsUnique(P + {m}, i, y);
      } else {
        CountBelowWithMaximum(P, m, y + 1);
        ShiftIsUnique(P + {m}, i, y + 1);
      }
    }
  }

  lemma ToSetSplit(ps: seq<nat>)
    requires ps != [] && Ascending(ps)
    ensures ToSet(ps) == ToSet(ps[..|ps| - 1]) + {ps[|ps| - 1]}
    ensures AllBelow(ToSet(ps[..|ps| - 1]), ps[|ps| - 1])
    ensures Ascending(ps[..|ps| - 1])
  {
    assert ps == ps[..|ps| - 1] + [ps[|ps| - 1]];
  }

  lemma {:induction false} InsertAllIsFold(S: set<nat>, ps: seq<nat>)
    requires Ascending(ps)
    ensures FoldInsertAt(S, ps) == InsertAll(S, ToSet(ps))
    ensures FoldShiftForInsertAt(S, ps) == ShiftAll(S, ToSet(ps))
  {
    if ps == [] {
      ShiftAllMembers(S, {});
      assert forall y: nat :: Below({}, y) == {};
    } else {
      var init, m := ps[..|ps| - 1], ps[|ps| - 1];
      ToSetSplit(ps);
      InsertAllIsFold(S, init);
      ShiftAllWithMaximum(S, ToSet(init), m);
      InsertAtSplits(ToSet(init), ShiftAll(S, ToSet(init)), m);
    }
  }

  lemma InsertAtSplits(P: set<nat>, T: set<nat>, m: nat)
    requires AllBelow(P, m)
    ensures InsertAt(P + T, m, 1) == P + {m} + ShiftForInsertAt(T, m, 1)
  {
  }

  lemma {:induction false} EraseAllIsFold(S: set<nat>, ps: seq<nat>)
    requires Ascending(ps)
    ensures FoldEraseAtDescending(S, ps) == EraseAll(S, ToSet(ps))
    decreases ps
  {
    if ps == [] {
      EraseAllMembers(S, {});
      assert forall y: nat :: Below({}, y) == {};
      assert forall i: nat :: Shift({}, i) == i;
    } else {
      ToSetSplit(ps);
      EraseAllIsFold(EraseAt(S, ps[|ps| - 1]), ps[..|ps| - 1]);
      EraseAllWithMaximum(S, ToSet(ps[..|ps| - 1]), ps[|ps| - 1]);
    }
  }

  // ----- relocation through two sets -----

  ghost function RelocatedTo(S: set<nat>, B: set<nat>, v: nat): nat {
    Shift(S, Unshift(B, v))
  }

  /** Counted among the indices outside the one set and outside the other, the value keeps its place. */
  lemma RelocationKeepsPlace(S: set<nat>, B: set<nat>, v: nat)
    requires v !in B
    ensures var r := RelocatedTo(S, B, v); r !in S && r - |Below(S, r)| == v - |Below(B, v)|
  {
    assert IsShift(S, Unshift(B, v), RelocatedTo(S, B, v));
  }

  lemma RelocationIsIncreasing(S: set<nat>, B: set<nat>, v: nat, w: nat)
    requires v !in B && v < w
    ensures RelocatedTo(S, B, v) < RelocatedTo(S, B, w)
  {
    UnshiftMonotone(B, v, w);
    ShiftIsBijection(S);
  }

  lemma {:induction false} RelocatedImageSize(S: set<nat>, B: set<nat>, W: set<nat>)
    requires W !! B
    ensures |Relocated(S, B, W)| == |W|
    decreases W
  {
    hide RelocatedTo;
    if W == {} {
      assert Relocated(S, B, W) == {};
    } else {
      var w :| w in W;
      RelocatedImageSize(S, B, W - {w});
      assert Relocated(S, B, W) == Relocated(S, B, W - {w}) + {RelocatedTo(S, B, w)};
      if RelocatedTo(S, B, w) in Relocated(S, B, W - {w}) {
        var v :| v in W - {w} && RelocatedTo(S, B, v) == RelocatedTo(S, B, w);
        RelocationIsIncreasing(S, B, if v < w then v else w, if v < w then w else v);
      }
    }
  }

  /** The relocated values are new and distinct, so each value outside B adds exactly one member. */
  lemma RelocatedSize(S: set<nat>, B: set<nat>, V: set<nat>)
    ensures S !! Relocated(S, B, V)
    ensures |S + Relocated(S, B, V)| == |S| + |V - B|
  {
    RelocatedImageSize(S, B, V - B);
    assert Relocated(S, B, V) == Relocated(S, B, V - B);
  }
}
