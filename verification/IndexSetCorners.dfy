/** Concrete inputs on which a count comes out short and on which a cached count is lost. */
module IndexSetCorners {
  import opened Ranges
  import opened Runs
  import opened Chunks
  import opened PositionalSets
  import opened RangeBuilders
  import opened RangeEdits
  import opened IndexSets

  const FULL := Chunk([Range(1, 2), Range(3, 4)], 1, 4, 2)
  const WIDE := Chunk([Range(5, 9)], 5, 9, 4)

  lemma {:induction false} BorderChunksAreOk(maxSize: nat)
    requires maxSize >= 2
    ensures AllOk([FULL, WIDE], maxSize)
    ensures Flatten([FULL, WIDE]) == [Range(1, 2), Range(3, 4), Range(5, 9)]
  {
    var a, b := [Range(1, 2)], [Range(3, 4)];
    assert a + b == FULL.data;
    WidthConcat(a, b);
    WidthSingle(Range(1, 2));
    WidthSingle(Range(3, 4));
    WidthSingle(Range(5, 9));
    assert [FULL, WIDE] == [FULL] + [WIDE];
    FlattenConcat([FULL], [WIDE]);
    FlattenSingle(FULL);
    FlattenSingle(WIDE);
  }

  /** Two chunks of any bounded size, and a count from 3 to 7: the members 5 and 6 are left out. */
  lemma {:induction false} CountCanStopShort(maxSize: nat)
    requires maxSize >= 2
    ensures AllOk([FULL, WIDE], maxSize) && Canonical(Flatten([FULL, WIDE]))
    ensures Missed([FULL, WIDE], FindResult([FULL, WIDE], 3), 3, 7) == 2
  {
    BorderChunksAreOk(maxSize);
    var cs, it := [FULL, WIDE], Iter(0, 1);
    assert Index(cs, it) == 1 by {
      assert cs[..0] == [];
    }
    assert IsPosition(Flatten(cs), 3, 1);
    hide Flatten, Index, IsPosition, AllOk, Width, ChunkOk;
    assert NoneEmpty(cs) && ValidIter(cs, it);
    FindResultIsUnique(cs, 3, it);
    assert StopsAtBorder(cs, it, 3, 7);
  }

  // ----- a relocation that loses a count, with the chunk size of the debug build -----

  const OWN: set<nat> := {10, 11}
  const MOVED: set<nat> := {0, 2, 4, 6}

  /** Values below every member stay where they are. */
  lemma KeptInFront(S: set<nat>, v: nat)
    requires forall x :: x in S ==> v < x
    ensures RelocatedTo(S, {}, v) == v
  {
    assert Below({}, v) == {} && Below(S, v) == {};
    assert Unshift({}, v) == v;
    ShiftIsUnique(S, v, v);
  }

  lemma RelocatedInFront(S: set<nat>, V: set<nat>)
    requires forall v, x :: v in V && x in S ==> v < x
    ensures Relocated(S, {}, V) == V
  {
    hide RelocatedTo;
    forall v | v in V
      ensures RelocatedTo(S, {}, v) == v
    {
      KeptInFront(S, v);
    }
  }

  lemma OwnRange()
    ensures Canonical([Range(10, 12)]) && Members([Range(10, 12)]) == OWN
  {
    MembersSingle(Range(10, 12));
  }

  lemma FourRunsInFront()
    ensures RunsBelow(OWN + MOVED, 10) == 4
  {
    assert RunStartsBelow(OWN + MOVED, 10) == MOVED;
  }

  /** One range of two is expected; four values put in front of it push it to a chunk nothing was set aside for. */
  lemma RelocationLosesCount()
    ensures LosesCount([Range(10, 12)], Relocated(OWN, {}, MOVED), Reserve(1, 4), 4)
  {
    hide Canonical, Members, Relocated, RunsBelow, Reserve;
    RelocatedInFront(OWN, MOVED);
    OwnRange();
    FourRunsInFront();
    BorderIsBeyondReserve();
    assert LosesAt([Range(10, 12)], 0, MOVED, Reserve(1, 4), 4);
  }

  lemma BorderIsBeyondReserve()
    ensures BeyondReserve(4, 4, Reserve(1, 4))
  {
    assert ChunkStart(1, 4) == 4;
  }

  /** The call, after which the set has the right members and a wrong cached count. */
  method RelocationCanLoseCount() returns (own: IndexSet)
    ensures fresh(own) && own.vec.maxSize == 4
    ensures own.Elements() == {0, 2, 4, 6, 10, 11} && own.Searchable() && !own.Valid()
  {
    hide Canonical, Members, Flatten, LosesCount, Relocated, AllOk, AllBounded;
    OwnRange();
    RelocationLosesCount();
    RelocatedInFront(OWN, MOVED);
    own := new IndexSet.FromValues(4, [10, 11]);
    var none := new IndexSet(4);
    var moved := new IndexSet.FromValues(4, [0, 2, 4, 6]);
    assert own.Elements() == OWN && moved.Elements() == MOVED;
    CanonicalIsUnique(own.vec.Ranges(), [Range(10, 12)]);
    own.AddShiftedBy(none, moved);
  }
}
