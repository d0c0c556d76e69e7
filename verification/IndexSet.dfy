/** A set of indices, stored as chunked ranges, with operations that shift the indices after an edit. */
module IndexSets {
  import opened Options
  import opened Ranges
  import opened Runs
  import opened Chunks
  import opened ChunkedVectors
  import opened PositionalSets
  import opened RangeEdits
  import opened RangeBuilders
  import opened IndexIterators

  ghost predicate EndsBy(rs: seq<Range>, p: nat, x: int) {
    forall k :: 0 <= k < p && k < |rs| ==> rs[k].second <= x
  }

  lemma {:induction false} ChunkEndsBy(cs: seq<Chunk>, o: nat, x: int, maxSize: nat)
    requires AllBounded(cs, maxSize) && Canonical(Flatten(cs)) && o < |cs| && cs[o].end <= x
    requires EndsBy(Flatten(cs), |Flatten(cs[..o])|, x)
    ensures EndsBy(Flatten(cs), |Flatten(cs[..o + 1])|, x)
  {
    var last := Iter(o, |cs[o].data| - 1);
    DerefIndex(cs, last);
    FlattenAround(cs, o);
  }

  lemma {:induction false} ChunkIsCanonical(cs: seq<Chunk>, o: nat)
    requires o < |cs| && Canonical(Flatten(cs))
    ensures Canonical(cs[o].data)
  {
    FlattenAround(cs, o);
    OrderInMiddle(Flatten(cs[..o]), cs[o].data, Flatten(cs[o + 1..]));
  }

  lemma {:induction false} FoundInChunk(cs: seq<Chunk>, it: Iter, lo: nat, x: nat)
    requires InBounds(cs, it) && lo <= it.inner
    requires EndsBy(Flatten(cs), |Flatten(cs[..it.outer])| + lo, x)
    requires forall k :: lo <= k < it.inner ==> cs[it.outer].data[k].second <= x
    requires x < Deref(cs, it).second
    ensures IsPosition(Flatten(cs), x, Index(cs, it))
  {
    FlattenAround(cs, it.outer);
    PositionInMiddle(Flatten(cs[..it.outer]), cs[it.outer].data, Flatten(cs[it.outer + 1..]), it.inner, lo, x);
  }

  lemma PositionInMiddle(a: seq<Range>, d: seq<Range>, b: seq<Range>, i: nat, lo: nat, x: nat)
    requires lo <= i < |d| && x < d[i].second
    requires EndsBy(a + d + b, |a| + lo, x)
    requires forall k :: lo <= k < i ==> d[k].second <= x
    ensures IsPosition(a + d + b, x, |a| + i)
  {
    forall k | 0 <= k < |a| + i
      ensures (a + d + b)[k].second <= x
    {
      if |a| + lo <= k {
        assert (a + d + b)[k] == d[k - |a|];
      }
    }
  }

  lemma AbsorbEntries(rs: seq<Range>, p: nat, r: Range)
    requires 0 < p < |rs|
    ensures rs[p - 1 := r][..p] + rs[p - 1 := r][p + 1..] == rs[..p - 1] + [r] + rs[p + 1..]
  {
  }

  lemma AbsorbAfterUpdate(rs: seq<Range>, p: nat, r: Range, r': Range)
    requires 0 < p < |rs|
    ensures rs[p - 1 := r][..p - 1] + [r'] + rs[p - 1 := r][p + 1..] == rs[..p - 1] + [r'] + rs[p + 1..]
  {
  }

  lemma {:induction false} MemberIsHere(cs: seq<Chunk>, it: Iter, index: nat)
    requires NoneEmpty(cs) && Canonical(Flatten(cs)) && ValidIter(cs, it) && IsPosition(Flatten(cs), index, Index(cs, it))
    ensures index in Members(Flatten(cs)) ==> InBounds(cs, it) && Deref(cs, it).Has(index)
  {
    MemberAtPosition(Flatten(cs), index, Index(cs, it));
    EndIffLength(cs, it);
    if InBounds(cs, it) {
      DerefIndex(cs, it);
    }
  }

  class IndexSet {
    const vec: ChunkedRangeVector

    /** What every operation keeps, except for a relocation that loses a cached count. */
    ghost predicate Valid()
      reads vec
      ensures Valid() ==> Searchable()
    {
      vec.Valid()
    }

    /** Enough to look up and to clear: the cached counts may be wrong. */
    ghost predicate Searchable()
      reads vec
    {
      vec.Bounded() && Canonical(vec.Ranges())
    }

    ghost function Elements(): set<nat>
      reads vec
    {
      Members(vec.Ranges())
    }

    constructor (maxSize: nat)
      requires maxSize >= 2 && maxSize % 2 == 0
      ensures Valid() && fresh(vec) && vec.maxSize == maxSize && Elements() == {}
    {
      vec := new ChunkedRangeVector(maxSize);
      new;
      assert Members([]) == {};
    }

    constructor FromValues(maxSize: nat, values: seq<nat>)
      requires maxSize >= 2 && maxSize % 2 == 0
      ensures Valid() && fresh(vec) && vec.maxSize == maxSize && Elements() == set v | v in values
    {
      vec := new ChunkedRangeVector(maxSize);
      new;
      hide Canonical, Flatten, Members;
      EmptyRanges(vec.data);
      var k := 0;
      while k < |values|
        invariant k <= |values| && Valid() && Elements() == set v | v in values[..k]
      {
        Add(values[k]);
        assert values[..k + 1] == values[..k] + [values[k]];
        k := k + 1;
      }
      assert values[..k] == values;
    }

    /** The range that contains the index, or the first one after it if none does. */
    method Find(index: nat) returns (it: Iter)
      requires Searchable()
      ensures ValidIter(vec.data, it) && IsPosition(vec.Ranges(), index, Index(vec.data, it))
      ensures it == FindResult(vec.data, index)
    {
      BeginIndex(vec.data);
      it := FindFrom(index, Begin(vec.data));
    }

    /** The same search, resumed at a position that everything ending after the index lies behind. */
    method FindFrom(index: nat, begin: Iter) returns (it: Iter)
      requires Searchable() && ValidIter(vec.data, begin)
      requires EndsBy(vec.Ranges(), Index(vec.data, begin), index)
      ensures ValidIter(vec.data, it) && IsPosition(vec.Ranges(), index, Index(vec.data, it))
      ensures it == FindResult(vec.data, index)
    {
      it := Search(index, begin);
      FindResultIsUnique(vec.data, index, it);
    }

    method Search(index: nat, begin: Iter) returns (it: Iter)
      requires Searchable() && ValidIter(vec.data, begin)
      requires EndsBy(vec.Ranges(), Index(vec.data, begin), index)
      ensures ValidIter(vec.data, it) && IsPosition(vec.Ranges(), index, Index(vec.data, it))
    {
      var o := begin.outer;
      while o < |vec.data| && vec.data[o].end <= index
        invariant begin.outer <= o <= |vec.data|
        invariant EndsBy(vec.Ranges(), |Flatten(vec.data[..o])|, index)
      {
        ChunkEndsBy(vec.data, o, index, vec.maxSize);
        o := o + 1;
      }
      if o == |vec.data| {
        it := End(vec.data);
        EndIndex(vec.data);
        return;
      }
      var data := vec.data[o].data;
      if index < vec.data[o].begin {
        it := Iter(o, 0);
        DerefIndex(vec.data, it);
        return;
      }
      var innerBegin := 0;
      if o == begin.outer {
        innerBegin := begin.inner;
      }
      ChunkIsCanonical(vec.data, o);
      var inner := LowerBound(data, innerBegin, index);
      it := Iter(o, inner);
      FoundInChunk(vec.data, it, innerBegin, index);
    }

    method Contains(index: nat) returns (r: bool)
      requires Searchable()
      ensures r <==> index in Elements()
    {
      var it := Find(index);
      EndIffLength(vec.data, it);
      MemberAtPosition(vec.Ranges(), index, Index(vec.data, it));
      if it != End(vec.data) {
        DerefIndex(vec.data, it);
        r := Deref(vec.data, it).first <= index;
      } else {
        r := false;
      }
    }

    /** Adds the index at its position, joining ranges that it touches; returns the range that now holds it. */
    method DoAdd(it: Iter, index: nat) returns (res: Iter)
      requires Valid() && ValidIter(vec.data, it)
      requires IsPosition(vec.Ranges(), index, Index(vec.data, it))
      modifies vec
      ensures Valid() && Elements() == old(Elements()) + {index}
      ensures InBounds(vec.data, res) && IsPosition(vec.Ranges(), index, Index(vec.data, res))
      ensures Deref(vec.data, res).Has(index)
      ensures index in old(Elements()) ==> vec.data == old(vec.data)
    {
      ghost var rs, p := vec.Ranges(), Index(vec.data, it);
      MemberIsHere(vec.data, it, index);
      AddedIsCanonical(rs, p, index);
      AddedMembers(rs, p, index);
      AddedPositionIsPosition(rs, p, index);
      res := DoAddFlat(it, index);
      DerefIndex(vec.data, res);
    }

    method DoAddFlat(it: Iter, index: nat) returns (res: Iter)
      requires Valid() && ValidIter(vec.data, it)
      requires IsPosition(vec.Ranges(), index, Index(vec.data, it))
      modifies vec
      ensures vec.Shaped() && vec.Ranges() == Added(old(vec.Ranges()), old(Index(vec.data, it)), index)
      ensures InBounds(vec.data, res)
      ensures Index(vec.data, res) == AddedPosition(old(vec.Ranges()), old(Index(vec.data, it)), index)
      ensures old(InBounds(vec.data, it) && Deref(vec.data, it).Has(index)) ==> vec.data == old(vec.data)
    {
      hide Flatten, Canonical, AllOk;
      EndIffLength(vec.data, it);
      BeginIffZero(vec.data, it);
      var moreBefore, valid := it != Begin(vec.data), it != End(vec.data);
      if valid {
        DerefIndex(vec.data, it);
        if Deref(vec.data, it).first <= index && Deref(vec.data, it).second > index {
          return it;
        }
      }
      if moreBefore {
        var prev := Prev(vec.data, it);
        PrevIndex(vec.data, it);
        DerefIndex(vec.data, prev);
        if Deref(vec.data, prev).second == index {
          res := ExtendPrevious(it, index);
          return;
        }
      }
      if valid && Deref(vec.data, it).first == index + 1 {
        ghost var before := vec.data;
        vec.Adjust(it, -1, 0);
        LayoutFixesIndex(before, vec.data, it);
        return it;
      }
      ghost var rs, p := vec.Ranges(), Index(vec.data, it);
      AddedIsCanonical(rs, p, index);
      assert Added(rs, p, index) == rs[..p] + [Range(index, index + 1)] + rs[p..];
      res := vec.Insert(it, Range(index, index + 1));
    }

    /** The index comes right after an existing range, and may close the gap to the next one. */
    method ExtendPrevious(it: Iter, index: nat) returns (res: Iter)
      requires Valid() && ValidIter(vec.data, it) && it != Begin(vec.data)
      requires Deref(vec.data, Prev(vec.data, it)).second == index
      modifies vec
      ensures vec.Shaped()
      ensures var rs, p := old(vec.Ranges()), old(Index(vec.data, it));
              && 0 < p <= |rs|
              && vec.Ranges() ==
                  (if p < |rs| && rs[p].first == index + 1
                   then rs[..p - 1] + [Range(rs[p - 1].first, rs[p].second)] + rs[p + 1..]
                   else rs[p - 1 := Range(rs[p - 1].first, index + 1)])
              && InBounds(vec.data, res) && Index(vec.data, res) == p - 1
    {
      hide Flatten, Canonical, AllOk;
      var valid := it != End(vec.data);
      var prev := Prev(vec.data, it);
      PrevIndex(vec.data, it);
      DerefIndex(vec.data, prev);
      EndIffLength(vec.data, it);
      ghost var rs, p, before := vec.Ranges(), Index(vec.data, it), vec.data;
      vec.Adjust(prev, 0, 1);
      LayoutFixesIndex(before, vec.data, it);
      LayoutFixesIndex(before, vec.data, prev);
      if valid {
        DerefIndex(vec.data, it);
        DerefIndex(vec.data, prev);
        if Deref(vec.data, prev).second == Deref(vec.data, it).first {
          BeginIffZero(vec.data, it);
          EntryIsProper(rs, p);
          AbsorbAfterUpdate(rs, p, Range(rs[p - 1].first, index + 1), Range(rs[p - 1].first, rs[p].second));
          res := AbsorbNext(it);
          BeginIffZero(vec.data, res);
          PrevIndex(vec.data, res);
          res := Prev(vec.data, res);
          return;
        }
      }
      return prev;
    }

    /** Widens the range before the position by the width of the one at it, which is erased. */
    method AbsorbNext(it: Iter) returns (res: Iter)
      requires vec.Shaped() && InBounds(vec.data, it) && it != Begin(vec.data)
      requires Deref(vec.data, it).first <= Deref(vec.data, it).second
      modifies vec
      ensures vec.Shaped()
      ensures ValidIter(vec.data, res) && Index(vec.data, res) == old(Index(vec.data, it))
      ensures var rs, p, r := old(vec.Ranges()), old(Index(vec.data, it)), old(Deref(vec.data, it));
              && 0 < p < |rs|
              && vec.Ranges() ==
                  rs[..p - 1] + [Range(rs[p - 1].first, rs[p - 1].second + (r.second - r.first))] + rs[p + 1..]
    {
      hide Flatten, Canonical, AllOk;
      var prev := Prev(vec.data, it);
      PrevIndex(vec.data, it);
      DerefIndex(vec.data, it);
      DerefIndex(vec.data, prev);
      var r := Deref(vec.data, it);
      ghost var rs, p, before := vec.Ranges(), Index(vec.data, it), vec.data;
      AbsorbEntries(rs, p, Range(rs[p - 1].first, rs[p - 1].second + (r.second - r.first)));
      vec.Adjust(prev, 0, r.second - r.first);
      LayoutFixesIndex(before, vec.data, it);
      res := vec.Erase(it);
    }

    method Add(index: nat)
      requires Valid()
      modifies vec
      ensures Valid() && Elements() == old(Elements()) + {index}
    {
      var it := Find(index);
      it := DoAdd(it, index);
    }

    /** Moves every range from the position on by the same distance. */
    method ShiftUntilEndBy(begin: Iter, distance: int)
      requires vec.Shaped() && ValidIter(vec.data, begin)
      requires Index(vec.data, begin) <= |vec.Ranges()| && Movable(vec.Ranges()[Index(vec.data, begin)..], distance)
      modifies vec
      ensures vec.Shaped() && SameLayout(old(vec.data), vec.data)
      ensures var rs, p := old(vec.Ranges()), old(Index(vec.data, begin));
              p <= |rs| && Movable(rs[p..], distance) && vec.Ranges() == rs[..p] + Shifted(rs[p..], distance)
    {
      hide Flatten, Canonical, AllOk, Movable, Shifted, PartlyShifted, SameLayout, Index,
           ChunkedRangeVector.Shaped, NoneEmpty;
      ghost var rs, p, cs := vec.Ranges(), Index(vec.data, begin), vec.data;
      var it := begin;
      ghost var q := p;
      NothingShiftedYet(rs, p, distance);
      LayoutIsKept(cs, cs, cs);
      EndIffLength(vec.data, it);
      while it != End(vec.data)
        invariant vec.Shaped() && SameLayout(cs, vec.data) && ValidIter(vec.data, it)
        invariant p <= q <= |rs| && Index(vec.data, it) == q
        invariant vec.Ranges() == PartlyShifted(rs, p, q, distance)
        decreases |rs| - q
      {
        it := ShiftStep(it, distance, rs, p, q, cs);
        q := q + 1;
      }
      EndIffLength(vec.data, it);
      AllShifted(rs, p, q, distance);
    }

    /** One range more is moved, and the iterator goes on to the next. */
    method ShiftStep(it: Iter, distance: int, ghost rs: seq<Range>, ghost p: nat, ghost q: nat, ghost cs: seq<Chunk>) returns (next: Iter)
      requires vec.Shaped() && SameLayout(cs, vec.data) && ValidIter(vec.data, it) && it != End(vec.data)
      requires p <= q <= |rs| && Index(vec.data, it) == q && Movable(rs[p..], distance)
      requires vec.Ranges() == PartlyShifted(rs, p, q, distance)
      modifies vec
      ensures vec.Shaped() && SameLayout(cs, vec.data) && ValidIter(vec.data, next)
      ensures q < |rs| && Index(vec.data, next) == q + 1
      ensures vec.Ranges() == PartlyShifted(rs, p, q + 1, distance)
    {
      hide Flatten, Canonical, AllOk;
      EndIffLength(vec.data, it);
      DerefIndex(vec.data, it);
      ghost var before := vec.data;
      ShiftOneMore(rs, p, q, distance);
      vec.Shift(it, distance);
      LayoutIsKept(cs, before, vec.data);
      LayoutFixesIndex(before, vec.data, it);
      NextIndex(vec.data, it);
      next := Next(vec.data, it);
    }

    /** Inserts count indices from the given one, shifting the members at or after it. */
    method InsertAt(index: nat, count: nat)
      requires Valid() && count > 0
      modifies vec
      ensures Valid() && Elements() == PositionalSets.InsertAt(old(Elements()), index, count)
    {
      hide Flatten, Canonical, AllOk;
      var pos := Find(index);
      ghost var rs, p := vec.Ranges(), Index(vec.data, pos);
      var inExisting := OpenUp(pos, index, count);
      if inExisting {
        GrownInside(rs, p, index, count);
      } else {
        RoomIsEmpty(rs, p, index, count);
        FillRoom(pos, index, count);
      }
    }

    /** Widens the range that holds the index or, when none does, moves everything after the index. */
    method OpenUp(pos: Iter, index: nat, count: nat) returns (inExisting: bool)
      requires Valid() && count > 0 && ValidIter(vec.data, pos)
      requires IsPosition(vec.Ranges(), index, Index(vec.data, pos))
      modifies vec
      ensures vec.Shaped() && SameLayout(old(vec.data), vec.data)
      ensures ValidIter(vec.data, pos) && Index(vec.data, pos) == old(Index(vec.data, pos))
      ensures var rs, p := old(vec.Ranges()), old(Index(vec.data, pos));
              && p <= |rs|
              && (inExisting <==> p < |rs| && rs[p].first <= index)
              && Movable(rs[p..], count)
              && (inExisting ==> vec.Ranges() == GrownAt(rs, p, count))
              && (!inExisting ==> vec.Ranges() == Spliced(rs, p, p, [], count))
    {
      hide Flatten, Canonical, AllOk, Members, Mem, Shifted;
      ghost var rs, p, cs := vec.Ranges(), Index(vec.data, pos), vec.data;
      EndIffLength(vec.data, pos);
      inExisting := false;
      if pos == End(vec.data) {
        NothingToMove(rs, count);
        return;
      }
      DerefIndex(vec.data, pos);
      NextIndex(vec.data, pos);
      var next := Next(vec.data, pos);
      if Deref(vec.data, pos).first <= index {
        inExisting := true;
        vec.Adjust(pos, 0, count);
      } else {
        vec.Shift(pos, count);
        ShiftHeadAndTail(rs, p, count);
      }
      LayoutFixesIndex(cs, vec.data, next);
      LayoutFixesIndex(cs, vec.data, pos);
      EditThenShift(rs, p, vec.Ranges()[p], count);
      EndIffLength(vec.data, next);
      ghost var cs1 := vec.data;
      ShiftUntilEndBy(next, count);
      LayoutFixesIndex(cs1, vec.data, pos);
    }

    /** Adds the indices of a stretch that holds no member, one by one. */
    method FillRoom(begin: Iter, index: nat, count: nat)
      requires Valid() && ValidIter(vec.data, begin) && count > 0
      requires IsPosition(vec.Ranges(), index, Index(vec.data, begin))
      requires forall x: nat :: index <= x < index + count ==> x !in Elements()
      modifies vec
      ensures Valid() && Elements() == old(Elements()) + Interval(index, index + count)
    {
      hide Flatten, Canonical, AllOk, Mem;
      var pos := begin;
      var i := 0;
      while i < count
        invariant 0 <= i <= count
        invariant Valid() && ValidIter(vec.data, pos)
        invariant i < count ==> IsPosition(vec.Ranges(), index + i, Index(vec.data, pos))
        invariant Elements() == old(Elements()) + Interval(index, index + i)
      {
        pos := DoAdd(pos, index + i);
        assert Interval(index, index + i) + {index + i} == Interval(index, index + i + 1);
        DerefIndex(vec.data, pos);
        NextIndex(vec.data, pos);
        if i + 1 < count {
          assert index + i + 1 !in Elements();
          NextPosition(vec.Ranges(), Index(vec.data, pos), index + i);
        }
        pos := Next(vec.data, pos);
        i := i + 1;
      }
    }

    /** Makes room for count indices at the given one, shifting the members at or after it. */
    method ShiftForInsertAt(index: nat, count: nat)
      requires Valid() && count > 0
      modifies vec
      ensures Valid() && Elements() == PositionalSets.ShiftForInsertAt(old(Elements()), index, count)
    {
      hide Flatten, Canonical, AllOk, Members, Mem, Spliced, Shifted, PositionalSets.ShiftForInsertAt;
      var it := Find(index);
      ghost var rs, p, cs := vec.Ranges(), Index(vec.data, it), vec.data;
      EndIffLength(vec.data, it);
      if it == End(vec.data) {
        NothingAtOrAfter(rs, index);
        return;
      }
      DerefIndex(vec.data, it);
      ShiftUntilEndBy(it, count);
      LayoutFixesIndex(cs, vec.data, it);
      DerefIndex(vec.data, it);
      HeadOfShifted(rs, p, count);
      if Deref(vec.data, it).first < index + count {
        RoomMadeInside(rs, p, index, count);
        RoomMadeInsideIsCanonical(rs, p, index, count);
        SplitShifted(rs, p, index, count);
        var oldSecond := Deref(vec.data, it).second;
        ghost var cs1 := vec.data;
        vec.Set(it, Deref(vec.data, it).first - count, index);
        LayoutFixesIndex(cs1, vec.data, it);
        NextIndex(vec.data, it);
        EndIffLength(vec.data, Next(vec.data, it));
        var second := vec.Insert(Next(vec.data, it), Range(index + count, oldSecond));
      } else {
        RoomMade(rs, p, index, count);
      }
    }

    /** Erases the index and shifts the members after it down by one. */
    method EraseAt(index: nat)
      requires Valid()
      modifies vec
      ensures Valid() && Elements() == PositionalSets.EraseAt(old(Elements()), index)
    {
      var it := Find(index);
      EndIffLength(vec.data, it);
      if it != End(vec.data) {
        DoErase(it, index);
      } else {
        NothingAtOrAfter(vec.Ranges(), index);
      }
    }

    method DoErase(pos: Iter, index: nat)
      requires Valid() && InBounds(vec.data, pos)
      requires IsPosition(vec.Ranges(), index, Index(vec.data, pos))
      modifies vec
      ensures Valid() && Elements() == PositionalSets.EraseAt(old(Elements()), index)
    {
      hide Flatten, Canonical, AllOk, IsPosition, Members, Mem, Spliced, Shifted, PositionalSets.EraseAt;
      var it := pos;
      ghost var rs, p, cs := vec.Ranges(), Index(vec.data, pos), vec.data;
      DerefIndex(vec.data, it);
      BeginIffZero(vec.data, it);
      PositionBounds(rs, p, index);
      if Deref(vec.data, it).first <= index {
        if Deref(vec.data, it).first + 1 == Deref(vec.data, it).second {
          ErasedWholeEntry(rs, p, index);
          EraseThenShift(rs, p);
          it := vec.Erase(it);
        } else {
          ErasedInside(rs, p, index);
          vec.Adjust(it, 0, -1);
          LayoutFixesIndex(cs, vec.data, it);
          EditThenShift(rs, p, Range(rs[p].first, rs[p].second - 1), -1);
          NextIndex(vec.data, it);
          it := Next(vec.data, it);
        }
      } else {
        var joins := false;
        if it != Begin(vec.data) {
          PrevIndex(vec.data, it);
          DerefIndex(vec.data, Prev(vec.data, it));
          joins := Deref(vec.data, Prev(vec.data, it)).second + 1 == Deref(vec.data, it).first;
        }
        if joins {
          ErasedGap(rs, p, index);
          AbsorbThenShift(rs, p);
          EntryIsProper(rs, p);
          it := AbsorbNext(it);
        } else {
          ErasedOutside(rs, p, index);
          HeadOfShifted(rs, p, -1);
        }
      }
      EndIffLength(vec.data, it);
      ShiftUntilEndBy(it, -1);
    }

    /** Erases the index; reports None when it was a member, and otherwise where unshift takes it. */
    method EraseOrUnshift(index: nat) returns (r: Option<nat>)
      requires Valid()
      modifies vec
      ensures r == if index in old(Elements()) then None else Some(PositionalSets.Unshift(old(Elements()), index))
      ensures Valid() && Elements() == PositionalSets.EraseAt(old(Elements()), index)
    {
      hide Flatten, Canonical, AllOk, Members, Mem, Width, Below, CountBelow, PositionalSets.EraseAt;
      ghost var rs := vec.Ranges();
      var shifted: int := index;
      var it := Begin(vec.data);
      ghost var q := 0;
      EmptyPrefix(rs);
      BeginIndex(vec.data);
      while it != End(vec.data) && vec.data[it.outer].end <= index
        invariant ValidIter(vec.data, it) && it.inner == 0 && Index(vec.data, it) == q <= |rs|
        invariant EndsBy(rs, q, index) && shifted == index - Width(rs[..q])
        decreases |vec.data| - it.outer
        modifies {}
      {
        WholeChunk(vec.data, it.outer, index, vec.maxSize);
        shifted := shifted - vec.data[it.outer].count;
        it := NextChunk(vec.data, it);
        q := Index(vec.data, it);
      }
      EndIffLength(vec.data, it);
      while it != End(vec.data) && Deref(vec.data, it).second <= index
        invariant ValidIter(vec.data, it) && Index(vec.data, it) == q <= |rs|
        invariant EndsBy(rs, q, index) && shifted == index - Width(rs[..q])
        decreases |rs| - q
        modifies {}
      {
        EndIffLength(vec.data, it);
        WholeEntry(rs, q);
        DerefIndex(vec.data, it);
        NextIndex(vec.data, it);
        shifted := shifted - (Deref(vec.data, it).second - Deref(vec.data, it).first);
        it := Next(vec.data, it);
        q := q + 1;
      }
      EndIffLength(vec.data, it);
      if InBounds(vec.data, it) {
        DerefIndex(vec.data, it);
      }
      MemberAtPosition(rs, index, q);
      CountBelowByWidth(rs, index, q);
      CountBelowBound(Elements(), index);
      if it == End(vec.data) {
        NothingAtOrAfter(rs, index);
        return Some(shifted);
      }
      r := Some(shifted);
      if Deref(vec.data, it).first <= index {
        r := None;
      }
      DoErase(it, index);
    }

    /** Adds the index that the given one becomes once the ranges before it are counted in; returns it. */
    method AddShifted(index: nat) returns (r: nat)
      requires Valid()
      modifies vec
      ensures r == PositionalSets.Shift(old(Elements()), index) && r !in old(Elements())
      ensures Valid() && Elements() == old(Elements()) + {r}
    {
      hide Flatten, Canonical, AllOk, Members, Mem, Width, Below;
      ghost var rs := vec.Ranges();
      r := index;
      var it := Begin(vec.data);
      ghost var q := 0;
      EmptyPrefix(rs);
      BeginIndex(vec.data);
      while it != End(vec.data) && vec.data[it.outer].end <= r
        invariant ValidIter(vec.data, it) && it.inner == 0 && Index(vec.data, it) == q <= |rs|
        invariant EndsBy(rs, q, r) && r == index + Width(rs[..q])
        decreases |vec.data| - it.outer
        modifies {}
      {
        WholeChunk(vec.data, it.outer, r, vec.maxSize);
        WidthCountsMembersOfChunk(vec.data, it.outer, vec.maxSize);
        r := r + vec.data[it.outer].count;
        it := NextChunk(vec.data, it);
        q := Index(vec.data, it);
      }
      EndIffLength(vec.data, it);
      while it != End(vec.data) && Deref(vec.data, it).first <= r
        invariant ValidIter(vec.data, it) && Index(vec.data, it) == q <= |rs|
        invariant EndsBy(rs, q, r) && r == index + Width(rs[..q])
        decreases |rs| - q
        modifies {}
      {
        EndIffLength(vec.data, it);
        WholeEntry(rs, q);
        EntryIsProper(rs, q);
        DerefIndex(vec.data, it);
        NextIndex(vec.data, it);
        r := r + (Deref(vec.data, it).second - Deref(vec.data, it).first);
        it := Next(vec.data, it);
        q := q + 1;
      }
      EndIffLength(vec.data, it);
      if InBounds(vec.data, it) {
        DerefIndex(vec.data, it);
        EntryIsProper(rs, q);
      }
      MemberAtPosition(rs, r, q);
      CountBelowByWidth(rs, r, q);
      ShiftIsUnique(Elements(), index, r);
      it := DoAdd(it, r);
    }

    /** Where the index ends up once every member is inserted. */
    method Shift(index: nat) returns (r: nat)
      requires Searchable()
      ensures r == PositionalSets.Shift(Elements(), index)
    {
      hide Flatten, Canonical, AllOk;
      ghost var rs := vec.Ranges();
      r := index;
      var it := Begin(vec.data);
      ghost var q := 0;
      EmptyPrefix(rs);
      BeginIndex(vec.data);
      while it != End(vec.data)
        invariant ValidIter(vec.data, it) && Index(vec.data, it) == q <= |rs|
        invariant EndsBy(rs, q, r) && r == index + Width(rs[..q])
        decreases |rs| - q
        modifies {}
      {
        EndIffLength(vec.data, it);
        DerefIndex(vec.data, it);
        EntryIsProper(rs, q);
        if Deref(vec.data, it).first > r {
          break;
        }
        WholeEntry(rs, q);
        NextIndex(vec.data, it);
        r := r + (Deref(vec.data, it).second - Deref(vec.data, it).first);
        it := Next(vec.data, it);
        q := q + 1;
      }
      EndIffLength(vec.data, it);
      MemberAtPosition(rs, r, q);
      CountBelowByWidth(rs, r, q);
      ShiftIsUnique(Elements(), index, r);
    }

    /** Where the index ends up once every member is deleted. */
    method Unshift(index: nat) returns (r: nat)
      requires Valid()
      ensures r == PositionalSets.Unshift(Elements(), index)
    {
      var c := Count(0, index);
      ghost var it := FindResult(vec.data, 0);
      assert it == Begin(vec.data) by {
        PositionOfZero(vec.data);
        FindResultIsUnique(vec.data, 0, Begin(vec.data));
      }
      assert MembersIn(Elements(), 0, index) == Below(Elements(), index);
      CountBelowBound(Elements(), index);
      r := index - c;
    }

    /**
     * Counts the members from start up to end, by cached totals for whole chunks. The count falls
     * short when it stops at a chunk border; Missed says by how much.
     */
    method Count(start: nat, end: nat) returns (r: nat)
      requires Valid() && start <= end
      ensures r + Missed(vec.data, FindResult(vec.data, start), start, end) == |MembersIn(Elements(), start, end)|
      ensures r == |MembersIn(Elements(), start, end)| <==>
        !StopsAtBorder(vec.data, FindResult(vec.data, start), start, end)
    {
      hide Flatten, Canonical, AllOk;
      var it := Find(start);
      FindResultIsUnique(vec.data, start, it);
      CountInIsDifference(Elements(), start, end);
      r := CountFrom(it, start, end);
    }

    method CountFrom(pos: Iter, start: nat, end: nat) returns (r: nat)
      requires Valid() && start <= end && ValidIter(vec.data, pos)
      requires IsPosition(vec.Ranges(), start, Index(vec.data, pos))
      ensures r + Missed(vec.data, pos, start, end) == CountBelow(Elements(), end) - CountBelow(Elements(), start)
    {
      hide Flatten, Canonical, AllOk, CountBelow, IsPosition, Members, Mem, Width, Below;
      var it := pos;
      ghost var rs, p := vec.Ranges(), Index(vec.data, pos);
      EndIffLength(vec.data, it);
      CountAtStart(rs, start, p, end);
      if it == End(vec.data) {
        CountAtEnd(rs, end, p);
        return 0;
      }
      DerefIndex(vec.data, it);
      EntryIsProper(rs, p);
      if Deref(vec.data, it).first >= end {
        CountAtEnd(rs, end, p);
        return 0;
      }
      if Deref(vec.data, it).second >= end {
        CountAtEnd(rs, end, p);
        return end - Max(Deref(vec.data, it).first, start);
      }
      var ret := 0;
      ghost var q := p;
      if start > Deref(vec.data, it).first || it.inner != 0 {
        ret := Deref(vec.data, it).second - Max(Deref(vec.data, it).first, start);
        WholeEntry(rs, q);
        NextIndex(vec.data, it);
        it := Next(vec.data, it);
        q := q + 1;
        while it != End(vec.data) && Deref(vec.data, it).second < end && it.inner != 0
          invariant ValidIter(vec.data, it) && Index(vec.data, it) == q && p < q <= |rs|
          invariant if it.inner == 0 then it.outer == pos.outer + 1 else it.outer == pos.outer
          invariant EndsBy(rs, q, end) && 0 <= ret == Width(rs[..q]) - CountBelow(Elements(), start)
          decreases |rs| - q
        {
          EndIffLength(vec.data, it);
          DerefIndex(vec.data, it);
          EntryIsProper(rs, q);
          WholeEntry(rs, q);
          NextIndex(vec.data, it);
          ret := ret + (Deref(vec.data, it).second - Deref(vec.data, it).first);
          it := Next(vec.data, it);
          q := q + 1;
        }
        EndIffLength(vec.data, it);
        if it != End(vec.data) && Deref(vec.data, it).first < end && it.inner != 0 {
          ret := ret + (end - Deref(vec.data, it).first);
        }
        if it == End(vec.data) || Deref(vec.data, it).second >= end {
          if it != End(vec.data) {
            DerefIndex(vec.data, it);
            NextChunkStartsLater(vec.data, it);
          }
          CountAtEnd(rs, end, q);
          return ret;
        }
        DerefIndex(vec.data, it);
      }
      assert it.inner == 0 && Missed(vec.data, pos, start, end) == 0;
      var rest := CountRest(it, end, q, ret + CountBelow(Elements(), start));
      return ret + rest;
    }

    /** From the start of a chunk on: whole chunks by their cached totals, then whole ranges, then a part. */
    method CountRest(pos: Iter, end: nat, ghost q0: nat, ghost before: int) returns (r: nat)
      requires Valid() && ValidIter(vec.data, pos) && pos.inner == 0
      requires Index(vec.data, pos) == q0 <= |vec.Ranges()| && EndsBy(vec.Ranges(), q0, end)
      requires before == Width(vec.Ranges()[..q0])
      ensures before + r == CountBelow(Elements(), end)
    {
      hide Flatten, Canonical, AllOk, CountBelow, IsPosition, Members, Mem, Width, Below;
      ghost var rs, q := vec.Ranges(), q0;
      var it := pos;
      r := 0;
      while it != End(vec.data) && vec.data[it.outer].end <= end
        invariant ValidIter(vec.data, it) && it.inner == 0 && Index(vec.data, it) == q <= |rs|
        invariant EndsBy(rs, q, end) && before + r == Width(rs[..q])
        decreases |vec.data| - it.outer
      {
        WholeChunk(vec.data, it.outer, end, vec.maxSize);
        WidthCountsMembersOfChunk(vec.data, it.outer, vec.maxSize);
        r := r + vec.data[it.outer].count;
        it := NextChunk(vec.data, it);
        q := Index(vec.data, it);
      }
      EndIffLength(vec.data, it);
      while it != End(vec.data) && Deref(vec.data, it).second <= end
        invariant ValidIter(vec.data, it) && Index(vec.data, it) == q <= |rs|
        invariant EndsBy(rs, q, end) && before + r == Width(rs[..q])
        decreases |rs| - q
      {
        EndIffLength(vec.data, it);
        DerefIndex(vec.data, it);
        EntryIsProper(rs, q);
        WholeEntry(rs, q);
        NextIndex(vec.data, it);
        r := r + (Deref(vec.data, it).second - Deref(vec.data, it).first);
        it := Next(vec.data, it);
        q := q + 1;
      }
      EndIffLength(vec.data, it);
      if it != End(vec.data) {
        DerefIndex(vec.data, it);
      }
      CountAtEnd(rs, end, q);
      if it != End(vec.data) && Deref(vec.data, it).first < end {
        r := r + (end - Deref(vec.data, it).first);
      }
    }

    method Clear()
      requires Searchable()
      modifies vec
      ensures Valid() && vec.Ranges() == [] && Elements() == {}
    {
      vec.data := [];
      assert vec.Ranges() == [] && Members([]) == {};
    }

    /** Leaves exactly the first len indices. */
    method SetLength(len: nat)
      requires Searchable()
      modifies vec
      ensures Valid() && Elements() == Interval(0, len)
    {
      Clear();
      if len != 0 {
        vec.PushBack(Range(0, len));
        assert vec.Ranges() == [] + [Range(0, len)];
        MembersSingle(Range(0, len));
      } else {
        assert Interval(0, len) == {};
      }
    }

    // ----- removing without shifting -----

    method Remove(index: nat, count: nat)
      requires Valid() && count > 0
      modifies vec
      ensures Valid() && Elements() == old(Elements()) - Interval(index, index + count)
    {
      var it := Find(index);
      it := DoRemove(it, index, index + count);
    }

    /** Removes a stretch by searching on from where the last cut was made. */
    method DoRemove(hint: Iter, from: nat, end: nat) returns (it: Iter)
      requires Valid() && ValidIter(vec.data, hint) && from < end
      requires EndsBy(vec.Ranges(), Index(vec.data, hint), from)
      modifies vec
      ensures Valid() && Elements() == old(Elements()) - Interval(from, end)
      ensures ValidIter(vec.data, it) && EndsBy(vec.Ranges(), Index(vec.data, it), end)
    {
      hide Flatten, Canonical, AllOk;
      var begin := from;
      it := FindFrom(begin, hint);
      EndIffLength(vec.data, it);
      while it != End(vec.data) && Deref(vec.data, it).first < end
        invariant Valid() && ValidIter(vec.data, it) && IsPosition(vec.Ranges(), begin, Index(vec.data, it))
        invariant from <= begin < end
        invariant old(Elements()) - Interval(from, end) <= Elements() <= old(Elements())
        invariant forall x :: from <= x < begin ==> x !in Elements()
        decreases |Elements()|
      {
        EndIffLength(vec.data, it);
        DerefIndex(vec.data, it);
        ghost var rs, p, before := vec.Ranges(), Index(vec.data, it), Elements();
        NoMemberBetween(rs, begin, p);
        begin := Max(Deref(vec.data, it).first, begin);
        it := CutAt(it, begin, end);
        assert begin in before && begin !in Elements();
        SubsetSize(Elements(), before);
        it := FindFrom(begin, it);
      }
      EndIffLength(vec.data, it);
      if it != End(vec.data) {
        DerefIndex(vec.data, it);
      }
      NoMemberUpTo(vec.Ranges(), begin, Index(vec.data, it), end);
    }

    /** Cuts [begin, end) out of the range at the position, which holds begin. */
    method CutAt(it: Iter, begin: nat, end: nat) returns (res: Iter)
      requires Valid() && InBounds(vec.data, it) && Deref(vec.data, it).Has(begin) && begin < end
      modifies vec
      ensures Valid()
      ensures Elements() == old(Elements()) - Interval(begin, Min(end, old(Deref(vec.data, it).second)))
      ensures ValidIter(vec.data, res) && EndsBy(vec.Ranges(), Index(vec.data, res), begin)
    {
      hide Flatten, Canonical, AllOk, EndsBy;
      ghost var rs, p, cs := vec.Ranges(), Index(vec.data, it), vec.data;
      var r := Deref(vec.data, it);
      DerefIndex(vec.data, it);
      EntriesBefore(rs, p, begin);
      if r.first < begin && r.second > end {
        CutOutMiddle(rs, p, begin, end);
        vec.Set(it, r.first, begin);
        LayoutFixesIndex(cs, vec.data, it);
        NextIndex(vec.data, it);
        var next := Next(vec.data, it);
        EndIffLength(vec.data, next);
        res := vec.Insert(next, Range(end, r.second));
        BeginIffZero(vec.data, res);
        PrevIndex(vec.data, res);
        res := Prev(vec.data, res);
        EntriesBeforeKept(rs, vec.Ranges(), p, begin);
      } else if begin == r.first && end >= r.second {
        CutOutAll(rs, p);
        res := vec.Erase(it);
        EntriesBeforeKept(rs, vec.Ranges(), p, begin);
      } else if begin == r.first {
        CutOutFront(rs, p, end);
        vec.Set(it, end, r.second);
        LayoutFixesIndex(cs, vec.data, it);
        res := it;
        EntriesBeforeKept(rs, vec.Ranges(), p, begin);
      } else {
        CutOutBack(rs, p, begin);
        vec.Set(it, r.first, begin);
        LayoutFixesIndex(cs, vec.data, it);
        res := it;
        EntriesBeforeKept(rs, vec.Ranges(), p, begin);
      }
    }

    // ----- bulk operations -----

    /** Adds every member of the other set, which may be this one: then nothing changes. */
    method AddSet(other: IndexSet)
      requires Valid() && other.Searchable()
      modifies vec
      ensures Valid() && Elements() == old(Elements()) + old(other.Elements())
      ensures other.vec == vec ==> vec.data == old(vec.data)
    {
      hide Flatten, Canonical, AllOk, Mem, Passed, Remaining, ValidIndexIter, AtEnd, Value, Advance, Members;
      var it := Begin(vec.data);
      BeginIndex(vec.data);
      ghost var cs := other.vec.data;
      var i := IndexBegin(other.vec.data);
      PassedAtBegin(cs);
      while !AtEnd(other.vec.data, i)
        invariant Valid() && other.vec.data == cs && ValidIndexIter(cs, i) && ValidIter(vec.data, it)
        invariant Elements() == old(Elements()) + Passed(cs, i)
        invariant InBounds(cs, i.it) ==> EndsBy(vec.Ranges(), Index(vec.data, it), Value(cs, i))
        decreases |Remaining(cs, i)|
      {
        IterFacts(cs, i);
        StepDecreases(cs, i);
        var index := Value(other.vec.data, i);
        it := FindFrom(index, it);
        it := DoAdd(it, index);
        i := Advance(other.vec.data, i);
      }
      IterFacts(cs, i);
    }

    method RemoveSet(values: IndexSet)
      requires Valid() && values.Searchable() && values.vec != vec
      modifies vec
      ensures Valid() && Elements() == old(Elements()) - values.Elements()
    {
      hide Flatten, Canonical, AllOk;
      ghost var cs, vs := values.vec.data, values.vec.Ranges();
      var it := Begin(vec.data);
      BeginIndex(vec.data);
      var v := Begin(values.vec.data);
      ghost var q := 0;
      BeginIndex(cs);
      assert vs[..0] == [] && Members([]) == {};
      EndIffLength(cs, v);
      while v != End(values.vec.data)
        invariant Valid() && values.vec.data == cs && ValidIter(cs, v) && ValidIter(vec.data, it)
        invariant Index(cs, v) == q <= |vs|
        invariant Elements() == old(Elements()) - Members(vs[..q])
        invariant q < |vs| ==> EndsBy(vec.Ranges(), Index(vec.data, it), vs[q].first)
        decreases |vs| - q
      {
        EndIffLength(cs, v);
        DerefIndex(cs, v);
        EntryIsProper(vs, q);
        var range := Deref(values.vec.data, v);
        it := DoRemove(it, range.first, range.second);
        OneMoreEntry(vs, q);
        NextIndex(cs, v);
        EndIffLength(vec.data, it);
        if it == End(vec.data) {
          RestIsBeyond(vec.Ranges(), vs, q);
          return;
        }
        if q + 1 < |vs| {
          NoneBetween(vs, q);
        }
        v := Next(values.vec.data, v);
        q := q + 1;
      }
      EndIffLength(cs, v);
      assert vs[..q] == vs;
    }

    /** Inserts every position of the set in ascending order, in one merge. */
    method InsertAtSet(positions: IndexSet)
      requires Valid() && positions.Valid() && positions.vec.maxSize == vec.maxSize
      modifies vec
      ensures Valid() && Elements() == InsertAll(old(Elements()), old(positions.Elements()))
    {
      hide Flatten, Canonical, AllOk, Mem, Passed, Remaining, ValidIndexIter, AtEnd, InBounds, Value, Advance,
           Members, AllUpTo, Below, ShiftAll, ValueOr, Merged, BothUpTo, ChunkedRangeVectorBuilder.Ready,
           ChunkedRangeVectorBuilder.Contents, ChunkedRangeVectorBuilder.Built,
           ChunkedRangeVectorBuilder.CountsRight, ChunkedRangeVectorBuilder.Valid;
      ghost var S, P := Elements(), positions.Elements();
      if |positions.vec.data| == 0 {
        EmptyRanges(positions.vec.data);
        ShiftAllByNothing(S);
        return;
      }
      if |vec.data| == 0 {
        EmptyRanges(vec.data);
        ShiftAllOfNothing(P);
        vec.data := positions.vec.data;
        return;
      }
      var builder := new ChunkedRangeVectorBuilder(vec);
      builder.StartsEmpty();
      var i1, i2, shift := MergePositions(builder, positions);
      MergedSoFar(vec.data, i1, positions.vec.data, i2, Passed(positions.vec.data, i2), builder.Contents(), shift);
      MergingFacts(vec.data, i1, positions.vec.data, i2, Passed(positions.vec.data, i2), builder.Contents(), shift);
      ghost var placed := Passed(positions.vec.data, i2);
      PushOwnRest(builder, i1, shift, P, placed, placed);
      PushPositionsRest(builder, positions, i2, ShiftAll(S, P));
      var chunks := builder.Finalize();
      vec.data := chunks;
    }

    /** While both have members left: the own ones keep their order, moved behind the positions passed so far. */
    method MergePositions(builder: ChunkedRangeVectorBuilder, positions: IndexSet) returns (i1: IndexIter, i2: IndexIter, shift: nat)
      requires Valid() && positions.Searchable() && builder.Ready() && builder.Contents() == {}
      requires |vec.data| > 0 && |positions.vec.data| > 0
      modifies builder
      ensures builder.Ready()
      ensures AtEnd(vec.data, i1) || AtEnd(positions.vec.data, i2)
      ensures Merging(vec.data, i1, positions.vec.data, i2, Passed(positions.vec.data, i2), builder.Contents(), shift)
      ensures BeforeNext(positions.vec.data, i2, builder.Contents())
    {
      hide Flatten, Canonical, AllOk, Passed, Remaining, ValidIndexIter, AtEnd, InBounds, Value, Advance,
           Members, AllUpTo, Merging, BeforeNext, ChunkedRangeVectorBuilder.Ready,
           ChunkedRangeVectorBuilder.Contents, ChunkedRangeVectorBuilder.Built, ChunkedRangeVectorBuilder.Valid;
      i1, i2, shift := IndexBegin(vec.data), IndexBegin(positions.vec.data), 0;
      ghost var cs1, cs2 := vec.data, positions.vec.data;
      MergeStart(cs1, cs2);
      while !AtEnd(vec.data, i1) && !AtEnd(positions.vec.data, i2)
        invariant builder.Ready() && Merging(cs1, i1, cs2, i2, Passed(cs2, i2), builder.Contents(), shift)
        invariant BeforeNext(cs2, i2, builder.Contents())
        decreases |Remaining(cs1, i1)| + |Remaining(cs2, i2)|
        modifies builder
      {
        MergingFacts(cs1, i1, cs2, i2, Passed(cs2, i2), builder.Contents(), shift);
        if Value(vec.data, i1) + shift < Value(positions.vec.data, i2) {
          MergeOwn(cs1, i1, cs2, i2, Passed(cs2, i2), builder.Contents(), shift, Value(cs1, i1) + shift);
          builder.PushIndex(Value(vec.data, i1) + shift);
          i1 := Advance(vec.data, i1);
        } else {
          MergePlaced(cs1, i1, cs2, i2, builder.Contents(), shift, Value(cs2, i2));
          shift := shift + 1;
          builder.PushIndex(Value(positions.vec.data, i2));
          i2 := Advance(positions.vec.data, i2);
        }
      }
    }

    /** The rest of the own members, each moved by the final shift. */
    method PushOwnRest(builder: ChunkedRangeVectorBuilder, from: IndexIter, shift: nat,
                       ghost P: set<nat>, ghost B: set<nat>, ghost base: set<nat>)
      requires Valid() && builder.Ready() && ValidIndexIter(vec.data, from)
      requires AtEnd(vec.data, from) || B == P
      requires Merged(P, Passed(vec.data, from), B, base, builder.Contents(), shift)
      requires InBounds(vec.data, from.it) ==> BothUpTo(B, builder.Contents(), Value(vec.data, from) + shift)
      modifies builder
      ensures builder.Ready() && builder.Contents() == base + ShiftAll(Elements(), P)
      ensures AtEnd(vec.data, from) ==> builder.Contents() == old(builder.Contents())
    {
      hide Flatten, Canonical, AllOk, Mem, Passed, Remaining, ValidIndexIter, AtEnd, InBounds, Value, Advance,
           Members, AllUpTo, Below, ShiftAll, ChunkedRangeVectorBuilder.Ready,
           ChunkedRangeVectorBuilder.Contents, ChunkedRangeVectorBuilder.Built,
           ChunkedRangeVectorBuilder.CountsRight, ChunkedRangeVectorBuilder.Valid;
      ghost var cs := vec.data;
      var i1 := from;
      IterFacts(cs, i1);
      while !AtEnd(vec.data, i1)
        invariant builder.Ready() && ValidIndexIter(cs, i1)
        invariant AtEnd(cs, from) ==> i1 == from && builder.Contents() == old(builder.Contents())
        invariant Merged(P, Passed(cs, i1), B, base, builder.Contents(), shift)
        invariant InBounds(cs, i1.it) ==> BothUpTo(B, builder.Contents(), Value(cs, i1) + shift)
        decreases |Remaining(cs, i1)|
        modifies builder
      {
        IterFacts(cs, i1);
        StepDecreases(cs, i1);
        OwnStep(P, Passed(cs, i1), B, base, builder.Contents(), shift,
                Value(cs, i1), ValueOr(cs, Advance(cs, i1)), 0);
        builder.PushIndex(Value(vec.data, i1) + shift);
        i1 := Advance(vec.data, i1);
      }
      IterFacts(cs, i1);
    }

    /** The rest of the positions, as they are. */
    method PushPositionsRest(builder: ChunkedRangeVectorBuilder, positions: IndexSet, from: IndexIter, ghost T: set<nat>)
      requires positions.Searchable() && builder.Ready() && ValidIndexIter(positions.vec.data, from)
      requires builder.Contents() == Passed(positions.vec.data, from) + T
      requires InBounds(positions.vec.data, from.it) ==>
        AllUpTo(builder.Contents(), Value(positions.vec.data, from))
      modifies builder
      ensures builder.Ready() && builder.Contents() == positions.Elements() + T
    {
      hide Flatten, Canonical, AllOk, Mem, Passed, Remaining, ValidIndexIter, AtEnd, InBounds, Value, Advance,
           Members, AllUpTo, Below, ShiftAll, ChunkedRangeVectorBuilder.Ready,
           ChunkedRangeVectorBuilder.Contents, ChunkedRangeVectorBuilder.Built,
           ChunkedRangeVectorBuilder.CountsRight, ChunkedRangeVectorBuilder.Valid;
      ghost var cs := positions.vec.data;
      var i2 := from;
      while !AtEnd(positions.vec.data, i2)
        invariant builder.Ready() && ValidIndexIter(cs, i2)
        invariant builder.Contents() == Passed(cs, i2) + T
        invariant InBounds(cs, i2.it) ==> AllUpTo(builder.Contents(), Value(cs, i2))
        decreases |Remaining(cs, i2)|
        modifies builder
      {
        IterFacts(cs, i2);
        StepDecreases(cs, i2);
        PositionStep(Passed(cs, i2), T, builder.Contents(), Value(cs, i2), ValueOr(cs, Advance(cs, i2)));
        builder.PushIndex(Value(positions.vec.data, i2));
        i2 := Advance(positions.vec.data, i2);
      }
      IterFacts(cs, i2);
    }

    /** Makes room at every position of the set, in one merge. */
    method ShiftForInsertAtSet(values: IndexSet)
      requires Valid() && values.Searchable()
      modifies vec
      ensures Valid() && Elements() == ShiftAll(old(Elements()), old(values.Elements()))
    {
      hide Flatten, Canonical, AllOk, Mem, Passed, Remaining, ValidIndexIter, AtEnd, InBounds, Value, Advance,
           Members, AllUpTo, Below, ShiftAll, ValueOr, Merged, BothUpTo, ChunkedRangeVectorBuilder.Ready,
           ChunkedRangeVectorBuilder.Contents, ChunkedRangeVectorBuilder.Built,
           ChunkedRangeVectorBuilder.CountsRight, ChunkedRangeVectorBuilder.Valid;
      ghost var S, P := Elements(), values.Elements();
      if |vec.data| == 0 || |values.vec.data| == 0 {
        NothingToShift(vec.data, values.vec.data);
        return;
      }
      if values.vec.data[0].begin >= vec.data[|vec.data| - 1].end {
        NothingBehind(vec.data, values.vec.data, vec.maxSize, values.vec.maxSize);
        return;
      }
      var builder := new ChunkedRangeVectorBuilder(vec);
      builder.StartsEmpty();
      var i1, i2, shift := MakeRooms(builder, values);
      MergedSoFar(vec.data, i1, values.vec.data, i2, {}, builder.Contents(), shift);
      PushOwnRest(builder, i1, shift, P, Passed(values.vec.data, i2), {});
      var chunks := builder.Finalize();
      vec.data := chunks;
    }

    /** While both have members left: the own ones move behind the values passed so far. */
    method MakeRooms(builder: ChunkedRangeVectorBuilder, values: IndexSet) returns (i1: IndexIter, i2: IndexIter, shift: nat)
      requires Valid() && values.Searchable() && builder.Ready() && builder.Contents() == {}
      requires |vec.data| > 0 && |values.vec.data| > 0
      modifies builder
      ensures builder.Ready()
      ensures AtEnd(vec.data, i1) || AtEnd(values.vec.data, i2)
      ensures Merging(vec.data, i1, values.vec.data, i2, {}, builder.Contents(), shift)
    {
      hide Flatten, Canonical, AllOk, Passed, Remaining, ValidIndexIter, AtEnd, InBounds, Value, Advance,
           Members, AllUpTo, Merging, BeforeNext, ChunkedRangeVectorBuilder.Ready,
           ChunkedRangeVectorBuilder.Contents, ChunkedRangeVectorBuilder.Built, ChunkedRangeVectorBuilder.Valid;
      i1, i2, shift := IndexBegin(vec.data), IndexBegin(values.vec.data), 0;
      ghost var cs1, cs2 := vec.data, values.vec.data;
      MergeStart(cs1, cs2);
      while !AtEnd(vec.data, i1) && !AtEnd(values.vec.data, i2)
        invariant builder.Ready() && Merging(cs1, i1, cs2, i2, {}, builder.Contents(), shift)
        decreases |Remaining(cs1, i1)| + |Remaining(cs2, i2)|
        modifies builder
      {
        MergingFacts(cs1, i1, cs2, i2, {}, builder.Contents(), shift);
        if Value(vec.data, i1) + shift < Value(values.vec.data, i2) {
          MergeOwn(cs1, i1, cs2, i2, {}, builder.Contents(), shift, Value(cs1, i1) + shift);
          builder.PushIndex(Value(vec.data, i1) + shift);
          i1 := Advance(vec.data, i1);
        } else {
          MergeRoom(cs1, i1, cs2, i2, builder.Contents(), shift);
          shift := shift + 1;
          i2 := Advance(values.vec.data, i2);
        }
      }
    }

    /** Erases every position of the set, and shifts what remains down, in one merge. */
    method EraseAtSet(positions: IndexSet)
      requires Valid() && positions.Searchable()
      modifies vec
      ensures Valid() && Elements() == EraseAll(old(Elements()), old(positions.Elements()))
    {
      hide Flatten, Canonical, AllOk, Mem, Passed, Remaining, ValidIndexIter, AtEnd, InBounds, Value, Advance,
           Members, AllUpTo, Below, EraseAll, PositionalSets.Unshift, ValueOr, ChunkedRangeVectorBuilder.Ready,
           ChunkedRangeVectorBuilder.Contents, ChunkedRangeVectorBuilder.Built,
           ChunkedRangeVectorBuilder.CountsRight, ChunkedRangeVectorBuilder.Valid;
      ghost var S, P := Elements(), positions.Elements();
      if |vec.data| == 0 || |positions.vec.data| == 0 {
        if |vec.data| == 0 {
          EmptyRanges(vec.data);
          EraseAllOfNothing(P);
        } else {
          EmptyRanges(positions.vec.data);
          EraseAllByNothing(S);
        }
        return;
      }
      var builder := new ChunkedRangeVectorBuilder(vec);
      builder.StartsEmpty();
      var i1, i2, shift := PushKept(builder, positions);
      PushKeptRest(builder, i1, shift, P, Passed(positions.vec.data, i2));
      var chunks := builder.Finalize();
      vec.data := chunks;
    }

    /** While both have members left: the own ones that stay move down by the number of positions passed. */
    method PushKept(builder: ChunkedRangeVectorBuilder, positions: IndexSet) returns (i1: IndexIter, i2: IndexIter, shift: nat)
      requires Valid() && positions.Searchable() && builder.Ready() && builder.Contents() == {}
      requires |vec.data| > 0 && |positions.vec.data| > 0
      modifies builder
      ensures builder.Ready() && ValidIndexIter(vec.data, i1) && ValidIndexIter(positions.vec.data, i2)
      ensures AtEnd(vec.data, i1) || Passed(positions.vec.data, i2) == positions.Elements()
      ensures builder.Contents() == EraseAll(Passed(vec.data, i1), positions.Elements())
      ensures shift == |Passed(positions.vec.data, i2)|
      ensures InBounds(vec.data, i1.it) ==> AllUpTo(Passed(positions.vec.data, i2), Value(vec.data, i1))
    {
      hide Flatten, Canonical, AllOk, AllBounded, Passed, Remaining, ValidIndexIter, AtEnd, InBounds, Value, Advance,
           Members, AllUpTo, EraseAll, Keeping, ChunkedRangeVectorBuilder.Ready, ChunkedRangeVectorBuilder.Contents,
           ChunkedRangeVectorBuilder.Built, ChunkedRangeVectorBuilder.Valid;
      i1, i2, shift := IndexBegin(vec.data), IndexBegin(positions.vec.data), 0;
      ghost var cs1, cs2 := vec.data, positions.vec.data;
      KeepStart(cs1, cs2);
      while !AtEnd(vec.data, i1) && !AtEnd(positions.vec.data, i2)
        invariant builder.Ready() && Keeping(cs1, i1, cs2, i2, builder.Contents(), shift)
        decreases |Remaining(cs1, i1)| + |Remaining(cs2, i2)|
        modifies builder
      {
        KeepingFacts(cs1, i1, cs2, i2, builder.Contents(), shift);
        if Value(vec.data, i1) < Value(positions.vec.data, i2) {
          KeepOwn(cs1, i1, cs2, i2, builder.Contents(), shift);
          builder.PushIndex(Value(vec.data, i1) - shift);
          i1 := Advance(vec.data, i1);
        } else if Value(vec.data, i1) == Value(positions.vec.data, i2) {
          DropOwn(cs1, i1, cs2, i2, builder.Contents(), shift);
          shift := shift + 1;
          i1 := Advance(vec.data, i1);
          i2 := Advance(positions.vec.data, i2);
        } else {
          SkipPosition(cs1, i1, cs2, i2, builder.Contents(), shift);
          shift := shift + 1;
          i2 := Advance(positions.vec.data, i2);
        }
      }
      KeepingFacts(cs1, i1, cs2, i2, builder.Contents(), shift);
    }

    /** The rest of the members, none of which is erased, each moved down by the final shift. */
    method PushKeptRest(builder: ChunkedRangeVectorBuilder, from: IndexIter, shift: nat,
                        ghost P: set<nat>, ghost B: set<nat>)
      requires Valid() && builder.Ready() && ValidIndexIter(vec.data, from)
      requires AtEnd(vec.data, from) || B == P
      requires builder.Contents() == EraseAll(Passed(vec.data, from), P) && shift == |B|
      requires InBounds(vec.data, from.it) ==> AllUpTo(B, Value(vec.data, from))
      modifies builder
      ensures builder.Ready() && builder.Contents() == EraseAll(Elements(), P)
    {
      hide Flatten, Canonical, AllOk, Mem, Passed, Remaining, ValidIndexIter, AtEnd, InBounds, Value, Advance,
           Members, AllUpTo, Below, EraseAll, PositionalSets.Unshift, ChunkedRangeVectorBuilder.Ready,
           ChunkedRangeVectorBuilder.Contents, ChunkedRangeVectorBuilder.Built,
           ChunkedRangeVectorBuilder.CountsRight, ChunkedRangeVectorBuilder.Valid;
      ghost var cs := vec.data;
      var i1 := from;
      IterFacts(cs, i1);
      while !AtEnd(vec.data, i1)
        invariant builder.Ready() && ValidIndexIter(cs, i1)
        invariant AtEnd(cs, i1) || B == P
        invariant builder.Contents() == EraseAll(Passed(cs, i1), P)
        invariant InBounds(cs, i1.it) ==> AllUpTo(B, Value(cs, i1))
        decreases |Remaining(cs, i1)|
        modifies builder
      {
        IterFacts(cs, i1);
        StepDecreases(cs, i1);
        KeepStep(P, Passed(cs, i1), B, shift, Value(cs, i1), ValueOr(cs, Advance(cs, i1)), 0);
        PassedIsAllBelow(cs, i1);
        ErasedIsBelow(Passed(cs, i1), P, Value(cs, i1));
        builder.PushIndex(Value(vec.data, i1) - shift);
        i1 := Advance(vec.data, i1);
      }
      IterFacts(cs, i1);
    }

    // ----- adding indices that were shifted by another set -----

    /**
     * Adds every value that shiftedBy does not hold, moved from the indices with shiftedBy inserted to those
     * with this set inserted. The members come out right in every case, but a range that is copied whole to
     * the start of a chunk beyond the builder's reserve leaves that chunk with a cached count of one.
     */
    method AddShiftedBy(shiftedBy: IndexSet, values: IndexSet)
      requires Valid() && shiftedBy.Searchable() && values.Searchable()
      modifies vec
      ensures Searchable()
      ensures Elements() == old(Elements()) + Relocated(old(Elements()), old(shiftedBy.Elements()), old(values.Elements()))
      ensures Valid() <==> !LosesCount(old(vec.Ranges()),
        Relocated(old(Elements()), old(shiftedBy.Elements()), old(values.Elements())),
        Reserve(old(|vec.Ranges()|), vec.maxSize), vec.maxSize)
    {
      hide Flatten, Canonical, AllOk, Mem, Passed, Remaining, ValidIndexIter, AtEnd, Value, Advance, Members,
           AllUpTo, Below, Relocated, ValueOr, CountLost, LosesCount, Skipped, StartsBy, Copied, Settled, EndsByShifted,
           ChunkedRangeVectorBuilder.Ready, ChunkedRangeVectorBuilder.Contents,
           ChunkedRangeVectorBuilder.Built, ChunkedRangeVectorBuilder.CountsRight;
      ghost var rs, S, B, V := vec.Ranges(), Elements(), shiftedBy.Elements(), values.Elements();
      RelocateNothing(S, B);
      if |values.vec.data| == 0 {
        EmptyRanges(values.vec.data);
        NothingLost(rs, {}, |rs|, vec.maxSize);
        LossIsKnownBefore(rs, {}, rs, Reserve(|rs|, vec.maxSize), vec.maxSize);
        return;
      }
      ghost var cs, bs, vs := vec.data, shiftedBy.vec.data, values.vec.data;
      var builder := new ChunkedRangeVectorBuilder(vec);
      builder.StartsEmpty();
      var oldIt, shiftIt := Begin(vec.data), Begin(shiftedBy.vec.data);
      var skipUntil, oldShift, newShift := 0, 0, 0;
      var i := IndexBegin(values.vec.data);
      PassedAtBegin(vs);
      NothingSkipped(bs);
      NothingCopied(cs, B);
      while !AtEnd(values.vec.data, i)
        invariant ValidIndexIter(vs, i) && builder.Ready()
        invariant Skipped(bs, shiftIt, newShift, skipUntil)
        invariant InBounds(vs, i.it) ==> StartsBy(bs, shiftIt, Value(vs, i))
        invariant Copied(cs, oldIt, oldShift, builder.Contents(), Relocated(S, B, Passed(vs, i)))
        invariant Settled(cs, oldIt, builder.Contents(), Relocated(S, B, Passed(vs, i)))
        invariant InBounds(vs, i.it) ==> EndsByShifted(cs, oldIt, oldShift, B, Value(vs, i))
        decreases |Remaining(vs, i)|
        modifies builder
      {
        IterFacts(vs, i);
        StepDecreases(vs, i);
        var index := Value(values.vec.data, i);
        shiftIt, newShift, skipUntil := shiftedBy.SkipTo(shiftIt, index, newShift, skipUntil);
        SkippedFacts(bs, shiftIt, newShift, skipUntil, index);
        StartsByLater(bs, shiftIt, index, ValueOr(vs, Advance(vs, i)));
        if index < skipUntil {
          RelocateSkipped(S, B, Passed(vs, i), index);
          EndsByShiftedLater(cs, oldIt, oldShift, B, index, ValueOr(vs, Advance(vs, i)));
        } else {
          oldIt, oldShift := PushOwnUpTo(builder, oldIt, index - newShift, oldShift, B, index, Relocated(S, B, Passed(vs, i)));
          PassedIsAllBelow(vs, i);
          RelocateOne(cs, oldIt, oldShift, builder.Contents(), B, Passed(vs, i), index);
          EndsByShiftedLater(cs, oldIt, oldShift, B, index, ValueOr(vs, Advance(vs, i)));
          builder.PushIndex(index - newShift + oldShift);
        }
        i := Advance(values.vec.data, i);
      }
      IterFacts(vs, i);
      CopyRest(builder, oldIt, oldShift, Relocated(S, B, V));
      LossIsKnownBefore(rs, Relocated(S, B, V), builder.Built(), builder.reserve, vec.maxSize);
      var chunks := builder.Finalize();
      vec.data := chunks;
    }

    /** Counts in the ranges that start at or before the index. */
    method SkipTo(from: Iter, index: nat, shift: nat, skip: nat) returns (it: Iter, newShift: nat, skipUntil: nat)
      requires Searchable() && Skipped(vec.data, from, shift, skip) && StartsBy(vec.data, from, index)
      ensures Skipped(vec.data, it, newShift, skipUntil) && StartsBy(vec.data, it, index)
      ensures InBounds(vec.data, it) ==> Deref(vec.data, it).first > index
    {
      hide Flatten, Canonical, AllOk, Mem, Width;
      ghost var rs, q := vec.Ranges(), Index(vec.data, from);
      it, newShift, skipUntil := from, shift, skip;
      EndIffLength(vec.data, it);
      while it != End(vec.data) && Deref(vec.data, it).first <= index
        invariant Skipped(vec.data, it, newShift, skipUntil) && StartsBy(vec.data, it, index)
        invariant Index(vec.data, it) == q <= |rs|
        decreases |rs| - q
      {
        EndIffLength(vec.data, it);
        DerefIndex(vec.data, it);
        EntryIsProper(rs, q);
        WholeEntry(rs, q);
        NextIndex(vec.data, it);
        newShift := newShift + (Deref(vec.data, it).second - Deref(vec.data, it).first);
        skipUntil := Deref(vec.data, it).second;
        it := Next(vec.data, it);
        q := q + 1;
      }
      EndIffLength(vec.data, it);
    }

    /** Pushes, index by index, the own ranges that the shifted value comes after. */
    method PushOwnUpTo(builder: ChunkedRangeVectorBuilder, from: Iter, u: nat, shift: nat,
                       ghost B: set<nat>, ghost v: nat, ghost R: set<nat>)
      returns (it: Iter, oldShift: nat)
      requires Valid() && builder.Ready() && Copied(vec.data, from, shift, builder.Contents(), R)
      requires u == PositionalSets.Unshift(B, v) && EndsByShifted(vec.data, from, shift, B, v)
      modifies builder
      ensures builder.Ready() && Copied(vec.data, it, oldShift, builder.Contents(), R)
      ensures EndsByShifted(vec.data, it, oldShift, B, v)
      ensures InBounds(vec.data, it) ==> Deref(vec.data, it).first > u + oldShift
    {
      hide Flatten, Canonical, AllOk, Mem, Members, Width, AllUpTo, PositionalSets.Unshift,
           ChunkedRangeVectorBuilder.Ready, ChunkedRangeVectorBuilder.Contents,
           ChunkedRangeVectorBuilder.Built, ChunkedRangeVectorBuilder.CountsRight;
      ghost var rs, q := vec.Ranges(), Index(vec.data, from);
      it, oldShift := from, shift;
      EndIffLength(vec.data, it);
      while it != End(vec.data) && Deref(vec.data, it).first <= u + oldShift
        invariant builder.Ready() && Copied(vec.data, it, oldShift, builder.Contents(), R)
        invariant EndsByShifted(vec.data, it, oldShift, B, v)
        invariant Index(vec.data, it) == q <= |rs|
        decreases |rs| - q
        modifies builder
      {
        EndIffLength(vec.data, it);
        DerefIndex(vec.data, it);
        EntryIsProper(rs, q);
        PushUnits(builder, Deref(vec.data, it));
        CopyEntry(rs, q, builder.Contents(), R);
        WholeEntry(rs, q);
        NextIndex(vec.data, it);
        oldShift := oldShift + (Deref(vec.data, it).second - Deref(vec.data, it).first);
        it := Next(vec.data, it);
        q := q + 1;
      }
      EndIffLength(vec.data, it);
    }

    method PushUnits(builder: ChunkedRangeVectorBuilder, r: Range)
      requires builder.Ready() && AllUpTo(builder.Contents(), r.first) && r.first < r.second
      modifies builder
      ensures builder.Ready() && builder.Contents() == old(builder.Contents()) + Interval(r.first, r.second)
    {
      hide ChunkedRangeVectorBuilder.Ready, ChunkedRangeVectorBuilder.Contents,
           ChunkedRangeVectorBuilder.Built, ChunkedRangeVectorBuilder.CountsRight;
      var i := r.first;
      while i < r.second
        invariant r.first <= i <= r.second && builder.Ready()
        invariant builder.Contents() == old(builder.Contents()) + Interval(r.first, i)
        invariant AllUpTo(builder.Contents(), i)
        modifies builder
      {
        assert Interval(r.first, i + 1) == Interval(r.first, i) + {i};
        builder.PushIndex(i);
        i := i + 1;
      }
    }

    /** Copies the remaining own ranges as they are. */
    method CopyRest(builder: ChunkedRangeVectorBuilder, from: Iter, shift: nat, ghost R: set<nat>)
      requires Valid() && builder.Ready() && Copied(vec.data, from, shift, builder.Contents(), R)
      requires Settled(vec.data, from, builder.Contents(), R)
      requires builder.maxSize == vec.maxSize && builder.reserve == Reserve(|vec.Ranges()|, vec.maxSize)
      modifies builder
      ensures builder.Valid() && Canonical(builder.Built()) && Members(builder.Built()) == Elements() + R
      ensures builder.CountsRight() <==> !CountLost(builder.Built(), R, builder.reserve, vec.maxSize)
    {
      hide Flatten, Canonical, AllOk, Mem, Members, Width, AllUpTo, BeyondReserve, Appended,
           ChunkedRangeVectorBuilder.Built, ChunkedRangeVectorBuilder.CountsRight, ChunkedRangeVectorBuilder.Valid,
           ChunkedRangeVectorBuilder.Overflows;
      ghost var rs, q, n0 := vec.Ranges(), Index(vec.data, from), |builder.Built()|;
      var it := from;
      EndIffLength(vec.data, it);
      SettledStarts(vec.data, it, shift, builder.Built(), R);
      while it != End(vec.data)
        invariant builder.Valid() && ValidIter(vec.data, it) && Index(vec.data, it) == q <= |rs|
        invariant CopiedFlat(rs, q, builder.Built(), R)
        invariant n0 <= |builder.Built()| && StartsAround(builder.Built(), n0, R)
        invariant |builder.Built()| > n0 ==> q > 0 && builder.Built()[|builder.Built()| - 1] == rs[q - 1]
        invariant builder.CountsRight() <==> LateUnits(builder.Built(), n0, vec.maxSize, builder.reserve)
        decreases |rs| - q
        modifies builder
      {
        EndIffLength(vec.data, it);
        DerefIndex(vec.data, it);
        NextIndex(vec.data, it);
        CopyWhole(rs, q, builder.Built(), R);
        AppendAround(builder.Built(), n0, rs, q, R, vec.maxSize, builder.reserve);
        if builder.Built() == [] || builder.Built()[|builder.Built()| - 1].second != rs[q].first {
          OverflowsBeyondReserve(builder, rs[q]);
        } else {
          JoinDoesNotOverflow(builder, rs[q]);
        }
        builder.Push(Deref(vec.data, it));
        it := Next(vec.data, it);
        q := q + 1;
      }
      EndIffLength(vec.data, it);
      assert rs[..q] == rs;
      LossIsLate(builder.Built(), n0, R, builder.reserve, vec.maxSize);
    }
  }

  ghost predicate Skipped(cs: seq<Chunk>, it: Iter, shift: nat, skipUntil: nat) {
    && ValidIter(cs, it)
    && Index(cs, it) <= |Flatten(cs)|
    && shift == Width(Flatten(cs)[..Index(cs, it)])
    && skipUntil == if Index(cs, it) == 0 then 0 else Flatten(cs)[Index(cs, it) - 1].second
  }

  ghost predicate StartsBy(cs: seq<Chunk>, it: Iter, x: nat) {
    it.outer <= |cs| && forall k :: 0 <= k < Index(cs, it) && k < |Flatten(cs)| ==> Flatten(cs)[k].first <= x
  }

  lemma {:induction false} NothingSkipped(cs: seq<Chunk>)
    requires NoneEmpty(cs)
    ensures Skipped(cs, Begin(cs), 0, 0)
    ensures forall x :: StartsBy(cs, Begin(cs), x)
  {
    assert Flatten(cs)[..0] == [];
  }

  lemma StartsByLater(cs: seq<Chunk>, it: Iter, x: nat, y: nat)
    requires StartsBy(cs, it, x)
    ensures x < y ==> StartsBy(cs, it, y)
  {
  }

  /** Having skipped the ranges that start at or before the index, membership and shift can be read off. */
  lemma {:induction false} SkippedFacts(cs: seq<Chunk>, it: Iter, shift: nat, skipUntil: nat, index: nat)
    requires NoneEmpty(cs) && Canonical(Flatten(cs)) && Skipped(cs, it, shift, skipUntil)
    requires StartsBy(cs, it, index) && (InBounds(cs, it) ==> Deref(cs, it).first > index)
    ensures index < skipUntil <==> index in Members(Flatten(cs))
    ensures index >= skipUntil ==> index >= shift && PositionalSets.Unshift(Members(Flatten(cs)), index) == index - shift
  {
    var rs, q := Flatten(cs), Index(cs, it);
    EndIffLength(cs, it);
    if InBounds(cs, it) {
      DerefIndex(cs, it);
    }
    if index < skipUntil {
      assert rs[q - 1].Has(index);
    } else {
      SkippedPosition(rs, q, index);
      CountBelowByWidth(rs, index, q);
      CountBelowBound(Members(rs), index);
    }
  }

  lemma SkippedPosition(rs: seq<Range>, q: nat, index: nat)
    requires Canonical(rs) && q <= |rs| && (q > 0 ==> rs[q - 1].second <= index) && (q < |rs| ==> rs[q].first > index)
    ensures IsPosition(rs, index, q) && index !in Members(rs)
  {
    MemberAtPosition(rs, index, q);
  }

  /** What the builder holds while the own entries before a position, and R, have been pushed. */
  ghost predicate CopiedFlat(rs: seq<Range>, q: nat, built: seq<Range>, R: set<nat>) {
    && q <= |rs|
    && Canonical(built)
    && Members(built) == Members(rs[..q]) + R
    && (q < |rs| ==> AllUpTo(Members(built), rs[q].first))
  }

  ghost predicate Copied(cs: seq<Chunk>, it: Iter, shift: nat, contents: set<nat>, R: set<nat>) {
    && ValidIter(cs, it)
    && Index(cs, it) <= |Flatten(cs)|
    && shift == Width(Flatten(cs)[..Index(cs, it)])
    && contents == Members(Flatten(cs)[..Index(cs, it)]) + R
    && (Index(cs, it) < |Flatten(cs)| ==> AllUpTo(contents, Flatten(cs)[Index(cs, it)].first))
  }

  /** The last push was the greatest member of R, if there was any push at all. */
  ghost predicate Settled(cs: seq<Chunk>, it: Iter, contents: set<nat>, R: set<nat>) {
    (R == {} && it == Begin(cs)) || exists r :: r in R && AllUpTo(contents, r + 1)
  }

  ghost predicate EndsByShifted(cs: seq<Chunk>, it: Iter, shift: nat, B: set<nat>, v: nat) {
    it.outer <= |cs| && EndsBy(Flatten(cs), Index(cs, it), PositionalSets.Unshift(B, v) + shift)
  }

  lemma {:induction false} NothingCopied(cs: seq<Chunk>, B: set<nat>)
    requires NoneEmpty(cs)
    ensures Copied(cs, Begin(cs), 0, {}, {}) && Settled(cs, Begin(cs), {}, {})
    ensures forall v :: EndsByShifted(cs, Begin(cs), 0, B, v)
  {
    assert Flatten(cs)[..0] == [];
    assert Members([]) == {};
  }

  lemma EndsByShiftedLater(cs: seq<Chunk>, it: Iter, shift: nat, B: set<nat>, v: nat, w: nat)
    requires EndsByShifted(cs, it, shift, B, v)
    ensures v < w ==> EndsByShifted(cs, it, shift, B, w)
  {
    if v < w {
      UnshiftMonotone(B, v, w);
    }
  }

  lemma CopyEntry(rs: seq<Range>, q: nat, contents: set<nat>, R: set<nat>)
    requires Canonical(rs) && q < |rs|
    requires contents == Members(rs[..q]) + R + Interval(rs[q].first, rs[q].second)
    requires AllUpTo(Members(rs[..q]) + R, rs[q].first)
    ensures contents == Members(rs[..q + 1]) + R
    ensures q + 1 < |rs| ==> AllUpTo(contents, rs[q + 1].first)
  {
    OneMoreEntry(rs, q);
    if q + 1 < |rs| {
      NoneBetween(rs, q);
    }
  }

  lemma RelocateNothing(S: set<nat>, B: set<nat>)
    ensures Relocated(S, B, {}) == {} && S + {} == S
  {
  }

  lemma RelocateSkipped(S: set<nat>, B: set<nat>, A: set<nat>, v: nat)
    requires v in B
    ensures Relocated(S, B, A + {v}) == Relocated(S, B, A)
  {
  }

  /** With every own range before it counted in, the value has reached its shifted place. */
  lemma {:induction false} RelocateOne(cs: seq<Chunk>, it: Iter, shift: nat, contents: set<nat>, B: set<nat>, A: set<nat>, v: nat)
    requires NoneEmpty(cs) && Canonical(Flatten(cs))
    requires Copied(cs, it, shift, contents, Relocated(Members(Flatten(cs)), B, A))
    requires EndsByShifted(cs, it, shift, B, v) && v !in B && AllUpTo(A, v)
    requires InBounds(cs, it) ==> Deref(cs, it).first > PositionalSets.Unshift(B, v) + shift
    ensures var S, y := Members(Flatten(cs)), PositionalSets.Unshift(B, v) + shift;
            && AllUpTo(contents, y)
            && Copied(cs, it, shift, contents + {y}, Relocated(S, B, A + {v}))
            && Settled(cs, it, contents + {y}, Relocated(S, B, A + {v}))
  {
    hide Canonical, Width, Flatten, Mem, IsShift, Members, PositionalSets.Shift, PositionalSets.Unshift;
    var rs, q, y := Flatten(cs), Index(cs, it), PositionalSets.Unshift(B, v) + shift;
    EndIffLength(cs, it);
    if InBounds(cs, it) {
      DerefIndex(cs, it);
    }
    ShiftAtEntry(rs, q, y);
    RelocatedGrows(Members(rs), B, A, v, y);
    PrefixBelow(rs[..q], y);
    assert y in Relocated(Members(rs), B, A + {v});
    assert AllUpTo(contents + {y}, y + 1);
  }

  lemma {:induction false} ShiftAtEntry(rs: seq<Range>, q: nat, y: nat)
    requires Canonical(rs) && q <= |rs| && EndsBy(rs, q, y) && (q < |rs| ==> rs[q].first > y)
    ensures Width(rs[..q]) <= y
    ensures y - Width(rs[..q]) >= 0 && PositionalSets.Shift(Members(rs), y - Width(rs[..q])) == y
  {
    if q < |rs| {
      EntryIsProper(rs, q);
    }
    CountAtEnd(rs, y, q);
    MemberAtPosition(rs, y, q);
    CountBelowBound(Members(rs), y);
    ShiftIsUnique(Members(rs), y - Width(rs[..q]), y);
  }

  lemma RelocatedGrows(S: set<nat>, B: set<nat>, A: set<nat>, v: nat, y: nat)
    requires v !in B && AllUpTo(A, v) && y == RelocatedTo(S, B, v)
    ensures Relocated(S, B, A + {v}) == Relocated(S, B, A) + {y}
    ensures AllUpTo(Relocated(S, B, A), y)
  {
    forall r | r in Relocated(S, B, A)
      ensures r < y
    {
      var w :| w in A && w !in B && r == RelocatedTo(S, B, w);
      RelocationIsIncreasing(S, B, w, v);
    }
  }

  // ----- which chunks of a relocation keep a wrong count -----

  /** An entry wider than one, after everything relocated, at a chunk border that the builder had no chunk for. */
  ghost predicate CountLost(result: seq<Range>, R: set<nat>, reserve: nat, maxSize: nat) {
    exists j :: 0 <= j < |result| && CountLostAt(result, j, R, reserve, maxSize)
  }

  ghost predicate CountLostAt(result: seq<Range>, j: nat, R: set<nat>, reserve: nat, maxSize: nat)
    requires j < |result|
  {
    BeyondReserve(j, maxSize, reserve) && AllUpTo(R, result[j].first) && result[j].second - result[j].first != 1
  }

  /**
   * The same, told from the operands: an own range wider than one, after everything relocated with a gap, in front
   * of which the members and the relocated values form as many runs as fill the reserve, or it and more chunks.
   */
  ghost predicate LosesCount(own: seq<Range>, R: set<nat>, reserve: nat, maxSize: nat) {
    exists q :: 0 <= q < |own| && LosesAt(own, q, R, reserve, maxSize)
  }

  ghost predicate LosesAt(own: seq<Range>, q: nat, R: set<nat>, reserve: nat, maxSize: nat)
    requires q < |own|
  {
    && own[q].second - own[q].first != 1 && AllUpTo(R, own[q].first - 1)
    && BeyondReserve(RunsBelow(Members(own) + R, own[q].first), maxSize, reserve)
  }

  lemma LossShowsInResult(own: seq<Range>, q: nat, R: set<nat>, result: seq<Range>, reserve: nat, maxSize: nat)
    requires Canonical(own) && Canonical(result) && Members(result) == Members(own) + R
    requires q < |own| && LosesAt(own, q, R, reserve, maxSize)
    ensures CountLost(result, R, reserve, maxSize)
  {
    EntryIsRun(own, q);
    var j := RunIsEntry(result, own[q]);
    PlaceIsRunsBelow(result, j);
    hide Members, RunsBelow, BeyondReserve;
    assert CountLostAt(result, j, R, reserve, maxSize);
  }

  lemma LossComesFromOwn(own: seq<Range>, R: set<nat>, result: seq<Range>, j: nat, reserve: nat, maxSize: nat)
    requires Canonical(own) && Canonical(result) && Members(result) == Members(own) + R
    requires j < |result| && CountLostAt(result, j, R, reserve, maxSize)
    ensures LosesCount(own, R, reserve, maxSize)
  {
    EntryIsRun(result, j);
    var q := RunIsEntry(own, result[j]);
    PlaceIsRunsBelow(result, j);
    hide Members, RunsBelow, BeyondReserve;
    assert LosesAt(own, q, R, reserve, maxSize);
  }

  /** Runs of the result that lie behind all relocated values are runs of the own members. */
  lemma LossIsKnownBefore(own: seq<Range>, R: set<nat>, result: seq<Range>, reserve: nat, maxSize: nat)
    requires Canonical(own) && Canonical(result) && Members(result) == Members(own) + R
    ensures CountLost(result, R, reserve, maxSize) <==> LosesCount(own, R, reserve, maxSize)
  {
    if CountLost(result, R, reserve, maxSize) {
      var j :| 0 <= j < |result| && CountLostAt(result, j, R, reserve, maxSize);
      LossComesFromOwn(own, R, result, j, reserve, maxSize);
    }
    if LosesCount(own, R, reserve, maxSize) {
      var q :| 0 <= q < |own| && LosesAt(own, q, R, reserve, maxSize);
      LossShowsInResult(own, q, R, result, reserve, maxSize);
    }
  }

  lemma NothingLost(rs: seq<Range>, R: set<nat>, n: nat, maxSize: nat)
    requires n == |rs| && maxSize > 0
    ensures !CountLost(rs, R, Reserve(n, maxSize), maxSize)
  {
    var reserve := Reserve(n, maxSize);
    forall j | 0 <= j < |rs|
      ensures !BeyondReserve(j, maxSize, reserve)
    {
      ExpectedFitsReserve(n, j, maxSize);
    }
  }

  /** Entries before n0 start no later than the greatest member of R, the others after all of R. */
  ghost predicate StartsAround(built: seq<Range>, n0: nat, R: set<nat>) {
    && (forall k :: 0 <= k < n0 && k < |built| ==> !AllUpTo(R, built[k].first))
    && (forall k :: n0 <= k < |built| ==> AllUpTo(R, built[k].first))
  }

  ghost predicate LateUnits(built: seq<Range>, n0: nat, maxSize: nat, reserve: nat) {
    forall k :: n0 <= k < |built| && BeyondReserve(k, maxSize, reserve) ==> built[k].second - built[k].first == 1
  }

  lemma {:induction false} SettledStarts(cs: seq<Chunk>, it: Iter, shift: nat, built: seq<Range>, R: set<nat>)
    requires Canonical(built) && Copied(cs, it, shift, Members(built), R) && Settled(cs, it, Members(built), R)
    ensures StartsAround(built, |built|, R)
  {
    hide Canonical, Mem, Width;
    if R == {} && it == Begin(cs) {
      assert Flatten(cs)[..0] == [];
      NoMemberNoEntry([]);
      NoMemberNoEntry(built);
    } else {
      var r :| r in R && AllUpTo(Members(built), r + 1);
      forall k | 0 <= k < |built|
        ensures built[k].first <= r
      {
        StartIsMember(built, k);
      }
    }
  }

  lemma StartIsMember(rs: seq<Range>, k: nat)
    requires Canonical(rs) && k < |rs|
    ensures rs[k].first in Members(rs)
  {
    assert rs[k].Has(rs[k].first);
  }

  lemma NoMemberNoEntry(rs: seq<Range>)
    requires Canonical(rs)
    ensures Members(rs) == {} <==> rs == []
  {
    if rs != [] {
      StartIsMember(rs, 0);
    }
  }

  lemma CopyWhole(rs: seq<Range>, q: nat, built: seq<Range>, R: set<nat>)
    requires Canonical(rs) && CopiedFlat(rs, q, built, R) && q < |rs|
    ensures Follows(built, rs[q])
    ensures CopiedFlat(rs, q + 1, Appended(built, rs[q]), R)
  {
    hide Appended, Canonical, Members;
    EntryIsProper(rs, q);
    LastIsBelow(built, rs[q].first);
    AppendedIsCanonical(built, rs[q]);
    AppendedMembers(built, rs[q]);
    CopyEntry(rs, q, Members(Appended(built, rs[q])), R);
  }

  /** A copied range becomes a new entry, or joins the one entry that was pushed last before the copying. */
  lemma AppendAround(built: seq<Range>, n0: nat, rs: seq<Range>, q: nat, R: set<nat>, maxSize: nat, reserve: nat)
    requires Canonical(rs) && q < |rs| && CopiedFlat(rs, q, built, R)
    requires n0 <= |built| && StartsAround(built, n0, R)
    requires |built| > n0 ==> q > 0 && built[|built| - 1] == rs[q - 1]
    ensures var after, joins := Appended(built, rs[q]), built != [] && built[|built| - 1].second == rs[q].first;
            && n0 <= |after| && StartsAround(after, n0, R)
            && (|after| > n0 ==> after[|after| - 1] == rs[q])
            && (LateUnits(after, n0, maxSize, reserve) <==>
                LateUnits(built, n0, maxSize, reserve) &&
                (joins || !BeyondReserve(|built|, maxSize, reserve) || rs[q].second - rs[q].first == 1))
  {
    hide Canonical, Members, BeyondReserve;
    if built != [] && built[|built| - 1].second == rs[q].first {
      NotJoinedBefore(rs, q, built, n0);
    } else {
      NewEntryAround(built, n0, rs[q], R, maxSize, reserve);
    }
  }

  lemma NotJoinedBefore(rs: seq<Range>, q: nat, built: seq<Range>, n0: nat)
    requires Canonical(rs) && q < |rs| && n0 <= |built|
    requires built != [] && built[|built| - 1].second == rs[q].first
    requires |built| > n0 ==> q > 0 && built[|built| - 1] == rs[q - 1]
    ensures |built| == n0
  {
  }

  lemma NewEntryAround(built: seq<Range>, n0: nat, r: Range, R: set<nat>, maxSize: nat, reserve: nat)
    requires n0 <= |built| && StartsAround(built, n0, R) && AllUpTo(R, r.first)
    ensures StartsAround(built + [r], n0, R)
    ensures LateUnits(built + [r], n0, maxSize, reserve) <==>
      LateUnits(built, n0, maxSize, reserve) && (!BeyondReserve(|built|, maxSize, reserve) || r.second - r.first == 1)
  {
    hide AllUpTo, BeyondReserve;
    var after := built + [r];
    assert after[|built|] == r;
    if LateUnits(after, n0, maxSize, reserve) {
      forall k | n0 <= k < |built| && BeyondReserve(k, maxSize, reserve)
        ensures built[k].second - built[k].first == 1
      {
        assert after[k] == built[k];
      }
    }
  }

  lemma {:induction false} JoinDoesNotOverflow(b: ChunkedRangeVectorBuilder, r: Range)
    requires b.Valid() && b.Built() != [] && b.Built()[|b.Built()| - 1].second == r.first
    ensures !b.Overflows(r)
  {
    LastOfCurrent(b.data, b.outerPos, b.maxSize);
  }

  lemma LossIsLate(built: seq<Range>, n0: nat, R: set<nat>, reserve: nat, maxSize: nat)
    requires n0 <= |built| && StartsAround(built, n0, R)
    ensures LateUnits(built, n0, maxSize, reserve) <==> !CountLost(built, R, reserve, maxSize)
  {
    if !LateUnits(built, n0, maxSize, reserve) {
      var k :| n0 <= k < |built| && BeyondReserve(k, maxSize, reserve) && built[k].second - built[k].first != 1;
      assert CountLostAt(built, k, R, reserve, maxSize);
    }
  }

  ghost predicate BothUpTo(B: set<nat>, contents: set<nat>, y: int) {
    AllUpTo(B, y) && AllUpTo(contents, y)
  }

  /** What both merges have built: base, and the passed own members A shifted by P, of which B is passed. */
  ghost predicate Merged(P: set<nat>, A: set<nat>, B: set<nat>, base: set<nat>, contents: set<nat>, shift: nat) {
    contents == base + ShiftAll(A, P) && shift == |B|
  }

  lemma {:induction false} IterFacts(cs: seq<Chunk>, i: IndexIter)
    requires ValidIndexIter(cs, i)
    ensures AtEnd(cs, i) <==> !InBounds(cs, i.it)
    ensures Passed(cs, i) <= Members(Flatten(cs))
    ensures InBounds(cs, i.it) ==> Passed(cs, i) == Below(Members(Flatten(cs)), Value(cs, i))
    ensures !InBounds(cs, i.it) ==> Passed(cs, i) == Members(Flatten(cs))
  {
  }

  lemma {:induction false} EmptyRanges(cs: seq<Chunk>)
    requires cs == []
    ensures Flatten(cs) == [] && Members(Flatten(cs)) == {}
  {
    assert Members([]) == {};
  }

  lemma OneMoreEntry(rs: seq<Range>, q: nat)
    requires q < |rs|
    ensures Members(rs[..q + 1]) == Members(rs[..q]) + Interval(rs[q].first, rs[q].second)
  {
    assert rs[..q + 1] == rs[..q] + [rs[q]];
    MembersConcat(rs[..q], [rs[q]]);
    MembersSingle(rs[q]);
  }

  /** Once everything left ends before the next value, the remaining values remove nothing. */
  lemma RestIsBeyond(rs: seq<Range>, vs: seq<Range>, q: nat)
    requires Canonical(vs) && q < |vs| && EndsBy(rs, |rs|, vs[q].second)
    ensures Members(rs) !! Members(vs[q + 1..])
    ensures Members(vs) == Members(vs[..q + 1]) + Members(vs[q + 1..])
  {
    PrefixBelow(rs, vs[q].second);
    SuffixAbove(vs[q + 1..], vs[q].second);
    MembersSplit(vs, q + 1);
  }

  lemma {:induction false} StepDecreases(cs: seq<Chunk>, i: IndexIter)
    requires NoneEmpty(cs) && Canonical(Flatten(cs)) && ValidIndexIter(cs, i) && InBounds(cs, i.it)
    ensures ValidIndexIter(cs, Advance(cs, i))
    ensures Passed(cs, Advance(cs, i)) == Passed(cs, i) + {Value(cs, i)}
    ensures Value(cs, i) !in Passed(cs, i) && Value(cs, i) in Members(Flatten(cs))
    ensures InBounds(cs, Advance(cs, i).it) ==>
      Value(cs, i) < Value(cs, Advance(cs, i)) == ValueOr(cs, Advance(cs, i))
    ensures |Remaining(cs, Advance(cs, i))| < |Remaining(cs, i)|
  {
    AdvancePasses(cs, i);
    assert Value(cs, i) in Remaining(cs, i) && Value(cs, i) !in Remaining(cs, Advance(cs, i));
    SubsetSize(Remaining(cs, Advance(cs, i)), Remaining(cs, i));
  }

  lemma ShiftAllByNothing(S: set<nat>)
    ensures ShiftAll(S, {}) == S
  {
    ShiftAllMembers(S, {});
    assert forall y: nat :: Below({}, y) == {};
  }

  ghost function ValueOr(cs: seq<Chunk>, i: IndexIter): nat {
    if InBounds(cs, i.it) then Value(cs, i) else 0
  }

  /**
   * A merge step that takes v of the own set: every position up to the shifted index is passed, so shift
   * is that many places.
   */
  lemma OwnStep(P: set<nat>, A: set<nat>, B: set<nat>, base: set<nat>, contents: set<nat>,
                shift: nat, v: nat, next: nat, w: nat)
    requires Merged(P, A, B, base, contents, shift) && BothUpTo(B, contents, v + shift)
    requires B == P || (B == Below(P, w) && v + shift < w)
    ensures AllUpTo(contents, v + shift)
    ensures Merged(P, A + {v}, B, base, contents + {v + shift}, shift)
    ensures v < next ==> BothUpTo(B, contents + {v + shift}, next + shift)
    ensures v + shift < w && AllUpTo(contents, w) ==> AllUpTo(contents + {v + shift}, w)
  {
    hide ShiftAll, IsShift, PositionalSets.Unshift, CountBelow, PositionalSets.Shift;
    PassedIsBelow(P, B, v + shift, w);
    ShiftByPassed(P, v, shift);
    ShiftAllStep(A, P, v);
  }

  /** Two sets side by side: what has been passed of both has been merged, and the rest of the first comes behind it. */
  ghost predicate Merging(cs1: seq<Chunk>, i1: IndexIter, cs2: seq<Chunk>, i2: IndexIter, base: set<nat>, contents: set<nat>, shift: nat) {
    && NoneEmpty(cs1) && NoneEmpty(cs2) && Canonical(Flatten(cs1)) && Canonical(Flatten(cs2))
    && ValidIndexIter(cs1, i1) && ValidIndexIter(cs2, i2)
    && Merged(Members(Flatten(cs2)), Passed(cs1, i1), Passed(cs2, i2), base, contents, shift)
    && (InBounds(cs1, i1.it) ==> BothUpTo(Passed(cs2, i2), contents, Value(cs1, i1) + shift))
  }

  /** The new members so far come before the next position. */
  ghost predicate BeforeNext(cs: seq<Chunk>, i: IndexIter, contents: set<nat>) {
    InBounds(cs, i.it) ==> AllUpTo(contents, Value(cs, i))
  }

  lemma {:induction false} MergeOwn(cs1: seq<Chunk>, i1: IndexIter, cs2: seq<Chunk>, i2: IndexIter, base: set<nat>, contents: set<nat>, shift: nat, y: nat)
    requires Merging(cs1, i1, cs2, i2, base, contents, shift) && InBounds(cs1, i1.it) && InBounds(cs2, i2.it)
    requires y == Value(cs1, i1) + shift < Value(cs2, i2)
    ensures AllUpTo(contents, y)
    ensures Merging(cs1, Advance(cs1, i1), cs2, i2, base, contents + {y}, shift)
    ensures BeforeNext(cs2, i2, contents) ==> BeforeNext(cs2, i2, contents + {y})
    ensures |Remaining(cs1, Advance(cs1, i1))| < |Remaining(cs1, i1)|
  {
    hide Flatten, Canonical, NoneEmpty, Passed, Remaining, ValidIndexIter, InBounds, Value, Advance, Members,
         AllUpTo, Below, Merged, BothUpTo, ShiftAll, ValueOr;
    IterFacts(cs2, i2);
    StepDecreases(cs1, i1);
    OwnStep(Members(Flatten(cs2)), Passed(cs1, i1), Passed(cs2, i2), base, contents, shift,
            Value(cs1, i1), ValueOr(cs1, Advance(cs1, i1)), Value(cs2, i2));
  }

  lemma {:induction false} MergePlaced(cs1: seq<Chunk>, i1: IndexIter, cs2: seq<Chunk>, i2: IndexIter, contents: set<nat>, shift: nat, w: nat)
    requires Merging(cs1, i1, cs2, i2, Passed(cs2, i2), contents, shift) && InBounds(cs1, i1.it) && InBounds(cs2, i2.it)
    requires BeforeNext(cs2, i2, contents) && w == Value(cs2, i2) <= Value(cs1, i1) + shift
    ensures AllUpTo(contents, w)
    ensures Merging(cs1, i1, cs2, Advance(cs2, i2), Passed(cs2, Advance(cs2, i2)), contents + {w}, shift + 1)
    ensures BeforeNext(cs2, Advance(cs2, i2), contents + {w})
    ensures |Remaining(cs2, Advance(cs2, i2))| < |Remaining(cs2, i2)|
  {
    hide Flatten, Canonical, NoneEmpty, Passed, Remaining, ValidIndexIter, InBounds, Value, Advance, Members,
         AllUpTo, Below, Merged, BothUpTo, ShiftAll, ValueOr;
    StepDecreases(cs2, i2);
    PlaceStep(Members(Flatten(cs2)), Passed(cs1, i1), Passed(cs2, i2), contents, shift,
              Value(cs2, i2), ValueOr(cs2, Advance(cs2, i2)), Value(cs1, i1) + shift);
  }

  lemma {:induction false} MergeRoom(cs1: seq<Chunk>, i1: IndexIter, cs2: seq<Chunk>, i2: IndexIter, contents: set<nat>, shift: nat)
    requires Merging(cs1, i1, cs2, i2, {}, contents, shift) && InBounds(cs1, i1.it) && InBounds(cs2, i2.it)
    requires Value(cs2, i2) <= Value(cs1, i1) + shift
    ensures Merging(cs1, i1, cs2, Advance(cs2, i2), {}, contents, shift + 1)
    ensures |Remaining(cs2, Advance(cs2, i2))| < |Remaining(cs2, i2)|
  {
    hide Flatten, Canonical, NoneEmpty, Passed, Remaining, ValidIndexIter, InBounds, Value, Advance, Members,
         AllUpTo, Below, Merged, BothUpTo, ShiftAll, ValueOr;
    StepDecreases(cs2, i2);
    RoomStep(Members(Flatten(cs2)), Passed(cs1, i1), Passed(cs2, i2), contents, shift, Value(cs2, i2), Value(cs1, i1) + shift);
  }

  lemma {:induction false} MergingFacts(cs1: seq<Chunk>, i1: IndexIter, cs2: seq<Chunk>, i2: IndexIter, base: set<nat>, contents: set<nat>, shift: nat)
    requires Merging(cs1, i1, cs2, i2, base, contents, shift)
    ensures ValidIndexIter(cs1, i1) && ValidIndexIter(cs2, i2)
    ensures AtEnd(cs1, i1) <==> !InBounds(cs1, i1.it)
    ensures AtEnd(cs2, i2) <==> !InBounds(cs2, i2.it)
  {
    IterFacts(cs1, i1);
    IterFacts(cs2, i2);
  }

  lemma {:induction false} MergedSoFar(cs1: seq<Chunk>, i1: IndexIter, cs2: seq<Chunk>, i2: IndexIter, base: set<nat>, contents: set<nat>, shift: nat)
    requires Merging(cs1, i1, cs2, i2, base, contents, shift)
    ensures ValidIndexIter(cs1, i1) && ValidIndexIter(cs2, i2)
    ensures Merged(Members(Flatten(cs2)), Passed(cs1, i1), Passed(cs2, i2), base, contents, shift)
    ensures InBounds(cs1, i1.it) ==> BothUpTo(Passed(cs2, i2), contents, Value(cs1, i1) + shift)
    ensures AtEnd(cs1, i1) ==> Passed(cs1, i1) == Members(Flatten(cs1))
    ensures AtEnd(cs2, i2) ==> Passed(cs2, i2) == Members(Flatten(cs2))
  {
    IterFacts(cs1, i1);
    IterFacts(cs2, i2);
  }

  lemma {:induction false} MergeStart(cs1: seq<Chunk>, cs2: seq<Chunk>)
    requires |cs1| > 0 && |cs2| > 0 && NoneEmpty(cs1) && NoneEmpty(cs2) && Canonical(Flatten(cs1)) && Canonical(Flatten(cs2))
    ensures Merging(cs1, IndexBegin(cs1), cs2, IndexBegin(cs2), {}, {}, 0)
    ensures Passed(cs2, IndexBegin(cs2)) == {} && BeforeNext(cs2, IndexBegin(cs2), {})
  {
    PassedAtBegin(cs1);
    PassedAtBegin(cs2);
    ShiftAllOfNothing(Members(Flatten(cs2)));
    IterFacts(cs1, IndexBegin(cs1));
    IterFacts(cs2, IndexBegin(cs2));
    hide Flatten, Canonical, Passed, ValidIndexIter, InBounds, Value, Members, Below;
    NothingYet(Members(Flatten(cs2)), Passed(cs1, IndexBegin(cs1)), Passed(cs2, IndexBegin(cs2)));
  }

  /** A merge step that takes w of the positions and inserts it. */
  lemma PlaceStep(P: set<nat>, A: set<nat>, B: set<nat>, contents: set<nat>, shift: nat, w: nat, next: nat, y: nat)
    requires Merged(P, A, B, B, contents, shift) && AllUpTo(contents, w) && w !in B
    requires w <= y && BothUpTo(B, contents, y)
    ensures Merged(P, A, B + {w}, B + {w}, contents + {w}, shift + 1)
    ensures w < next ==> AllUpTo(contents + {w}, next)
    ensures BothUpTo(B + {w}, contents + {w}, y + 1)
  {
    hide ShiftAll;
  }

  /** A merge step that takes w of the positions and only makes room for it. */
  lemma RoomStep(P: set<nat>, A: set<nat>, B: set<nat>, contents: set<nat>, shift: nat, w: nat, y: nat)
    requires Merged(P, A, B, {}, contents, shift) && w !in B
    requires w <= y && BothUpTo(B, contents, y)
    ensures Merged(P, A, B + {w}, {}, contents, shift + 1)
    ensures BothUpTo(B + {w}, contents, y + 1)
  {
    hide ShiftAll;
  }

  lemma PositionStep(B: set<nat>, T: set<nat>, contents: set<nat>, w: nat, next: nat)
    requires contents == B + T && AllUpTo(contents, w)
    ensures contents + {w} == B + {w} + T
    ensures w < next ==> AllUpTo(contents + {w}, next)
  {
  }

  lemma NothingYet(P: set<nat>, A: set<nat>, B: set<nat>)
    requires A == {} && B == {}
    ensures Merged(P, A, B, B, {}, 0) && Merged(P, A, B, {}, {}, 0)
    ensures forall y :: AllUpTo(B, y) && BothUpTo(B, {}, y) && AllUpTo({}, y)
  {
  }

  /** A merge step that keeps v: every erased position below it is passed. */
  lemma KeepStep(P: set<nat>, A: set<nat>, B: set<nat>, shift: nat, v: nat, next: nat, w: nat)
    requires shift == |B| && AllUpTo(B, v) && (B == P || (B == Below(P, w) && v < w))
    ensures v >= shift && PositionalSets.Unshift(P, v) == v - shift
    ensures EraseAll(A + {v}, P) == EraseAll(A, P) + {v - shift}
    ensures v < next ==> AllUpTo(B, next)
  {
    PassedIsBelow(P, B, v, w);
    CountBelowBound(P, v);
  }

  /** A merge step that drops v. */
  lemma DropStep(P: set<nat>, A: set<nat>, B: set<nat>, v: nat, next: nat)
    requires v in P && v !in B && AllUpTo(B, v)
    ensures EraseAll(A + {v}, P) == EraseAll(A, P)
    ensures |B + {v}| == |B| + 1
    ensures v < next ==> AllUpTo(B + {v}, next)
  {
  }

  lemma SkipStep(B: set<nat>, w: nat, v: nat)
    requires w !in B && AllUpTo(B, v) && w < v
    ensures |B + {w}| == |B| + 1 && AllUpTo(B + {w}, v)
  {
  }

  /** What a bulk erasure has built: the passed own members less the positions, which shift counts as far as passed. */
  ghost predicate Keeping(cs1: seq<Chunk>, i1: IndexIter, cs2: seq<Chunk>, i2: IndexIter, contents: set<nat>, shift: nat) {
    && NoneEmpty(cs1) && NoneEmpty(cs2) && Canonical(Flatten(cs1)) && Canonical(Flatten(cs2))
    && ValidIndexIter(cs1, i1) && ValidIndexIter(cs2, i2)
    && contents == EraseAll(Passed(cs1, i1), Members(Flatten(cs2))) && shift == |Passed(cs2, i2)|
    && (InBounds(cs1, i1.it) ==> AllUpTo(Passed(cs2, i2), Value(cs1, i1)))
  }

  lemma {:induction false} KeepStart(cs1: seq<Chunk>, cs2: seq<Chunk>)
    requires NoneEmpty(cs1) && NoneEmpty(cs2) && Canonical(Flatten(cs1)) && Canonical(Flatten(cs2))
    ensures Keeping(cs1, IndexBegin(cs1), cs2, IndexBegin(cs2), {}, 0)
  {
    hide Flatten, Canonical, NoneEmpty, Passed, ValidIndexIter, InBounds, Value, Members, Below;
    PassedAtBegin(cs1);
    PassedAtBegin(cs2);
    EraseAllOfNothing(Members(Flatten(cs2)));
  }

  lemma {:induction false} KeepingFacts(cs1: seq<Chunk>, i1: IndexIter, cs2: seq<Chunk>, i2: IndexIter, contents: set<nat>, shift: nat)
    requires Keeping(cs1, i1, cs2, i2, contents, shift)
    ensures ValidIndexIter(cs1, i1) && ValidIndexIter(cs2, i2)
    ensures AtEnd(cs1, i1) <==> !InBounds(cs1, i1.it)
    ensures AtEnd(cs2, i2) <==> !InBounds(cs2, i2.it)
    ensures AtEnd(cs2, i2) ==> Passed(cs2, i2) == Members(Flatten(cs2))
    ensures contents == EraseAll(Passed(cs1, i1), Members(Flatten(cs2))) && shift == |Passed(cs2, i2)|
    ensures InBounds(cs1, i1.it) ==> AllUpTo(Passed(cs2, i2), Value(cs1, i1))
  {
    hide Flatten, Canonical, Passed, Members, EraseAll, AllUpTo, Value;
    IterFacts(cs1, i1);
    IterFacts(cs2, i2);
  }

  lemma {:induction false} KeepOwn(cs1: seq<Chunk>, i1: IndexIter, cs2: seq<Chunk>, i2: IndexIter, contents: set<nat>, shift: nat)
    requires Keeping(cs1, i1, cs2, i2, contents, shift) && InBounds(cs1, i1.it) && InBounds(cs2, i2.it)
    requires Value(cs1, i1) < Value(cs2, i2)
    ensures Value(cs1, i1) >= shift && AllUpTo(contents, Value(cs1, i1) - shift)
    ensures Keeping(cs1, Advance(cs1, i1), cs2, i2, contents + {Value(cs1, i1) - shift}, shift)
    ensures |Remaining(cs1, Advance(cs1, i1))| < |Remaining(cs1, i1)|
  {
    hide Flatten, Canonical, NoneEmpty, Passed, Remaining, ValidIndexIter, InBounds, Value, Advance, Members, AllUpTo,
         Below, EraseAll, ValueOr, PositionalSets.Unshift;
    var P := Members(Flatten(cs2));
    IterFacts(cs2, i2);
    StepDecreases(cs1, i1);
    KeepStep(P, Passed(cs1, i1), Passed(cs2, i2), shift,
             Value(cs1, i1), ValueOr(cs1, Advance(cs1, i1)), Value(cs2, i2));
    PassedIsAllBelow(cs1, i1);
    ErasedIsBelow(Passed(cs1, i1), P, Value(cs1, i1));
  }

  lemma {:induction false} DropOwn(cs1: seq<Chunk>, i1: IndexIter, cs2: seq<Chunk>, i2: IndexIter, contents: set<nat>, shift: nat)
    requires Keeping(cs1, i1, cs2, i2, contents, shift) && InBounds(cs1, i1.it) && InBounds(cs2, i2.it)
    requires Value(cs1, i1) == Value(cs2, i2)
    ensures Keeping(cs1, Advance(cs1, i1), cs2, Advance(cs2, i2), contents, shift + 1)
    ensures |Remaining(cs1, Advance(cs1, i1))| < |Remaining(cs1, i1)|
    ensures |Remaining(cs2, Advance(cs2, i2))| < |Remaining(cs2, i2)|
  {
    hide Flatten, Canonical, NoneEmpty, Passed, Remaining, ValidIndexIter, InBounds, Value, Advance, Members, AllUpTo,
         Below, EraseAll, ValueOr;
    StepDecreases(cs1, i1);
    StepDecreases(cs2, i2);
    DropStep(Members(Flatten(cs2)), Passed(cs1, i1), Passed(cs2, i2), Value(cs1, i1), ValueOr(cs1, Advance(cs1, i1)));
  }

  lemma {:induction false} SkipPosition(cs1: seq<Chunk>, i1: IndexIter, cs2: seq<Chunk>, i2: IndexIter, contents: set<nat>, shift: nat)
    requires Keeping(cs1, i1, cs2, i2, contents, shift) && InBounds(cs1, i1.it) && InBounds(cs2, i2.it)
    requires Value(cs2, i2) < Value(cs1, i1)
    ensures Keeping(cs1, i1, cs2, Advance(cs2, i2), contents, shift + 1)
    ensures |Remaining(cs2, Advance(cs2, i2))| < |Remaining(cs2, i2)|
  {
    hide Flatten, Canonical, NoneEmpty, Passed, Remaining, ValidIndexIter, InBounds, Value, Advance, Members, AllUpTo,
         Below, EraseAll, ValueOr;
    StepDecreases(cs2, i2);
    SkipStep(Passed(cs2, i2), Value(cs2, i2), Value(cs1, i1));
  }

  lemma {:induction false} PassedIsAllBelow(cs: seq<Chunk>, i: IndexIter)
    requires ValidIndexIter(cs, i) && InBounds(cs, i.it)
    ensures AllUpTo(Passed(cs, i), Value(cs, i))
  {
  }

  lemma ErasedIsBelow(A: set<nat>, P: set<nat>, v: nat)
    requires AllUpTo(A, v)
    ensures AllUpTo(EraseAll(A, P), PositionalSets.Unshift(P, v))
  {
    forall y | y in EraseAll(A, P)
      ensures y < PositionalSets.Unshift(P, v)
    {
      var x :| x in A && x !in P && y == PositionalSets.Unshift(P, x);
      UnshiftMonotone(P, x, v);
    }
  }

  lemma EraseAllOfNothing(P: set<nat>)
    ensures EraseAll({}, P) == {}
  {
  }

  lemma EraseAllByNothing(S: set<nat>)
    ensures EraseAll(S, {}) == S
  {
    assert forall y: nat :: Below({}, y) == {};
    forall x: nat
      ensures x in EraseAll(S, {}) <==> x in S
    {
      assert PositionalSets.Unshift({}, x) == x;
    }
  }

  /** Positions that all lie at or after the end of the set move nothing. */
  lemma ShiftAllInFront(S: set<nat>, P: set<nat>, m: nat)
    requires AllUpTo(S, m) && AllFrom(P, m)
    ensures ShiftAll(S, P) == S
  {
    ShiftAllMembers(S, P);
    forall y: nat
      ensures y in ShiftAll(S, P) <==> y in S
    {
      if y < m {
        assert Below(P, y) == {};
      } else {
        CountBelowAfter(P, m, y);
      }
    }
  }

  /** The index of anything at or after m stays at or after m when all of P does. */
  lemma CountBelowAfter(P: set<nat>, m: nat, y: nat)
    requires AllFrom(P, m) && y >= m
    ensures PositionalSets.Unshift(P, y) >= m
  {
    assert Below(P, m) == {};
    UnshiftMonotone(P, m, y);
  }

  lemma {:induction false} NothingToShift(cs: seq<Chunk>, cs': seq<Chunk>)
    requires cs == [] || cs' == []
    ensures ShiftAll(Members(Flatten(cs)), Members(Flatten(cs'))) == Members(Flatten(cs))
  {
    if cs == [] {
      EmptyRanges(cs);
      ShiftAllOfNothing(Members(Flatten(cs')));
    } else {
      EmptyRanges(cs');
      ShiftAllByNothing(Members(Flatten(cs)));
    }
  }

  lemma {:induction false} NothingBehind(cs: seq<Chunk>, cs': seq<Chunk>, maxSize: nat, maxSize': nat)
    requires AllBounded(cs, maxSize) && AllBounded(cs', maxSize') && cs != [] && cs' != []
    requires Canonical(Flatten(cs)) && Canonical(Flatten(cs'))
    requires cs'[0].begin >= cs[|cs| - 1].end
    ensures ShiftAll(Members(Flatten(cs)), Members(Flatten(cs'))) == Members(Flatten(cs))
  {
    hide Canonical, Flatten, Members, AllUpTo, AllFrom, ShiftAll;
    AllEndBy(cs, maxSize, cs'[0].begin);
    AllStartFrom(cs', maxSize');
    ShiftAllInFront(Members(Flatten(cs)), Members(Flatten(cs')), cs'[0].begin);
  }

  lemma {:induction false} AllEndBy(cs: seq<Chunk>, maxSize: nat, x: int)
    requires AllBounded(cs, maxSize) && cs != [] && Canonical(Flatten(cs)) && cs[|cs| - 1].end <= x
    ensures AllUpTo(Members(Flatten(cs)), x)
  {
    var rs := Flatten(cs);
    LastEntry(cs, maxSize);
    EntriesUpTo(rs);
    PrefixBelow(rs, x);
  }

  lemma {:induction false} AllStartFrom(cs: seq<Chunk>, maxSize: nat)
    requires AllBounded(cs, maxSize) && cs != [] && Canonical(Flatten(cs))
    ensures AllFrom(Members(Flatten(cs)), cs[0].begin)
  {
    DerefIndex(cs, Begin(cs));
    FirstIsLeast(Flatten(cs));
  }

  lemma {:induction false} LastEntry(cs: seq<Chunk>, maxSize: nat)
    requires AllBounded(cs, maxSize) && cs != []
    ensures var rs := Flatten(cs); rs != [] && rs[|rs| - 1].second == cs[|cs| - 1].end
  {
    assert Flatten(cs) == Flatten(cs[..|cs| - 1]) + cs[|cs| - 1].data;
  }

  lemma EntriesUpTo(rs: seq<Range>)
    requires Canonical(rs) && rs != []
    ensures forall k :: 0 <= k < |rs| ==> rs[k].second <= rs[|rs| - 1].second
  {
  }

  lemma PassedIsBelow(P: set<nat>, B: set<nat>, y: nat, w: nat)
    requires AllUpTo(B, y)
    requires B == P || (B == Below(P, w) && y < w)
    ensures Below(P, y) == B && y !in P
  {
    assert y in P ==> y in B;
  }

  lemma ShiftByPassed(P: set<nat>, v: nat, shift: nat)
    requires v + shift !in P && |Below(P, v + shift)| == shift
    ensures PositionalSets.Shift(P, v) == v + shift
  {
    ShiftIsUnique(P, v, v + shift);
  }

  lemma ShiftAllOfNothing(P: set<nat>)
    ensures ShiftAll({}, P) == {} && P + ShiftAll({}, P) == P
  {
  }

  lemma ShiftAllStep(A: set<nat>, P: set<nat>, v: nat)
    ensures ShiftAll(A + {v}, P) == ShiftAll(A, P) + {PositionalSets.Shift(P, v)}
  {
  }

  function Max(a: nat, b: nat): nat {
    if a < b then b else a
  }

  function Min(a: nat, b: nat): nat {
    if a < b then a else b
  }

  // ----- what a count passes -----

  /** The position that a search for x returns; searches have only one possible result. */
  ghost function FindResult(cs: seq<Chunk>, x: nat): Iter {
    if exists it :: ValidIter(cs, it) && IsPosition(Flatten(cs), x, Index(cs, it))
    then var it :| ValidIter(cs, it) && IsPosition(Flatten(cs), x, Index(cs, it)); it
    else End(cs)
  }

  lemma {:induction false} FindResultIsUnique(cs: seq<Chunk>, x: nat, it: Iter)
    requires NoneEmpty(cs) && ValidIter(cs, it) && IsPosition(Flatten(cs), x, Index(cs, it))
    ensures FindResult(cs, x) == it
  {
    var other := FindResult(cs, x);
    PositionIsUnique(Flatten(cs), x, Index(cs, it), Index(cs, other));
    IndexIsInjective(cs, it, other);
  }

  lemma {:induction false} PositionOfZero(cs: seq<Chunk>)
    requires NoneEmpty(cs) && Canonical(Flatten(cs))
    ensures ValidIter(cs, Begin(cs)) && IsPosition(Flatten(cs), 0, Index(cs, Begin(cs)))
  {
  }

  /**
   * What a count from the position leaves out: when it starts inside a chunk, runs to the end of that
   * chunk, and the end of the count falls inside the first range of the next chunk, it returns without
   * the part of that range before the end.
   */
  function Missed(cs: seq<Chunk>, it: Iter, start: nat, end: nat): nat {
    if StopsAtBorder(cs, it, start, end) then end - cs[it.outer + 1].data[0].first else 0
  }

  predicate StopsAtBorder(cs: seq<Chunk>, it: Iter, start: nat, end: nat) {
    && InBounds(cs, it)
    && (Deref(cs, it).first < start || it.inner != 0)
    && Deref(cs, it).second < end
    && it.outer + 1 < |cs|
    && |cs[it.outer + 1].data| > 0
    && cs[it.outer + 1].data[0].first < end <= cs[it.outer + 1].data[0].second
  }

  lemma {:induction false} NextChunkStartsLater(cs: seq<Chunk>, it: Iter)
    requires NoneEmpty(cs) && Canonical(Flatten(cs)) && InBounds(cs, it)
    ensures it.outer + 1 < |cs| ==> Deref(cs, it).second < cs[it.outer + 1].data[0].first
  {
    if it.outer + 1 < |cs| {
      var next := Iter(it.outer + 1, 0);
      DerefIndex(cs, it);
      DerefIndex(cs, next);
      FlattenAround(cs, it.outer);
    }
  }

  lemma {:induction false} CountAtStart(rs: seq<Range>, x: nat, p: nat, end: nat)
    requires Canonical(rs) && IsPosition(rs, x, p) && x <= end
    ensures p <= |rs|
    ensures p < |rs| ==> x < rs[p].second
    ensures EndsBy(rs, p, end)
    ensures p < |rs| && rs[p].second <= end ==> EndsBy(rs, p + 1, end)
    ensures CountBelow(Members(rs), x) == Width(rs[..p]) + (if p < |rs| && rs[p].first < x then x - rs[p].first else 0)
  {
    CountBelowByWidth(rs, x, p);
  }

  lemma {:induction false} CountAtEnd(rs: seq<Range>, x: nat, p: nat)
    requires Canonical(rs) && p <= |rs| && EndsBy(rs, p, x) && (p < |rs| ==> x <= rs[p].second)
    ensures CountBelow(Members(rs), x) == Width(rs[..p]) + (if p < |rs| && rs[p].first < x then x - rs[p].first else 0)
  {
    CountBelowByWidth(rs, x, p);
  }

  // ----- what a cut leaves -----

  lemma NoMemberBetween(rs: seq<Range>, x: nat, p: nat)
    requires Canonical(rs) && p < |rs| && IsPosition(rs, x, p)
    ensures forall y :: x <= y < rs[p].first ==> y !in Members(rs)
    ensures rs[p].Has(Max(rs[p].first, x)) && Max(rs[p].first, x) in Members(rs)
  {
    MembersAround(rs, x, p);
    assert rs[p].Has(Max(rs[p].first, x));
  }

  lemma NoMemberUpTo(rs: seq<Range>, x: nat, p: nat, end: nat)
    requires Canonical(rs) && IsPosition(rs, x, p) && (p < |rs| ==> rs[p].first >= end) && x <= end
    ensures forall y :: x <= y < end ==> y !in Members(rs)
    ensures EndsBy(rs, p, end)
  {
    MembersAround(rs, x, p);
    if p == |rs| {
      assert rs[p..] == [];
    }
  }

  lemma EntriesBefore(rs: seq<Range>, p: nat, x: nat)
    requires Canonical(rs) && p < |rs| && rs[p].first <= x
    ensures EndsBy(rs, p, x)
  {
  }

  lemma EntriesBeforeKept(rs: seq<Range>, rs': seq<Range>, p: nat, x: nat)
    requires EndsBy(rs, p, x) && p <= |rs| && p <= |rs'| && rs'[..p] == rs[..p]
    ensures EndsBy(rs', p, x)
  {
    forall k | 0 <= k < p
      ensures rs'[k].second <= x
    {
      assert rs'[k] == rs'[..p][k] == rs[..p][k];
    }
  }

  lemma CutOutMiddle(rs: seq<Range>, p: nat, begin: nat, end: nat)
    requires Canonical(rs) && p < |rs| && rs[p].first < begin < end < rs[p].second
    ensures var cut := rs[p := Range(rs[p].first, begin)];
            var left := cut[..p + 1] + [Range(end, rs[p].second)] + cut[p + 1..];
            && Canonical(left) && left[..p] == rs[..p]
            && Members(left) == Members(rs) - Interval(begin, end)
  {
    var mid := [Range(rs[p].first, begin), Range(end, rs[p].second)];
    CutEntry(rs, p, mid);
    MembersPair(mid[0], mid[1]);
    var cut := rs[p := Range(rs[p].first, begin)];
    assert cut[..p + 1] + [Range(end, rs[p].second)] + cut[p + 1..] == rs[..p] + mid + rs[p + 1..];
    assert Interval(rs[p].first, rs[p].second) - Members(mid) == Interval(begin, end);
  }

  lemma CutOutAll(rs: seq<Range>, p: nat)
    requires Canonical(rs) && p < |rs|
    ensures var left := rs[..p] + rs[p + 1..];
            && Canonical(left) && left[..p] == rs[..p]
            && Members(left) == Members(rs) - Interval(rs[p].first, rs[p].second)
  {
    CutEntry(rs, p, []);
    assert rs[..p] + [] + rs[p + 1..] == rs[..p] + rs[p + 1..];
    assert Members([]) == {};
  }

  lemma CutOutFront(rs: seq<Range>, p: nat, end: nat)
    requires Canonical(rs) && p < |rs| && rs[p].first < end < rs[p].second
    ensures var left := rs[p := Range(end, rs[p].second)];
            && Canonical(left) && left[..p] == rs[..p]
            && Members(left) == Members(rs) - Interval(rs[p].first, end)
  {
    var mid := [Range(end, rs[p].second)];
    CutEntry(rs, p, mid);
    MembersSingle(mid[0]);
    assert rs[p := mid[0]] == rs[..p] + mid + rs[p + 1..];
    assert Interval(rs[p].first, rs[p].second) - Members(mid) == Interval(rs[p].first, end);
  }

  lemma CutOutBack(rs: seq<Range>, p: nat, begin: nat)
    requires Canonical(rs) && p < |rs| && rs[p].first < begin < rs[p].second
    ensures var left := rs[p := Range(rs[p].first, begin)];
            && Canonical(left) && left[..p] == rs[..p]
            && Members(left) == Members(rs) - Interval(begin, rs[p].second)
  {
    var mid := [Range(rs[p].first, begin)];
    CutEntry(rs, p, mid);
    MembersSingle(mid[0]);
    assert rs[p := mid[0]] == rs[..p] + mid + rs[p + 1..];
    assert Interval(rs[p].first, rs[p].second) - Members(mid) == Interval(begin, rs[p].second);
  }

  /** Passing a whole chunk passes its cached count. */
  lemma {:induction false} WholeChunk(cs: seq<Chunk>, o: nat, x: int, maxSize: nat)
    requires AllOk(cs, maxSize) && Canonical(Flatten(cs)) && o < |cs| && cs[o].end <= x
    requires EndsBy(Flatten(cs), |Flatten(cs[..o])|, x)
    ensures ValidIter(cs, Iter(o + 1, 0))
    ensures |Flatten(cs[..o])| <= |Flatten(cs[..o + 1])| <= |Flatten(cs)|
    ensures EndsBy(Flatten(cs), |Flatten(cs[..o + 1])|, x)
    ensures Width(Flatten(cs)[..|Flatten(cs[..o + 1])|]) == Width(Flatten(cs)[..|Flatten(cs[..o])|]) + cs[o].count
  {
    ChunkEndsBy(cs, o, x, maxSize);
    ChunkWidth(cs, o, maxSize);
  }

  lemma {:induction false} ChunkWidth(cs: seq<Chunk>, o: nat, maxSize: nat)
    requires AllOk(cs, maxSize) && o < |cs|
    ensures |Flatten(cs[..o])| <= |Flatten(cs[..o + 1])| <= |Flatten(cs)|
    ensures Width(Flatten(cs)[..|Flatten(cs[..o + 1])|]) == Width(Flatten(cs)[..|Flatten(cs[..o])|]) + cs[o].count
  {
    FlattenAround(cs, o);
    var a, d := Flatten(cs[..o]), cs[o].data;
    assert Flatten(cs)[..|a|] == a;
    assert Flatten(cs)[..|a + d|] == a + d;
    WidthConcat(a, d);
  }

  lemma {:induction false} WidthCountsMembersOfChunk(cs: seq<Chunk>, o: nat, maxSize: nat)
    requires AllOk(cs, maxSize) && Canonical(Flatten(cs)) && o < |cs|
    ensures cs[o].count >= 0
  {
    ChunkIsCanonical(cs, o);
    WidthCountsMembers(cs[o].data);
  }

  lemma {:induction false} EmptyPrefix(rs: seq<Range>)
    ensures rs[..0] == [] && Width(rs[..0]) == 0
  {
  }

  lemma {:induction false} WholeEntry(rs: seq<Range>, q: nat)
    requires q < |rs|
    ensures Width(rs[..q + 1]) == Width(rs[..q]) + (rs[q].second - rs[q].first)
  {
    assert rs[..q + 1][..q] == rs[..q];
  }

  /** What a position says about the entries next to it, and how far the ones after it can move down. */
  lemma PositionBounds(rs: seq<Range>, p: nat, index: nat)
    requires Canonical(rs) && p < |rs| && IsPosition(rs, index, p)
    ensures rs[p].first < rs[p].second && index < rs[p].second
    ensures Movable(rs[p + 1..], -1)
    ensures rs[p].first > index ==> Movable(rs[p..], -1)
    ensures p > 0 ==> rs[p - 1].second <= index && rs[p - 1].second < rs[p].first && rs[p - 1].first < rs[p - 1].second
  {
  }

  lemma EraseThenShift(rs: seq<Range>, p: nat)
    requires p < |rs| && Movable(rs[p + 1..], -1)
    ensures var rest := rs[..p] + rs[p + 1..];
            Movable(rest[p..], -1) && rest[..p] + Shifted(rest[p..], -1) == Spliced(rs, p, p + 1, [], -1)
  {
    assert (rs[..p] + rs[p + 1..])[p..] == rs[p + 1..];
  }

  lemma AbsorbThenShift(rs: seq<Range>, p: nat)
    requires 0 < p < |rs| && Movable(rs[p + 1..], -1) && rs[p].first <= rs[p].second
    ensures var r := Range(rs[p - 1].first, rs[p - 1].second + (rs[p].second - rs[p].first));
            var rest := rs[..p - 1] + [r] + rs[p + 1..];
            Movable(rest[p..], -1) && rest[..p] + Shifted(rest[p..], -1) == Spliced(rs, p - 1, p + 1, [r], -1)
  {
    var r := Range(rs[p - 1].first, rs[p - 1].second + (rs[p].second - rs[p].first));
    assert (rs[..p - 1] + [r] + rs[p + 1..])[p..] == rs[p + 1..];
  }

  lemma HeadOfShifted(rs: seq<Range>, p: nat, d: int)
    requires p < |rs| && Movable(rs[p..], d)
    ensures rs[..p] + Shifted(rs[p..], d) == Spliced(rs, p, p, [], d)
    ensures rs[p].first + d >= 0 && rs[p].second + d >= 0
    ensures (rs[..p] + Shifted(rs[p..], d))[p] == Range(rs[p].first + d, rs[p].second + d)
  {
  }

  /** Pulling the part before the insertion point back out of a shifted entry. */
  lemma SplitShifted(rs: seq<Range>, p: nat, index: nat, d: nat)
    requires p < |rs|
    ensures Movable(rs[p..], d) && Movable(rs[p + 1..], d)
    ensures var set_ := (rs[..p] + Shifted(rs[p..], d))[p := Range(rs[p].first, index)];
            var right := Range(index + d, rs[p].second + d);
            set_[..p + 1] + [right] + set_[p + 1..] == Spliced(rs, p, p + 1, [Range(rs[p].first, index), right], d)
  {
  }

  /** The list with entries p..q already moved. */
  ghost function PartlyShifted(rs: seq<Range>, p: nat, q: nat, d: int): seq<Range>
    requires p <= q <= |rs| && Movable(rs[p..], d)
  {
    rs[..p] + Shifted(rs[p..q], d) + rs[q..]
  }

  lemma ShiftOneMore(rs: seq<Range>, p: nat, q: nat, d: int)
    requires p <= q < |rs| && Movable(rs[p..], d)
    ensures PartlyShifted(rs, p, q, d)[q] == rs[q] == rs[p..][q - p]
    ensures PartlyShifted(rs, p, q, d)[q := Range(rs[q].first + d, rs[q].second + d)] == PartlyShifted(rs, p, q + 1, d)
  {
  }

  lemma NothingShiftedYet(rs: seq<Range>, p: nat, d: int)
    requires p <= |rs| && Movable(rs[p..], d)
    ensures PartlyShifted(rs, p, p, d) == rs
  {
  }

  lemma AllShifted(rs: seq<Range>, p: nat, q: nat, d: int)
    requires p <= q <= |rs| && Movable(rs[p..], d) && q == |PartlyShifted(rs, p, q, d)|
    ensures q == |rs| && PartlyShifted(rs, p, q, d) == rs[..p] + Shifted(rs[p..], d)
  {
  }

  lemma LayoutIsKept(a: seq<Chunk>, b: seq<Chunk>, c: seq<Chunk>)
    requires a == b || SameLayout(a, b)
    requires b == c || SameLayout(b, c)
    ensures SameLayout(a, c)
  {
  }

  ghost function GrownAt(rs: seq<Range>, p: nat, count: nat): seq<Range>
    requires p < |rs|
  {
    Spliced(rs, p, p + 1, [Range(rs[p].first, rs[p].second + count)], count)
  }

  lemma EditThenShift(rs: seq<Range>, p: nat, r: Range, d: int)
    requires p < |rs| && Movable(rs[p + 1..], d)
    ensures var edited := rs[p := r];
            && Movable(edited[p + 1..], d)
            && edited[..p + 1] + Shifted(edited[p + 1..], d) == Spliced(rs, p, p + 1, [r], d)
  {
  }

  lemma ShiftHeadAndTail(rs: seq<Range>, p: nat, d: nat)
    requires p < |rs|
    ensures Movable(rs[p + 1..], d) && Movable(rs[p..], d)
    ensures Spliced(rs, p, p + 1, [Range(rs[p].first + d, rs[p].second + d)], d) == Spliced(rs, p, p, [], d)
  {
  }

  lemma NothingToMove(rs: seq<Range>, d: int)
    ensures Spliced(rs, |rs|, |rs|, [], d) == rs
  {
  }

  /** After room is made, its first index has the position where the room starts, and none of it is a member. */
  lemma RoomIsEmpty(rs: seq<Range>, p: nat, index: nat, count: nat)
    requires Canonical(rs) && IsPosition(rs, index, p) && count > 0
    requires p < |rs| ==> rs[p].first > index
    ensures Movable(rs[p..], count)
    ensures var made := Spliced(rs, p, p, [], count);
            && Canonical(made)
            && Members(made) == ShiftForInsertAt(Members(rs), index, count)
            && IsPosition(made, index, p)
  {
    if p < |rs| {
      RoomMade(rs, p, index, count);
    } else {
      NothingToMove(rs, count);
      NothingAtOrAfter(rs, index);
    }
  }

  /** When x is a member and x + 1 is not, the range after the one that holds x is the position of x + 1. */
  lemma NextPosition(rs: seq<Range>, p: nat, x: nat)
    requires Canonical(rs) && p < |rs| && rs[p].Has(x) && x + 1 !in Members(rs)
    ensures IsPosition(rs, x + 1, p + 1)
  {
    assert !rs[p].Has(x + 1);
    assert rs[p].second == x + 1;
  }

  /** Binary search for the first range that ends after the index. */
  method LowerBound(rs: seq<Range>, from: nat, index: nat) returns (r: nat)
    requires from <= |rs|
    requires forall i, j :: 0 <= i < j < |rs| ==> rs[i].second <= rs[j].second
    ensures from <= r <= |rs|
    ensures forall k :: from <= k < r ==> rs[k].second <= index
    ensures r < |rs| ==> index < rs[r].second
  {
    var count := |rs| - from;
    r := from;
    while count > 0
      invariant from <= r && 0 <= count && r + count <= |rs|
      invariant forall k :: from <= k < r ==> rs[k].second <= index
      invariant r + count < |rs| ==> index < rs[r + count].second
    {
      var step := count / 2;
      if rs[r + step].second <= index {
        r := r + step + 1;
        count := count - step - 1;
      } else {
        count := step;
      }
    }
  }
}
