/** Chunks, positions in them, and the flat list of ranges that a list of chunks stores. */
module Chunks {
  import opened Ranges

  datatype Chunk = Chunk(data: seq<Range>, begin: nat, end: nat, count: int)

  /** A place in the chunked storage; the end is one past the last chunk, with inner offset zero. */
  datatype Iter = Iter(outer: nat, inner: nat)

  /** The cached begin and end of a chunk agree with its ranges. */
  predicate BoundsOk(c: Chunk, maxSize: nat) {
    && 0 < |c.data| <= maxSize
    && c.begin == c.data[0].first
    && c.end == c.data[|c.data| - 1].second
  }

  predicate AllBounded(cs: seq<Chunk>, maxSize: nat) {
    forall k :: 0 <= k < |cs| ==> BoundsOk(cs[k], maxSize)
  }

  /** And so does the cached count. */
  predicate ChunkOk(c: Chunk, maxSize: nat) {
    BoundsOk(c, maxSize) && c.count == Width(c.data)
  }

  predicate AllOk(cs: seq<Chunk>, maxSize: nat)
    ensures AllOk(cs, maxSize) ==> AllBounded(cs, maxSize)
  {
    forall k :: 0 <= k < |cs| ==> ChunkOk(cs[k], maxSize)
  }

  predicate NoneEmpty(cs: seq<Chunk>) {
    forall k :: 0 <= k < |cs| ==> |cs[k].data| > 0
  }

  function Flatten(cs: seq<Chunk>): seq<Range> {
    if cs == [] then [] else Flatten(cs[..|cs| - 1]) + cs[|cs| - 1].data
  }

  predicate InBounds(cs: seq<Chunk>, it: Iter) {
    it.outer < |cs| && it.inner < |cs[it.outer].data|
  }

  predicate ValidIter(cs: seq<Chunk>, it: Iter) {
    InBounds(cs, it) || it == End(cs)
  }

  /** The index in the flat list that a position denotes. */
  ghost function Index(cs: seq<Chunk>, it: Iter): nat
    requires it.outer <= |cs|
  {
    |Flatten(cs[..it.outer])| + it.inner
  }

  function Begin(cs: seq<Chunk>): Iter {
    Iter(0, 0)
  }

  function End(cs: seq<Chunk>): Iter {
    Iter(|cs|, 0)
  }

  function Deref(cs: seq<Chunk>, it: Iter): Range
    requires InBounds(cs, it)
  {
    cs[it.outer].data[it.inner]
  }

  function NextChunk(cs: seq<Chunk>, it: Iter): Iter
    requires it.outer < |cs|
  {
    Iter(it.outer + 1, 0)
  }

  function Next(cs: seq<Chunk>, it: Iter): Iter
    requires InBounds(cs, it)
  {
    if it.inner + 1 == |cs[it.outer].data| then NextChunk(cs, it) else Iter(it.outer, it.inner + 1)
  }

  function Prev(cs: seq<Chunk>, it: Iter): Iter
    requires NoneEmpty(cs) && ValidIter(cs, it) && it != Begin(cs)
  {
    if it.inner == 0 then Iter(it.outer - 1, |cs[it.outer - 1].data| - 1) else Iter(it.outer, it.inner - 1)
  }

  lemma {:induction false} FlattenConcat(a: seq<Chunk>, b: seq<Chunk>)
    ensures Flatten(a + b) == Flatten(a) + Flatten(b)
    decreases b
  {
    if b == [] {
      assert a + b == a;
    } else {
      assert (a + b)[..|a + b| - 1] == a + b[..|b| - 1];
      FlattenConcat(a, b[..|b| - 1]);
    }
  }

  lemma {:induction false} FlattenSingle(c: Chunk)
    ensures Flatten([c]) == c.data
  {
    assert [c][..0] == [];
  }

  /** Chunk o occupies the stretch of the flat list that starts where the chunks before it end. */
  lemma {:induction false} FlattenAround(cs: seq<Chunk>, o: nat)
    requires o < |cs|
    ensures Flatten(cs) == Flatten(cs[..o]) + cs[o].data + Flatten(cs[o + 1..])
    ensures Flatten(cs[..o + 1]) == Flatten(cs[..o]) + cs[o].data
  {
    var upTo := cs[..o + 1];
    assert Flatten(upTo) == Flatten(cs[..o]) + cs[o].data by {
      assert upTo[..|upTo| - 1] == cs[..o] && upTo[|upTo| - 1] == cs[o];
    }
    assert upTo + cs[o + 1..] == cs;
    FlattenConcat(upTo, cs[o + 1..]);
  }

  lemma {:induction false} FlattenReplaced(cs: seq<Chunk>, o: nat, mid: seq<Chunk>)
    requires o < |cs|
    ensures Flatten(cs[..o] + mid + cs[o + 1..]) == Flatten(cs[..o]) + Flatten(mid) + Flatten(cs[o + 1..])
  {
    FlattenConcat(cs[..o] + mid, cs[o + 1..]);
    FlattenConcat(cs[..o], mid);
  }

  lemma {:induction false} DerefIndex(cs: seq<Chunk>, it: Iter)
    requires InBounds(cs, it)
    ensures Index(cs, it) < |Flatten(cs)|
    ensures Flatten(cs)[Index(cs, it)] == Deref(cs, it)
  {
    FlattenAround(cs, it.outer);
  }

  lemma {:induction false} EndIndex(cs: seq<Chunk>)
    ensures Index(cs, End(cs)) == |Flatten(cs)|
  {
    assert cs[..|cs|] == cs;
  }

  lemma {:induction false} BeginIndex(cs: seq<Chunk>)
    ensures Index(cs, Begin(cs)) == 0
  {
  }

  /** Advancing a position, across a chunk border or not, advances its flat index by one. */
  lemma {:induction false} NextIndex(cs: seq<Chunk>, it: Iter)
    requires NoneEmpty(cs) && InBounds(cs, it)
    ensures ValidIter(cs, Next(cs, it))
    ensures Index(cs, Next(cs, it)) == Index(cs, it) + 1
  {
    FlattenAround(cs, it.outer);
  }

  lemma {:induction false} NextChunkIndex(cs: seq<Chunk>, it: Iter)
    requires NoneEmpty(cs) && it.outer < |cs| && it.inner == 0
    ensures ValidIter(cs, NextChunk(cs, it))
    ensures Index(cs, NextChunk(cs, it)) == Index(cs, it) + |cs[it.outer].data|
  {
    FlattenAround(cs, it.outer);
  }

  lemma {:induction false} PrevIndex(cs: seq<Chunk>, it: Iter)
    requires NoneEmpty(cs) && ValidIter(cs, it) && it != Begin(cs)
    ensures InBounds(cs, Prev(cs, it)) && Next(cs, Prev(cs, it)) == it
    ensures Index(cs, Prev(cs, it)) == Index(cs, it) - 1
  {
    NextIndex(cs, Prev(cs, it));
  }

  lemma {:induction false} StartsAreMonotone(cs: seq<Chunk>, o: nat, o': nat)
    requires NoneEmpty(cs) && o <= o' <= |cs|
    ensures |Flatten(cs[..o])| + (o' - o) <= |Flatten(cs[..o'])|
    decreases o'
  {
    if o < o' {
      StartsAreMonotone(cs, o, o' - 1);
      FlattenAround(cs, o' - 1);
    }
  }

  /** Distinct positions have distinct flat indices; only the end has the length of the flat list. */
  lemma {:induction false} IndexIsInjective(cs: seq<Chunk>, a: Iter, b: Iter)
    requires NoneEmpty(cs) && ValidIter(cs, a) && ValidIter(cs, b) && Index(cs, a) == Index(cs, b)
    ensures a == b
  {
    if a.outer < b.outer {
      FlattenAround(cs, a.outer);
      StartsAreMonotone(cs, a.outer + 1, b.outer);
    } else if b.outer < a.outer {
      FlattenAround(cs, b.outer);
      StartsAreMonotone(cs, b.outer + 1, a.outer);
    }
  }

  lemma {:induction false} EndIffLength(cs: seq<Chunk>, it: Iter)
    requires NoneEmpty(cs) && ValidIter(cs, it)
    ensures Index(cs, it) <= |Flatten(cs)|
    ensures it == End(cs) <==> Index(cs, it) == |Flatten(cs)|
    ensures InBounds(cs, it) <==> Index(cs, it) < |Flatten(cs)|
  {
    EndIndex(cs);
    if InBounds(cs, it) {
      DerefIndex(cs, it);
    }
  }

  lemma {:induction false} BeginIffZero(cs: seq<Chunk>, it: Iter)
    requires NoneEmpty(cs) && ValidIter(cs, it)
    ensures it == Begin(cs) <==> Index(cs, it) == 0
  {
    assert ValidIter(cs, Begin(cs));
    if Index(cs, it) == 0 {
      IndexIsInjective(cs, it, Begin(cs));
    }
  }

  /** Two storages with chunks of the same sizes: a position means the same index in both. */
  predicate SameLayout(a: seq<Chunk>, b: seq<Chunk>) {
    |a| == |b| && forall k :: 0 <= k < |a| ==> |a[k].data| == |b[k].data|
  }

  lemma {:induction false} LayoutFixesLength(a: seq<Chunk>, b: seq<Chunk>)
    requires SameLayout(a, b)
    ensures |Flatten(a)| == |Flatten(b)|
    decreases a
  {
    if a != [] {
      LayoutFixesLength(a[..|a| - 1], b[..|b| - 1]);
    }
  }

  lemma {:induction false} LayoutFixesIndex(a: seq<Chunk>, b: seq<Chunk>, it: Iter)
    requires SameLayout(a, b) && ValidIter(a, it)
    ensures ValidIter(b, it) && Index(a, it) == Index(b, it)
  {
    LayoutFixesLength(a[..it.outer], b[..it.outer]);
  }

  /** The cached counts of whole chunks add up to the width of the flat list. */
  lemma {:induction false} WidthReplaced(rs: seq<Range>, i: nat, r: Range)
    requires i < |rs|
    ensures Width(rs[i := r]) == Width(rs) - (rs[i].second - rs[i].first) + (r.second - r.first)
  {
    assert rs == rs[..i] + [rs[i]] + rs[i + 1..];
    assert rs[i := r] == rs[..i] + [r] + rs[i + 1..];
    WidthInserted(rs[..i], rs[i], rs[i + 1..]);
    WidthInserted(rs[..i], r, rs[i + 1..]);
  }

  lemma {:induction false} WidthInserted(a: seq<Range>, r: Range, b: seq<Range>)
    ensures Width(a + [r] + b) == Width(a) + (r.second - r.first) + Width(b)
    ensures Width(a + b) == Width(a) + Width(b)
  {
    WidthConcat(a + [r], b);
    WidthConcat(a, [r]);
    WidthConcat(a, b);
    WidthSingle(r);
  }
}

/** The vector of ranges, in chunks of bounded size, that is edited in place. */
module ChunkedVectors {
  import opened Ranges
  import opened Chunks

  class ChunkedRangeVector {
    const maxSize: nat
    var data: seq<Chunk>

    /** What a search relies on: it reads no cached count. */
    ghost predicate Bounded()
      reads this
      ensures Bounded() ==> NoneEmpty(data)
    {
      && maxSize >= 2
      && maxSize % 2 == 0
      && AllBounded(data, maxSize)
    }

    /** What every edit keeps, even between the steps of one operation. */
    ghost predicate Shaped()
      reads this
      ensures Shaped() ==> Bounded() && NoneEmpty(data)
    {
      && maxSize >= 2
      && maxSize % 2 == 0
      && AllOk(data, maxSize)
    }

    ghost function Ranges(): seq<Range>
      reads this
    {
      Flatten(data)
    }

    /** The condition that verify() checks. */
    ghost predicate Valid()
      reads this
    {
      Shaped() && Canonical(Ranges())
    }

    constructor (maxSize: nat)
      requires maxSize >= 2 && maxSize % 2 == 0
      ensures Valid() && this.maxSize == maxSize && data == []
    {
      this.maxSize := maxSize;
      data := [];
    }

    /** Overwrites one range and brings its chunk's cached values up to date. */
    method Set(it: Iter, front: nat, back: nat)
      requires Shaped() && InBounds(data, it)
      modifies this
      ensures Shaped() && SameLayout(old(data), data)
      ensures Index(old(data), it) < |old(Ranges())|
      ensures Ranges() == old(Ranges())[Index(old(data), it) := Range(front, back)]
    {
      hide Flatten, Width;
      var chunk := data[it.outer];
      var r := chunk.data[it.inner];
      chunk := chunk.(count := chunk.count - (r.second - r.first));
      if it.inner == 0 {
        chunk := chunk.(begin := front);
      }
      if it.inner == |chunk.data| - 1 {
        chunk := chunk.(end := back);
      }
      chunk := chunk.(count := chunk.count + (back - front));
      chunk := chunk.(data := chunk.data[it.inner := Range(front, back)]);
      assert chunk == Edited(data[it.outer], it.inner, Range(front, back));
      EditInPlace(data, it, Range(front, back), chunk, maxSize);
      data := data[it.outer := chunk];
    }

    /** Moves the two ends of one range by the given amounts. */
    method Adjust(it: Iter, front: int, back: int)
      requires Shaped() && InBounds(data, it)
      requires Deref(data, it).first + front >= 0 && Deref(data, it).second + back >= 0
      modifies this
      ensures Shaped() && SameLayout(old(data), data)
      ensures Index(old(data), it) < |old(Ranges())|
      ensures var r := old(Deref(data, it));
              Ranges() == old(Ranges())[Index(old(data), it) := Range(r.first + front, r.second + back)]
    {
      hide Flatten, Width;
      var chunk := data[it.outer];
      var r := chunk.data[it.inner];
      if it.inner == 0 {
        chunk := chunk.(begin := chunk.begin + front);
      }
      if it.inner == |chunk.data| - 1 {
        chunk := chunk.(end := chunk.end + back);
      }
      chunk := chunk.(count := chunk.count - front + back);
      var r' := Range(r.first + front, r.second + back);
      chunk := chunk.(data := chunk.data[it.inner := r']);
      assert chunk == Edited(data[it.outer], it.inner, r');
      EditInPlace(data, it, r', chunk, maxSize);
      data := data[it.outer := chunk];
    }

    /** Moves one range without changing its width; the cached count stays as it is. */
    method Shift(it: Iter, distance: int)
      requires Shaped() && InBounds(data, it)
      requires Deref(data, it).first + distance >= 0 && Deref(data, it).second + distance >= 0
      modifies this
      ensures Shaped() && SameLayout(old(data), data)
      ensures Index(old(data), it) < |old(Ranges())|
      ensures var r := old(Deref(data, it));
              Ranges() == old(Ranges())[Index(old(data), it) := Range(r.first + distance, r.second + distance)]
    {
      hide Flatten, Width;
      var chunk := data[it.outer];
      var r := chunk.data[it.inner];
      if it.inner == 0 {
        chunk := chunk.(begin := chunk.begin + distance);
      }
      if it.inner == |chunk.data| - 1 {
        chunk := chunk.(end := chunk.end + distance);
      }
      var r' := Range(r.first + distance, r.second + distance);
      chunk := chunk.(data := chunk.data[it.inner := r']);
      assert chunk == Edited(data[it.outer], it.inner, r');
      EditInPlace(data, it, r', chunk, maxSize);
      data := data[it.outer := chunk];
    }

    method PushBack(value: Range)
      requires Shaped()
      modifies this
      ensures Shaped()
      ensures Ranges() == old(Ranges()) + [value]
      ensures |data| == |old(data)| + if old(|data| > 0 && |data[|data| - 1].data| < maxSize) then 0 else 1
    {
      if |data| > 0 && |data[|data| - 1].data| < maxSize {
        var last := data[|data| - 1];
        var chunk := last.(data := last.data + [value],
                           count := last.count + (value.second - value.first),
                           end := value.second);
        WidthConcat(last.data, [value]);
        WidthSingle(value);
        assert data[|data| - 1 := chunk][..|data| - 1] == data[..|data| - 1];
        data := data[|data| - 1 := chunk];
      } else {
        var chunk := Chunk([value], value.first, value.second, value.second - value.first);
        WidthSingle(value);
        assert (data + [chunk])[..|data|] == data;
        data := data + [chunk];
      }
    }

    /** Splits a full chunk in half, so that there is room for one more range at the position. */
    method EnsureSpace(pos: Iter) returns (res: Iter)
      requires Shaped() && InBounds(data, pos)
      modifies this
      ensures Shaped() && Ranges() == old(Ranges())
      ensures InBounds(data, res) && Index(data, res) == Index(old(data), pos)
      ensures |data[res.outer].data| < maxSize
      ensures old(|data[pos.outer].data|) < maxSize ==> data == old(data) && res == pos
      ensures old(|data[pos.outer].data|) == maxSize ==>
                && |data| == |old(data)| + 1 && pos.outer + 1 < |data|
                && |data[pos.outer].data| == |data[pos.outer + 1].data| == maxSize / 2
                && data[..pos.outer] == old(data)[..pos.outer] && data[pos.outer + 2..] == old(data)[pos.outer + 1..]
    {
      if |data[pos.outer].data| + 1 <= maxSize {
        return pos;
      }
      var chunk := data[pos.outer];
      var toMove := maxSize / 2;
      var keep := |chunk.data| - toMove;
      var left, right := chunk.data[..keep], chunk.data[keep..];
      assert left + right == chunk.data;
      var movedCount := 0;
      var i := 0;
      while i < |right|
        invariant i <= |right| && movedCount == Width(right[..i])
      {
        assert right[..i + 1][..i] == right[..i];
        movedCount := movedCount + (right[i].second - right[i].first);
        i := i + 1;
      }
      assert right[..i] == right;
      var prevChunk := Chunk(left, chunk.begin, left[|left| - 1].second, chunk.count - movedCount);
      var newChunk := Chunk(right, right[0].first, right[|right| - 1].second, movedCount);
      SplitStep(data, pos, prevChunk, newChunk, maxSize);
      data := data[..pos.outer] + [prevChunk, newChunk] + data[pos.outer + 1..];
      if pos.inner >= toMove {
        res := Iter(pos.outer + 1, pos.inner - toMove);
      } else {
        res := pos;
      }
    }

    /** Inserts a range in front of the position, and returns where it now is. */
    method Insert(pos: Iter, value: Range) returns (res: Iter)
      requires Shaped() && ValidIter(data, pos)
      requires Index(data, pos) <= |Ranges()|
      requires Canonical(Ranges()[..Index(data, pos)] + [value] + Ranges()[Index(data, pos)..])
      modifies this
      ensures Valid()
      ensures Index(old(data), pos) <= |old(Ranges())|
      ensures Ranges() == old(Ranges())[..Index(old(data), pos)] + [value] + old(Ranges())[Index(old(data), pos)..]
      ensures InBounds(data, res) && Index(data, res) == Index(old(data), pos)
    {
      hide Flatten, Canonical, AllOk, AllBounded;
      ghost var p, before := Index(data, pos), Ranges();
      if pos.outer == |data| {
        EndIndex(data);
        assert before[..p] + [value] + before[p..] == before + [value];
        PushBack(value);
        EndIndex(data);
        res := Prev(data, End(data));
        PrevIndex(data, End(data));
        return;
      }
      res := EnsureSpace(pos);
      GrowChunk(res, value);
    }

    /** The chunk of the position has room for the range. */
    method GrowChunk(res: Iter, value: Range)
      requires Shaped() && InBounds(data, res) && |data[res.outer].data| < maxSize
      requires Index(data, res) <= |Ranges()|
      requires Canonical(Ranges()[..Index(data, res)] + [value] + Ranges()[Index(data, res)..])
      modifies this
      ensures Valid()
      ensures Index(old(data), res) <= |old(Ranges())|
      ensures Ranges() == old(Ranges())[..Index(old(data), res)] + [value] + old(Ranges())[Index(old(data), res)..]
      ensures InBounds(data, res) && Index(data, res) == Index(old(data), res)
    {
      hide Flatten, Canonical, Width;
      DerefIndex(data, res);
      var chunk := data[res.outer];
      var grown := Chunk(chunk.data[..res.inner] + [value] + chunk.data[res.inner..],
                         if value.first < chunk.begin then value.first else chunk.begin,
                         if value.second > chunk.end then value.second else chunk.end,
                         chunk.count + (value.second - value.first));
      InsertStep(data, res, value, grown, maxSize);
      InsertInChunk(data, res, value, grown);
      data := data[res.outer := grown];
    }

    /** Removes the range at the position, and its chunk when that becomes empty. */
    method Erase(pos: Iter) returns (res: Iter)
      requires Shaped() && InBounds(data, pos)
      modifies this
      ensures Shaped()
      ensures Index(old(data), pos) < |old(Ranges())|
      ensures Ranges() == old(Ranges())[..Index(old(data), pos)] + old(Ranges())[Index(old(data), pos) + 1..]
      ensures ValidIter(data, res) && Index(data, res) == Index(old(data), pos)
      ensures |data| == |old(data)| - if old(|data[pos.outer].data|) == 1 then 1 else 0
    {
      hide Flatten;
      var offset := pos.inner;
      var chunk := data[pos.outer];
      var r := chunk.data[offset];
      var rest := chunk.data[..offset] + chunk.data[offset + 1..];
      if |rest| == 0 {
        DropChunk(data, pos, maxSize);
        data := data[..pos.outer] + data[pos.outer + 1..];
        res := Iter(pos.outer, 0);
        return;
      }
      var shrunk := Chunk(rest, rest[0].first, rest[|rest| - 1].second, chunk.count - (r.second - r.first));
      ErasedChunkOk(chunk, offset, maxSize);
      ShrinkChunk(data, pos, shrunk);
      data := data[pos.outer := shrunk];
      if offset < |rest| {
        res := pos;
      } else {
        res := Iter(pos.outer + 1, 0);
      }
    }
  }

  lemma {:induction false} DropChunk(cs: seq<Chunk>, pos: Iter, maxSize: nat)
    requires AllOk(cs, maxSize) && InBounds(cs, pos) && |cs[pos.outer].data| == 1
    ensures Index(cs, pos) < |Flatten(cs)|
    ensures var cs' := cs[..pos.outer] + cs[pos.outer + 1..];
            && AllOk(cs', maxSize)
            && Flatten(cs') == Flatten(cs)[..Index(cs, pos)] + Flatten(cs)[Index(cs, pos) + 1..]
            && ValidIter(cs', Iter(pos.outer, 0)) && Index(cs', Iter(pos.outer, 0)) == Index(cs, pos)
  {
    EraseInChunk(cs, pos, []);
    FlattenConcat(cs[..pos.outer], cs[pos.outer + 1..]);
    var cs' := cs[..pos.outer] + cs[pos.outer + 1..];
    assert cs'[..pos.outer] == cs[..pos.outer];
  }

  lemma {:induction false} ShrinkChunk(cs: seq<Chunk>, pos: Iter, c: Chunk)
    requires NoneEmpty(cs) && InBounds(cs, pos)
    requires c.data == cs[pos.outer].data[..pos.inner] + cs[pos.outer].data[pos.inner + 1..] && c.data != []
    ensures Index(cs, pos) < |Flatten(cs)|
    ensures var cs' := cs[pos.outer := c];
            var res := if pos.inner < |c.data| then pos else Iter(pos.outer + 1, 0);
            && Flatten(cs') == Flatten(cs)[..Index(cs, pos)] + Flatten(cs)[Index(cs, pos) + 1..]
            && ValidIter(cs', res) && Index(cs', res) == Index(cs, pos)
  {
    EraseInChunk(cs, pos, c.data);
    ReplaceChunk(cs, pos.outer, c);
    FlattenAround(cs[pos.outer := c], pos.outer);
  }

  lemma {:induction false} ErasedChunkOk(c: Chunk, i: nat, maxSize: nat)
    requires ChunkOk(c, maxSize) && i < |c.data| && |c.data| > 1
    ensures var rest := c.data[..i] + c.data[i + 1..];
            ChunkOk(Chunk(rest, rest[0].first, rest[|rest| - 1].second,
                          c.count - (c.data[i].second - c.data[i].first)), maxSize)
  {
    assert c.data == c.data[..i] + [c.data[i]] + c.data[i + 1..];
    WidthInserted(c.data[..i], c.data[i], c.data[i + 1..]);
  }

  /** A chunk with range i replaced by r and the cached values following it. */
  function Edited(c: Chunk, i: nat, r: Range): Chunk
    requires i < |c.data|
  {
    Chunk(c.data[i := r],
          if i == 0 then r.first else c.begin,
          if i == |c.data| - 1 then r.second else c.end,
          c.count - (c.data[i].second - c.data[i].first) + (r.second - r.first))
  }

  /** A chunk stays well formed when one range is replaced and the cached values follow it. */
  lemma {:induction false} EditedChunkOk(c: Chunk, i: nat, r: Range, maxSize: nat)
    requires ChunkOk(c, maxSize) && i < |c.data|
    ensures ChunkOk(Edited(c, i, r), maxSize)
  {
    WidthReplaced(c.data, i, r);
  }

  lemma {:induction false} ReplaceChunk(cs: seq<Chunk>, o: nat, c: Chunk)
    requires o < |cs|
    ensures Flatten(cs[o := c]) == Flatten(cs[..o]) + c.data + Flatten(cs[o + 1..])
    ensures cs[o := c][..o] == cs[..o]
  {
    FlattenReplaced(cs, o, [c]);
    FlattenSingle(c);
    assert cs[o := c] == cs[..o] + [c] + cs[o + 1..];
  }

  /** One range replaced, with the cached values of its chunk following: only that flat entry changes. */
  lemma {:induction false} EditInPlace(cs: seq<Chunk>, it: Iter, r: Range, c: Chunk, maxSize: nat)
    requires InBounds(cs, it) && AllOk(cs, maxSize) && c == Edited(cs[it.outer], it.inner, r)
    ensures Index(cs, it) < |Flatten(cs)|
    ensures AllOk(cs[it.outer := c], maxSize) && SameLayout(cs, cs[it.outer := c])
    ensures Flatten(cs[it.outer := c]) == Flatten(cs)[Index(cs, it) := r]
  {
    EditedChunkOk(cs[it.outer], it.inner, r, maxSize);
    var a, d, b := Flatten(cs[..it.outer]), cs[it.outer].data, Flatten(cs[it.outer + 1..]);
    FlattenAround(cs, it.outer);
    ReplaceChunk(cs, it.outer, c);
    UpdateMiddle(a, d, b, it.inner, r);
  }

  lemma UpdateMiddle(a: seq<Range>, d: seq<Range>, b: seq<Range>, i: nat, r: Range)
    requires i < |d|
    ensures a + d[i := r] + b == (a + d + b)[|a| + i := r]
  {
  }

  lemma {:induction false} InsertInChunk(cs: seq<Chunk>, it: Iter, r: Range, c: Chunk)
    requires InBounds(cs, it) && c.data == cs[it.outer].data[..it.inner] + [r] + cs[it.outer].data[it.inner..]
    ensures Index(cs, it) < |Flatten(cs)|
    ensures Flatten(cs[it.outer := c]) == Flatten(cs)[..Index(cs, it)] + [r] + Flatten(cs)[Index(cs, it)..]
    ensures InBounds(cs[it.outer := c], it) && Index(cs[it.outer := c], it) == Index(cs, it)
  {
    var a, d, b := Flatten(cs[..it.outer]), cs[it.outer].data, Flatten(cs[it.outer + 1..]);
    ReplaceChunk(cs, it.outer, c);
    FlattenAround(cs, it.outer);
    SpliceMiddle(a, d, b, it.inner, [r], it.inner);
    assert Index(cs, it) == |a| + it.inner;
  }

  /** Editing the middle of three concatenated lists edits the whole at the shifted place. */
  lemma SpliceMiddle(a: seq<Range>, d: seq<Range>, b: seq<Range>, i: nat, mid: seq<Range>, j: nat)
    requires i <= j <= |d|
    ensures a + (d[..i] + mid + d[j..]) + b == (a + d + b)[..|a| + i] + mid + (a + d + b)[|a| + j..]
  {
    assert (a + d + b)[..|a| + i] == a + d[..i];
    assert (a + d + b)[|a| + j..] == d[j..] + b;
  }

  /** A range put in front of a position of a chunk with room, the cached values widened to match. */
  lemma {:induction false} InsertStep(cs: seq<Chunk>, it: Iter, r: Range, c: Chunk, maxSize: nat)
    requires InBounds(cs, it) && AllOk(cs, maxSize) && |cs[it.outer].data| < maxSize
    requires Index(cs, it) < |Flatten(cs)|
    requires Canonical(Flatten(cs)[..Index(cs, it)] + [r] + Flatten(cs)[Index(cs, it)..])
    requires var d := cs[it.outer];
             c == Chunk(d.data[..it.inner] + [r] + d.data[it.inner..],
                        if r.first < d.begin then r.first else d.begin,
                        if r.second > d.end then r.second else d.end,
                        d.count + (r.second - r.first))
    ensures AllOk(cs[it.outer := c], maxSize)
  {
    hide Flatten, Canonical, Width;
    FlattenAround(cs, it.outer);
    OrderInChunk(Flatten(cs[..it.outer]), cs[it.outer].data, Flatten(cs[it.outer + 1..]), it.inner, r);
    GrownChunkOk(cs[it.outer], it.inner, r, maxSize);
  }

  lemma {:induction false} EraseInChunk(cs: seq<Chunk>, it: Iter, rest: seq<Range>)
    requires InBounds(cs, it) && rest == cs[it.outer].data[..it.inner] + cs[it.outer].data[it.inner + 1..]
    ensures Index(cs, it) < |Flatten(cs)|
    ensures Flatten(cs[..it.outer]) + rest + Flatten(cs[it.outer + 1..])
         == Flatten(cs)[..Index(cs, it)] + Flatten(cs)[Index(cs, it) + 1..]
  {
    FlattenAround(cs, it.outer);
    SpliceMiddle(Flatten(cs[..it.outer]), cs[it.outer].data, Flatten(cs[it.outer + 1..]), it.inner, [], it.inner + 1);
    assert rest == cs[it.outer].data[..it.inner] + [] + cs[it.outer].data[it.inner + 1..];
    assert Flatten(cs)[..Index(cs, it)] + [] == Flatten(cs)[..Index(cs, it)];
  }

  lemma {:induction false} SplitChunk(cs: seq<Chunk>, o: nat, a: Chunk, b: Chunk)
    requires o < |cs| && cs[o].data == a.data + b.data
    ensures Flatten(cs[..o] + [a, b] + cs[o + 1..]) == Flatten(cs)
    ensures |Flatten((cs[..o] + [a, b] + cs[o + 1..])[..o + 1])| == |Flatten(cs[..o])| + |a.data|
    ensures (cs[..o] + [a, b] + cs[o + 1..])[..o] == cs[..o]
  {
    FlattenAround(cs, o);
    FlattenReplaced(cs, o, [a, b]);
    FlattenConcat([a], [b]);
    assert [a] + [b] == [a, b];
    FlattenSingle(a);
    FlattenSingle(b);
    var split := cs[..o] + [a, b] + cs[o + 1..];
    assert split[..o + 1] == cs[..o] + [a];
    FlattenConcat(cs[..o], [a]);
  }

  /** Splitting a full chunk of even size: the two halves are well formed and every position keeps its index. */
  lemma {:induction false} SplitStep(cs: seq<Chunk>, pos: Iter, a: Chunk, b: Chunk, maxSize: nat)
    requires AllOk(cs, maxSize) && InBounds(cs, pos) && |cs[pos.outer].data| == maxSize >= 2 && maxSize % 2 == 0
    requires cs[pos.outer].data == a.data + b.data && |a.data| == |b.data| == maxSize / 2
    requires a.begin == cs[pos.outer].begin && a.end == a.data[|a.data| - 1].second
    requires a.count == cs[pos.outer].count - Width(b.data)
    requires b == Chunk(b.data, b.data[0].first, b.data[|b.data| - 1].second, Width(b.data))
    ensures var cs' := cs[..pos.outer] + [a, b] + cs[pos.outer + 1..];
            var res := if pos.inner >= maxSize / 2 then Iter(pos.outer + 1, pos.inner - maxSize / 2) else pos;
            && AllOk(cs', maxSize) && Flatten(cs') == Flatten(cs)
            && InBounds(cs', res) && Index(cs', res) == Index(cs, pos)
            && |cs'[res.outer].data| < maxSize
  {
    WidthConcat(a.data, b.data);
    SplitChunk(cs, pos.outer, a, b);
  }

  /** Widening the cached bounds keeps them exact when the new range keeps the chunk in order. */
  lemma {:induction false} GrownChunkOk(d: Chunk, i: nat, r: Range, maxSize: nat)
    requires ChunkOk(d, maxSize) && |d.data| < maxSize && i < |d.data|
    requires if i == 0 then r.first <= d.begin else d.begin <= r.first
    requires r.second <= d.end
    ensures ChunkOk(Chunk(d.data[..i] + [r] + d.data[i..],
                          if r.first < d.begin then r.first else d.begin,
                          if r.second > d.end then r.second else d.end,
                          d.count + (r.second - r.first)), maxSize)
  {
    assert d.data == d.data[..i] + d.data[i..];
    WidthInserted(d.data[..i], r, d.data[i..]);
  }

  /** The flat order around the insertion point, seen from the chunk that takes the new range. */
  lemma OrderInChunk(a: seq<Range>, d: seq<Range>, b: seq<Range>, i: nat, r: Range)
    requires i < |d| && Canonical((a + d + b)[..|a| + i] + [r] + (a + d + b)[|a| + i..])
    ensures if i == 0 then r.first <= d[0].first else d[0].first <= r.first
    ensures r.second <= d[|d| - 1].second
  {
    SpliceMiddle(a, d, b, i, [r], i);
    OrderInMiddle(a, d[..i] + [r] + d[i..], b);
    OrderAroundInserted(d, i, r);
  }

  lemma OrderInMiddle(a: seq<Range>, d: seq<Range>, b: seq<Range>)
    requires Canonical(a + d + b)
    ensures Canonical(d)
  {
    assert forall k :: 0 <= k < |d| ==> d[k] == (a + d + b)[|a| + k];
  }

  lemma OrderAroundInserted(d: seq<Range>, i: nat, r: Range)
    requires i < |d| && Canonical(d[..i] + [r] + d[i..])
    ensures if i == 0 then r.first <= d[0].first else d[0].first <= r.first
    ensures r.second <= d[|d| - 1].second
  {
    var all := d[..i] + [r] + d[i..];
    assert all[i] == r && all[|d|] == d[|d| - 1];
    assert all[if i == 0 then 1 else 0] == d[0];
  }
}

/** The iterator over single indices: a position and an offset into its range. */
module IndexIterators {
  import opened Ranges
  import opened Chunks
  import opened PositionalSets

  datatype IndexIter = IndexIter(it: Iter, offset: nat)

  function IndexBegin(cs: seq<Chunk>): IndexIter {
    IndexIter(Begin(cs), 0)
  }

  predicate AtEnd(cs: seq<Chunk>, i: IndexIter) {
    i.it == End(cs)
  }

  predicate ValidIndexIter(cs: seq<Chunk>, i: IndexIter) {
    if InBounds(cs, i.it) then Deref(cs, i.it).first + i.offset < Deref(cs, i.it).second
    else AtEnd(cs, i)
  }

  function Value(cs: seq<Chunk>, i: IndexIter): nat
    requires InBounds(cs, i.it)
  {
    Deref(cs, i.it).first + i.offset
  }

  function Advance(cs: seq<Chunk>, i: IndexIter): IndexIter
    requires InBounds(cs, i.it)
  {
    if Deref(cs, i.it).first + i.offset + 1 == Deref(cs, i.it).second
    then IndexIter(Next(cs, i.it), 0)
    else IndexIter(i.it, i.offset + 1)
  }

  /** The members already passed. */
  ghost function Passed(cs: seq<Chunk>, i: IndexIter): set<nat> {
    if InBounds(cs, i.it) then Below(Members(Flatten(cs)), Value(cs, i)) else Members(Flatten(cs))
  }

  lemma {:induction false} PassedAtBegin(cs: seq<Chunk>)
    requires NoneEmpty(cs) && Canonical(Flatten(cs))
    ensures ValidIndexIter(cs, IndexBegin(cs)) && Passed(cs, IndexBegin(cs)) == {}
  {
    var rs := Flatten(cs);
    if cs == [] {
      assert Members([]) == {};
    } else {
      DerefIndex(cs, Begin(cs));
      EntryIsProper(rs, 0);
      FirstIsLeast(rs);
    }
  }

  lemma FirstIsLeast(rs: seq<Range>)
    requires Canonical(rs) && rs != []
    ensures forall x :: x in Members(rs) ==> x >= rs[0].first
  {
    SuffixAbove(rs, rs[0].first);
  }

  /** One step passes exactly one more member, and never goes back. */
  lemma {:induction false} AdvancePasses(cs: seq<Chunk>, i: IndexIter)
    requires NoneEmpty(cs) && Canonical(Flatten(cs)) && ValidIndexIter(cs, i) && InBounds(cs, i.it)
    ensures ValidIndexIter(cs, Advance(cs, i))
    ensures Value(cs, i) in Members(Flatten(cs)) && Value(cs, i) !in Passed(cs, i)
    ensures Passed(cs, Advance(cs, i)) == Passed(cs, i) + {Value(cs, i)}
    ensures InBounds(cs, Advance(cs, i).it) ==> Value(cs, i) < Value(cs, Advance(cs, i))
  {
    hide Canonical, Flatten, Members;
    var rs, p, x := Flatten(cs), Index(cs, i.it), Value(cs, i);
    DerefIndex(cs, i.it);
    NextIndex(cs, i.it);
    EndIffLength(cs, Next(cs, i.it));
    assert rs[p].Has(x);
    if x + 1 == rs[p].second {
      if p + 1 < |rs| {
        DerefIndex(cs, Next(cs, i.it));
        NoneBetween(rs, p);
      } else {
        LastIsGreatest(rs);
      }
    } else {
      assert Below(Members(rs), x + 1) == Below(Members(rs), x) + {x};
    }
  }

  lemma NoneBetween(rs: seq<Range>, p: nat)
    requires Canonical(rs) && p + 1 < |rs|
    ensures rs[p].first < rs[p].second < rs[p + 1].first < rs[p + 1].second
    ensures Below(Members(rs), rs[p + 1].first) == Below(Members(rs), rs[p].second - 1) + {rs[p].second - 1}
  {
    MembersSplit(rs, p + 1);
    PrefixBelow(rs[..p + 1], rs[p].second);
    SuffixAbove(rs[p + 1..], rs[p + 1].first);
    assert rs[p].Has(rs[p].second - 1);
  }

  lemma LastIsGreatest(rs: seq<Range>)
    requires Canonical(rs) && rs != []
    ensures var last := rs[|rs| - 1];
            last.first < last.second && Members(rs) == Below(Members(rs), last.second - 1) + {last.second - 1}
  {
    var last := rs[|rs| - 1];
    PrefixBelow(rs, last.second);
    assert last.Has(last.second - 1);
  }

  /** What is still to come decreases with every step. */
  ghost function Remaining(cs: seq<Chunk>, i: IndexIter): set<nat> {
    Members(Flatten(cs)) - Passed(cs, i)
  }
}
