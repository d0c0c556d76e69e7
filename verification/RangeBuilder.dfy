/** The builder that packs ascending pushes into chunks, and so makes the result of every bulk merge. */
module RangeBuilders {
  import opened Ranges
  import opened Chunks
  import opened ChunkedVectors
  import opened PositionalSets
  import opened RangeEdits

  /** The flat list with one more range at the end, joined to the last one when they touch. */
  function Appended(rs: seq<Range>, r: Range): seq<Range> {
    if rs != [] && rs[|rs| - 1].second == r.first
    then rs[|rs| - 1 := Range(rs[|rs| - 1].first, r.second)]
    else rs + [r]
  }

  predicate Follows(rs: seq<Range>, r: Range) {
    r.first < r.second && (rs != [] ==> rs[|rs| - 1].second <= r.first)
  }

  lemma AppendedIsCanonical(rs: seq<Range>, r: Range)
    requires Canonical(rs) && Follows(rs, r)
    ensures Canonical(Appended(rs, r))
  {
  }

  lemma AppendedMembers(rs: seq<Range>, r: Range)
    requires rs != [] ==> rs[|rs| - 1].first < rs[|rs| - 1].second
    requires Follows(rs, r)
    ensures Members(Appended(rs, r)) == Members(rs) + Interval(r.first, r.second)
  {
    if rs != [] && rs[|rs| - 1].second == r.first {
      var init, last := rs[..|rs| - 1], rs[|rs| - 1];
      assert rs == init + [last];
      assert Appended(rs, r) == init + [Range(last.first, r.second)];
      JoinedMembers(init, last, r);
    } else {
      MembersConcat(rs, [r]);
      MembersSingle(r);
    }
  }

  lemma JoinedMembers(init: seq<Range>, last: Range, r: Range)
    requires last.first < last.second == r.first < r.second
    ensures Members(init + [Range(last.first, r.second)]) == Members(init + [last]) + Interval(r.first, r.second)
  {
    MembersConcat(init, [last]);
    MembersConcat(init, [Range(last.first, r.second)]);
    MembersSingle(last);
    MembersSingle(Range(last.first, r.second));
  }

  lemma LastIsBelow(rs: seq<Range>, x: nat)
    requires Canonical(rs) && AllUpTo(Members(rs), x)
    ensures rs != [] ==> rs[|rs| - 1].first < rs[|rs| - 1].second <= x
  {
    if rs != [] {
      assert rs[|rs| - 1].Has(rs[|rs| - 1].second - 1);
      assert rs[|rs| - 1].second - 1 in Members(rs);
    }
  }

  /** Chunks before the current one are full; those after it are still empty. */
  predicate Packed(data: seq<Chunk>, outer: nat, maxSize: nat) {
    && 0 < maxSize
    && outer < |data|
    && (forall k :: 0 <= k < outer ==> FullChunk(data[k], maxSize))
    && OpenChunk(data[outer], maxSize)
    && (outer > 0 ==> data[outer].data != [])
    && (forall k :: outer < k < |data| ==> data[k].data == [])
  }

  predicate OpenChunk(c: Chunk, maxSize: nat) {
    |c.data| <= maxSize && (c.data != [] ==> c.begin == c.data[0].first)
  }

  predicate FullChunk(c: Chunk, maxSize: nat) {
    OpenChunk(c, maxSize) && |c.data| == maxSize > 0 && c.end == c.data[maxSize - 1].second
  }

  ghost function BuiltBy(data: seq<Chunk>, outer: nat): seq<Range>
    requires outer < |data|
  {
    Flatten(data[..outer]) + data[outer].data
  }

  predicate CountOk(c: Chunk) {
    c.data != [] ==> c.count == Width(c.data)
  }

  predicate CountsOk(data: seq<Chunk>, outer: nat)
    requires outer < |data|
  {
    (forall k :: 0 <= k < outer ==> CountOk(data[k])) && CountOk(data[outer])
  }

  lemma {:induction false} ReplaceCurrent(data: seq<Chunk>, outer: nat, c: Chunk, maxSize: nat)
    requires Packed(data, outer, maxSize) && OpenChunk(c, maxSize) && c.data != []
    requires CountOk(c) <==> CountOk(data[outer])
    ensures Packed(data[outer := c], outer, maxSize)
    ensures BuiltBy(data[outer := c], outer) == Flatten(data[..outer]) + c.data
    ensures CountsOk(data[outer := c], outer) <==> CountsOk(data, outer)
  {
    assert data[outer := c][..outer] == data[..outer];
  }

  /** The current chunk is full and closed, and the push starts the next one. */
  lemma {:induction false} OpenNext(data: seq<Chunk>, outer: nat, closed: Chunk, c: Chunk, data': seq<Chunk>, maxSize: nat)
    requires Packed(data, outer, maxSize) && FullChunk(closed, maxSize) && closed.data == data[outer].data
    ensures outer + 1 < |data'|
    requires closed.count == data[outer].count
    requires OpenChunk(c, maxSize) && c.data != []
    requires if outer + 1 >= |data| then data' == data[outer := closed] + [c]
             else data' == data[outer := closed][outer + 1 := c]
    ensures Packed(data', outer + 1, maxSize)
    ensures BuiltBy(data', outer + 1) == BuiltBy(data, outer) + c.data
    ensures CountsOk(data', outer + 1) <==> CountsOk(data, outer) && CountOk(c)
  {
    assert data'[outer] == closed && data'[outer + 1] == c && data'[..outer] == data[..outer];
    NextIsPacked(data, outer, closed, c, data', maxSize);
    NextCounts(data, outer, closed, c, data');
    FlattenAround(data', outer);
  }

  lemma NextIsPacked(data: seq<Chunk>, outer: nat, closed: Chunk, c: Chunk, data': seq<Chunk>, maxSize: nat)
    requires Packed(data, outer, maxSize) && FullChunk(closed, maxSize) && OpenChunk(c, maxSize) && c.data != []
    requires if outer + 1 >= |data| then data' == data[outer := closed] + [c]
             else data' == data[outer := closed][outer + 1 := c]
    ensures Packed(data', outer + 1, maxSize)
  {
    hide FullChunk, OpenChunk;
  }

  lemma {:induction false} NextCounts(data: seq<Chunk>, outer: nat, closed: Chunk, c: Chunk, data': seq<Chunk>)
    requires outer < |data| && outer + 1 < |data'|
    requires data'[outer] == closed && data'[outer + 1] == c && data'[..outer] == data[..outer]
    requires CountOk(closed) <==> CountOk(data[outer])
    ensures CountsOk(data', outer + 1) <==> CountsOk(data, outer) && CountOk(c)
  {
    hide CountOk;
    assert forall k :: 0 <= k < outer ==> data'[k] == data'[..outer][k] == data[k];
    if CountsOk(data', outer + 1) {
      assert CountOk(data'[outer]);
      forall k | 0 <= k < outer
        ensures CountOk(data[k])
      {
        assert CountOk(data'[k]);
      }
    }
  }

  /** How many chunks the builder sets aside for a result of the expected length. */
  function Reserve(expected: nat, maxSize: nat): nat {
    if maxSize == 0 then 1 else expected / maxSize + 1
  }

  class ChunkedRangeVectorBuilder {
    const maxSize: nat
    var data: seq<Chunk>
    var outerPos: nat
    /** How many chunks the constructor sets aside. */
    ghost const reserve: nat

    ghost predicate Valid()
      reads this
    {
      && Packed(data, outerPos, maxSize)
      && reserve <= |data|
      && (reserve < |data| ==> |data| == outerPos + 1)
    }

    ghost function Built(): seq<Range>
      reads this
    {
      if outerPos < |data| then BuiltBy(data, outerPos) else []
    }

    ghost predicate CountsRight()
      reads this
    {
      outerPos < |data| && CountsOk(data, outerPos)
    }

    /** Every chunk is as it should be, and the next single index can be pushed. */
    ghost predicate Ready()
      reads this
      ensures Ready() ==> Valid() && CountsRight()
    {
      Valid() && CountsRight() && Canonical(Built())
    }

    ghost function Contents(): set<nat>
      reads this
    {
      Members(Built())
    }

    lemma {:induction false} StartsEmpty()
      requires Valid() && CountsRight() && Built() == []
      ensures Ready() && Contents() == {}
    {
      assert Members([]) == {};
    }

    /** The push has to open a chunk beyond those set aside by the constructor. */
    ghost predicate Overflows(r: Range)
      requires outerPos < |data|
      reads this
    {
      var d := data[outerPos].data;
      d != [] && d[|d| - 1].second != r.first && |d| >= maxSize && outerPos + 1 >= |data|
    }

    constructor (expected: ChunkedRangeVector)
      requires expected.maxSize > 0
      ensures Valid() && CountsRight() && Built() == []
      ensures maxSize == expected.maxSize && reserve == Reserve(|expected.Ranges()|, maxSize)
    {
      var size := 0;
      var k := 0;
      while k < |expected.data|
        invariant k <= |expected.data| && size == |Flatten(expected.data[..k])|
      {
        FlattenAround(expected.data, k);
        size := size + |expected.data[k].data|;
        k := k + 1;
      }
      assert expected.data[..k] == expected.data;
      maxSize := expected.maxSize;
      data := seq(size / expected.maxSize + 1, i => Chunk([], 0, 0, 0));
      reserve := size / expected.maxSize + 1;
      outerPos := 0;
    }

    /** Pushing single indices in ascending order adds just those, and keeps the cached counts right. */
    method PushIndex(index: nat)
      requires Ready() && AllUpTo(Contents(), index)
      modifies this
      ensures Ready() && Contents() == old(Contents()) + {index}
      ensures Built() == Appended(old(Built()), Range(index, index + 1))
    {
      hide Canonical, Packed, CountsOk, BuiltBy;
      ghost var before := Built();
      LastIsBelow(before, index);
      AppendedIsCanonical(before, Range(index, index + 1));
      AppendedMembers(before, Range(index, index + 1));
      assert Interval(index, index + 1) == {index};
      Push(Range(index, index + 1));
    }

    method Push(range: Range)
      requires Valid() && Follows(Built(), range)
      modifies this
      ensures Valid() && Built() == Appended(old(Built()), range)
      ensures CountsRight() <==> old(CountsRight()) && !(old(Overflows(range)) && range.second - range.first != 1)
    {
      hide Flatten, Width;
      ghost var before, built := data, Built();
      var chunk := data[outerPos];
      LastOfCurrent(data, outerPos, maxSize);
      if |chunk.data| == 0 {
        chunk := chunk.(data := [range], count := range.second - range.first, begin := range.first);
        WidthSingle(range);
        ReplaceCurrent(data, outerPos, chunk, maxSize);
        data := data[outerPos := chunk];
      } else if range.first == chunk.data[|chunk.data| - 1].second {
        var last := Range(chunk.data[|chunk.data| - 1].first, range.second);
        WidthReplaced(chunk.data, |chunk.data| - 1, last);
        chunk := chunk.(data := chunk.data[|chunk.data| - 1 := last],
                        count := chunk.count + (range.second - range.first));
        ReplaceCurrent(data, outerPos, chunk, maxSize);
        data := data[outerPos := chunk];
        assert Built() == built[|built| - 1 := last];
      } else if |chunk.data| < maxSize {
        WidthConcat(chunk.data, [range]);
        WidthSingle(range);
        chunk := chunk.(data := chunk.data + [range], count := chunk.count + (range.second - range.first));
        ReplaceCurrent(data, outerPos, chunk, maxSize);
        data := data[outerPos := chunk];
        assert Built() == built + [range];
      } else {
        var closed := chunk.(end := chunk.data[|chunk.data| - 1].second);
        data := data[outerPos := closed];
        outerPos := outerPos + 1;
        if outerPos >= |data| {
          chunk := Chunk([range], range.first, 0, 1);
          data := data + [chunk];
        } else {
          chunk := data[outerPos];
          chunk := chunk.(data := chunk.data + [range], begin := range.first, count := range.second - range.first);
          data := data[outerPos := chunk];
        }
        WidthSingle(range);
        assert chunk.data == [range];
        OpenNext(before, outerPos - 1, closed, chunk, data, maxSize);
      }
    }

    method Finalize() returns (chunks: seq<Chunk>)
      requires Valid()
      ensures Flatten(chunks) == Built()
      ensures NoneEmpty(chunks) && AllBounded(chunks, maxSize)
      ensures CountsRight() <==> AllOk(chunks, maxSize)
      ensures Ready() ==> Canonical(Flatten(chunks)) && Members(Flatten(chunks)) == Contents()
      ensures Ready() ==> CountsRight()
    {
      chunks := data[..outerPos + 1];
      var last := chunks[|chunks| - 1];
      if |last.data| == 0 {
        chunks := chunks[..|chunks| - 1];
        assert chunks == [];
      } else {
        var closed := last.(end := last.data[|last.data| - 1].second);
        chunks := chunks[|chunks| - 1 := closed];
        CloseLast(data, outerPos, closed, chunks, maxSize);
      }
    }
  }

  lemma {:induction false} LastOfCurrent(data: seq<Chunk>, outer: nat, maxSize: nat)
    requires Packed(data, outer, maxSize)
    ensures var b, d := BuiltBy(data, outer), data[outer].data;
            (b == [] <==> d == []) && (d != [] ==> b[|b| - 1] == d[|d| - 1])
  {
  }

  lemma {:induction false} CloseLast(data: seq<Chunk>, outer: nat, closed: Chunk, chunks: seq<Chunk>, maxSize: nat)
    requires Packed(data, outer, maxSize) && data[outer].data != []
    requires closed == data[outer].(end := data[outer].data[|data[outer].data| - 1].second)
    requires chunks == data[..outer + 1][outer := closed]
    ensures Flatten(chunks) == BuiltBy(data, outer)
    ensures NoneEmpty(chunks) && AllBounded(chunks, maxSize)
    ensures CountsOk(data, outer) <==> AllOk(chunks, maxSize)
  {
    assert chunks[..outer] == data[..outer];
    assert chunks[|chunks| - 1] == closed;
    forall k | 0 <= k < outer
      ensures ChunkOk(chunks[k], maxSize) <==> CountOk(data[k])
    {
    }
    assert ChunkOk(closed, maxSize) <==> CountOk(data[outer]);
    if AllOk(chunks, maxSize) {
      assert ChunkOk(chunks[outer], maxSize);
      forall k | 0 <= k < outer
        ensures CountOk(data[k])
      {
        assert ChunkOk(chunks[k], maxSize);
      }
    }
  }

  function ChunkStart(c: nat, maxSize: nat): nat {
    c * maxSize
  }

  /** An entry that opens a chunk for which the constructor set nothing aside. */
  ghost predicate BeyondReserve(j: nat, maxSize: nat, reserve: nat) {
    exists c: nat :: reserve <= c && ChunkStart(c, maxSize) == j
  }

  lemma {:induction false} PackedLength(data: seq<Chunk>, outer: nat, maxSize: nat)
    requires outer <= |data| && forall k :: 0 <= k < outer ==> |data[k].data| == maxSize
    ensures |Flatten(data[..outer])| == outer * maxSize
  {
    if outer > 0 {
      PackedLength(data, outer - 1, maxSize);
      FlattenAround(data, outer - 1);
      assert outer * maxSize == (outer - 1) * maxSize + maxSize;
    } else {
      assert outer * maxSize == 0;
    }
  }

  lemma FullChunkArithmetic(outer: nat, d: nat, maxSize: nat, reserve: nat)
    requires 0 < d <= maxSize
    ensures BeyondReserve(outer * maxSize + d, maxSize, reserve) <==> d == maxSize && outer + 1 >= reserve
  {
    var j := outer * maxSize + d;
    assert ChunkStart(outer + 1, maxSize) == outer * maxSize + maxSize;
    assert ChunkStart(outer + 2, maxSize) == outer * maxSize + maxSize + maxSize;
    forall c: nat | ChunkStart(c, maxSize) == j
      ensures c == outer + 1
    {
      if c <= outer {
        MultiplyKeepsOrder(c, outer, maxSize);
      } else if c >= outer + 2 {
        MultiplyKeepsOrder(outer + 2, c, maxSize);
      }
    }
  }

  lemma MultiplyKeepsOrder(a: nat, b: nat, m: nat)
    requires a <= b
    ensures a * m <= b * m
  {
  }

  /** A push of a new entry leaves the reserve exactly when its index is a chunk border beyond it. */
  lemma {:induction false} OverflowsBeyondReserve(b: ChunkedRangeVectorBuilder, r: Range)
    requires b.Valid() && b.reserve > 0
    requires b.Built() != [] ==> b.Built()[|b.Built()| - 1].second != r.first
    ensures b.Overflows(r) <==> BeyondReserve(|b.Built()|, b.maxSize, b.reserve)
  {
    PackedLength(b.data, b.outerPos, b.maxSize);
    LastOfCurrent(b.data, b.outerPos, b.maxSize);
    var d := |b.data[b.outerPos].data|;
    assert |b.Built()| == b.outerPos * b.maxSize + d;
    if d > 0 {
      FullChunkArithmetic(b.outerPos, d, b.maxSize, b.reserve);
    } else {
      forall c: nat | b.reserve <= c
        ensures ChunkStart(c, b.maxSize) > 0
      {
        MultiplyKeepsOrder(1, c, b.maxSize);
      }
    }
  }

  /** No list of the expected length reaches beyond the reserve made for it. */
  lemma ExpectedFitsReserve(n: nat, j: nat, maxSize: nat)
    requires maxSize > 0 && j < n
    ensures !BeyondReserve(j, maxSize, Reserve(n, maxSize))
  {
    var reserve := n / maxSize + 1;
    assert n == n / maxSize * maxSize + n % maxSize;
    assert reserve * maxSize == n / maxSize * maxSize + maxSize;
    forall c: nat | reserve <= c
      ensures ChunkStart(c, maxSize) > j
    {
      MultiplyKeepsOrder(reserve, c, maxSize);
    }
  }
}
