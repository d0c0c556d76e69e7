/** The leaf array of the B+ tree: values in a buffer, edited in place, and split when the leaf is full. */
module BasicArrays {
  import opened Options

  /** Where a split happened, and how many values the two leaves have together. */
  datatype SplitState = SplitState(offset: nat, size: nat)

  /** The values with one more in front of position i. */
  function Inserted<T>(s: seq<T>, i: nat, v: T): seq<T>
    requires i <= |s|
  {
    s[..i] + [v] + s[i..]
  }

  function Min(a: nat, b: nat): nat {
    if a < b then a else b
  }

  class BasicArray<T(==, 0)> {
    var data: array<T>
    var size: nat

    ghost predicate Valid()
      reads this
    {
      size <= data.Length
    }

    ghost function Contents(): seq<T>
      requires Valid()
      reads this, data
    {
      data[..size]
    }

    constructor ()
      ensures Valid() && fresh(data) && Contents() == []
    {
      data := new T[0];
      size := 0;
    }

    /** Room for n values; the values there are stay. */
    method Alloc(n: nat)
      requires Valid() && size <= n
      modifies this`data
      ensures Valid() && n <= data.Length && Contents() == old(Contents())
      ensures data == old(data) || fresh(data)
    {
      if n <= data.Length {
        return;
      }
      var more := new T[n];
      var i := 0;
      while i < size
        invariant i <= size && more[..i] == data[..i]
        modifies more
      {
        more[i] := data[i];
        i := i + 1;
      }
      data := more;
    }

    /** The values from ndx on move back by one, the last of them first. */
    method MoveBack(ndx: nat)
      requires Valid() && ndx <= size < data.Length
      modifies data
      ensures data[..ndx] == old(data[..ndx]) && data[ndx + 1..size + 1] == old(data[ndx..size])
    {
      var i := size;
      while ndx < i
        invariant ndx <= i <= size
        invariant data[..i] == old(data[..i])
        invariant data[i + 1..size + 1] == old(data[i..size])
      {
        data[i] := data[i - 1];
        i := i - 1;
      }
    }

    method Insert(ndx: nat, value: T)
      requires Valid() && ndx <= size
      modifies this, data
      ensures Valid() && (data == old(data) || fresh(data))
      ensures Contents() == Inserted(old(Contents()), ndx, value)
    {
      Alloc(size + 1);
      ghost var before := Contents();
      MoveBack(ndx);
      data[ndx] := value;
      size := size + 1;
      assert data[..ndx] == before[..ndx] && data[ndx + 1..size] == before[ndx..];
    }

    method Add(value: T)
      requires Valid()
      modifies this, data
      ensures Valid() && (data == old(data) || fresh(data))
      ensures Contents() == old(Contents()) + [value]
    {
      Insert(size, value);
    }

    /** Nothing is written when the value is already there. */
    method Set(ndx: nat, value: T)
      requires Valid() && ndx < size
      modifies data
      ensures Valid() && Contents() == old(Contents())[ndx := value]
    {
      if data[ndx] == value {
        return;
      }
      data[ndx] := value;
    }

    /** The values behind ndx move up by one. */
    method Erase(ndx: nat)
      requires Valid() && ndx < size
      modifies this`size, data
      ensures Valid() && Contents() == old(Contents())[..ndx] + old(Contents())[ndx + 1..]
    {
      var i := ndx;
      while i < size - 1
        invariant ndx <= i <= size - 1
        invariant data[..i] == old(data[..ndx]) + old(data[ndx + 1..i + 1])
        invariant data[i + 1..] == old(data[i + 1..])
        modifies data
      {
        assert data[i + 1] == old(data[i + 1..])[0];
        data[i] := data[i + 1];
        i := i + 1;
        assert data[..i] == data[..i - 1] + [data[i - 1]];
        assert old(data[ndx + 1..i + 1]) == old(data[ndx + 1..i]) + [old(data[i])];
      }
      size := size - 1;
    }

    method Truncate(toSize: nat)
      requires Valid() && toSize <= size
      modifies this`size
      ensures Valid() && Contents() == old(Contents())[..toSize]
    {
      size := toSize;
    }

    method Slice(offset: nat, count: nat) returns (part: BasicArray<T>)
      requires Valid() && offset + count <= size
      ensures fresh(part) && fresh(part.data) && part.Valid()
      ensures part.Contents() == Contents()[offset..offset + count]
    {
      part := new BasicArray();
      var i := offset;
      while i != offset + count
        invariant offset <= i <= offset + count && part.Valid() && fresh(part.data)
        invariant part.Contents() == Contents()[offset..i]
        decreases offset + count - i
      {
        ghost var s := Contents();
        assert s[offset..i + 1] == s[offset..i] + [s[i]] && s[i] == data[i];
        part.Add(data[i]);
        i := i + 1;
      }
    }

    /** The first position of the value in the range; none when the range does not hold it. */
    method Find(value: T, begin: nat, end: nat) returns (r: Option<nat>)
      requires Valid() && begin <= end <= size
      ensures r.Some? ==> begin <= r.value < end && Contents()[r.value] == value && value !in Contents()[begin..r.value]
      ensures r.None? ==> value !in Contents()[begin..end]
    {
      var i := begin;
      while i < end
        invariant begin <= i <= end && value !in Contents()[begin..i]
      {
        if data[i] == value {
          return Some(i);
        }
        i := i + 1;
      }
      r := None;
    }

    /** All positions of the value in the range, in order, each moved by the offset. */
    method FindAll(value: T, addOffset: nat, begin: nat, end: nat) returns (found: seq<nat>)
      requires Valid() && begin <= end <= size
      ensures found == PositionsOf(Contents(), value, begin, end, addOffset)
    {
      found := [];
      ghost var s := Contents();
      var from, more := begin, true;
      while more
        invariant begin <= from <= end
        invariant PositionsOf(s, value, begin, end, addOffset)
                  == if more then found + PositionsOf(s, value, from, end, addOffset) else found
        decreases if more then end - from + 1 else 0
      {
        hide PositionsOf;
        var first := Find(value, from, end);
        if first.None? {
          NoPosition(s, value, from, end, addOffset);
          more := false;
        } else {
          SkipToPosition(s, value, from, first.value, end, addOffset);
          assert found + ([first.value + addOffset] + PositionsOf(s, value, first.value + 1, end, addOffset))
              == found + [first.value + addOffset] + PositionsOf(s, value, first.value + 1, end, addOffset);
          found := found + [first.value + addOffset];
          from := first.value + 1;
        }
      }
    }

    /**
     * Inserting into a leaf of at most maxSize values. A full leaf is split: this leaf keeps the front, and the new
     * one takes the rest. Together they hold the old values with the new one at its place.
     */
    method LeafInsert(ndx: nat, value: T, maxSize: nat) returns (newLeaf: BasicArray?<T>, state: SplitState)
      requires Valid() && 0 < maxSize && size <= maxSize
      modifies this, data
      ensures Valid() && 0 < size <= maxSize
      ensures newLeaf == null <==> old(size) < maxSize
      ensures newLeaf == null ==> Contents() == Inserted(old(Contents()), Min(ndx, old(size)), value)
      ensures newLeaf != null ==>
                && fresh(newLeaf) && fresh(newLeaf.data) && newLeaf.Valid() && 0 < newLeaf.size <= maxSize
                && Contents() + newLeaf.Contents() == Inserted(old(Contents()), Min(ndx, old(size)), value)
                && state == SplitState(size, size + newLeaf.size)
    {
      var leafSize, i := size, ndx;
      state := SplitState(0, 0);
      if leafSize < i {
        i := leafSize;
      }
      if leafSize < maxSize {
        Insert(i, value);
        return null, state;
      }
      ghost var before := Contents();
      if i == leafSize {
        newLeaf := new BasicArray();
        newLeaf.Add(value);
        state := SplitState(i, leafSize + 1);
        assert before[..i] == before;
      } else {
        newLeaf := Slice(i, leafSize - i);
        Truncate(i);
        Add(value);
        state := SplitState(i + 1, leafSize + 1);
      }
    }
  }

  function PositionsOf<T(==)>(s: seq<T>, v: T, begin: nat, end: nat, offset: nat): seq<nat>
    requires begin <= end <= |s|
    decreases end - begin
  {
    if begin == end then []
    else (if s[begin] == v then [begin + offset] else []) + PositionsOf(s, v, begin + 1, end, offset)
  }

  lemma {:induction false} NoPosition<T>(s: seq<T>, v: T, begin: nat, end: nat, offset: nat)
    requires begin <= end <= |s| && v !in s[begin..end]
    ensures PositionsOf(s, v, begin, end, offset) == []
    decreases end - begin
  {
    if begin < end {
      assert s[begin] == s[begin..end][0];
      assert forall x :: x in s[begin + 1..end] ==> x in s[begin..end];
      NoPosition(s, v, begin + 1, end, offset);
    }
  }

  lemma {:induction false} SkipToPosition<T>(s: seq<T>, v: T, begin: nat, i: nat, end: nat, offset: nat)
    requires begin <= i < end <= |s| && s[i] == v && v !in s[begin..i]
    ensures PositionsOf(s, v, begin, end, offset) == [i + offset] + PositionsOf(s, v, i + 1, end, offset)
    decreases i - begin
  {
    if begin < i {
      assert s[begin] == s[begin..i][0];
      assert forall x :: x in s[begin + 1..i] ==> x in s[begin..i];
      SkipToPosition(s, v, begin + 1, i, end, offset);
    }
  }

  /** The positions found are exactly those of the value. */
  lemma {:induction false} PositionsAre<T>(s: seq<T>, v: T, begin: nat, end: nat, offset: nat, x: nat)
    requires begin <= end <= |s|
    ensures x in PositionsOf(s, v, begin, end, offset) <==> begin + offset <= x < end + offset && s[x - offset] == v
    decreases end - begin
  {
    if begin < end {
      PositionsAre(s, v, begin + 1, end, offset, x);
    }
  }

  ghost predicate Increasing(r: seq<nat>) {
    forall k, l :: 0 <= k < l < |r| ==> r[k] < r[l]
  }

  /** They come in increasing order. */
  lemma {:induction false} PositionsIncrease<T>(s: seq<T>, v: T, begin: nat, end: nat, offset: nat)
    requires begin <= end <= |s|
    ensures Increasing(PositionsOf(s, v, begin, end, offset))
    decreases end - begin
  {
    if begin < end {
      var rest := PositionsOf(s, v, begin + 1, end, offset);
      PositionsIncrease(s, v, begin + 1, end, offset);
      forall k | 0 <= k < |rest|
        ensures begin + offset < rest[k]
      {
        assert rest[k] in rest;
        PositionsAre(s, v, begin + 1, end, offset, rest[k]);
      }
    }
  }
}
