/** Assigning a sequence of values to a list, element by element where they differ. */
module RealmLists {
  import opened Options

  class RealmList<T(==)> {
    var rows: seq<T>
    /** The positions that have been written to. */
    ghost var written: set<nat>

    constructor (values: seq<T>)
      ensures rows == values && written == {}
    {
      rows, written := values, {};
    }

    method Set(i: nat, v: T)
      requires i < |rows|
      modifies this
      ensures rows == old(rows)[i := v] && written == old(written) + {i}
    {
      rows := rows[i := v];
      written := written + {i};
    }

    method Add(v: T)
      modifies this
      ensures rows == old(rows) + [v] && written == old(written) + {|old(rows)|}
    {
      written := written + {|rows|};
      rows := rows + [v];
    }

    method Remove(i: nat)
      requires i < |rows|
      modifies this`rows
      ensures rows == old(rows)[..i] + old(rows)[i + 1..]
    {
      rows := rows[..i] + rows[i + 1..];
    }

    method RemoveAll()
      modifies this`rows
      ensures rows == []
    {
      rows := [];
    }

    method SetIfDifferent(i: nat, v: T)
      requires i < |rows|
      modifies this
      ensures rows == old(rows)[i := v]
      ensures written == if old(rows)[i] == v then old(written) else old(written) + {i}
    {
      if rows[i] != v {
        Set(i, v);
      }
    }

    /**
     * The list becomes the values, nothing for null. With updateOnlyDiff no position is written that already
     * held its value.
     */
    method Assign(values: Option<seq<T>>, sameList: bool, updateOnlyDiff: bool)
      requires sameList ==> values == Some(rows)
      modifies this
      ensures rows == (if values.Some? then values.value else [])
      ensures sameList || values.None? ==> written == old(written)
      ensures !sameList && values.Some? && updateOnlyDiff ==> written == old(written) + Differing(old(rows), values.value)
      ensures !sameList && values.Some? && !updateOnlyDiff ==> written == old(written) + Differing([], values.value)
    {
      if sameList {
        return;
      }
      if values.None? {
        RemoveAll();
        return;
      }
      var vs := values.value;
      if updateOnlyDiff {
        AssignDifferences(vs);
      } else {
        RemoveAll();
        var index := 0;
        while index < |vs|
          invariant index <= |vs| && rows == vs[..index] && written == old(written) + Differing([], vs[..index])
        {
          DifferingNext([], vs, index);
          Add(vs[index]);
          index := index + 1;
        }
        assert vs[..index] == vs;
      }
    }

    method AssignDifferences(vs: seq<T>)
      modifies this
      ensures rows == vs && written == old(written) + Differing(old(rows), vs)
    {
      ghost var before, touched := rows, written;
      var sz, index := |rows|, 0;
      assert Overwritten(before, vs, 0) == rows;
      while index < |vs|
        invariant index <= |vs| && sz == |before| && rows == Overwritten(before, vs, index)
        invariant written == touched + Differing(before, vs[..index])
      {
        DifferingNext(before, vs, index);
        OverwrittenNext(before, vs, index);
        hide Overwritten, Differing;
        if index < sz {
          SetIfDifferent(index, vs[index]);
        } else {
          Add(vs[index]);
        }
        index := index + 1;
      }
      assert vs[..index] == vs;
      RemoveFrom(index);
    }

    /** Whatever lies behind the position is removed, each time the element at the position. */
    method RemoveFrom(index: nat)
      requires index <= |rows|
      modifies this`rows
      ensures rows == old(rows)[..index]
    {
      ghost var before := rows;
      var sz := |rows|;
      while index < sz
        invariant index <= sz <= |before| && rows == before[..index] + before[index + |before| - sz..]
      {
        Remove(index);
        sz := sz - 1;
      }
    }
  }

  /** The first k elements have been replaced or added. */
  function Overwritten<T>(before: seq<T>, vs: seq<T>, k: nat): seq<T>
    requires k <= |vs|
  {
    vs[..k] + (if k < |before| then before[k..] else [])
  }

  lemma OverwrittenNext<T>(before: seq<T>, vs: seq<T>, k: nat)
    requires k < |vs|
    ensures var now := Overwritten(before, vs, k);
            && |now| == (if k < |before| then |before| else k) && (k < |before| ==> now[k] == before[k])
            && Overwritten(before, vs, k + 1) == if k < |before| then now[k := vs[k]] else now + [vs[k]]
  {
  }

  /** The positions of the new values at which the old ones differ or have ended. */
  function Differing<T(==)>(before: seq<T>, vs: seq<T>): set<nat> {
    set i | 0 <= i < |vs| && !(i < |before| && before[i] == vs[i])
  }

  lemma DifferingNext<T>(before: seq<T>, vs: seq<T>, k: nat)
    requires k < |vs|
    ensures Differing(before, vs[..k + 1])
            == Differing(before, vs[..k]) + if k < |before| && before[k] == vs[k] then {} else {k}
  {
    assert vs[..k + 1] == vs[..k] + [vs[k]];
  }
}
