/** Copying the column positions of one schema to another, class by class and property by property. */
module ColumnCopies {
  import opened Options
  import opened Names
  import opened Schemas
  import opened SchemaCompare

  /** The first property of the name gets the column. */
  function WithColumnIn(ps: seq<Property>, n: string, column: int): seq<Property> {
    if ps == [] then []
    else if ps[0].name == n then [ps[0].(tableColumn := column)] + ps[1..]
    else [ps[0]] + WithColumnIn(ps[1..], n, column)
  }

  /** As a lookup by name does, persisted properties are searched before computed ones. */
  function WithColumn(o: ObjectSchema, p: Property): ObjectSchema {
    if Lookup(o.persisted, p.name).Some? then o.(persisted := WithColumnIn(o.persisted, p.name, p.tableColumn))
    else o.(computed := WithColumnIn(o.computed, p.name, p.tableColumn))
  }

  function WithColumnsOf(o: ObjectSchema, ps: seq<Property>): ObjectSchema {
    if ps == [] then o else WithColumn(WithColumnsOf(o, ps[..|ps| - 1]), ps[|ps| - 1])
  }

  function Copied(o: ObjectSchema, other: Schema): ObjectSchema {
    match ClassNamed(other, o.name)
    case None => o
    case Some(e) => WithColumnsOf(o, e.persisted)
  }

  method SetColumn(ps: seq<Property>, n: string, column: int) returns (r: seq<Property>, found: bool)
    ensures found <==> Lookup(ps, n).Some?
    ensures r == WithColumnIn(ps, n, column)
  {
    var k := 0;
    while k < |ps| && ps[k].name != n
      invariant k <= |ps| && forall j :: 0 <= j < k ==> ps[j].name != n
    {
      k := k + 1;
    }
    FirstIsSet(ps, n, column, k);
    found := k < |ps|;
    r := if found then ps[k := ps[k].(tableColumn := column)] else ps;
  }

  lemma {:induction false} FirstIsSet(ps: seq<Property>, n: string, column: int, k: nat)
    requires k <= |ps| && (forall j :: 0 <= j < k ==> ps[j].name != n) && (k < |ps| ==> ps[k].name == n)
    ensures Lookup(ps, n).Some? <==> k < |ps|
    ensures WithColumnIn(ps, n, column) == if k < |ps| then ps[k := ps[k].(tableColumn := column)] else ps
  {
    if k > 0 {
      FirstIsSet(ps[1..], n, column, k - 1);
    }
  }

  method CopyClassColumns(o: ObjectSchema, ps: seq<Property>) returns (r: ObjectSchema)
    ensures r == WithColumnsOf(o, ps)
  {
    r := o;
    var k := 0;
    assert ps[..0] == [];
    while k < |ps|
      invariant k <= |ps| && r == WithColumnsOf(o, ps[..k])
    {
      assert ps[..k + 1][..k] == ps[..k];
      var p := ps[k];
      var changed, found := SetColumn(r.persisted, p.name, p.tableColumn);
      if found {
        r := r.(persisted := changed);
      } else {
        changed, found := SetColumn(r.computed, p.name, p.tableColumn);
        r := r.(computed := changed);
      }
      k := k + 1;
    }
    assert ps[..k] == ps;
  }

  /** One pass over both schemas side by side. */
  method CopyTableColumns(target: Schema, other: Schema) returns (result: Schema)
    requires Sorted(target) && Sorted(other)
    ensures |result| == |target| && forall k :: 0 <= k < |target| ==> result[k] == Copied(target[k], other)
  {
    hide Less, Sorted, Aligned, HasClass, WithColumnsOf;
    result := target;
    var i, j := 0, 0;
    NothingPassed(target, other);
    while i < |target| && j < |other|
      invariant i <= |target| == |result| && j <= |other| && Aligned(target, i, other, j)
      invariant forall k :: 0 <= k < i ==> result[k] == Copied(target[k], other)
      invariant forall k :: i <= k < |target| ==> result[k] == target[k]
      decreases |target| - i + |other| - j
    {
      LessIsTotal(target[i].name, other[j].name);
      if target[i].name == other[j].name {
        AlignedBoth(target, i, other, j);
        ClassIsNamed(other, j);
        var o := CopyClassColumns(target[i], other[j].persisted);
        result := result[i := o];
        i, j := i + 1, j + 1;
      } else if Less(target[i].name, other[j].name) {
        AlignedAbsent(target, i, other, j);
        NothingToCopy(target[i], other);
        i := i + 1;
      } else {
        AlignedPassed(target, i, other, j);
        j := j + 1;
      }
    }
    while i < |target|
      invariant i <= |target| == |result| && j <= |other| && (i < |target| ==> j == |other|) && Aligned(target, i, other, j)
      invariant forall k :: 0 <= k < i ==> result[k] == Copied(target[k], other)
      invariant forall k :: i <= k < |target| ==> result[k] == target[k]
    {
      AlignedAbsent(target, i, other, j);
      NothingToCopy(target[i], other);
      i := i + 1;
    }
  }

  lemma NothingToCopy(o: ObjectSchema, other: Schema)
    requires !HasClass(other, o.name)
    ensures Copied(o, other) == o
  {
  }

  // ----- what is copied -----

  /** Nothing but columns changes. */
  ghost predicate UpToColumns(r: seq<Property>, ps: seq<Property>) {
    |r| == |ps| && forall k :: 0 <= k < |ps| ==> r[k] == ps[k].(tableColumn := r[k].tableColumn)
  }

  lemma {:induction false} OneColumnSet(ps: seq<Property>, n: string, column: int)
    requires forall i, j :: 0 <= i < j < |ps| ==> ps[i].name != ps[j].name
    ensures UpToColumns(WithColumnIn(ps, n, column), ps)
    ensures forall k :: 0 <= k < |ps| ==>
              WithColumnIn(ps, n, column)[k].tableColumn == if ps[k].name == n then column else ps[k].tableColumn
  {
    if ps != [] && ps[0].name != n {
      OneColumnSet(ps[1..], n, column);
    }
  }

  lemma {:induction false} ColumnSetAmong(ps: seq<Property>, n: string, column: int)
    ensures UpToColumns(WithColumnIn(ps, n, column), ps)
  {
    if ps != [] && ps[0].name != n {
      ColumnSetAmong(ps[1..], n, column);
    }
  }

  /** A persisted property has the column of the property of its name among those copied, if there is one. */
  lemma {:induction false} ColumnsAreCopied(o: ObjectSchema, ps: seq<Property>, k: nat)
    requires k < |o.persisted| && (forall i, j :: 0 <= i < j < |o.persisted| ==> o.persisted[i].name != o.persisted[j].name)
    requires forall i, j :: 0 <= i < j < |ps| ==> ps[i].name != ps[j].name
    ensures var r := WithColumnsOf(o, ps);
            && r == o.(persisted := r.persisted, computed := r.computed)
            && UpToColumns(r.persisted, o.persisted) && UpToColumns(r.computed, o.computed)
            && (forall p :: p in ps && p.name == o.persisted[k].name ==> r.persisted[k].tableColumn == p.tableColumn)
            && ((forall p :: p in ps ==> p.name != o.persisted[k].name) ==> r.persisted[k] == o.persisted[k])
  {
    if ps != [] {
      var rest, last := ps[..|ps| - 1], ps[|ps| - 1];
      assert ps == rest + [last];
      ColumnsAreCopied(o, rest, k);
      var before := WithColumnsOf(o, rest);
      hide WithColumnsOf, Lookup;
      if Lookup(before.persisted, last.name).Some? {
        OneColumnSet(before.persisted, last.name, last.tableColumn);
      } else {
        ColumnSetAmong(before.computed, last.name, last.tableColumn);
        assert before.persisted[k] in before.persisted;
      }
    }
  }
}
