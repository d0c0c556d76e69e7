/** The comparison of two schemas: one pass over both for the tables, and one for the columns. */
module SchemaCompare {
  import opened Names
  import opened Options
  import opened Schemas
  import opened ChangeLists
  import opened ChangeOrder

  // ----- one class -----

  /** Different properties of the class are kept in different columns. */
  ghost predicate ColumnsDiffer(e: ObjectSchema) {
    forall p, q :: p in e.persisted && q in e.persisted && p.tableColumn == q.tableColumn ==> p == q
  }

  /** The change is about a property of the existing class. */
  predicate OfOld(c: SchemaChange) {
    || c.RemoveProperty? || c.ChangePropertyType? || c.MakePropertyNullable? || c.MakePropertyRequired?
    || c.AddIndex? || c.RemoveIndex?
  }

  lemma EmittedAreCalled(e: ObjectSchema, t: ObjectSchema, p: Property, c: SchemaChange)
    requires p in e.persisted
    ensures c in Emitted(e, t, p) <==> ClassCalls(e, t, c) && OfOld(c) && c.property == p
    ensures Distinct(Emitted(e, t, p))
  {
    hide ObjectSchema.PropertyForName, ObjectSchema.PropertyIsComputed;
  }

  method CompareProperty(e: ObjectSchema, t: ObjectSchema, p: Property, changes: seq<SchemaChange>) returns (r: seq<SchemaChange>)
    ensures r == changes + Emitted(e, t, p)
  {
    r := changes;
    var targetProp := t.PropertyForName(p.name);
    if targetProp.None? {
      r := r + [RemoveProperty(e, p)];
      return;
    }
    var q := targetProp.value;
    if t.PropertyIsComputed(q) {
      r := r + [RemoveProperty(e, p)];
      return;
    }
    if p.typ.base != q.typ.base || p.objectType != q.objectType || p.typ.isArray != q.typ.isArray {
      r := r + [ChangePropertyType(e, p, q)];
      return;
    }
    if p.typ.nullable != q.typ.nullable {
      if p.typ.nullable {
        r := r + [MakePropertyRequired(e, p)];
      } else {
        r := r + [MakePropertyNullable(e, p)];
      }
    }
    if q.RequiresIndex() {
      if !p.isIndexed {
        r := r + [AddIndex(e, p)];
      }
    } else if p.RequiresIndex() {
      r := r + [RemoveIndex(e, p)];
    }
  }

  /** Which of the class's changes have been listed once this many old properties have been compared. */
  ghost predicate OldCalled(e: ObjectSchema, t: ObjectSchema, k: nat, c: SchemaChange)
    requires k <= |e.persisted|
  {
    ClassCalls(e, t, c) && OfOld(c) && c.property in e.persisted[..k]
  }

  lemma OneMoreCompared(e: ObjectSchema, t: ObjectSchema, k: nat, c: SchemaChange)
    requires k < |e.persisted|
    ensures OldCalled(e, t, k + 1, c) <==> OldCalled(e, t, k, c) || c in Emitted(e, t, e.persisted[k])
  {
    assert e.persisted[..k + 1] == e.persisted[..k] + [e.persisted[k]];
    EmittedAreCalled(e, t, e.persisted[k], c);
    hide ClassCalls, Emitted;
  }

  lemma NotYetCompared(e: ObjectSchema, t: ObjectSchema, k: nat, c: SchemaChange)
    requires k < |e.persisted| && UniqueNames(e) && c in Emitted(e, t, e.persisted[k])
    ensures !OldCalled(e, t, k, c) && c.cls == e
  {
    EmittedAreCalled(e, t, e.persisted[k], c);
  }

  method CompareOld(e: ObjectSchema, t: ObjectSchema, start: seq<SchemaChange>) returns (changes: seq<SchemaChange>)
    requires UniqueNames(e) && Distinct(start) && forall c :: c in start ==> c.cls.name != e.name
    ensures changes == start + OldChanges(e, t, |e.persisted|) && Distinct(changes)
    ensures forall c :: c in changes <==> c in start || (ClassCalls(e, t, c) && OfOld(c))
  {
    hide OldCalled, ClassCalls, OfOld, Emitted, UniqueNames, Distinct;
    changes := start;
    var k := 0;
    NothingCompared(e, t);
    while k < |e.persisted|
      invariant k <= |e.persisted| && changes == start + OldChanges(e, t, k) && Distinct(changes)
      invariant forall c :: c in changes <==> c in start || OldCalled(e, t, k, c)
    {
      ghost var before := changes;
      changes := CompareProperty(e, t, e.persisted[k], changes);
      GrowByProperty(e, t, k, start, before);
      assert changes == start + OldChanges(e, t, k + 1);
      k := k + 1;
    }
    forall c
      ensures OldCalled(e, t, k, c) <==> ClassCalls(e, t, c) && OfOld(c)
    {
      AllCompared(e, t, c);
    }
  }

  lemma NothingCompared(e: ObjectSchema, t: ObjectSchema)
    ensures forall c :: !OldCalled(e, t, 0, c)
  {
  }

  lemma AllCompared(e: ObjectSchema, t: ObjectSchema, c: SchemaChange)
    ensures OldCalled(e, t, |e.persisted|, c) <==> ClassCalls(e, t, c) && OfOld(c)
  {
    assert e.persisted[..|e.persisted|] == e.persisted;
  }

  lemma GrowByProperty(e: ObjectSchema, t: ObjectSchema, k: nat, start: seq<SchemaChange>, before: seq<SchemaChange>)
    requires k < |e.persisted| && UniqueNames(e) && start <= before && Distinct(before)
    requires forall c :: c in start ==> c.cls.name != e.name
    requires forall c :: c in before <==> c in start || OldCalled(e, t, k, c)
    ensures var after := before + Emitted(e, t, e.persisted[k]);
            && start <= after && Distinct(after)
            && forall c :: c in after <==> c in start || OldCalled(e, t, k + 1, c)
  {
    var emitted := Emitted(e, t, e.persisted[k]);
    var after := before + emitted;
    forall c
      ensures c in after <==> c in start || OldCalled(e, t, k + 1, c)
    {
      OneMoreCompared(e, t, k, c);
      hide OldCalled, Emitted;
    }
    forall c | c in emitted
      ensures c !in before
    {
      NotYetCompared(e, t, k, c);
    }
    hide OldCalled, Emitted;
    if emitted != [] {
      EmittedAreCalled(e, t, e.persisted[k], emitted[0]);
      AppendDistinct(before, emitted);
    }
  }

  lemma AppendDistinct(a: seq<SchemaChange>, b: seq<SchemaChange>)
    requires Distinct(a) && Distinct(b) && forall c :: c in b ==> c !in a
    ensures Distinct(a + b)
  {
    var s := a + b;
    forall i, j | 0 <= i < j < |s|
      ensures s[i] != s[j]
    {
      if i < |a| <= j {
        assert s[j] in b && s[i] in a;
      }
    }
  }

  /** Declared properties that the existing class lacks are added. */
  ghost predicate NewCalled(e: ObjectSchema, t: ObjectSchema, k: nat, c: SchemaChange)
    requires k <= |t.persisted|
  {
    c.AddProperty? && c.cls == e && c.property in t.persisted[..k] && e.PropertyForName(c.property.name).None?
  }

  method CompareNew(e: ObjectSchema, t: ObjectSchema, start: seq<SchemaChange>) returns (changes: seq<SchemaChange>)
    requires UniqueNames(t) && Distinct(start) && forall c :: c in start ==> !(c.AddProperty? && c.cls == e)
    ensures changes == start + NewChanges(e, t, |t.persisted|) && Distinct(changes)
    ensures forall c :: c in changes <==> c in start || (ClassCalls(e, t, c) && c.AddProperty?)
  {
    hide NewCalled, ClassCalls, UniqueNames, Distinct, ObjectSchema.PropertyForName;
    changes := start;
    var k := 0;
    NothingDeclared(e, t);
    while k < |t.persisted|
      invariant k <= |t.persisted| && changes == start + NewChanges(e, t, k) && Distinct(changes)
      invariant forall c :: c in changes <==> c in start || NewCalled(e, t, k, c)
    {
      var q := t.persisted[k];
      OneMoreDeclared(e, t, k);
      if e.PropertyForName(q.name).None? {
        AppendOne(changes, AddProperty(e, q));
        changes := changes + [AddProperty(e, q)];
      }
      assert changes == start + NewChanges(e, t, k + 1);
      k := k + 1;
    }
    AllDeclared(e, t);
  }

  lemma NothingDeclared(e: ObjectSchema, t: ObjectSchema)
    ensures forall c :: !NewCalled(e, t, 0, c)
  {
  }

  lemma AllDeclared(e: ObjectSchema, t: ObjectSchema)
    ensures forall c :: NewCalled(e, t, |t.persisted|, c) <==> ClassCalls(e, t, c) && c.AddProperty?
  {
    hide ObjectSchema.PropertyForName, ObjectSchema.PropertyIsComputed, Dropped, Kept;
    assert t.persisted[..|t.persisted|] == t.persisted;
  }

  lemma AppendOne(a: seq<SchemaChange>, c: SchemaChange)
    requires Distinct(a) && c !in a
    ensures Distinct(a + [c])
  {
    AppendDistinct(a, [c]);
  }

  lemma OneMoreDeclared(e: ObjectSchema, t: ObjectSchema, k: nat)
    requires k < |t.persisted| && UniqueNames(t)
    ensures var a := AddProperty(e, t.persisted[k]);
            && !NewCalled(e, t, k, a)
            && forall c :: NewCalled(e, t, k + 1, c) <==>
                 NewCalled(e, t, k, c) || (c == a && e.PropertyForName(t.persisted[k].name).None?)
  {
    assert t.persisted[..k + 1] == t.persisted[..k] + [t.persisted[k]];
    hide ObjectSchema.PropertyForName;
  }

  predicate SameRemoval(c: SchemaChange, d: SchemaChange) {
    && c.RemoveProperty? && d.RemoveProperty? && c.cls.name == d.cls.name
    && c.property.tableColumn == d.property.tableColumn
  }

  /** Removals of one class from one column are the same change. */
  ghost predicate RemovalsDiffer(cs: seq<SchemaChange>) {
    forall c, d :: c in cs && d in cs && SameRemoval(c, d) ==> c == d
  }

  /** Removals at the end, later columns first, are removals in a workable order. */
  lemma SortedRemovalsAreLast(front: seq<SchemaChange>, removals: seq<SchemaChange>)
    requires forall x :: 0 <= x < |front| ==> !front[x].RemoveProperty?
    requires Descending(removals) && Distinct(front + removals) && RemovalsDiffer(front + removals)
    ensures RemovalsLast(front + removals)
  {
    var cs := front + removals;
    forall i, j | 0 <= i < j < |cs| && cs[i].RemoveProperty? && cs[j].cls.name == cs[i].cls.name
      ensures cs[j].RemoveProperty? && cs[j].property.tableColumn < cs[i].property.tableColumn
    {
      assert cs[i] == removals[i - |front|] && cs[j] == removals[j - |front|];
      assert cs[i] in cs && cs[j] in cs;
    }
  }

  lemma TablesStayFirst(a: seq<SchemaChange>, b: seq<SchemaChange>, k: nat)
    requires multiset(a) == multiset(b) && Distinct(a) && k <= |a| && |a| == |b| && a[..k] == b[..k]
    requires forall j :: 0 <= j < |a| ==> (a[j].AddTable? <==> j < k)
    ensures forall j :: 0 <= j < |b| ==> (b[j].AddTable? <==> j < k)
  {
    PermutationKeeps(a, b);
    assert forall x :: 0 <= x < k ==> a[x] == a[..k][x] == b[..k][x] == b[x];
    forall j | k <= j < |b|
      ensures !b[j].AddTable?
    {
      assert b[j] in a;
      var i :| 0 <= i < |a| && a[i] == b[j];
    }
  }

  /** The tables to add are the first k changes, and no others. */
  ghost predicate TablesAre(cs: seq<SchemaChange>, k: nat) {
    k <= |cs| && forall j :: 0 <= j < |cs| ==> (cs[j].AddTable? <==> j < k)
  }

  lemma PartsCount(p: seq<SchemaChange>, border: nat, sorted: seq<SchemaChange>)
    requires border <= |p| && multiset(sorted) == multiset(p[border..])
    ensures multiset(p[..border] + sorted) == multiset(p) && |sorted| == |p| - border
  {
    assert p == p[..border] + p[border..];
    assert |sorted| == |multiset(sorted)| == |multiset(p[border..])| == |p[border..]|;
  }

  /** The tables to add stand before every removal, so neither the partition nor the sort moves them. */
  lemma TablesBeforeBorder(cs: seq<SchemaChange>, p: seq<SchemaChange>, border: nat, k: nat)
    requires p == Partition(cs, 0, |cs|) && multiset(p) == multiset(cs) && Distinct(cs) && TablesAre(cs, k)
    requires border <= |p| && (border < |p| ==> p[border].RemoveProperty?)
    ensures k <= border && p[..k] == cs[..k]
  {
    PartitionKeepsFront(cs, k);
    assert forall j :: 0 <= j < k ==> p[j] == p[..k][j] == cs[..k][j];
  }

  method MoveRemovalsLast(cs: seq<SchemaChange>, ghost k: nat) returns (r: seq<SchemaChange>)
    requires Distinct(cs) && RemovalsDiffer(cs) && TablesAre(cs, k)
    ensures multiset(r) == multiset(cs) && RemovalsLast(r) && TablesAre(r, k)
    ensures Distinct(r) && forall c :: c in r <==> c in cs
    ensures RemovalsDiffer(r) && SameOrder(r, Partition(cs, 0, |cs|))
  {
    var p, border := PartitionRemovals(cs);
    var sorted := SortRemovals(p[border..]);
    r := p[..border] + sorted;
    PartsCount(p, border, sorted);
    PermutationKeeps(cs, r);
    SortedRemovalsAreLast(p[..border], sorted);
    hide RemovalsLast, Descending, RemovalsDiffer, Partition;
    TablesBeforeBorder(cs, p, border, k);
    assert r[..k] == p[..k];
    TablesStayFirst(cs, r, k);
  }

  // ----- one class -----

  method CompareClass(e: ObjectSchema, t: ObjectSchema, start: seq<SchemaChange>, ghost k: nat) returns (changes: seq<SchemaChange>)
    requires UniqueNames(e) && UniqueNames(t) && ColumnsDiffer(e)
    requires Distinct(start) && RemovalsDiffer(start) && TablesAre(start, k)
    requires forall c :: c in start ==> c.cls.name != e.name
    ensures Distinct(changes) && RemovalsDiffer(changes) && TablesAre(changes, k) && RemovalsLast(changes)
    ensures forall c :: c in changes <==> c in start || ClassCalls(e, t, c)
    ensures SameOrder(changes, Partition(start + ClassChanges(e, t), 0, |start + ClassChanges(e, t)|))
  {
    hide ClassCalls, OfOld, Distinct, RemovalsDiffer, TablesAre, RemovalsLast, Partition, SameOrder, UniqueNames,
         ColumnsDiffer, OldChanges, NewChanges;
    changes := CompareOld(e, t, start);
    KeyListed(e, t, start, changes);
    if e.primaryKey != t.primaryKey {
      changes := changes + [ChangePrimaryKey(e, t.PrimaryKeyProperty())];
    }
    assert changes == start + OldChanges(e, t, |e.persisted|) + KeyChange(e, t);
    changes := CompareNew(e, t, changes);
    ClassListed(e, t, start, changes, k);
    assert changes == start + ClassChanges(e, t);
    changes := MoveRemovalsLast(changes, k);
  }

  /** The change of the primary key comes between those of old properties and the additions. */
  lemma KeyListed(e: ObjectSchema, t: ObjectSchema, start: seq<SchemaChange>, before: seq<SchemaChange>)
    requires Distinct(before) && forall c :: c in start ==> c.cls.name != e.name
    requires forall c :: c in before <==> c in start || (ClassCalls(e, t, c) && OfOld(c))
    ensures var after := before + KeyChange(e, t);
            && Distinct(after) && (forall c :: c in after ==> !(c.AddProperty? && c.cls == e))
            && forall c :: c in after || (ClassCalls(e, t, c) && c.AddProperty?) <==> c in start || ClassCalls(e, t, c)
  {
    hide ObjectSchema.PropertyForName, ObjectSchema.PropertyIsComputed, Dropped, Kept;
    AppendDistinct(before, KeyChange(e, t));
  }

  lemma ClassListed(e: ObjectSchema, t: ObjectSchema, start: seq<SchemaChange>, changes: seq<SchemaChange>, k: nat)
    requires ColumnsDiffer(e) && RemovalsDiffer(start) && TablesAre(start, k) && start <= changes
    requires forall c :: c in start ==> c.cls.name != e.name
    requires forall c :: c in changes ==> c in start || ClassCalls(e, t, c)
    requires Distinct(changes)
    ensures RemovalsDiffer(changes) && TablesAre(changes, k)
  {
    forall c | c in changes && c !in start
      ensures !c.AddTable? && c.cls == e
      ensures c.RemoveProperty? ==> c.property in e.persisted
    {
    }
    hide ClassCalls;
    forall j | |start| <= j < |changes|
      ensures !changes[j].AddTable?
    {
      assert changes[j] in changes;
    }
  }

  // ----- two sorted schemas side by side -----

  /** What has been passed in one schema is in front of what is still to come in the other. */
  ghost predicate Aligned(a: Schema, i: nat, b: Schema, j: nat) {
    && i <= |a| && j <= |b|
    && (forall x, y :: 0 <= x < i && j <= y < |b| ==> Less(a[x].name, b[y].name))
    && (forall x, y :: i <= x < |a| && 0 <= y < j ==> Less(b[y].name, a[x].name))
  }

  lemma NothingPassed(a: Schema, b: Schema)
    ensures Aligned(a, 0, b, 0)
  {
  }

  lemma AlignedAbsent(a: Schema, i: nat, b: Schema, j: nat)
    requires Sorted(b) && Aligned(a, i, b, j) && i < |a|
    requires j < |b| ==> Less(a[i].name, b[j].name)
    ensures !HasClass(b, a[i].name)
    ensures Sorted(a) ==> Aligned(a, i + 1, b, j)
  {
    forall y | 0 <= y < |b|
      ensures b[y].name != a[i].name
      ensures y >= j ==> Less(a[i].name, b[y].name)
    {
      if j < y {
        LessIsTransitive(a[i].name, b[j].name, b[y].name);
      }
      if y < j {
        LessIsAsymmetric(b[y].name, a[i].name);
      } else {
        LessIsAsymmetric(a[i].name, b[y].name);
      }
    }
  }

  lemma AlignedPassed(a: Schema, i: nat, b: Schema, j: nat)
    requires Sorted(a) && Aligned(a, i, b, j) && j < |b|
    requires i < |a| ==> Less(b[j].name, a[i].name)
    ensures Aligned(a, i, b, j + 1)
  {
    forall x | i <= x < |a|
      ensures Less(b[j].name, a[x].name)
    {
      if i < x {
        LessIsTransitive(b[j].name, a[i].name, a[x].name);
      }
    }
  }

  lemma AlignedBoth(a: Schema, i: nat, b: Schema, j: nat)
    requires Sorted(a) && Sorted(b) && Aligned(a, i, b, j) && i < |a| && j < |b| && a[i].name == b[j].name
    ensures Aligned(a, i + 1, b, j + 1)
    ensures HasClass(b, a[i].name)
  {
    assert b[j] in b;
  }

  /** The target's first i classes that are missing are to be added. */
  ghost predicate TableCalled(existing: Schema, target: Schema, i: nat, c: SchemaChange)
    requires i <= |target|
  {
    c.AddTable? && c.cls in target[..i] && !HasClass(existing, c.cls.name)
  }

  lemma OneMoreTable(existing: Schema, target: Schema, i: nat)
    requires i < |target| && Sorted(target)
    ensures var a := AddTable(target[i]);
            && !TableCalled(existing, target, i, a)
            && forall c :: TableCalled(existing, target, i + 1, c) <==>
                 TableCalled(existing, target, i, c) || (c == a && !HasClass(existing, target[i].name))
  {
    assert target[..i + 1] == target[..i] + [target[i]];
    LessIsIrreflexive(target[i].name);
  }

  method CompareTables(existing: Schema, target: Schema) returns (changes: seq<SchemaChange>)
    requires Sorted(existing) && Sorted(target)
    ensures Distinct(changes) && TablesAre(changes, |changes|)
    ensures forall c :: c in changes <==> c.AddTable? && Calls(existing, target, c)
    ensures changes == TableChanges(existing, target, |target|)
  {
    hide Less, Sorted, TableCalled, HasClass, Aligned, Distinct, TablesAre, Calls;
    changes := [];
    var i, j := 0, 0;
    NoTableYet(existing, target);
    NothingPassed(target, existing);
    while i < |target| && j < |existing|
      invariant Aligned(target, i, existing, j) && i <= |target| && j <= |existing|
      invariant TablesListedUpTo(existing, target, i, changes)
      decreases |target| - i + |existing| - j
    {
      LessIsTotal(target[i].name, existing[j].name);
      if target[i].name == existing[j].name {
        AlignedBoth(target, i, existing, j);
        TablePresent(existing, target, i, changes);
        i, j := i + 1, j + 1;
      } else if Less(target[i].name, existing[j].name) {
        AlignedAbsent(target, i, existing, j);
        TableMissing(existing, target, i, changes);
        changes := changes + [AddTable(target[i])];
        i := i + 1;
      } else {
        AlignedPassed(target, i, existing, j);
        j := j + 1;
      }
    }
    while i < |target|
      invariant Aligned(target, i, existing, j) && i <= |target| && j <= |existing| && (i < |target| ==> j == |existing|)
      invariant TablesListedUpTo(existing, target, i, changes)
    {
      AlignedAbsent(target, i, existing, j);
      TableMissing(existing, target, i, changes);
      changes := changes + [AddTable(target[i])];
      i := i + 1;
    }
    AllTables(existing, target, changes);
  }

  /** The tables to add for the target's first i classes, in the order of the classes. */
  ghost predicate TablesListedUpTo(existing: Schema, target: Schema, i: nat, changes: seq<SchemaChange>)
    requires i <= |target|
  {
    && Distinct(changes) && TablesAre(changes, |changes|)
    && (forall c :: c in changes <==> TableCalled(existing, target, i, c))
    && changes == TableChanges(existing, target, i)
  }

  lemma NoTableYet(existing: Schema, target: Schema)
    ensures TablesListedUpTo(existing, target, 0, [])
  {
  }

  lemma TablePresent(existing: Schema, target: Schema, i: nat, changes: seq<SchemaChange>)
    requires i < |target| && Sorted(target) && HasClass(existing, target[i].name)
    requires TablesListedUpTo(existing, target, i, changes)
    ensures TablesListedUpTo(existing, target, i + 1, changes)
  {
    OneMoreTable(existing, target, i);
    hide TableCalled;
  }

  lemma TableMissing(existing: Schema, target: Schema, i: nat, changes: seq<SchemaChange>)
    requires i < |target| && Sorted(target) && !HasClass(existing, target[i].name)
    requires TablesListedUpTo(existing, target, i, changes)
    ensures TablesListedUpTo(existing, target, i + 1, changes + [AddTable(target[i])])
  {
    OneMoreTable(existing, target, i);
    AppendOne(changes, AddTable(target[i]));
    hide TableCalled;
    assert ClassNamed(existing, target[i].name).None?;
  }

  lemma AllTables(existing: Schema, target: Schema, changes: seq<SchemaChange>)
    requires TablesListedUpTo(existing, target, |target|, changes)
    ensures Distinct(changes) && TablesAre(changes, |changes|)
    ensures forall c :: c in changes <==> c.AddTable? && Calls(existing, target, c)
    ensures changes == TableChanges(existing, target, |target|)
  {
    assert target[..|target|] == target;
  }

  /** Everything but the table creations, for the target's first i classes. */
  ghost predicate ColumnsCalled(existing: Schema, target: Schema, i: nat, c: SchemaChange)
    requires i <= |target|
  {
    !c.AddTable? && Calls(existing, target, c) && HasClass(target[..i], c.cls.name)
  }

  lemma OneMoreClass(existing: Schema, target: Schema, i: nat, c: SchemaChange)
    requires i < |target|
    ensures ColumnsCalled(existing, target, i + 1, c) <==>
              ColumnsCalled(existing, target, i, c) || (!c.AddTable? && Calls(existing, target, c) && c.cls.name == target[i].name)
  {
    var more := target[..i + 1];
    assert more == target[..i] + [target[i]];
    if HasClass(more, c.cls.name) {
      var o :| o in more && o.name == c.cls.name;
      assert o in target[..i] || o == target[i];
    }
    assert target[i] in more;
    if HasClass(target[..i], c.cls.name) {
      var o :| o in target[..i] && o.name == c.cls.name;
      assert o in more;
    }
    hide Calls;
  }

  /** The list after the tables have been compared, and the columns of the target's first i classes. */
  ghost predicate ListedUpTo(existing: Schema, target: Schema, i: nat, changes: seq<SchemaChange>, k: nat)
    requires i <= |target|
  {
    && Distinct(changes) && RemovalsDiffer(changes) && TablesAre(changes, k) && RemovalsLast(changes)
    && (forall c :: c in changes <==> (c.AddTable? && Calls(existing, target, c)) || ColumnsCalled(existing, target, i, c))
    && SameOrder(changes, Listed(existing, target, i))
  }

  /** Nothing about the next class is listed yet, except that its table is missing. */
  lemma NotListedYet(existing: Schema, target: Schema, i: nat, changes: seq<SchemaChange>, k: nat)
    requires i < |target| && Sorted(target) && ListedUpTo(existing, target, i, changes, k)
    ensures forall c :: c in changes && c.cls.name == target[i].name ==> c.AddTable? && !HasClass(existing, c.cls.name)
  {
    forall c | c in changes && c.cls.name == target[i].name
      ensures c.AddTable? && !HasClass(existing, c.cls.name)
    {
      if HasClass(target[..i], c.cls.name) {
        var o :| o in target[..i] && o.name == c.cls.name;
        var x :| 0 <= x < i && target[x] == o;
        LessIsIrreflexive(o.name);
      }
    }
  }

  lemma ListedBoth(existing: Schema, target: Schema, i: nat, j: nat, before: seq<SchemaChange>, after: seq<SchemaChange>, k: nat)
    requires Sorted(existing) && Sorted(target) && i < |target| && j < |existing| && existing[j].name == target[i].name
    requires ListedUpTo(existing, target, i, before, k)
    requires Distinct(after) && RemovalsDiffer(after) && TablesAre(after, k) && RemovalsLast(after)
    requires forall c :: c in after <==> c in before || ClassCalls(existing[j], target[i], c)
    requires SameOrder(after, Partition(before + ClassChanges(existing[j], target[i]), 0, |before + ClassChanges(existing[j], target[i])|))
    ensures ListedUpTo(existing, target, i + 1, after, k)
  {
    hide SameOrder, Listed, Partition, ClassChanges, Distinct, RemovalsDiffer, TablesAre, RemovalsLast;
    OrderOfBoth(existing, target, i, j, before, after);
    forall c
      ensures ClassCalls(existing[j], target[i], c) <==>
                (!c.AddTable? && Calls(existing, target, c) && c.cls.name == target[i].name)
    {
      if c.cls.name == target[i].name {
        CallsOfClass(existing, target, c, existing[j], target[i]);
      }
    }
    forall c
      ensures c in after <==> (c.AddTable? && Calls(existing, target, c)) || ColumnsCalled(existing, target, i + 1, c)
    {
      OneMoreClass(existing, target, i, c);
      hide ClassCalls, Calls, ColumnsCalled;
    }
  }

  lemma OrderOfBoth(existing: Schema, target: Schema, i: nat, j: nat, before: seq<SchemaChange>, after: seq<SchemaChange>)
    requires Sorted(existing) && i < |target| && j < |existing| && existing[j].name == target[i].name
    requires SameOrder(before, Listed(existing, target, i))
    requires SameOrder(after, Partition(before + ClassChanges(existing[j], target[i]), 0, |before + ClassChanges(existing[j], target[i])|))
    ensures SameOrder(after, Listed(existing, target, i + 1))
  {
    hide ClassChanges, Partition, Sorted;
    ClassIsNamed(existing, j);
    var listed, more := Listed(existing, target, i), ClassChanges(existing[j], target[i]);
    assert SameOrder(before + more, listed + more);
    PartitionKeepsOrder(before + more, listed + more, 0, |before + more|);
  }

  lemma OrderOfNew(existing: Schema, target: Schema, i: nat, before: seq<SchemaChange>)
    requires i < |target| && !HasClass(existing, target[i].name) && SameOrder(before, Listed(existing, target, i))
    ensures SameOrder(before + [AddInitialProperties(target[i])], Listed(existing, target, i + 1))
  {
    assert ClassNamed(existing, target[i].name).None?;
  }

  lemma ListedNew(existing: Schema, target: Schema, i: nat, before: seq<SchemaChange>, k: nat)
    requires Sorted(target) && i < |target| && !HasClass(existing, target[i].name)
    requires ListedUpTo(existing, target, i, before, k)
    ensures ListedUpTo(existing, target, i + 1, before + [AddInitialProperties(target[i])], k)
  {
    var a := AddInitialProperties(target[i]);
    var after := before + [a];
    NotListedYet(existing, target, i, before, k);
    OrderOfNew(existing, target, i, before);
    AppendDistinct(before, [a]);
    forall c
      ensures c in after <==> (c.AddTable? && Calls(existing, target, c)) || ColumnsCalled(existing, target, i + 1, c)
    {
      OneMoreClass(existing, target, i, c);
      if c.cls.name == target[i].name {
        CallsOfNewClass(existing, target, c, target[i]);
      }
      hide Calls, ColumnsCalled;
    }
    forall x | 0 <= x < |before| && before[x].RemoveProperty?
      ensures before[x].cls.name != a.cls.name
    {
      assert before[x] in before;
    }
  }

  lemma TablesListed(existing: Schema, target: Schema, changes: seq<SchemaChange>)
    requires Distinct(changes) && TablesAre(changes, |changes|)
    requires forall c :: c in changes <==> c.AddTable? && Calls(existing, target, c)
    requires changes == TableChanges(existing, target, |target|)
    ensures ListedUpTo(existing, target, 0, changes, |changes|)
  {
    hide Calls;
  }

  lemma AllListed(existing: Schema, target: Schema, changes: seq<SchemaChange>, k: nat)
    requires ListedUpTo(existing, target, |target|, changes, k)
    ensures IsDiff(existing, target, changes) && InOrder(existing, target, changes)
  {
    assert target[..|target|] == target;
    forall c
      ensures Calls(existing, target, c) ==> HasClass(target, c.cls.name)
    {
      if !HasClass(target, c.cls.name) {
        CallsOfOldClass(existing, target, c, c.cls.name);
      }
    }
    hide Calls;
  }

  /**
   * The comparison lists exactly the changes called for, each once, in an order in which they can be carried out; and
   * but for the removals, which may have equal columns in different classes, the order is fixed by the two schemas.
   */
  method Compare(existing: Schema, target: Schema) returns (changes: seq<SchemaChange>)
    requires Sorted(existing) && Sorted(target)
    requires forall e :: e in existing ==> UniqueNames(e) && ColumnsDiffer(e)
    requires forall o :: o in target ==> UniqueNames(o)
    ensures IsDiff(existing, target, changes) && InOrder(existing, target, changes)
  {
    hide Less, Sorted, ListedUpTo, UniqueNames, ColumnsDiffer, Aligned, HasClass, Distinct, TablesAre, IsDiff, InOrder,
         TableChanges, Calls;
    changes := CompareTables(existing, target);
    ghost var k := |changes|;
    TablesListed(existing, target, changes);
    NothingPassed(target, existing);
    var i, j := 0, 0;
    while i < |target| && j < |existing|
      invariant i <= |target| && j <= |existing| && Aligned(target, i, existing, j)
      invariant ListedUpTo(existing, target, i, changes, k)
      decreases |target| - i + |existing| - j
    {
      LessIsTotal(target[i].name, existing[j].name);
      NotListedYet(existing, target, i, changes, k);
      if target[i].name == existing[j].name {
        AlignedBoth(target, i, existing, j);
        changes := CompareBoth(existing, target, i, j, changes, k);
        i, j := i + 1, j + 1;
      } else if Less(target[i].name, existing[j].name) {
        AlignedAbsent(target, i, existing, j);
        ListedNew(existing, target, i, changes, k);
        changes := changes + [AddInitialProperties(target[i])];
        i := i + 1;
      } else {
        AlignedPassed(target, i, existing, j);
        j := j + 1;
      }
    }
    while i < |target|
      invariant i <= |target| && Aligned(target, i, existing, j) && j <= |existing| && (i < |target| ==> j == |existing|)
      invariant ListedUpTo(existing, target, i, changes, k)
    {
      AlignedAbsent(target, i, existing, j);
      ListedNew(existing, target, i, changes, k);
      changes := changes + [AddInitialProperties(target[i])];
      i := i + 1;
    }
    AllListed(existing, target, changes, k);
  }

  method CompareBoth(existing: Schema, target: Schema, i: nat, j: nat, start: seq<SchemaChange>, ghost k: nat)
    returns (changes: seq<SchemaChange>)
    requires Sorted(existing) && Sorted(target) && i < |target| && j < |existing| && existing[j].name == target[i].name
    requires UniqueNames(existing[j]) && ColumnsDiffer(existing[j]) && UniqueNames(target[i])
    requires ListedUpTo(existing, target, i, start, k)
    ensures ListedUpTo(existing, target, i + 1, changes, k)
  {
    NotListedYet(existing, target, i, start, k);
    assert HasClass(existing, target[i].name) by {
      assert existing[j] in existing;
    }
    changes := CompareClass(existing[j], target[i], start, k);
    ListedBoth(existing, target, i, j, start, changes, k);
  }
}
