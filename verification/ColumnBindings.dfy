/** After an update every declared property has a column, and the schema that is handed out knows where it is. */
module ColumnBindings {
  import opened Options
  import opened Schemas
  import opened Tables
  import opened TableUpgrades
  import opened ClassUpgrades
  import opened SinglePass
  import opened Groups
  import opened Upgrades
  import opened UpdateModes
  import opened ObjectStores
  import opened Refusals
  import opened ColumnCopies

  /** Every class of the target has a table, and every persisted property of it a column. */
  ghost predicate EverythingThere(g: GroupState, t: Schema) {
    forall o :: o in t ==> o.name in g.tables && HasAllColumns(g.tables[o.name], o)
  }

  ghost predicate HasAllColumns(tb: Table, o: ObjectSchema) {
    forall q :: q in o.persisted ==> HasColumn(tb.columns, q.name)
  }

  /** The schema is the target but for the columns, which are those of the names. */
  ghost predicate PointsAtColumns(result: Schema, t: Schema, g: GroupState) {
    |result| == |t| && forall k :: 0 <= k < |t| ==> ClassPoints(result[k], t[k], g)
  }

  ghost predicate ClassPoints(r: ObjectSchema, o: ObjectSchema, g: GroupState) {
    && r == o.(persisted := r.persisted, computed := r.computed)
    && UpToColumns(r.persisted, o.persisted) && UpToColumns(r.computed, o.computed)
    && o.name in g.tables
    && forall j :: 0 <= j < |r.persisted| ==>
         InTable(g.tables[o.name], r.persisted[j].tableColumn)
         && g.tables[o.name].columns[r.persisted[j].tableColumn].name == r.persisted[j].name
  }

  // ----- every column is there -----

  lemma NothingMissingIsThere(g: GroupState, s: Schema, t: Schema)
    requires IsSchemaOf(g, s) && !SomethingMissing(s, t)
    ensures EverythingThere(g, t)
  {
    hide ReadClass, DeclaresPersisted;
    forall o | o in t
      ensures o.name in g.tables && HasAllColumns(g.tables[o.name], o)
    {
      assert HasClass(s, o.name);
      var e :| e in s && e.name == o.name;
      ReadHasAll(g, e, o);
    }
  }

  lemma ReadHasAll(g: GroupState, e: ObjectSchema, o: ObjectSchema)
    requires o.name in g.tables && e == ReadClass(o.name, g.tables[o.name], PkOf(g, o.name))
    requires forall q :: q in o.persisted ==> DeclaresPersisted(e, q.name)
    ensures HasAllColumns(g.tables[o.name], o)
  {
    forall q | q in o.persisted
      ensures HasColumn(g.tables[o.name].columns, q.name)
    {
      assert DeclaresPersisted(e, q.name);
      var p :| p in e.persisted && p.name == q.name;
      var i :| 0 <= i < |e.persisted| && e.persisted[i] == p;
      assert g.tables[o.name].columns[i].name == q.name;
    }
  }

  /** A single pass that loses an index still makes every column. */
  lemma CreatedClassHasAll(g: GroupState, s: Schema, t: Schema, cs: seq<SchemaChange>, o: ObjectSchema)
    requires Planned(g, s, t, cs) && o in t
    ensures o.name in Create(g, cs).tables && HasAllColumns(TableFor(Create(g, cs), o.name), o)
  {
    PlanNames(g, s, t, cs);
    TargetIsDeclarable(t, o);
    var n := o.name;
    if e :| e in s && e.name == n {
      DiffOfClass(s, t, cs, e, o);
      assert TableOk(g.tables[n]);
      CreatedTableHasAll(n, g.tables[n], PkOf(g, n), o, cs);
    } else {
      NewClassIsServed(g, s, t, cs, o);
    }
  }

  lemma CreatedTableHasAll(name: string, t0: Table, pk: string, t: ObjectSchema, cs: seq<SchemaChange>)
    requires TableOk(t0) && ClassDeclarable(t) && Distinct(cs) && RemovalsLast(cs)
    requires ClassDiff(ReadClass(name, t0, pk), t, cs)
    ensures HasAllColumns(Created(t0, cs, name), t)
  {
    CreatedExtends(name, t0, pk, t, cs);
    CreatedIsBuiltLessRemoved(t0, cs, name);
    var cols := Rebuilt(t0, cs, name, Building).columns;
    hide Created, Rebuilt, Removed, ClassDeclarable, ClassDiff, Survivors, Extends;
    forall q | q in t.persisted
      ensures HasColumn(Created(t0, cs, name).columns, q.name)
    {
      var i := DeclaredIsExtended(name, t0, pk, t, cs, cols, q);
      SurvivorIsColumn(cols, Removed(cs, name), i);
    }
  }

  /** All that a single pass can leave to do are index changes. */
  lemma CreatedCallsOnlyIndexes(g: GroupState, s: Schema, t: Schema, cs: seq<SchemaChange>, s': Schema, c: SchemaChange)
    requires Planned(g, s, t, cs) && IsSchemaOf(Create(g, cs), s') && Calls(s', t, c)
    ensures c.AddIndex? || c.RemoveIndex?
  {
    var r := Create(g, cs);
    hide Planned, Create, Build, TypesFit, TableOk;
    forall o | o in t
      ensures o.name in r.tables && TypesFit(r.tables[o.name], o) && HasAllColumns(r.tables[o.name], o)
      ensures PkOf(r, o.name) == o.primaryKey
    {
      CreatedClassHasAll(g, s, t, cs, o);
      CreatedClassIsOk(g, s, t, cs, o);
      CreatedClassIsServed(g, s, t, cs, o);
    }
    PlanTarget(g, s, t, cs);
    if !c.AddTable? && !c.AddInitialProperties? {
      var e, o :| e in s' && o in t && e.name == o.name && ClassCalls(e, o, c);
      TargetIsDeclarable(t, o);
      hide ClassCalls, ClassDeclarable;
      TypedClassCalls(o.name, r.tables[o.name], o, c);
    }
  }

  lemma TypedColumnKeepsType(col: Column, i: nat, t: ObjectSchema)
    requires FitsType(col, t) && ClassDeclarable(t)
    ensures var p := PropertyOf(col, i, t.primaryKey);
            Kept(t, p) && p.typ.nullable == Counterpart(t, p).typ.nullable
  {
    var p := PropertyOf(col, i, t.primaryKey);
    assert !Dropped(t, p);
    NotDroppedIsPersisted(t, p);
    var q := Counterpart(t, p);
    assert Declarable(q);
    hide ObjectSchema.PropertyForName, ObjectSchema.PropertyIsComputed;
    CreatedTypeIsRead(q);
  }

  lemma TypedClassCalls(name: string, tb: Table, t: ObjectSchema, c: SchemaChange)
    requires TypesFit(tb, t) && HasAllColumns(tb, t) && ClassDeclarable(t)
    requires ClassCalls(ReadClass(name, tb, t.primaryKey), t, c)
    ensures c.AddIndex? || c.RemoveIndex?
  {
    var e := ReadClass(name, tb, t.primaryKey);
    forall q | q in t.persisted
      ensures e.PropertyForName(q.name).Some?
    {
      var i :| 0 <= i < |tb.columns| && tb.columns[i].name == q.name;
      assert e.persisted[i] in e.persisted;
    }
    forall p | p in e.persisted
      ensures Kept(t, p) && p.typ.nullable == Counterpart(t, p).typ.nullable
    {
      var i :| 0 <= i < |tb.columns| && e.persisted[i] == p;
      TypedColumnKeepsType(tb.columns[i], i, t);
    }
    hide ObjectSchema.PropertyForName, ObjectSchema.PropertyIsComputed, TypesFit, ClassDeclarable, Property.RequiresIndex;
  }

  // ----- where the columns are -----

  lemma {:induction false} WithColumnsAt(g: GroupState, t: Schema, k: nat)
    requires k < |t|
    ensures |WithColumns(g, t)| == |t|
    ensures WithColumns(g, t)[k] ==
              if t[k].name in g.tables then t[k].(persisted := Pointed(g.tables[t[k].name], t[k].persisted)) else t[k]
  {
    var last := |t| - 1;
    if k < last {
      WithColumnsAt(g, t[..last], k);
    } else if last > 0 {
      WithColumnsAt(g, t[..last], 0);
    }
  }

  lemma {:induction false} PointedAt(tb: Table, ps: seq<Property>, k: nat)
    requires k < |ps|
    ensures |Pointed(tb, ps)| == |ps|
    ensures Pointed(tb, ps)[k] == ps[k].(tableColumn := ColumnIndex(tb.columns, ps[k].name))
  {
    var last := |ps| - 1;
    if k < last {
      PointedAt(tb, ps[..last], k);
    } else if last > 0 {
      PointedAt(tb, ps[..last], 0);
    }
  }

  lemma {:induction false} PointedLength(tb: Table, ps: seq<Property>)
    ensures |Pointed(tb, ps)| == |ps|
  {
    if ps != [] {
      PointedAt(tb, ps, 0);
    }
  }

  /** Looking the columns up by name, as after a change to the file. */
  lemma WithColumnsPoint(g: GroupState, t: Schema)
    requires EverythingThere(g, t)
    ensures PointsAtColumns(WithColumns(g, t), t, g)
  {
    hide WithColumns, Pointed, ColumnIndex;
    if t == [] {
      NoClasses(g);
    } else {
      WithColumnsAt(g, t, 0);
    }
    forall k | 0 <= k < |t|
      ensures ClassPoints(WithColumns(g, t)[k], t[k], g)
    {
      WithColumnsAt(g, t, k);
      assert t[k] in t;
      PointedClass(g.tables[t[k].name], t[k], g);
    }
  }

  lemma NoClasses(g: GroupState)
    ensures WithColumns(g, []) == []
  {
  }

  lemma PointedClass(tb: Table, o: ObjectSchema, g: GroupState)
    requires o.name in g.tables && g.tables[o.name] == tb && HasAllColumns(tb, o)
    ensures ClassPoints(o.(persisted := Pointed(tb, o.persisted)), o, g)
  {
    hide Pointed;
    PointedLength(tb, o.persisted);
    forall j | 0 <= j < |o.persisted|
      ensures var p := Pointed(tb, o.persisted)[j];
              && p == o.persisted[j].(tableColumn := p.tableColumn)
              && InTable(tb, p.tableColumn) && tb.columns[p.tableColumn].name == p.name
    {
      PointedAt(tb, o.persisted, j);
      assert HasColumn(tb.columns, o.persisted[j].name);
      var i :| 0 <= i < |tb.columns| && tb.columns[i].name == o.persisted[j].name;
    }
  }

  /** Copying them from the schema that was read, as when nothing has to be written. */
  lemma CopiedPoint(g: GroupState, s: Schema, t: Schema, result: Schema)
    requires GroupOk(g) && IsSchemaOf(g, s) && Target(t) && EverythingThere(g, t)
    requires |result| == |t| && forall k :: 0 <= k < |t| ==> result[k] == Copied(t[k], s)
    ensures PointsAtColumns(result, t, g)
  {
    forall k | 0 <= k < |t|
      ensures ClassPoints(result[k], t[k], g)
    {
      var o := t[k];
      assert o in t && WellDeclared(o) && HasClass(s, o.name);
      var e := ClassNamed(s, o.name).value;
      assert TableOk(g.tables[o.name]);
      hide GroupOk, Target, TableOk, WellDeclared, EverythingThere, WithColumnsOf, ClassNamed;
      CopiedClass(g, e, o);
    }
  }

  lemma CopiedClass(g: GroupState, e: ObjectSchema, o: ObjectSchema)
    requires o.name in g.tables && TableOk(g.tables[o.name]) && UniqueNames(o) && HasAllColumns(g.tables[o.name], o)
    requires e == ReadClass(o.name, g.tables[o.name], PkOf(g, o.name))
    ensures ClassPoints(WithColumnsOf(o, e.persisted), o, g)
  {
    hide WithColumnsOf, ReadClass, TableOk, UniqueNames, HasAllColumns, UpToColumns;
    var tb, r := g.tables[o.name], WithColumnsOf(o, e.persisted);
    if o.persisted == [] {
      NoPersisted(o, e.persisted);
    } else {
      CopiedColumn(tb, PkOf(g, o.name), o, 0);
      forall j | 0 <= j < |r.persisted|
        ensures InTable(tb, r.persisted[j].tableColumn) && tb.columns[r.persisted[j].tableColumn].name == r.persisted[j].name
      {
        CopiedColumn(tb, PkOf(g, o.name), o, j);
      }
    }
  }

  lemma CopiedColumn(tb: Table, pk: string, o: ObjectSchema, j: nat)
    requires TableOk(tb) && UniqueNames(o) && HasAllColumns(tb, o) && j < |o.persisted|
    ensures var r := WithColumnsOf(o, ReadClass(o.name, tb, pk).persisted);
            && r == o.(persisted := r.persisted, computed := r.computed)
            && UpToColumns(r.persisted, o.persisted) && UpToColumns(r.computed, o.computed)
            && |r.persisted| == |o.persisted|
            && InTable(tb, r.persisted[j].tableColumn) && tb.columns[r.persisted[j].tableColumn].name == r.persisted[j].name
  {
    hide WithColumnsOf;
    var e := ReadClass(o.name, tb, pk);
    ColumnsAreCopied(o, e.persisted, j);
    assert HasColumn(tb.columns, o.persisted[j].name);
    var i :| 0 <= i < |tb.columns| && tb.columns[i].name == o.persisted[j].name;
    assert e.persisted[i] in e.persisted;
  }

  lemma {:induction false} NoPersisted(o: ObjectSchema, ps: seq<Property>)
    requires o.persisted == []
    ensures var r := WithColumnsOf(o, ps);
            && r == o.(persisted := [], computed := r.computed)
            && UpToColumns(r.persisted, o.persisted) && UpToColumns(r.computed, o.computed)
  {
    if ps != [] {
      NoPersisted(o, ps[..|ps| - 1]);
      ColumnSetAmong(WithColumnsOf(o, ps[..|ps| - 1]).computed, ps[|ps| - 1].name, ps[|ps| - 1].tableColumn);
    }
  }

  // ----- reading the declaration back -----

  /** The class that is read has the declared properties and no others, and the declared primary key. */
  ghost predicate ReadsAs(e: ObjectSchema, o: ObjectSchema) {
    && e.name == o.name && e.primaryKey == o.primaryKey && e.computed == []
    && (forall q :: q in o.persisted ==> exists p :: p in e.persisted && SameProperty(p, q))
    && (forall p :: p in e.persisted ==> exists q :: q in o.persisted && SameProperty(p, q))
  }

  lemma PersistedWhenNotComputed(o: ObjectSchema, q: Property)
    requires (q in o.persisted || q in o.computed) && !o.PropertyIsComputed(q)
    ensures q in o.persisted
  {
    assert SameProperty(q, q);
  }

  lemma FittingIsReadBack(col: Column, i: nat, t: Schema, o: ObjectSchema) returns (q: Property)
    requires Target(t) && o in t && Fits(col, o)
    ensures q in o.persisted && q.name == col.name && SameProperty(PropertyOf(col, i, o.primaryKey), q)
  {
    TargetIsDeclarable(t, o);
    assert WellDeclared(o) && ClassOk(t, o);
    q := o.PropertyForName(col.name).value;
    PersistedWhenNotComputed(o, q);
    assert PropertyOk(t, o.name, q) && Declarable(q);
    hide ObjectSchema.PropertyForName, ObjectSchema.PropertyIsComputed, ClassOk;
    CreatedTypeIsRead(q);
  }

  /** A class that is read from a table which serves its declaration has just the declared properties. */
  lemma ServedIsReadBack(tb: Table, t: Schema, o: ObjectSchema)
    requires Target(t) && o in t && Serves(tb, o)
    ensures ReadsAs(ReadClass(o.name, tb, o.primaryKey), o)
  {
    hide Target, TableOk, Fits, SameProperty;
    var e := ReadClass(o.name, tb, o.primaryKey);
    forall p | p in e.persisted
      ensures exists q :: q in o.persisted && SameProperty(p, q)
    {
      var i :| 0 <= i < |e.persisted| && e.persisted[i] == p;
      var q := FittingIsReadBack(tb.columns[i], i, t, o);
    }
    forall q | q in o.persisted
      ensures exists p :: p in e.persisted && SameProperty(p, q)
    {
      var i :| 0 <= i < |tb.columns| && tb.columns[i].name == q.name;
      var q' := FittingIsReadBack(tb.columns[i], i, t, o);
      OneOfName(t, o, q, q');
      assert e.persisted[i] in e.persisted;
    }
  }

  lemma OneOfName(t: Schema, o: ObjectSchema, p: Property, q: Property)
    requires Target(t) && o in t && p in o.persisted && q in o.persisted && p.name == q.name
    ensures p == q
  {
    assert WellDeclared(o);
  }

  /** After a version bump the schema that is read back has the declared classes, property by property. */
  lemma UpgradeIsReadBack(g: GroupState, s: Schema, t: Schema, cs: seq<SchemaChange>, s': Schema, o: ObjectSchema)
    requires Planned(g, s, t, cs) && Upgrade(g, cs).Done? && IsSchemaOf(Upgrade(g, cs).group, s') && o in t
    ensures exists e :: e in s' && ReadsAs(e, o)
  {
    UpgradedClassIsServed(g, s, t, cs, o);
    PlanTarget(g, s, t, cs);
    ReadBack(Upgrade(g, cs).group, s', o.name);
    hide Upgrade, ReadsAs, ReadClass, Serves, Planned, Target;
    ServedIsReadBack(Upgrade(g, cs).group.tables[o.name], t, o);
  }
}
