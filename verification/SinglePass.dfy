/** Carrying out all changes in one pass, as for a file without a schema version: when an index change is undone. */
module SinglePass {
  import opened Options
  import opened Schemas
  import opened Tables
  import opened TableUpgrades
  import opened ClassUpgrades

  /** The table after one pass that does everything, removals included. */
  function Created(t0: Table, cs: seq<SchemaChange>, n: string): Table {
    Passed(t0, cs, n, Building)
  }

  /**
   * A rewrite of a column gives the new column the index of the old property, so it undoes an index change
   * that came before it, unless the old property is indexed for being the primary key or cannot be indexed.
   */
  predicate Undoes(make: SchemaChange, change: SchemaChange) {
    && (make.MakePropertyNullable? || make.MakePropertyRequired?)
    && (|| (change.AddIndex? && !change.property.isPrimary)
        || (change.RemoveIndex? && !change.property.typ.isArray))
    && change.cls.name == make.cls.name && change.property == make.property
  }

  ghost predicate UndoneAt(cs: seq<SchemaChange>, j: int, k: int) {
    0 <= j < k < |cs| && Undoes(cs[k], cs[j])
  }

  /** Some index change of the class is undone by a later rewrite. */
  ghost predicate IndexUndone(cs: seq<SchemaChange>, n: string) {
    exists j, k :: UndoneAt(cs, j, k) && About(cs[j], n)
  }

  ghost predicate ColumnUndone(cs: seq<SchemaChange>, n: string, p: Property) {
    exists j, k :: UndoneAt(cs, j, k) && About(cs[j], n) && cs[j].property == p
  }

  lemma RewrittenIndex(e: ObjectSchema, t: ObjectSchema, col: Column, i: nat, pk: string, rows: nat)
    requires ClassDeclarable(t) && ColumnOk(col, rows) && !Dropped(t, PropertyOf(col, i, pk))
    requires var p := PropertyOf(col, i, pk); TypeChange(e, t, p).Some? && IndexChange(e, t, p).Some?
    ensures var p := PropertyOf(col, i, pk);
            ColumnAfter(col, rows, TypeChange(e, t, p).value).indexed == Counterpart(t, p).RequiresIndex()
            <==> !Undoes(TypeChange(e, t, p).value, IndexChange(e, t, p).value)
    ensures var after := ColumnAfter(col, rows, TypeChange(e, t, PropertyOf(col, i, pk)).value);
            after.indexed ==> after.core.Scalar?
  {
    var p := PropertyOf(col, i, pk);
    NotDroppedIsPersisted(t, p);
    var q := Counterpart(t, p);
    assert Declarable(q);
    hide ObjectSchema.PropertyForName, ObjectSchema.PropertyIsComputed, ClassDeclarable;
  }

  /** With one rewrite and one index change, the later of the two decides. */
  lemma LaterDecides(col: Column, i: nat, rows: nat, cs: seq<SchemaChange>, n: string,
                     tc: SchemaChange, ic: SchemaChange) returns (a: nat, b: nat)
    requires ColumnChanges(Some(tc), Some(ic), n, i) && OnlyTouches(cs, n, i, Some(tc), Some(ic))
    requires tc in cs && ic in cs && Distinct(cs)
    ensures a < |cs| && b < |cs| && cs[a] == ic && cs[b] == tc
    ensures ColumnRebuilt(col, i, rows, cs, n, Building).indexed
            == (if a < b then ColumnAfter(col, rows, tc).indexed else ic.AddIndex?)
  {
    a :| 0 <= a < |cs| && cs[a] == ic;
    b :| 0 <= b < |cs| && cs[b] == tc;
    LastTouchDecides(col, i, rows, cs, n, Building, if a < b then b else a);
  }

  lemma OnlyChangeDecides(col: Column, i: nat, rows: nat, cs: seq<SchemaChange>, n: string, ic: SchemaChange)
    requires ColumnChanges(None, Some(ic), n, i) && OnlyTouches(cs, n, i, None, Some(ic))
    requires ic in cs && Distinct(cs)
    ensures ColumnRebuilt(col, i, rows, cs, n, Building).indexed == ic.AddIndex?
  {
    var a :| 0 <= a < |cs| && cs[a] == ic;
    LastTouchDecides(col, i, rows, cs, n, Building, a);
  }

  lemma UndoneIsKnown(name: string, t0: Table, pk: string, t: ObjectSchema, cs: seq<SchemaChange>, i: nat)
    requires i < |t0.columns| && ClassDiff(ReadClass(name, t0, pk), t, cs)
    requires ColumnUndone(cs, name, ReadClass(name, t0, pk).persisted[i])
    ensures var e := ReadClass(name, t0, pk); var p := e.persisted[i];
            exists j, k :: UndoneAt(cs, j, k) && Some(cs[j]) == IndexChange(e, t, p) && Some(cs[k]) == TypeChange(e, t, p)
  {
    var e := ReadClass(name, t0, pk);
    var p := e.persisted[i];
    var j, k :| UndoneAt(cs, j, k) && About(cs[j], name) && cs[j].property == p;
    assert cs[j] in cs && cs[k] in cs;
    assert About(cs[k], name);
    hide ObjectSchema.PropertyForName, ObjectSchema.PropertyIsComputed;
    ChangesOfProperty(e, t, p, cs[j]);
    ChangesOfProperty(e, t, p, cs[k]);
  }

  /** After one pass a kept column has the right type, and the right index exactly when no index change was undone. */
  lemma CreatedColumnFits(name: string, t0: Table, pk: string, t: ObjectSchema, cs: seq<SchemaChange>, i: nat)
    requires i < |t0.columns| && ColumnOk(t0.columns[i], t0.rows) && ClassDeclarable(t) && Distinct(cs)
    requires var e := ReadClass(name, t0, pk); ClassDiff(e, t, cs) && !Dropped(t, e.persisted[i])
    ensures var e := ReadClass(name, t0, pk); var col := t0.columns[i];
            var built := ColumnRebuilt(col, i, t0.rows, cs, name, Building);
            && built.name == col.name && FitsType(built, t) && ColumnOk(built, t0.rows)
            && (built.indexed == Counterpart(t, e.persisted[i]).RequiresIndex() <==> !ColumnUndone(cs, name, e.persisted[i]))
  {
    var e, col := ReadClass(name, t0, pk), t0.columns[i];
    var p := e.persisted[i];
    var tc, ic := TypeChange(e, t, p), IndexChange(e, t, p);
    hide ObjectSchema.PropertyForName, ObjectSchema.PropertyIsComputed, ClassDeclarable, NewColumn, ColumnAfter,
         KeepsCells, ClassDiff, ColumnUndone, Distinct, Undoes;
    TouchesAreKnown(name, t0, pk, t, cs, i);
    CalledChangesAreListed(e, t, cs, p);
    ContentsRebuilt(col, i, t0.rows, cs, name, tc, ic);
    RewriteFits(e, t, col, i, pk, t0.rows);
    if ColumnUndone(cs, name, p) {
      UndoneIsKnown(name, t0, pk, t, cs, i);
    }
    if ic.None? {
      IndexRebuilt(col, i, t0.rows, cs, name, tc);
    } else if tc.None? {
      OnlyChangeDecides(col, i, t0.rows, cs, name, ic.value);
    } else {
      BothChanges(name, t0, pk, t, cs, i);
    }
    TypeFittingIsOk(ColumnRebuilt(col, i, t0.rows, cs, name, Building), t, t0.rows);
  }

  lemma TypeFittingIsOk(col: Column, t: ObjectSchema, rows: nat)
    requires FitsType(col, t) && ClassDeclarable(t) && |col.cells| == rows && NullsFit(col)
    requires col.indexed ==> col.core.Scalar? || t.PropertyForName(col.name).value.RequiresIndex()
    ensures ColumnOk(col, rows)
  {
    var q := t.PropertyForName(col.name).value;
    assert q in t.computed ==> SameProperty(q, q);
    assert Declarable(q);
  }

  lemma BothChanges(name: string, t0: Table, pk: string, t: ObjectSchema, cs: seq<SchemaChange>, i: nat)
    requires i < |t0.columns| && ColumnOk(t0.columns[i], t0.rows) && ClassDeclarable(t) && Distinct(cs)
    requires var e := ReadClass(name, t0, pk); ClassDiff(e, t, cs) && !Dropped(t, e.persisted[i])
    requires var e := ReadClass(name, t0, pk); TypeChange(e, t, e.persisted[i]).Some? && IndexChange(e, t, e.persisted[i]).Some?
    ensures var e := ReadClass(name, t0, pk); var col := t0.columns[i];
            var built := ColumnRebuilt(col, i, t0.rows, cs, name, Building);
            && (built.indexed == Counterpart(t, e.persisted[i]).RequiresIndex() <==> !ColumnUndone(cs, name, e.persisted[i]))
            && (built.indexed ==> built.core.Scalar? || Counterpart(t, e.persisted[i]).RequiresIndex())
  {
    var e, col := ReadClass(name, t0, pk), t0.columns[i];
    var p := e.persisted[i];
    var tc, ic := TypeChange(e, t, p), IndexChange(e, t, p);
    hide ObjectSchema.PropertyForName, ObjectSchema.PropertyIsComputed, ClassDeclarable, NewColumn, ColumnAfter,
         ClassDiff, Distinct;
    TouchesAreKnown(name, t0, pk, t, cs, i);
    CalledChangesAreListed(e, t, cs, p);
    var a, b := LaterDecides(col, i, t0.rows, cs, name, tc.value, ic.value);
    ContentsRebuilt(col, i, t0.rows, cs, name, tc, ic);
    RewrittenIndex(e, t, col, i, pk, t0.rows);
    if ColumnUndone(cs, name, p) {
      UndoneIsKnown(name, t0, pk, t, cs, i);
      var j, k :| UndoneAt(cs, j, k) && Some(cs[j]) == ic && Some(cs[k]) == tc;
      SamePlace(cs, j, a);
      SamePlace(cs, k, b);
    } else {
      assert !UndoneAt(cs, a, b);
    }
  }

  lemma SamePlace(cs: seq<SchemaChange>, j: nat, a: nat)
    requires Distinct(cs) && j < |cs| && a < |cs| && cs[j] == cs[a]
    ensures j == a
  {
  }

  lemma CreatedIsBuiltLessRemoved(t0: Table, cs: seq<SchemaChange>, n: string)
    requires RemovalsLast(cs) && InRange(cs, n, |t0.columns|)
    ensures Created(t0, cs, n) == Table(Survivors(Rebuilt(t0, cs, n, Building).columns, Removed(cs, n)), t0.rows)
  {
    PassedIsRebuiltLessRemoved(t0, cs, n, Building);
  }

  lemma OldColumnCreated(name: string, t0: Table, pk: string, t: ObjectSchema, cs: seq<SchemaChange>, i: nat)
    requires TableOk(t0) && ClassDeclarable(t) && i < |t0.columns| && Distinct(cs)
    requires ClassDiff(ReadClass(name, t0, pk), t, cs)
    ensures var col, p := ColumnRebuilt(t0.columns[i], i, t0.rows, cs, name, Building), ReadClass(name, t0, pk).persisted[i];
            && col.name == t0.columns[i].name
            && (i !in Removed(cs, name) ==> FitsType(col, t) && ColumnOk(col, t0.rows))
            && (i !in Removed(cs, name) && !ColumnUndone(cs, name, p) ==> Fits(col, t))
            && (i !in Removed(cs, name) && ColumnUndone(cs, name, p) ==> !Fits(col, t))
  {
    RemovedAreDropped(name, t0, pk, t, cs);
    var p := ReadClass(name, t0, pk).persisted[i];
    hide ClassDeclarable, ClassDiff, ColumnUndone, Distinct, Removed;
    if Dropped(t, p) {
      TouchesAreKnown(name, t0, pk, t, cs, i);
      UntouchedStays(t0.columns[i], i, t0.rows, cs, name, Building);
    } else {
      CreatedColumnFits(name, t0, pk, t, cs, i);
    }
  }

  lemma CreatedExtends(name: string, t0: Table, pk: string, t: ObjectSchema, cs: seq<SchemaChange>)
    requires TableOk(t0) && ClassDeclarable(t) && Distinct(cs) && ClassDiff(ReadClass(name, t0, pk), t, cs)
    ensures InRange(cs, name, |t0.columns|) && Extends(Rebuilt(t0, cs, name, Building).columns, t0, cs, name)
    ensures forall i :: 0 <= i < |t0.columns| ==>
              Rebuilt(t0, cs, name, Building).columns[i] == ColumnRebuilt(t0.columns[i], i, t0.rows, cs, name, Building)
  {
    ChangesAreInRange(name, t0, pk, t, cs);
    RebuiltShape(t0, cs, name, Building);
    forall i | 0 <= i < |t0.columns|
      ensures ColumnRebuilt(t0.columns[i], i, t0.rows, cs, name, Building).name == t0.columns[i].name
    {
      OldColumnCreated(name, t0, pk, t, cs, i);
    }
  }

  /** Whether or not an index was lost, the table is well formed and its columns have the declared types. */
  lemma CreatedIsOk(name: string, t0: Table, pk: string, t: ObjectSchema, cs: seq<SchemaChange>)
    requires TableOk(t0) && ClassDeclarable(t) && Distinct(cs) && RemovalsLast(cs)
    requires ClassDiff(ReadClass(name, t0, pk), t, cs)
    ensures TableOk(Created(t0, cs, name)) && TypesFit(Created(t0, cs, name), t)
  {
    CreatedExtends(name, t0, pk, t, cs);
    CreatedIsBuiltLessRemoved(t0, cs, name);
    var cols := Rebuilt(t0, cs, name, Building).columns;
    forall i | 0 <= i < |t0.columns| && i !in Removed(cs, name)
      ensures FitsType(cols[i], t) && ColumnOk(cols[i], t0.rows)
    {
      OldColumnCreated(name, t0, pk, t, cs, i);
    }
    SurvivorsAreOk(name, t0, pk, t, cs, cols);
  }

  lemma CreatedServes(name: string, t0: Table, pk: string, t: ObjectSchema, cs: seq<SchemaChange>)
    requires TableOk(t0) && ClassDeclarable(t) && Distinct(cs) && RemovalsLast(cs)
    requires ClassDiff(ReadClass(name, t0, pk), t, cs) && !IndexUndone(cs, name)
    ensures Serves(Created(t0, cs, name), t)
  {
    CreatedExtends(name, t0, pk, t, cs);
    CreatedIsBuiltLessRemoved(t0, cs, name);
    var cols := Rebuilt(t0, cs, name, Building).columns;
    forall i | 0 <= i < |t0.columns| && i !in Removed(cs, name)
      ensures Fits(cols[i], t) && ColumnOk(cols[i], t0.rows)
    {
      OldColumnCreated(name, t0, pk, t, cs, i);
      assert !ColumnUndone(cs, name, ReadClass(name, t0, pk).persisted[i]);
    }
    SurvivorsServe(name, t0, pk, t, cs, cols);
  }

  /** A change that is undone is one of a kept column. */
  lemma UndoneColumn(name: string, t0: Table, pk: string, t: ObjectSchema, cs: seq<SchemaChange>) returns (i: nat)
    requires ClassDiff(ReadClass(name, t0, pk), t, cs) && IndexUndone(cs, name)
    ensures i < |t0.columns| && i !in Removed(cs, name)
    ensures ColumnUndone(cs, name, ReadClass(name, t0, pk).persisted[i])
  {
    var e := ReadClass(name, t0, pk);
    var j, k :| UndoneAt(cs, j, k) && About(cs[j], name);
    assert cs[j] in cs;
    assert ClassCalls(e, t, cs[j]);
    i :| 0 <= i < |e.persisted| && e.persisted[i] == cs[j].property;
    RemovedAreDropped(name, t0, pk, t, cs);
  }

  /** Then the class that is read back calls for the index change again. */
  lemma UndoneIsCalledAgain(name: string, t0: Table, pk: string, t: ObjectSchema, cs: seq<SchemaChange>) returns (c: SchemaChange)
    requires TableOk(t0) && ClassDeclarable(t) && Distinct(cs) && RemovalsLast(cs)
    requires ClassDiff(ReadClass(name, t0, pk), t, cs) && IndexUndone(cs, name)
    ensures ClassCalls(ReadClass(name, Created(t0, cs, name), t.primaryKey), t, c)
  {
    CreatedExtends(name, t0, pk, t, cs);
    CreatedIsBuiltLessRemoved(t0, cs, name);
    var i := UndoneColumn(name, t0, pk, t, cs);
    OldColumnCreated(name, t0, pk, t, cs, i);
    var cols, gone := Rebuilt(t0, cs, name, Building).columns, Removed(cs, name);
    SurvivorsAre(cols, gone);
    var k := PositionAfter(i, gone);
    assert Created(t0, cs, name).columns[k] == cols[i];
    c := MisindexedCalls(name, Created(t0, cs, name), k, t);
  }

  lemma MisindexedCalls(name: string, tb: Table, k: nat, t: ObjectSchema) returns (c: SchemaChange)
    requires k < |tb.columns| && FitsType(tb.columns[k], t) && !Fits(tb.columns[k], t) && ClassDeclarable(t)
    ensures ClassCalls(ReadClass(name, tb, t.primaryKey), t, c)
  {
    var e := ReadClass(name, tb, t.primaryKey);
    var p := e.persisted[k];
    NotDroppedIsPersisted(t, p);
    var q := Counterpart(t, p);
    assert Declarable(q);
    CreatedTypeIsRead(q);
    c := if q.RequiresIndex() then AddIndex(e, p) else RemoveIndex(e, p);
    assert p in e.persisted;
  }
}
