/** Why carrying out the changes called for makes a table fit its class. */
module ClassUpgrades {
  import opened Options
  import opened Schemas
  import opened Tables
  import opened TableUpgrades

  /** The list holds, for this class, exactly the changes that its two versions call for. */
  ghost predicate ClassDiff(e: ObjectSchema, t: ObjectSchema, cs: seq<SchemaChange>) {
    forall c :: About(c, e.name) ==> (c in cs <==> ClassCalls(e, t, c))
  }

  /** The change that rewrites the column of a property. */
  function TypeChange(e: ObjectSchema, t: ObjectSchema, p: Property): Option<SchemaChange> {
    if Dropped(t, p) then None
    else
      var q := Counterpart(t, p);
      if TypeDiffers(p, q) then Some(ChangePropertyType(e, p, q))
      else if q.typ.nullable && !p.typ.nullable then Some(MakePropertyNullable(e, p))
      else if !q.typ.nullable && p.typ.nullable then Some(MakePropertyRequired(e, p))
      else None
  }

  /** The change that adds or removes the index of a property. */
  function IndexChange(e: ObjectSchema, t: ObjectSchema, p: Property): Option<SchemaChange> {
    if !Kept(t, p) then None
    else
      var q := Counterpart(t, p);
      if q.RequiresIndex() && !p.isIndexed then Some(AddIndex(e, p))
      else if !q.RequiresIndex() && p.RequiresIndex() then Some(RemoveIndex(e, p))
      else None
  }

  lemma ChangesOfProperty(e: ObjectSchema, t: ObjectSchema, p: Property, c: SchemaChange)
    requires p in e.persisted && IsColumnChange(c) && !c.RemoveProperty? && c.property == p && About(c, e.name)
    ensures ClassCalls(e, t, c) <==> Some(c) == TypeChange(e, t, p) || Some(c) == IndexChange(e, t, p)
  {
    hide ObjectSchema.PropertyForName, ObjectSchema.PropertyIsComputed;
  }

  /** Every touch of column i comes from the property read from that column. */
  ghost predicate OnlyTouches(cs: seq<SchemaChange>, n: string, i: nat, tc: Option<SchemaChange>, ic: Option<SchemaChange>) {
    forall c :: c in cs && About(c, n) && Touches(c, i, Building) ==> Some(c) == tc || Some(c) == ic
  }

  /** The two changes of a column, as far as they concern it. */
  ghost predicate ColumnChanges(tc: Option<SchemaChange>, ic: Option<SchemaChange>, n: string, i: nat) {
    && (tc.Some? ==> About(tc.value, n) && Touches(tc.value, i, Building) && !tc.value.AddIndex? && !tc.value.RemoveIndex?)
    && (ic.Some? ==> About(ic.value, n) && Touches(ic.value, i, Building) && (ic.value.AddIndex? || ic.value.RemoveIndex?))
  }

  lemma TouchesAreKnown(name: string, t0: Table, pk: string, t: ObjectSchema, cs: seq<SchemaChange>, i: nat)
    requires i < |t0.columns|
    requires var e := ReadClass(name, t0, pk); ClassDiff(e, t, cs)
    ensures var e := ReadClass(name, t0, pk); var p := e.persisted[i];
            && OnlyTouches(cs, name, i, TypeChange(e, t, p), IndexChange(e, t, p))
            && ColumnChanges(TypeChange(e, t, p), IndexChange(e, t, p), name, i)
  {
    var e := ReadClass(name, t0, pk);
    var p := e.persisted[i];
    hide ObjectSchema.PropertyForName, ObjectSchema.PropertyIsComputed;
    forall c | c in cs && About(c, name) && Touches(c, i, Building)
      ensures Some(c) == TypeChange(e, t, p) || Some(c) == IndexChange(e, t, p)
    {
      assert ClassCalls(e, t, c);
      assert c.property in e.persisted;
      assert c.property == p;
      ChangesOfProperty(e, t, p, c);
    }
  }

  lemma ChangesAreInRange(name: string, t0: Table, pk: string, t: ObjectSchema, cs: seq<SchemaChange>)
    requires ClassDiff(ReadClass(name, t0, pk), t, cs)
    ensures InRange(cs, name, |t0.columns|)
  {
    var e := ReadClass(name, t0, pk);
    forall c | c in cs && About(c, name) && IsColumnChange(c)
      ensures 0 <= c.property.tableColumn < |t0.columns|
    {
      assert ClassCalls(e, t, c);
      assert c.property in e.persisted;
    }
  }

  // ----- one column through a pass -----

  function Unindexed(c: Column): Column {
    c.(indexed := false)
  }

  /** Only the rewrite affects name, type and cells; when it has run, they are what it leaves. */
  lemma {:induction false} ContentsRebuilt(col: Column, i: nat, rows: nat, cs: seq<SchemaChange>, n: string,
                         tc: Option<SchemaChange>, ic: Option<SchemaChange>)
    requires ColumnChanges(tc, ic, n, i) && OnlyTouches(cs, n, i, tc, ic)
    ensures Unindexed(ColumnRebuilt(col, i, rows, cs, n, Building))
            == Unindexed(if tc.Some? && tc.value in cs then ColumnAfter(col, rows, tc.value) else col)
  {
    if cs != [] {
      var cs0, c := cs[..|cs| - 1], cs[|cs| - 1];
      assert cs == cs0 + [c];
      ContentsRebuilt(col, i, rows, cs0, n, tc, ic);
      hide NewColumn;
    }
  }

  /** The last change that touches the column decides whether it is indexed. */
  lemma {:induction false} LastTouchDecides(col: Column, i: nat, rows: nat, cs: seq<SchemaChange>, n: string, pass: Pass, k: nat)
    requires k < |cs| && About(cs[k], n) && Touches(cs[k], i, pass)
    requires forall j :: k < j < |cs| && About(cs[j], n) ==> !Touches(cs[j], i, pass)
    ensures ColumnRebuilt(col, i, rows, cs, n, pass).indexed == ColumnAfter(col, rows, cs[k]).indexed
  {
    var cs0, c := cs[..|cs| - 1], cs[|cs| - 1];
    if k < |cs| - 1 {
      LastTouchDecides(col, i, rows, cs0, n, pass, k);
    }
  }

  lemma {:induction false} UntouchedStays(col: Column, i: nat, rows: nat, cs: seq<SchemaChange>, n: string, pass: Pass)
    requires forall c :: c in cs && About(c, n) ==> !Touches(c, i, pass)
    ensures ColumnRebuilt(col, i, rows, cs, n, pass) == col
  {
    if cs != [] {
      var cs0, c := cs[..|cs| - 1], cs[|cs| - 1];
      assert cs == cs0 + [c];
      UntouchedStays(col, i, rows, cs0, n, pass);
    }
  }

  /** With no change to its index, a column is indexed as the rewrite leaves it. */
  lemma {:induction false} IndexRebuilt(col: Column, i: nat, rows: nat, cs: seq<SchemaChange>, n: string, tc: Option<SchemaChange>)
    requires ColumnChanges(tc, None, n, i) && OnlyTouches(cs, n, i, tc, None)
    ensures ColumnRebuilt(col, i, rows, cs, n, Building).indexed
            == (if tc.Some? && tc.value in cs then ColumnAfter(col, rows, tc.value).indexed else col.indexed)
  {
    if cs != [] {
      var cs0, c := cs[..|cs| - 1], cs[|cs| - 1];
      assert cs == cs0 + [c];
      IndexRebuilt(col, i, rows, cs0, n, tc);
    }
  }

  /** Bringing indexes up to date changes nothing else, and leaves the column as its index change asks. */
  lemma {:induction false} Reindexed(col: Column, i: nat, rows: nat, cs: seq<SchemaChange>, n: string,
                         tc: Option<SchemaChange>, ic: Option<SchemaChange>)
    requires ColumnChanges(tc, ic, n, i) && OnlyTouches(cs, n, i, tc, ic)
    ensures ColumnRebuilt(col, i, rows, cs, n, Reindexing)
            == col.(indexed := if ic.Some? && ic.value in cs then ic.value.AddIndex? else col.indexed)
  {
    if cs != [] {
      var cs0, c := cs[..|cs| - 1], cs[|cs| - 1];
      assert cs == cs0 + [c];
      Reindexed(col, i, rows, cs0, n, tc, ic);
    }
  }

  // ----- what the changes make of one column -----

  /** The column is what the class wants under its name: right type, and indexed exactly when it has to be. */
  predicate Fits(col: Column, t: ObjectSchema) {
    FitsType(col, t) && col.indexed == t.PropertyForName(col.name).value.RequiresIndex()
  }

  predicate FitsType(col: Column, t: ObjectSchema) {
    var q := t.PropertyForName(col.name);
    q.Some? && !t.PropertyIsComputed(q.value) && col.core == CoreOf(q.value)
  }

  /** A declared property that can be given a column, and only as a plain value an index. */
  predicate Declarable(q: Property) {
    && (q.typ.base == Object ==> q.typ.nullable == !q.typ.isArray)
    && (q.typ.base != Object ==> q.objectType == "")
    && (q.RequiresIndex() ==> CoreOf(q).Scalar?)
    && q.typ.base != LinkingObjects && q.typ.base != Any
  }

  /** What a class must be for its upgrade to work: names that differ, and columns that can be made. */
  ghost predicate ClassDeclarable(t: ObjectSchema) {
    && UniqueNames(t)
    && (forall q :: q in t.persisted ==> Declarable(q))
    && (forall q :: q in t.persisted ==> (q.isPrimary <==> t.primaryKey != "" && q.name == t.primaryKey))
    && (t.primaryKey != "" ==> exists q :: q in t.persisted && q.name == t.primaryKey)
  }

  lemma TargetIsDeclarable(s: Schema, t: ObjectSchema)
    requires Target(s) && t in s
    ensures ClassDeclarable(t)
  {
    assert ClassOk(s, t) && WellDeclared(t);
    forall q | q in t.persisted
      ensures Declarable(q)
    {
      assert PropertyOk(s, t.name, q);
    }
  }

  lemma PersistedIsFound(t: ObjectSchema, q: Property)
    requires UniqueNames(t) && q in t.persisted
    ensures t.PropertyForName(q.name) == Some(q) && !t.PropertyIsComputed(q)
  {
    var r := Lookup(t.persisted, q.name);
    assert r.Some? && r.value == q;
  }

  lemma NotDroppedIsPersisted(t: ObjectSchema, p: Property)
    requires !Dropped(t, p)
    ensures Counterpart(t, p) in t.persisted
  {
    var q := t.PropertyForName(p.name).value;
    if q in t.computed {
      assert SameProperty(q, q);
    }
  }

  /** The column after its rewrite, if it has one. */
  function Rewritten(col: Column, rows: nat, tc: Option<SchemaChange>): Column {
    if tc.Some? then ColumnAfter(col, rows, tc.value) else col
  }

  /** The cells stay unless the type changes or null stops being allowed. */
  predicate KeepsCells(tc: Option<SchemaChange>) {
    tc.None? || (tc.value.MakePropertyNullable? && Copyable(tc.value.property))
  }

  lemma RewriteFits(e: ObjectSchema, t: ObjectSchema, col: Column, i: nat, pk: string, rows: nat)
    requires ClassDeclarable(t) && ColumnOk(col, rows) && !Dropped(t, PropertyOf(col, i, pk))
    ensures var p := PropertyOf(col, i, pk); var after := Rewritten(col, rows, TypeChange(e, t, p));
            && after.name == col.name && FitsType(after, t) && |after.cells| == rows && NullsFit(after)
            && (IndexChange(e, t, p).None? ==> after.indexed == Counterpart(t, p).RequiresIndex())
            && (KeepsCells(TypeChange(e, t, p)) ==> after.cells == col.cells)
  {
    var p := PropertyOf(col, i, pk);
    NotDroppedIsPersisted(t, p);
    var q := Counterpart(t, p);
    assert Declarable(q);
    hide ObjectSchema.PropertyForName, ObjectSchema.PropertyIsComputed, UniqueNames;
    CreatedTypeIsRead(q);
  }

  lemma CalledChangesAreListed(e: ObjectSchema, t: ObjectSchema, cs: seq<SchemaChange>, p: Property)
    requires ClassDiff(e, t, cs) && p in e.persisted
    ensures var tc, ic := TypeChange(e, t, p), IndexChange(e, t, p);
            (tc.Some? ==> tc.value in cs) && (ic.Some? ==> ic.value in cs)
  {
    hide ObjectSchema.PropertyForName, ObjectSchema.PropertyIsComputed;
    var tc, ic := TypeChange(e, t, p), IndexChange(e, t, p);
    if tc.Some? {
      ChangesOfProperty(e, t, p, tc.value);
    }
    if ic.Some? {
      ChangesOfProperty(e, t, p, ic.value);
    }
  }

  /** After a building pass and a reindexing pass in whatever order their changes come, a kept column fits. */
  lemma KeptColumnFits(name: string, t0: Table, pk: string, t: ObjectSchema, cs: seq<SchemaChange>, i: nat)
    requires i < |t0.columns| && ColumnOk(t0.columns[i], t0.rows) && ClassDeclarable(t)
    requires var e := ReadClass(name, t0, pk); ClassDiff(e, t, cs) && !Dropped(t, e.persisted[i])
    ensures var e := ReadClass(name, t0, pk); var col := t0.columns[i];
            var built := ColumnRebuilt(col, i, t0.rows, cs, name, Building);
            var final := ColumnRebuilt(built, i, t0.rows, cs, name, Reindexing);
            && final.name == col.name && Fits(final, t) && |final.cells| == t0.rows && NullsFit(final)
            && (KeepsCells(TypeChange(e, t, e.persisted[i])) ==> final.cells == col.cells)
  {
    var e, col := ReadClass(name, t0, pk), t0.columns[i];
    var p := e.persisted[i];
    var tc, ic := TypeChange(e, t, p), IndexChange(e, t, p);
    hide ObjectSchema.PropertyForName, ObjectSchema.PropertyIsComputed, ClassDeclarable, NewColumn, ColumnAfter, KeepsCells, ClassDiff;
    TouchesAreKnown(name, t0, pk, t, cs, i);
    CalledChangesAreListed(e, t, cs, p);
    ContentsRebuilt(col, i, t0.rows, cs, name, tc, ic);
    var built := ColumnRebuilt(col, i, t0.rows, cs, name, Building);
    Reindexed(built, i, t0.rows, cs, name, tc, ic);
    if ic.None? {
      IndexRebuilt(col, i, t0.rows, cs, name, tc);
    }
    RewriteFits(e, t, col, i, pk, t0.rows);
  }

  // ----- the columns that are appended -----

  /** The list holds, for this class, only changes that its two versions call for. */
  ghost predicate OnlyCalled(e: ObjectSchema, t: ObjectSchema, cs: seq<SchemaChange>) {
    forall c :: c in cs && About(c, e.name) ==> ClassCalls(e, t, c)
  }

  lemma {:induction false} AppendedAre(e: ObjectSchema, t: ObjectSchema, cs: seq<SchemaChange>, rows: nat)
    requires OnlyCalled(e, t, cs)
    ensures forall q :: AddProperty(e, q) in cs ==> NewColumn(q, rows) in Appended(cs, e.name, rows, Building)
    ensures forall col :: col in Appended(cs, e.name, rows, Building) ==> exists q :: AddProperty(e, q) in cs && col == NewColumn(q, rows)
  {
    if cs != [] {
      var cs0, c := cs[..|cs| - 1], cs[|cs| - 1];
      assert cs == cs0 + [c];
      AppendedAre(e, t, cs0, rows);
      if About(c, e.name) {
        assert ClassCalls(e, t, c);
      }
      hide NewColumn, ClassCalls;
      forall col | col in Appended(cs, e.name, rows, Building)
        ensures exists q :: AddProperty(e, q) in cs && col == NewColumn(q, rows)
      {
        if col in Appended(cs0, e.name, rows, Building) {
          var q :| AddProperty(e, q) in cs0 && col == NewColumn(q, rows);
          assert AddProperty(e, q) in cs;
        }
      }
    }
  }

  lemma {:induction false} AppendedNamesDiffer(e: ObjectSchema, t: ObjectSchema, cs: seq<SchemaChange>, rows: nat)
    requires OnlyCalled(e, t, cs) && UniqueNames(t) && Distinct(cs)
    ensures UniqueColumns(Appended(cs, e.name, rows, Building))
  {
    if cs != [] {
      var cs0, c := cs[..|cs| - 1], cs[|cs| - 1];
      assert cs == cs0 + [c];
      AppendedNamesDiffer(e, t, cs0, rows);
      AppendedAre(e, t, cs0, rows);
      var before := Appended(cs0, e.name, rows, Building);
      if About(c, e.name) && c.AddProperty? {
        assert ClassCalls(e, t, c);
        forall k | 0 <= k < |before|
          ensures before[k].name != c.property.name
        {
          assert before[k] in before;
          var q :| AddProperty(e, q) in cs0 && before[k] == NewColumn(q, rows);
          assert ClassCalls(e, t, AddProperty(e, q));
          assert c !in cs0;
        }
      }
    }
  }

  lemma {:induction false} NothingAppended(cs: seq<SchemaChange>, n: string, rows: nat)
    ensures Appended(cs, n, rows, Reindexing) == []
  {
    if cs != [] {
      NothingAppended(cs[..|cs| - 1], n, rows);
    }
  }

  lemma NewColumnFits(t: ObjectSchema, q: Property, rows: nat)
    requires ClassDeclarable(t) && q in t.persisted
    ensures Fits(NewColumn(q, rows), t) && ColumnOk(NewColumn(q, rows), rows)
  {
    PersistedIsFound(t, q);
    assert Declarable(q);
    hide ObjectSchema.PropertyForName, ObjectSchema.PropertyIsComputed;
  }

  // ----- the whole table after a building pass and a reindexing pass -----

  /** The table after both passes, before anything is removed from it. */
  function Revised(t0: Table, cs: seq<SchemaChange>, n: string): Table {
    Rebuilt(Rebuilt(t0, cs, n, Building), cs, n, Reindexing)
  }

  function ColumnRevised(t0: Table, i: nat, cs: seq<SchemaChange>, n: string): Column
    requires i < |t0.columns|
  {
    ColumnRebuilt(ColumnRebuilt(t0.columns[i], i, t0.rows, cs, n, Building), i, t0.rows, cs, n, Reindexing)
  }

  lemma RevisedShape(t0: Table, cs: seq<SchemaChange>, n: string)
    requires InRange(cs, n, |t0.columns|)
    ensures var t2, added := Revised(t0, cs, n), Appended(cs, n, t0.rows, Building);
            && t2.rows == t0.rows && |t2.columns| == |t0.columns| + |added|
            && (forall i :: 0 <= i < |t0.columns| ==> t2.columns[i] == ColumnRevised(t0, i, cs, n))
            && t2.columns[|t0.columns|..] == added
  {
    RebuiltShape(t0, cs, n, Building);
    var t1, added := Rebuilt(t0, cs, n, Building), Appended(cs, n, t0.rows, Building);
    RebuiltShape(t1, cs, n, Reindexing);
    NothingAppended(cs, n, t0.rows);
    forall k | 0 <= k < |added|
      ensures Revised(t0, cs, n).columns[|t0.columns| + k] == added[k]
    {
      var i := |t0.columns| + k;
      assert t1.columns[|t0.columns| + k] == added[k];
      UntouchedStays(t1.columns[i], i, t0.rows, cs, n, Reindexing);
    }
  }

  /** The column of a property that the class no longer has is left alone until it is removed. */
  lemma DroppedColumnStays(name: string, t0: Table, pk: string, t: ObjectSchema, cs: seq<SchemaChange>, i: nat)
    requires i < |t0.columns| && ClassDiff(ReadClass(name, t0, pk), t, cs)
    requires Dropped(t, ReadClass(name, t0, pk).persisted[i])
    ensures ColumnRevised(t0, i, cs, name) == t0.columns[i]
  {
    TouchesAreKnown(name, t0, pk, t, cs, i);
    hide ObjectSchema.PropertyForName, ObjectSchema.PropertyIsComputed;
    UntouchedStays(t0.columns[i], i, t0.rows, cs, name, Building);
    UntouchedStays(t0.columns[i], i, t0.rows, cs, name, Reindexing);
  }

  /** Exactly the columns of dropped properties are removed. */
  lemma RemovedAreDropped(name: string, t0: Table, pk: string, t: ObjectSchema, cs: seq<SchemaChange>)
    requires ClassDiff(ReadClass(name, t0, pk), t, cs)
    ensures forall x :: x in Removed(cs, name) <==>
              0 <= x < |t0.columns| && Dropped(t, ReadClass(name, t0, pk).persisted[x])
  {
    var e := ReadClass(name, t0, pk);
    hide Dropped;
    forall x | x in Removed(cs, name)
      ensures 0 <= x < |t0.columns| && Dropped(t, e.persisted[x])
    {
      var c :| c in cs && About(c, name) && c.RemoveProperty? && c.property.tableColumn == x;
      assert ClassCalls(e, t, c);
      assert c.property in e.persisted;
    }
    forall x | 0 <= x < |t0.columns| && Dropped(t, e.persisted[x])
      ensures x in Removed(cs, name)
    {
      var c := RemoveProperty(e, e.persisted[x]);
      assert ClassCalls(e, t, c) && About(c, name);
      assert c in cs;
    }
  }

  lemma {:induction false} SurvivorNamesDiffer(cols: seq<Column>, gone: set<int>)
    requires UniqueColumns(cols)
    ensures UniqueColumns(Survivors(cols, gone))
  {
    if cols != [] {
      var k := |cols| - 1;
      SurvivorNamesDiffer(cols[..k], gone);
      SurvivorsAre(cols[..k], gone);
      var s := Survivors(cols[..k], gone);
      forall j | 0 <= j < |s|
        ensures s[j].name != cols[k].name
      {
        assert s[j] in s;
      }
    }
  }

  lemma AppendedIsNew(e: ObjectSchema, t: ObjectSchema, cs: seq<SchemaChange>, rows: nat, col: Column)
    requires OnlyCalled(e, t, cs) && ClassDeclarable(t) && col in Appended(cs, e.name, rows, Building)
    ensures Fits(col, t) && ColumnOk(col, rows)
    ensures forall p :: p in e.persisted ==> p.name != col.name
  {
    AppendedAre(e, t, cs, rows);
    var q :| AddProperty(e, q) in cs && col == NewColumn(q, rows);
    assert ClassCalls(e, t, AddProperty(e, q));
    NewColumnFits(t, q, rows);
  }

  /** The old columns, under their names, and then exactly the appended ones. */
  ghost predicate Extends(cols: seq<Column>, t0: Table, cs: seq<SchemaChange>, name: string) {
    var added := Appended(cs, name, t0.rows, Building);
    && |cols| == |t0.columns| + |added| && cols[|t0.columns|..] == added
    && forall i :: 0 <= i < |t0.columns| ==> cols[i].name == t0.columns[i].name
  }

  lemma ExtendedNamesDiffer(name: string, t0: Table, pk: string, t: ObjectSchema, cs: seq<SchemaChange>, cols: seq<Column>)
    requires TableOk(t0) && ClassDeclarable(t) && Distinct(cs) && ClassDiff(ReadClass(name, t0, pk), t, cs)
    requires Extends(cols, t0, cs, name)
    ensures UniqueColumns(cols)
  {
    var e, added := ReadClass(name, t0, pk), Appended(cs, name, t0.rows, Building);
    AppendedNamesDiffer(e, t, cs, t0.rows);
    forall i, k | |t0.columns| <= i < |cols| && 0 <= k < |t0.columns|
      ensures t0.columns[k].name != cols[i].name
    {
      assert cols[i] == added[i - |t0.columns|];
      AppendedIsNew(e, t, cs, t0.rows, cols[i]);
      assert e.persisted[k] in e.persisted;
    }
    hide Appended, ClassDiff, ClassDeclarable;
    NamesOfParts(cols, t0.columns, added);
  }

  /** Every declared property has a column that is not removed. */
  lemma DeclaredIsExtended(name: string, t0: Table, pk: string, t: ObjectSchema, cs: seq<SchemaChange>,
                           cols: seq<Column>, q: Property) returns (i: nat)
    requires ClassDeclarable(t) && q in t.persisted && ClassDiff(ReadClass(name, t0, pk), t, cs)
    requires Extends(cols, t0, cs, name)
    ensures i < |cols| && i !in Removed(cs, name) && cols[i].name == q.name
  {
    var e := ReadClass(name, t0, pk);
    RemovedAreDropped(name, t0, pk, t, cs);
    PersistedIsFound(t, q);
    var found := e.PropertyForName(q.name);
    if found.Some? {
      i := found.value.tableColumn;
      assert e.persisted[i] == found.value;
      assert !Dropped(t, found.value);
    } else {
      i := AddedIsExtended(name, t0, pk, t, cs, cols, q);
    }
  }

  lemma AddedIsExtended(name: string, t0: Table, pk: string, t: ObjectSchema, cs: seq<SchemaChange>,
                        cols: seq<Column>, q: Property) returns (i: nat)
    requires q in t.persisted && ClassDiff(ReadClass(name, t0, pk), t, cs)
    requires ReadClass(name, t0, pk).PropertyForName(q.name).None?
    requires Extends(cols, t0, cs, name)
    ensures |t0.columns| <= i < |cols| && cols[i].name == q.name
  {
    var e, c := ReadClass(name, t0, pk), AddProperty(ReadClass(name, t0, pk), q);
    assert c in cs by {
      assert ClassCalls(e, t, c) && About(c, name);
    }
    AppendedAre(e, t, cs, t0.rows);
    hide ClassCalls, ReadClass, Appended;
    var added := Appended(cs, name, t0.rows, Building);
    assert NewColumn(q, t0.rows) in added;
    var k :| 0 <= k < |added| && added[k] == NewColumn(q, t0.rows);
    i := |t0.columns| + k;
  }

  ghost predicate TypesFit(tb: Table, t: ObjectSchema) {
    forall i :: 0 <= i < |tb.columns| ==> FitsType(tb.columns[i], t)
  }

  /** Once the dropped columns are gone, the table is well formed if the kept columns are. */
  lemma SurvivorsAreOk(name: string, t0: Table, pk: string, t: ObjectSchema, cs: seq<SchemaChange>, cols: seq<Column>)
    requires TableOk(t0) && ClassDeclarable(t) && Distinct(cs) && ClassDiff(ReadClass(name, t0, pk), t, cs)
    requires Extends(cols, t0, cs, name)
    requires forall i :: 0 <= i < |t0.columns| && i !in Removed(cs, name) ==> FitsType(cols[i], t) && ColumnOk(cols[i], t0.rows)
    ensures var tb := Table(Survivors(cols, Removed(cs, name)), t0.rows); TableOk(tb) && TypesFit(tb, t)
    ensures forall c :: c in Survivors(cols, Removed(cs, name)) ==>
              Fits(c, t) || exists i :: 0 <= i < |t0.columns| && i !in Removed(cs, name) && cols[i] == c
  {
    var gone := Removed(cs, name);
    ExtendedNamesDiffer(name, t0, pk, t, cs, cols);
    SurvivorNamesDiffer(cols, gone);
    SurvivorsAre(cols, gone);
    forall c | c in Survivors(cols, gone)
      ensures FitsType(c, t) && ColumnOk(c, t0.rows)
      ensures Fits(c, t) || exists i :: 0 <= i < |t0.columns| && i !in gone && cols[i] == c
    {
      hide FitsType, ColumnOk, Removed, ClassDeclarable, UniqueColumns, ClassDiff, Survivors;
      var k :| 0 <= k < |cols| && k !in gone && cols[k] == c;
      if k >= |t0.columns| {
        assert cols[k] == cols[|t0.columns|..][k - |t0.columns|];
        AppendedIsNew(ReadClass(name, t0, pk), t, cs, t0.rows, cols[k]);
        FittingHasType(c, t);
      }
    }
  }

  lemma FittingHasType(col: Column, t: ObjectSchema)
    requires Fits(col, t)
    ensures FitsType(col, t)
  {
  }

  /** Once the dropped columns are gone, the table serves the class if the kept columns fit it. */
  lemma SurvivorsServe(name: string, t0: Table, pk: string, t: ObjectSchema, cs: seq<SchemaChange>, cols: seq<Column>)
    requires TableOk(t0) && ClassDeclarable(t) && Distinct(cs) && ClassDiff(ReadClass(name, t0, pk), t, cs)
    requires Extends(cols, t0, cs, name)
    requires forall i :: 0 <= i < |t0.columns| && i !in Removed(cs, name) ==> Fits(cols[i], t) && ColumnOk(cols[i], t0.rows)
    ensures Serves(Table(Survivors(cols, Removed(cs, name)), t0.rows), t)
  {
    var gone := Removed(cs, name);
    SurvivorsAreOk(name, t0, pk, t, cs, cols);
    var tb := Table(Survivors(cols, gone), t0.rows);
    hide FitsType, ColumnOk, Removed, ClassDeclarable, UniqueColumns, ClassDiff, Survivors;
    forall i | 0 <= i < |tb.columns|
      ensures Fits(tb.columns[i], t)
    {
      assert tb.columns[i] in tb.columns;
    }
    forall q | q in t.persisted
      ensures HasColumn(tb.columns, q.name)
    {
      var i := DeclaredIsExtended(name, t0, pk, t, cs, cols, q);
      SurvivorIsColumn(cols, gone, i);
    }
  }

  // ----- the upgraded table -----

  /** The table after a building pass without removals and a reindexing pass with them. */
  function Upgraded(t0: Table, cs: seq<SchemaChange>, n: string): Table {
    Passed(Rebuilt(t0, cs, n, Building), cs, n, Reindexing)
  }

  lemma UpgradedIsRevisedLessRemoved(t0: Table, cs: seq<SchemaChange>, n: string)
    requires RemovalsLast(cs) && InRange(cs, n, |t0.columns|)
    ensures Upgraded(t0, cs, n) == Table(Survivors(Revised(t0, cs, n).columns, Removed(cs, n)), t0.rows)
  {
    RebuiltKeepsSize(t0, cs, n, Building);
    PassedIsRebuiltLessRemoved(Rebuilt(t0, cs, n, Building), cs, n, Reindexing);
  }

  /** Every column fits the class, and every declared property has a column. */
  ghost predicate Serves(tb: Table, t: ObjectSchema) {
    && TableOk(tb)
    && (forall i :: 0 <= i < |tb.columns| ==> Fits(tb.columns[i], t))
    && (forall q :: q in t.persisted ==> HasColumn(tb.columns, q.name))
  }

  ghost predicate HasColumn(cols: seq<Column>, n: string) {
    exists i :: 0 <= i < |cols| && cols[i].name == n
  }

  lemma SurvivorIsColumn(cols: seq<Column>, gone: set<int>, i: nat)
    requires i < |cols| && i !in gone
    ensures HasColumn(Survivors(cols, gone), cols[i].name)
  {
    SurvivorsAre(cols, gone);
    assert Survivors(cols, gone)[PositionAfter(i, gone)] == cols[i];
  }

  lemma RevisedExtends(name: string, t0: Table, pk: string, t: ObjectSchema, cs: seq<SchemaChange>)
    requires TableOk(t0) && ClassDeclarable(t) && ClassDiff(ReadClass(name, t0, pk), t, cs)
    ensures InRange(cs, name, |t0.columns|) && Extends(Revised(t0, cs, name).columns, t0, cs, name)
    ensures forall i :: 0 <= i < |t0.columns| && i !in Removed(cs, name) ==>
              Fits(Revised(t0, cs, name).columns[i], t) && ColumnOk(Revised(t0, cs, name).columns[i], t0.rows)
  {
    ChangesAreInRange(name, t0, pk, t, cs);
    RevisedShape(t0, cs, name);
    hide Revised, ColumnRevised, Fits, ClassDeclarable, Appended, ClassDiff, TableOk;
    forall i | 0 <= i < |t0.columns|
      ensures Revised(t0, cs, name).columns[i].name == t0.columns[i].name
      ensures i !in Removed(cs, name) ==>
                Fits(Revised(t0, cs, name).columns[i], t) && ColumnOk(Revised(t0, cs, name).columns[i], t0.rows)
    {
      OldColumnRevised(name, t0, pk, t, cs, i);
    }
  }

  lemma NamesOfParts(cols: seq<Column>, front: seq<Column>, added: seq<Column>)
    requires |cols| == |front| + |added| && cols[|front|..] == added
    requires forall i :: 0 <= i < |front| ==> cols[i].name == front[i].name
    requires UniqueColumns(front) && UniqueColumns(added)
    requires forall i, k :: |front| <= i < |cols| && 0 <= k < |front| ==> front[k].name != cols[i].name
    ensures UniqueColumns(cols)
  {
    forall i, j | 0 <= i < j < |cols|
      ensures cols[i].name != cols[j].name
    {
      if i >= |front| {
        assert cols[i] == added[i - |front|] && cols[j] == added[j - |front|];
      }
    }
  }

  lemma OldColumnRevised(name: string, t0: Table, pk: string, t: ObjectSchema, cs: seq<SchemaChange>, i: nat)
    requires TableOk(t0) && ClassDeclarable(t) && i < |t0.columns|
    requires ClassDiff(ReadClass(name, t0, pk), t, cs)
    ensures var col := ColumnRevised(t0, i, cs, name);
            && col.name == t0.columns[i].name
            && (i !in Removed(cs, name) ==> Fits(col, t) && ColumnOk(col, t0.rows))
  {
    RemovedAreDropped(name, t0, pk, t, cs);
    if Dropped(t, ReadClass(name, t0, pk).persisted[i]) {
      DroppedColumnStays(name, t0, pk, t, cs, i);
    } else {
      KeptColumnFits(name, t0, pk, t, cs, i);
      FittingIsOk(ColumnRevised(t0, i, cs, name), t, t0.rows);
    }
  }

  lemma FittingIsOk(col: Column, t: ObjectSchema, rows: nat)
    requires Fits(col, t) && ClassDeclarable(t) && |col.cells| == rows && NullsFit(col)
    ensures ColumnOk(col, rows)
  {
    var q := t.PropertyForName(col.name).value;
    assert q in t.computed ==> SameProperty(q, q);
    assert Declarable(q);
  }

  lemma UpgradedServes(name: string, t0: Table, pk: string, t: ObjectSchema, cs: seq<SchemaChange>)
    requires TableOk(t0) && ClassDeclarable(t) && Distinct(cs) && RemovalsLast(cs)
    requires ClassDiff(ReadClass(name, t0, pk), t, cs)
    ensures Serves(Upgraded(t0, cs, name), t)
  {
    RevisedExtends(name, t0, pk, t, cs);
    UpgradedIsRevisedLessRemoved(t0, cs, name);
    SurvivorsServe(name, t0, pk, t, cs, Revised(t0, cs, name).columns);
  }

  /** A class read from a table that serves its declaration, with the declared primary key, calls for nothing. */
  lemma ServingCallsForNothing(name: string, tb: Table, t: ObjectSchema, c: SchemaChange)
    requires Serves(tb, t) && ClassDeclarable(t)
    ensures !ClassCalls(ReadClass(name, tb, t.primaryKey), t, c)
  {
    var e := ReadClass(name, tb, t.primaryKey);
    forall q | q in t.persisted
      ensures e.PropertyForName(q.name).Some?
    {
      var i :| 0 <= i < |tb.columns| && tb.columns[i].name == q.name;
      assert e.persisted[i] in e.persisted;
    }
    forall p | p in e.persisted
      ensures Kept(t, p) && p.typ.nullable == Counterpart(t, p).typ.nullable
      ensures Counterpart(t, p).RequiresIndex() ==> p.isIndexed
      ensures p.RequiresIndex() ==> Counterpart(t, p).RequiresIndex()
    {
      var i :| 0 <= i < |tb.columns| && e.persisted[i] == p;
      ColumnCallsForNothing(tb, i, t);
    }
    hide ObjectSchema.PropertyForName, ObjectSchema.PropertyIsComputed, Serves, ClassDeclarable, Property.RequiresIndex;
  }

  lemma ColumnCallsForNothing(tb: Table, i: nat, t: ObjectSchema)
    requires Serves(tb, t) && ClassDeclarable(t) && i < |tb.columns|
    ensures var p := PropertyOf(tb.columns[i], i, t.primaryKey);
            && Kept(t, p) && p.typ.nullable == Counterpart(t, p).typ.nullable
            && (Counterpart(t, p).RequiresIndex() ==> p.isIndexed)
            && (p.RequiresIndex() ==> Counterpart(t, p).RequiresIndex())
  {
    FittingColumnCallsForNothing(tb.columns[i], i, t);
  }

  lemma FittingColumnCallsForNothing(col: Column, i: nat, t: ObjectSchema)
    requires Fits(col, t) && ClassDeclarable(t)
    ensures var p := PropertyOf(col, i, t.primaryKey);
            && Kept(t, p) && p.typ.nullable == Counterpart(t, p).typ.nullable
            && (Counterpart(t, p).RequiresIndex() ==> p.isIndexed)
            && (p.RequiresIndex() ==> Counterpart(t, p).RequiresIndex())
  {
    var p := PropertyOf(col, i, t.primaryKey);
    assert !Dropped(t, p);
    NotDroppedIsPersisted(t, p);
    var q := Counterpart(t, p);
    assert Declarable(q);
    hide ObjectSchema.PropertyForName, ObjectSchema.PropertyIsComputed;
    CreatedTypeIsRead(q);
  }

  /** Each column that is not removed moves up past the removed ones; its cells stay unless its rewrite drops them. */
  lemma UpgradeKeepsData(name: string, t0: Table, pk: string, t: ObjectSchema, cs: seq<SchemaChange>, i: nat)
    requires TableOk(t0) && ClassDeclarable(t) && Distinct(cs) && RemovalsLast(cs) && i < |t0.columns|
    requires ClassDiff(ReadClass(name, t0, pk), t, cs)
    requires !Dropped(t, ReadClass(name, t0, pk).persisted[i])
    ensures var e := ReadClass(name, t0, pk);
            var tb, k := Upgraded(t0, cs, name), PositionAfter(i, Removed(cs, name));
            && tb.rows == t0.rows && k < |tb.columns| && tb.columns[k].name == t0.columns[i].name
            && (KeepsCells(TypeChange(e, t, e.persisted[i])) ==> tb.columns[k].cells == t0.columns[i].cells)
  {
    RevisedExtends(name, t0, pk, t, cs);
    RevisedShape(t0, cs, name);
    RemovedAreDropped(name, t0, pk, t, cs);
    UpgradedIsRevisedLessRemoved(t0, cs, name);
    KeptColumnFits(name, t0, pk, t, cs, i);
    SurvivorsAre(Revised(t0, cs, name).columns, Removed(cs, name));
    hide Upgraded, Revised, Survivors, Fits, ColumnOk, Removed, ClassDeclarable, UniqueColumns, ClassDiff,
         PositionAfter, ReadClass, Dropped, KeepsCells, TypeChange, RemovalsLast, Distinct;
  }
}
