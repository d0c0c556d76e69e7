/** When a version bump is refused for duplicate primary keys, told from the file before it. */
module NewKeys {
  import opened Options
  import opened Schemas
  import opened Tables
  import opened TableUpgrades
  import opened ClassUpgrades
  import opened SinglePass
  import opened Groups
  import opened Upgrades
  import opened UpdateModes

  /**
   * Two rows will have the same value under the new key: the column of the key keeps its cells and they agree in the
   * two rows, or it is new or loses its cells, and all rows get the default.
   */
  predicate RowsWillAgree(name: string, t0: Table, pk: string, o: ObjectSchema, i: nat, j: nat) {
    var e, k := ReadClass(name, t0, pk), ColumnIndex(t0.columns, o.primaryKey);
    && i < j < t0.rows
    && (k != NPOS && KeepsCells(TypeChange(e, o, e.persisted[k])) ==>
          j < |t0.columns[k].cells| && t0.columns[k].cells[i] == t0.columns[k].cells[j])
  }

  /** No two rows will. */
  ghost predicate KeysWillDiffer(name: string, t0: Table, pk: string, o: ObjectSchema) {
    forall i: nat, j: nat :: !RowsWillAgree(name, t0, pk, o, i, j)
  }

  lemma WillDifferMeans(name: string, t0: Table, pk: string, o: ObjectSchema)
    requires TableOk(t0)
    ensures var e, k := ReadClass(name, t0, pk), ColumnIndex(t0.columns, o.primaryKey);
            KeysWillDiffer(name, t0, pk, o) <==>
            if k != NPOS && KeepsCells(TypeChange(e, o, e.persisted[k])) then AllDistinct(t0.columns[k].cells) else t0.rows <= 1
  {
    var e, k := ReadClass(name, t0, pk), ColumnIndex(t0.columns, o.primaryKey);
    hide AllDistinct, KeepsCells, TypeChange;
    if k != NPOS && KeepsCells(TypeChange(e, o, e.persisted[k])) {
      var cells := t0.columns[k].cells;
      assert ColumnOk(t0.columns[k], t0.rows);
      DistinctMeansNoTwoAgree(cells);
      forall i, j | 0 <= i < j < |cells|
        ensures RowsWillAgree(name, t0, pk, o, i, j) <==> cells[i] == cells[j]
      {
      }
    } else if t0.rows > 1 {
      assert RowsWillAgree(name, t0, pk, o, 0, 1);
    }
  }

  /** Some class of the file gets another key, under which two rows will have the same value. */
  ghost predicate SomeKeyRepeats(g: GroupState, t: Schema) {
    exists o, i: nat, j: nat ::
      && o in t && o.name in g.tables && o.primaryKey != "" && o.primaryKey != PkOf(g, o.name)
      && RowsWillAgree(o.name, g.tables[o.name], PkOf(g, o.name), o, i, j)
  }

  lemma EqualCells(cells: seq<Cell>, d: Cell)
    requires forall k :: 0 <= k < |cells| ==> cells[k] == d
    ensures AllDistinct(cells) <==> |cells| <= 1
  {
    var s := set c | c in cells;
    if cells == [] {
      assert s == {};
    } else {
      assert cells[0] in cells;
      assert s == {d};
    }
  }

  lemma PrimaryIsCopyable(name: string, t0: Table, pk: string, o: ObjectSchema, i: nat)
    requires i < |t0.columns| && t0.columns[i].name == o.primaryKey != "" && ClassDeclarable(o)
    requires var e := ReadClass(name, t0, pk); var tc := TypeChange(e, o, e.persisted[i]);
             tc.Some? && tc.value.MakePropertyNullable?
    ensures var e := ReadClass(name, t0, pk); KeepsCells(TypeChange(e, o, e.persisted[i]))
  {
    var e := ReadClass(name, t0, pk);
    NotDroppedIsPersisted(o, e.persisted[i]);
    assert Declarable(Counterpart(o, e.persisted[i]));
  }

  lemma OldKeyBuilt(name: string, t0: Table, pk: string, o: ObjectSchema, cs: seq<SchemaChange>, i: nat)
    requires TableOk(t0) && ClassDeclarable(o) && Distinct(cs) && ClassDiff(ReadClass(name, t0, pk), o, cs)
    requires i < |t0.columns| && ColumnIndex(t0.columns, o.primaryKey) == i && o.primaryKey != ""
    ensures AllDistinct(ColumnRebuilt(t0.columns[i], i, t0.rows, cs, name, Building).cells) <==> KeysWillDiffer(name, t0, pk, o)
  {
    var e, col := ReadClass(name, t0, pk), t0.columns[i];
    var p := e.persisted[i];
    var tc, ic := TypeChange(e, o, p), IndexChange(e, o, p);
    hide ObjectSchema.PropertyForName, ObjectSchema.PropertyIsComputed, ClassDeclarable, ColumnRebuilt, ClassDiff,
         Distinct, AllDistinct, ReadClass, TypeChange, IndexChange, KeysWillDiffer;
    TouchesAreKnown(name, t0, pk, o, cs, i);
    CalledChangesAreListed(e, o, cs, p);
    ContentsRebuilt(col, i, t0.rows, cs, name, tc, ic);
    RewriteCells(name, t0, pk, o, i);
    WillDifferMeans(name, t0, pk, o);
  }

  lemma RewriteCells(name: string, t0: Table, pk: string, o: ObjectSchema, i: nat)
    requires i < |t0.columns| && t0.columns[i].name == o.primaryKey != "" && ClassDeclarable(o)
    requires |t0.columns[i].cells| == t0.rows
    ensures var e := ReadClass(name, t0, pk); var tc := TypeChange(e, o, e.persisted[i]);
            var cells := Rewritten(t0.columns[i], t0.rows, tc).cells;
            if KeepsCells(tc) then cells == t0.columns[i].cells else AllDistinct(cells) <==> t0.rows <= 1
  {
    var e := ReadClass(name, t0, pk);
    var tc := TypeChange(e, o, e.persisted[i]);
    var cells := Rewritten(t0.columns[i], t0.rows, tc).cells;
    if tc.Some? && tc.value.MakePropertyNullable? {
      PrimaryIsCopyable(name, t0, pk, o, i);
    } else if tc.Some? {
      var q := if tc.value.ChangePropertyType? then tc.value.newProperty else tc.value.property;
      var typed := if tc.value.ChangePropertyType? then q else q.(typ := q.typ.(nullable := false));
      EqualCells(cells, DefaultCell(CoreOf(typed)));
    }
  }

  lemma AddedKeyCells(e: ObjectSchema, o: ObjectSchema, cs: seq<SchemaChange>, rows: nat, col: Column)
    requires OnlyCalled(e, o, cs) && col in Appended(cs, e.name, rows, Building)
    ensures AllDistinct(col.cells) <==> rows <= 1
  {
    AppendedAre(e, o, cs, rows);
    var q :| AddProperty(e, q) in cs && col == NewColumn(q, rows);
    EqualCells(col.cells, DefaultCell(CoreOf(q)));
  }

  /** Once everything is built, the new key is unique exactly when that could be told before. */
  lemma KeyOfBuilt(name: string, t0: Table, pk: string, o: ObjectSchema, cs: seq<SchemaChange>)
    requires TableOk(t0) && ClassDeclarable(o) && Distinct(cs) && ClassDiff(ReadClass(name, t0, pk), o, cs)
    requires o.primaryKey != ""
    ensures KeyIsUnique(Rebuilt(t0, cs, name, Building), o.primaryKey) <==> KeysWillDiffer(name, t0, pk, o)
  {
    var cols := Rebuilt(t0, cs, name, Building).columns;
    var q :| q in o.persisted && q.name == o.primaryKey;
    CreatedExtends(name, t0, pk, o, cs);
    ExtendedNamesDiffer(name, t0, pk, o, cs, cols);
    var i := DeclaredIsExtended(name, t0, pk, o, cs, cols, q);
    hide Rebuilt, ClassDeclarable, ClassDiff, Distinct, AllDistinct, ReadClass, TypeChange, KeepsCells, Appended, Removed, KeysWillDiffer;
    NamedAt(cols, i, o.primaryKey);
    if i < |t0.columns| {
      NamedAt(t0.columns, i, o.primaryKey);
      OldKeyBuilt(name, t0, pk, o, cs, i);
    } else {
      NamedInRest(cols, |t0.columns|, i, o.primaryKey, t0.columns);
      assert cols[i] == cols[|t0.columns|..][i - |t0.columns|];
      DiffIsOnlyCalled(name, t0, pk, o, cs);
      AddedKeyCells(ReadClass(name, t0, pk), o, cs, t0.rows, cols[i]);
      WillDifferMeans(name, t0, pk, o);
    }
  }

  lemma NamedAt(cols: seq<Column>, i: nat, n: string)
    requires UniqueColumns(cols) && i < |cols| && cols[i].name == n
    ensures ColumnIndex(cols, n) == i
  {
  }

  lemma NamedInRest(cols: seq<Column>, k: nat, i: nat, n: string, front: seq<Column>)
    requires UniqueColumns(cols) && k == |front| <= i < |cols| && cols[i].name == n
    requires forall j :: 0 <= j < k ==> cols[j].name == front[j].name
    ensures ColumnIndex(front, n) == NPOS
  {
    assert forall j :: 0 <= j < k ==> front[j].name != n;
  }

  lemma DiffIsOnlyCalled(name: string, t0: Table, pk: string, o: ObjectSchema, cs: seq<SchemaChange>)
    requires ClassDiff(ReadClass(name, t0, pk), o, cs)
    ensures OnlyCalled(ReadClass(name, t0, pk), o, cs) && ReadClass(name, t0, pk).name == name
  {
  }

  lemma ClassKeyOfBuilt(g: GroupState, s: Schema, t: Schema, cs: seq<SchemaChange>, o: ObjectSchema)
    requires Planned(g, s, t, cs) && o in t && o.name in g.tables && o.primaryKey != ""
    ensures o.name in Build(g, cs).tables
    ensures KeyIsUnique(Build(g, cs).tables[o.name], o.primaryKey)
            <==> KeysWillDiffer(o.name, g.tables[o.name], PkOf(g, o.name), o)
  {
    PlanNames(g, s, t, cs);
    TargetIsDeclarable(t, o);
    ReadBack(g, s, o.name);
    DiffOfClass(s, t, cs, ReadClass(o.name, g.tables[o.name], PkOf(g, o.name)), o);
    assert TableOk(g.tables[o.name]);
    assert TableFor(g, o.name) == g.tables[o.name] && TableFor(Build(g, cs), o.name) == Build(g, cs).tables[o.name];
    hide Build, Rebuilt, KeyIsUnique, KeysWillDiffer, ClassDiff, ClassDeclarable, TableOk, Planned, ReadClass;
    KeyOfBuilt(o.name, g.tables[o.name], PkOf(g, o.name), o, cs);
  }

  lemma ClashIsOfClass(s: Schema, t: Schema, cs: seq<SchemaChange>, c: SchemaChange) returns (e: ObjectSchema, o: ObjectSchema)
    requires IsDiff(s, t, cs) && Target(t) && c in cs && c.ChangePrimaryKey? && c.newKey.Some?
    ensures e in s && o in t && e.name == o.name == c.cls.name && e.primaryKey != o.primaryKey
    ensures o.primaryKey != "" && c.newKey.value.name == o.primaryKey
  {
    DiffIsCalled(s, t, cs, c);
    e, o :| e in s && o in t && e.name == o.name && ClassCalls(e, o, c);
    assert WellDeclared(o);
  }

  lemma ClashComesFromFile(g: GroupState, s: Schema, t: Schema, cs: seq<SchemaChange>, c: SchemaChange)
    requires Planned(g, s, t, cs) && c in cs && KeyClashes(Build(g, cs), c)
    ensures SomeKeyRepeats(g, t)
  {
    hide Build, RowsWillAgree, KeyIsUnique, ReadClass, GroupOk, Target, IsDiff;
    var e, o := ClashIsOfClass(s, t, cs, c);
    ClassKeyOfBuilt(g, s, t, cs, o);
    ReadKey(o.name, g.tables[o.name], PkOf(g, o.name));
    var i: nat, j: nat :| RowsWillAgree(o.name, g.tables[o.name], PkOf(g, o.name), o, i, j);
  }

  lemma ReadKey(n: string, tb: Table, pk: string)
    ensures ReadClass(n, tb, pk).primaryKey == pk && ReadClass(n, tb, pk).name == n
  {
  }

  lemma KeyChangeIsCalled(e: ObjectSchema, o: ObjectSchema)
    requires ClassDeclarable(o) && o.primaryKey != "" && e.primaryKey != o.primaryKey
    ensures ClassCalls(e, o, ChangePrimaryKey(e, o.PrimaryKeyProperty()))
    ensures o.PrimaryKeyProperty().Some? && o.PrimaryKeyProperty().value.name == o.primaryKey
  {
  }

  lemma RepeatShowsInBuilt(g: GroupState, s: Schema, t: Schema, cs: seq<SchemaChange>, o: ObjectSchema)
    requires Planned(g, s, t, cs) && o in t && o.name in g.tables && o.primaryKey != "" && o.primaryKey != PkOf(g, o.name)
    requires !KeysWillDiffer(o.name, g.tables[o.name], PkOf(g, o.name), o)
    ensures SomeKeyClashes(Build(g, cs), cs)
  {
    hide Build, KeysWillDiffer, KeyIsUnique, ReadClass, GroupOk, ClassCalls, Calls, ClassDeclarable, ObjectSchema.PropertyForName;
    ClassKeyOfBuilt(g, s, t, cs, o);
    ReadKey(o.name, g.tables[o.name], PkOf(g, o.name));
    ReadBack(g, s, o.name);
    TargetIsDeclarable(t, o);
    var e := ReadClass(o.name, g.tables[o.name], PkOf(g, o.name));
    var c := ChangePrimaryKey(e, o.PrimaryKeyProperty());
    KeyChangeIsCalled(e, o);
    CalledByClass(s, t, e, o, c);
    DiffIsCalled(s, t, cs, c);
    assert KeyClashes(Build(g, cs), c);
  }

  /** The refusal of a version bump, told from the file before it and the wanted schema. */
  lemma DuplicateKeysAreKnownBefore(g: GroupState, s: Schema, t: Schema, cs: seq<SchemaChange>)
    requires Planned(g, s, t, cs)
    ensures Upgrade(g, cs).DuplicateKey? <==> SomeKeyRepeats(g, t)
    ensures SomeKeyClashes(Build(g, cs), cs) <==> SomeKeyRepeats(g, t)
  {
    hide Planned, Upgrade, Build, KeyClashes, RowsWillAgree;
    UpgradeIsRefused(g, s, t, cs);
    if SomeKeyClashes(Build(g, cs), cs) {
      var c :| c in cs && KeyClashes(Build(g, cs), c);
      ClashComesFromFile(g, s, t, cs, c);
    }
    if SomeKeyRepeats(g, t) {
      var o, i: nat, j: nat :| && o in t && o.name in g.tables && o.primaryKey != "" && o.primaryKey != PkOf(g, o.name)
                               && RowsWillAgree(o.name, g.tables[o.name], PkOf(g, o.name), o, i, j);
      RepeatShowsInBuilt(g, s, t, cs, o);
    }
  }
}
