/** The other ways of carrying out a diff: for a new file, for the same version, and in additive mode. */
module UpdateModes {
  import opened Options
  import opened Schemas
  import opened Tables
  import opened TableUpgrades
  import opened ClassUpgrades
  import opened SinglePass
  import opened Groups
  import opened Upgrades

  // ----- a file that has no schema version yet: one pass -----

  ghost predicate SomeIndexUndone(cs: seq<SchemaChange>) {
    exists j, k :: UndoneAt(cs, j, k)
  }

  lemma CreatedClassIsServed(g: GroupState, s: Schema, t: Schema, cs: seq<SchemaChange>, o: ObjectSchema)
    requires Planned(g, s, t, cs) && o in t
    ensures var r := Create(g, cs); o.name in r.tables && PkOf(r, o.name) == o.primaryKey
    ensures !IndexUndone(cs, o.name) ==> Serves(TableFor(Create(g, cs), o.name), o)
  {
    PlanNames(g, s, t, cs);
    TargetIsDeclarable(t, o);
    DiffKeys(s, t, cs, o);
    var n := o.name;
    if e :| e in s && e.name == n {
      DiffOfClass(s, t, cs, e, o);
      if !IndexUndone(cs, n) {
        CreatedServes(n, g.tables[n], PkOf(g, n), o, cs);
      }
    } else {
      NewClassIsServed(g, s, t, cs, o);
    }
    BuildKey(g, cs, n, o.primaryKey);
  }

  lemma UndoneClass(s: Schema, t: Schema, cs: seq<SchemaChange>) returns (e: ObjectSchema, o: ObjectSchema)
    requires IsDiff(s, t, cs) && SomeIndexUndone(cs)
    ensures e in s && o in t && e.name == o.name && IndexUndone(cs, e.name)
  {
    var j, k :| UndoneAt(cs, j, k);
    assert cs[j] in cs;
    DiffIsCalled(s, t, cs, cs[j]);
    e, o :| e in s && o in t && e.name == o.name && ClassCalls(e, o, cs[j]);
    assert About(cs[j], e.name);
  }

  lemma ReadBack(r: GroupState, s: Schema, n: string)
    requires IsSchemaOf(r, s) && n in r.tables
    ensures ReadClass(n, r.tables[n], PkOf(r, n)) in s
  {
    assert HasClass(s, n);
    var e :| e in s && e.name == n;
  }

  lemma UndoneNeedsMore(g: GroupState, s: Schema, t: Schema, cs: seq<SchemaChange>, s': Schema) returns (c: SchemaChange)
    requires Planned(g, s, t, cs) && SomeIndexUndone(cs) && IsSchemaOf(Create(g, cs), s')
    ensures Calls(s', t, c)
  {
    var e, o := UndoneClass(s, t, cs);
    var n := e.name;
    CreatedClassIsServed(g, s, t, cs, o);
    ReadBack(Create(g, cs), s', n);
    c := UndoneClassNeedsMore(g, s, t, cs, e, o);
    CalledByClass(s', t, ReadClass(n, TableFor(Create(g, cs), n), o.primaryKey), o, c);
  }

  lemma UndoneClassNeedsMore(g: GroupState, s: Schema, t: Schema, cs: seq<SchemaChange>, e: ObjectSchema, o: ObjectSchema)
    returns (c: SchemaChange)
    requires Planned(g, s, t, cs) && e in s && o in t && e.name == o.name && IndexUndone(cs, e.name)
    ensures ClassCalls(ReadClass(e.name, TableFor(Create(g, cs), e.name), o.primaryKey), o, c)
  {
    DiffOfClass(s, t, cs, e, o);
    TargetIsDeclarable(t, o);
    PlanNames(g, s, t, cs);
    c := UndoneIsCalledAgain(e.name, g.tables[e.name], PkOf(g, e.name), o, cs);
  }

  lemma CalledByClass(s: Schema, t: Schema, e: ObjectSchema, o: ObjectSchema, c: SchemaChange)
    requires ClassCalls(e, o, c) && e in s && o in t && e.name == o.name
    ensures Calls(s, t, c)
  {
  }

  lemma CreatedCallsForNothing(g: GroupState, s: Schema, t: Schema, cs: seq<SchemaChange>, s': Schema, c: SchemaChange)
    requires Planned(g, s, t, cs) && !SomeIndexUndone(cs) && IsSchemaOf(Create(g, cs), s')
    ensures !Calls(s', t, c)
  {
    var r := Create(g, cs);
    forall o | o in t
      ensures o.name in r.tables && Serves(r.tables[o.name], o) && PkOf(r, o.name) == o.primaryKey
    {
      assert !IndexUndone(cs, o.name);
      CreatedClassIsServed(g, s, t, cs, o);
    }
    ServedCallsForNothing(r, s', t, c);
  }

  /**
   * One pass leaves nothing to do exactly when it runs no index change before a rewrite of the same property
   * that loses it. The order of the list decides, and nothing else does.
   */
  lemma CreateLeavesNothingToDo(g: GroupState, s: Schema, t: Schema, cs: seq<SchemaChange>, s': Schema, cs': seq<SchemaChange>)
    requires Planned(g, s, t, cs) && IsSchemaOf(Create(g, cs), s') && IsDiff(s', t, cs')
    ensures cs' == [] <==> !SomeIndexUndone(cs)
  {
    if SomeIndexUndone(cs) {
      var c := UndoneNeedsMore(g, s, t, cs, s');
      DiffIsCalled(s', t, cs', c);
    } else {
      forall c
        ensures !Calls(s', t, c)
      {
        CreatedCallsForNothing(g, s, t, cs, s', c);
      }
      NothingCalledNothingListed(s', t, cs');
    }
  }

  lemma CreateKeepsOthers(g: GroupState, s: Schema, t: Schema, cs: seq<SchemaChange>, n: string)
    requires Planned(g, s, t, cs) && n in g.tables && !HasClass(t, n)
    ensures var r := Create(g, cs); n in r.tables && r.tables[n] == g.tables[n] && TableOk(g.tables[n])
  {
    PlanNames(g, s, t, cs);
    OtherIsUnmentioned(g, s, t, cs, n);
    UnmentionedStays(g.tables[n], cs, n, Building);
    assert TableOk(g.tables[n]);
    hide Planned, Create, Build, Passed;
    assert TableFor(g, n) == g.tables[n];
  }

  lemma CreatedNames(g: GroupState, s: Schema, t: Schema, cs: seq<SchemaChange>)
    requires Planned(g, s, t, cs)
    ensures forall n :: n in Create(g, cs).tables <==> n in g.tables || HasClass(t, n)
  {
    PlanNames(g, s, t, cs);
  }

  /** Even then the group stays well formed. */
  lemma CreateKeepsGroup(g: GroupState, s: Schema, t: Schema, cs: seq<SchemaChange>)
    requires Planned(g, s, t, cs)
    ensures GroupOk(Create(g, cs))
  {
    var r := Create(g, cs);
    CreatedNames(g, s, t, cs);
    hide Planned, Create, TypesFit, TableOk, LinksIn;
    forall n | n in r.tables
      ensures TableOk(r.tables[n]) && LinksIn(r.tables[n], r.tables.Keys)
    {
      if o :| o in t && o.name == n {
        CreatedClassIsOk(g, s, t, cs, o);
        assert r.tables[n] == TableFor(r, n);
        PlanTarget(g, s, t, cs);
        ServedLinks(r.tables[n], t, o, r.tables.Keys);
      } else {
        CreateKeepsOthers(g, s, t, cs, n);
        PlanTable(g, s, t, cs, n);
        LinksStay(g.tables[n], g.tables.Keys, r.tables.Keys);
      }
    }
  }

  lemma PlanTarget(g: GroupState, s: Schema, t: Schema, cs: seq<SchemaChange>)
    requires Planned(g, s, t, cs)
    ensures Target(t)
  {
  }

  lemma LinksStay(tb: Table, names: set<string>, more: set<string>)
    requires LinksIn(tb, names) && names <= more
    ensures LinksIn(tb, more)
  {
  }

  lemma CreatedClassIsOk(g: GroupState, s: Schema, t: Schema, cs: seq<SchemaChange>, o: ObjectSchema)
    requires Planned(g, s, t, cs) && o in t
    ensures TableOk(TableFor(Create(g, cs), o.name)) && TypesFit(TableFor(Create(g, cs), o.name), o)
  {
    PlanNames(g, s, t, cs);
    TargetIsDeclarable(t, o);
    var n := o.name;
    if e :| e in s && e.name == n {
      DiffOfClass(s, t, cs, e, o);
      CreatedIsOk(n, g.tables[n], PkOf(g, n), o, cs);
    } else {
      NewClassIsServed(g, s, t, cs, o);
    }
  }

  // ----- additive mode -----

  /** What additive mode accepts. */
  predicate AdditiveOk(c: SchemaChange) {
    c.AddTable? || c.RemoveTable? || c.AddInitialProperties? || c.AddProperty? || c.RemoveProperty? || c.AddIndex? || c.RemoveIndex?
  }

  ghost predicate AcceptsAdditive(cs: seq<SchemaChange>) {
    forall c :: c in cs ==> AdditiveOk(c)
  }

  function AdditiveStep(g: GroupState, c: SchemaChange, updateIndexes: bool): GroupState {
    match c
    case AddTable(o) => TableCreated(g, o)
    case AddInitialProperties(_) => TablesAfter(g, c, Building)
    case AddProperty(_, _) => TablesAfter(g, c, Building)
    case AddIndex(_, _) => if updateIndexes then TablesAfter(g, c, Building) else g
    case RemoveIndex(_, _) => if updateIndexes then TablesAfter(g, c, Building) else g
    case _ => g
  }

  function Additive(g: GroupState, cs: seq<SchemaChange>, updateIndexes: bool): GroupState {
    if cs == [] then g else AdditiveStep(Additive(g, cs[..|cs| - 1], updateIndexes), cs[|cs| - 1], updateIndexes)
  }

  lemma AdditiveStepIsBuild(g: GroupState, c: SchemaChange)
    requires AdditiveOk(c)
    ensures AdditiveStep(g, c, true) == BuildStep(g, c)
  {
    if c.RemoveProperty? || c.RemoveTable? {
      if c.cls.name in g.tables {
        AddTableAlone(g.tables[c.cls.name], c, Building);
      }
    }
  }

  /** On what it accepts, additive mode does what the building pass of a migration does. */
  lemma {:induction false} AdditiveIsBuild(g: GroupState, cs: seq<SchemaChange>)
    requires AcceptsAdditive(cs)
    ensures Additive(g, cs, true) == Build(g, cs)
  {
    if cs != [] {
      var cs0, c := cs[..|cs| - 1], cs[|cs| - 1];
      assert cs == cs0 + [c];
      AdditiveIsBuild(g, cs0);
      AdditiveStepIsBuild(Build(g, cs0), c);
    }
  }

  /** What must not change: the name, the type and the values. */
  predicate SameData(a: Column, b: Column) {
    Unindexed(a) == Unindexed(b)
  }

  lemma AdditiveColumn(name: string, t0: Table, pk: string, t: ObjectSchema, cs: seq<SchemaChange>, i: nat)
    requires i < |t0.columns| && ColumnOk(t0.columns[i], t0.rows) && ClassDeclarable(t) && Distinct(cs) && AcceptsAdditive(cs)
    requires ClassDiff(ReadClass(name, t0, pk), t, cs)
    ensures var col := ColumnRebuilt(t0.columns[i], i, t0.rows, cs, name, Building); var p := ReadClass(name, t0, pk).persisted[i];
            && SameData(col, t0.columns[i])
            && (!Dropped(t, p) ==> Fits(col, t))
            && (Dropped(t, p) ==> col == t0.columns[i])
  {
    var e := ReadClass(name, t0, pk);
    var col, p := t0.columns[i], e.persisted[i];
    var tc, ic := TypeChange(e, t, p), IndexChange(e, t, p);
    hide ObjectSchema.PropertyForName, ObjectSchema.PropertyIsComputed, ClassDeclarable, NewColumn, ColumnAfter,
         KeepsCells, ClassDiff, Distinct, Fits;
    TouchesAreKnown(name, t0, pk, t, cs, i);
    CalledChangesAreListed(e, t, cs, p);
    assert tc.None?;
    ContentsRebuilt(col, i, t0.rows, cs, name, tc, ic);
    if Dropped(t, p) {
      UntouchedStays(col, i, t0.rows, cs, name, Building);
    } else {
      CreatedColumnFits(name, t0, pk, t, cs, i);
      if ColumnUndone(cs, name, p) {
        UndoneIsKnown(name, t0, pk, t, cs, i);
      }
      assert FitsType(ColumnRebuilt(col, i, t0.rows, cs, name, Building), t);
      FitsFromParts(ColumnRebuilt(col, i, t0.rows, cs, name, Building), t, p);
    }
  }

  lemma FitsFromParts(col: Column, t: ObjectSchema, p: Property)
    requires !Dropped(t, p) && p.name == col.name && FitsType(col, t)
    ensures Fits(col, t) <==> col.indexed == Counterpart(t, p).RequiresIndex()
  {
  }

  /** Old columns hold what they held, in their places; every column fits or is extra; every declared property has one. */
  ghost predicate Extended(tb: Table, t0: Table, t: ObjectSchema) {
    && TableOk(tb) && tb.rows == t0.rows && |t0.columns| <= |tb.columns|
    && (forall i :: 0 <= i < |t0.columns| ==> SameData(tb.columns[i], t0.columns[i]))
    && (forall i :: 0 <= i < |t0.columns| ==> Fits(tb.columns[i], t) || Dropped(t, PropertyOf(tb.columns[i], i, t.primaryKey)))
    && (forall i :: |t0.columns| <= i < |tb.columns| ==> Fits(tb.columns[i], t))
    && (forall q :: q in t.persisted ==> HasColumn(tb.columns, q.name))
  }

  lemma AdditiveTable(name: string, t0: Table, pk: string, t: ObjectSchema, cs: seq<SchemaChange>)
    requires TableOk(t0) && ClassDeclarable(t) && Distinct(cs) && AcceptsAdditive(cs)
    requires ClassDiff(ReadClass(name, t0, pk), t, cs)
    ensures Extended(Rebuilt(t0, cs, name, Building), t0, t)
  {
    var e, tb := ReadClass(name, t0, pk), Rebuilt(t0, cs, name, Building);
    CreatedExtends(name, t0, pk, t, cs);
    RebuiltKeepsSize(t0, cs, name, Building);
    ExtendedNamesDiffer(name, t0, pk, t, cs, tb.columns);
    hide Rebuilt, ClassDeclarable, Distinct, ClassDiff, AcceptsAdditive, UniqueColumns, Appended;
    forall i | 0 <= i < |t0.columns|
      ensures SameData(tb.columns[i], t0.columns[i]) && ColumnOk(tb.columns[i], t0.rows)
      ensures Fits(tb.columns[i], t) || Dropped(t, PropertyOf(tb.columns[i], i, t.primaryKey))
    {
      AdditiveColumn(name, t0, pk, t, cs, i);
      hide ColumnRebuilt;
      if Fits(tb.columns[i], t) {
        FittingIsOk(tb.columns[i], t, t0.rows);
      }
    }
    forall i | |t0.columns| <= i < |tb.columns|
      ensures Fits(tb.columns[i], t) && ColumnOk(tb.columns[i], t0.rows)
    {
      assert tb.columns[i] == tb.columns[|t0.columns|..][i - |t0.columns|];
      AppendedIsNew(e, t, cs, t0.rows, tb.columns[i]);
    }
    forall q | q in t.persisted
      ensures HasColumn(tb.columns, q.name)
    {
      var i := DeclaredIsExtended(name, t0, pk, t, cs, tb.columns, q);
    }
  }

  lemma AdditiveTableCalls(name: string, tb: Table, t0: Table, t: ObjectSchema, c: SchemaChange)
    requires Extended(tb, t0, t) && ClassDeclarable(t) && ClassCalls(ReadClass(name, tb, t.primaryKey), t, c)
    ensures c.RemoveProperty?
  {
    var e := ReadClass(name, tb, t.primaryKey);
    forall q | q in t.persisted
      ensures e.PropertyForName(q.name).Some?
    {
      var i :| 0 <= i < |tb.columns| && tb.columns[i].name == q.name;
      assert e.persisted[i] in e.persisted;
    }
    forall p | p in e.persisted && !Dropped(t, p)
      ensures Kept(t, p) && p.typ.nullable == Counterpart(t, p).typ.nullable
      ensures Counterpart(t, p).RequiresIndex() ==> p.isIndexed
      ensures p.RequiresIndex() ==> Counterpart(t, p).RequiresIndex()
    {
      var i :| 0 <= i < |tb.columns| && e.persisted[i] == p;
      FittingColumnCallsForNothing(tb.columns[i], i, t);
    }
    hide ObjectSchema.PropertyForName, ObjectSchema.PropertyIsComputed, Extended, ClassDeclarable, Property.RequiresIndex;
  }

  /** A declared class of the target gets, in additive mode, an extended table or a new one that serves it. */
  lemma AdditiveClass(g: GroupState, s: Schema, t: Schema, cs: seq<SchemaChange>, o: ObjectSchema)
    requires Planned(g, s, t, cs) && AcceptsAdditive(cs) && o in t
    ensures var r := Additive(g, cs, true);
            o.name in r.tables && PkOf(r, o.name) == o.primaryKey && Extended(r.tables[o.name], TableFor(g, o.name), o)
  {
    AdditiveIsBuild(g, cs);
    PlanNames(g, s, t, cs);
    TargetIsDeclarable(t, o);
    DiffKeys(s, t, cs, o);
    var n := o.name;
    if e :| e in s && e.name == n {
      DiffOfClass(s, t, cs, e, o);
      AdditiveTable(n, g.tables[n], PkOf(g, n), o, cs);
    } else {
      NewClassIsBuilt(g, s, t, cs, o);
    }
    BuildKey(g, cs, n, o.primaryKey);
  }

  lemma NewClassIsBuilt(g: GroupState, s: Schema, t: Schema, cs: seq<SchemaChange>, o: ObjectSchema)
    requires Planned(g, s, t, cs) && o in t && !HasClass(s, o.name)
    ensures TableFor(g, o.name) == EMPTY && Extended(Rebuilt(EMPTY, cs, o.name, Building), EMPTY, o)
  {
    hide Calls, Rebuilt, ClassDeclarable, ClassOk, WellDeclared, CoreOf, DefaultCell, NullsFit;
    forall c | About(c, o.name)
      ensures c in cs <==> c == AddTable(o) || c == AddInitialProperties(o)
    {
      CallsOfNewClass(s, t, c, o);
      DiffIsCalled(s, t, cs, c);
    }
    assert OnlyCreated(cs, o) && AddInitialProperties(o) in cs;
    TargetIsDeclarable(t, o);
    FreshTable(cs, o);
    FreshTableServes(o);
  }

  /** A class that the target does not mention keeps its table. */
  lemma AdditiveKeepsOthers(g: GroupState, s: Schema, t: Schema, cs: seq<SchemaChange>, n: string)
    requires Planned(g, s, t, cs) && AcceptsAdditive(cs) && n in g.tables && !HasClass(t, n)
    ensures var r := Additive(g, cs, true); n in r.tables && r.tables[n] == g.tables[n]
  {
    AdditiveIsBuild(g, cs);
    PlanNames(g, s, t, cs);
    OtherIsUnmentioned(g, s, t, cs, n);
    UnmentionedStays(g.tables[n], cs, n, Building);
    hide Planned, Additive, Rebuilt, Build, AcceptsAdditive;
    assert TableFor(g, n) == g.tables[n];
  }

  /** Additive mode loses nothing: every old column is still in its place, with its name, type and values. */
  lemma AdditiveLosesNothing(g: GroupState, s: Schema, t: Schema, cs: seq<SchemaChange>, n: string, i: nat)
    requires Planned(g, s, t, cs) && AcceptsAdditive(cs) && n in g.tables && i < |g.tables[n].columns|
    ensures var r := Additive(g, cs, true);
            && n in r.tables && r.tables[n].rows == g.tables[n].rows && i < |r.tables[n].columns|
            && SameData(r.tables[n].columns[i], g.tables[n].columns[i])
  {
    if o :| o in t && o.name == n {
      AdditiveClass(g, s, t, cs, o);
    } else {
      AdditiveKeepsOthers(g, s, t, cs, n);
    }
  }

  lemma AdditiveCallsOnlyRemovals(g: GroupState, s: Schema, t: Schema, cs: seq<SchemaChange>, s': Schema, c: SchemaChange)
    requires Planned(g, s, t, cs) && AcceptsAdditive(cs)
    requires IsSchemaOf(Additive(g, cs, true), s') && Calls(s', t, c)
    ensures c.RemoveProperty?
  {
    var r := Additive(g, cs, true);
    forall o | o in t
      ensures o.name in r.tables
    {
      AdditiveClass(g, s, t, cs, o);
    }
    if !c.AddTable? && !c.AddInitialProperties? {
      var e, o :| e in s' && o in t && e.name == o.name && ClassCalls(e, o, c);
      AdditiveClass(g, s, t, cs, o);
      TargetIsDeclarable(t, o);
      hide ClassCalls, Additive, Extended, ClassDeclarable;
      assert e == ReadClass(o.name, r.tables[o.name], o.primaryKey);
      AdditiveTableCalls(o.name, r.tables[o.name], TableFor(g, o.name), o, c);
    }
  }

  /** After additive mode the schema that is read back calls for no change but the removal of extra properties. */
  lemma AdditiveLeavesOnlyRemovals(g: GroupState, s: Schema, t: Schema, cs: seq<SchemaChange>,
                                   s': Schema, cs': seq<SchemaChange>, c: SchemaChange)
    requires Planned(g, s, t, cs) && AcceptsAdditive(cs)
    requires IsSchemaOf(Additive(g, cs, true), s') && IsDiff(s', t, cs') && c in cs'
    ensures c.RemoveProperty?
  {
    DiffIsCalled(s', t, cs', c);
    AdditiveCallsOnlyRemovals(g, s, t, cs, s', c);
  }

  /** The group stays well formed. */
  lemma AdditiveKeepsGroup(g: GroupState, s: Schema, t: Schema, cs: seq<SchemaChange>)
    requires Planned(g, s, t, cs) && AcceptsAdditive(cs)
    ensures GroupOk(Additive(g, cs, true))
  {
    var r := Additive(g, cs, true);
    AdditiveIsBuild(g, cs);
    PlanNames(g, s, t, cs);
    forall n | n in r.tables
      ensures TableOk(r.tables[n]) && LinksIn(r.tables[n], r.tables.Keys)
    {
      if o :| o in t && o.name == n {
        AdditiveClass(g, s, t, cs, o);
        PlanTarget(g, s, t, cs);
        PlanTable(g, s, t, cs, n);
        hide Planned, Build, Additive;
        ExtendedLinks(r.tables[n], TableFor(g, n), t, o, g.tables.Keys, r.tables.Keys);
      } else {
        AdditiveKeepsOthers(g, s, t, cs, n);
        LinksStay(g.tables[n], g.tables.Keys, r.tables.Keys);
      }
    }
  }

  lemma PlanTable(g: GroupState, s: Schema, t: Schema, cs: seq<SchemaChange>, n: string)
    requires Planned(g, s, t, cs)
    ensures LinksIn(TableFor(g, n), g.tables.Keys)
  {
  }

  lemma ExtendedLinks(tb: Table, t0: Table, t: Schema, o: ObjectSchema, names: set<string>, more: set<string>)
    requires Target(t) && o in t && Extended(tb, t0, o) && LinksIn(t0, names) && names <= more
    requires forall m :: HasClass(t, m) ==> m in more
    ensures LinksIn(tb, more)
  {
    forall i | 0 <= i < |tb.columns|
      ensures LinkIn(tb.columns[i].core, more)
    {
      if i < |t0.columns| {
        assert SameData(tb.columns[i], t0.columns[i]);
        assert tb.columns[i].core == t0.columns[i].core && LinkIn(t0.columns[i].core, names);
      } else {
        var one := Table([tb.columns[i]], 0);
        assert FitsType(one.columns[0], o);
        ServedLinks(one, t, o, more);
        assert LinkIn(one.columns[0].core, more);
      }
    }
  }

  // ----- the same version: only tables and indexes may differ -----

  predicate NonMigrationOk(c: SchemaChange) {
    c.AddTable? || c.RemoveTable? || c.AddInitialProperties? || c.AddIndex? || c.RemoveIndex?
  }

  ghost predicate AcceptsNonMigration(cs: seq<SchemaChange>) {
    forall c :: c in cs ==> NonMigrationOk(c)
  }

  lemma NothingDropped(name: string, t0: Table, pk: string, t: ObjectSchema, cs: seq<SchemaChange>)
    requires ClassDiff(ReadClass(name, t0, pk), t, cs) && AcceptsNonMigration(cs)
    ensures forall i :: 0 <= i < |t0.columns| ==> t.PropertyForName(t0.columns[i].name).Some?
    ensures forall i :: 0 <= i < |t0.columns| ==> !t.PropertyIsComputed(t.PropertyForName(t0.columns[i].name).value)
  {
    var e := ReadClass(name, t0, pk);
    forall i | 0 <= i < |t0.columns|
      ensures !Dropped(t, e.persisted[i])
    {
      var c := RemoveProperty(e, e.persisted[i]);
      assert c !in cs;
      assert About(c, name) && (ClassCalls(e, t, c) ==> c in cs);
    }
    forall i | 0 <= i < |t0.columns|
      ensures t.PropertyForName(t0.columns[i].name).Some?
      ensures !t.PropertyIsComputed(t.PropertyForName(t0.columns[i].name).value)
    {
      assert !Dropped(t, e.persisted[i]);
    }
  }

  lemma ExtendedServes(tb: Table, t0: Table, t: ObjectSchema)
    requires Extended(tb, t0, t)
    requires forall i :: 0 <= i < |t0.columns| ==> t.PropertyForName(t0.columns[i].name).Some?
    requires forall i :: 0 <= i < |t0.columns| ==> !t.PropertyIsComputed(t.PropertyForName(t0.columns[i].name).value)
    ensures Serves(tb, t)
  {
    forall i | 0 <= i < |t0.columns|
      ensures Fits(tb.columns[i], t)
    {
      assert SameData(tb.columns[i], t0.columns[i]);
      assert tb.columns[i].name == t0.columns[i].name;
    }
  }

  lemma NonMigrationCallsForNothing(g: GroupState, s: Schema, t: Schema, cs: seq<SchemaChange>, s': Schema, c: SchemaChange)
    requires Planned(g, s, t, cs) && AcceptsNonMigration(cs) && IsSchemaOf(Build(g, cs), s')
    ensures !Calls(s', t, c)
  {
    AdditiveIsBuild(g, cs);
    forall o | o in t
      ensures var r := Build(g, cs);
              o.name in r.tables && Serves(r.tables[o.name], o) && PkOf(r, o.name) == o.primaryKey
    {
      NonMigrationClass(g, s, t, cs, o);
    }
    ServedCallsForNothing(Build(g, cs), s', t, c);
  }

  /** When only tables and indexes differ, the same pass leaves nothing to do at all. */
  lemma NonMigrationLeavesNothingToDo(g: GroupState, s: Schema, t: Schema, cs: seq<SchemaChange>,
                                      s': Schema, cs': seq<SchemaChange>)
    requires Planned(g, s, t, cs) && AcceptsNonMigration(cs)
    requires IsSchemaOf(Build(g, cs), s') && IsDiff(s', t, cs')
    ensures cs' == []
  {
    forall c
      ensures !Calls(s', t, c)
    {
      NonMigrationCallsForNothing(g, s, t, cs, s', c);
    }
    NothingCalledNothingListed(s', t, cs');
  }

  lemma NonMigrationClass(g: GroupState, s: Schema, t: Schema, cs: seq<SchemaChange>, o: ObjectSchema)
    requires Planned(g, s, t, cs) && AcceptsNonMigration(cs) && o in t
    ensures var r := Additive(g, cs, true);
            o.name in r.tables && Serves(r.tables[o.name], o) && PkOf(r, o.name) == o.primaryKey
  {
    AdditiveClass(g, s, t, cs, o);
    var n, t0 := o.name, TableFor(g, o.name);
    assert forall i :: 0 <= i < |t0.columns| ==> t0.columns[i] in t0.columns;
    if e :| e in s && e.name == n {
      DiffOfClass(s, t, cs, e, o);
      NothingDropped(n, t0, PkOf(g, n), o, cs);
    } else {
      NewClassIsBuilt(g, s, t, cs, o);
    }
    hide Planned, Additive, AcceptsNonMigration;
    ExtendedServes(Additive(g, cs, true).tables[n], t0, o);
  }
}
