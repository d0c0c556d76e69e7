/** Carrying out a diff leaves a group whose schema calls for nothing more. */
module Upgrades {
  import opened Options
  import opened Schemas
  import opened Tables
  import opened TableUpgrades
  import opened ClassUpgrades
  import opened SinglePass
  import opened Groups

  // ----- what a diff says about one class -----

  lemma DiffOfClass(s: Schema, t: Schema, cs: seq<SchemaChange>, e: ObjectSchema, o: ObjectSchema)
    requires Sorted(s) && Sorted(t) && IsDiff(s, t, cs) && e in s && o in t && e.name == o.name
    ensures ClassDiff(e, o, cs)
  {
    forall c | About(c, e.name)
      ensures c in cs <==> ClassCalls(e, o, c)
    {
      hide ClassCalls, Sorted, IsDiff;
      CallsOfClass(s, t, c, e, o);
      assert IsDiff(s, t, cs) ==> (c in cs <==> Calls(s, t, c)) by {
        DiffIsCalled(s, t, cs, c);
      }
    }
  }

  lemma DiffBorn(names: set<string>, s: Schema, t: Schema, cs: seq<SchemaChange>, n: string)
    requires Sorted(t) && IsDiff(s, t, cs) && (forall m :: HasClass(s, m) ==> m in names)
    ensures Born(names, cs, n)
    ensures HasClass(t, n) ==> n in names || CreatesTable(cs, n)
    ensures CreatesTable(cs, n) ==> HasClass(t, n)
  {
    if o :| o in t && o.name == n {
      if n !in names {
        CallsOfNewClass(s, t, AddTable(o), o);
        DiffIsCalled(s, t, cs, AddTable(o));
        BornByTable(names, cs, n, AddTable(o));
      }
    } else {
      forall c | c in cs
        ensures !About(c, n)
      {
        if About(c, n) {
          CallsOfOldClass(s, t, c, n);
          assert false;
        }
      }
    }
    forall c | c in cs && c.AddTable? && About(c, n)
      ensures HasClass(t, n)
    {
      assert Calls(s, t, c);
    }
  }

  lemma BornByTable(names: set<string>, cs: seq<SchemaChange>, n: string, c: SchemaChange)
    requires TablesFirst(cs) && c in cs && c.AddTable? && About(c, n)
    ensures Born(names, cs, n)
  {
    var j :| 0 <= j < |cs| && cs[j] == c;
    forall k | 0 <= k < |cs| && About(cs[k], n) && !cs[k].AddTable?
      ensures exists j :: 0 <= j < k && cs[j].AddTable? && About(cs[j], n)
    {
      assert j < k;
    }
  }

  // ----- classes that are new, and classes that no list mentions -----

  lemma {:induction false} UnmentionedStays(tb: Table, cs: seq<SchemaChange>, n: string, pass: Pass)
    requires forall c :: c in cs ==> !About(c, n)
    ensures Rebuilt(tb, cs, n, pass) == tb && Passed(tb, cs, n, pass) == tb
  {
    if cs != [] {
      assert cs == cs[..|cs| - 1] + [cs[|cs| - 1]];
      UnmentionedStays(tb, cs[..|cs| - 1], n, pass);
    }
  }

  /** Only the creation of the table and of its first columns is listed for the class. */
  ghost predicate OnlyCreated(cs: seq<SchemaChange>, o: ObjectSchema) {
    forall c :: c in cs && About(c, o.name) ==> c == AddTable(o) || c == AddInitialProperties(o)
  }

  lemma {:induction false} FreshTable(cs: seq<SchemaChange>, o: ObjectSchema)
    requires OnlyCreated(cs, o) && Distinct(cs)
    ensures var made := Table(if AddInitialProperties(o) in cs then NewColumns(o.persisted, 0) else [], 0);
            Rebuilt(EMPTY, cs, o.name, Building) == made && Passed(EMPTY, cs, o.name, Building) == made
  {
    if cs != [] {
      var cs0, c := cs[..|cs| - 1], cs[|cs| - 1];
      assert cs == cs0 + [c];
      assert c !in cs0;
      FreshTable(cs0, o);
      AddTableAlone(Rebuilt(EMPTY, cs0, o.name, Building), c, Building);
      hide NewColumns, ColumnAfter;
      if c == AddInitialProperties(o) {
        assert [] + NewColumns(o.persisted, 0) == NewColumns(o.persisted, 0);
      }
    }
  }

  lemma {:induction false} FreshTableStays(tb: Table, cs: seq<SchemaChange>, o: ObjectSchema)
    requires OnlyCreated(cs, o)
    ensures Passed(tb, cs, o.name, Reindexing) == tb
  {
    if cs != [] {
      assert cs == cs[..|cs| - 1] + [cs[|cs| - 1]];
      FreshTableStays(tb, cs[..|cs| - 1], o);
    }
  }

  lemma FreshTableServes(o: ObjectSchema)
    requires ClassDeclarable(o)
    ensures Serves(Table(NewColumns(o.persisted, 0), 0), o)
  {
    var tb := Table(NewColumns(o.persisted, 0), 0);
    forall i | 0 <= i < |tb.columns|
      ensures Fits(tb.columns[i], o) && ColumnOk(tb.columns[i], 0)
    {
      NewColumnFits(o, o.persisted[i], 0);
    }
    forall q | q in o.persisted
      ensures HasColumn(tb.columns, q.name)
    {
      var i :| 0 <= i < |o.persisted| && o.persisted[i] == q;
      assert tb.columns[i].name == q.name;
    }
  }

  // ----- the primary keys -----

  lemma DiffKeys(s: Schema, t: Schema, cs: seq<SchemaChange>, o: ObjectSchema)
    requires Sorted(s) && Target(t) && IsDiff(s, t, cs) && o in t
    ensures KeysAgree(cs, o.name, o.primaryKey)
    ensures forall e :: e in s && e.name == o.name && e.primaryKey != o.primaryKey ==> KeyIsSet(cs, o.name)
    ensures !HasClass(s, o.name) ==> KeyIsSet(cs, o.name)
  {
    TargetIsDeclarable(t, o);
    if e :| e in s && e.name == o.name {
      forall e' | e' in s && e'.name == o.name
        ensures e' == e
      {
        ClassIsUnique(s, e, e');
      }
      DiffOfClass(s, t, cs, e, o);
      KeyCalled(e, o, cs);
    } else {
      forall c | About(c, o.name)
        ensures c in cs <==> c == AddTable(o) || c == AddInitialProperties(o)
      {
        CallsOfNewClass(s, t, c, o);
        DiffIsCalled(s, t, cs, c);
      }
      assert SetsKey(AddTable(o), o.name);
    }
  }

  lemma KeyCalled(e: ObjectSchema, o: ObjectSchema, cs: seq<SchemaChange>)
    requires ClassDiff(e, o, cs) && ClassDeclarable(o) && e.name == o.name
    ensures KeysAgree(cs, o.name, o.primaryKey)
    ensures e.primaryKey != o.primaryKey ==> KeyIsSet(cs, o.name)
  {
    var k := o.PrimaryKeyProperty();
    assert KeyName(k) == o.primaryKey;
    var c := ChangePrimaryKey(e, k);
    if e.primaryKey != o.primaryKey {
      assert ClassCalls(e, o, c) && About(c, e.name);
      assert SetsKey(c, o.name);
    }
    forall d | d in cs && SetsKey(d, o.name)
      ensures KeySet(d) == o.primaryKey
    {
      assert ClassCalls(e, o, d);
    }
  }

  // ----- the version bump without a migration function -----

  /** The group as the file has it, its schema, the wanted schema, and a list of changes between them. */
  ghost predicate Planned(g: GroupState, s: Schema, t: Schema, cs: seq<SchemaChange>) {
    GroupOk(g) && IsSchemaOf(g, s) && Target(t) && IsDiff(s, t, cs)
  }

  lemma PlanNames(g: GroupState, s: Schema, t: Schema, cs: seq<SchemaChange>)
    requires Planned(g, s, t, cs)
    ensures forall c :: c in cs ==> c.cls.name in Build(g, cs).tables
    ensures forall n :: n in Build(g, cs).tables <==> n in g.tables || HasClass(t, n)
    ensures forall n :: TableFor(Build(g, cs), n) == Rebuilt(TableFor(g, n), cs, n, Building)
    ensures forall n :: n in Create(g, cs).tables <==> n in g.tables || HasClass(t, n)
    ensures forall n :: TableFor(Create(g, cs), n) == Passed(TableFor(g, n), cs, n, Building)
  {
    forall n
      ensures n in Build(g, cs).tables <==> n in g.tables || HasClass(t, n)
      ensures TableFor(Build(g, cs), n) == Rebuilt(TableFor(g, n), cs, n, Building)
      ensures n in Create(g, cs).tables <==> n in g.tables || HasClass(t, n)
      ensures TableFor(Create(g, cs), n) == Passed(TableFor(g, n), cs, n, Building)
    {
      DiffBorn(g.tables.Keys, s, t, cs, n);
      BuildOneClass(g, cs, n);
      CreateOneClass(g, cs, n);
    }
    forall c | c in cs
      ensures c.cls.name in g.tables || HasClass(t, c.cls.name)
    {
      assert Calls(s, t, c);
      if !HasClass(t, c.cls.name) {
        CallsOfOldClass(s, t, c, c.cls.name);
      }
    }
  }

  lemma UpgradeOneClass(g: GroupState, s: Schema, t: Schema, cs: seq<SchemaChange>, n: string)
    requires Planned(g, s, t, cs) && Upgrade(g, cs).Done?
    ensures var r := Upgrade(g, cs).group;
            && (n in r.tables <==> n in g.tables || HasClass(t, n))
            && TableFor(r, n) == Upgraded(TableFor(g, n), cs, n)
  {
    PlanNames(g, s, t, cs);
    hide Planned, TableFor;
    FinishOneClass(Build(g, cs), cs, n);
  }

  /** After the upgrade every class of the target has a table that serves it, under the right primary key. */
  lemma UpgradedClassIsServed(g: GroupState, s: Schema, t: Schema, cs: seq<SchemaChange>, o: ObjectSchema)
    requires Planned(g, s, t, cs) && Upgrade(g, cs).Done? && o in t
    ensures var r := Upgrade(g, cs).group;
            o.name in r.tables && Serves(r.tables[o.name], o) && PkOf(r, o.name) == o.primaryKey
  {
    UpgradeOneClass(g, s, t, cs, o.name);
    TargetIsDeclarable(t, o);
    DiffKeys(s, t, cs, o);
    var n, built := o.name, Build(g, cs);
    if e :| e in s && e.name == n {
      DiffOfClass(s, t, cs, e, o);
      UpgradedServes(n, g.tables[n], PkOf(g, n), o, cs);
    } else {
      NewClassIsServed(g, s, t, cs, o);
    }
    BuildKey(g, cs, n, o.primaryKey);
    FinishKey(built, cs, n, o.primaryKey);
  }

  lemma NewClassIsServed(g: GroupState, s: Schema, t: Schema, cs: seq<SchemaChange>, o: ObjectSchema)
    requires Planned(g, s, t, cs) && o in t && !HasClass(s, o.name)
    ensures TableFor(g, o.name) == EMPTY
    ensures Serves(Upgraded(EMPTY, cs, o.name), o) && Serves(Passed(EMPTY, cs, o.name, Building), o)
    ensures !IndexUndone(cs, o.name)
  {
    forall c | About(c, o.name)
      ensures c in cs <==> c == AddTable(o) || c == AddInitialProperties(o)
    {
      CallsOfNewClass(s, t, c, o);
      DiffIsCalled(s, t, cs, c);
    }
    assert OnlyCreated(cs, o) && AddInitialProperties(o) in cs;
    TargetIsDeclarable(t, o);
    FreshTable(cs, o);
    FreshTableStays(Rebuilt(EMPTY, cs, o.name, Building), cs, o);
    FreshTableServes(o);
  }

  /** A group whose tables serve the target has a schema that calls for nothing. */
  lemma ServedCallsForNothing(r: GroupState, s': Schema, t: Schema, c: SchemaChange)
    requires IsSchemaOf(r, s') && Target(t)
    requires forall o :: o in t ==> o.name in r.tables && Serves(r.tables[o.name], o) && PkOf(r, o.name) == o.primaryKey
    ensures !Calls(s', t, c)
  {
    if c.AddTable? || c.AddInitialProperties? {
    } else {
      forall e, o | e in s' && o in t && e.name == o.name
        ensures !ClassCalls(e, o, c)
      {
        TargetIsDeclarable(t, o);
        ServingCallsForNothing(o.name, r.tables[o.name], o, c);
      }
    }
  }

  lemma UpgradedCallsForNothing(g: GroupState, s: Schema, t: Schema, cs: seq<SchemaChange>, s': Schema, c: SchemaChange)
    requires Planned(g, s, t, cs) && Upgrade(g, cs).Done? && IsSchemaOf(Upgrade(g, cs).group, s')
    ensures !Calls(s', t, c)
  {
    var r := Upgrade(g, cs).group;
    forall o | o in t
      ensures o.name in r.tables && Serves(r.tables[o.name], o) && PkOf(r, o.name) == o.primaryKey
    {
      UpgradedClassIsServed(g, s, t, cs, o);
    }
    ServedCallsForNothing(r, s', t, c);
  }

  lemma FirstIsCalled(s: Schema, t: Schema, cs: seq<SchemaChange>)
    requires IsDiff(s, t, cs) && cs != []
    ensures exists c :: Calls(s, t, c)
  {
    DiffIsCalled(s, t, cs, cs[0]);
  }

  lemma NothingCalledNothingListed(s: Schema, t: Schema, cs: seq<SchemaChange>)
    requires IsDiff(s, t, cs) && forall c :: !Calls(s, t, c)
    ensures cs == []
  {
    hide Calls, IsDiff;
    if cs != [] {
      FirstIsCalled(s, t, cs);
    }
  }

  /**
   * Diff and upgrade belong together: in whatever admissible order the changes are listed, if no new primary
   * key has duplicates, the schema read back from the upgraded group calls for no change at all.
   */
  lemma UpgradeLeavesNothingToDo(g: GroupState, s: Schema, t: Schema, cs: seq<SchemaChange>, s': Schema, cs': seq<SchemaChange>)
    requires Planned(g, s, t, cs) && Upgrade(g, cs).Done?
    requires IsSchemaOf(Upgrade(g, cs).group, s') && IsDiff(s', t, cs')
    ensures cs' == []
  {
    forall c
      ensures !Calls(s', t, c)
    {
      UpgradedCallsForNothing(g, s, t, cs, s', c);
    }
    NothingCalledNothingListed(s', t, cs');
  }

  // ----- when the upgrade is refused -----

  ghost predicate SameKeys(a: Table, b: Table) {
    && |a.columns| == |b.columns|
    && forall i :: 0 <= i < |a.columns| ==> a.columns[i].name == b.columns[i].name && a.columns[i].cells == b.columns[i].cells
  }

  ghost predicate RemovesNothing(cs: seq<SchemaChange>, n: string) {
    forall c :: c in cs && About(c, n) ==> !c.RemoveProperty?
  }

  lemma NoRemovalBefore(cs: seq<SchemaChange>, n: string, c: SchemaChange)
    requires RemovalsLast(cs + [c]) && About(c, n) && !c.RemoveProperty?
    ensures RemovesNothing(cs, n)
  {
    var all := cs + [c];
    forall d | d in cs && About(d, n)
      ensures !d.RemoveProperty?
    {
      var i :| 0 <= i < |cs| && cs[i] == d;
      assert all[i] == d && all[|cs|] == c;
    }
  }

  lemma {:induction false} ReindexingKeepsKeys(tb: Table, cs: seq<SchemaChange>, n: string)
    requires RemovesNothing(cs, n)
    ensures SameKeys(Passed(tb, cs, n, Reindexing), tb)
  {
    if cs != [] {
      var cs0, c := cs[..|cs| - 1], cs[|cs| - 1];
      assert cs == cs0 + [c] && c in cs;
      ReindexingKeepsKeys(tb, cs0, n);
    }
  }

  lemma SameKeysSameAnswer(a: Table, b: Table, n: string)
    requires SameKeys(a, b)
    ensures KeyIsUnique(a, n) <==> KeyIsUnique(b, n)
  {
    var i, j := ColumnIndex(a.columns, n), ColumnIndex(b.columns, n);
    if i != NPOS {
      assert b.columns[i].name == n;
    }
    if j != NPOS {
      assert a.columns[j].name == n;
    }
    assert i == j;
  }

  /** The change makes a property the key whose values are not distinct. */
  predicate KeyClashes(g: GroupState, c: SchemaChange) {
    && c.ChangePrimaryKey? && c.newKey.Some? && c.cls.name in g.tables
    && !KeyIsUnique(g.tables[c.cls.name], c.newKey.value.name)
  }

  lemma FinishStepRefuses(g: GroupState, cs: seq<SchemaChange>, c: SchemaChange)
    requires RemovalsLast(cs + [c]) && (forall d :: d in cs + [c] ==> d.cls.name in g.tables) && Finish(g, cs).Done?
    ensures FinishStep(Finish(g, cs).group, c).DuplicateKey? <==> KeyClashes(g, c)
  {
    var n := c.cls.name;
    assert c in cs + [c];
    forall d | d in cs
      ensures d.cls.name in g.tables
    {
      assert d in cs + [c];
    }
    FinishOneClass(g, cs, n);
    if c.ChangePrimaryKey? && c.newKey.Some? {
      NoRemovalBefore(cs, n, c);
      ReindexingKeepsKeys(TableFor(g, n), cs, n);
      SameKeysSameAnswer(TableFor(Finish(g, cs).group, n), TableFor(g, n), c.newKey.value.name);
    }
    hide Passed, Finish, KeyIsUnique, TableAfter, TableAfterRemoval, SameKeys, RemovalsLast;
  }

  ghost predicate SomeKeyClashes(g: GroupState, cs: seq<SchemaChange>) {
    exists c :: c in cs && KeyClashes(g, c)
  }

  lemma {:induction false} FinishRefuses(g: GroupState, cs: seq<SchemaChange>)
    requires RemovalsLast(cs) && forall c :: c in cs ==> c.cls.name in g.tables
    ensures Finish(g, cs).DuplicateKey? <==> SomeKeyClashes(g, cs)
  {
    if cs != [] {
      var cs0, c := cs[..|cs| - 1], cs[|cs| - 1];
      assert cs == cs0 + [c];
      FinishRefuses(g, cs0);
      if Finish(g, cs0).Done? {
        FinishStepRefuses(g, cs0, c);
      }
      hide FinishStep, KeyClashes, RemovalsLast;
      assert SomeKeyClashes(g, cs) <==> SomeKeyClashes(g, cs0) || KeyClashes(g, c);
    }
  }

  /** An upgrade is refused exactly when some newly declared key has duplicate values once everything is built. */
  lemma UpgradeIsRefused(g: GroupState, s: Schema, t: Schema, cs: seq<SchemaChange>)
    requires Planned(g, s, t, cs)
    ensures Upgrade(g, cs).DuplicateKey? <==> SomeKeyClashes(Build(g, cs), cs)
  {
    PlanNames(g, s, t, cs);
    FinishRefuses(Build(g, cs), cs);
  }

  // ----- what the upgrade keeps -----

  /** The result is again a well-formed group. */
  lemma UpgradeKeepsGroup(g: GroupState, s: Schema, t: Schema, cs: seq<SchemaChange>)
    requires Planned(g, s, t, cs) && Upgrade(g, cs).Done?
    ensures GroupOk(Upgrade(g, cs).group)
  {
    var r := Upgrade(g, cs).group;
    forall n | n in r.tables
      ensures TableOk(r.tables[n]) && LinksIn(r.tables[n], r.tables.Keys)
    {
      UpgradeOneClass(g, s, t, cs, n);
      if o :| o in t && o.name == n {
        UpgradedClassIsServed(g, s, t, cs, o);
        forall m | HasClass(t, m)
          ensures m in r.tables
        {
          UpgradeOneClass(g, s, t, cs, m);
        }
        ServedLinks(r.tables[n], t, o, r.tables.Keys);
      } else {
        OtherClassStays(g, s, t, cs, n);
        forall m | m in g.tables
          ensures m in r.tables
        {
          UpgradeOneClass(g, s, t, cs, m);
        }
      }
    }
  }

  /** Columns of declared types link to declared classes. */
  lemma ServedLinks(tb: Table, t: Schema, o: ObjectSchema, names: set<string>)
    requires Target(t) && o in t && TypesFit(tb, o) && forall m :: HasClass(t, m) ==> m in names
    ensures LinksIn(tb, names)
  {
    assert ClassOk(t, o) && WellDeclared(o);
    forall i | 0 <= i < |tb.columns|
      ensures LinkIn(tb.columns[i].core, names)
    {
      var q := o.PropertyForName(tb.columns[i].name).value;
      assert FitsType(tb.columns[i], o);
      assert PropertyOk(t, o.name, q);
    }
  }

  lemma OtherIsUnmentioned(g: GroupState, s: Schema, t: Schema, cs: seq<SchemaChange>, n: string)
    requires Planned(g, s, t, cs) && !HasClass(t, n)
    ensures forall c :: c in cs ==> !About(c, n)
  {
    forall c | c in cs
      ensures !About(c, n)
    {
      DiffIsCalled(s, t, cs, c);
      if About(c, n) {
        CallsOfOldClass(s, t, c, n);
      }
    }
  }

  /** A class that the target does not mention keeps its table as it is. */
  lemma OtherClassStays(g: GroupState, s: Schema, t: Schema, cs: seq<SchemaChange>, n: string)
    requires Planned(g, s, t, cs) && Upgrade(g, cs).Done? && !HasClass(t, n) && n in g.tables
    ensures n in Upgrade(g, cs).group.tables && Upgrade(g, cs).group.tables[n] == g.tables[n]
  {
    UpgradeOneClass(g, s, t, cs, n);
    OtherIsUnmentioned(g, s, t, cs, n);
    UnmentionedStays(g.tables[n], cs, n, Building);
    UnmentionedStays(g.tables[n], cs, n, Reindexing);
  }

  /** The column of old is still in the table, with all its cells if they are to be kept. */
  ghost predicate StillHolds(tb: Table, col: Column, keeps: bool) {
    exists k :: 0 <= k < |tb.columns| && tb.columns[k].name == col.name && (keeps ==> tb.columns[k].cells == col.cells)
  }

  /** A property that stays keeps its rows' values, unless its type changes or null is no longer allowed. */
  lemma UpgradeKeepsValues(g: GroupState, s: Schema, t: Schema, cs: seq<SchemaChange>, e: ObjectSchema, o: ObjectSchema, i: nat)
    requires Planned(g, s, t, cs) && Upgrade(g, cs).Done? && e in s && o in t && e.name == o.name
    requires i < |e.persisted| && !Dropped(o, e.persisted[i])
    ensures var before, after := TableFor(g, e.name), TableFor(Upgrade(g, cs).group, e.name);
            && |e.persisted| == |before.columns| && after.rows == before.rows
            && StillHolds(after, before.columns[i], KeepsCells(TypeChange(e, o, e.persisted[i])))
  {
    var n := e.name;
    UpgradeOneClass(g, s, t, cs, n);
    TargetIsDeclarable(t, o);
    DiffOfClass(s, t, cs, e, o);
    var before, after := TableFor(g, n), TableFor(Upgrade(g, cs).group, n);
    UpgradeKeepsData(n, before, PkOf(g, n), o, cs, i);
    var k := PositionAfter(i, Removed(cs, n));
    hide Upgrade, Upgraded, KeepsCells, TypeChange, Removed, PositionAfter;
    assert after.columns[k].name == before.columns[i].name;
  }
}
