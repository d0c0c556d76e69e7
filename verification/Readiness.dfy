/** No assertion of the source fails while a diff is carried out. */
module Readiness {
  import opened Options
  import opened Schemas
  import opened Tables
  import opened TableUpgrades
  import opened ClassUpgrades
  import opened SinglePass
  import opened Groups
  import opened Upgrades

  /** What the source asserts of a group before it carries out a change. */
  predicate Ready(g: GroupState, c: SchemaChange) {
    match c
    case AddTable(_) => true
    case RemoveTable(_) => true
    case ChangePrimaryKey(_, _) => true
    case _ =>
      && c.cls.name in g.tables
      && (IsColumnChange(c) ==> ColumnReady(g.tables[c.cls.name], c.property.tableColumn))
      && LinksReady(c, g.tables.Keys)
  }

  predicate ColumnReady(tb: Table, i: int) {
    InTable(tb, i) && |tb.columns[i].cells| == tb.rows
  }

  /** The properties that a change makes columns for. */
  function NewProperties(c: SchemaChange): seq<Property> {
    match c
    case AddProperty(_, p) => [p]
    case AddInitialProperties(o) => o.persisted
    case ChangePropertyType(_, _, q) => [q]
    case MakePropertyNullable(_, p) => [p]
    case MakePropertyRequired(_, p) => [p]
    case _ => []
  }

  predicate LinksReady(c: SchemaChange, names: set<string>) {
    forall p :: p in NewProperties(c) ==> LinkIn(CoreOf(p), names)
  }

  /** A new key is one of the columns. */
  ghost predicate KeyReady(g: GroupState, c: SchemaChange) {
    c.ChangePrimaryKey? && c.newKey.Some? ==>
      c.cls.name in g.tables && HasColumn(g.tables[c.cls.name].columns, c.newKey.value.name)
  }

  /** Every change finds the group ready for it when its turn comes. */
  ghost predicate BuildRuns(g: GroupState, cs: seq<SchemaChange>) {
    forall k :: 0 <= k < |cs| ==> Ready(Build(g, cs[..k]), cs[k])
  }

  ghost predicate CreateRuns(g: GroupState, cs: seq<SchemaChange>) {
    forall k :: 0 <= k < |cs| ==> Ready(Create(g, cs[..k]), cs[k])
  }

  ghost predicate FinishRuns(g: GroupState, cs: seq<SchemaChange>) {
    forall k :: 0 <= k < |cs| && Finish(g, cs[..k]).Done? ==>
      Ready(Finish(g, cs[..k]).group, cs[k]) && KeyReady(Finish(g, cs[..k]).group, cs[k])
  }

  // ----- the columns are there -----

  ghost predicate CellsFill(tb: Table) {
    forall i :: 0 <= i < |tb.columns| ==> |tb.columns[i].cells| == tb.rows
  }

  lemma {:induction false} RebuiltFills(tb: Table, cs: seq<SchemaChange>, n: string, pass: Pass)
    requires CellsFill(tb)
    ensures CellsFill(Rebuilt(tb, cs, n, pass)) && CellsFill(Passed(tb, cs, n, pass))
  {
    if cs != [] {
      RebuiltFills(tb, cs[..|cs| - 1], n, pass);
      StepFills(Rebuilt(tb, cs[..|cs| - 1], n, pass), cs[|cs| - 1], pass);
      StepFills(Passed(tb, cs[..|cs| - 1], n, pass), cs[|cs| - 1], pass);
      hide TableAfter, TableAfterRemoval, CellsFill;
    }
  }

  lemma StepFills(tb: Table, c: SchemaChange, pass: Pass)
    requires CellsFill(tb)
    ensures CellsFill(TableAfter(tb, c, pass)) && CellsFill(TableAfterRemoval(TableAfter(tb, c, pass), c))
  {
  }

  lemma PrefixInRange(cs: seq<SchemaChange>, n: string, size: nat, k: nat)
    requires InRange(cs, n, size) && k <= |cs|
    ensures InRange(cs[..k], n, size)
  {
  }

  /** A column is still in its place when a change that is about it comes. */
  lemma ColumnStillThere(tb: Table, cs: seq<SchemaChange>, n: string, pass: Pass, k: nat)
    requires RemovalsLast(cs) && InRange(cs, n, |tb.columns|) && k < |cs|
    requires About(cs[k], n) && IsColumnChange(cs[k])
    ensures InTable(Passed(tb, cs[..k], n, pass), cs[k].property.tableColumn)
    ensures InTable(Rebuilt(tb, cs[..k], n, pass), cs[k].property.tableColumn)
  {
    var c, front := cs[k], cs[..k];
    assert c in cs;
    PrefixInRange(cs, n, |tb.columns|, k);
    RemovalsLastPrefix(cs, k);
    RemovalsLastPrefix(cs, k + 1);
    assert cs[..k + 1] == front + [c];
    RemovalFollows(front, n, c);
    RebuiltKeepsSize(tb, front, n, pass);
    PassedIsRebuiltLessRemoved(tb, front, n, pass);
    var cols := Rebuilt(tb, front, n, pass).columns;
    if c.RemoveProperty? {
      OneMoreGone(cols, Removed(front, n), c.property.tableColumn);
    } else {
      NothingGone(cols, {});
    }
  }

  lemma PlanInRange(g: GroupState, s: Schema, t: Schema, cs: seq<SchemaChange>, n: string)
    requires Planned(g, s, t, cs)
    ensures InRange(cs, n, |TableFor(g, n).columns|) && CellsFill(TableFor(g, n))
  {
    if o :| o in t && o.name == n {
      if e :| e in s && e.name == n {
        DiffOfClass(s, t, cs, e, o);
        ChangesAreInRange(n, g.tables[n], PkOf(g, n), o, cs);
      } else {
        forall c | c in cs && About(c, n)
          ensures !IsColumnChange(c)
        {
          DiffIsCalled(s, t, cs, c);
          CallsOfNewClass(s, t, c, o);
        }
      }
    } else {
      OtherIsUnmentioned(g, s, t, cs, n);
    }
  }

  // ----- the tables are there -----

  lemma BornPrefix(names: set<string>, cs: seq<SchemaChange>, n: string, k: nat)
    requires Born(names, cs, n) && k <= |cs|
    ensures Born(names, cs[..k], n)
  {
    forall i | 0 <= i < k && About(cs[..k][i], n) && !cs[..k][i].AddTable? && n !in names
      ensures exists j :: 0 <= j < i && cs[..k][j].AddTable? && About(cs[..k][j], n)
    {
      var j :| 0 <= j < i && cs[j].AddTable? && About(cs[j], n);
      assert cs[..k][j] == cs[j];
    }
  }

  /** Once tables have been created, every class of the group or of the target has one. */
  lemma TableThere(g: GroupState, s: Schema, t: Schema, cs: seq<SchemaChange>, k: nat, n: string)
    requires Planned(g, s, t, cs) && k < |cs| && !cs[k].AddTable?
    ensures n in g.tables || HasClass(t, n) ==> n in Build(g, cs[..k]).tables && n in Create(g, cs[..k]).tables
    ensures TableFor(Build(g, cs[..k]), n) == Rebuilt(TableFor(g, n), cs[..k], n, Building)
    ensures TableFor(Create(g, cs[..k]), n) == Passed(TableFor(g, n), cs[..k], n, Building)
  {
    DiffBorn(g.tables.Keys, s, t, cs, n);
    BornPrefix(g.tables.Keys, cs, n, k);
    BuildOneClass(g, cs[..k], n);
    CreateOneClass(g, cs[..k], n);
    if HasClass(t, n) && n !in g.tables {
      var c :| c in cs && c.AddTable? && About(c, n);
      var j :| 0 <= j < |cs| && cs[j] == c;
      assert j < k;
      assert cs[..k][j] == c;
    }
  }

  lemma CalledClassIsKnown(s: Schema, t: Schema, c: SchemaChange)
    requires Calls(s, t, c)
    ensures HasClass(t, c.cls.name)
  {
    if !HasClass(t, c.cls.name) {
      CallsOfOldClass(s, t, c, c.cls.name);
    }
  }

  /** Links lead to tables of the group or of the target. */
  ghost predicate LinksKnown(g: GroupState, t: Schema, c: SchemaChange) {
    forall p :: p in NewProperties(c) && p.typ.base == Object ==> p.objectType in g.tables || HasClass(t, p.objectType)
  }

  lemma PlanClass(g: GroupState, s: Schema, t: Schema, cs: seq<SchemaChange>, e: ObjectSchema)
    requires Planned(g, s, t, cs) && e in s
    ensures e.name in g.tables && e == ReadClass(e.name, g.tables[e.name], PkOf(g, e.name))
    ensures TableOk(g.tables[e.name]) && LinksIn(g.tables[e.name], g.tables.Keys)
  {
  }

  lemma PlanParts(g: GroupState, s: Schema, t: Schema, cs: seq<SchemaChange>)
    requires Planned(g, s, t, cs)
    ensures Target(t) && IsDiff(s, t, cs) && RemovalsLast(cs)
  {
  }

  lemma PlanLinks(g: GroupState, s: Schema, t: Schema, cs: seq<SchemaChange>, c: SchemaChange)
    requires Planned(g, s, t, cs) && c in cs
    ensures LinksKnown(g, t, c)
  {
    PlanParts(g, s, t, cs);
    DiffIsCalled(s, t, cs, c);
    hide Planned, IsDiff, Target, RemovalsLast, ClassCalls;
    if c.AddTable? || c.AddInitialProperties? {
      DeclaredLinks(t, c.cls);
    } else {
      var e, o :| e in s && o in t && e.name == o.name && ClassCalls(e, o, c);
      DeclaredLinks(t, o);
      PlanClass(g, s, t, cs, e);
      forall p | p in NewProperties(c) && p.typ.base == Object
        ensures p.objectType in g.tables || HasClass(t, p.objectType)
      {
        hide Calls, NewProperties, TableOk, ReadClass;
        NewPropertyLinks(e.name, g.tables[e.name], PkOf(g, e.name), o, c, p);
      }
    }
  }

  /** A column is made for a property of the table or of the declaration. */
  lemma NewPropertyLinks(n: string, tb: Table, pk: string, o: ObjectSchema, c: SchemaChange, p: Property)
    requires ClassCalls(ReadClass(n, tb, pk), o, c) && p in NewProperties(c) && p.typ.base == Object && TableOk(tb)
    ensures p in o.persisted || exists i :: 0 <= i < |tb.columns| && TargetOf(tb.columns[i].core) == p.objectType
                                           && (tb.columns[i].core.Link? || tb.columns[i].core.LinkList?)
  {
    var e := ReadClass(n, tb, pk);
    if c.MakePropertyNullable? || c.MakePropertyRequired? {
      var i :| 0 <= i < |tb.columns| && e.persisted[i] == c.property;
      assert ColumnOk(tb.columns[i], tb.rows);
    } else if c.ChangePropertyType? {
      NotDroppedIsPersisted(o, c.property);
    }
  }

  lemma DeclaredLinks(t: Schema, o: ObjectSchema)
    requires Target(t) && o in t
    ensures forall q :: q in o.persisted && q.typ.base == Object ==> HasClass(t, q.objectType)
  {
    assert ClassOk(t, o);
    forall q | q in o.persisted && q.typ.base == Object
      ensures HasClass(t, q.objectType)
    {
      assert PropertyOk(t, o.name, q);
    }
  }

  lemma PlanLinksReady(g: GroupState, s: Schema, t: Schema, cs: seq<SchemaChange>, k: nat)
    requires Planned(g, s, t, cs) && k < |cs| && !cs[k].AddTable?
    ensures LinksReady(cs[k], Build(g, cs[..k]).tables.Keys) && LinksReady(cs[k], Create(g, cs[..k]).tables.Keys)
  {
    PlanLinks(g, s, t, cs, cs[k]);
    forall p | p in NewProperties(cs[k]) && p.typ.base == Object
      ensures p.objectType in Build(g, cs[..k]).tables && p.objectType in Create(g, cs[..k]).tables
    {
      TableThere(g, s, t, cs, k, p.objectType);
    }
  }

  // ----- the passes run -----

  lemma PlanRuns(g: GroupState, s: Schema, t: Schema, cs: seq<SchemaChange>)
    requires Planned(g, s, t, cs)
    ensures BuildRuns(g, cs) && CreateRuns(g, cs)
  {
    forall k | 0 <= k < |cs|
      ensures Ready(Build(g, cs[..k]), cs[k]) && Ready(Create(g, cs[..k]), cs[k])
    {
      if !cs[k].AddTable? {
        PlanReady(g, s, t, cs, k);
      }
    }
  }

  lemma PlanReady(g: GroupState, s: Schema, t: Schema, cs: seq<SchemaChange>, k: nat)
    requires Planned(g, s, t, cs) && k < |cs| && !cs[k].AddTable?
    ensures Ready(Build(g, cs[..k]), cs[k]) && Ready(Create(g, cs[..k]), cs[k])
  {
    var c := cs[k];
    var n, front := c.cls.name, cs[..k];
    DiffIsCalled(s, t, cs, c);
    CalledClassIsKnown(s, t, c);
    TableThere(g, s, t, cs, k, n);
    PlanLinksReady(g, s, t, cs, k);
    PlanInRange(g, s, t, cs, n);
    RebuiltFills(TableFor(g, n), front, n, Building);
    if IsColumnChange(c) {
      ColumnStillThere(TableFor(g, n), cs, n, Building, k);
    }
    hide Planned, Build, Create, Rebuilt, Passed, LinksReady, Calls, HasClass;
  }

  lemma LaterInRange(cs: seq<SchemaChange>, n: string, size: nat, size': nat)
    requires InRange(cs, n, size) && size <= size'
    ensures InRange(cs, n, size')
  {
  }

  /** The key that a class changes to is one of its columns once everything is built. */
  lemma KeyIsBuilt(g: GroupState, s: Schema, t: Schema, cs: seq<SchemaChange>, c: SchemaChange)
    requires Planned(g, s, t, cs) && c in cs && c.ChangePrimaryKey? && c.newKey.Some?
    ensures HasColumn(TableFor(Build(g, cs), c.cls.name).columns, c.newKey.value.name)
  {
    DiffIsCalled(s, t, cs, c);
    var e, o :| e in s && o in t && e.name == o.name && ClassCalls(e, o, c);
    var n := e.name;
    PlanNames(g, s, t, cs);
    TargetIsDeclarable(t, o);
    DiffOfClass(s, t, cs, e, o);
    var tb := g.tables[n];
    CreatedExtends(n, tb, PkOf(g, n), o, cs);
    var q :| q in o.persisted && q.name == o.primaryKey;
    var cols := Rebuilt(tb, cs, n, Building).columns;
    var i := DeclaredIsExtended(n, tb, PkOf(g, n), o, cs, cols, q);
    assert cols[i].name == q.name;
  }

  lemma FinishPlanRuns(g: GroupState, s: Schema, t: Schema, cs: seq<SchemaChange>)
    requires Planned(g, s, t, cs)
    ensures FinishRuns(Build(g, cs), cs)
  {
    var g1 := Build(g, cs);
    forall k | 0 <= k < |cs| && Finish(g1, cs[..k]).Done?
      ensures Ready(Finish(g1, cs[..k]).group, cs[k]) && KeyReady(Finish(g1, cs[..k]).group, cs[k])
    {
      FinishStepRuns(g, s, t, cs, k);
    }
  }

  /** In the middle of the last pass a table is the built one, with its changes so far. */
  lemma FinishState(g: GroupState, s: Schema, t: Schema, cs: seq<SchemaChange>, k: nat, n: string)
    requires Planned(g, s, t, cs) && k < |cs| && Finish(Build(g, cs), cs[..k]).Done?
    ensures var g1 := Build(g, cs); var r := Finish(g1, cs[..k]).group;
            && r.tables.Keys == g1.tables.Keys && cs[k].cls.name in r.tables
            && TableFor(r, n) == Passed(TableFor(g1, n), cs[..k], n, Reindexing)
  {
    PlanNames(g, s, t, cs);
    hide Planned, Build, Finish, HasClass;
    assert cs[k] in cs;
    forall d | d in cs[..k]
      ensures d.cls.name in Build(g, cs).tables
    {
      assert d in cs;
    }
    FinishOneClass(Build(g, cs), cs[..k], n);
  }

  lemma BuiltInRange(g: GroupState, s: Schema, t: Schema, cs: seq<SchemaChange>, n: string)
    requires Planned(g, s, t, cs)
    ensures InRange(cs, n, |TableFor(Build(g, cs), n).columns|) && CellsFill(TableFor(Build(g, cs), n))
  {
    PlanNames(g, s, t, cs);
    PlanInRange(g, s, t, cs, n);
    hide Planned, Build, Rebuilt;
    RebuiltKeepsSize(TableFor(g, n), cs, n, Building);
    RebuiltFills(TableFor(g, n), cs, n, Building);
    LaterInRange(cs, n, |TableFor(g, n).columns|, |TableFor(Build(g, cs), n).columns|);
  }

  lemma FinishLinksReady(g: GroupState, s: Schema, t: Schema, cs: seq<SchemaChange>, k: nat)
    requires Planned(g, s, t, cs) && k < |cs|
    ensures LinksReady(cs[k], Build(g, cs).tables.Keys)
  {
    PlanNames(g, s, t, cs);
    PlanLinks(g, s, t, cs, cs[k]);
  }

  lemma FinishStepRuns(g: GroupState, s: Schema, t: Schema, cs: seq<SchemaChange>, k: nat)
    requires Planned(g, s, t, cs) && k < |cs| && Finish(Build(g, cs), cs[..k]).Done?
    ensures var r := Finish(Build(g, cs), cs[..k]).group; Ready(r, cs[k]) && KeyReady(r, cs[k])
  {
    var g1, c, front := Build(g, cs), cs[k], cs[..k];
    var n := c.cls.name;
    FinishState(g, s, t, cs, k, n);
    BuiltInRange(g, s, t, cs, n);
    FinishLinksReady(g, s, t, cs, k);
    assert RemovalsLast(cs);
    if c.ChangePrimaryKey? && c.newKey.Some? {
      FinishKeyReady(g, s, t, cs, k);
    }
    hide Planned, Build, Finish, Passed, InRange, LinksReady, HasColumn;
    RebuiltFills(TableFor(g1, n), front, n, Reindexing);
    if IsColumnChange(c) {
      ColumnStillThere(TableFor(g1, n), cs, n, Reindexing, k);
    }
  }

  lemma FinishKeyReady(g: GroupState, s: Schema, t: Schema, cs: seq<SchemaChange>, k: nat)
    requires Planned(g, s, t, cs) && k < |cs| && Finish(Build(g, cs), cs[..k]).Done?
    requires cs[k].ChangePrimaryKey? && cs[k].newKey.Some?
    ensures KeyReady(Finish(Build(g, cs), cs[..k]).group, cs[k])
  {
    var g1, c, front := Build(g, cs), cs[k], cs[..k];
    var n := c.cls.name;
    FinishState(g, s, t, cs, k, n);
    PlanParts(g, s, t, cs);
    hide Planned, Build, Finish, Passed, HasColumn, SameKeys, IsDiff, Target;
    KeyIsBuilt(g, s, t, cs, c);
    NothingRemovedBefore(cs, k);
    hide RemovalsLast;
    ReindexingKeepsKeys(TableFor(g1, n), front, n);
    SameKeysSameColumns(Passed(TableFor(g1, n), front, n, Reindexing), TableFor(g1, n), c.newKey.value.name);
  }

  lemma NothingRemovedBefore(cs: seq<SchemaChange>, k: nat)
    requires RemovalsLast(cs) && k < |cs| && !cs[k].RemoveProperty?
    ensures RemovesNothing(cs[..k], cs[k].cls.name)
  {
    RemovalsLastPrefix(cs, k + 1);
    assert cs[..k + 1] == cs[..k] + [cs[k]];
    NoRemovalBefore(cs[..k], cs[k].cls.name, cs[k]);
  }

  lemma SameKeysSameColumns(a: Table, b: Table, n: string)
    requires SameKeys(a, b) && HasColumn(b.columns, n)
    ensures HasColumn(a.columns, n)
  {
    var i :| 0 <= i < |b.columns| && b.columns[i].name == n;
    assert a.columns[i].name == n;
  }
}
