/** A group of class tables with its primary key table, and what passes over a list of changes do to it. */
module Groups {
  import opened Options
  import opened Schemas
  import opened Tables
  import opened TableUpgrades

  datatype GroupState = GroupState(tables: map<string, Table>, pk: map<string, string>)

  function PkOf(g: GroupState, n: string): string {
    if n in g.pk then g.pk[n] else ""
  }

  /** An empty key removes the entry. */
  function WithPk(g: GroupState, n: string, key: string): GroupState {
    if key == "" then g.(pk := g.pk - {n}) else g.(pk := g.pk[n := key])
  }

  const EMPTY := Table([], 0)

  function TableFor(g: GroupState, n: string): Table {
    if n in g.tables then g.tables[n] else EMPTY
  }

  function TableCreated(g: GroupState, o: ObjectSchema): GroupState {
    WithPk(g.(tables := g.tables[o.name := TableFor(g, o.name)]), o.name, o.primaryKey)
  }

  function KeyName(k: Option<Property>): string {
    if k.Some? then k.value.name else ""
  }

  function TablesAfter(g: GroupState, c: SchemaChange, pass: Pass): GroupState {
    if c.cls.name in g.tables
    then g.(tables := g.tables[c.cls.name := TableAfter(g.tables[c.cls.name], c, pass)])
    else g
  }

  /** One change of a pass that creates and rewrites but leaves removals for later. */
  function BuildStep(g: GroupState, c: SchemaChange): GroupState {
    match c
    case AddTable(o) => TableCreated(g, o)
    case ChangePrimaryKey(o, k) => WithPk(g, o.name, KeyName(k))
    case _ => TablesAfter(g, c, Building)
  }

  function RemovalStep(g: GroupState, c: SchemaChange): GroupState {
    if c.RemoveProperty? && c.cls.name in g.tables
    then g.(tables := g.tables[c.cls.name := TableAfterRemoval(g.tables[c.cls.name], c)])
    else g
  }

  /** One change of a pass that does everything. */
  function CreateStep(g: GroupState, c: SchemaChange): GroupState {
    RemovalStep(BuildStep(g, c), c)
  }

  datatype Outcome = Done(group: GroupState) | DuplicateKey(objectType: string, property: string)

  /** The first column of the name. */
  function ColumnIndex(cols: seq<Column>, n: string): (r: int)
    ensures r == NPOS || (0 <= r < |cols| && cols[r].name == n)
    ensures r == NPOS ==> forall c :: c in cols ==> c.name != n
    ensures forall i :: 0 <= i < |cols| && cols[i].name == n ==> r != NPOS && r <= i
  {
    if cols == [] then NPOS
    else if cols[0].name == n then 0
    else
      var r := ColumnIndex(cols[1..], n);
      assert forall i :: 0 < i < |cols| ==> cols[i] == cols[1..][i - 1];
      if r == NPOS then NPOS else r + 1
  }

  predicate AllDistinct(cells: seq<Cell>) {
    |set c | c in cells| == |cells|
  }

  lemma {:induction false} FewerValues(cells: seq<Cell>)
    ensures |set c | c in cells| <= |cells|
  {
    if cells != [] {
      var rest, last := cells[..|cells| - 1], cells[|cells| - 1];
      FewerValues(rest);
      OneMoreValue(cells);
    }
  }

  lemma OneMoreValue(cells: seq<Cell>)
    requires cells != []
    ensures var rest, last := cells[..|cells| - 1], cells[|cells| - 1];
            |set c | c in cells| == |set c | c in rest| + if last in rest then 0 else 1
  {
    var rest, last := cells[..|cells| - 1], cells[|cells| - 1];
    var a, b := set c | c in rest, set c | c in cells;
    assert cells == rest + [last];
    assert b == a + {last};
  }

  /** Counting values is comparing rows: there are as many values as rows exactly when no two rows agree. */
  lemma {:induction false} DistinctMeansNoTwoAgree(cells: seq<Cell>)
    ensures AllDistinct(cells) <==> forall i, j :: 0 <= i < j < |cells| ==> cells[i] != cells[j]
  {
    if cells != [] {
      var rest, last := cells[..|cells| - 1], cells[|cells| - 1];
      OneMoreValue(cells);
      FewerValues(rest);
      DistinctMeansNoTwoAgree(rest);
      if last in rest {
        var i :| 0 <= i < |rest| && rest[i] == last;
        assert cells[i] == cells[|cells| - 1];
      } else {
        forall i | 0 <= i < |cells| - 1
          ensures cells[i] == rest[i] && cells[i] != last
        {
          assert rest[i] in rest;
        }
      }
    }
  }

  /** The values under the property can serve as keys. */
  predicate KeyIsUnique(tb: Table, n: string) {
    var i := ColumnIndex(tb.columns, n);
    i != NPOS ==> AllDistinct(tb.columns[i].cells)
  }

  /** One change of the pass after a migration: it repeats table creation and indexing, checks new keys, and removes. */
  function FinishStep(g: GroupState, c: SchemaChange): Outcome {
    match c
    case AddTable(o) => Done(TableCreated(g, o))
    case ChangePrimaryKey(o, k) =>
      if k.Some? && o.name in g.tables && !KeyIsUnique(g.tables[o.name], k.value.name)
      then DuplicateKey(o.name, k.value.name)
      else Done(g)
    case _ => Done(RemovalStep(TablesAfter(g, c, Reindexing), c))
  }

  function Build(g: GroupState, cs: seq<SchemaChange>): GroupState {
    if cs == [] then g else BuildStep(Build(g, cs[..|cs| - 1]), cs[|cs| - 1])
  }

  function Create(g: GroupState, cs: seq<SchemaChange>): GroupState {
    if cs == [] then g else CreateStep(Create(g, cs[..|cs| - 1]), cs[|cs| - 1])
  }

  /** The pass stops at the first key that is not unique. */
  function Finish(g: GroupState, cs: seq<SchemaChange>): Outcome {
    if cs == [] then Done(g)
    else
      var before := Finish(g, cs[..|cs| - 1]);
      if before.Done? then FinishStep(before.group, cs[|cs| - 1]) else before
  }

  /** A version bump without a migration function. */
  function Upgrade(g: GroupState, cs: seq<SchemaChange>): Outcome {
    Finish(Build(g, cs), cs)
  }

  // ----- reading a schema from a group -----

  /** The schema lists exactly the classes of the group, sorted, each as its table reads. */
  ghost predicate IsSchemaOf(g: GroupState, s: Schema) {
    && Sorted(s)
    && (forall n :: HasClass(s, n) <==> n in g.tables)
    && (forall o :: o in s ==> o.name in g.tables && o == ReadClass(o.name, g.tables[o.name], PkOf(g, o.name)))
  }

  /** Every table is well formed and links only to tables of the group. */
  ghost predicate GroupOk(g: GroupState) {
    forall n :: n in g.tables ==> TableOk(g.tables[n]) && LinksIn(g.tables[n], g.tables.Keys)
  }

  ghost predicate LinksIn(tb: Table, names: set<string>) {
    forall i :: 0 <= i < |tb.columns| ==> LinkIn(tb.columns[i].core, names)
  }

  // ----- each class on its own -----

  /** A class's table exists before any other of its changes. */
  ghost predicate Born(names: set<string>, cs: seq<SchemaChange>, n: string) {
    forall k :: 0 <= k < |cs| && About(cs[k], n) && !cs[k].AddTable? ==>
      n in names || exists j :: 0 <= j < k && cs[j].AddTable? && About(cs[j], n)
  }

  lemma BornBefore(names: set<string>, cs: seq<SchemaChange>, n: string)
    requires Born(names, cs, n) && cs != []
    ensures Born(names, cs[..|cs| - 1], n)
    ensures var c := cs[|cs| - 1]; About(c, n) && !c.AddTable? ==>
              n in names || exists d :: d in cs[..|cs| - 1] && d.AddTable? && About(d, n)
  {
    var c, cs0 := cs[|cs| - 1], cs[..|cs| - 1];
    forall k | 0 <= k < |cs0| && About(cs0[k], n) && !cs0[k].AddTable? && n !in names
      ensures exists j :: 0 <= j < k && cs0[j].AddTable? && About(cs0[j], n)
    {
      assert cs0[k] == cs[k];
      var j :| 0 <= j < k && cs[j].AddTable? && About(cs[j], n);
      assert cs0[j] == cs[j];
    }
    if About(c, n) && !c.AddTable? && n !in names {
      var j :| 0 <= j < |cs| - 1 && cs[j].AddTable? && About(cs[j], n);
      assert cs0[j] == cs[j];
    }
  }

  ghost predicate CreatesTable(cs: seq<SchemaChange>, n: string) {
    exists c :: c in cs && c.AddTable? && About(c, n)
  }

  lemma OneMoreCreates(cs: seq<SchemaChange>, n: string)
    requires cs != []
    ensures var c := cs[|cs| - 1];
            CreatesTable(cs, n) <==> CreatesTable(cs[..|cs| - 1], n) || (c.AddTable? && About(c, n))
  {
    assert cs == cs[..|cs| - 1] + [cs[|cs| - 1]];
  }

  lemma AddTableAlone(tb: Table, c: SchemaChange, pass: Pass)
    ensures c.AddTable? || c.ChangePrimaryKey? || c.RemoveTable? ==> TableAfter(tb, c, pass) == tb
  {
    assert tb.columns + [] == tb.columns;
  }

  /** A building pass does to each table what it does to the table alone. */
  lemma {:induction false} BuildOneClass(g: GroupState, cs: seq<SchemaChange>, n: string)
    requires Born(g.tables.Keys, cs, n)
    ensures n in Build(g, cs).tables <==> n in g.tables || CreatesTable(cs, n)
    ensures TableFor(Build(g, cs), n) == Rebuilt(TableFor(g, n), cs, n, Building)
  {
    if cs != [] {
      var cs0, c := cs[..|cs| - 1], cs[|cs| - 1];
      BornBefore(g.tables.Keys, cs, n);
      OneMoreCreates(cs, n);
      BuildOneClass(g, cs0, n);
      AddTableAlone(TableFor(Build(g, cs0), n), c, Building);
      hide Born, TableAfter, CreatesTable;
    }
  }

  lemma {:induction false} CreateOneClass(g: GroupState, cs: seq<SchemaChange>, n: string)
    requires Born(g.tables.Keys, cs, n)
    ensures n in Create(g, cs).tables <==> n in g.tables || CreatesTable(cs, n)
    ensures TableFor(Create(g, cs), n) == Passed(TableFor(g, n), cs, n, Building)
  {
    if cs != [] {
      var cs0, c := cs[..|cs| - 1], cs[|cs| - 1];
      BornBefore(g.tables.Keys, cs, n);
      OneMoreCreates(cs, n);
      CreateOneClass(g, cs0, n);
      AddTableAlone(TableFor(Create(g, cs0), n), c, Building);
      hide Born, TableAfter, CreatesTable;
    }
  }

  lemma FinishStepTable(g: GroupState, c: SchemaChange, n: string)
    requires FinishStep(g, c).Done? && c.cls.name in g.tables
    ensures FinishStep(g, c).group.tables.Keys == g.tables.Keys
    ensures var tb := TableFor(g, n);
            TableFor(FinishStep(g, c).group, n)
            == if About(c, n) then TableAfterRemoval(TableAfter(tb, c, Reindexing), c) else tb
  {
    AddTableAlone(TableFor(g, n), c, Reindexing);
    hide TableAfter;
  }

  lemma {:induction false} FinishOneClass(g: GroupState, cs: seq<SchemaChange>, n: string)
    requires Finish(g, cs).Done? && forall c :: c in cs ==> c.cls.name in g.tables
    ensures Finish(g, cs).group.tables.Keys == g.tables.Keys
    ensures TableFor(Finish(g, cs).group, n) == Passed(TableFor(g, n), cs, n, Reindexing)
  {
    hide FinishStep, TableAfter, TableAfterRemoval, TableFor;
    if cs != [] {
      var cs0, c := cs[..|cs| - 1], cs[|cs| - 1];
      assert cs == cs0 + [c] && c in cs;
      FinishOneClass(g, cs0, n);
      FinishStepTable(Finish(g, cs0).group, c, n);
    } else {
      assert Passed(TableFor(g, n), cs, n, Reindexing) == TableFor(g, n);
    }
  }

  // ----- primary keys -----

  predicate SetsKey(c: SchemaChange, n: string) {
    About(c, n) && (c.AddTable? || c.ChangePrimaryKey?)
  }

  function KeySet(c: SchemaChange): string
    requires c.AddTable? || c.ChangePrimaryKey?
  {
    if c.AddTable? then c.cls.primaryKey else KeyName(c.newKey)
  }

  /** Whatever sets the key of the class sets it to this one. */
  ghost predicate KeysAgree(cs: seq<SchemaChange>, n: string, key: string) {
    forall c :: c in cs && SetsKey(c, n) ==> KeySet(c) == key
  }

  ghost predicate KeyIsSet(cs: seq<SchemaChange>, n: string) {
    exists c :: c in cs && SetsKey(c, n)
  }

  lemma StepKey(g: GroupState, c: SchemaChange, n: string)
    ensures PkOf(BuildStep(g, c), n) == if SetsKey(c, n) then KeySet(c) else PkOf(g, n)
    ensures PkOf(CreateStep(g, c), n) == PkOf(BuildStep(g, c), n)
    ensures FinishStep(g, c).Done? ==>
              PkOf(FinishStep(g, c).group, n) == if SetsKey(c, n) && c.AddTable? then KeySet(c) else PkOf(g, n)
  {
    hide TableAfter, TableAfterRemoval;
  }

  lemma OneMoreSets(cs: seq<SchemaChange>, n: string, key: string)
    requires cs != [] && KeysAgree(cs, n, key)
    ensures KeysAgree(cs[..|cs| - 1], n, key)
    ensures KeyIsSet(cs, n) <==> KeyIsSet(cs[..|cs| - 1], n) || SetsKey(cs[|cs| - 1], n)
    ensures SetsKey(cs[|cs| - 1], n) ==> KeySet(cs[|cs| - 1]) == key
  {
    assert cs == cs[..|cs| - 1] + [cs[|cs| - 1]];
    hide SetsKey, KeySet;
  }

  lemma {:induction false} BuildKey(g: GroupState, cs: seq<SchemaChange>, n: string, key: string)
    requires KeysAgree(cs, n, key)
    ensures PkOf(Build(g, cs), n) == if KeyIsSet(cs, n) then key else PkOf(g, n)
    ensures PkOf(Create(g, cs), n) == PkOf(Build(g, cs), n)
  {
    if cs != [] {
      var cs0, c := cs[..|cs| - 1], cs[|cs| - 1];
      OneMoreSets(cs, n, key);
      BuildKey(g, cs0, n, key);
      StepKey(Build(g, cs0), c, n);
      StepKey(Create(g, cs0), c, n);
      hide BuildStep, CreateStep, PkOf, KeyIsSet, SetsKey, KeySet, KeysAgree;
    }
  }

  lemma {:induction false} FinishKey(g: GroupState, cs: seq<SchemaChange>, n: string, key: string)
    requires KeysAgree(cs, n, key) && Finish(g, cs).Done? && PkOf(g, n) == key
    ensures PkOf(Finish(g, cs).group, n) == key
  {
    if cs != [] {
      var cs0, c := cs[..|cs| - 1], cs[|cs| - 1];
      OneMoreSets(cs, n, key);
      FinishKey(g, cs0, n, key);
      StepKey(Finish(g, cs0).group, c, n);
      hide FinishStep, PkOf, KeyIsSet, SetsKey, KeySet, KeysAgree;
    }
  }
}
