/** The group as an object that is changed in place, and the passes that apply schema changes to it. */
module ObjectStores {
  import opened Options
  import opened Schemas
  import opened Tables
  import opened Groups
  import opened UpdateModes
  import opened Readiness
  import opened Names

  /** The version of a file that no schema has been written to. */
  const NOT_VERSIONED := 0xFFFF_FFFF_FFFF_FFFF

  // ----- copying cells from the next column -----

  function CopiedUpTo(tb: Table, i: nat, row: nat): Table
    requires i + 1 < |tb.columns| && row <= |tb.columns[i].cells| == |tb.columns[i + 1].cells|
  {
    var col := tb.columns[i];
    tb.(columns := tb.columns[i := col.(cells := tb.columns[i + 1].cells[..row] + col.cells[row..])])
  }

  lemma NothingCopied(tb: Table, i: nat)
    requires i + 1 < |tb.columns| && |tb.columns[i].cells| == |tb.columns[i + 1].cells|
    ensures CopiedUpTo(tb, i, 0) == tb
  {
    var col := tb.columns[i];
    assert tb.columns[i + 1].cells[..0] + col.cells[0..] == col.cells;
    assert tb.columns[i := col] == tb.columns;
  }

  lemma OneMoreCopied(tb: Table, i: nat, row: nat)
    requires i + 1 < |tb.columns| && row < |tb.columns[i].cells| == |tb.columns[i + 1].cells|
    ensures SetCell(CopiedUpTo(tb, i, row), i, row, CopiedUpTo(tb, i, row).columns[i + 1].cells[row])
            == CopiedUpTo(tb, i, row + 1)
  {
    var col, src := tb.columns[i], tb.columns[i + 1].cells;
    var cells := src[..row] + col.cells[row..];
    assert cells[row := src[row]] == src[..row + 1] + col.cells[row + 1..];
    assert SetCell(CopiedUpTo(tb, i, row), i, row, src[row]).columns == CopiedUpTo(tb, i, row + 1).columns;
  }

  lemma AllCopied(tb: Table, i: nat)
    requires i + 1 < |tb.columns| && |tb.columns[i].cells| == |tb.columns[i + 1].cells|
    ensures var src := tb.columns[i + 1].cells;
            CopiedUpTo(tb, i, |src|) == tb.(columns := tb.columns[i := tb.columns[i].(cells := src)])
  {
    var col, src := tb.columns[i], tb.columns[i + 1].cells;
    assert src[..|src|] + col.cells[|src|..] == src;
  }

  class Group {
    var tables: map<string, Table>
    var pk: map<string, string>
    var schemaVersion: nat

    function State(): GroupState
      reads this
    {
      GroupState(tables, pk)
    }

    constructor ()
      ensures State() == GroupState(map[], map[]) && schemaVersion == NOT_VERSIONED
    {
      tables, pk, schemaVersion := map[], map[], NOT_VERSIONED;
    }

    // ----- columns -----

    method InsertColumn(n: string, p: Property, i: nat)
      requires n in tables && i <= |tables[n].columns|
      requires LinkIn(CoreOf(p), tables.Keys)
      modifies this`tables
      ensures tables == old(tables)[n := Tables.InsertColumn(old(tables[n]), i, NewColumn(p, old(tables[n].rows)))]
      ensures i < |tables[n].columns| && tables[n].columns[i].cells == seq(tables[n].rows, _ =>
                if !p.typ.isArray && (p.typ.base == Object || p.typ.nullable) then Null else Zero)
    {
      NewCellsAre(p, tables[n].rows);
      var tb := tables[n];
      var core := CoreOf(p);
      var cells := seq(tb.rows, _ => DefaultCell(core));
      tb := Tables.InsertColumn(tb, i, Column(p.name, core, false, cells));
      if core.Scalar? && p.RequiresIndex() {
        tb := SetIndex(tb, i, true);
      }
      assert tb == Tables.InsertColumn(tables[n], i, NewColumn(p, tables[n].rows));
      tables := tables[n := tb];
    }

    method RemoveColumn(n: string, i: nat)
      requires n in tables && i < |tables[n].columns|
      modifies this`tables
      ensures tables == old(tables)[n := Tables.RemoveColumn(old(tables[n]), i)]
    {
      tables := tables[n := Tables.RemoveColumn(tables[n], i)];
    }

    method SetSearchIndex(n: string, i: nat, on: bool)
      requires n in tables && i < |tables[n].columns|
      modifies this`tables
      ensures tables == old(tables)[n := SetIndex(old(tables[n]), i, on)]
    {
      tables := tables[n := SetIndex(tables[n], i, on)];
    }

    method AddColumn(n: string, p: Property)
      requires n in tables && LinkIn(CoreOf(p), tables.Keys)
      modifies this`tables
      ensures tables == old(tables)[n := old(tables[n]).(columns := old(tables[n].columns) + [NewColumn(p, old(tables[n].rows))])]
    {
      ghost var tb := tables[n];
      InsertColumn(n, p, |tables[n].columns|);
      assert tb.columns[..|tb.columns|] + [NewColumn(p, tb.rows)] + tb.columns[|tb.columns|..]
          == tb.columns + [NewColumn(p, tb.rows)];
    }

    /** The new column goes in front of the old one, which is then removed. */
    method ReplaceColumn(n: string, i: nat, q: Property)
      requires n in tables && i < |tables[n].columns| && LinkIn(CoreOf(q), tables.Keys)
      modifies this`tables
      ensures tables == old(tables)[n := old(tables[n]).(columns := old(tables[n].columns)[i := NewColumn(q, old(tables[n].rows))])]
    {
      ReplaceInPlace(tables[n], i, NewColumn(q, tables[n].rows));
      InsertColumn(n, q, i);
      RemoveColumn(n, i + 1);
    }

    /** Row by row, the cells of the column behind are copied into the column. */
    method CopyPropertyValues(n: string, p: Property, i: nat)
      requires n in tables && i + 1 < |tables[n].columns|
      requires |tables[n].columns[i].cells| == |tables[n].columns[i + 1].cells| == tables[n].rows
      modifies this`tables
      ensures var tb := old(tables[n]); var col := tb.columns[i];
              tables == old(tables)[n := tb.(columns := tb.columns[i :=
                if Copyable(p) then col.(cells := tb.columns[i + 1].cells) else col])]
    {
      ghost var tb := tables[n];
      if !Copyable(p) {
        assert tb.columns[i := tb.columns[i]] == tb.columns;
        assert tables == tables[n := tb];
        return;
      }
      var row, count := 0, tables[n].rows;
      ghost var before := tables;
      NothingCopied(tb, i);
      assert tables == before[n := tb];
      while row < count
        invariant row <= count && tables == before[n := CopiedUpTo(tb, i, row)]
      {
        OneMoreCopied(tb, i, row);
        tables := tables[n := SetCell(tables[n], i, row, tables[n].columns[i + 1].cells[row])];
        row := row + 1;
      }
      AllCopied(tb, i);
    }

    method MakePropertyOptional(n: string, p: Property)
      requires n in tables && InTable(tables[n], p.tableColumn) && LinkIn(CoreOf(p), tables.Keys)
      requires |tables[n].columns[p.tableColumn].cells| == tables[n].rows
      modifies this`tables
      ensures var tb, i := old(tables[n]), p.tableColumn;
              tables == old(tables)[n := tb.(columns := tb.columns[i := MadeOptional(tb.columns[i], p, tb.rows)])]
    {
      ghost var tb := tables[n];
      var i := p.tableColumn;
      var q := p.(typ := p.typ.(nullable := true));
      InsertColumn(n, q, i);
      CopyPropertyValues(n, q, i);
      ghost var made := MadeOptional(tb.columns[i], p, tb.rows);
      assert tables[n].columns == tb.columns[..i] + [made] + tb.columns[i..];
      ReplaceInPlace(tb, i, made);
      RemoveColumn(n, i + 1);
    }

    method MakePropertyRequired(n: string, p: Property)
      requires n in tables && InTable(tables[n], p.tableColumn) && LinkIn(CoreOf(p), tables.Keys)
      modifies this`tables
      ensures var tb, i := old(tables[n]), p.tableColumn;
              tables == old(tables)[n := tb.(columns := tb.columns[i := MadeRequired(p, tb.rows)])]
      ensures p.typ.base != Object ==>
                p.tableColumn < |tables[n].columns| && forall c :: c in tables[n].columns[p.tableColumn].cells ==> c == Zero
    {
      NewCellsAre(p.(typ := p.typ.(nullable := false)), tables[n].rows);
      ReplaceColumn(n, p.tableColumn, p.(typ := p.typ.(nullable := false)));
    }

    // ----- tables and keys -----

    method SetPrimaryKey(n: string, key: string)
      modifies this`pk
      ensures State() == WithPk(old(State()), n, key)
      ensures (n in pk <==> key != "") && (key != "" ==> pk[n] == key)
      ensures forall m :: m != n ==> (m in pk <==> m in old(pk)) && (m in pk ==> pk[m] == old(pk)[m])
    {
      var row := n in pk;
      if !row && key != "" {
        pk := pk[n := key];
        return;
      }
      if key == "" {
        if row {
          pk := pk - {n};
        }
      } else {
        pk := pk[n := key];
      }
      assert n !in old(pk) ==> old(pk) - {n} == old(pk);
    }

    method CreateTable(o: ObjectSchema)
      modifies this`tables, this`pk
      ensures State() == TableCreated(old(State()), o)
    {
      if o.name !in tables {
        tables := tables[o.name := EMPTY];
      }
      assert tables == old(tables)[o.name := TableFor(old(State()), o.name)];
      SetPrimaryKey(o.name, o.primaryKey);
    }

    method AddInitialColumns(o: ObjectSchema)
      requires o.name in tables && forall p :: p in o.persisted ==> LinkIn(CoreOf(p), tables.Keys)
      modifies this`tables
      ensures var tb := old(tables[o.name]);
              tables == old(tables)[o.name := tb.(columns := tb.columns + NewColumns(o.persisted, tb.rows))]
    {
      ghost var before, tb := tables, tables[o.name];
      var k := 0;
      assert tb.columns + NewColumns(o.persisted[..0], tb.rows) == tb.columns;
      while k < |o.persisted|
        invariant k <= |o.persisted|
        invariant tables == before[o.name := tb.(columns := tb.columns + NewColumns(o.persisted[..k], tb.rows))]
      {
        assert tb.columns + NewColumns(o.persisted[..k], tb.rows) + [NewColumn(o.persisted[k], tb.rows)]
            == tb.columns + NewColumns(o.persisted[..k + 1], tb.rows);
        AddColumn(o.name, o.persisted[k]);
        k := k + 1;
      }
      assert o.persisted[..k] == o.persisted;
    }

    // ----- single changes -----

    method BuildChange(c: SchemaChange)
      requires Ready(State(), c)
      modifies this`tables, this`pk
      ensures State() == BuildStep(old(State()), c)
    {
      var n := c.cls.name;
      match c
      case AddTable(o) => CreateTable(o);
      case RemoveTable(_) => Idle(c, Building);
      case AddInitialProperties(o) => AddInitialColumns(o);
      case AddProperty(_, p) => AddColumn(n, p);
      case RemoveProperty(_, _) => Idle(c, Building);
      case ChangePropertyType(_, p, q) =>
        ReplaceColumn(n, p.tableColumn, q);
        NothingAdded(old(State()), c, Building);
      case MakePropertyNullable(_, p) =>
        MakePropertyOptional(n, p);
        NothingAdded(old(State()), c, Building);
      case MakePropertyRequired(_, p) =>
        MakePropertyRequired(n, p);
        NothingAdded(old(State()), c, Building);
      case AddIndex(_, p) =>
        SetSearchIndex(n, p.tableColumn, true);
        NothingAdded(old(State()), c, Building);
      case RemoveIndex(_, p) =>
        SetSearchIndex(n, p.tableColumn, false);
        NothingAdded(old(State()), c, Building);
      case ChangePrimaryKey(_, k) => SetPrimaryKey(n, if k.Some? then k.value.name else "");
    }

    lemma Idle(c: SchemaChange, pass: Pass)
      requires c.RemoveProperty? || c.RemoveTable?
      ensures TablesAfter(State(), c, pass) == State()
    {
      if c.cls.name in tables {
        AddTableAlone(tables[c.cls.name], c, pass);
        assert tables == tables[c.cls.name := tables[c.cls.name]];
      }
    }

    method RemovePropertyChange(c: SchemaChange)
      requires Ready(State(), c) && c.RemoveProperty?
      modifies this`tables
      ensures State() == RemovalStep(old(State()), c)
    {
      RemoveColumn(c.cls.name, c.property.tableColumn);
    }

    /** Of a file without a schema version everything is done at once. */
    method CreateChange(c: SchemaChange)
      requires Ready(State(), c)
      modifies this`tables, this`pk
      ensures State() == CreateStep(old(State()), c)
    {
      if c.RemoveProperty? {
        Idle(c, Building);
        RemovePropertyChange(c);
      } else {
        BuildChange(c);
      }
    }

    /** After a migration; the result is false when a new key has duplicate values. */
    method FinishChange(c: SchemaChange) returns (unique: bool)
      requires Ready(State(), c) && KeyReady(State(), c)
      modifies this`tables, this`pk
      ensures unique <==> FinishStep(old(State()), c).Done?
      ensures unique ==> State() == FinishStep(old(State()), c).group
      ensures !unique ==> State() == old(State())
    {
      var n := c.cls.name;
      unique := true;
      match c
      case AddTable(o) => CreateTable(o);
      case ChangePrimaryKey(_, k) =>
        if k.Some? {
          unique := KeyIsUnique(tables[n], k.value.name);
        }
      case AddIndex(_, p) =>
        SetSearchIndex(n, p.tableColumn, true);
        NothingAdded(old(State()), c, Reindexing);
      case RemoveIndex(_, p) =>
        SetSearchIndex(n, p.tableColumn, false);
        NothingAdded(old(State()), c, Reindexing);
      case RemoveProperty(_, _) =>
        Idle(c, Reindexing);
        RemovePropertyChange(c);
      case _ => NotCarried(c);
    }

    lemma NotCarried(c: SchemaChange)
      requires !Carries(Reindexing, c)
      ensures TablesAfter(State(), c, Reindexing) == State()
    {
      if c.cls.name in tables {
        assert tables == tables[c.cls.name := tables[c.cls.name]];
      }
    }

    // ----- whole passes -----

    method ApplyPreMigration(cs: seq<SchemaChange>)
      requires BuildRuns(State(), cs)
      modifies this`tables, this`pk
      ensures State() == Build(old(State()), cs)
    {
      ghost var g := State();
      var k := 0;
      while k < |cs|
        invariant k <= |cs| && State() == Build(g, cs[..k])
      {
        assert cs[..k + 1][..k] == cs[..k];
        BuildChange(cs[k]);
        k := k + 1;
      }
      assert cs[..k] == cs;
    }

    method CreateInitialTables(cs: seq<SchemaChange>)
      requires CreateRuns(State(), cs)
      modifies this`tables, this`pk
      ensures State() == Create(old(State()), cs)
    {
      ghost var g := State();
      var k := 0;
      while k < |cs|
        invariant k <= |cs| && State() == Create(g, cs[..k])
      {
        assert cs[..k + 1][..k] == cs[..k];
        CreateChange(cs[k]);
        k := k + 1;
      }
      assert cs[..k] == cs;
    }

    /** The first key with duplicate values ends the pass. */
    method ApplyPostMigration(cs: seq<SchemaChange>) returns (unique: bool)
      requires FinishRuns(State(), cs)
      modifies this`tables, this`pk
      ensures unique <==> Finish(old(State()), cs).Done?
      ensures unique ==> State() == Finish(old(State()), cs).group
    {
      ghost var g := State();
      var k := 0;
      unique := true;
      while k < |cs| && unique
        invariant k <= |cs|
        invariant unique ==> Finish(g, cs[..k]) == Done(State())
        invariant !unique ==> Finish(g, cs[..k]).DuplicateKey?
      {
        assert cs[..k + 1][..k] == cs[..k];
        unique := FinishChange(cs[k]);
        k := k + 1;
      }
      assert cs[..|cs|] == cs;
      if !unique {
        RefusalLasts(g, cs, k);
      }
    }

    method ApplyAdditiveChanges(cs: seq<SchemaChange>, updateIndexes: bool)
      requires AdditiveRuns(State(), cs, updateIndexes)
      modifies this`tables, this`pk
      ensures State() == Additive(old(State()), cs, updateIndexes)
    {
      ghost var g := State();
      var k := 0;
      while k < |cs|
        invariant k <= |cs| && State() == Additive(g, cs[..k], updateIndexes)
      {
        var c := cs[k];
        assert cs[..k + 1][..k] == cs[..k];
        if c.AddTable? || c.AddInitialProperties? || c.AddProperty? || (updateIndexes && (c.AddIndex? || c.RemoveIndex?)) {
          BuildChange(c);
        }
        k := k + 1;
      }
      assert cs[..k] == cs;
    }

    /** Refuses when anything but tables and indexes would have to change. */
    method ApplyNonMigrationChanges(cs: seq<SchemaChange>) returns (ok: bool)
      requires BuildRuns(State(), cs)
      modifies this`tables, this`pk
      ensures ok <==> AcceptsNonMigration(cs)
      ensures State() == if ok then Build(old(State()), cs) else old(State())
    {
      hide BuildRuns, Build;
      var k := 0;
      while k < |cs|
        invariant k <= |cs| && State() == old(State()) && forall c :: c in cs[..k] ==> NonMigrationOk(c)
      {
        if !NonMigrationOk(cs[k]) {
          return false;
        }
        k := k + 1;
      }
      ApplyPreMigration(cs);
      ok := true;
    }

    // ----- reading the schema, and pointing a schema at the columns -----

    method SchemaFromGroup() returns (s: Schema)
      ensures IsSchemaOf(State(), s)
    {
      s := [];
      var left := tables.Keys;
      while left != {}
        invariant left <= tables.Keys && Sorted(s)
        invariant forall n :: HasClass(s, n) <==> n in tables && n !in left
        invariant forall o :: o in s ==> o.name in tables && o == ReadClass(o.name, tables[o.name], PkOf(State(), o.name))
        decreases |left|
      {
        var n :| n in left;
        var o := ReadClass(n, tables[n], PkOf(State(), n));
        var k := 0;
        while k < |s| && Less(s[k].name, n)
          invariant k <= |s| && forall j :: 0 <= j < k ==> Less(s[j].name, n)
        {
          k := k + 1;
        }
        InsertedIsSorted(s, k, o);
        s := s[..k] + [o] + s[k..];
        left := left - {n};
      }
    }

    method SetSchemaColumns(target: Schema) returns (result: Schema)
      ensures result == WithColumns(State(), target)
    {
      result := [];
      var k := 0;
      while k < |target|
        invariant k <= |target| && result == WithColumns(State(), target[..k])
      {
        var o := target[k];
        assert target[..k + 1][..k] == target[..k];
        if o.name in tables {
          var ps: seq<Property> := [];
          var j := 0;
          while j < |o.persisted|
            invariant j <= |o.persisted| && ps == Pointed(tables[o.name], o.persisted[..j])
          {
            assert o.persisted[..j + 1][..j] == o.persisted[..j];
            ps := ps + [o.persisted[j].(tableColumn := ColumnIndex(tables[o.name].columns, o.persisted[j].name))];
            j := j + 1;
          }
          assert o.persisted[..j] == o.persisted;
          o := o.(persisted := ps);
        }
        result := result + [o];
        k := k + 1;
      }
      assert target[..k] == target;
    }
  }

  // ----- the pieces of the loops -----

  lemma {:induction false} RefusalLasts(g: GroupState, cs: seq<SchemaChange>, k: nat)
    requires k <= |cs| && Finish(g, cs[..k]).DuplicateKey?
    ensures Finish(g, cs) == Finish(g, cs[..k])
    decreases |cs| - k
  {
    if k < |cs| {
      assert cs[..k + 1][..k] == cs[..k];
      RefusalLasts(g, cs, k + 1);
    } else {
      assert cs[..k] == cs;
    }
  }

  function Pointed(tb: Table, ps: seq<Property>): seq<Property> {
    if ps == [] then []
    else
      var k := |ps| - 1;
      Pointed(tb, ps[..k]) + [ps[k].(tableColumn := ColumnIndex(tb.columns, ps[k].name))]
  }

  /** Each persisted property of a class that has a table holds the position of its column. */
  function WithColumns(g: GroupState, t: Schema): Schema {
    if t == [] then []
    else
      var k := |t| - 1;
      WithColumns(g, t[..k])
      + [if t[k].name in g.tables then t[k].(persisted := Pointed(g.tables[t[k].name], t[k].persisted)) else t[k]]
  }

  ghost predicate AdditiveRuns(g: GroupState, cs: seq<SchemaChange>, updateIndexes: bool) {
    forall k :: 0 <= k < |cs| ==> Ready(Additive(g, cs[..k], updateIndexes), cs[k])
  }

  lemma AdditivePlanRuns(g: GroupState, cs: seq<SchemaChange>)
    requires BuildRuns(g, cs) && AcceptsAdditive(cs)
    ensures AdditiveRuns(g, cs, true)
  {
    forall k | 0 <= k < |cs|
      ensures Additive(g, cs[..k], true) == Build(g, cs[..k])
    {
      AdditiveIsBuild(g, cs[..k]);
    }
  }

  lemma InsertedIsSorted(s: Schema, k: nat, o: ObjectSchema)
    requires Sorted(s) && k <= |s| && !HasClass(s, o.name)
    requires forall j :: 0 <= j < k ==> Less(s[j].name, o.name)
    requires k < |s| ==> !Less(s[k].name, o.name)
    ensures Sorted(s[..k] + [o] + s[k..])
    ensures forall n :: HasClass(s[..k] + [o] + s[k..], n) <==> HasClass(s, n) || n == o.name
    ensures forall x :: x in s[..k] + [o] + s[k..] <==> x in s || x == o
  {
    var r := s[..k] + [o] + s[k..];
    assert s == s[..k] + s[k..];
    if k < |s| {
      assert s[k] in s;
      LessIsTotal(s[k].name, o.name);
    }
    forall j | k <= j < |s|
      ensures Less(o.name, s[j].name)
    {
      if k < j {
        LessIsTransitive(o.name, s[k].name, s[j].name);
      }
    }
    forall x
      ensures x in r <==> x in s || x == o
    {
      assert x in r <==> x in s[..k] || x in [o] || x in s[k..];
      assert x in s <==> x in s[..k] || x in s[k..];
    }
    assert o in r;
  }

  lemma NothingAdded(g: GroupState, c: SchemaChange, pass: Pass)
    requires Ready(g, c) && IsColumnChange(c) && !c.RemoveProperty? && Carries(pass, c)
    ensures var tb, i := g.tables[c.cls.name], c.property.tableColumn;
            TablesAfter(g, c, pass)
            == g.(tables := g.tables[c.cls.name := tb.(columns := tb.columns[i := ColumnAfter(tb.columns[i], tb.rows, c)])])
  {
    var tb, i := g.tables[c.cls.name], c.property.tableColumn;
    assert tb.columns[i := ColumnAfter(tb.columns[i], tb.rows, c)] + [] == tb.columns[i := ColumnAfter(tb.columns[i], tb.rows, c)];
  }
}
