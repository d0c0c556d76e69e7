/** Renaming a property during a migration: the old column takes the place of the new one. */
module RenameProperties {
  import opened Options
  import opened Names
  import opened Schemas
  import opened Tables
  import opened Groups
  import opened ObjectStores

  datatype RenameResult =
    | Renamed
    | NoTable
    | ClassRemoved
    | SourceStillExists
    | SourceDoesNotExist
    | TypeWouldChange
    | WouldBecomeRequired
    | ColumnOutOfBounds

  // ----- the table -----

  function Named(tb: Table, i: nat, name: string): Table
    requires i < |tb.columns|
  {
    tb.(columns := tb.columns[i := tb.columns[i].(name := name)])
  }

  /** The new column is gone and the old one bears its name. */
  function Merged(tb: Table, a: nat, b: nat, name: string): Table
    requires a < |tb.columns| && b < |tb.columns|
  {
    RemoveColumn(Named(tb, a, name), b)
  }

  predicate Rebuilds(p: Property, q: Property) {
    q.typ.nullable && !p.typ.nullable
  }

  /** The column at the old position is rebuilt when the new property allows null and the old one does not. */
  function TableAfterRename(tb: Table, p: Property, q: Property): Table
    requires InTable(tb, p.tableColumn) && InTable(tb, q.tableColumn)
    requires Rebuilds(p, q) ==> InTable(Merged(tb, p.tableColumn, q.tableColumn, q.name), p.tableColumn)
  {
    var merged, i := Merged(tb, p.tableColumn, q.tableColumn, q.name), p.tableColumn;
    if Rebuilds(p, q)
    then merged.(columns := merged.columns[i := MadeOptional(merged.columns[i], q.(tableColumn := i), merged.rows)])
    else merged
  }

  // ----- the positions the target schema holds -----

  /** A property without a column counts as lying behind every column. */
  predicate Behind(i: int, removed: nat) {
    i < 0 || removed < i
  }

  function Repointed(p: Property, removed: nat, kept: nat): Property {
    if p.tableColumn == removed then p.(tableColumn := kept)
    else if Behind(p.tableColumn, removed) then p.(tableColumn := p.tableColumn - 1)
    else p
  }

  /** A position that stands for no column is moved like one behind every column, and stands for it no longer. */
  lemma UnboundIsMoved(p: Property, removed: nat, kept: nat)
    requires p.tableColumn == NPOS
    ensures Repointed(p, removed, kept) == p.(tableColumn := NPOS - 1)
  {
  }

  function RepointedAll(ps: seq<Property>, removed: nat, kept: nat): seq<Property> {
    seq(|ps|, k requires 0 <= k < |ps| => Repointed(ps[k], removed, kept))
  }

  /** The property's position is that of the column of its name. */
  predicate PointsRight(tb: Table, p: Property) {
    InTable(tb, p.tableColumn) && tb.columns[p.tableColumn].name == p.name
  }

  /** The column that a surviving position of the table has after the rename. */
  lemma ColumnsAfterRename(tb: Table, a: nat, b: nat, name: string, i: nat)
    requires a < |tb.columns| && b < |tb.columns| && a != b && i < |tb.columns| && i != b
    ensures var k := if i < b then i else i - 1;
            && k < |Merged(tb, a, b, name).columns|
            && Merged(tb, a, b, name).columns[k] == (if i == a then tb.columns[i].(name := name) else tb.columns[i])
  {
  }

  /**
   * Every property but the renamed one keeps pointing at the column of its own name, unless the old column lies
   * behind the new one and is rebuilt: then the property right behind the old column, and no other, loses its column.
   */
  lemma OthersPointRight(tb: Table, p: Property, q: Property, x: Property)
    requires InTable(tb, p.tableColumn) && InTable(tb, q.tableColumn) && p.tableColumn != q.tableColumn
    requires Rebuilds(p, q) ==> InTable(Merged(tb, p.tableColumn, q.tableColumn, q.name), p.tableColumn)
    requires UniqueColumns(tb.columns) && PointsRight(tb, p) && PointsRight(tb, q) && PointsRight(tb, x)
    requires x.name != q.name && x.name != p.name
    ensures PointsRight(TableAfterRename(tb, p, q), Repointed(x, q.tableColumn, p.tableColumn))
            <==> !(Rebuilds(p, q) && p.tableColumn > q.tableColumn && x.tableColumn == p.tableColumn + 1)
  {
    ColumnsAfterRename(tb, p.tableColumn, q.tableColumn, q.name, x.tableColumn);
  }

  /** The renamed property points at its column exactly when the old column came before the new one. */
  lemma RenamedPointsRight(tb: Table, p: Property, q: Property, x: Property)
    requires InTable(tb, p.tableColumn) && InTable(tb, q.tableColumn) && p.tableColumn != q.tableColumn
    requires Rebuilds(p, q) ==> InTable(Merged(tb, p.tableColumn, q.tableColumn, q.name), p.tableColumn)
    requires UniqueColumns(tb.columns) && PointsRight(tb, p) && PointsRight(tb, q) && PointsRight(tb, x) && x.name == q.name
    ensures PointsRight(TableAfterRename(tb, p, q), Repointed(x, q.tableColumn, p.tableColumn))
            <==> p.tableColumn < q.tableColumn || Rebuilds(p, q)
  {
    var a, b := p.tableColumn, q.tableColumn;
    assert x.tableColumn == b;
    var tb' := TableAfterRename(tb, p, q);
    if a < b {
      ColumnsAfterRename(tb, a, b, q.name, a);
    } else if a + 1 < |tb.columns| {
      ColumnsAfterRename(tb, a, b, q.name, a + 1);
    }
  }

  /** When the old column comes first, the renamed column holds every row's value, also when it has been rebuilt. */
  lemma RenameKeepsValues(tb: Table, p: Property, q: Property)
    requires InTable(tb, p.tableColumn) && InTable(tb, q.tableColumn) && p.tableColumn < q.tableColumn
    requires Rebuilds(p, q) ==> Copyable(q)
    ensures var tb', a := TableAfterRename(tb, p, q), p.tableColumn;
            && |tb'.columns| == |tb.columns| - 1 && tb'.rows == tb.rows
            && tb'.columns[a].name == q.name && tb'.columns[a].cells == tb.columns[a].cells
            && (forall i :: 0 <= i < |tb'.columns| && i != a ==>
                  tb'.columns[i] == tb.columns[if i < q.tableColumn then i else i + 1])
  {
    var a, b := p.tableColumn, q.tableColumn;
    var merged := Merged(tb, a, b, q.name);
    forall i | 0 <= i < |merged.columns|
      ensures merged.columns[i] == (if i == a then tb.columns[a].(name := q.name) else tb.columns[if i < b then i else i + 1])
    {
      ColumnsAfterRename(tb, a, b, q.name, if i < b then i else i + 1);
    }
  }

  /** When the old column comes later, a rebuild takes the column behind it instead, which is lost. */
  lemma RebuildTakesWrongColumn(tb: Table, p: Property, q: Property)
    requires InTable(tb, p.tableColumn) && InTable(tb, q.tableColumn) && p.tableColumn > q.tableColumn
    requires Rebuilds(p, q) && Copyable(q) && p.tableColumn + 1 < |tb.columns|
    ensures var tb', a := TableAfterRename(tb, p, q), p.tableColumn;
            && tb'.columns[a].name == q.name && tb'.columns[a].cells == tb.columns[a + 1].cells
            && tb'.columns[a - 1] == tb.columns[a].(name := q.name)
  {
    ColumnsAfterRename(tb, p.tableColumn, q.tableColumn, q.name, p.tableColumn);
    ColumnsAfterRename(tb, p.tableColumn, q.tableColumn, q.name, p.tableColumn + 1);
  }

  /** A property renamed to its own name is removed with all its values. */
  lemma RenameToItselfRemoves(tb: Table, p: Property)
    requires UniqueColumns(tb.columns) && PointsRight(tb, p)
    ensures ColumnIndex(TableAfterRename(tb, p, p).columns, p.name) == NPOS
  {
    var a := p.tableColumn;
    var merged := Merged(tb, a, a, p.name);
    forall i | 0 <= i < |merged.columns|
      ensures merged.columns[i].name != p.name
    {
      assert merged.columns[i] == tb.columns[if i < a then i else i + 1];
    }
    assert forall c :: c in merged.columns ==> c.name != p.name;
  }

  // ----- the operation -----

  method RepointClass(t: Schema, k: nat, removed: nat, kept: nat) returns (result: Schema)
    requires Sorted(t) && k < |t|
    ensures result == Repoint(t, t[k].name, removed, kept)
  {
    var ps := t[k].persisted;
    var j := 0;
    while j < |ps|
      invariant j <= |ps| == |t[k].persisted|
      invariant forall i :: 0 <= i < j ==> ps[i] == Repointed(t[k].persisted[i], removed, kept)
      invariant forall i :: j <= i < |ps| ==> ps[i] == t[k].persisted[i]
    {
      if ps[j].tableColumn == removed {
        ps := ps[j := ps[j].(tableColumn := kept)];
      } else if Behind(ps[j].tableColumn, removed) {
        ps := ps[j := ps[j].(tableColumn := ps[j].tableColumn - 1)];
      }
      j := j + 1;
    }
    result := t[k := t[k].(persisted := ps)];
    forall i | 0 <= i < |t| && i != k
      ensures t[i].name != t[k].name
    {
      LessIsIrreflexive(t[k].name);
    }
    assert ps == RepointedAll(t[k].persisted, removed, kept);
  }

  function Repoint(t: Schema, n: string, removed: nat, kept: nat): Schema {
    seq(|t|, k requires 0 <= k < |t| =>
      if t[k].name == n then t[k].(persisted := RepointedAll(t[k].persisted, removed, kept)) else t[k])
  }

  /** What a rename comes to: a refusal, a bare change of the column's name, or the merge of two columns. */
  datatype RenamePlan = Refuse(result: RenameResult) | Relabel(p: Property) | Merge(p: Property, q: Property)

  function PlanOf(g: GroupState, t: Schema, n: string, oldName: string, newName: string): RenamePlan {
    if n !in g.tables then Refuse(NoTable)
    else if ClassNamed(t, n).None? then Refuse(ClassRemoved)
    else if ClassNamed(t, n).value.PropertyForName(oldName).Some? then Refuse(SourceStillExists)
    else
      var e := ReadClass(n, g.tables[n], PkOf(g, n));
      var p, q := e.PropertyForName(oldName), e.PropertyForName(newName);
      if p.None? then Refuse(SourceDoesNotExist)
      else if q.None? then Relabel(p.value)
      else if p.value.typ.base != q.value.typ.base || p.value.objectType != q.value.objectType then Refuse(TypeWouldChange)
      else if p.value.typ.nullable && !q.value.typ.nullable then Refuse(WouldBecomeRequired)
      else Merge(p.value, q.value)
  }

  /** The properties of a plan are columns of the table. */
  lemma PlanPointsRight(g: GroupState, t: Schema, n: string, oldName: string, newName: string)
    ensures var plan := PlanOf(g, t, n, oldName, newName);
            && (plan.Relabel? ==> n in g.tables && PointsRight(g.tables[n], plan.p) && plan.p.name == oldName)
            && (plan.Merge? ==> n in g.tables && PointsRight(g.tables[n], plan.p) && PointsRight(g.tables[n], plan.q)
                                && plan.p.name == oldName && plan.q.name == newName)
  {
  }

  /** The checks, in order; k is where the target has the class. */
  method CheckRename(group: Group, target: Schema, n: string, oldName: string, newName: string) returns (plan: RenamePlan, k: nat)
    requires Sorted(target)
    ensures plan == PlanOf(group.State(), target, n, oldName, newName)
    ensures !plan.Refuse? ==> k < |target| && target[k].name == n
  {
    k := 0;
    if n !in group.tables {
      return Refuse(NoTable), k;
    }
    k := Find(target, n);
    if k == |target| {
      return Refuse(ClassRemoved), k;
    }
    ClassIsNamed(target, k);
    if target[k].PropertyForName(oldName).Some? {
      return Refuse(SourceStillExists), k;
    }
    var e := ReadClass(n, group.tables[n], PkOf(group.State(), n));
    hide ClassNamed, ReadClass, Sorted, ObjectSchema.PropertyForName;
    var oldProperty, newProperty := e.PropertyForName(oldName), e.PropertyForName(newName);
    if oldProperty.None? {
      return Refuse(SourceDoesNotExist), k;
    }
    var p := oldProperty.value;
    if newProperty.None? {
      return Relabel(p), k;
    }
    var q := newProperty.value;
    if p.typ.base != q.typ.base || p.objectType != q.objectType {
      return Refuse(TypeWouldChange), k;
    }
    if p.typ.nullable && !q.typ.nullable {
      return Refuse(WouldBecomeRequired), k;
    }
    plan := Merge(p, q);
  }

  method RenameProperty(group: Group, target: Schema, n: string, oldName: string, newName: string)
    returns (r: RenameResult, result: Schema)
    requires GroupOk(group.State()) && Sorted(target)
    modifies group
    ensures group.pk == old(group.pk) && group.schemaVersion == old(group.schemaVersion)
    ensures match PlanOf(old(group.State()), target, n, oldName, newName)
            case Refuse(x) => r == x && group.tables == old(group.tables) && result == target
            case Relabel(p) =>
              && r == Renamed && n in old(group.tables) && InTable(old(group.tables[n]), p.tableColumn)
              && group.tables == old(group.tables)[n := Named(old(group.tables[n]), p.tableColumn, newName)]
              && result == target
            case Merge(p, q) =>
              && n in old(group.tables) && InTable(old(group.tables[n]), p.tableColumn) && InTable(old(group.tables[n]), q.tableColumn)
              && if Rebuilds(p, q) && !InTable(Merged(old(group.tables[n]), p.tableColumn, q.tableColumn, q.name), p.tableColumn)
                 then && r == ColumnOutOfBounds
                      && group.tables == old(group.tables)[n := Merged(old(group.tables[n]), p.tableColumn, q.tableColumn, q.name)]
                      && result == Repoint(target, n, q.tableColumn, p.tableColumn)
                 else && r == Renamed
                      && group.tables == old(group.tables)[n := TableAfterRename(old(group.tables[n]), p, q)]
                      && result == Repoint(target, n, q.tableColumn, p.tableColumn)
  {
    var plan, k := CheckRename(group, target, n, oldName, newName);
    PlanPointsRight(group.State(), target, n, oldName, newName);
    PlanReadsColumns(group.State(), target, n, oldName, newName);
    hide PlanOf, TableAfterRename, Merged, Repoint, GroupOk;
    result := target;
    match plan
    case Refuse(x) => r := x;
    case Relabel(p) =>
      group.tables := group.tables[n := Named(group.tables[n], p.tableColumn, newName)];
      r := Renamed;
    case Merge(p, q) =>
      r := MergeColumns(group, n, p, q);
      result := RepointClass(target, k, q.tableColumn, p.tableColumn);
  }

  lemma PlanReadsColumns(g: GroupState, t: Schema, n: string, oldName: string, newName: string)
    ensures var plan := PlanOf(g, t, n, oldName, newName);
            plan.Merge? ==> n in g.tables && exists i :: 0 <= i < |g.tables[n].columns| && plan.q == PropertyOf(g.tables[n].columns[i], i, PkOf(g, n))
  {
    var plan := PlanOf(g, t, n, oldName, newName);
    if plan.Merge? {
      var e := ReadClass(n, g.tables[n], PkOf(g, n));
      assert plan.q in e.persisted;
      var i :| 0 <= i < |e.persisted| && e.persisted[i] == plan.q;
      assert plan.q == PropertyOf(g.tables[n].columns[i], i, PkOf(g, n));
    }
  }

  method MergeColumns(group: Group, n: string, p: Property, q: Property) returns (r: RenameResult)
    requires GroupOk(group.State()) && n in group.tables
    requires PointsRight(group.tables[n], p) && PointsRight(group.tables[n], q)
    requires exists i :: 0 <= i < |group.tables[n].columns| && q == PropertyOf(group.tables[n].columns[i], i, PkOf(group.State(), n))
    modifies group`tables
    ensures var tb := old(group.tables[n]);
            if Rebuilds(p, q) && !InTable(Merged(tb, p.tableColumn, q.tableColumn, q.name), p.tableColumn)
            then r == ColumnOutOfBounds && group.tables == old(group.tables)[n := Merged(tb, p.tableColumn, q.tableColumn, q.name)]
            else r == Renamed && group.tables == old(group.tables)[n := TableAfterRename(tb, p, q)]
  {
    ghost var tb, names := group.tables[n], group.tables.Keys;
    var i := p.tableColumn;
    RebuildHasLink(tb, q, PkOf(group.State(), n), names);
    assert TableOk(tb);
    hide GroupOk;
    group.tables := group.tables[n := Named(group.tables[n], i, q.name)];
    group.RemoveColumn(n, q.tableColumn);
    assert group.tables[n] == Merged(tb, i, q.tableColumn, q.name) && group.tables.Keys == names;
    if Rebuilds(p, q) {
      if i >= |group.tables[n].columns| {
        r := ColumnOutOfBounds;
        return;
      }
      MergedCells(tb, i, q.tableColumn, q.name);
      group.MakePropertyOptional(n, q.(tableColumn := i));
    }
    r := Renamed;
  }

  lemma MergedCells(tb: Table, a: nat, b: nat, name: string)
    requires TableOk(tb) && a < |tb.columns| && b < |tb.columns|
    ensures forall i :: 0 <= i < |Merged(tb, a, b, name).columns| ==> |Merged(tb, a, b, name).columns[i].cells| == tb.rows
  {
  }

  lemma RebuildHasLink(tb: Table, q: Property, pk: string, names: set<string>)
    requires exists i :: 0 <= i < |tb.columns| && q == PropertyOf(tb.columns[i], i, pk)
    requires TableOk(tb) && LinksIn(tb, names)
    ensures LinkIn(CoreOf(q), names)
  {
    var i :| 0 <= i < |tb.columns| && q == PropertyOf(tb.columns[i], i, pk);
    assert ColumnOk(tb.columns[i], tb.rows) && LinkIn(tb.columns[i].core, names);
  }

  /**
   * The main result on renames: when the old column comes before the new one, each property of the target that
   * pointed at the column of its name still does, and the renamed column keeps every row's value, unless it is
   * rebuilt and one of the two is a list.
   */
  lemma RenameIsRight(g: GroupState, t: Schema, n: string, oldName: string, newName: string, o: ObjectSchema, k: nat)
    requires GroupOk(g) && PlanOf(g, t, n, oldName, newName).Merge?
    requires var plan := PlanOf(g, t, n, oldName, newName); plan.p.tableColumn < plan.q.tableColumn
    requires ClassNamed(t, n) == Some(o) && k < |o.persisted| && n in g.tables && PointsRight(g.tables[n], o.persisted[k])
    ensures var plan, tb := PlanOf(g, t, n, oldName, newName), g.tables[n];
            && InTable(tb, plan.p.tableColumn) && InTable(tb, plan.q.tableColumn)
            && var tb', p' := TableAfterRename(tb, plan.p, plan.q), RepointedAll(o.persisted, plan.q.tableColumn, plan.p.tableColumn)[k];
               && p'.name == o.persisted[k].name && PointsRight(tb', p')
               && (p'.name == newName && (Rebuilds(plan.p, plan.q) ==> !plan.p.typ.isArray && !plan.q.typ.isArray) ==>
                     tb'.columns[p'.tableColumn].cells == tb.columns[plan.p.tableColumn].cells)
  {
    PlanPointsRight(g, t, n, oldName, newName);
    var plan, tb, x := PlanOf(g, t, n, oldName, newName), g.tables[n], o.persisted[k];
    assert TableOk(tb);
    assert x.name != oldName;
    if x.name == newName {
      RenamedPointsRight(tb, plan.p, plan.q, x);
      if Rebuilds(plan.p, plan.q) ==> !plan.p.typ.isArray && !plan.q.typ.isArray {
        PlanIsCopyable(g, t, n, oldName, newName);
        RenameKeepsValues(tb, plan.p, plan.q);
      }
    } else {
      OthersPointRight(tb, plan.p, plan.q, x);
    }
  }

  /** Links always allow null, so a column that is rebuilt without being a list has values that can be copied. */
  lemma PlanIsCopyable(g: GroupState, t: Schema, n: string, oldName: string, newName: string)
    requires GroupOk(g) && PlanOf(g, t, n, oldName, newName).Merge?
    ensures var plan := PlanOf(g, t, n, oldName, newName);
            Rebuilds(plan.p, plan.q) && !plan.p.typ.isArray && !plan.q.typ.isArray ==> Copyable(plan.q)
  {
    PlanIsRead(g, t, n, oldName, newName);
    var plan, tb := PlanOf(g, t, n, oldName, newName), g.tables[n];
    assert TableOk(tb);
    assert ColumnOk(tb.columns[plan.q.tableColumn], tb.rows);
  }

  lemma PlanIsRead(g: GroupState, t: Schema, n: string, oldName: string, newName: string)
    requires PlanOf(g, t, n, oldName, newName).Merge?
    ensures n in g.tables
    ensures var plan, e := PlanOf(g, t, n, oldName, newName), ReadClass(n, g.tables[n], PkOf(g, n));
            plan.p in e.persisted && plan.q in e.persisted
  {
  }

  // ----- what the refusals protect -----

  ghost predicate HasColumnOf(tb: Table, n: string) {
    exists i :: 0 <= i < |tb.columns| && tb.columns[i].name == n
  }

  ghost predicate Declares(o: ObjectSchema, n: string) {
    exists p :: (p in o.persisted || p in o.computed) && p.name == n
  }

  /** Values of the one column may be stored in the other: the types match, and null is not given up. */
  predicate Replaceable(a: Column, b: Column) {
    && TypeOf(a.core).base == TypeOf(b.core).base && TargetOf(a.core) == TargetOf(b.core)
    && (TypeOf(a.core).nullable ==> TypeOf(b.core).nullable)
  }

  ghost predicate CanTakeOver(tb: Table, oldName: string, newName: string) {
    forall i, j :: 0 <= i < |tb.columns| && 0 <= j < |tb.columns| && tb.columns[i].name == oldName && tb.columns[j].name == newName ==>
      Replaceable(tb.columns[i], tb.columns[j])
  }

  /** Two columns are merged or one is relabelled exactly when nothing speaks against it, told from the columns. */
  lemma RenamesWhen(g: GroupState, t: Schema, n: string, oldName: string, newName: string)
    requires GroupOk(g) && Sorted(t)
    ensures var plan := PlanOf(g, t, n, oldName, newName);
            && (!plan.Refuse? <==>
                  && n in g.tables && (exists o :: o in t && o.name == n && !Declares(o, oldName))
                  && HasColumnOf(g.tables[n], oldName) && CanTakeOver(g.tables[n], oldName, newName))
            && (plan.Merge? <==> !plan.Refuse? && HasColumnOf(g.tables[n], newName))
  {
    if n in g.tables && ClassNamed(t, n).Some? {
      var tb, o := g.tables[n], ClassNamed(t, n).value;
      OnlyClass(t, n);
      ColumnsAreProperties(n, tb, PkOf(g, n), oldName);
      ColumnsAreProperties(n, tb, PkOf(g, n), newName);
      assert TableOk(tb);
      hide ObjectSchema.PropertyForName, GroupOk, ReadClass, ClassNamed, Sorted;
      TakeOverOfNamed(tb, PkOf(g, n), oldName, newName, n);
      assert Declares(o, oldName) <==> o.PropertyForName(oldName).Some?;
    }
  }

  ghost predicate StoreDifferently(tb: Table, oldName: string, newName: string) {
    exists i, j :: 0 <= i < |tb.columns| && 0 <= j < |tb.columns| && tb.columns[i].name == oldName && tb.columns[j].name == newName
      && (TypeOf(tb.columns[i].core).base != TypeOf(tb.columns[j].core).base || TargetOf(tb.columns[i].core) != TargetOf(tb.columns[j].core))
  }

  /** Which refusal it is: each stands for its own reason, and comes after those in front of it. */
  lemma RefusedWhen(g: GroupState, t: Schema, n: string, oldName: string, newName: string)
    requires GroupOk(g) && Sorted(t)
    ensures var plan := PlanOf(g, t, n, oldName, newName);
            && (plan == Refuse(NoTable) <==> n !in g.tables)
            && (plan == Refuse(ClassRemoved) <==> n in g.tables && !HasClass(t, n))
            && (plan == Refuse(SourceStillExists) <==> n in g.tables && exists o :: o in t && o.name == n && Declares(o, oldName))
            && (plan == Refuse(SourceDoesNotExist) <==>
                  n in g.tables && !HasColumnOf(g.tables[n], oldName) && exists o :: o in t && o.name == n && !Declares(o, oldName))
            && (plan == Refuse(TypeWouldChange) <==>
                  && n in g.tables && StoreDifferently(g.tables[n], oldName, newName)
                  && exists o :: o in t && o.name == n && !Declares(o, oldName))
  {
    if n in g.tables {
      if ClassNamed(t, n).Some? {
        var tb, o := g.tables[n], ClassNamed(t, n).value;
        OnlyClass(t, n);
        ColumnsAreProperties(n, tb, PkOf(g, n), oldName);
        ColumnsAreProperties(n, tb, PkOf(g, n), newName);
        assert TableOk(tb);
        hide ObjectSchema.PropertyForName, GroupOk, ReadClass, ClassNamed, Sorted;
        assert Declares(o, oldName) <==> o.PropertyForName(oldName).Some?;
        DifferentlyOfNamed(tb, PkOf(g, n), oldName, newName, n);
      } else {
        assert !HasClass(t, n);
      }
    }
  }

  lemma DifferentlyOfNamed(tb: Table, pk: string, oldName: string, newName: string, n: string)
    requires UniqueColumns(tb.columns)
    ensures var p, q := ReadClass(n, tb, pk).PropertyForName(oldName), ReadClass(n, tb, pk).PropertyForName(newName);
            StoreDifferently(tb, oldName, newName) <==>
              p.Some? && q.Some? && (p.value.typ.base != q.value.typ.base || p.value.objectType != q.value.objectType)
  {
    ColumnsAreProperties(n, tb, pk, oldName);
    ColumnsAreProperties(n, tb, pk, newName);
    hide ObjectSchema.PropertyForName, ReadClass;
  }

  lemma OnlyClass(t: Schema, n: string)
    requires Sorted(t) && ClassNamed(t, n).Some?
    ensures forall o :: o in t && o.name == n ==> o == ClassNamed(t, n).value
  {
    forall o | o in t && o.name == n
      ensures o == ClassNamed(t, n).value
    {
      ClassIsUnique(t, o, ClassNamed(t, n).value);
    }
  }

  lemma ColumnsAreProperties(n: string, tb: Table, pk: string, name: string)
    requires UniqueColumns(tb.columns)
    ensures var found := ReadClass(n, tb, pk).PropertyForName(name);
            && (found.Some? <==> HasColumnOf(tb, name))
            && (found.Some? ==> PointsRight(tb, found.value) && found.value.name == name)
            && (found.Some? ==>
                  found.value == PropertyOf(tb.columns[found.value.tableColumn], found.value.tableColumn, pk))
  {
    var e := ReadClass(n, tb, pk);
    var found := e.PropertyForName(name);
    if i :| 0 <= i < |tb.columns| && tb.columns[i].name == name {
      assert e.persisted[i] in e.persisted;
    }
  }

  lemma TakeOverOfNamed(tb: Table, pk: string, oldName: string, newName: string, n: string)
    requires UniqueColumns(tb.columns)
    ensures var p, q := ReadClass(n, tb, pk).PropertyForName(oldName), ReadClass(n, tb, pk).PropertyForName(newName);
            p.Some? && q.Some? ==>
              (CanTakeOver(tb, oldName, newName) <==>
                && p.value.typ.base == q.value.typ.base && p.value.objectType == q.value.objectType
                && (p.value.typ.nullable ==> q.value.typ.nullable))
  {
    ColumnsAreProperties(n, tb, pk, oldName);
    ColumnsAreProperties(n, tb, pk, newName);
    hide ObjectSchema.PropertyForName, ReadClass;
  }

  lemma ReadCore(col: Column, i: nat, pk: string, rows: nat)
    requires ColumnOk(col, rows)
    ensures CoreOf(PropertyOf(col, i, pk)) == col.core
  {
  }

  /**
   * With the old column first, the merged column has the type of the new one exactly when it is rebuilt or both are
   * lists or both are not. A rebuilt value has the index of the new column, or that of a primary key; otherwise the
   * index of the old column stays.
   */
  lemma RenamedColumnHasType(g: GroupState, t: Schema, n: string, oldName: string, newName: string)
    requires GroupOk(g) && PlanOf(g, t, n, oldName, newName).Merge?
    requires var plan := PlanOf(g, t, n, oldName, newName); plan.p.tableColumn < plan.q.tableColumn
    ensures var plan := PlanOf(g, t, n, oldName, newName);
            && n in g.tables && InTable(g.tables[n], plan.p.tableColumn) && InTable(g.tables[n], plan.q.tableColumn)
            && var tb, merged := g.tables[n], TableAfterRename(g.tables[n], plan.p, plan.q);
               && plan.p.tableColumn < |merged.columns|
               && (merged.columns[plan.p.tableColumn].core == tb.columns[plan.q.tableColumn].core
                   <==> Rebuilds(plan.p, plan.q) || plan.p.typ.isArray == plan.q.typ.isArray)
               && merged.columns[plan.p.tableColumn].indexed ==
                    (if !Rebuilds(plan.p, plan.q) then tb.columns[plan.p.tableColumn].indexed
                     else !plan.q.typ.isArray && plan.q.typ.base != Object
                          && (tb.columns[plan.q.tableColumn].indexed || (newName != "" && PkOf(g, n) == newName)))
  {
    var plan, tb := PlanOf(g, t, n, oldName, newName), g.tables[n];
    var a, b := plan.p.tableColumn, plan.q.tableColumn;
    PlanPointsRight(g, t, n, oldName, newName);
    PlanIsRead(g, t, n, oldName, newName);
    MergeIsAllowed(g, t, n, oldName, newName);
    assert TableOk(tb);
    ColumnsAfterRename(tb, a, b, plan.q.name, a);
    hide PlanOf, GroupOk;
    ReadCore(tb.columns[a], a, PkOf(g, n), tb.rows);
    ReadCore(tb.columns[b], b, PkOf(g, n), tb.rows);
  }

  lemma MergeIsAllowed(g: GroupState, t: Schema, n: string, oldName: string, newName: string)
    requires PlanOf(g, t, n, oldName, newName).Merge?
    ensures var plan := PlanOf(g, t, n, oldName, newName);
            && n in g.tables && InTable(g.tables[n], plan.p.tableColumn) && InTable(g.tables[n], plan.q.tableColumn)
            && plan.p == PropertyOf(g.tables[n].columns[plan.p.tableColumn], plan.p.tableColumn, PkOf(g, n))
            && plan.q == PropertyOf(g.tables[n].columns[plan.q.tableColumn], plan.q.tableColumn, PkOf(g, n))
            && plan.p.typ.base == plan.q.typ.base && plan.p.objectType == plan.q.objectType
            && (plan.p.typ.nullable ==> plan.q.typ.nullable)
  {
    PlanIsRead(g, t, n, oldName, newName);
  }

  // ----- what a rename keeps -----

  lemma MergedColumns(tb: Table, a: nat, b: nat, name: string)
    requires TableOk(tb) && a < |tb.columns| && b < |tb.columns| && tb.columns[b].name == name
    ensures var merged := Merged(tb, a, b, name);
            && TableOk(merged) && merged.rows == tb.rows
            && (a > b ==> a - 1 < |merged.columns| && merged.columns[a - 1].name == name)
            && (a < b ==> merged.columns[a].name == name)
  {
    var merged := Merged(tb, a, b, name);
    forall i | 0 <= i < |merged.columns|
      ensures var k := if i < b then i else i + 1;
              merged.columns[i] == if k == a then tb.columns[k].(name := name) else tb.columns[k]
    {
    }
  }

  lemma RebuiltIsOk(tb: Table, i: nat, q: Property)
    requires TableOk(tb) && i < |tb.columns| && q.typ.nullable
    requires !q.typ.isArray ==> q.typ.base != LinkingObjects && q.typ.base != Any
    requires q.typ.isArray ==> q.typ.base != Object && q.typ.base != LinkingObjects && q.typ.base != Any
    ensures ColumnOk(MadeOptional(tb.columns[i], q, tb.rows), tb.rows)
    ensures MadeOptional(tb.columns[i], q, tb.rows).name == q.name
  {
  }

  lemma ReplacedIsOk(tb: Table, i: nat, col: Column)
    requires TableOk(tb) && i < |tb.columns| && ColumnOk(col, tb.rows)
    ensures TableOk(tb.(columns := tb.columns[i := col])) <==>
            forall j :: 0 <= j < |tb.columns| && j != i ==> tb.columns[j].name != col.name
  {
    var cols := tb.columns[i := col];
    if j :| 0 <= j < |tb.columns| && j != i && tb.columns[j].name == col.name {
      assert cols[j].name == cols[i].name;
    }
  }

  /**
   * The table stays well formed, with names that differ and null only where it is allowed, unless the old column lies
   * behind the new one and is rebuilt: then two columns have the new name.
   */
  lemma RenameKeepsTable(g: GroupState, t: Schema, n: string, oldName: string, newName: string)
    requires GroupOk(g) && PlanOf(g, t, n, oldName, newName).Merge?
    ensures n in g.tables
    ensures var plan, tb := PlanOf(g, t, n, oldName, newName), g.tables[n];
            && InTable(tb, plan.p.tableColumn) && InTable(tb, plan.q.tableColumn)
            && (Rebuilds(plan.p, plan.q) ==> InTable(Merged(tb, plan.p.tableColumn, plan.q.tableColumn, plan.q.name), plan.p.tableColumn)) ==>
              (TableOk(TableAfterRename(tb, plan.p, plan.q)) <==> !(Rebuilds(plan.p, plan.q) && plan.p.tableColumn > plan.q.tableColumn))
  {
    var plan, tb := PlanOf(g, t, n, oldName, newName), g.tables[n];
    PlanPointsRight(g, t, n, oldName, newName);
    MergeIsAllowed(g, t, n, oldName, newName);
    assert TableOk(tb);
    var a, b := plan.p.tableColumn, plan.q.tableColumn;
    assert ColumnOk(tb.columns[b], tb.rows);
    hide PlanOf, GroupOk;
    MergedColumns(tb, a, b, plan.q.name);
    var merged := Merged(tb, a, b, plan.q.name);
    hide Merged, TableOk;
    if Rebuilds(plan.p, plan.q) && InTable(merged, a) {
      var q := plan.q.(tableColumn := a);
      RebuiltIsOk(merged, a, q);
      hide MadeOptional;
      ReplacedIsOk(merged, a, MadeOptional(merged.columns[a], q, merged.rows));
    }
  }

  /** A relabelled column leaves the table well formed, since no column had the name. */
  lemma RelabelKeepsTable(g: GroupState, t: Schema, n: string, oldName: string, newName: string)
    requires GroupOk(g) && PlanOf(g, t, n, oldName, newName).Relabel?
    ensures var plan := PlanOf(g, t, n, oldName, newName);
            && n in g.tables && InTable(g.tables[n], plan.p.tableColumn)
            && TableOk(Named(g.tables[n], plan.p.tableColumn, newName))
  {
    var plan, tb := PlanOf(g, t, n, oldName, newName), g.tables[n];
    PlanPointsRight(g, t, n, oldName, newName);
    assert TableOk(tb);
    ColumnsAreProperties(n, tb, PkOf(g, n), newName);
    var i := plan.p.tableColumn;
    hide GroupOk, PlanOf;
    ReplacedIsOk(tb, i, tb.columns[i].(name := newName));
  }
}
