/** Tables with positioned columns, and what each schema change does to one of them. */
module Tables {
  import opened Schemas

  /** What a table stores a column as. */
  datatype CoreType =
    | Scalar(base: BaseType, nullable: bool)
    | Link(target: string)
    | LinkList(target: string)
    | List(base: BaseType, nullable: bool)

  datatype Cell = Null | Zero | Datum(value: int)

  datatype Column = Column(name: string, core: CoreType, indexed: bool, cells: seq<Cell>)

  datatype Table = Table(columns: seq<Column>, rows: nat)

  function CoreOf(p: Property): CoreType {
    if p.typ.base == Object then
      if p.typ.isArray then LinkList(p.objectType) else Link(p.objectType)
    else if p.typ.isArray then List(p.typ.base, p.typ.nullable)
    else Scalar(p.typ.base, p.typ.nullable)
  }

  function TypeOf(c: CoreType): PropertyType {
    match c
    case Scalar(b, n) => PropertyType(b, n, false)
    case Link(_) => PropertyType(Object, true, false)
    case LinkList(_) => PropertyType(Object, false, true)
    case List(b, n) => PropertyType(b, n, true)
  }

  function TargetOf(c: CoreType): string {
    match c
    case Link(n) => n
    case LinkList(n) => n
    case _ => ""
  }

  /** A link column needs its target table. */
  predicate LinkIn(c: CoreType, tables: set<string>) {
    (c.Link? || c.LinkList?) ==> TargetOf(c) in tables
  }

  lemma LinkInMeans(c: CoreType, tables: set<string>)
    ensures LinkIn(c, tables) <==> forall n :: c == Link(n) || c == LinkList(n) ==> n in tables
  {
  }

  /** Links, and single values whose type says so. */
  predicate AllowsNull(c: CoreType) {
    c.Link? || (c.Scalar? && c.nullable)
  }

  /** Of the properties that can be declared, the nullable ones that are not lists. */
  lemma NullableIsAllowed(p: Property)
    requires p.typ.base == Object ==> p.typ.nullable == !p.typ.isArray
    ensures AllowsNull(CoreOf(p)) <==> p.typ.nullable && !p.typ.isArray
  {
  }

  function DefaultCell(c: CoreType): Cell {
    if c.Link? || (c.Scalar? && c.nullable) then Null else Zero
  }

  /** The column that is created for a property: indexed only when it is a plain value. */
  function NewColumn(p: Property, rows: nat): Column {
    var core := CoreOf(p);
    Column(p.name, core, core.Scalar? && p.RequiresIndex(), seq(rows, _ => DefaultCell(core)))
  }

  /** New cells are null when the property is a link or a nullable value, and zero or empty otherwise. */
  lemma NewCellsAre(p: Property, rows: nat)
    ensures |NewColumn(p, rows).cells| == rows && NullsFit(NewColumn(p, rows))
    ensures forall k :: 0 <= k < rows ==>
              NewColumn(p, rows).cells[k] == if !p.typ.isArray && (p.typ.base == Object || p.typ.nullable) then Null else Zero
  {
  }

  // ----- the operations of a table -----

  function InsertColumn(t: Table, i: nat, c: Column): Table
    requires i <= |t.columns|
  {
    t.(columns := t.columns[..i] + [c] + t.columns[i..])
  }

  function RemoveColumn(t: Table, i: nat): Table
    requires i < |t.columns|
  {
    t.(columns := t.columns[..i] + t.columns[i + 1..])
  }

  function SetIndex(t: Table, i: nat, on: bool): Table
    requires i < |t.columns|
  {
    t.(columns := t.columns[i := t.columns[i].(indexed := on)])
  }

  function SetCell(t: Table, i: nat, row: nat, v: Cell): Table
    requires i < |t.columns| && row < |t.columns[i].cells|
  {
    t.(columns := t.columns[i := t.columns[i].(cells := t.columns[i].cells[row := v])])
  }

  predicate InTable(t: Table, i: int) {
    0 <= i < |t.columns|
  }

  // ----- what a change does to one column, and to a whole table -----

  /** The property's type allows its values to be copied one by one. */
  predicate Copyable(p: Property) {
    !p.typ.isArray && p.typ.base != Object && p.typ.base != LinkingObjects && p.typ.base != Any
  }

  function MadeOptional(col: Column, p: Property, rows: nat): Column {
    var made := NewColumn(p.(typ := p.typ.(nullable := true)), rows);
    if Copyable(p) then made.(cells := col.cells) else made
  }

  function MadeRequired(p: Property, rows: nat): Column {
    NewColumn(p.(typ := p.typ.(nullable := false)), rows)
  }

  /** The change is about one column that exists. */
  predicate IsColumnChange(c: SchemaChange) {
    || c.ChangePropertyType? || c.MakePropertyNullable? || c.MakePropertyRequired?
    || c.AddIndex? || c.RemoveIndex? || c.RemoveProperty?
  }

  function ColumnOf(c: SchemaChange): int {
    if IsColumnChange(c) then c.property.tableColumn else NPOS
  }

  /** A change that rewrites or reindexes one column leaves this in its place. */
  function ColumnAfter(col: Column, rows: nat, c: SchemaChange): Column {
    match c
    case ChangePropertyType(_, _, q) => NewColumn(q, rows)
    case MakePropertyNullable(_, p) => MadeOptional(col, p, rows)
    case MakePropertyRequired(_, p) => MadeRequired(p, rows)
    case AddIndex(_, _) => col.(indexed := true)
    case RemoveIndex(_, _) => col.(indexed := false)
    case _ => col
  }

  /** What a change adds behind the existing columns. */
  function ColumnsAdded(c: SchemaChange, rows: nat): seq<Column> {
    match c
    case AddProperty(_, p) => [NewColumn(p, rows)]
    case AddInitialProperties(o) => NewColumns(o.persisted, rows)
    case _ => []
  }

  function NewColumns(ps: seq<Property>, rows: nat): seq<Column> {
    seq(|ps|, k requires 0 <= k < |ps| => NewColumn(ps[k], rows))
  }

  /** A pass over a list of changes either carries out all of them or only brings indexes up to date. */
  datatype Pass = Building | Reindexing

  predicate Carries(pass: Pass, c: SchemaChange) {
    pass == Building || c.AddIndex? || c.RemoveIndex?
  }

  /** The table after a change, removals left aside. */
  function TableAfter(t: Table, c: SchemaChange, pass: Pass): Table {
    if !Carries(pass, c) || c.RemoveProperty? then t
    else
      var i := ColumnOf(c);
      t.(columns := (if InTable(t, i) then t.columns[i := ColumnAfter(t.columns[i], t.rows, c)] else t.columns)
                    + ColumnsAdded(c, t.rows))
  }

  function TableAfterRemoval(t: Table, c: SchemaChange): Table {
    if c.RemoveProperty? && InTable(t, c.property.tableColumn) then RemoveColumn(t, c.property.tableColumn) else t
  }

  // ----- inserting a column and removing the next one replaces a column -----

  lemma ReplaceInPlace(t: Table, i: nat, c: Column)
    requires i < |t.columns|
    ensures RemoveColumn(InsertColumn(t, i, c), i + 1) == t.(columns := t.columns[i := c])
  {
    assert RemoveColumn(InsertColumn(t, i, c), i + 1).columns == t.columns[i := c];
  }

  // ----- reading a class back from a table -----

  function PropertyOf(c: Column, i: nat, primaryKey: string): Property {
    Property(c.name, TypeOf(c.core), TargetOf(c.core), "", primaryKey != "" && c.name == primaryKey, c.indexed, i)
  }

  function ReadClass(name: string, t: Table, primaryKey: string): ObjectSchema {
    ObjectSchema(name, seq(|t.columns|, i requires 0 <= i < |t.columns| => PropertyOf(t.columns[i], i, primaryKey)),
                 [], primaryKey)
  }

  /** A declared property and the column created for it agree on the type that is read back. */
  lemma CreatedTypeIsRead(p: Property)
    requires p.typ.base == Object ==> p.typ.nullable == !p.typ.isArray
    requires p.typ.base != Object ==> p.objectType == ""
    ensures TypeOf(CoreOf(p)) == p.typ && TargetOf(CoreOf(p)) == p.objectType
  {
  }

  ghost predicate UniqueColumns(cols: seq<Column>) {
    forall i, j :: 0 <= i < j < |cols| ==> cols[i].name != cols[j].name
  }

  /**
   * Columns have as many cells as the table has rows, distinct names, types that can be created, indexes only on
   * values, and null only where the type allows it.
   */
  ghost predicate TableOk(t: Table) {
    && UniqueColumns(t.columns)
    && forall i :: 0 <= i < |t.columns| ==> ColumnOk(t.columns[i], t.rows)
  }

  predicate NullsFit(c: Column) {
    Null in c.cells ==> AllowsNull(c.core)
  }

  predicate ColumnOk(c: Column, rows: nat) {
    && |c.cells| == rows
    && NullsFit(c)
    && (c.indexed ==> c.core.Scalar?)
    && (c.core.Scalar? || c.core.List? ==>
          c.core.base != Object && c.core.base != LinkingObjects && c.core.base != Any)
  }
}
