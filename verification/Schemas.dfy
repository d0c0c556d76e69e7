/** Properties, classes, schemas, the changes that lead from one schema to another, and what makes a schema valid. */
module Schemas {
  import opened Names
  import opened Options

  datatype BaseType = Int | Bool | String | Data | Date | Float | Double | Object | LinkingObjects | Any

  datatype PropertyType = PropertyType(base: BaseType, nullable: bool, isArray: bool)

  /** The table column of a property that has not been looked up. */
  const NPOS := -1

  datatype Property = Property(name: string, typ: PropertyType, objectType: string, origin: string,
                               isPrimary: bool, isIndexed: bool, tableColumn: int) {
    predicate RequiresIndex() {
      isPrimary || isIndexed
    }

    predicate TypeIsIndexable() {
      typ.base == Int || typ.base == Bool || typ.base == Date || typ.base == String
    }

    predicate TypeIsNullable() {
      !(typ.isArray && typ.base == Object) && typ.base != LinkingObjects
    }
  }

  /** Equality of properties as the source defines it: the table column is not compared. */
  predicate SameProperty(p: Property, q: Property) {
    && p.typ == q.typ && p.isPrimary == q.isPrimary && p.RequiresIndex() == q.RequiresIndex()
    && p.name == q.name && p.objectType == q.objectType && p.origin == q.origin
  }

  /** What is left to compare: where the column is, and whether the index is there for being the primary key. */
  lemma SamePropertyMeans(p: Property, q: Property)
    ensures SameProperty(p, q) <==>
              p.(tableColumn := NPOS, isIndexed := p.isPrimary || p.isIndexed) == q.(tableColumn := NPOS, isIndexed := q.isPrimary || q.isIndexed)
  {
  }

  datatype ObjectSchema = ObjectSchema(name: string, persisted: seq<Property>, computed: seq<Property>,
                                       primaryKey: string) {
    /** Persisted properties are searched before computed ones. */
    function PropertyForName(n: string): (r: Option<Property>)
      ensures r.Some? ==> r.value.name == n && (r.value in persisted || r.value in computed)
      ensures r.None? ==> forall p :: p in persisted || p in computed ==> p.name != n
    {
      var r := Lookup(persisted, n);
      if r.Some? then r else Lookup(computed, n)
    }

    predicate PropertyIsComputed(p: Property) {
      exists q :: q in computed && SameProperty(p, q)
    }

    function PrimaryKeyProperty(): Option<Property> {
      PropertyForName(primaryKey)
    }
  }

  /** The first property with the name. */
  function Lookup(ps: seq<Property>, n: string): (r: Option<Property>)
    ensures r.Some? ==> r.value in ps && r.value.name == n
    ensures r.None? ==> forall p :: p in ps ==> p.name != n
  {
    if ps == [] then None
    else if ps[0].name == n then Some(ps[0])
    else Lookup(ps[1..], n)
  }

  type Schema = seq<ObjectSchema>

  ghost predicate Sorted(s: Schema) {
    forall i, j :: 0 <= i < j < |s| ==> Less(s[i].name, s[j].name)
  }

  ghost predicate HasClass(s: Schema, n: string) {
    exists o :: o in s && o.name == n
  }

  lemma ClassIsUnique(s: Schema, a: ObjectSchema, b: ObjectSchema)
    requires Sorted(s) && a in s && b in s && a.name == b.name
    ensures a == b
  {
    var i :| 0 <= i < |s| && s[i] == a;
    var j :| 0 <= j < |s| && s[j] == b;
    LessIsIrreflexive(a.name);
  }

  /** A set of classes can be sorted in one way only. */
  lemma {:induction false} SortedIsUnique(a: Schema, b: Schema)
    requires Sorted(a) && Sorted(b) && forall o :: o in a <==> o in b
    ensures a == b
  {
    if a == [] {
      if b != [] {
        FirstIsIn(b);
      }
    } else {
      assert a[0] in b && b[0] in b;
      var j :| 0 <= j < |b| && b[j] == a[0];
      var i :| 0 <= i < |a| && a[i] == b[0];
      if i > 0 && j > 0 {
        LessIsAsymmetric(a[0].name, b[0].name);
      }
      forall o
        ensures o in a[1..] <==> o in b[1..]
      {
        InTail(a, o);
        InTail(b, o);
      }
      SortedIsUnique(a[1..], b[1..]);
    }
  }

  lemma FirstIsIn(s: Schema)
    requires s != []
    ensures s[0] in s
  {
  }

  lemma InTail(s: Schema, o: ObjectSchema)
    requires Sorted(s) && s != []
    ensures o in s[1..] <==> o in s && o != s[0]
  {
    LessIsIrreflexive(s[0].name);
    assert s == [s[0]] + s[1..];
  }

  /** The first class of the name. */
  function ClassNamed(t: Schema, n: string): (r: Option<ObjectSchema>)
    ensures r.Some? ==> r.value in t && r.value.name == n
    ensures r.None? ==> !HasClass(t, n)
  {
    if t == [] then None else if t[0].name == n then Some(t[0]) else ClassNamed(t[1..], n)
  }

  lemma ClassIsNamed(t: Schema, k: nat)
    requires Sorted(t) && k < |t|
    ensures ClassNamed(t, t[k].name) == Some(t[k])
  {
    var o := ClassNamed(t, t[k].name);
    assert t[k] in t && HasClass(t, t[k].name);
    ClassIsUnique(t, o.value, t[k]);
  }

  // ----- validity -----

  /** The rules that a validation checks for one property, apart from the single primary key of its class. */
  ghost predicate PropertyOk(s: Schema, objectName: string, p: Property) {
    && (p.typ.base == LinkingObjects ==> p.typ.isArray)
    && (p.typ.nullable ==> p.typ.base != LinkingObjects && (p.typ.base == Object ==> !p.typ.isArray))
    && (p.typ.base == Object ==> p.typ.nullable || p.typ.isArray)
    && (p.isPrimary ==> p.typ.base == Int || p.typ.base == String)
    && (p.isIndexed ==> p.typ.base in {Int, Bool, Date, String})
    && (p.typ.base != LinkingObjects <==> p.origin == "")
    && (p.typ.base != Object && p.typ.base != LinkingObjects ==> p.objectType == "")
    && (p.typ.base == Object || p.typ.base == LinkingObjects ==> HasClass(s, p.objectType))
    && (p.typ.base == LinkingObjects && ClassNamed(s, p.objectType).Some? ==>
          OriginOk(ClassNamed(s, p.objectType).value, objectName, p))
  }

  predicate OriginOk(o: ObjectSchema, objectName: string, p: Property) {
    var q := o.PropertyForName(p.origin);
    q.Some? && q.value.typ.base == Object && q.value.objectType == objectName
  }

  /** At most one property of the class is flagged as its primary key, and a named primary key exists. */
  ghost predicate PrimaryKeyOk(o: ObjectSchema) {
    var all := o.persisted + o.computed;
    && (forall i, j :: 0 <= i < j < |all| ==> !(all[i].isPrimary && all[j].isPrimary))
    && (o.primaryKey != "" && (forall p :: p in all ==> !p.isPrimary) ==> o.PrimaryKeyProperty().Some?)
  }

  ghost predicate ClassOk(s: Schema, o: ObjectSchema) {
    && (forall p :: p in o.persisted || p in o.computed ==> PropertyOk(s, o.name, p))
    && PrimaryKeyOk(o)
  }

  /** A schema that passes validation. */
  ghost predicate Valid(s: Schema) {
    Sorted(s) && forall o :: o in s ==> ClassOk(s, o)
  }

  ghost predicate UniqueNames(o: ObjectSchema) {
    && (forall p, q :: p in o.persisted && q in o.persisted && p.name == q.name ==> p == q)
    && (forall p, q :: p in o.persisted && q in o.computed ==> p.name != q.name)
    && (forall i, j :: 0 <= i < j < |o.persisted| ==> o.persisted[i].name != o.persisted[j].name)
  }

  /** What the source expects of the schemas it is given beyond what it validates. */
  ghost predicate WellDeclared(o: ObjectSchema) {
    && UniqueNames(o)
    && (forall p :: p in o.persisted || p in o.computed ==> p.name != "")
    && (forall p :: p in o.persisted ==> p.typ.base != LinkingObjects && p.typ.base != Any)
    && (forall p :: p in o.persisted && p.RequiresIndex() ==> !p.typ.isArray)
    && (forall p :: p in o.persisted ==> (p.isPrimary <==> o.primaryKey != "" && p.name == o.primaryKey))
    && (o.primaryKey != "" ==> exists p :: p in o.persisted && p.isPrimary)
  }

  /** The schemas for which an upgrade is meant. */
  ghost predicate Target(s: Schema) {
    Valid(s) && forall o :: o in s ==> WellDeclared(o)
  }

  // ----- changes -----

  datatype SchemaChange =
    | AddTable(cls: ObjectSchema)
    | RemoveTable(cls: ObjectSchema)
    | AddInitialProperties(cls: ObjectSchema)
    | AddProperty(cls: ObjectSchema, property: Property)
    | RemoveProperty(cls: ObjectSchema, property: Property)
    | ChangePropertyType(cls: ObjectSchema, property: Property, newProperty: Property)
    | MakePropertyNullable(cls: ObjectSchema, property: Property)
    | MakePropertyRequired(cls: ObjectSchema, property: Property)
    | AddIndex(cls: ObjectSchema, property: Property)
    | RemoveIndex(cls: ObjectSchema, property: Property)
    | ChangePrimaryKey(cls: ObjectSchema, newKey: Option<Property>)

  predicate About(c: SchemaChange, n: string) {
    c.cls.name == n
  }

  /** The property has no persisted counterpart in the class. */
  predicate Dropped(t: ObjectSchema, p: Property) {
    var q := t.PropertyForName(p.name);
    q.None? || t.PropertyIsComputed(q.value)
  }

  predicate TypeDiffers(p: Property, q: Property) {
    p.typ.base != q.typ.base || p.objectType != q.objectType || p.typ.isArray != q.typ.isArray
  }

  /** What the two versions e and t of a class call for. */
  predicate ClassCalls(e: ObjectSchema, t: ObjectSchema, c: SchemaChange) {
    match c
    case RemoveProperty(o, p) => o == e && p in e.persisted && Dropped(t, p)
    case AddProperty(o, q) => o == e && q in t.persisted && e.PropertyForName(q.name).None?
    case ChangePrimaryKey(o, k) => o == e && e.primaryKey != t.primaryKey && k == t.PrimaryKeyProperty()
    case ChangePropertyType(o, p, q) =>
      && o == e && p in e.persisted && !Dropped(t, p)
      && Some(q) == t.PropertyForName(p.name) && TypeDiffers(p, q)
    case MakePropertyNullable(o, p) =>
      o == e && p in e.persisted && Kept(t, p) && !p.typ.nullable && Counterpart(t, p).typ.nullable
    case MakePropertyRequired(o, p) =>
      o == e && p in e.persisted && Kept(t, p) && p.typ.nullable && !Counterpart(t, p).typ.nullable
    case AddIndex(o, p) =>
      o == e && p in e.persisted && Kept(t, p) && Counterpart(t, p).RequiresIndex() && !p.isIndexed
    case RemoveIndex(o, p) =>
      o == e && p in e.persisted && Kept(t, p) && !Counterpart(t, p).RequiresIndex() && p.RequiresIndex()
    case AddTable(_) => false
    case RemoveTable(_) => false
    case AddInitialProperties(_) => false
  }

  /** The property stays, with its type. */
  predicate Kept(t: ObjectSchema, p: Property) {
    !Dropped(t, p) && !TypeDiffers(p, t.PropertyForName(p.name).value)
  }

  function Counterpart(t: ObjectSchema, p: Property): Property
    requires !Dropped(t, p)
  {
    t.PropertyForName(p.name).value
  }

  /** The changes that lead from one schema to the other. */
  ghost predicate Calls(existing: Schema, target: Schema, c: SchemaChange) {
    if c.AddTable? || c.AddInitialProperties? then
      c.cls in target && !HasClass(existing, c.cls.name)
    else
      exists e, t :: e in existing && t in target && e.name == t.name && ClassCalls(e, t, c)
  }

  ghost predicate Distinct<T(!new)>(s: seq<T>) {
    forall i, j :: 0 <= i < j < |s| ==> s[i] != s[j]
  }

  /** A removal is followed, for its class, only by removals of earlier columns. */
  ghost predicate RemovalsLast(cs: seq<SchemaChange>) {
    forall i, j :: 0 <= i < j < |cs| && cs[i].RemoveProperty? && cs[j].cls.name == cs[i].cls.name ==>
      cs[j].RemoveProperty? && cs[j].property.tableColumn < cs[i].property.tableColumn
  }

  ghost predicate TablesFirst(cs: seq<SchemaChange>) {
    forall i, j :: 0 <= i < j < |cs| && cs[j].AddTable? ==> cs[i].AddTable?
  }

  /** Exactly the changes called for, each once, in an order in which they can be carried out. */
  ghost predicate IsDiff(existing: Schema, target: Schema, cs: seq<SchemaChange>) {
    && (forall c :: c in cs <==> Calls(existing, target, c))
    && Distinct(cs) && RemovalsLast(cs) && TablesFirst(cs)
  }

  // ----- what is called for about one class -----

  lemma DiffIsCalled(s: Schema, t: Schema, cs: seq<SchemaChange>, c: SchemaChange)
    requires IsDiff(s, t, cs)
    ensures c in cs <==> Calls(s, t, c)
  {
  }

  lemma CallsOfClass(s: Schema, t: Schema, c: SchemaChange, e: ObjectSchema, o: ObjectSchema)
    requires Sorted(s) && Sorted(t) && e in s && o in t && e.name == o.name && About(c, e.name)
    ensures Calls(s, t, c) <==> ClassCalls(e, o, c)
  {
    if Calls(s, t, c) {
      if !c.AddTable? && !c.AddInitialProperties? {
        var e', o' :| e' in s && o' in t && e'.name == o'.name && ClassCalls(e', o', c);
        assert e'.name == e.name;
        ClassIsUnique(s, e, e');
        ClassIsUnique(t, o, o');
      }
    }
  }

  lemma CallsOfNewClass(s: Schema, t: Schema, c: SchemaChange, o: ObjectSchema)
    requires Sorted(t) && o in t && !HasClass(s, o.name) && About(c, o.name)
    ensures Calls(s, t, c) <==> c == AddTable(o) || c == AddInitialProperties(o)
  {
    if Calls(s, t, c) {
      if c.AddTable? || c.AddInitialProperties? {
        ClassIsUnique(t, o, c.cls);
      }
    }
  }

  lemma CallsOfOldClass(s: Schema, t: Schema, c: SchemaChange, n: string)
    requires !HasClass(t, n) && About(c, n)
    ensures !Calls(s, t, c)
  {
  }

  // ----- finding a class -----

  /** Binary search for the class; the length of the schema stands for its absence. */
  method Find(s: Schema, n: string) returns (k: nat)
    requires Sorted(s)
    ensures k <= |s|
    ensures k < |s| ==> s[k].name == n
    ensures k == |s| <==> !HasClass(s, n)
  {
    var lo, hi := 0, |s|;
    while lo < hi
      invariant lo <= hi <= |s|
      invariant forall i :: 0 <= i < lo ==> Less(s[i].name, n)
      invariant forall i :: hi <= i < |s| ==> !Less(s[i].name, n)
    {
      var mid := (lo + hi) / 2;
      BisectionKeeps(s, n, mid);
      if Less(s[mid].name, n) {
        lo := mid + 1;
      } else {
        hi := mid;
      }
    }
    NotElsewhere(s, n, lo);
    k := if lo < |s| && s[lo].name == n then lo else |s|;
  }

  lemma BisectionKeeps(s: Schema, n: string, mid: nat)
    requires Sorted(s) && mid < |s|
    ensures Less(s[mid].name, n) ==> forall i :: 0 <= i <= mid ==> Less(s[i].name, n)
    ensures !Less(s[mid].name, n) ==> forall i :: mid <= i < |s| ==> !Less(s[i].name, n)
  {
    forall i | 0 <= i < |s|
      ensures Less(s[mid].name, n) && i <= mid ==> Less(s[i].name, n)
      ensures !Less(s[mid].name, n) && mid <= i ==> !Less(s[i].name, n)
    {
      if i < mid && Less(s[mid].name, n) {
        LessIsTransitive(s[i].name, s[mid].name, n);
      }
      if mid < i && Less(s[i].name, n) {
        LessIsTransitive(s[mid].name, s[i].name, n);
      }
    }
  }

  lemma NotElsewhere(s: Schema, n: string, k: nat)
    requires Sorted(s) && k <= |s|
    requires forall i :: 0 <= i < k ==> Less(s[i].name, n)
    requires forall i :: k <= i < |s| ==> !Less(s[i].name, n)
    ensures HasClass(s, n) <==> k < |s| && s[k].name == n
  {
    if o :| o in s && o.name == n {
      var i :| 0 <= i < |s| && s[i] == o;
      LessIsIrreflexive(n);
      assert i >= k;
    }
  }
}
