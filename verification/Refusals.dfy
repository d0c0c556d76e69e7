/** What the kinds of changes in a diff say about the two schemas, in terms of their classes and properties alone. */
module Refusals {
  import opened Options
  import opened Schemas
  import opened UpdateModes

  /** A class as it is read from a table: no computed properties, and names that differ. */
  ghost predicate IsRead(e: ObjectSchema) {
    e.computed == [] && UniqueNames(e)
  }

  ghost predicate DeclaresPersisted(o: ObjectSchema, n: string) {
    exists q :: q in o.persisted && q.name == n
  }

  /** What the two versions of the class both declare has the same type in both, and the primary key stays. */
  ghost predicate TypesAgree(e: ObjectSchema, o: ObjectSchema) {
    && e.primaryKey == o.primaryKey
    && forall p, q :: p in e.persisted && q in o.persisted && p.name == q.name ==> p.typ == q.typ && p.objectType == q.objectType
  }

  ghost predicate SameProperties(e: ObjectSchema, o: ObjectSchema) {
    && (forall p :: p in e.persisted ==> DeclaresPersisted(o, p.name))
    && (forall q :: q in o.persisted ==> DeclaresPersisted(e, q.name))
  }

  /** A class of the target is missing, or a property of one that is there. */
  ghost predicate SomethingMissing(s: Schema, t: Schema) {
    || (exists o :: o in t && !HasClass(s, o.name))
    || (exists e, o, q :: e in s && o in t && e.name == o.name && q in o.persisted && !DeclaresPersisted(e, q.name))
  }

  lemma FoundWhenPersisted(o: ObjectSchema, n: string)
    requires UniqueNames(o)
    ensures var r := o.PropertyForName(n);
            DeclaresPersisted(o, n) <==> r.Some? && r.value in o.persisted && !o.PropertyIsComputed(r.value)
    ensures forall q :: q in o.persisted && q.name == n ==> o.PropertyForName(n) == Some(q)
  {
    var r := o.PropertyForName(n);
    if r.Some? && r.value in o.computed {
      assert SameProperty(r.value, r.value);
    }
  }

  lemma DroppedWhenNotPersisted(o: ObjectSchema, p: Property)
    requires UniqueNames(o)
    ensures Dropped(o, p) <==> !DeclaresPersisted(o, p.name)
    ensures !Dropped(o, p) ==> Counterpart(o, p) in o.persisted && Counterpart(o, p).name == p.name
  {
    FoundWhenPersisted(o, p.name);
    var r := o.PropertyForName(p.name);
    if r.Some? && r.value in o.computed {
      assert SameProperty(r.value, r.value);
    }
  }

  // ----- the diff of a class, told from its properties alone -----

  /** The property is declared in both versions. */
  ghost predicate InBoth(e: ObjectSchema, o: ObjectSchema, p: Property, q: Property) {
    p in e.persisted && q in o.persisted && p.name == q.name
  }

  predicate SameKind(p: Property, q: Property) {
    p.typ.base == q.typ.base && p.typ.isArray == q.typ.isArray && p.objectType == q.objectType
  }

  /** What each change stands for. */
  ghost predicate Stands(e: ObjectSchema, o: ObjectSchema, c: SchemaChange) {
    && c.cls == e
    && match c
       case RemoveProperty(_, p) => p in e.persisted && !DeclaresPersisted(o, p.name)
       case AddProperty(_, q) => q in o.persisted && !DeclaresPersisted(e, q.name)
       case ChangePrimaryKey(_, k) => e.primaryKey != o.primaryKey && k == o.PropertyForName(o.primaryKey)
       case ChangePropertyType(_, p, q) => InBoth(e, o, p, q) && !SameKind(p, q)
       case MakePropertyNullable(_, p) => exists q :: InBoth(e, o, p, q) && SameKind(p, q) && !p.typ.nullable && q.typ.nullable
       case MakePropertyRequired(_, p) => exists q :: InBoth(e, o, p, q) && SameKind(p, q) && p.typ.nullable && !q.typ.nullable
       case AddIndex(_, p) =>
         exists q :: InBoth(e, o, p, q) && SameKind(p, q) && (q.isPrimary || q.isIndexed) && !p.isIndexed
       case RemoveIndex(_, p) =>
         exists q :: InBoth(e, o, p, q) && SameKind(p, q) && !(q.isPrimary || q.isIndexed) && (p.isPrimary || p.isIndexed)
       case _ => false
  }

  lemma CallsMean(e: ObjectSchema, o: ObjectSchema, c: SchemaChange)
    requires IsRead(e) && UniqueNames(o)
    ensures ClassCalls(e, o, c) <==> Stands(e, o, c)
  {
    if c.AddProperty? {
      ReadHasNone(e, c.property.name);
    } else if !c.ChangePrimaryKey? && !c.AddTable? && !c.AddInitialProperties? && !c.RemoveTable? {
      DroppedWhenNotPersisted(o, c.property);
      FoundWhenPersisted(o, c.property.name);
    }
    hide UniqueNames, ObjectSchema.PropertyForName, ObjectSchema.PropertyIsComputed, Dropped;
    if !c.ChangePrimaryKey? && !c.AddProperty? && !c.AddTable? && !c.AddInitialProperties? && !c.RemoveTable? && !Dropped(o, c.property) {
      var q := Counterpart(o, c.property);
      assert c.property in e.persisted ==> InBoth(e, o, c.property, q);
      assert forall x :: InBoth(e, o, c.property, x) ==> x == q;
    }
  }

  /** The changes to a class that additive mode does not accept are called for exactly when types or keys differ. */
  lemma UnacceptableInClass(e: ObjectSchema, o: ObjectSchema)
    requires IsRead(e) && UniqueNames(o)
    ensures (exists c :: ClassCalls(e, o, c) && !AdditiveOk(c)) <==> !TypesAgree(e, o)
  {
    hide UniqueNames, ObjectSchema.PropertyForName, ObjectSchema.PropertyIsComputed;
    if c :| ClassCalls(e, o, c) && !AdditiveOk(c) {
      if !c.ChangePrimaryKey? {
        DroppedWhenNotPersisted(o, c.property);
        assert c.property in e.persisted && Counterpart(o, c.property) in o.persisted;
      }
    }
    if !TypesAgree(e, o) {
      if e.primaryKey != o.primaryKey {
        assert ClassCalls(e, o, ChangePrimaryKey(e, o.PrimaryKeyProperty()));
      } else {
        var p, q :| p in e.persisted && q in o.persisted && p.name == q.name && !(p.typ == q.typ && p.objectType == q.objectType);
        DroppedWhenNotPersisted(o, p);
        FoundWhenPersisted(o, p.name);
        assert Counterpart(o, p) == q;
        var c := if TypeDiffers(p, q) then ChangePropertyType(e, p, q)
                 else if p.typ.nullable then MakePropertyRequired(e, p) else MakePropertyNullable(e, p);
        assert ClassCalls(e, o, c);
      }
    }
  }

  /** Those that a diff without a migration does not accept: also when properties come or go. */
  lemma MigrationInClass(e: ObjectSchema, o: ObjectSchema)
    requires IsRead(e) && UniqueNames(o)
    ensures (exists c :: ClassCalls(e, o, c) && !NonMigrationOk(c)) <==> !(TypesAgree(e, o) && SameProperties(e, o))
  {
    hide UniqueNames, ObjectSchema.PropertyForName, ObjectSchema.PropertyIsComputed;
    UnacceptableInClass(e, o);
    if c :| ClassCalls(e, o, c) && !NonMigrationOk(c) {
      if c.RemoveProperty? {
        DroppedWhenNotPersisted(o, c.property);
      } else if c.AddProperty? {
        FoundWhenPersisted(e, c.property.name);
      } else {
        assert !AdditiveOk(c);
      }
    }
    if !TypesAgree(e, o) {
      var c :| ClassCalls(e, o, c) && !AdditiveOk(c);
      assert !NonMigrationOk(c);
    } else if !SameProperties(e, o) {
      if p :| p in e.persisted && !DeclaresPersisted(o, p.name) {
        DroppedWhenNotPersisted(o, p);
        assert ClassCalls(e, o, RemoveProperty(e, p));
      } else {
        var q :| q in o.persisted && !DeclaresPersisted(e, q.name);
        ReadHasNone(e, q.name);
        assert ClassCalls(e, o, AddProperty(e, q));
      }
    }
  }

  lemma ReadHasNone(e: ObjectSchema, n: string)
    requires IsRead(e)
    ensures e.PropertyForName(n).None? <==> !DeclaresPersisted(e, n)
  {
    if q :| q in e.persisted && q.name == n {
      assert e.PropertyForName(n).Some?;
    }
  }

  /** The whole diff: what missing classes need, and what each class that is there needs. */
  lemma DiffMeans(s: Schema, t: Schema, cs: seq<SchemaChange>, c: SchemaChange)
    requires IsDiff(s, t, cs) && (forall e :: e in s ==> IsRead(e)) && forall o :: o in t ==> UniqueNames(o)
    ensures c in cs <==>
              if c.AddTable? || c.AddInitialProperties? then c.cls in t && !HasClass(s, c.cls.name)
              else exists e, o :: e in s && o in t && e.name == o.name && Stands(e, o, c)
  {
    DiffIsCalled(s, t, cs, c);
    hide IsRead, UniqueNames, ClassCalls, Stands;
    forall e, o | e in s && o in t && e.name == o.name
      ensures ClassCalls(e, o, c) <==> Stands(e, o, c)
    {
      CallsMean(e, o, c);
    }
  }

  lemma ListedForClass(s: Schema, t: Schema, cs: seq<SchemaChange>, e: ObjectSchema, o: ObjectSchema, c: SchemaChange)
    requires IsDiff(s, t, cs) && e in s && o in t && e.name == o.name && ClassCalls(e, o, c)
    ensures c in cs
  {
    assert Calls(s, t, c);
  }

  lemma ClassOfListed(s: Schema, t: Schema, cs: seq<SchemaChange>, c: SchemaChange) returns (e: ObjectSchema, o: ObjectSchema)
    requires IsDiff(s, t, cs) && c in cs && !c.AddTable? && !c.AddInitialProperties?
    ensures e in s && o in t && e.name == o.name && ClassCalls(e, o, c)
  {
    assert Calls(s, t, c);
    e, o :| e in s && o in t && e.name == o.name && ClassCalls(e, o, c);
  }

  /** A diff is accepted in additive mode exactly when common properties keep their types and classes their keys. */
  lemma AdditiveMeans(s: Schema, t: Schema, cs: seq<SchemaChange>)
    requires IsDiff(s, t, cs) && (forall e :: e in s ==> IsRead(e)) && forall o :: o in t ==> UniqueNames(o)
    ensures AcceptsAdditive(cs) <==> forall e, o :: e in s && o in t && e.name == o.name ==> TypesAgree(e, o)
  {
    hide IsDiff, TypesAgree, IsRead, UniqueNames, ClassCalls;
    if !AcceptsAdditive(cs) {
      var c :| c in cs && !AdditiveOk(c);
      var e, o := ClassOfListed(s, t, cs, c);
      UnacceptableInClass(e, o);
    } else {
      forall e, o | e in s && o in t && e.name == o.name
        ensures TypesAgree(e, o)
      {
        UnacceptableInClass(e, o);
        if c :| ClassCalls(e, o, c) && !AdditiveOk(c) {
          ListedForClass(s, t, cs, e, o, c);
        }
      }
    }
  }

  /** At an equal version: exactly when besides no property of a class that is there comes or goes. */
  lemma NonMigrationMeans(s: Schema, t: Schema, cs: seq<SchemaChange>)
    requires IsDiff(s, t, cs) && (forall e :: e in s ==> IsRead(e)) && forall o :: o in t ==> UniqueNames(o)
    ensures AcceptsNonMigration(cs) <==>
              forall e, o :: e in s && o in t && e.name == o.name ==> TypesAgree(e, o) && SameProperties(e, o)
  {
    hide IsDiff, TypesAgree, SameProperties, IsRead, UniqueNames, ClassCalls;
    if !AcceptsNonMigration(cs) {
      var c :| c in cs && !NonMigrationOk(c);
      var e, o := ClassOfListed(s, t, cs, c);
      MigrationInClass(e, o);
    } else {
      forall e, o | e in s && o in t && e.name == o.name
        ensures TypesAgree(e, o) && SameProperties(e, o)
      {
        MigrationInClass(e, o);
        if c :| ClassCalls(e, o, c) && !NonMigrationOk(c) {
          ListedForClass(s, t, cs, e, o, c);
        }
      }
    }
  }

  predicate Adds(c: SchemaChange) {
    c.AddTable? || c.AddInitialProperties? || c.AddProperty?
  }

  /** Something is added exactly when something is missing. */
  lemma AddsMeans(s: Schema, t: Schema, cs: seq<SchemaChange>)
    requires IsDiff(s, t, cs) && forall e :: e in s ==> IsRead(e)
    ensures (exists c :: c in cs && Adds(c)) <==> SomethingMissing(s, t)
  {
    if c :| c in cs && Adds(c) {
      AddShowsMissing(s, t, cs, c);
    }
    if SomethingMissing(s, t) {
      MissingShowsAdd(s, t, cs);
    }
  }

  lemma MissingShowsAdd(s: Schema, t: Schema, cs: seq<SchemaChange>)
    requires IsDiff(s, t, cs) && (forall e :: e in s ==> IsRead(e)) && SomethingMissing(s, t)
    ensures exists c :: c in cs && Adds(c)
  {
    hide IsDiff, IsRead, ClassCalls, DeclaresPersisted, HasClass;
    if o :| o in t && !HasClass(s, o.name) {
      TableIsListed(s, t, cs, o);
    } else {
      var e, o, q :| e in s && o in t && e.name == o.name && q in o.persisted && !DeclaresPersisted(e, q.name);
      AdditionIsCalled(e, o, q);
      ListedForClass(s, t, cs, e, o, AddProperty(e, q));
    }
  }

  lemma TableIsListed(s: Schema, t: Schema, cs: seq<SchemaChange>, o: ObjectSchema)
    requires IsDiff(s, t, cs) && o in t && !HasClass(s, o.name)
    ensures AddTable(o) in cs
  {
    assert Calls(s, t, AddTable(o));
  }

  lemma AdditionIsCalled(e: ObjectSchema, o: ObjectSchema, q: Property)
    requires IsRead(e) && q in o.persisted && !DeclaresPersisted(e, q.name)
    ensures ClassCalls(e, o, AddProperty(e, q))
  {
    ReadHasNone(e, q.name);
  }

  lemma AddShowsMissing(s: Schema, t: Schema, cs: seq<SchemaChange>, c: SchemaChange)
    requires IsDiff(s, t, cs) && (forall e :: e in s ==> IsRead(e)) && c in cs && Adds(c)
    ensures SomethingMissing(s, t)
  {
    if c.AddProperty? {
      var e, o := ClassOfListed(s, t, cs, c);
      hide IsDiff, IsRead;
      ReadHasNone(e, c.property.name);
    } else {
      assert Calls(s, t, c);
    }
  }
}
