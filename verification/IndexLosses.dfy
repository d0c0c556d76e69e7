/** In a file without a schema version: when the order of the listed changes loses an index change. */
module IndexLosses {
  import opened Options
  import opened Schemas
  import opened ChangeLists
  import opened ChangeOrder
  import opened Tables
  import opened ClassUpgrades
  import opened SinglePass
  import opened UpdateModes

  /**
   * The class calls for a rewrite of its k-th property that would undo the index change it calls for as well, and in
   * front of the property at least as many properties are dropped, in this class and those before it, as the class has
   * changes other than removals from the index change on.
   */
  predicate LosesIndexOf(e: ObjectSchema, o: ObjectSchema, k: nat, droppedBefore: nat) {
    && k < |e.persisted|
    && var p := e.persisted[k];
       var tc, ic := TypeChange(e, o, p), IndexChange(e, o, p);
       && tc.Some? && ic.Some? && Undoes(tc.value, ic.value)
       && droppedBefore + DroppedAmong(e, o, k) + 1 >= ChangesFrom(e, o, k)
  }

  predicate ClassLosesIndex(s: Schema, t: Schema, i: nat, k: nat)
    requires i < |t|
  {
    match ClassNamed(s, t[i].name)
    case None => false
    case Some(e) => LosesIndexOf(e, t[i], k, DroppedBefore(s, t, i))
  }

  /** Told from the two schemas: some index change will be lost. */
  ghost predicate LosesIndex(s: Schema, t: Schema) {
    exists i, k :: 0 <= i < |t| && 0 <= k && ClassLosesIndex(s, t, i, k)
  }

  lemma EmittedIsPair(e: ObjectSchema, t: ObjectSchema, p: Property)
    requires TypeChange(e, t, p).Some? && IndexChange(e, t, p).Some?
    ensures Emitted(e, t, p) == [TypeChange(e, t, p).value, IndexChange(e, t, p).value]
    ensures !TypeChange(e, t, p).value.RemoveProperty? && !IndexChange(e, t, p).value.RemoveProperty?
  {
    hide ObjectSchema.PropertyForName, ObjectSchema.PropertyIsComputed;
  }

  /** The two changes of a property in the list that a comparison makes, and which of them comes first. */
  lemma PairInList(s: Schema, t: Schema, cs: seq<SchemaChange>, i: nat, e: ObjectSchema, k: nat) returns (a: nat, b: nat)
    requires InOrder(s, t, cs) && i < |t| && ClassNamed(s, t[i].name) == Some(e) && k < |e.persisted|
    requires TypeChange(e, t[i], e.persisted[k]).Some? && IndexChange(e, t[i], e.persisted[k]).Some?
    ensures a < |cs| && b < |cs|
    ensures Some(cs[a]) == TypeChange(e, t[i], e.persisted[k]) && Some(cs[b]) == IndexChange(e, t[i], e.persisted[k])
    ensures b < a <==> DroppedBefore(s, t, i) + DroppedAmong(e, t[i], k) + 1 >= ChangesFrom(e, t[i], k)
  {
    var tc, ic := TypeChange(e, t[i], e.persisted[k]).value, IndexChange(e, t[i], e.persisted[k]).value;
    hide TypeChange, IndexChange, Emitted, Listed, DroppedBefore, DroppedAmong, ChangesFrom, ClassNamed;
    EmittedIsPair(e, t[i], e.persisted[k]);
    a, b := PlacesOfPair(s, t, i, e, k, tc, ic);
  }

  lemma UndonePair(s: Schema, t: Schema, cs: seq<SchemaChange>, x: nat, y: nat) returns (i: nat, e: ObjectSchema, k: nat)
    requires Sorted(s) && Sorted(t) && IsDiff(s, t, cs) && UndoneAt(cs, x, y)
    ensures i < |t| && ClassNamed(s, t[i].name) == Some(e) && k < |e.persisted|
    ensures Some(cs[x]) == IndexChange(e, t[i], e.persisted[k]) && Some(cs[y]) == TypeChange(e, t[i], e.persisted[k])
  {
    var o;
    e, o := CalledBy(s, t, cs, x);
    var e', o' := CalledBy(s, t, cs, y);
    ClassIsUnique(s, e, e');
    ClassIsUnique(t, o, o');
    i :| 0 <= i < |t| && t[i] == o;
    var j :| 0 <= j < |s| && s[j] == e;
    ClassIsNamed(s, j);
    k :| 0 <= k < |e.persisted| && e.persisted[k] == cs[x].property;
    hide ClassCalls, Sorted, IsDiff, ClassNamed;
    ChangesOfProperty(e, o, cs[x].property, cs[x]);
    ChangesOfProperty(e, o, cs[x].property, cs[y]);
    KindsDiffer(e, o, cs[x].property);
  }

  lemma KindsDiffer(e: ObjectSchema, t: ObjectSchema, p: Property)
    ensures forall c :: Some(c) == TypeChange(e, t, p) ==> c.ChangePropertyType? || c.MakePropertyNullable? || c.MakePropertyRequired?
    ensures forall c :: Some(c) == IndexChange(e, t, p) ==> c.AddIndex? || c.RemoveIndex?
  {
    hide ObjectSchema.PropertyForName, ObjectSchema.PropertyIsComputed;
  }

  lemma CalledBy(s: Schema, t: Schema, cs: seq<SchemaChange>, x: nat) returns (e: ObjectSchema, o: ObjectSchema)
    requires IsDiff(s, t, cs) && x < |cs| && IsColumnChange(cs[x])
    ensures e in s && o in t && e.name == o.name && cs[x].cls == e && ClassCalls(e, o, cs[x]) && cs[x].property in e.persisted
  {
    DiffIsCalled(s, t, cs, cs[x]);
    assert cs[x] in cs;
    e, o :| e in s && o in t && e.name == o.name && ClassCalls(e, o, cs[x]);
  }

  lemma SamePlaces(cs: seq<SchemaChange>, x: nat, a: nat)
    requires Distinct(cs) && x < |cs| && a < |cs| && cs[x] == cs[a]
    ensures x == a
  {
  }

  /** Of the list that a comparison makes, the order is bad exactly when the two schemas say so. */
  lemma UndoneIffLost(s: Schema, t: Schema, cs: seq<SchemaChange>)
    requires Sorted(s) && Sorted(t) && IsDiff(s, t, cs) && InOrder(s, t, cs)
    ensures SomeIndexUndone(cs) <==> LosesIndex(s, t)
  {
    if SomeIndexUndone(cs) {
      LostWhenUndone(s, t, cs);
    }
    if LosesIndex(s, t) {
      UndoneWhenLost(s, t, cs);
    }
  }

  lemma LostWhenUndone(s: Schema, t: Schema, cs: seq<SchemaChange>)
    requires Sorted(s) && Sorted(t) && IsDiff(s, t, cs) && InOrder(s, t, cs) && SomeIndexUndone(cs)
    ensures LosesIndex(s, t)
  {
    var x, y :| UndoneAt(cs, x, y);
    var i, e, k := UndonePair(s, t, cs, x, y);
    var a, b := PairInList(s, t, cs, i, e, k);
    hide InOrder, TypeChange, IndexChange, Sorted, ClassNamed, DroppedBefore, DroppedAmong, ChangesFrom, Undoes;
    SamePlaces(cs, x, b);
    SamePlaces(cs, y, a);
    assert ClassLosesIndex(s, t, i, k);
  }

  lemma UndoneWhenLost(s: Schema, t: Schema, cs: seq<SchemaChange>)
    requires InOrder(s, t, cs) && LosesIndex(s, t)
    ensures SomeIndexUndone(cs)
  {
    hide InOrder, TypeChange, IndexChange, ClassNamed, DroppedBefore, DroppedAmong, ChangesFrom, Undoes;
    var i, k :| 0 <= i < |t| && 0 <= k && ClassLosesIndex(s, t, i, k);
    var e := ClassNamed(s, t[i].name).value;
    var a, b := PairInList(s, t, cs, i, e, k);
    assert UndoneAt(cs, b, a);
  }
}
