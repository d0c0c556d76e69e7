/** The order in which a comparison of two schemas lists the changes, and where it depends on the removals. */
module ChangeOrder {
  import opened Options
  import opened Schemas
  import opened ChangeLists

  /** The changes that a property of the existing class gives rise to. */
  function Emitted(e: ObjectSchema, t: ObjectSchema, p: Property): seq<SchemaChange> {
    if Dropped(t, p) then [RemoveProperty(e, p)]
    else if TypeDiffers(p, Counterpart(t, p)) then [ChangePropertyType(e, p, Counterpart(t, p))]
    else
      var q := Counterpart(t, p);
      (if p.typ.nullable && !q.typ.nullable then [MakePropertyRequired(e, p)]
       else if !p.typ.nullable && q.typ.nullable then [MakePropertyNullable(e, p)]
       else [])
      + (if q.RequiresIndex() then (if !p.isIndexed then [AddIndex(e, p)] else [])
         else if p.RequiresIndex() then [RemoveIndex(e, p)] else [])
  }

  // ----- the list, apart from the order of the removals -----

  /** The changes listed for the first k old properties. */
  function OldChanges(e: ObjectSchema, t: ObjectSchema, k: nat): seq<SchemaChange>
    requires k <= |e.persisted|
  {
    if k == 0 then [] else OldChanges(e, t, k - 1) + Emitted(e, t, e.persisted[k - 1])
  }

  function KeyChange(e: ObjectSchema, t: ObjectSchema): seq<SchemaChange> {
    if e.primaryKey != t.primaryKey then [ChangePrimaryKey(e, t.PrimaryKeyProperty())] else []
  }

  /** The additions listed for the first k declared properties. */
  function NewChanges(e: ObjectSchema, t: ObjectSchema, k: nat): seq<SchemaChange>
    requires k <= |t.persisted|
  {
    if k == 0 then []
    else NewChanges(e, t, k - 1) +
         if e.PropertyForName(t.persisted[k - 1].name).None? then [AddProperty(e, t.persisted[k - 1])] else []
  }

  function ClassChanges(e: ObjectSchema, t: ObjectSchema): seq<SchemaChange> {
    OldChanges(e, t, |e.persisted|) + KeyChange(e, t) + NewChanges(e, t, |t.persisted|)
  }

  function TableChanges(existing: Schema, target: Schema, i: nat): seq<SchemaChange>
    requires i <= |target|
  {
    if i == 0 then []
    else TableChanges(existing, target, i - 1) +
         if ClassNamed(existing, target[i - 1].name).None? then [AddTable(target[i - 1])] else []
  }

  /** The list after the target's first i classes: each class that exists is followed by a partition of the whole list. */
  function Listed(existing: Schema, target: Schema, i: nat): seq<SchemaChange>
    requires i <= |target|
  {
    if i == 0 then TableChanges(existing, target, |target|)
    else
      var before, o := Listed(existing, target, i - 1), target[i - 1];
      match ClassNamed(existing, o.name)
      case None => before + [AddInitialProperties(o)]
      case Some(e) => Partition(before + ClassChanges(e, o), 0, |before + ClassChanges(e, o)|)
  }

  /** The list as a comparison leaves it, up to the order of the removals. */
  ghost predicate InOrder(existing: Schema, target: Schema, cs: seq<SchemaChange>) {
    SameOrder(cs, Listed(existing, target, |target|))
  }

  // ----- how many changes there are -----

  /** How many of the first k old properties are removed. */
  function DroppedAmong(e: ObjectSchema, t: ObjectSchema, k: nat): nat
    requires k <= |e.persisted|
  {
    if k == 0 then 0 else DroppedAmong(e, t, k - 1) + if Dropped(t, e.persisted[k - 1]) then 1 else 0
  }

  /** How many properties the target's first i classes drop. */
  function DroppedBefore(existing: Schema, target: Schema, i: nat): nat
    requires i <= |target|
  {
    if i == 0 then 0
    else
      var o := target[i - 1];
      DroppedBefore(existing, target, i - 1) +
      match ClassNamed(existing, o.name)
      case None => 0
      case Some(e) => DroppedAmong(e, o, |e.persisted|)
  }

  /** How many changes other than removals are listed for the class from the k-th old property on. */
  function ChangesFrom(e: ObjectSchema, t: ObjectSchema, k: nat): nat
    requires k <= |e.persisted|
    decreases |e.persisted| - k
  {
    if k == |e.persisted| then |KeyChange(e, t)| + |NewChanges(e, t, |t.persisted|)|
    else (if Dropped(t, e.persisted[k]) then 0 else |Emitted(e, t, e.persisted[k])|) + ChangesFrom(e, t, k + 1)
  }

  lemma EmittedRemovals(e: ObjectSchema, t: ObjectSchema, p: Property)
    ensures Removals(Emitted(e, t, p)) == if Dropped(t, p) then 1 else 0
    ensures Dropped(t, p) ==> |Emitted(e, t, p)| == 1
  {
    hide ObjectSchema.PropertyForName, ObjectSchema.PropertyIsComputed;
    NoRemovals(Emitted(e, t, p));
    if Dropped(t, p) {
      assert [RemoveProperty(e, p)][..0] == [];
    }
  }

  lemma {:induction false} NoRemovals(cs: seq<SchemaChange>)
    ensures (forall c :: c in cs ==> !c.RemoveProperty?) ==> Removals(cs) == 0
  {
    if cs != [] {
      NoRemovals(cs[..|cs| - 1]);
    }
  }

  lemma {:induction false} OldRemovals(e: ObjectSchema, t: ObjectSchema, k: nat)
    requires k <= |e.persisted|
    ensures Removals(OldChanges(e, t, k)) == DroppedAmong(e, t, k)
  {
    hide Emitted, Dropped;
    if k > 0 {
      OldRemovals(e, t, k - 1);
      EmittedRemovals(e, t, e.persisted[k - 1]);
      RemovalsConcat(OldChanges(e, t, k - 1), Emitted(e, t, e.persisted[k - 1]));
    }
  }

  lemma {:induction false} NewIsNoRemoval(e: ObjectSchema, t: ObjectSchema, k: nat)
    requires k <= |t.persisted|
    ensures forall c :: c in NewChanges(e, t, k) ==> !c.RemoveProperty?
  {
    if k > 0 {
      NewIsNoRemoval(e, t, k - 1);
    }
  }

  lemma {:induction false} ClassRemovals(e: ObjectSchema, t: ObjectSchema)
    ensures Removals(ClassChanges(e, t)) == DroppedAmong(e, t, |e.persisted|)
  {
    var old_, key, new_ := OldChanges(e, t, |e.persisted|), KeyChange(e, t), NewChanges(e, t, |t.persisted|);
    OldRemovals(e, t, |e.persisted|);
    NewIsNoRemoval(e, t, |t.persisted|);
    NoRemovals(key);
    NoRemovals(new_);
    RemovalsConcat(old_, key);
    RemovalsConcat(old_ + key, new_);
  }

  lemma {:induction false} TablesAreNoRemovals(s: Schema, t: Schema, i: nat)
    requires i <= |t|
    ensures forall c :: c in TableChanges(s, t, i) ==> !c.RemoveProperty?
  {
    if i > 0 {
      TablesAreNoRemovals(s, t, i - 1);
    }
  }

  lemma {:induction false} ListedRemovals(s: Schema, t: Schema, i: nat)
    requires i <= |t|
    ensures Removals(Listed(s, t, i)) == DroppedBefore(s, t, i)
  {
    hide ClassChanges, TableChanges, Partition, ClassNamed, DroppedAmong;
    if i == 0 {
      TablesAreNoRemovals(s, t, |t|);
      NoRemovals(Listed(s, t, 0));
    } else {
      ListedRemovals(s, t, i - 1);
      var before, o := Listed(s, t, i - 1), t[i - 1];
      match ClassNamed(s, o.name)
      case None =>
        NoRemovals([AddInitialProperties(o)]);
        RemovalsConcat(before, [AddInitialProperties(o)]);
      case Some(e) =>
        ClassRemovals(e, o);
        RemovalsConcat(before, ClassChanges(e, o));
        PartitionKeepsRemovals(before + ClassChanges(e, o), 0, |before + ClassChanges(e, o)|);
    }
  }

  lemma {:induction false} ClassIsCounted(e: ObjectSchema, t: ObjectSchema, k: nat)
    requires k <= |e.persisted|
    ensures |ClassChanges(e, t)| - DroppedAmong(e, t, |e.persisted|)
            == |OldChanges(e, t, k)| - DroppedAmong(e, t, k) + ChangesFrom(e, t, k)
    decreases |e.persisted| - k
  {
    hide Emitted, Dropped, KeyChange, NewChanges;
    if k < |e.persisted| {
      ClassIsCounted(e, t, k + 1);
      EmittedRemovals(e, t, e.persisted[k]);
    }
  }

  // ----- where the two changes of one property end up -----

  lemma {:induction false} OldIsPrefix(e: ObjectSchema, t: ObjectSchema, k: nat, n: nat)
    requires k <= n <= |e.persisted|
    ensures OldChanges(e, t, k) <= OldChanges(e, t, n)
    decreases n
  {
    hide Emitted;
    if k < n {
      OldIsPrefix(e, t, k, n - 1);
    }
  }

  lemma {:induction false} EmittedStandsThere(e: ObjectSchema, t: ObjectSchema, k: nat)
    requires k < |e.persisted|
    ensures var at, emitted := |OldChanges(e, t, k)|, Emitted(e, t, e.persisted[k]);
            at + |emitted| <= |ClassChanges(e, t)| && ClassChanges(e, t)[at..at + |emitted|] == emitted
  {
    hide Emitted, KeyChange, NewChanges;
    OldIsPrefix(e, t, k + 1, |e.persisted|);
    assert OldChanges(e, t, k + 1) == OldChanges(e, t, k) + Emitted(e, t, e.persisted[k]);
    assert OldChanges(e, t, k + 1) <= ClassChanges(e, t);
  }

  /** What has once come to stand in front of all removals is not moved any more. */
  lemma {:induction false} FrontStays(s: Schema, t: Schema, i: nat, n: nat, m: nat)
    requires i <= n <= |t| && m <= |Listed(s, t, i)|
    requires forall x :: 0 <= x < m ==> !Listed(s, t, i)[x].RemoveProperty?
    ensures m <= |Listed(s, t, n)| && Listed(s, t, n)[..m] == Listed(s, t, i)[..m]
    decreases n
  {
    hide ClassChanges, TableChanges, Partition, ClassNamed;
    if i < n {
      FrontStays(s, t, i, n - 1, m);
      var before, o := Listed(s, t, n - 1), t[n - 1];
      forall x | 0 <= x < m
        ensures !before[x].RemoveProperty?
      {
        assert before[x] == before[..m][x] == Listed(s, t, i)[..m][x];
      }
      match ClassNamed(s, o.name)
      case None =>
      case Some(e) =>
        PartitionKeepsFront(before + ClassChanges(e, o), m);
        assert (before + ClassChanges(e, o))[..m] == before[..m];
    }
  }

  /**
   * For an old property with a rewrite and an index change, the places of the two in the whole list: the index change
   * comes first if and only if the properties dropped before, in this class and those in front of it, are at least as
   * many as the changes other than removals that the class lists from the index change on.
   */
  lemma {:induction false} PlacesOfPair(s: Schema, t: Schema, i: nat, e: ObjectSchema, k: nat, rewrite: SchemaChange, index: SchemaChange)
    returns (a: nat, b: nat)
    requires i < |t| && ClassNamed(s, t[i].name) == Some(e) && k < |e.persisted|
    requires Emitted(e, t[i], e.persisted[k]) == [rewrite, index] && !rewrite.RemoveProperty? && !index.RemoveProperty?
    ensures var cs := Listed(s, t, |t|);
            a < |cs| && b < |cs| && a != b && cs[a] == rewrite && cs[b] == index
    ensures b < a <==> DroppedBefore(s, t, i) + DroppedAmong(e, t[i], k) + 1 >= ChangesFrom(e, t[i], k)
  {
    hide Emitted, ClassChanges, TableChanges, OldChanges, ClassNamed, Partition, ChangesFrom, DroppedAmong, IsBorder;
    var before, o := Listed(s, t, i), t[i];
    var all, x := before + ClassChanges(e, o), |before| + |OldChanges(e, o, k)|;
    EmittedStandsThere(e, o, k);
    PairIsListed(before, ClassChanges(e, o), |OldChanges(e, o, k)|, rewrite, index);
    a, b := PartitionSwapsNeighbours(all, x);
    assert Listed(s, t, i + 1) == Partition(all, 0, |all|);
    var m := |all| - Removals(all);
    ListedRemovals(s, t, i);
    ClassRemovals(e, o);
    RemovalsConcat(before, ClassChanges(e, o));
    ClassIsCounted(e, o, k);
    InFrontOfBorder(Partition(all, 0, |all|), m, a);
    InFrontOfBorder(Partition(all, 0, |all|), m, b);
    FrontStays(s, t, i + 1, |t|, m);
    assert Listed(s, t, |t|)[..m][a] == rewrite && Listed(s, t, |t|)[..m][b] == index;
  }

  lemma PairIsListed(before: seq<SchemaChange>, cs: seq<SchemaChange>, at: nat, c: SchemaChange, d: SchemaChange)
    requires at + 2 <= |cs| && cs[at..at + 2] == [c, d]
    ensures (before + cs)[|before| + at] == c && (before + cs)[|before| + at + 1] == d
  {
    assert cs[at] == cs[at..at + 2][0] && cs[at + 1] == cs[at..at + 2][1];
  }

  lemma InFrontOfBorder(cs: seq<SchemaChange>, m: nat, a: nat)
    requires IsBorder(cs, m) && a < |cs| && !cs[a].RemoveProperty?
    ensures a < m && forall x :: 0 <= x < m ==> !cs[x].RemoveProperty?
  {
  }
}
