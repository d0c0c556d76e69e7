/** A file and a schema on which the first update loses an index. */
module UpdateCorners {
  import opened Options
  import opened Names
  import opened Schemas
  import opened Tables
  import opened Groups
  import opened ChangeLists
  import opened ChangeOrder
  import opened ClassUpgrades
  import opened SinglePass
  import opened IndexLosses
  import opened ObjectStores
  import opened SchemaValidation
  import opened SchemaUpdates

  const NUMBER := PropertyType(Int, false, false)
  const X := Property("x", NUMBER, "", "", false, false, 0)
  const Y := Property("y", NUMBER, "", "", false, false, 1)
  const WANTED := Property("y", PropertyType(Int, true, false), "", "", false, true, NPOS)

  /** A class with two plain numbers, of which the target keeps the second, nullable and indexed. */
  const EXISTING := ObjectSchema("A", [X, Y], [], "")
  const TARGET := ObjectSchema("A", [WANTED], [], "")

  const TABLE := Table([Column("x", Scalar(Int, false), false, []), Column("y", Scalar(Int, false), false, [])], 0)
  const FILE := GroupState(map["A" := TABLE], map[])

  lemma FileIsRead()
    ensures GroupOk(FILE) && IsSchemaOf(FILE, [EXISTING])
  {
    assert ReadClass("A", TABLE, "").persisted == [X, Y];
    assert EXISTING in [EXISTING];
  }

  lemma TargetIsValid()
    ensures Target([TARGET]) && Ordered([TARGET])
  {
    LessIsIrreflexive("A");
    var o := TARGET;
    assert o.persisted == [WANTED];
    assert PropertyOk([o], "A", WANTED);
  }

  lemma WhatIsCalled()
    ensures Dropped(TARGET, X) && !Dropped(TARGET, Y)
    ensures TypeChange(EXISTING, TARGET, Y) == Some(MakePropertyNullable(EXISTING, Y))
    ensures IndexChange(EXISTING, TARGET, Y) == Some(AddIndex(EXISTING, Y))
  {
    assert TARGET.PropertyForName("x") == None;
    assert TARGET.PropertyForName("y") == Some(WANTED);
  }

  lemma ClassIsListed()
    ensures ClassChanges(EXISTING, TARGET) == [RemoveProperty(EXISTING, X), MakePropertyNullable(EXISTING, Y), AddIndex(EXISTING, Y)]
    ensures DroppedAmong(EXISTING, TARGET, 1) == 1 && ChangesFrom(EXISTING, TARGET, 1) == 2
  {
    WhatIsCalled();
    EmittedIsPair(EXISTING, TARGET, Y);
    hide Dropped, Emitted, TypeChange, IndexChange;
    assert EXISTING.PropertyForName("y") == Some(Y);
    assert NewChanges(EXISTING, TARGET, 1) == [];
    XIsDropped();
    assert OldChanges(EXISTING, TARGET, 1) == [RemoveProperty(EXISTING, X)];
    assert ChangesFrom(EXISTING, TARGET, 2) == 0;
  }

  lemma XIsDropped()
    ensures Emitted(EXISTING, TARGET, X) == [RemoveProperty(EXISTING, X)]
  {
    WhatIsCalled();
  }

  /** Listed in the right order, the two changes of the second number are swapped by the partition. */
  lemma PartitionSwapsChanges()
    ensures Listed([EXISTING], [TARGET], 1) == [AddIndex(EXISTING, Y), MakePropertyNullable(EXISTING, Y), RemoveProperty(EXISTING, X)]
  {
    ClassIsListed();
    hide ClassChanges;
    assert ClassNamed([EXISTING], "A") == Some(EXISTING);
    assert TableChanges([EXISTING], [TARGET], 1) == [];
    var cs := TableChanges([EXISTING], [TARGET], 1) + ClassChanges(EXISTING, TARGET);
    var swapped := [AddIndex(EXISTING, Y), MakePropertyNullable(EXISTING, Y), RemoveProperty(EXISTING, X)];
    assert cs[0 := cs[2]][2 := cs[0]] == swapped;
    assert Partition(swapped, 1, 2) == Partition(swapped, 2, 2) == swapped;
    assert Partition(cs, 0, 3) == swapped;
    assert Listed([EXISTING], [TARGET], 0) == TableChanges([EXISTING], [TARGET], 1);
  }

  lemma LossIsForeseen()
    ensures FileLosesIndex(FILE, [TARGET])
  {
    FileIsRead();
    WhatIsCalled();
    ClassIsListed();
    assert ClassNamed([EXISTING], "A") == Some(EXISTING);
    hide Dropped, Emitted, TypeChange, IndexChange, DroppedAmong, ChangesFrom, IsSchemaOf;
    assert ClassLosesIndex([EXISTING], [TARGET], 0, 1);
  }

  /** The first update of the file succeeds, and the schema that is read back still wants the index. */
  method FirstUpdateLosesIndex(group: Group, version: nat)
    requires group.State() == FILE && group.schemaVersion == NOT_VERSIONED > version
    modifies group
    ensures !UpToDate(group.State(), [TARGET]) && group.schemaVersion == version
  {
    FileIsRead();
    TargetIsValid();
    LossIsForeseen();
    var r, changes, result, existing := UpdateToValid(group, [TARGET], version, Automatic);
  }
}
