# A verified model of the Realm object store

This project models the data structures and protocols at the heart of the Realm object store and proves what they
promise. `dafny verify dfyconfig.toml` checks everything.

**Index sets.** A set of naturals is kept as sorted, disjoint, non-adjacent ranges, packed into chunks of bounded size
that cache their begin, end and count (`Ranges`, `ChunkedRangeVector`, `RangeBuilder`, `IndexSet`). `PositionalSets`
says what the operations mean on plain sets: shifting past members, inserting and erasing positions one by one or in
bulk. Each operation of `IndexSet` is proved to keep every chunk right and to have exactly its meaning, for every even
chunk size, and the meanings are proved to undo each other and to agree with their one-by-one forms. Two places where
the code does less than its comments say are kept as they are, with the exact condition and a concrete input:
a count that starts inside a chunk can stop at the next chunk's border, and a relocation can leave a wrong cached count,
which depends on how many runs of the result lie in front of an own range (`Runs`, `IndexSetCorners`). Looking up and
clearing need no cached count and are proved without.

**Schemas.** A schema is compared with another and the resulting changes are carried out on tables whose columns are
addressed by position (`Schemas`, `SchemaCompare`, `Tables`, `Groups`, `ObjectStore`, `SchemaUpdates`). The central
result is that of a compiler: whatever the diff is, carrying it out leaves a group whose schema, read back and compared
again, calls for nothing. It holds for every order of the changes that has tables first and, per class, removals last
with later columns first, which is what the comparison is proved to produce. The exception is the single pass for a
file without a version: there an index change that comes before a rewrite of the same column is lost, and the
partition inside the comparison can bring about that order. Since the order of all changes but removals is fixed by
the two schemas (`ChangeOrder`), the loss is foreseen by counting properties and changes (`IndexLosses`), and the result
is proved to hold exactly when the count says so, with a file and a schema for which it fails (`UpdateCorners`). A
version bump is refused exactly when a new key will have duplicate values, told from the file before it (`NewKeys`).
How an update ends is told from the two schemas and the two versions alone, and the schema that is handed out knows
the column of every property (`Refusals`, `ColumnCopies`, `ColumnBindings`). Additive mode is proved to lose nothing,
and renames are proved right when the old column comes first, with what goes wrong otherwise.

**Handover.** References pin a version, and a call resolves them into another realm while other threads read, commit,
clean up and resolve (`Handover`, `HandoverRuns`, `Coordinator`). Over every run pins and live references match, every
import finds its version pinned, and an import meets another version exactly when its realm was sending notifications
and behind the reference at the start of the call.

**Smaller pieces.** Key paths for sorting (`KeyPaths`), the leaf of the B+ tree with its split (`BasicArray`), and the
differential assignment of lists (`RealmList`).

Assumptions about code that is not part of this model: adding or removing an index is idempotent, advancing to the
latest version reaches the newest one, and the branches for synchronized files are off. The target of an update is
valid, its property names differ and are not empty, its flags agree with its primary key, and no list is indexed or a
primary key.

## Model

| member | source | states |
|---|---|---|
| `Ranges.AdjacentOrderIsCanonical` | Example/Pods/Realm/Realm/ObjectStore/src/index_set.cpp:172-193 | the debug check, which only compares neighbours, accepts exactly the lists in which all ranges are non-empty, ordered and apart |
| `Ranges.WidthCountsMembers` | Example/Pods/Realm/Realm/ObjectStore/src/index_set.cpp:172-193 | the widths of a canonical list add up to the number of its members |
| `Ranges.MemberAtPosition` | Example/Pods/Realm/Realm/ObjectStore/src/index_set.cpp:273-277 | an index is a member exactly when the range at its search position covers it |
| `Ranges.PositionIsUnique` | Example/Pods/Realm/Realm/ObjectStore/src/index_set.cpp:323-344 | a list has at most one search position for an index |
| `Runs.PlaceIsRunsBelow` | Example/Pods/Realm/Realm/ObjectStore/src/index_set.cpp:172-193 | a range stands in the list at the number of maximal runs of the set in front of it |
| `Runs.CanonicalIsUnique` | Example/Pods/Realm/Realm/ObjectStore/src/index_set.cpp:172-193 | a set has only one canonical list |
| `PositionalSets.ShiftIsBijection` | Example/Pods/Realm/Realm/ObjectStore/src/index_set.cpp:656-671 | shift is strictly increasing and onto the complement of the set, and unshift is its inverse both ways |
| `PositionalSets.EraseUndoesInsert` | Example/Pods/Realm/Realm/ObjectStore/src/index_set.cpp:456-571 | erasing a set of positions after inserting it, or after making room for it, gives back the old set |
| `PositionalSets.InsertUndoesErase` | Example/Pods/Realm/Realm/ObjectStore/src/index_set.cpp:456-571 | inserting a set of positions after erasing it gives the old set together with the positions |
| `PositionalSets.InsertAllIsFold` | Example/Pods/Realm/Realm/ObjectStore/src/index_set.cpp:430-533 | the bulk insertion and the bulk shift equal the single-index forms carried out in ascending order |
| `PositionalSets.EraseAllIsFold` | Example/Pods/Realm/Realm/ObjectStore/src/index_set.cpp:535-571 | the bulk erasure equals single erasures in descending order |
| `PositionalSets.RelocationIsIncreasing` | Example/Pods/Realm/Realm/ObjectStore/src/index_set.cpp:375-420 | values taken through the two sets keep their order |
| `PositionalSets.RelocationKeepsPlace` | Example/Pods/Realm/Realm/ObjectStore/src/index_set.cpp:375-420 | counted among the indices outside the two sets, a relocated value keeps its place |
| `PositionalSets.RelocatedSize` | Example/Pods/Realm/Realm/ObjectStore/src/index_set.cpp:375-420 | relocated values are new and distinct, so the result has the old size plus one for each value outside the shifting set |
| `Chunks.NextIndex` | Example/Pods/Realm/include/index_set.hpp:277-284 | advancing an iterator, also across a chunk border, advances its place in the flat list by one |
| `Chunks.PrevIndex` | Example/Pods/Realm/include/index_set.hpp:294-305 | stepping back undoes it, also across a chunk border |
| `Chunks.NextChunkIndex` | Example/Pods/Realm/include/index_set.hpp:315-320 | skipping to the next chunk skips exactly the rest of the chunk |
| `Chunks.IndexIsInjective` | Example/Pods/Realm/include/index_set.hpp:262-275 | iterators are equal exactly when they denote the same place |
| `IndexIterators.AdvancePasses` | Example/Pods/Realm/include/index_set.hpp:199-207 | the index iterator moves on to the next member of the set, and passes exactly one |
| `ChunkedVectors.ChunkedRangeVector.Set` | Example/Pods/Realm/Realm/ObjectStore/src/index_set.cpp:30-43 | the range is replaced in the flat list, and the chunk's begin, end and count stay right |
| `ChunkedVectors.ChunkedRangeVector.Adjust` | Example/Pods/Realm/Realm/ObjectStore/src/index_set.cpp:45-57 | both bounds move by the given amounts, with the same effect on the flat list and the cached values |
| `ChunkedVectors.ChunkedRangeVector.Shift` | Example/Pods/Realm/Realm/ObjectStore/src/index_set.cpp:59-69 | the range is moved as a whole, and the count of its chunk does not change |
| `ChunkedVectors.ChunkedRangeVector.PushBack` | Example/Pods/Realm/Realm/ObjectStore/src/index_set.cpp:72-85 | the flat list grows at its end, opening a chunk when the last one is full |
| `ChunkedVectors.ChunkedRangeVector.EnsureSpace` | Example/Pods/Realm/Realm/ObjectStore/src/index_set.cpp:106-141 | a full chunk is split in two halves without any change to the flat list, and the returned iterator still denotes the same entry, for every even chunk size |
| `ChunkedVectors.ChunkedRangeVector.Insert` | Example/Pods/Realm/Realm/ObjectStore/src/index_set.cpp:88-103 | the flat list gets the range in front of the position, and every chunk stays within its size with right cached values |
| `ChunkedVectors.ChunkedRangeVector.Erase` | Example/Pods/Realm/Realm/ObjectStore/src/index_set.cpp:144-169 | the flat list loses the entry, a chunk that becomes empty goes away, and the result denotes the following entry |
| `RangeBuilders.ChunkedRangeVectorBuilder.constructor` | Example/Pods/Realm/Realm/ObjectStore/src/index_set.cpp:209-216 | one chunk more than the expected size needs is set aside |
| `RangeBuilders.ChunkedRangeVectorBuilder.PushIndex` | Example/Pods/Realm/Realm/ObjectStore/src/index_set.cpp:219-222 | an index behind all others becomes a member |
| `RangeBuilders.ChunkedRangeVectorBuilder.Push` | Example/Pods/Realm/Realm/ObjectStore/src/index_set.cpp:224-252 | the range is appended or joined to the last one; the cached counts stay right exactly unless a range of another width than one opens a chunk that was not set aside |
| `RangeBuilders.ChunkedRangeVectorBuilder.Finalize` | Example/Pods/Realm/Realm/ObjectStore/src/index_set.cpp:254-264 | the chunks hold what was built, none is empty, and all cached values are right exactly when no count was lost |
| `RangeBuilders.OverflowsBeyondReserve` | Example/Pods/Realm/Realm/ObjectStore/src/index_set.cpp:224-252 | which entries overflow depends only on their place in the flat list |
| `RangeBuilders.ExpectedFitsReserve` | Example/Pods/Realm/Realm/ObjectStore/src/index_set.cpp:209-216 | a list no longer than expected never overflows |
| `IndexSets.IndexSet.constructor` | Example/Pods/Realm/include/index_set.hpp:138 | a new set is empty |
| `IndexSets.IndexSet.FromValues` | Example/Pods/Realm/Realm/ObjectStore/src/index_set.cpp:267-271 | a set made of listed values holds just those |
| `IndexSets.IndexSet.Contains` | Example/Pods/Realm/Realm/ObjectStore/src/index_set.cpp:273-277 | membership |
| `IndexSets.IndexSet.Count` | Example/Pods/Realm/Realm/ObjectStore/src/index_set.cpp:279-321 | counting by cached chunk totals gives the number of members in the range exactly unless it stops at a chunk border; then what it leaves out is stated |
| `IndexSetCorners.CountCanStopShort` | Example/Pods/Realm/Realm/ObjectStore/src/index_set.cpp:291-302 | for every chunk size, two chunks for which a count leaves out two members |
| `IndexSets.IndexSet.Find` | Example/Pods/Realm/Realm/ObjectStore/src/index_set.cpp:323-326 | the range that covers the index, or the first one behind it |
| `IndexSets.IndexSet.FindFrom` | Example/Pods/Realm/Realm/ObjectStore/src/index_set.cpp:328-344 | a search that starts from a hint gives the result of the search without one, when all ranges in front of the hint end at or below the index |
| `IndexSets.IndexSet.Add` | Example/Pods/Realm/Realm/ObjectStore/src/index_set.cpp:346-349 | union with one index |
| `IndexSets.IndexSet.AddSet` | Example/Pods/Realm/Realm/ObjectStore/src/index_set.cpp:351-357 | bulk addition is set union; adding a set to itself changes nothing |
| `IndexSets.IndexSet.AddShifted` | Example/Pods/Realm/Realm/ObjectStore/src/index_set.cpp:359-373 | the result is the shifted index; it is new and becomes a member |
| `IndexSets.IndexSet.AddShiftedBy` | Example/Pods/Realm/Realm/ObjectStore/src/index_set.cpp:375-420 | exactly the old members and the relocated values, as a canonical list; a cached count goes wrong exactly when an own range, wider than one and apart from and behind all relocated values, has a number of runs in front of it that fills the chunks set aside |
| `IndexSets.LossIsKnownBefore` | Example/Pods/Realm/Realm/ObjectStore/src/index_set.cpp:414 | which copied ranges open a chunk that was not set aside can be told from the own ranges and the relocated values |
| `IndexSetCorners.RelocationLosesCount` | Example/Pods/Realm/Realm/ObjectStore/src/index_set.cpp:243-244 | the condition is met by a range of two and four values put in front of it, for chunks of four |
| `IndexSetCorners.RelocationCanLoseCount` | Example/Pods/Realm/Realm/ObjectStore/src/index_set.cpp:375-420 | a call on these sets, after which the members are right and a cached count is wrong |
| `IndexSets.IndexSet.SetLength` | Example/Pods/Realm/Realm/ObjectStore/src/index_set.cpp:422-428 | the set becomes the interval from zero |
| `IndexSets.IndexSet.InsertAt` | Example/Pods/Realm/Realm/ObjectStore/src/index_set.cpp:430-454 | smaller members stay, the gap is filled, the others move up by the count |
| `IndexSets.IndexSet.InsertAtSet` | Example/Pods/Realm/Realm/ObjectStore/src/index_set.cpp:456-485 | the positions together with the old members shifted around them, in one merge |
| `IndexSets.IndexSet.ShiftForInsertAt` | Example/Pods/Realm/Realm/ObjectStore/src/index_set.cpp:487-506 | the members at or after the index move up by the count, splitting a range that covers it |
| `IndexSets.IndexSet.ShiftForInsertAtSet` | Example/Pods/Realm/Realm/ObjectStore/src/index_set.cpp:508-533 | the old members shifted around the values, in one merge |
| `IndexSets.IndexSet.EraseAt` | Example/Pods/Realm/Realm/ObjectStore/src/index_set.cpp:535-540 | the index is removed if present, and larger members move down by one |
| `IndexSets.IndexSet.EraseAtSet` | Example/Pods/Realm/Realm/ObjectStore/src/index_set.cpp:542-571 | the remaining members, each moved down by the erased positions in front of it |
| `IndexSets.IndexSet.EraseOrUnshift` | Example/Pods/Realm/Realm/ObjectStore/src/index_set.cpp:573-595 | none for a member, otherwise the unshifted index; the set afterwards is that of a single erasure |
| `IndexSets.IndexSet.DoErase` | Example/Pods/Realm/Realm/ObjectStore/src/index_set.cpp:597-615 | erasure at a known position, joining or removing ranges as needed |
| `IndexSets.IndexSet.DoRemove` | Example/Pods/Realm/Realm/ObjectStore/src/index_set.cpp:617-639 | the set without the interval, and a position from which a later search can go on |
| `IndexSets.IndexSet.Remove` | Example/Pods/Realm/Realm/ObjectStore/src/index_set.cpp:641-644 | set difference with an interval, without shifting |
| `IndexSets.IndexSet.RemoveSet` | Example/Pods/Realm/Realm/ObjectStore/src/index_set.cpp:646-654 | bulk removal is set difference |
| `IndexSets.IndexSet.Shift` | Example/Pods/Realm/Realm/ObjectStore/src/index_set.cpp:656-665 | the index with as many non-members below it as the argument |
| `IndexSets.IndexSet.Unshift` | Example/Pods/Realm/Realm/ObjectStore/src/index_set.cpp:667-671 | the index less the members below it |
| `IndexSets.IndexSet.Clear` | Example/Pods/Realm/Realm/ObjectStore/src/index_set.cpp:673-676 | the empty set |
| `IndexSets.IndexSet.DoAdd` | Example/Pods/Realm/Realm/ObjectStore/src/index_set.cpp:678-707 | union with one index at a known position, merging with both neighbours, and where it ends up |
| `IndexSets.IndexSet.ShiftUntilEndBy` | Example/Pods/Realm/Realm/ObjectStore/src/index_set.cpp:445-446 | exactly the ranges from the iterator on are moved |
| `IndexSets.FindResultIsUnique` | Example/Pods/Realm/Realm/ObjectStore/src/index_set.cpp:328-344 | there is only one result a search can have |
| `Names.LessIsLexicographic` | Example/Pods/Realm/Realm/ObjectStore/src/schema.cpp:178 | a name comes first by its first differing character, or by being a proper prefix |
| `Names.LessIsTransitive` | Example/Pods/Realm/Realm/ObjectStore/src/schema.cpp:178 | the order of class names is an order |
| `Names.LessIsTotal` | Example/Pods/Realm/Realm/ObjectStore/src/schema.cpp:178 | any two different names are ordered |
| `Schemas.ObjectSchema.PropertyForName` | Example/Pods/Realm/Realm/ObjectStore/src/object_schema.cpp:96-108 | the property found has the name; none means that no property has it |
| `Schemas.SamePropertyMeans` | Example/Pods/Realm/include/property.hpp:249-259 | properties are equal up to the column and up to whether the index is there for being the primary key |
| `Schemas.Find` | Example/Pods/Realm/Realm/ObjectStore/src/schema.cpp:53-62 | binary search finds the class of the name, or says that there is none |
| `SchemaValidation.ValidateProperty` | Example/Pods/Realm/Realm/ObjectStore/src/object_schema.cpp:128-213 | each kind of problem is reported for exactly its reason, and none exactly when the property breaks no rule and is no second primary key |
| `SchemaValidation.ValidateClass` | Example/Pods/Realm/Realm/ObjectStore/src/object_schema.cpp:215-228 | a class passes exactly when its properties do and its primary key exists |
| `SchemaValidation.AdjacentNamesDecide` | Example/Pods/Realm/Realm/ObjectStore/src/schema.cpp:83-92 | looking at neighbours finds every name that appears twice |
| `SchemaValidation.Validate` | Example/Pods/Realm/Realm/ObjectStore/src/schema.cpp:79-101 | validation reports nothing exactly for the valid schemas |
| `SchemaCompare.CompareProperty` | Example/Pods/Realm/Realm/ObjectStore/src/schema.cpp:120-151 | what one existing property gives rise to |
| `SchemaCompare.EmittedAreCalled` | Example/Pods/Realm/Realm/ObjectStore/src/schema.cpp:120-151 | those are exactly the changes called for that are about the property |
| `ChangeLists.PartitionRemovals` | Example/Pods/Realm/Realm/ObjectStore/src/schema.cpp:165 | the two-pointer partition, step by step |
| `ChangeLists.PartitionKeepsAll` | Example/Pods/Realm/Realm/ObjectStore/src/schema.cpp:165 | it loses nothing |
| `ChangeLists.PartitionIsPartitioned` | Example/Pods/Realm/Realm/ObjectStore/src/schema.cpp:165 | removals come last |
| `ChangeLists.PartitionKeepsFront` | Example/Pods/Realm/Realm/ObjectStore/src/schema.cpp:165 | what stands in front of the first removal is not moved |
| `ChangeLists.PartitionSwapsNeighbours` | Example/Pods/Realm/Realm/ObjectStore/src/schema.cpp:165 | two neighbours that are not removals are swapped exactly when the place of the second is at least the number of changes that are not removals |
| `ChangeLists.SortRemovals` | Example/Pods/Realm/Realm/ObjectStore/src/schema.cpp:166-167 | the removals in descending order of columns, none lost |
| `SchemaCompare.SortedRemovalsAreLast` | Example/Pods/Realm/Realm/ObjectStore/src/schema.cpp:163-167 | then, for each class, every removal is followed only by removals of earlier columns |
| `SchemaCompare.CompareClass` | Example/Pods/Realm/Realm/ObjectStore/src/schema.cpp:116-168 | the list grows by exactly the changes the two versions of the class call for, in the order of the properties, and is partitioned as a whole, with the removals sorted at the end |
| `SchemaCompare.CompareTables` | Example/Pods/Realm/Realm/ObjectStore/src/schema.cpp:170-211 | the side-by-side pass over two sorted schemas lists exactly the missing tables |
| `SchemaCompare.Compare` | Example/Pods/Realm/Realm/ObjectStore/src/schema.cpp:199-224 | the diff holds exactly the changes called for, each once, tables first and removals last, later columns first; all but the order of removals is fixed by the two schemas |
| `Refusals.CallsMean` | Example/Pods/Realm/Realm/ObjectStore/src/schema.cpp:116-168 | each change to a class, told from the properties of its two versions alone |
| `Refusals.DiffMeans` | Example/Pods/Realm/Realm/ObjectStore/src/schema.cpp:199-224 | the same for the whole diff |
| `ChangeOrder.PlacesOfPair` | Example/Pods/Realm/Realm/ObjectStore/src/schema.cpp:116-168 | for a property with a rewrite and an index change, which of the two comes first in the whole list, by counting what is dropped before and what is listed behind |
| `IndexLosses.UndoneIffLost` | Example/Pods/Realm/Realm/ObjectStore/src/schema.cpp:116-168 | the list of a comparison runs an index change before a rewrite that loses it exactly when the two schemas meet the counting condition |
| `Tables.ReplaceInPlace` | Example/Pods/Realm/Realm/ObjectStore/src/object_store.cpp:139-143 | inserting a column and removing the next one replaces a column |
| `Tables.CreatedTypeIsRead` | Example/Pods/Realm/Realm/ObjectStore/src/object_schema.cpp:56-73 | the type read back from a column is that of the property it was made for |
| `Tables.NullableIsAllowed` | Example/Pods/Realm/Realm/ObjectStore/src/object_store.cpp:108-132 | a column allows null exactly when the property is nullable and no list |
| `Tables.NewCellsAre` | Example/Pods/Realm/Realm/ObjectStore/src/object_store.cpp:108-132 | new cells are null in links and nullable values, and zero or empty otherwise |
| `TableUpgrades.RebuiltShape` | Example/Pods/Realm/Realm/ObjectStore/src/object_store.cpp:623-648 | old columns are rewritten where they are, and new ones come behind them |
| `TableUpgrades.SurvivorsAre` | Example/Pods/Realm/Realm/ObjectStore/src/schema.cpp:163-167 | exactly the columns not removed remain, each with its contents, moved up past the removed ones |
| `TableUpgrades.PositionsIncrease` | Example/Pods/Realm/Realm/ObjectStore/src/schema.cpp:163-167 | and they keep their order |
| `TableUpgrades.OneMoreGone` | Example/Pods/Realm/Realm/ObjectStore/src/object_store.cpp:665-671 | removing columns from the last to the first removes exactly the ones named |
| `TableUpgrades.PassedIsRebuiltLessRemoved` | Example/Pods/Realm/Realm/ObjectStore/src/object_store.cpp:665-671 | a pass that removes as it goes leaves what a pass without removals leaves, less the removed columns |
| `ClassUpgrades.ChangesOfProperty` | Example/Pods/Realm/Realm/ObjectStore/src/schema.cpp:120-151 | at most one rewrite and one index change are called for per property |
| `ClassUpgrades.ContentsRebuilt` | Example/Pods/Realm/Realm/ObjectStore/src/object_store.cpp:218-231 | name, type and cells of a column are those its rewrite leaves |
| `SinglePass.LaterDecides` | Example/Pods/Realm/Realm/ObjectStore/src/object_store.cpp:218-231 | of a rewrite and an index change of one column, the later one decides whether it is indexed |
| `ClassUpgrades.KeptColumnFits` | Example/Pods/Realm/Realm/ObjectStore/src/object_store.cpp:623-704 | after a building and a reindexing pass, in any order of changes, a kept column has the declared type and index, and its cells unless they have to go |
| `ClassUpgrades.RemovedAreDropped` | Example/Pods/Realm/Realm/ObjectStore/src/schema.cpp:123-130 | exactly the columns of properties that the class no longer declares are removed |
| `ClassUpgrades.UpgradedServes` | Example/Pods/Realm/Realm/ObjectStore/src/object_store.cpp:623-704 | the upgraded table is well formed, has a column for every declared property and no other |
| `ClassUpgrades.ServingCallsForNothing` | Example/Pods/Realm/Realm/ObjectStore/src/schema.cpp:116-168 | a class read from such a table calls for no change |
| `ClassUpgrades.UpgradeKeepsData` | Example/Pods/Realm/Realm/ObjectStore/src/object_store.cpp:181-231 | a column that stays keeps its cells unless its type changes or null is no longer allowed |
| `Groups.ColumnIndex` | Example/Pods/Realm/Realm/ObjectStore/src/object_store.cpp:890-901 | the first column of the name, or none |
| `Groups.DistinctMeansNoTwoAgree` | Example/Pods/Realm/Realm/ObjectStore/src/object_store.cpp:233-239 | there are as many distinct values as rows exactly when no two rows agree |
| `Upgrades.UpgradeLeavesNothingToDo` | Example/Pods/Realm/Realm/ObjectStore/src/object_store.cpp:822-845 | applying the diff of a group and a target, in any admissible order, leaves a group whose schema calls for nothing |
| `Upgrades.UpgradeIsRefused` | Example/Pods/Realm/Realm/ObjectStore/src/object_store.cpp:673-678 | the upgrade is refused exactly when a new primary key has duplicate values once everything is built |
| `NewKeys.DuplicateKeysAreKnownBefore` | Example/Pods/Realm/Realm/ObjectStore/src/object_store.cpp:673-678 | told from the file before: exactly when there are two rows that agree in the column of the new key, or two rows at all if it is new or loses its cells |
| `Upgrades.UpgradeKeepsGroup` | Example/Pods/Realm/Realm/ObjectStore/src/object_store.cpp:822-845 | the upgraded group is well formed: names differ, columns are full, links lead to tables |
| `Upgrades.OtherClassStays` | Example/Pods/Realm/Realm/ObjectStore/src/schema.cpp:214-222 | a class that the target does not mention keeps its table |
| `Upgrades.UpgradeKeepsValues` | Example/Pods/Realm/Realm/ObjectStore/src/object_store.cpp:181-231 | the values of a kept property are kept, unless its type changes or it becomes required |
| `UpdateModes.CreateLeavesNothingToDo` | Example/Pods/Realm/Realm/ObjectStore/src/object_store.cpp:557-591 | the single pass for a file without a version leaves nothing to do exactly when no index change comes before a rewrite that loses it |
| `UpdateCorners.PartitionSwapsChanges` | Example/Pods/Realm/Realm/ObjectStore/src/schema.cpp:165 | two schemas whose comparison lists an index change behind its rewrite and moves it in front |
| `UpdateCorners.FirstUpdateLosesIndex` | Example/Pods/Realm/Realm/ObjectStore/src/shared_realm.cpp:500-504 | the first update of such a file succeeds and is not up to date afterwards |
| `ColumnBindings.CreatedCallsOnlyIndexes` | Example/Pods/Realm/Realm/ObjectStore/src/object_store.cpp:557-591 | all that the single pass can leave to do are index changes |
| `UpdateModes.CreateKeepsGroup` | Example/Pods/Realm/Realm/ObjectStore/src/object_store.cpp:557-591 | the group stays well formed even then |
| `UpdateModes.AdditiveIsBuild` | Example/Pods/Realm/Realm/ObjectStore/src/object_store.cpp:593-621 | on what additive mode accepts it does what the pass before a migration does |
| `UpdateModes.AdditiveLosesNothing` | Example/Pods/Realm/Realm/ObjectStore/src/object_store.cpp:593-621 | every old column keeps its place, name, type and values |
| `UpdateModes.AdditiveLeavesOnlyRemovals` | Example/Pods/Realm/Realm/ObjectStore/src/object_store.cpp:480-499 | afterwards only removals of extra properties are called for |
| `UpdateModes.AdditiveKeepsGroup` | Example/Pods/Realm/Realm/ObjectStore/src/object_store.cpp:593-621 | the group stays well formed |
| `UpdateModes.NonMigrationLeavesNothingToDo` | Example/Pods/Realm/Realm/ObjectStore/src/object_store.cpp:537-555 | with only tables and indexes to change, nothing is left to do |
| `Readiness.PlanRuns` | Example/Pods/Realm/Realm/ObjectStore/src/object_store.cpp:108-143 | while a diff is carried out, every table, column and link target is there when it is needed |
| `Readiness.FinishPlanRuns` | Example/Pods/Realm/Realm/ObjectStore/src/object_store.cpp:651-704 | the same for the pass after a migration, and each new key is a column |
| `ObjectStores.Group.InsertColumn` | Example/Pods/Realm/Realm/ObjectStore/src/object_store.cpp:108-132 | the column made for the property, in front of the given position, and what its cells hold |
| `ObjectStores.Group.AddColumn` | Example/Pods/Realm/Realm/ObjectStore/src/object_store.cpp:134-137 | the same at the end |
| `ObjectStores.Group.ReplaceColumn` | Example/Pods/Realm/Realm/ObjectStore/src/object_store.cpp:139-143 | exactly one column is replaced, by the one made for the new property |
| `ObjectStores.Group.CopyPropertyValues` | Example/Pods/Realm/Realm/ObjectStore/src/object_store.cpp:181-216 | row by row, the cells of the next column |
| `ObjectStores.Group.MakePropertyOptional` | Example/Pods/Realm/Realm/ObjectStore/src/object_store.cpp:218-224 | the column is rebuilt to allow null, with its cells |
| `ObjectStores.Group.MakePropertyRequired` | Example/Pods/Realm/Realm/ObjectStore/src/object_store.cpp:226-231 | the column is rebuilt without null, every cell zero or empty |
| `ObjectStores.Group.SetPrimaryKey` | Example/Pods/Realm/Realm/ObjectStore/src/object_store.cpp:277-310 | the key of the class is set, and removed when it is empty |
| `ObjectStores.Group.CreateTable` | Example/Pods/Realm/Realm/ObjectStore/src/object_store.cpp:145-164 | the table exists and the key is that of the class |
| `ObjectStores.Group.AddInitialColumns` | Example/Pods/Realm/Realm/ObjectStore/src/object_store.cpp:166-179 | a column for each persisted property, in order |
| `ObjectStores.Group.ApplyPreMigration` | Example/Pods/Realm/Realm/ObjectStore/src/object_store.cpp:623-648 | the pass before a migration is the fold of its steps |
| `ObjectStores.Group.ApplyPostMigration` | Example/Pods/Realm/Realm/ObjectStore/src/object_store.cpp:651-704 | the pass after a migration is the fold of its steps, up to the first duplicate key |
| `ObjectStores.Group.CreateInitialTables` | Example/Pods/Realm/Realm/ObjectStore/src/object_store.cpp:557-591 | the single pass is the fold of its steps |
| `ObjectStores.Group.ApplyAdditiveChanges` | Example/Pods/Realm/Realm/ObjectStore/src/object_store.cpp:593-621 | the additive pass is the fold of its steps |
| `ObjectStores.Group.ApplyNonMigrationChanges` | Example/Pods/Realm/Realm/ObjectStore/src/object_store.cpp:537-555 | refused exactly when something other than tables and indexes would change |
| `ObjectStores.Group.SchemaFromGroup` | Example/Pods/Realm/Realm/ObjectStore/src/object_store.cpp:847-857 | the schema that is read lists exactly the classes of the group, sorted |
| `ObjectStores.Group.SetSchemaColumns` | Example/Pods/Realm/Realm/ObjectStore/src/object_store.cpp:890-901 | each property gets the position of the column of its name |
| `SchemaUpdates.PointedColumns` | Example/Pods/Realm/Realm/ObjectStore/src/object_store.cpp:890-901 | in a table that serves the class this is the column made for it |
| `ColumnBindings.WithColumnsPoint` | Example/Pods/Realm/Realm/ObjectStore/src/object_store.cpp:890-901 | after a change to the file each declared property of the schema has the position of the column of its name, and nothing else is changed |
| `ColumnCopies.CopyTableColumns` | Example/Pods/Realm/Realm/ObjectStore/src/schema.cpp:226-240 | one pass over both schemas copies the columns class by class |
| `ColumnCopies.ColumnsAreCopied` | Example/Pods/Realm/Realm/ObjectStore/src/schema.cpp:226-240 | a property has the column of the property of its name, and nothing else is changed |
| `ColumnBindings.CopiedPoint` | Example/Pods/Realm/Realm/ObjectStore/src/shared_realm.cpp:270-276 | with nothing to write, the columns copied from the schema that was read are those of the names |
| `ColumnBindings.UpgradeIsReadBack` | Example/Pods/Realm/Realm/ObjectStore/src/object_store.cpp:846-860 | after a version bump the schema that is read back has the declared classes, property by property, primary keys included |
| `SchemaUpdates.ApplySchemaChanges` | Example/Pods/Realm/Realm/ObjectStore/src/object_store.cpp:776-845 | the result in each mode, and when it is refused |
| `SchemaUpdates.AppliedIsRight` | Example/Pods/Realm/Realm/ObjectStore/src/object_store.cpp:776-845 | whatever is applied leaves a well-formed group, and outside additive mode nothing to do, with the one exception above |
| `SchemaUpdates.AppliedHasEverything` | Example/Pods/Realm/Realm/ObjectStore/src/object_store.cpp:776-845 | whatever is applied, every declared property has a column afterwards |
| `SchemaUpdates.VerifyValidAdditiveChanges` | Example/Pods/Realm/Realm/ObjectStore/src/object_store.cpp:480-499 | what additive mode refuses, and whether anything has to be written |
| `Refusals.AdditiveMeans` | Example/Pods/Realm/Realm/ObjectStore/src/object_store.cpp:480-499 | additive mode accepts a diff exactly when common properties keep their types and classes their keys |
| `Refusals.NonMigrationMeans` | Example/Pods/Realm/Realm/ObjectStore/src/object_store.cpp:540-555 | at an equal version a diff is accepted exactly when besides no property of a class that is there comes or goes |
| `Refusals.AddsMeans` | Example/Pods/Realm/Realm/ObjectStore/src/object_store.cpp:480-499 | something has to be added exactly when a class or a property is missing |
| `SchemaUpdates.VerdictMeans` | Example/Pods/Realm/Realm/ObjectStore/src/shared_realm.cpp:332-368 | how an update has to end, told from the two schemas and the two versions alone |
| `SchemaUpdates.ChangesLeft` | Example/Pods/Realm/Realm/ObjectStore/src/shared_realm.cpp:504 | reading the schema back and comparing it again gives the empty diff exactly when the group is up to date |
| `SchemaUpdates.WriteChanges` | Example/Pods/Realm/Realm/ObjectStore/src/shared_realm.cpp:465-505 | a refused update is taken back; otherwise the debug assertion at the end holds |
| `SchemaUpdates.WhyRefused` | Example/Pods/Realm/Realm/ObjectStore/src/object_store.cpp:776-845 | applying a diff is refused exactly when, outside additive mode and in a file with a version, an equal version meets a change that needs a migration or a higher one meets duplicate primary keys |
| `SchemaUpdates.UpdateToValid` | Example/Pods/Realm/Realm/ObjectStore/src/shared_realm.cpp:433-528 | for a valid schema and any well-formed group: how the update ends, that a refusal or an unneeded update changes nothing, that no version is lowered, exactly when the group is up to date afterwards, that additive mode keeps all data and leaves only removals, and that the schema handed out knows every column |
| `SchemaUpdates.LossIsOfSchema` | Example/Pods/Realm/Realm/ObjectStore/src/shared_realm.cpp:500-504 | whether the first update of a file loses an index depends on the schema of the file and the target alone |
| `SchemaUpdates.UpdateSchema` | Example/Pods/Realm/Realm/ObjectStore/src/shared_realm.cpp:433-528 | the same for any declared schema: it is refused unchanged exactly when it is not valid, and otherwise the update ends as above |
| `RenameProperties.RenameProperty` | Example/Pods/Realm/Realm/ObjectStore/src/object_store.cpp:924-985 | each refusal in its order, and the table and target positions after a rename |
| `RenameProperties.RenamesWhen` | Example/Pods/Realm/Realm/ObjectStore/src/object_store.cpp:924-962 | columns are merged or relabelled exactly when the class stays, the old property is gone from it, its column is there, and the new column can store its values |
| `RenameProperties.RefusedWhen` | Example/Pods/Realm/Realm/ObjectStore/src/object_store.cpp:924-962 | each refusal stands for its own reason |
| `RenameProperties.RenamedColumnHasType` | Example/Pods/Realm/Realm/ObjectStore/src/object_store.cpp:954-984 | with the old column first, exactly when the merged column has the type of the new one, and which index it has |
| `RenameProperties.RenameKeepsTable` | Example/Pods/Realm/Realm/ObjectStore/src/object_store.cpp:964-984 | the table stays well formed exactly unless the old column lies behind the new one and is rebuilt |
| `RenameProperties.RelabelKeepsTable` | Example/Pods/Realm/Realm/ObjectStore/src/object_store.cpp:946-952 | relabelling a column leaves the table well formed |
| `RenameProperties.UnboundIsMoved` | Example/Pods/Realm/Realm/ObjectStore/src/object_store.cpp:971-977 | a position that stands for no column is moved as well |
| `RenameProperties.RenameIsRight` | Example/Pods/Realm/Realm/ObjectStore/src/object_store.cpp:924-985 | when the old column comes before the new one, every property of the target that pointed at its own column still does, and the renamed one keeps all values unless a list is rebuilt |
| `RenameProperties.OthersPointRight` | Example/Pods/Realm/Realm/ObjectStore/src/object_store.cpp:971-977 | a property not renamed keeps pointing at its column, except exactly for the one right behind an old column that lies behind the new one and is rebuilt |
| `RenameProperties.RenamedPointsRight` | Example/Pods/Realm/Realm/ObjectStore/src/object_store.cpp:967-984 | the renamed property points at a column of its name exactly when the old column came first or a rebuild puts one there |
| `RenameProperties.RenameKeepsValues` | Example/Pods/Realm/Realm/ObjectStore/src/object_store.cpp:967-984 | the merged table column by column, with all values, also when the column is rebuilt |
| `RenameProperties.RebuildTakesWrongColumn` | Example/Pods/Realm/Realm/ObjectStore/src/object_store.cpp:979-984 | with the old column behind the new one, a rebuild overwrites the column after it |
| `RenameProperties.RenameToItselfRemoves` | Example/Pods/Realm/Realm/ObjectStore/src/object_store.cpp:941-969 | a rename to the same name removes the property |
| `Handovers.NextKeeps` | Example/Pods/Realm/Realm/ObjectStore/src/thread_safe_reference.cpp:31-77 | every step of every thread keeps: pins match live references, held versions are available, one writer, and what each call relies on |
| `HandoverRuns.PinsAreReferences` | Example/Pods/Realm/Realm/ObjectStore/src/thread_safe_reference.cpp:31-77 | over every run, the pins of a version are exactly its references that have not been invalidated |
| `HandoverRuns.NoPinIsLeft` | Example/Pods/Realm/Realm/ObjectStore/src/thread_safe_reference.cpp:52-75 | when all references are resolved or dropped no pin is left |
| `HandoverRuns.ReleasedPinsAreHeld` | Example/Pods/Realm/Realm/ObjectStore/src/thread_safe_reference.cpp:57-77 | a pin that a call releases is there to be released |
| `HandoverRuns.ImportsAreSafe` | Example/Pods/Realm/Realm/ObjectStore/src/shared_realm.cpp:926-984 | each import happens with the version still pinned and read by the importing realm, unless the realm is sending notifications and behind |
| `HandoverRuns.WrongImportIff` | Example/Pods/Realm/Realm/ObjectStore/src/shared_realm.cpp:944-981 | a call imports at a wrong version exactly when its realm was sending notifications and behind the reference at its start, whatever other threads do meanwhile |
| `HandoverRuns.WrongImportHappens` | Example/Pods/Realm/Realm/ObjectStore/src/shared_realm.cpp:944-981 | a run in which this happens |
| `HandoverRuns.WantedVersionsAreThere` | Example/Pods/Realm/Realm/ObjectStore/src/shared_realm.cpp:946-975 | a version that a call asks for by number has not been cleaned up |
| `HandoverRuns.CallsEnd` | Example/Pods/Realm/Realm/ObjectStore/src/shared_realm.cpp:926-984 | each step brings a call nearer to its end, and at the end its reference is not live |
| `HandoverRuns.FailureEnds` | Example/Pods/Realm/Realm/ObjectStore/src/shared_realm.cpp:944-981 | a step that fails ends the call, except that an import first gives back its pin |
| `HandoverRuns.SuccessGoesOn` | Example/Pods/Realm/Realm/ObjectStore/src/shared_realm.cpp:944-981 | a step that succeeds goes on to the next stage |
| `HandoverRuns.RefusedIsDestroyed` | Example/Pods/Realm/Realm/ObjectStore/src/shared_realm.cpp:926-942 | a call that is refused destroys the reference and releases its pin |
| `HandoverRuns.OthersKeepOut` | Example/Pods/Realm/Realm/ObjectStore/src/shared_realm.cpp:926-984 | other threads do not change the realm, the reference or the stage of a call |
| `Coordinators.Coordinator.Obtain` | Example/Pods/Realm/Realm/ObjectStore/src/shared_realm.cpp:912-923 | a reference is refused in a write transaction or on another thread, and otherwise pins the version its realm reads |
| `Coordinators.Coordinator.Invalidate` | Example/Pods/Realm/Realm/ObjectStore/src/thread_safe_reference.cpp:72-77 | the pin is released and the reference is gone |
| `Coordinators.Coordinator.Destroy` | Example/Pods/Realm/Realm/ObjectStore/src/thread_safe_reference.cpp:46-50 | a reference that was not resolved gives its pin back |
| `Coordinators.Coordinator.Enter` | Example/Pods/Realm/Realm/ObjectStore/src/shared_realm.cpp:929-957 | the checks at the start of a call, and what it does first |
| `Coordinators.Coordinator.BeginReadAt` | Example/Pods/Realm/Realm/ObjectStore/src/shared_realm.cpp:946-950 | a realm without a read transaction begins one at the version of the reference |
| `Coordinators.Coordinator.RefreshRealm` | Example/Pods/Realm/Realm/ObjectStore/src/shared_realm.cpp:822-863 | a refresh reaches the newest version, and does nothing while notifications are being sent |
| `Coordinators.Coordinator.ThroughTemporary` | Example/Pods/Realm/Realm/ObjectStore/src/shared_realm.cpp:962-980 | the temporary realm carries the value to the version of the destination, and every exit leaves the protocol in order |
| `Coordinators.Coordinator.ImportAndUnpin` | Example/Pods/Realm/Realm/ObjectStore/src/thread_safe_reference.cpp:52-62 | the import fails exactly for differing versions, and the pin is released either way |
| `Coordinators.Coordinator.ResolveReference` | Example/Pods/Realm/Realm/ObjectStore/src/shared_realm.cpp:926-984 | one call with other threads in between: when it is refused, and that this destroys the reference; when it fails for a wrong version, and at which version it imports |
| `KeyPaths.JoinSplit` | Example/Pods/Realm/Realm/ObjectStore/src/results.cpp:549-552 | the parts of a key path joined with dots are the key path |
| `KeyPaths.SplitJoin` | Example/Pods/Realm/Realm/ObjectStore/src/results.cpp:549-552 | and every list of parts without dots is recovered |
| `KeyPaths.ParseKeyPath` | Example/Pods/Realm/Realm/ObjectStore/src/results.cpp:532-571 | the parser gives the result of checking the parts from left to right, and terminates |
| `KeyPaths.AcceptedIsPath` | Example/Pods/Realm/Realm/ObjectStore/src/results.cpp:532-571 | what is accepted follows to-one links to a sortable last property; the columns are those of its parts |
| `KeyPaths.PathIsAccepted` | Example/Pods/Realm/Realm/ObjectStore/src/results.cpp:532-571 | every such path is accepted |
| `KeyPaths.RefusalIsExplained` | Example/Pods/Realm/Realm/ObjectStore/src/results.cpp:532-571 | what is refused has a part, reached by links, at which the reason that is given holds |
| `KeyPaths.LinkLeadsOn` | Example/Pods/Realm/Realm/ObjectStore/src/results.cpp:567-568 | in a valid schema no link is followed to a missing class |
| `BasicArrays.BasicArray.Insert` | Example/Pods/Realm/include/core/realm/array_basic_tpl.hpp:180-204 | the values at and behind the position move back by one |
| `BasicArrays.BasicArray.Erase` | Example/Pods/Realm/include/core/realm/array_basic_tpl.hpp:206-225 | exactly one value is removed |
| `BasicArrays.BasicArray.Truncate` | Example/Pods/Realm/include/core/realm/array_basic_tpl.hpp:227-239 | the front remains |
| `BasicArrays.BasicArray.Slice` | Example/Pods/Realm/include/core/realm/array_basic_tpl.hpp:96-114 | the values of the range |
| `BasicArrays.BasicArray.Set` | Example/Pods/Realm/include/core/realm/array_basic_tpl.hpp:158-171 | one value is replaced |
| `BasicArrays.BasicArray.FindAll` | Example/Pods/Realm/include/core/realm/array_basic_tpl.hpp:295-306 | the positions of a value, as a list |
| `BasicArrays.PositionsAre` | Example/Pods/Realm/include/core/realm/array_basic_tpl.hpp:295-306 | these are exactly the positions that hold the value |
| `BasicArrays.PositionsIncrease` | Example/Pods/Realm/include/core/realm/array_basic_tpl.hpp:295-306 | in increasing order |
| `BasicArrays.BasicArray.LeafInsert` | Example/Pods/Realm/include/core/realm/array_basic_tpl.hpp:365-395 | both leaves together hold the old values with the new one at its place; both are non-empty and within the limit; offset and size of the split are right |
| `RealmLists.RealmList.SetIfDifferent` | Example/Pods/Realm/include/list.hpp:236-246 | nothing is written where the value is already there |
| `RealmLists.RealmList.Assign` | Example/Pods/Realm/include/list.hpp:249-283 | the list becomes the values, and a differential assignment writes only where they differ |

## Left out

- SchemaUpdates.UpdateSchema: automatic and additive mode only; the manual, immutable and reset modes, migration functions and initialization functions run foreign code or only report differences; the properties of a class have different names, and lists are not indexed.
- SchemaUpdates.UpdateToValid: for the same modes and schemas.
- SchemaUpdates.ApplySchemaChanges: automatic and additive mode only, without migration functions.
- SchemaCompare.Compare: without the optional removal of tables, which no caller that applies changes asks for.
- ChangeLists.PartitionRemovals: the language does not fix the order that a partition leaves; modelled is the two-pointer form of the common libraries, and what is said about lost indexes of a first update holds for it.
- ChangeLists.SortRemovals: an insertion sort stands for the library sort; what is used of it is only that the removals come out in descending order.
- ObjectStores.Group.CopyPropertyValues: for list properties the cells are left as new, because the copy by single values is not defined for them.
- ObjectStores.Group.ApplyNonMigrationChanges: looks for unsupported changes before applying any; the source applies the supported ones first and then takes them back with the transaction.
- RenameProperties.RenameProperty: the rename of a list property to a plain one of the same type, which the source lets pass, is modelled as a rename of columns without a claim about the values when the column is rebuilt.
- Coordinators.Coordinator.Obtain: a pin that itself fails is not modelled.
- Coordinators.Coordinator.RefreshRealm: advancing is one step, and user callbacks during it are absent.
- IndexSets.IndexSet.RemoveSet: the argument must be another set, because the source reads it while it writes.
- IndexSets.IndexSet.InsertAtSet: the cached counts of the argument must be right, because an empty set copies its chunks.
- Indexes are natural numbers; the wrap-around of machine sizes and iterator validity are not modelled.
- Columns of nested tables of a foreign shape and mixed columns in old files are not modelled; the properties of an existing class are all its columns.
- The order of tables within a group is not kept, since every schema is sorted by name.
- Notifiers, change sets, sync sessions, permissions, file opening, encryption, compaction and caches are not modelled.
- The queries, views and aggregates behind results are not modelled; key paths are parsed but nothing is sorted.
