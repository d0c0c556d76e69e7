/** Bringing a file's schema up to a wanted one, from reading it back to checking that nothing is left to do. */
module SchemaUpdates {
  import opened Options
  import opened Schemas
  import opened Tables
  import opened ClassUpgrades
  import opened Groups
  import opened Upgrades
  import opened UpdateModes
  import opened Readiness
  import opened ChangeOrder
  import opened SchemaCompare
  import opened IndexLosses
  import opened Refusals
  import opened ColumnCopies
  import opened ColumnBindings
  import opened NewKeys
  import opened SchemaValidation
  import opened ObjectStores

  datatype SchemaMode = Automatic | AdditiveMode

  datatype Result =
    | Unchanged
    | Updated
    | InvalidSchema
    | InvalidVersion
    | MigrationRequired
    | DuplicatePrimaryKey
    | InvalidAdditiveChange

  /** Nothing that the group's own schema would have to change for the target. */
  ghost predicate UpToDate(g: GroupState, t: Schema) {
    forall s, c :: IsSchemaOf(g, s) ==> !Calls(s, t, c)
  }

  lemma EmptyDiffIsUpToDate(g: GroupState, t: Schema, s: Schema)
    requires IsSchemaOf(g, s) && IsDiff(s, t, [])
    ensures UpToDate(g, t)
  {
    forall s', c | IsSchemaOf(g, s')
      ensures !Calls(s', t, c)
    {
      SchemaIsUnique(g, s, s');
      DiffIsCalled(s, t, [], c);
    }
  }

  /** A group has exactly one schema. */
  lemma SchemaIsUnique(g: GroupState, a: Schema, b: Schema)
    requires IsSchemaOf(g, a) && IsSchemaOf(g, b)
    ensures a == b
  {
    forall o
      ensures o in a <==> o in b
    {
      if o in a {
        SchemaHas(g, a, b, o);
      }
      if o in b {
        SchemaHas(g, b, a, o);
      }
    }
    SortedIsUnique(a, b);
  }

  lemma SchemaHas(g: GroupState, a: Schema, b: Schema, o: ObjectSchema)
    requires IsSchemaOf(g, a) && IsSchemaOf(g, b) && o in a
    ensures o in b
  {
    assert HasClass(a, o.name);
    assert HasClass(b, o.name);
    var x :| x in b && x.name == o.name;
  }

  /** Without a schema version, an update of the group to the target will lose some index change. */
  ghost predicate FileLosesIndex(g: GroupState, t: Schema) {
    exists s :: IsSchemaOf(g, s) && LosesIndex(s, t)
  }

  lemma LossIsOfSchema(g: GroupState, s: Schema, t: Schema, cs: seq<SchemaChange>)
    requires Planned(g, s, t, cs) && InOrder(s, t, cs)
    ensures SomeIndexUndone(cs) <==> FileLosesIndex(g, t)
  {
    UndoneIffLost(s, t, cs);
    hide LosesIndex, SomeIndexUndone, InOrder, IsDiff, Target, GroupOk;
    if FileLosesIndex(g, t) {
      var s' :| IsSchemaOf(g, s') && LosesIndex(s', t);
      SchemaIsUnique(g, s, s');
    }
  }

  // ----- applying a diff in each mode -----

  /** What applying the changes makes of a group whose schema has the given version, if it is not refused. */
  ghost function Applied(g: GroupState, version: nat, cs: seq<SchemaChange>, targetVersion: nat, mode: SchemaMode): Option<GroupState> {
    if mode == AdditiveMode then Some(Additive(g, cs, true))
    else if version == NOT_VERSIONED then Some(Create(g, cs))
    else if version == targetVersion then (if AcceptsNonMigration(cs) then Some(Build(g, cs)) else None)
    else if Upgrade(g, cs).Done? then Some(Upgrade(g, cs).group)
    else None
  }

  /**
   * Whatever is applied leaves a well-formed group. Outside additive mode it also leaves nothing to do, with one
   * exception: in a file without a version, when the list undoes an index change.
   */
  lemma AppliedIsRight(g: GroupState, s: Schema, t: Schema, version: nat, cs: seq<SchemaChange>, targetVersion: nat, mode: SchemaMode)
    requires Planned(g, s, t, cs) && (mode == AdditiveMode ==> AcceptsAdditive(cs))
    requires Applied(g, version, cs, targetVersion, mode).Some?
    ensures var r := Applied(g, version, cs, targetVersion, mode).value;
            && GroupOk(r)
            && (mode == Automatic && (version == NOT_VERSIONED ==> !SomeIndexUndone(cs)) ==> UpToDate(r, t))
  {
    var r := Applied(g, version, cs, targetVersion, mode).value;
    if mode == AdditiveMode {
      AdditiveKeepsGroup(g, s, t, cs);
    } else if version == NOT_VERSIONED {
      CreateKeepsGroup(g, s, t, cs);
      forall s', c | IsSchemaOf(r, s') && !SomeIndexUndone(cs)
        ensures !Calls(s', t, c)
      {
        CreatedCallsForNothing(g, s, t, cs, s', c);
      }
    } else if version == targetVersion {
      AdditiveIsBuild(g, cs);
      AdditiveKeepsGroup(g, s, t, cs);
      forall s', c | IsSchemaOf(r, s')
        ensures !Calls(s', t, c)
      {
        NonMigrationCallsForNothing(g, s, t, cs, s', c);
      }
    } else {
      UpgradeKeepsGroup(g, s, t, cs);
      forall s', c | IsSchemaOf(r, s')
        ensures !Calls(s', t, c)
      {
        UpgradedCallsForNothing(g, s, t, cs, s', c);
      }
    }
  }

  function Later(a: nat, b: nat): nat {
    if a < b then b else a
  }

  function VersionAfter(version: nat, targetVersion: nat, mode: SchemaMode): nat {
    if mode == AdditiveMode then
      if version < targetVersion || version == NOT_VERSIONED then targetVersion else version
    else targetVersion
  }

  method ApplySchemaChanges(group: Group, version: nat, target: Schema, targetVersion: nat, mode: SchemaMode,
                            changes: seq<SchemaChange>, ghost s: Schema) returns (ok: bool, result: Schema)
    requires Planned(group.State(), s, target, changes) && group.schemaVersion == version
    requires mode == AdditiveMode ==> AcceptsAdditive(changes)
    modifies group
    ensures var r := Applied(old(group.State()), version, changes, targetVersion, mode);
            && ok == r.Some?
            && (ok ==> group.State() == r.value && group.schemaVersion == VersionAfter(version, targetVersion, mode)
                       && result == WithColumns(group.State(), target))
  {
    ghost var g := group.State();
    PlanRuns(g, s, target, changes);
    hide Planned, BuildRuns, CreateRuns, FinishRuns, IsDiff, AcceptsNonMigration, AcceptsAdditive;
    ok := true;
    if mode == AdditiveMode {
      AdditivePlanRuns(g, changes);
      group.ApplyAdditiveChanges(changes, true);
      if version < targetVersion || version == NOT_VERSIONED {
        group.schemaVersion := targetVersion;
      }
    } else if version == NOT_VERSIONED {
      group.CreateInitialTables(changes);
      group.schemaVersion := targetVersion;
    } else if version == targetVersion {
      ok := group.ApplyNonMigrationChanges(changes);
    } else {
      group.ApplyPreMigration(changes);
      FinishPlanRuns(g, s, target, changes);
      ok := group.ApplyPostMigration(changes);
      if ok {
        group.schemaVersion := targetVersion;
      }
    }
    result := target;
    if ok {
      result := group.SetSchemaColumns(target);
    }
  }

  /** In a table that serves the class, each property of the class is pointed at the column made for it. */
  lemma PointedColumns(tb: Table, o: ObjectSchema, k: nat)
    requires Serves(tb, o) && k < |o.persisted|
    ensures |Pointed(tb, o.persisted)| == |o.persisted|
    ensures var p := Pointed(tb, o.persisted)[k];
            && p == o.persisted[k].(tableColumn := p.tableColumn) && InTable(tb, p.tableColumn)
            && tb.columns[p.tableColumn].name == p.name && Fits(tb.columns[p.tableColumn], o)
  {
    PointedAt(tb, o.persisted, k);
    var q := o.persisted[k];
    assert HasColumn(tb.columns, q.name);
    var i :| 0 <= i < |tb.columns| && tb.columns[i].name == q.name;
    hide HasColumn, Fits, TableOk;
  }

  // ----- the whole update -----

  /** What additive mode refuses, and otherwise whether anything has to be written. */
  method VerifyValidAdditiveChanges(changes: seq<SchemaChange>, updateIndexes: bool) returns (ok: bool, needed: bool)
    ensures ok <==> AcceptsAdditive(changes)
    ensures ok ==> (needed <==> exists c :: c in changes && NeedsWrite(c, updateIndexes))
  {
    ok, needed := true, false;
    var k := 0;
    while k < |changes|
      invariant k <= |changes|
      invariant ok <==> forall c :: c in changes[..k] ==> AdditiveOk(c)
      invariant needed <==> exists c :: c in changes[..k] && NeedsWrite(c, updateIndexes)
    {
      var c := changes[k];
      assert changes[..k + 1] == changes[..k] + [c];
      if !AdditiveOk(c) {
        ok := false;
      }
      if NeedsWrite(c, updateIndexes) {
        assert c in changes[..k + 1];
        needed := true;
      }
      k := k + 1;
    }
    assert changes[..k] == changes;
  }

  predicate NeedsWrite(c: SchemaChange, updateIndexes: bool) {
    c.AddTable? || c.AddInitialProperties? || c.AddProperty? || (updateIndexes && (c.AddIndex? || c.RemoveIndex?))
  }

  lemma ReadClassesCompare(g: GroupState, s: Schema)
    requires GroupOk(g) && IsSchemaOf(g, s)
    ensures forall e :: e in s ==> UniqueNames(e) && ColumnsDiffer(e)
  {
    forall e | e in s
      ensures UniqueNames(e) && ColumnsDiffer(e)
    {
      var tb := g.tables[e.name];
      assert TableOk(tb);
      ReadClassCompares(e.name, tb, PkOf(g, e.name));
    }
  }

  lemma ReadClassCompares(n: string, tb: Table, pk: string)
    requires UniqueColumns(tb.columns)
    ensures UniqueNames(ReadClass(n, tb, pk)) && ColumnsDiffer(ReadClass(n, tb, pk))
  {
  }

  lemma TargetCompares(t: Schema)
    requires Target(t)
    ensures Sorted(t) && forall o :: o in t ==> UniqueNames(o)
  {
  }

  /** Reading the schema back and comparing it once more tells whether the group is up to date. */
  method ChangesLeft(group: Group, target: Schema) returns (again: Schema, left: seq<SchemaChange>)
    requires GroupOk(group.State()) && Target(target)
    ensures IsSchemaOf(group.State(), again) && IsDiff(again, target, left) && InOrder(again, target, left)
    ensures left == [] <==> UpToDate(group.State(), target)
  {
    again := group.SchemaFromGroup();
    ReadClassesCompare(group.State(), again);
    TargetCompares(target);
    left := Compare(again, target);
    hide IsDiff, IsSchemaOf, Target, GroupOk, InOrder;
    if left == [] {
      EmptyDiffIsUpToDate(group.State(), target, again);
    } else {
      DiffIsCalled(again, target, left, left[0]);
    }
  }

  /** Applies the changes, takes them back when they are refused, and otherwise checks what is left to do. */
  method WriteChanges(group: Group, target: Schema, version: nat, mode: SchemaMode, changes: seq<SchemaChange>, ghost s: Schema)
    returns (ok: bool, result: Schema)
    requires Planned(group.State(), s, target, changes) && (mode == AdditiveMode ==> AcceptsAdditive(changes))
    modifies group
    ensures GroupOk(group.State())
    ensures var r := Applied(old(group.State()), old(group.schemaVersion), changes, version, mode);
            && ok == r.Some?
            && (ok ==> group.State() == r.value && result == WithColumns(group.State(), target))
            && group.schemaVersion == (if ok then VersionAfter(old(group.schemaVersion), version, mode) else old(group.schemaVersion))
            && (!ok ==> group.State() == old(group.State()))
    ensures ok && mode == Automatic && old(group.schemaVersion) != NOT_VERSIONED ==> UpToDate(group.State(), target)
    ensures ok && mode == Automatic && old(group.schemaVersion) == NOT_VERSIONED ==>
              (UpToDate(group.State(), target) <==> !SomeIndexUndone(changes))
  {
    ghost var g := group.State();
    var tables, pk, oldVersion := group.tables, group.pk, group.schemaVersion;
    PlanIsSound(g, s, target, changes);
    ok, result := ApplySchemaChanges(group, oldVersion, target, version, mode, changes, s);
    hide IsDiff, IsSchemaOf, Target, GroupOk, Planned, Applied, UpToDate, SomeIndexUndone;
    if ok {
      AppliedIsRight(g, s, target, oldVersion, changes, version, mode);
      if mode == Automatic {
        var again, left := ChangesLeft(group, target);
        if oldVersion == NOT_VERSIONED {
          AppliedAtFirst(g, oldVersion, changes, version);
          CreateLeavesNothingToDo(g, s, target, changes, again, left);
        } else {
          assert left == [];
        }
      }
    } else {
      group.tables, group.pk, group.schemaVersion := tables, pk, oldVersion;
    }
  }

  lemma PlanIsSound(g: GroupState, s: Schema, t: Schema, cs: seq<SchemaChange>)
    requires Planned(g, s, t, cs)
    ensures GroupOk(g) && Target(t)
  {
  }

  lemma AppliedAtFirst(g: GroupState, version: nat, cs: seq<SchemaChange>, targetVersion: nat)
    requires version == NOT_VERSIONED
    ensures Applied(g, version, cs, targetVersion, Automatic) == Some(Create(g, cs))
  {
  }

  lemma AppliedAdditively(g: GroupState, version: nat, cs: seq<SchemaChange>, targetVersion: nat)
    ensures Applied(g, version, cs, targetVersion, AdditiveMode) == Some(Additive(g, cs, true))
  {
  }

  /** How an update has to end, given the group, the target, the two versions and the diff. */
  ghost function Verdict(g: GroupState, t: Schema, oldVersion: nat, cs: seq<SchemaChange>, version: nat, mode: SchemaMode): Result {
    if version == oldVersion && cs == [] then Unchanged
    else if mode == AdditiveMode then
      if !AcceptsAdditive(cs) then InvalidAdditiveChange
      else if version == oldVersion && forall c :: c in cs ==> !NeedsWrite(c, false) then Unchanged
      else Updated
    else if oldVersion == NOT_VERSIONED then Updated
    else if version < oldVersion then InvalidVersion
    else if version == oldVersion then (if AcceptsNonMigration(cs) then Updated else MigrationRequired)
    else if SomeKeyRepeats(g, t) then DuplicatePrimaryKey
    else Updated
  }

  lemma WhyRefused(g: GroupState, s: Schema, t: Schema, version: nat, cs: seq<SchemaChange>, targetVersion: nat, mode: SchemaMode)
    requires Planned(g, s, t, cs)
    ensures Applied(g, version, cs, targetVersion, mode).None? <==>
              && mode == Automatic && version != NOT_VERSIONED
              && (if version == targetVersion then !AcceptsNonMigration(cs) else SomeKeyRepeats(g, t))
  {
    hide SomeKeyRepeats;
    DuplicateKeysAreKnownBefore(g, s, t, cs);
  }

  /** Whatever is applied, no declared column is missing afterwards, and a first update leaves index changes at most. */
  lemma AppliedHasEverything(g: GroupState, s: Schema, t: Schema, version: nat, cs: seq<SchemaChange>, targetVersion: nat, mode: SchemaMode)
    requires Planned(g, s, t, cs) && (mode == AdditiveMode ==> AcceptsAdditive(cs))
    requires Applied(g, version, cs, targetVersion, mode).Some?
    ensures EverythingThere(Applied(g, version, cs, targetVersion, mode).value, t)
    ensures mode == Automatic && version == NOT_VERSIONED ==> OnlyIndexesLeft(Applied(g, version, cs, targetVersion, mode).value, t)
  {
    var r := Applied(g, version, cs, targetVersion, mode).value;
    hide Planned, Create, Build, Additive, Upgrade, AcceptsAdditive, AcceptsNonMigration, TableOk;
    forall o | o in t
      ensures o.name in r.tables && HasAllColumns(r.tables[o.name], o)
    {
      if mode == AdditiveMode {
        AdditiveClass(g, s, t, cs, o);
      } else if version == NOT_VERSIONED {
        CreatedClassHasAll(g, s, t, cs, o);
      } else if version == targetVersion {
        AdditiveIsAccepted(cs);
        AdditiveIsBuild(g, cs);
        AdditiveClass(g, s, t, cs, o);
      } else {
        UpgradedClassIsServed(g, s, t, cs, o);
      }
    }
    if mode == Automatic && version == NOT_VERSIONED {
      FirstUpdateLeavesIndexes(g, s, t, cs);
    }
  }

  lemma FirstUpdateLeavesIndexes(g: GroupState, s: Schema, t: Schema, cs: seq<SchemaChange>)
    requires Planned(g, s, t, cs)
    ensures OnlyIndexesLeft(Create(g, cs), t)
  {
    hide Planned, Create, Calls;
    forall s', c | IsSchemaOf(Create(g, cs), s') && Calls(s', t, c)
      ensures c.AddIndex? || c.RemoveIndex?
    {
      CreatedCallsOnlyIndexes(g, s, t, cs, s', c);
    }
  }

  lemma AdditiveIsAccepted(cs: seq<SchemaChange>)
    requires AcceptsNonMigration(cs)
    ensures AcceptsAdditive(cs)
  {
  }

  /** All that the group's own schema would have to change for the target are indexes. */
  ghost predicate OnlyIndexesLeft(g: GroupState, t: Schema) {
    forall s, c :: IsSchemaOf(g, s) && Calls(s, t, c) ==> c.AddIndex? || c.RemoveIndex?
  }

  /** The two schemas decide how an update has to end; no kind of change needs to be looked at. */
  lemma VerdictMeans(g: GroupState, s: Schema, t: Schema, oldVersion: nat, cs: seq<SchemaChange>, version: nat, mode: SchemaMode)
    requires Planned(g, s, t, cs)
    ensures var r := Verdict(g, t, oldVersion, cs, version, mode);
            && (r == InvalidAdditiveChange <==>
                  mode == AdditiveMode && exists e, o :: e in s && o in t && e.name == o.name && !TypesAgree(e, o))
            && (r == InvalidVersion <==> mode == Automatic && oldVersion != NOT_VERSIONED && version < oldVersion)
            && (r == MigrationRequired <==>
                  && mode == Automatic && oldVersion != NOT_VERSIONED && version == oldVersion
                  && exists e, o :: e in s && o in t && e.name == o.name && !(TypesAgree(e, o) && SameProperties(e, o)))
            && (r == DuplicatePrimaryKey <==>
                  mode == Automatic && oldVersion != NOT_VERSIONED && version > oldVersion && SomeKeyRepeats(g, t))
            && (r == Unchanged <==>
                  && version == oldVersion
                  && if mode == Automatic then cs == []
                     else !SomethingMissing(s, t) && forall e, o :: e in s && o in t && e.name == o.name ==> TypesAgree(e, o))
            && (r == Unchanged ==> !SomethingMissing(s, t))
            && r != InvalidSchema
  {
    PlanIsRead(g, s, t, cs);
    hide Planned, IsDiff, IsRead, UniqueNames, TypesAgree, SameProperties, SomethingMissing, SomeKeyRepeats,
         AcceptsAdditive, AcceptsNonMigration;
    AdditiveMeans(s, t, cs);
    NonMigrationMeans(s, t, cs);
    AddsMeans(s, t, cs);
    NoChangesAccepted(cs);
    assert forall c :: NeedsWrite(c, false) <==> Adds(c);
  }

  lemma NoChangesAccepted(cs: seq<SchemaChange>)
    ensures cs == [] ==> AcceptsAdditive(cs) && AcceptsNonMigration(cs)
  {
  }

  lemma PlanIsRead(g: GroupState, s: Schema, t: Schema, cs: seq<SchemaChange>)
    requires Planned(g, s, t, cs)
    ensures IsDiff(s, t, cs) && (forall e :: e in s ==> IsRead(e)) && forall o :: o in t ==> UniqueNames(o)
  {
    ReadClassesCompare(g, s);
    TargetCompares(t);
    hide UniqueNames, GroupOk, IsDiff, Target;
  }

  /** Every old column is still in its place, with its name, its type and its values. */
  ghost predicate KeepsAllData(g: GroupState, r: GroupState) {
    forall n, i :: n in g.tables && 0 <= i < |g.tables[n].columns| ==> ColumnIsKept(g, r, n, i)
  }

  ghost predicate ColumnIsKept(g: GroupState, r: GroupState, n: string, i: nat)
    requires n in g.tables && i < |g.tables[n].columns|
  {
    && n in r.tables && r.tables[n].rows == g.tables[n].rows && i < |r.tables[n].columns|
    && SameData(r.tables[n].columns[i], g.tables[n].columns[i])
  }

  /** All that the group's own schema would have to change for the target is to lose properties. */
  ghost predicate OnlyRemovalsLeft(g: GroupState, t: Schema) {
    forall s, c :: IsSchemaOf(g, s) && Calls(s, t, c) ==> c.RemoveProperty?
  }

  lemma AdditiveUpdate(g: GroupState, s: Schema, t: Schema, cs: seq<SchemaChange>)
    requires Planned(g, s, t, cs) && AcceptsAdditive(cs)
    ensures KeepsAllData(g, Additive(g, cs, true)) && OnlyRemovalsLeft(Additive(g, cs, true), t)
  {
    hide Planned, Additive, AcceptsAdditive, IsSchemaOf, Calls, SameData;
    forall n, i | n in g.tables && 0 <= i < |g.tables[n].columns|
      ensures ColumnIsKept(g, Additive(g, cs, true), n, i)
    {
      AdditiveLosesNothing(g, s, t, cs, n, i);
    }
    forall s', c | IsSchemaOf(Additive(g, cs, true), s') && Calls(s', t, c)
      ensures c.RemoveProperty?
    {
      AdditiveCallsOnlyRemovals(g, s, t, cs, s', c);
    }
  }

  // ----- one update from start to end -----

  /** What additive mode leaves: all data, and at most removals and, when nothing was written, index changes to do. */
  ghost predicate AdditiveEnds(g: GroupState, after: GroupState, t: Schema, cs: seq<SchemaChange>, sameVersion: bool, r: Result) {
    && (r == Updated ==>
          after == Additive(g, cs, true) && KeepsAllData(g, after) && OnlyRemovalsLeft(after, t))
    && (r == Unchanged ==> forall c :: c in cs ==> c.RemoveProperty? || c.AddIndex? || c.RemoveIndex?)
    && (r == Updated && sameVersion ==> exists c :: c in cs && (c.AddTable? || c.AddInitialProperties? || c.AddProperty?))
  }

  /** What automatic mode leaves: nothing to do, except for index changes that a first update loses. */
  ghost predicate AutomaticEnds(g: GroupState, after: GroupState, t: Schema, first: bool, r: Result) {
    && (r == Unchanged ==> UpToDate(after, t))
    && (r == Updated && !first ==> UpToDate(after, t))
    && (r == Updated && first ==> (UpToDate(after, t) <==> !FileLosesIndex(g, t)) && OnlyIndexesLeft(after, t))
  }

  /**
   * How an update ends: a refusal or an unneeded update changes nothing, no file that has a version gets a lower one,
   * and the schema that is handed out has a column for everything and knows where.
   */
  ghost predicate Ends(g: GroupState, oldVersion: nat, after: GroupState, newVersion: nat, t: Schema, cs: seq<SchemaChange>,
                       version: nat, mode: SchemaMode, r: Result, result: Schema) {
    && r == Verdict(g, t, oldVersion, cs, version, mode)
    && (r != Updated ==> after == g && newVersion == oldVersion)
    && (r == Updated ==> newVersion == if oldVersion == NOT_VERSIONED then version else Later(oldVersion, version))
    && (r == Updated || r == Unchanged ==> EverythingThere(after, t) && PointsAtColumns(result, t, after))
    && (mode == AdditiveMode ==> AdditiveEnds(g, after, t, cs, version == oldVersion, r))
    && (mode == Automatic ==> AutomaticEnds(g, after, t, oldVersion == NOT_VERSIONED, r))
  }

  lemma UnchangedEnds(g: GroupState, s: Schema, t: Schema, cs: seq<SchemaChange>, version: nat, mode: SchemaMode, result: Schema)
    requires Planned(g, s, t, cs) && Verdict(g, t, version, cs, version, mode) == Unchanged
    requires |result| == |t| && forall k :: 0 <= k < |t| ==> result[k] == Copied(t[k], s)
    ensures Ends(g, version, g, version, t, cs, version, mode, Unchanged, result)
  {
    VerdictMeans(g, s, t, version, cs, version, mode);
    PlanIsSound(g, s, t, cs);
    hide GroupOk, Target, IsDiff, IsSchemaOf, SomethingMissing, TypesAgree, SameProperties, SomeKeyRepeats, AcceptsNonMigration,
         UpToDate, EverythingThere, PointsAtColumns, Copied;
    NothingMissingIsThere(g, s, t);
    CopiedPoint(g, s, t, result);
    if cs == [] {
      EmptyDiffIsUpToDate(g, t, s);
    }
  }

  lemma RefusedEnds(g: GroupState, t: Schema, cs: seq<SchemaChange>, oldVersion: nat, version: nat, mode: SchemaMode, result: Schema)
    requires Verdict(g, t, oldVersion, cs, version, mode) != Updated && Verdict(g, t, oldVersion, cs, version, mode) != Unchanged
    ensures Ends(g, oldVersion, g, oldVersion, t, cs, version, mode, Verdict(g, t, oldVersion, cs, version, mode), result)
  {
  }

  lemma UpdatedEnds(g: GroupState, s: Schema, t: Schema, cs: seq<SchemaChange>, oldVersion: nat, version: nat, mode: SchemaMode,
                    after: GroupState)
    requires Planned(g, s, t, cs) && InOrder(s, t, cs) && Verdict(g, t, oldVersion, cs, version, mode) == Updated
    requires Applied(g, oldVersion, cs, version, mode) == Some(after)
    requires mode == Automatic && oldVersion != NOT_VERSIONED ==> UpToDate(after, t)
    requires mode == Automatic && oldVersion == NOT_VERSIONED ==> (UpToDate(after, t) <==> !SomeIndexUndone(cs))
    ensures Ends(g, oldVersion, after, VersionAfter(oldVersion, version, mode), t, cs, version, mode, Updated, WithColumns(after, t))
  {
    hide Planned, InOrder, UpToDate, SomeIndexUndone, FileLosesIndex, AcceptsAdditive, AcceptsNonMigration, SomeKeyRepeats,
         KeepsAllData, OnlyRemovalsLeft, OnlyIndexesLeft, EverythingThere, PointsAtColumns, WithColumns, Applied, Additive;
    AppliedHasEverything(g, s, t, oldVersion, cs, version, mode);
    WithColumnsPoint(after, t);
    LossIsOfSchema(g, s, t, cs);
    if mode == AdditiveMode {
      AppliedAdditively(g, oldVersion, cs, version);
      AdditiveUpdate(g, s, t, cs);
      assert forall c :: NeedsWrite(c, false) <==> c.AddTable? || c.AddInitialProperties? || c.AddProperty?;
    }
  }

  /**
   * One update to a valid schema. The group stays well formed, and the update ends as it has to.
   */
  method UpdateToValid(group: Group, target: Schema, version: nat, mode: SchemaMode)
    returns (r: Result, changes: seq<SchemaChange>, result: Schema, ghost existing: Schema)
    requires GroupOk(group.State()) && Target(target)
    modifies group
    ensures GroupOk(group.State()) && r != InvalidSchema
    ensures IsSchemaOf(old(group.State()), existing) && IsDiff(existing, target, changes)
    ensures Ends(old(group.State()), old(group.schemaVersion), group.State(), group.schemaVersion, target, changes,
                 version, mode, r, result)
  {
    hide IsDiff, IsSchemaOf, Target, GroupOk, UpToDate, SomeIndexUndone, AcceptsAdditive, AcceptsNonMigration, SomeKeyRepeats,
         Applied, InOrder, Ends, Copied;
    ghost var g := group.State();
    var oldVersion := group.schemaVersion;
    var found;
    found, changes := ChangesLeft(group, target);
    existing, result := found, target;
    VerdictIsNotInvalid(g, target, oldVersion, changes, version, mode);
    var unneeded := version == oldVersion && changes == [];
    if !unneeded && mode == AdditiveMode {
      var ok, needed := VerifyValidAdditiveChanges(changes, version > oldVersion);
      if !ok {
        RefusedEnds(g, target, changes, oldVersion, version, mode, result);
        r := InvalidAdditiveChange;
        return;
      }
      unneeded := !needed && version == oldVersion;
    }
    if unneeded {
      ReadIsSorted(g, existing, target);
      result := CopyTableColumns(target, found);
      UnchangedEnds(g, existing, target, changes, version, mode, result);
      r := Unchanged;
      return;
    }
    if mode == Automatic && version < oldVersion && oldVersion != NOT_VERSIONED {
      RefusedEnds(g, target, changes, oldVersion, version, mode, result);
      r := InvalidVersion;
      return;
    }
    var ok;
    WhyRefused(g, existing, target, oldVersion, changes, version, mode);
    ok, result := WriteChanges(group, target, version, mode, changes, existing);
    if ok {
      r := Updated;
      UpdatedEnds(g, existing, target, changes, oldVersion, version, mode, group.State());
    } else {
      r := if version == oldVersion then MigrationRequired else DuplicatePrimaryKey;
      RefusedEnds(g, target, changes, oldVersion, version, mode, result);
    }
  }

  lemma ReadIsSorted(g: GroupState, s: Schema, t: Schema)
    requires IsSchemaOf(g, s) && Target(t)
    ensures Sorted(s) && Sorted(t)
  {
  }

  lemma VerdictIsNotInvalid(g: GroupState, t: Schema, oldVersion: nat, cs: seq<SchemaChange>, version: nat, mode: SchemaMode)
    ensures Verdict(g, t, oldVersion, cs, version, mode) != InvalidSchema
  {
  }

  /**
   * The whole update of a file's schema, for any schema built in the order of its class names whose flags agree:
   * validation first, then the update proper.
   */
  method UpdateSchema(group: Group, target: Schema, version: nat, mode: SchemaMode)
    returns (r: Result, changes: seq<SchemaChange>, result: Schema, ghost existing: Schema)
    requires GroupOk(group.State()) && Ordered(target) && forall o :: o in target ==> WellDeclared(o)
    modifies group
    ensures GroupOk(group.State())
    ensures r == InvalidSchema <==> !Valid(target)
    ensures r == InvalidSchema ==> group.State() == old(group.State()) && group.schemaVersion == old(group.schemaVersion)
    ensures r != InvalidSchema ==>
              && IsSchemaOf(old(group.State()), existing) && IsDiff(existing, target, changes)
              && Ends(old(group.State()), old(group.schemaVersion), group.State(), group.schemaVersion, target, changes,
                      version, mode, r, result)
  {
    hide Valid, GroupOk, Ordered, WellDeclared, IsDiff, IsSchemaOf, Ends;
    var problems := Validate(target);
    if problems != [] {
      existing := [];
      r, changes, result := InvalidSchema, [], target;
      return;
    }
    r, changes, result, existing := UpdateToValid(group, target, version, mode);
  }
}
