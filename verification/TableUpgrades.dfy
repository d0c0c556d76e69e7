/** What a whole list of changes does to one table, column by column. */
module TableUpgrades {
  import opened Schemas
  import opened Tables

  // ----- a pass over the changes of one class -----

  /** All changes of the class carried out in order, except removals. */
  function Rebuilt(t: Table, cs: seq<SchemaChange>, n: string, pass: Pass): Table {
    if cs == [] then t
    else
      var before, c := Rebuilt(t, cs[..|cs| - 1], n, pass), cs[|cs| - 1];
      if About(c, n) then TableAfter(before, c, pass) else before
  }

  /** All changes of the class carried out in order. */
  function Passed(t: Table, cs: seq<SchemaChange>, n: string, pass: Pass): Table {
    if cs == [] then t
    else
      var before, c := Passed(t, cs[..|cs| - 1], n, pass), cs[|cs| - 1];
      if About(c, n) then TableAfterRemoval(TableAfter(before, c, pass), c) else before
  }

  /** What becomes of the column at position i. */
  function ColumnRebuilt(col: Column, i: nat, rows: nat, cs: seq<SchemaChange>, n: string, pass: Pass): Column {
    if cs == [] then col
    else
      var before, c := ColumnRebuilt(col, i, rows, cs[..|cs| - 1], n, pass), cs[|cs| - 1];
      if About(c, n) && Touches(c, i, pass) then ColumnAfter(before, rows, c) else before
  }

  predicate Touches(c: SchemaChange, i: nat, pass: Pass) {
    Carries(pass, c) && !c.RemoveProperty? && ColumnOf(c) == i
  }

  /** The columns that the changes of the class append. */
  function Appended(cs: seq<SchemaChange>, n: string, rows: nat, pass: Pass): seq<Column> {
    if cs == [] then []
    else
      var before, c := Appended(cs[..|cs| - 1], n, rows, pass), cs[|cs| - 1];
      if About(c, n) && Carries(pass, c) then before + ColumnsAdded(c, rows) else before
  }

  /** The changes only refer to columns that the table has from the start. */
  ghost predicate InRange(cs: seq<SchemaChange>, n: string, size: nat) {
    forall c :: c in cs && About(c, n) && IsColumnChange(c) ==> 0 <= c.property.tableColumn < size
  }

  /** Old columns are rewritten where they are, and new ones come behind them. */
  ghost predicate HasShape(t': Table, t: Table, cs: seq<SchemaChange>, n: string, pass: Pass) {
    var added := Appended(cs, n, t.rows, pass);
    && t'.rows == t.rows
    && |t'.columns| == |t.columns| + |added|
    && (forall i :: 0 <= i < |t.columns| ==> t'.columns[i] == ColumnRebuilt(t.columns[i], i, t.rows, cs, n, pass))
    && (forall k :: 0 <= k < |added| ==> t'.columns[|t.columns| + k] == added[k])
  }

  lemma {:induction false} RebuiltShape(t: Table, cs: seq<SchemaChange>, n: string, pass: Pass)
    requires InRange(cs, n, |t.columns|)
    ensures HasShape(Rebuilt(t, cs, n, pass), t, cs, n, pass)
  {
    if cs != [] {
      var cs0, c := cs[..|cs| - 1], cs[|cs| - 1];
      assert c in cs;
      RebuiltShape(t, cs0, n, pass);
      hide ColumnAfter, ColumnsAdded;
    }
  }

  // ----- removing columns from the last to the first -----

  function Survivors(cols: seq<Column>, gone: set<int>): seq<Column> {
    if cols == [] then []
    else
      var k := |cols| - 1;
      Survivors(cols[..k], gone) + (if k in gone then [] else [cols[k]])
  }

  function Removed(cs: seq<SchemaChange>, n: string): (s: set<int>)
    ensures forall x :: x in s <==> exists c :: c in cs && About(c, n) && c.RemoveProperty? && c.property.tableColumn == x
  {
    set c | c in cs && About(c, n) && c.RemoveProperty? :: c.property.tableColumn
  }

  lemma {:induction false} NothingGone(cols: seq<Column>, gone: set<int>)
    requires forall x :: x in gone ==> x >= |cols|
    ensures Survivors(cols, gone) == cols
  {
    if cols != [] {
      NothingGone(cols[..|cols| - 1], gone);
    }
  }

  /** Taking out a column in front of all those already gone takes out exactly the one meant. */
  lemma {:induction false} OneMoreGone(cols: seq<Column>, gone: set<int>, d: nat)
    requires d < |cols| && forall x :: x in gone ==> d < x
    ensures d < |Survivors(cols, gone)|
    ensures var s := Survivors(cols, gone); s[..d] + s[d + 1..] == Survivors(cols, gone + {d})
  {
    var k := |cols| - 1;
    var s0 := Survivors(cols[..k], gone);
    var last := if k in gone then [] else [cols[k]];
    if d == k {
      NothingGone(cols[..k], gone);
      NothingGone(cols[..k], gone + {d});
      assert Survivors(cols, gone) == cols;
    } else {
      OneMoreGone(cols[..k], gone, d);
      var s := s0 + last;
      assert s == Survivors(cols, gone);
      assert s[..d] + s[d + 1..] == (s0[..d] + s0[d + 1..]) + last;
    }
  }

  /** Where a surviving column ends up: its position less the removed ones in front. */
  function PositionAfter(i: nat, gone: set<int>): (p: nat)
    ensures p <= i
  {
    if i == 0 then 0 else PositionAfter(i - 1, gone) + (if i - 1 in gone then 0 else 1)
  }

  /** Exactly the columns not removed remain, each with its contents, in their old order. */
  lemma {:induction false} SurvivorsAre(cols: seq<Column>, gone: set<int>)
    ensures |Survivors(cols, gone)| == PositionAfter(|cols|, gone)
    ensures forall i :: 0 <= i < |cols| && i !in gone ==>
              PositionAfter(i, gone) < |Survivors(cols, gone)| && Survivors(cols, gone)[PositionAfter(i, gone)] == cols[i]
    ensures forall c :: c in Survivors(cols, gone) ==> exists i :: 0 <= i < |cols| && i !in gone && cols[i] == c
  {
    if cols != [] {
      var k := |cols| - 1;
      SurvivorsAre(cols[..k], gone);
      forall i | 0 <= i < |cols| && i !in gone
        ensures PositionAfter(i, gone) < |Survivors(cols, gone)|
        ensures Survivors(cols, gone)[PositionAfter(i, gone)] == cols[i]
      {
        if i < k {
          assert cols[..k][i] == cols[i];
        }
      }
      forall c | c in Survivors(cols, gone)
        ensures exists i :: 0 <= i < |cols| && i !in gone && cols[i] == c
      {
        if c in Survivors(cols[..k], gone) {
          var i :| 0 <= i < k && i !in gone && cols[..k][i] == c;
          assert cols[i] == c;
        }
      }
    }
  }

  lemma {:induction false} PositionsIncrease(i: nat, j: nat, gone: set<int>)
    requires i < j && i !in gone
    ensures PositionAfter(i, gone) < PositionAfter(j, gone)
  {
    if i < j - 1 {
      PositionsIncrease(i, j - 1, gone);
    }
  }

  lemma RemovalsLastPrefix(cs: seq<SchemaChange>, k: nat)
    requires RemovalsLast(cs) && k <= |cs|
    ensures RemovalsLast(cs[..k])
  {
  }

  lemma RemovalFollows(cs: seq<SchemaChange>, n: string, c: SchemaChange)
    requires RemovalsLast(cs + [c]) && About(c, n)
    ensures !c.RemoveProperty? ==> Removed(cs, n) == {}
    ensures c.RemoveProperty? ==> forall x :: x in Removed(cs, n) ==> c.property.tableColumn < x
    ensures c.RemoveProperty? ==> Removed(cs + [c], n) == Removed(cs, n) + {c.property.tableColumn}
    ensures !c.RemoveProperty? ==> Removed(cs + [c], n) == Removed(cs, n)
  {
    var all := cs + [c];
    forall x | x in Removed(cs, n)
      ensures c.RemoveProperty? && c.property.tableColumn < x
    {
      var d :| d in cs && About(d, n) && d.RemoveProperty? && d.property.tableColumn == x;
      var i :| 0 <= i < |cs| && cs[i] == d;
      assert all[i] == d && all[|cs|] == c;
    }
  }

  lemma {:induction false} AfterOneChange(t: Table, passed: Table, cs: seq<SchemaChange>, n: string, c: SchemaChange, pass: Pass)
    requires RemovalsLast(cs + [c]) && About(c, n)
    requires IsColumnChange(c) ==> 0 <= c.property.tableColumn < |t.columns|
    requires passed.rows == t.rows && passed.columns == Survivors(t.columns, Removed(cs, n))
    ensures var t', passed' := TableAfter(t, c, pass), TableAfterRemoval(TableAfter(passed, c, pass), c);
            passed'.rows == t'.rows && passed'.columns == Survivors(t'.columns, Removed(cs + [c], n))
  {
    RemovalFollows(cs, n, c);
    hide ColumnAfter, ColumnsAdded, Survivors, RemovalsLast;
    if c.RemoveProperty? {
      OneMoreGone(t.columns, Removed(cs, n), c.property.tableColumn);
    } else {
      NothingGone(t.columns, {});
      NothingGone(TableAfter(t, c, pass).columns, {});
      assert passed == t;
    }
  }

  lemma {:induction false} RebuiltKeepsSize(t: Table, cs: seq<SchemaChange>, n: string, pass: Pass)
    ensures Rebuilt(t, cs, n, pass).rows == t.rows
    ensures |t.columns| <= |Rebuilt(t, cs, n, pass).columns|
  {
    if cs != [] {
      RebuiltKeepsSize(t, cs[..|cs| - 1], n, pass);
    }
  }

  /** A pass that removes columns as it goes leaves what a pass without removals leaves, less the removed columns. */
  lemma {:induction false} PassedIsRebuiltLessRemoved(t: Table, cs: seq<SchemaChange>, n: string, pass: Pass)
    requires RemovalsLast(cs) && InRange(cs, n, |t.columns|)
    ensures Passed(t, cs, n, pass).rows == t.rows
    ensures Passed(t, cs, n, pass).columns == Survivors(Rebuilt(t, cs, n, pass).columns, Removed(cs, n))
  {
    if cs == [] {
      NothingGone(t.columns, {});
      assert Removed(cs, n) == {};
    } else {
      var cs0, c := cs[..|cs| - 1], cs[|cs| - 1];
      assert cs == cs0 + [c] && c in cs;
      PassedIsRebuiltLessRemoved(t, cs0, n, pass);
      RebuiltKeepsSize(t, cs0, n, pass);
      hide TableAfter, TableAfterRemoval, Survivors, RemovalsLast;
      if About(c, n) {
        AfterOneChange(Rebuilt(t, cs0, n, pass), Passed(t, cs0, n, pass), cs0, n, c, pass);
        RebuiltKeepsSize(t, cs, n, pass);
      } else {
        assert Removed(cs, n) == Removed(cs0, n);
      }
    }
  }
}
