/** Renaming keeps the graph of references: which rows join with which, and how many references dangle. */
module IdIsomorphism {
  import opened Wrappers
  import opened IdRegistry
  import opened IdValues
  import opened IdTables
  import opened IdMigration

  // Two values.

  /** One value is mapped to the other, which is not mapped itself. */
  predicate Collides(m: IdMap, kind: Kind, a: string, b: string) {
    || ((kind, a) in m && (kind, b) !in m && m[(kind, a)] == b)
    || ((kind, b) in m && (kind, a) !in m && m[(kind, b)] == a)
  }

  /** Equality of two values survives the renaming exactly when they do not collide. */
  lemma EqualityIsKept(m: IdMap, kind: Kind, a: string, b: string)
    requires NewValuesDistinct(m)
    ensures (Renamed(m, kind, a) == Renamed(m, kind, b) <==> a == b) <==> !Collides(m, kind, a, b)
  {
    if (kind, a) in m && (kind, b) in m && m[(kind, a)] == m[(kind, b)] {
      assert (kind, a) == (kind, b);
    }
  }

  // Two columns.

  /** A new value of the kind is nowhere stored in the column. */
  ghost predicate FreshFor(m: IdMap, kind: Kind, rows: seq<Row>, column: Column) {
    forall key, i | key in m && key.0 == kind && 0 <= i < |rows| :: Field(rows[i], column) != Text(m[key])
  }

  predicate Joins(a: Row, aColumn: Column, b: Row, bColumn: Column) {
    Field(a, aColumn).Text? && Field(a, aColumn) == Field(b, bColumn)
  }

  /** The cells of a column after renaming, under the kind that owns the column. */
  ghost predicate ColumnRenamed(m: IdMap, kind: Kind, column: Column, before: seq<Row>, after: seq<Row>) {
    && |after| == |before|
    && forall i | 0 <= i < |after| :: Field(after[i], column) == RenamedCell(m, kind, Field(before[i], column))
  }

  lemma RenamesReachColumn(schema: Schema, m: IdMap, kinds: seq<Kind>, kind: Kind, target: Reference, tables: Tables)
    requires WellFormedMap(m) && kind in kinds && target in Targets(kind)
    requires schema.HasColumn(target.table, target.column)
    ensures ColumnRenamed(m, kind, target.column, tables[target.table],
                          RenameAll(m, RenameList(schema, kinds), tables)[target.table])
  {
    hide WellFormedMap, RenameAll, RenameList, Targets, Owner, OwnedRenames;
    var renames := RenameList(schema, kinds);
    RenameListIsOwned(schema, kinds);
    RenameListIsComplete(schema, kinds, kind, target);
    TargetsHaveOneOwner(kind, target);
    RenameAllCells(m, renames, tables);
    var before, after := tables[target.table], RenameAll(m, renames, tables)[target.table];
    assert IsRenamed(renames, target.table, target.column) by {
      assert Rename(kind, target.table, target.column) in renames;
    }
    forall i | 0 <= i < |after|
      ensures Field(after[i], target.column) == RenamedCell(m, kind, Field(before[i], target.column))
    {
      assert after[i].Keys == before[i].Keys;
    }
  }

  lemma JoinIsKept(m: IdMap, kind: Kind, a: Row, aColumn: Column, b: Row, bColumn: Column, nextA: Row, nextB: Row)
    requires NewValuesDistinct(m)
    requires Field(nextA, aColumn) == RenamedCell(m, kind, Field(a, aColumn))
    requires Field(nextB, bColumn) == RenamedCell(m, kind, Field(b, bColumn))
    requires forall key | key in m && key.0 == kind :: Field(a, aColumn) != Text(m[key]) && Field(b, bColumn) != Text(m[key])
    ensures Joins(nextA, aColumn, nextB, bColumn) <==> Joins(a, aColumn, b, bColumn)
  {
    if Field(a, aColumn).Text? && Field(b, bColumn).Text? {
      EqualityIsKept(m, kind, Field(a, aColumn).text, Field(b, bColumn).text);
    }
  }

  /** After all passes over direct columns, any two columns of a kind join exactly the rows they joined before. */
  lemma JoinsAreKept(
    schema: Schema, m: IdMap, kinds: seq<Kind>, kind: Kind, from: Reference, to: Reference, tables: Tables)
    requires WellFormedMap(m) && NewValuesDistinct(m)
    requires kind in kinds && from in Targets(kind) && to in Targets(kind)
    requires schema.HasColumn(from.table, from.column) && schema.HasColumn(to.table, to.column)
    requires FreshFor(m, kind, tables[from.table], from.column) && FreshFor(m, kind, tables[to.table], to.column)
    ensures var after := RenameAll(m, RenameList(schema, kinds), tables);
      && |after[from.table]| == |tables[from.table]| && |after[to.table]| == |tables[to.table]|
      && forall i, j | 0 <= i < |tables[from.table]| && 0 <= j < |tables[to.table]| ::
        Joins(after[from.table][i], from.column, after[to.table][j], to.column) <==>
        Joins(tables[from.table][i], from.column, tables[to.table][j], to.column)
  {
    hide WellFormedMap, NewValuesDistinct, RenameAll, RenameList, Targets, Joins;
    RenamesReachColumn(schema, m, kinds, kind, from, tables);
    RenamesReachColumn(schema, m, kinds, kind, to, tables);
    var after := RenameAll(m, RenameList(schema, kinds), tables);
    forall i, j | 0 <= i < |tables[from.table]| && 0 <= j < |tables[to.table]|
      ensures Joins(after[from.table][i], from.column, after[to.table][j], to.column) <==>
              Joins(tables[from.table][i], from.column, tables[to.table][j], to.column)
    {
      JoinIsKept(m, kind, tables[from.table][i], from.column, tables[to.table][j], to.column,
                 after[from.table][i], after[to.table][j]);
    }
  }

  // Dangling references.

  ghost predicate Resolves(row: Row, column: Column, targets: seq<Row>, targetColumn: Column) {
    exists j | 0 <= j < |targets| :: Joins(row, column, targets[j], targetColumn)
  }

  /** The row's reference is present, not empty, and names no row of the target. */
  ghost predicate Dangles(row: Row, column: Column, targets: seq<Row>, targetColumn: Column) {
    Field(row, column).Text? && Field(row, column).text != "" && !Resolves(row, column, targets, targetColumn)
  }

  /** The count that the direct reference check wants to be zero. */
  ghost function DanglingCount(rows: seq<Row>, column: Column, targets: seq<Row>, targetColumn: Column): nat {
    if rows == [] then 0
    else
      var rest := DanglingCount(rows[1..], column, targets, targetColumn);
      if Dangles(rows[0], column, targets, targetColumn) then rest + 1 else rest
  }

  /** Empty references to a kind whose empty value is mapped although no target row is empty. */
  ghost function AwakenedCount(m: IdMap, kind: Kind, rows: seq<Row>, column: Column, targets: seq<Row>, targetColumn: Column)
    : nat
  {
    if rows == [] then 0
    else
      var rest := AwakenedCount(m, kind, rows[1..], column, targets, targetColumn);
      if Awakens(m, kind, rows[0], column, targets, targetColumn) then rest + 1 else rest
  }

  ghost predicate Awakens(m: IdMap, kind: Kind, row: Row, column: Column, targets: seq<Row>, targetColumn: Column) {
    Field(row, column) == Text("") && (kind, "") in m && !Resolves(row, column, targets, targetColumn)
  }

  lemma ResolvesIsKept(
    m: IdMap, kind: Kind, row: Row, next: Row, column: Column, targets: seq<Row>, after: seq<Row>, targetColumn: Column)
    requires NewValuesDistinct(m)
    requires Field(next, column) == RenamedCell(m, kind, Field(row, column))
    requires forall key | key in m && key.0 == kind :: Field(row, column) != Text(m[key])
    requires ColumnRenamed(m, kind, targetColumn, targets, after) && FreshFor(m, kind, targets, targetColumn)
    ensures Resolves(next, column, after, targetColumn) <==> Resolves(row, column, targets, targetColumn)
  {
    hide Joins, NewValuesDistinct;
    forall j | 0 <= j < |targets|
      ensures Joins(next, column, after[j], targetColumn) <==> Joins(row, column, targets[j], targetColumn)
    {
      JoinIsKept(m, kind, row, column, targets[j], targetColumn, next, after[j]);
    }
  }

  lemma DanglingIsKept(
    m: IdMap, kind: Kind, row: Row, next: Row, column: Column, targets: seq<Row>, after: seq<Row>, targetColumn: Column)
    requires NewValuesDistinct(m) && NewValuesValid(m)
    requires Field(next, column) == RenamedCell(m, kind, Field(row, column))
    requires forall key | key in m && key.0 == kind :: Field(row, column) != Text(m[key])
    requires ColumnRenamed(m, kind, targetColumn, targets, after) && FreshFor(m, kind, targets, targetColumn)
    ensures Dangles(next, column, after, targetColumn) <==>
      (Dangles(row, column, targets, targetColumn) || Awakens(m, kind, row, column, targets, targetColumn))
  {
    hide Resolves, ColumnRenamed, FreshFor, NewValuesDistinct;
    ResolvesIsKept(m, kind, row, next, column, targets, after, targetColumn);
    if Field(row, column).Text? && (kind, Field(row, column).text) in m {
      ValidValuesAreBase62(kind, m[(kind, Field(row, column).text)]);
    }
  }

  /**
   * The dangling count of a reference column grows by exactly the empty references that became values. So it is kept if
   * and only if the empty string is not mapped, is an existing target, or is not referenced.
   */
  lemma {:induction false} DanglingCountAfterRenaming(
    m: IdMap, kind: Kind, rows: seq<Row>, next: seq<Row>, column: Column, targets: seq<Row>, after: seq<Row>,
    targetColumn: Column)
    requires NewValuesDistinct(m) && NewValuesValid(m)
    requires ColumnRenamed(m, kind, column, rows, next) && FreshFor(m, kind, rows, column)
    requires ColumnRenamed(m, kind, targetColumn, targets, after) && FreshFor(m, kind, targets, targetColumn)
    ensures DanglingCount(next, column, after, targetColumn) ==
      DanglingCount(rows, column, targets, targetColumn) + AwakenedCount(m, kind, rows, column, targets, targetColumn)
  {
    hide NewValuesDistinct, NewValuesValid, Dangles, Awakens;
    if rows != [] {
      DanglingIsKept(m, kind, rows[0], next[0], column, targets, after, targetColumn);
      assert forall i | 0 <= i < |rows[1..]| :: rows[1..][i] == rows[i + 1] && next[1..][i] == next[i + 1];
      DanglingCountAfterRenaming(m, kind, rows[1..], next[1..], column, targets, after, targetColumn);
      RowsApart(m, kind, rows[0], column, targets, targetColumn);
    }
  }

  lemma RowsApart(m: IdMap, kind: Kind, row: Row, column: Column, targets: seq<Row>, targetColumn: Column)
    ensures !(Dangles(row, column, targets, targetColumn) && Awakens(m, kind, row, column, targets, targetColumn))
  {
  }

  /** The same, for a declared reference of the registry after all passes over direct columns. */
  lemma DanglingReferencesAreKept(schema: Schema, m: IdMap, kinds: seq<Kind>, kind: Kind, reference: Reference, tables: Tables)
    requires WellFormedMap(m) && NewValuesDistinct(m)
    requires kind in kinds && reference in References(kind)
    requires schema.HasColumn(reference.table, reference.column)
    requires schema.HasColumn(PrimaryTable(kind), PrimaryColumn(kind))
    requires FreshFor(m, kind, tables[reference.table], reference.column)
    requires FreshFor(m, kind, tables[PrimaryTable(kind)], PrimaryColumn(kind))
    ensures var after := RenameAll(m, RenameList(schema, kinds), tables);
      var (rows, targets) := (tables[reference.table], tables[PrimaryTable(kind)]);
      DanglingCount(after[reference.table], reference.column, after[PrimaryTable(kind)], PrimaryColumn(kind)) ==
      DanglingCount(rows, reference.column, targets, PrimaryColumn(kind))
      + AwakenedCount(m, kind, rows, reference.column, targets, PrimaryColumn(kind))
  {
    hide NewValuesDistinct, RenameAll, RenameList, References, PrimaryTable, PrimaryColumn, DanglingCount, AwakenedCount,
      FreshFor, ColumnRenamed, NewValuesValid;
    var after := RenameAll(m, RenameList(schema, kinds), tables);
    assert Primary(kind) in Targets(kind) && reference in Targets(kind);
    RenamesReachColumn(schema, m, kinds, kind, reference, tables);
    RenamesReachColumn(schema, m, kinds, kind, Primary(kind), tables);
    DanglingCountAfterRenaming(
      m, kind, tables[reference.table], after[reference.table], reference.column, tables[PrimaryTable(kind)],
      after[PrimaryTable(kind)], PrimaryColumn(kind));
  }

  /** An empty historical value maps the empty string, and then every empty live reference dangles. */
  lemma EmptyReferenceAwakens(m: IdMap)
    requires m == map[(RowId(USER), "") := "newUser"]
    ensures WellFormedMap(m) && NewValuesDistinct(m)
    ensures var rows, after := [map[USED_BY := Text("")]], [map[USED_BY := Text("newUser")]];
      && ColumnRenamed(m, RowId(USER), USED_BY, rows, after)
      && DanglingCount(rows, USED_BY, [], ID) == 0 && DanglingCount(after, USED_BY, [], ID) == 1
  {
    assert !HasForeignChar("newUser");
    var rows, after := [map[USED_BY := Text("")]], [map[USED_BY := Text("newUser")]];
    assert DanglingCount(rows[1..], USED_BY, [], ID) == 0 && DanglingCount(after[1..], USED_BY, [], ID) == 0;
    assert Dangles(after[0], USED_BY, [], ID);
  }
}
