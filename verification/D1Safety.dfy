/**
 * What a completed plan guarantees on any copy, whether or not it agrees with the local database: the checks stand where
 * nothing that follows them can undo what they found.
 */
module D1Safety {
  import opened Wrappers
  import opened IdRegistry
  import opened IdValues
  import opened IdMapTable
  import opened IdTables
  import opened IdMigration
  import opened PlanChunks
  import opened D1Plan

  // Parts of a plan.

  lemma ExecuteInParts(schema: Schema, first: seq<Statement>, second: seq<Statement>, st: D1) returns (middle: D1)
    requires Execute(schema, first + second, st).Some?
    ensures Execute(schema, first, st) == Some(middle)
    ensures Execute(schema, second, middle) == Execute(schema, first + second, st)
  {
    ExecuteConcatenates(schema, first, second, st);
    middle := Execute(schema, first, st).value;
  }

  predicate HasNoInserts(plan: seq<Statement>) {
    forall s | s in plan :: !s.InsertMappings?
  }

  lemma {:induction false} MarkersStay(schema: Schema, plan: seq<Statement>, st: D1, end: D1)
    requires Execute(schema, plan, st) == Some(end) && NoMarkers(plan)
    ensures end.completedAt == st.completedAt && end.version == st.version
    ensures HasNoInserts(plan) ==> end.mapRows == st.mapRows
    decreases |plan|
  {
    hide Passes, ChangedTables;
    if plan != [] {
      MarkersStay(schema, plan[1..], Step(schema, plan[0], st).value, end);
    }
  }

  /** Only clearing and checks follow. */
  predicate IsFinishing(plan: seq<Statement>) {
    forall s | s in plan :: s.Clear? || s.DropResources? || s.DropClients? || s.DropRegistrations? || s.Assert?
  }

  lemma {:induction false} DownloadersStayOrGo(schema: Schema, plan: seq<Statement>, st: D1, end: D1)
    requires Execute(schema, plan, st) == Some(end) && IsFinishing(plan)
    ensures end.tables[DOWNLOADERS] == st.tables[DOWNLOADERS] || end.tables[DOWNLOADERS] == []
    decreases |plan|
  {
    hide Passes, DropRegistered;
    if plan != [] {
      DownloadersStayOrGo(schema, plan[1..], Step(schema, plan[0], st).value, end);
    }
  }

  /** Checks that do not abort have passed, and change nothing. */
  lemma {:induction false} ChecksHavePassed(schema: Schema, checks: seq<Check>, st: D1)
    requires Execute(schema, CheckStatements(checks), st).Some? && Pending(st)
    ensures Execute(schema, CheckStatements(checks), st) == Some(st)
    ensures forall check | check in checks :: Passes(schema, check, st)
    decreases |checks|
  {
    hide Passes;
    if checks != [] {
      assert CheckStatements(checks)[1..] == CheckStatements(checks[1..]);
      ChecksHavePassed(schema, checks[1..], st);
      assert checks == [checks[0]] + checks[1..];
    }
  }

  // The map.

  lemma {:induction false} ReviewsHavePassed(schema: Schema, chunks: seq<seq<MapRow>>, st: D1)
    requires Execute(schema, ReviewStatements(chunks), st).Some? && Pending(st)
    ensures Execute(schema, ReviewStatements(chunks), st) == Some(st)
    ensures forall row | row in Flatten(chunks) :: row in st.mapRows
    decreases |chunks|
  {
    if chunks != [] {
      assert ReviewStatements(chunks)[1..] == ReviewStatements(chunks[1..]);
      assert Passes(schema, MappingsReviewed(chunks[0]), st);
      ReviewsHavePassed(schema, chunks[1..], st);
    }
  }

  lemma MappingIsCopied(run: LocalRun, rendering: Rendering, st: D1, end: D1)
    requires Execute(run.schema, MappingStatements(run, rendering), st) == Some(end) && Pending(st)
    requires Plannable(run, rendering)
    ensures Pending(end) && |end.mapRows| == |run.mapRows| && forall row | row in run.mapRows :: row in end.mapRows
  {
    hide ColumnFits, Chunks;
    var chunks := MapChunks(run, rendering);
    var count := [Assert(MappingCount(|run.mapRows|))];
    var inserted := ExecuteInParts(run.schema, [CheckMarker] + InsertStatements(chunks) + count, ReviewStatements(chunks), st);
    var filled := ExecuteInParts(run.schema, [CheckMarker] + InsertStatements(chunks), count, st);
    MarkersStay(run.schema, [CheckMarker] + InsertStatements(chunks), st, filled);
    assert count[1..] == [];
    assert Execute(run.schema, count, filled) == Some(filled) && |filled.mapRows| == |run.mapRows|;
    ReviewsHavePassed(run.schema, chunks, filled);
    ChunksHoldTheMap(run, rendering);
  }

  lemma ChunksHoldTheMap(run: LocalRun, rendering: Rendering)
    requires Plannable(run, rendering)
    ensures Flatten(MapChunks(run, rendering)) == run.mapRows
  {
    hide ColumnFits, Chunks;
    ChunksConcatenate(run.mapRows, rendering.mapBytes);
  }

  // The whole plan.

  ghost predicate IsChecked(run: LocalRun, end: D1) {
    && |end.mapRows| == |run.mapRows| && (forall row | row in run.mapRows :: row in end.mapRows)
    && (HasLegacyCreators(run.schema) ==>
          forall row | row in end.tables[DOWNLOAD_TASKS] :: !NamesApiKey(Field(row, CREATED_BY_USER_ID)))
    && (forall rename | rename in run.renames :: IsRenamedAsLocally(run, rename, end))
    && (HasCredentials(run.schema) ==>
          forall row | row in end.tables[DOWNLOADERS] :: Field(row, ENABLED) == Number(0) && Field(row, TOKEN_HASH) == Text(""))
    && (forall table | table in run.listed :: |end.tables[table]| == |run.tables[table]|)
    && (forall validation | validation in run.validations :: Holds(validation, end.tables))
  }

  /** No old value of the kind is left in the column, and it holds as many new ones as in the local database. */
  ghost predicate IsRenamedAsLocally(run: LocalRun, rename: Rename, end: D1) {
    && (forall row, mapped | row in end.tables[rename.table] && mapped in end.mapRows && mapped.kind == rename.kind ::
          Field(row, rename.column) != Text(mapped.oldValue))
    && CountNewValues(AsMap(end.mapRows), rename.kind, rename.column, end.tables[rename.table]) ==
         CountNewValues(AsMap(run.mapRows), rename.kind, rename.column, run.tables[rename.table])
  }

  lemma {:induction false} RenamedChecksAre(run: LocalRun, renames: seq<Rename>, rename: Rename)
    requires rename in renames
    ensures ColumnRenamed(rename, CountNewValues(AsMap(run.mapRows), rename.kind, rename.column, run.tables[rename.table]))
      in RenamedChecks(run, renames)
    decreases |renames|
  {
    hide AsMap, CountNewValues;
    if rename != renames[0] {
      RenamedChecksAre(run, renames[1..], rename);
    }
  }

  lemma {:induction false} RowCountChecksAre(run: LocalRun, tables: seq<Table>, table: Table)
    requires table in tables
    ensures RowCount(table, |run.tables[table]|) in RowCountChecks(run, tables)
    decreases |tables|
  {
    if table != tables[0] {
      RowCountChecksAre(run, tables[1..], table);
    }
  }

  lemma {:induction false} ValidationChecksAre(validations: seq<Validation>, validation: Validation)
    requires validation in validations
    ensures Valid(validation) in ValidationChecks(validations)
    decreases |validations|
  {
    if validation != validations[0] {
      ValidationChecksAre(validations[1..], validation);
    }
  }

  /** What the closing checks say of the state they were made in. */
  lemma FinalChecksSay(run: LocalRun, st: D1)
    requires forall check | check in FinalChecks(run) :: Passes(run.schema, check, st)
    ensures HasLegacyCreators(run.schema) ==>
      forall row | row in st.tables[DOWNLOAD_TASKS] :: !NamesApiKey(Field(row, CREATED_BY_USER_ID))
    ensures forall rename | rename in run.renames :: IsRenamedAsLocally(run, rename, st)
    ensures forall table | table in run.listed :: |st.tables[table]| == |run.tables[table]|
    ensures forall validation | validation in run.validations :: Holds(validation, st.tables)
  {
    hide AsMap, CountNewValues, Holds, NamesApiKey, HasLegacyCreators, RenamedChecks, RowCountChecks, ValidationChecks;
    if HasLegacyCreators(run.schema) {
      assert CreatorsResolved in FinalChecks(run);
      assert Passes(run.schema, CreatorsResolved, st);
    }
    forall rename | rename in run.renames ensures IsRenamedAsLocally(run, rename, st) {
      var check := ColumnRenamed(rename, CountNewValues(AsMap(run.mapRows), rename.kind, rename.column, run.tables[rename.table]));
      RenamedChecksAre(run, run.renames, rename);
      assert check in FinalChecks(run) && Passes(run.schema, check, st);
      AsMapKeys(st.mapRows);
    }
    forall table | table in run.listed ensures |st.tables[table]| == |run.tables[table]| {
      RowCountChecksAre(run, run.listed, table);
      assert RowCount(table, |run.tables[table]|) in FinalChecks(run);
      assert Passes(run.schema, RowCount(table, |run.tables[table]|), st);
    }
    forall validation | validation in run.validations ensures Holds(validation, st.tables) {
      ValidationChecksAre(run.validations, validation);
      assert Valid(validation) in FinalChecks(run) && Passes(run.schema, Valid(validation), st);
    }
  }

  lemma {:induction false} ExactStatementsInsertNothing(run: LocalRun, rendering: Rendering, columns: seq<(Table, Column)>)
    ensures HasNoInserts(ExactStatements(run, rendering, columns))
    decreases |columns|
  {
    hide ExactRows, ExactChunks;
    if columns != [] {
      StagingInsertsNothing(columns[0].0, columns[0].1, ExactChunks(run, rendering, columns[0].0, columns[0].1));
      ExactStatementsInsertNothing(run, rendering, columns[1..]);
    }
  }

  lemma {:induction false} StagingInsertsNothing(table: Table, column: Column, chunks: seq<seq<(seq<Cell>, Cell)>>)
    ensures HasNoInserts(StageStatements(table, column, chunks))
    decreases |chunks|
  {
    if chunks != [] {
      StagingInsertsNothing(table, column, chunks[1..]);
    }
  }

  lemma {:induction false} RenamesInsertNothing(renames: seq<Rename>)
    ensures HasNoInserts(RenameStatements(renames))
    decreases |renames|
  {
    if renames != [] {
      RenamesInsertNothing(renames[1..]);
    }
  }

  lemma {:induction false} CredentialsInsertNothing(rows: seq<Row>)
    ensures HasNoInserts(CredentialStatements(rows))
    decreases |rows|
  {
    if rows != [] {
      CredentialsInsertNothing(rows[1..]);
    }
  }

  lemma {:induction false} ClearingFinishes(tables: seq<Table>)
    ensures IsFinishing(ClearStatements(tables))
    decreases |tables|
  {
    if tables != [] {
      ClearingFinishes(tables[1..]);
    }
  }

  lemma {:induction false} ChecksFinish(checks: seq<Check>)
    ensures IsFinishing(CheckStatements(checks))
    decreases |checks|
  {
    if checks != [] {
      ChecksFinish(checks[1..]);
    }
  }

  lemma RewritingInsertsNothing(run: LocalRun, rendering: Rendering)
    ensures HasNoInserts(RewritingStatements(run, rendering))
  {
    hide ExactStatements, RenameStatements, CredentialStatements;
    RenamesInsertNothing(run.renames);
    ExactStatementsInsertNothing(run, rendering, run.embedded);
    CredentialsInsertNothing(run.tables[DOWNLOADERS]);
  }

  /** The last check of the rewriting leaves every downloader revoked. */
  lemma RevocationHasPassed(run: LocalRun, rendering: Rendering, st: D1, end: D1)
    requires Execute(run.schema, RewritingStatements(run, rendering), st) == Some(end) && Pending(st)
    requires HasCredentials(run.schema)
    ensures forall row | row in end.tables[DOWNLOADERS] :: Field(row, ENABLED) == Number(0) && Field(row, TOKEN_HASH) == Text("")
  {
    hide HasCredentials, CredentialStatements, ExactStatements, RenameStatements, PreparationStatements, ChangedTables;
    var before := PreparationStatements(run.schema) + RenameStatements(run.renames) + ExactStatements(run, rendering, run.embedded);
    var credentials := CredentialStatements(run.tables[DOWNLOADERS]);
    var last := [Assert(CredentialsRevoked)];
    assert RewritingStatements(run, rendering) == (before + credentials) + last;
    var middle := ExecuteInParts(run.schema, before + credentials, last, st);
    MarkersStay(run.schema, before + credentials, st, middle);
    assert last[1..] == [];
    assert Execute(run.schema, last, middle) == Some(middle) && Passes(run.schema, CredentialsRevoked, middle);
  }

  lemma FinishingHasPassed(run: LocalRun, st: D1, end: D1)
    requires Execute(run.schema, FinishingStatements(run), st) == Some(end) && Pending(st)
    ensures forall check | check in FinalChecks(run) :: Passes(run.schema, check, end)
    ensures end.mapRows == st.mapRows && Pending(end)
    ensures end.tables[DOWNLOADERS] == st.tables[DOWNLOADERS] || end.tables[DOWNLOADERS] == []
  {
    hide Passes, FinalChecks, CheckStatements, ClearStatements, ChangedTables;
    var changes := ClearStatements(run.emptied) + DropStatements(run.schema);
    var middle := ExecuteInParts(run.schema, changes, CheckStatements(FinalChecks(run)), st);
    ClearingFinishes(run.emptied);
    ChecksFinish(FinalChecks(run));
    MarkersStay(run.schema, changes, st, middle);
    ChecksHavePassed(run.schema, FinalChecks(run), middle);
    DownloadersStayOrGo(run.schema, changes, st, middle);
  }

  /**
   * A plan that runs to its end on a copy not completed before, whatever that copy holds, has copied the whole map, left no
   * creator that names a key, no old value in a renamed column and no working downloader, and found the row counts of the
   * local database and every validation.
   */
  lemma CompletedPlanIsChecked(run: LocalRun, rendering: Rendering, st: D1, end: D1)
    requires Execute(run.schema, PlanOf(run, rendering), st) == Some(end) && Pending(st) && Plannable(run, rendering)
    ensures IsChecked(run, end)
    ensures end.completedAt == run.completedAt && end.version == VALIDATION_VERSION
  {
    hide Plannable, MappingStatements, RewritingStatements, FinishingStatements, Passes, FinalChecks, ChangedTables, HasCredentials,
      HasLegacyCreators, Holds, IsRenamedAsLocally, NamesApiKey;
    var marks := [MarkValidated, MarkCompleted(run.completedAt)];
    var copying, rewriting, finishing :=
      MappingStatements(run, rendering), RewritingStatements(run, rendering), FinishingStatements(run);
    var worked := ExecuteInParts(run.schema, WorkStatements(run, rendering), marks, st);
    var rewritten := ExecuteInParts(run.schema, copying + rewriting, finishing, st);
    var copied := ExecuteInParts(run.schema, copying, rewriting, st);
    MappingIsCopied(run, rendering, st, copied);
    RewritingInsertsNothing(run, rendering);
    MarkersStay(run.schema, rewriting, copied, rewritten);
    if HasCredentials(run.schema) {
      RevocationHasPassed(run, rendering, copied, rewritten);
    }
    FinishingHasPassed(run, rewritten, worked);
    FinalChecksSay(run, worked);
    MarksChangeNoRows(run, worked, end);
  }

  lemma MarksChangeNoRows(run: LocalRun, st: D1, end: D1)
    requires Execute(run.schema, [MarkValidated, MarkCompleted(run.completedAt)], st) == Some(end)
    requires forall rename | rename in run.renames :: IsRenamedAsLocally(run, rename, st)
    ensures end.tables == st.tables && end.mapRows == st.mapRows
    ensures end.completedAt == run.completedAt && end.version == VALIDATION_VERSION
    ensures forall rename | rename in run.renames :: IsRenamedAsLocally(run, rename, end)
  {
    hide AsMap, CountNewValues, Passes, ChangedTables;
    var marks, last := [MarkValidated, MarkCompleted(run.completedAt)], [MarkCompleted(run.completedAt)];
    var validated := st.(version := VALIDATION_VERSION);
    assert marks[1..] == last && last[1..] == [];
    assert Execute(run.schema, last, validated) == Some(validated.(completedAt := run.completedAt));
    assert Execute(run.schema, marks, st) == Execute(run.schema, last, validated);
  }
}
