/** When the queries at the end of a plan pass: exactly when they hold of the local outcome, and when that is. */
module D1FinalChecks {
  import opened Wrappers
  import opened IdRegistry
  import opened IdMapTable
  import opened IdTables
  import opened IdMigration
  import opened JsonReferences
  import opened JsonAssertions
  import opened PlanChunks
  import opened D1Plan
  import opened D1Progress
  import opened D1Replay
  import opened D1Deletions
  import opened D1Refinement

  // The validations of a plan are its last statements before the markers.

  lemma {:induction false} ExactRowsIgnoreValidations(
    run: LocalRun, other: seq<Validation>, table: Table, column: Column, rows: seq<Row>)
    ensures ExactRows(run.(validations := other), table, column, rows) == ExactRows(run, table, column, rows)
  {
    if rows != [] {
      ExactRowsIgnoreValidations(run, other, table, column, rows[1..]);
    }
  }

  lemma {:induction false} ColumnsIgnoreValidations(
    run: LocalRun, other: seq<Validation>, rendering: Rendering, columns: seq<(Table, Column)>)
    ensures ExactStatements(run.(validations := other), rendering, columns) == ExactStatements(run, rendering, columns)
    ensures forall tc | tc in columns ::
      ColumnFits(run.(validations := other), rendering, tc.0, tc.1) <==> ColumnFits(run, rendering, tc.0, tc.1)
  {
    if columns != [] {
      ExactRowsIgnoreValidations(run, other, columns[0].0, columns[0].1, run.tables[columns[0].0]);
      ColumnsIgnoreValidations(run, other, rendering, columns[1..]);
    }
  }

  lemma {:induction false} RenamedChecksIgnoreValidations(run: LocalRun, other: seq<Validation>, renames: seq<Rename>)
    ensures RenamedChecks(run.(validations := other), renames) == RenamedChecks(run, renames)
  {
    if renames != [] {
      RenamedChecksIgnoreValidations(run, other, renames[1..]);
    }
  }

  lemma {:induction false} RowCountChecksIgnoreValidations(run: LocalRun, other: seq<Validation>, tables: seq<Table>)
    ensures RowCountChecks(run.(validations := other), tables) == RowCountChecks(run, tables)
  {
    if tables != [] {
      RowCountChecksIgnoreValidations(run, other, tables[1..]);
    }
  }

  lemma {:induction false} ValidationChecksConcatenate(a: seq<Validation>, b: seq<Validation>)
    ensures ValidationChecks(a + b) == ValidationChecks(a) + ValidationChecks(b)
  {
    if a == [] {
      assert a + b == b;
    } else {
      assert (a + b)[0] == a[0] && (a + b)[1..] == a[1..] + b;
      ValidationChecksConcatenate(a[1..], b);
    }
  }

  lemma {:induction false} CheckStatementsConcatenate(a: seq<Check>, b: seq<Check>)
    ensures CheckStatements(a + b) == CheckStatements(a) + CheckStatements(b)
  {
    if a == [] {
      assert a + b == b;
    } else {
      assert (a + b)[0] == a[0] && (a + b)[1..] == a[1..] + b;
      CheckStatementsConcatenate(a[1..], b);
    }
  }

  lemma MoreValidationsComeLast(run: LocalRun, rendering: Rendering, first: seq<Validation>, more: seq<Validation>)
    requires run.validations == first + more
    ensures WorkStatements(run, rendering) ==
      WorkStatements(run.(validations := first), rendering) + CheckStatements(ValidationChecks(more))
    ensures Plannable(run, rendering) <==> Plannable(run.(validations := first), rendering)
  {
    hide ExactStatements, ColumnFits, RenamedChecks, RowCountChecks, ValidationChecks, CheckStatements, InsertStatements,
      ReviewStatements, PreparationStatements, RenameStatements, CredentialStatements, ClearStatements, DropStatements, AsMap,
      CountNewValues, HasLegacyCreators, HasCredentials, Chunks;
    var less := run.(validations := first);
    ColumnsIgnoreValidations(run, first, rendering, run.embedded);
    RenamedChecksIgnoreValidations(run, first, run.renames);
    RowCountChecksIgnoreValidations(run, first, run.listed);
    ValidationChecksConcatenate(first, more);
    assert FinalChecks(run) == FinalChecks(less) + ValidationChecks(more);
    CheckStatementsConcatenate(FinalChecks(less), ValidationChecks(more));
    assert RewritingStatements(run, rendering) == RewritingStatements(less, rendering);
    assert MappingStatements(run, rendering) == MappingStatements(less, rendering);
  }

  /** Checks change nothing, and abort unless they all pass. */
  lemma {:induction false} ExecuteChecks(schema: Schema, validations: seq<Validation>, st: D1)
    requires Pending(st)
    ensures Execute(schema, CheckStatements(ValidationChecks(validations)), st) ==
      if forall v | v in validations :: Holds(v, st.tables) then Some(st) else None
  {
    hide Holds;
    if validations != [] {
      var checks := ValidationChecks(validations);
      assert CheckStatements(checks)[0] == Assert(Valid(validations[0]));
      assert CheckStatements(checks)[1..] == CheckStatements(ValidationChecks(validations[1..]));
      assert validations == [validations[0]] + validations[1..];
      ExecuteChecks(schema, validations[1..], st);
    }
  }

  lemma SameDataIsSymmetric(a: Tables, b: Tables)
    requires SameData(a, b)
    ensures SameData(b, a)
  {
    forall t ensures SameRows(b[t], a[t]) {
      assert SameRows(a[t], b[t]);
    }
  }

  lemma HoldsOfEither(validations: seq<Validation>, a: Tables, b: Tables)
    requires SameData(a, b)
    ensures (forall v | v in validations :: Holds(v, a)) <==> (forall v | v in validations :: Holds(v, b))
  {
    hide Holds, SameData;
    SameDataIsSymmetric(a, b);
    forall v | v in validations ensures Holds(v, a) <==> Holds(v, b) {
      if Holds(v, a) {
        ValidationCarriesOver(v, b, a);
      }
      if Holds(v, b) {
        ValidationCarriesOver(v, a, b);
      }
    }
  }

  lemma WorkedCopy(job: Job, rendering: Rendering) returns (worked: D1)
    requires GoodJob(job) && Plannable(job.run, rendering)
    ensures Execute(job.run.schema, WorkStatements(job.run, rendering), FreshCopy(job.original)) == Some(worked)
    ensures Pending(worked) && SameData(worked.tables, job.run.tables)
  {
    hide GoodJob, Leads, Progress, Plannable, WorkStatements, SafeRun, Staged, SameData, Execute;
    GoodJobsLead(job);
    LeadsToTheOutcome(job);
    GoodIsStaged(job);
    FreshCopyIsInProgress(job);
    worked := RunWork(job, rendering, FreshCopy(job.original));
    InProgress(job, worked);
  }

  /** A plan with further validations executes exactly if they hold of the local outcome. */
  lemma PlanExecutesExactlyIf(job: Job, run: LocalRun, rendering: Rendering, more: seq<Validation>)
    requires GoodJob(job) && Plannable(run, rendering)
    requires job.run == run.(validations := job.run.validations) && run.validations == job.run.validations + more
    ensures Execute(run.schema, PlanOf(run, rendering), FreshCopy(job.original)).Some?
      <==> forall v | v in more :: Holds(v, run.tables)
  {
    hide GoodJob, Plannable, WorkStatements, SameData, Execute, Holds;
    MoreValidationsComeLast(run, rendering, job.run.validations, more);
    var worked := WorkedCopy(job, rendering);
    var work, queries := WorkStatements(job.run, rendering), CheckStatements(ValidationChecks(more));
    var copy, markers := FreshCopy(job.original), [MarkValidated, MarkCompleted(run.completedAt)];
    ExecuteConcatenates(run.schema, work, queries, copy);
    ExecuteChecks(run.schema, more, worked);
    HoldsOfEither(more, worked.tables, run.tables);
    ExecuteConcatenates(run.schema, work + queries, markers, copy);
    MarkersComplete(run.schema, run.completedAt, worked);
  }

  // When the queries over JSON documents hold.

  predicate IsKindQuery(schema: Schema, source: Source, kinds: seq<Kind>, v: Validation) {
    && v.JsonNodes? && (v.table, v.column) == source
    && (v.check.FormatOf? || (v.check.TargetOf? && !JsonAllowsDangling(source.0)))
    && v.check.kind in kinds && schema.HasColumn(PrimaryTable(v.check.kind), PrimaryColumn(v.check.kind))
  }

  lemma {:induction false} KindQueriesLookByKey(schema: Schema, source: Source, kinds: seq<Kind>, v: Validation)
    requires v in KindQueries(schema, source, kinds)
    ensures IsKindQuery(schema, source, kinds, v)
  {
    hide ReferenceKeys;
    if v in KindQueries(schema, source, kinds[1..]) {
      KindQueriesLookByKey(schema, source, kinds[1..], v);
    }
  }

  predicate IsEventIdQuery(v: Validation) {
    v.JsonNodes? && (v.table, v.column) == EVENTS_SOURCE && (v.check.EventIdFormat? || v.check.EventIdTarget?)
  }

  lemma {:induction false} DocumentQueriesAre(schema: Schema, columns: seq<Source>, v: Validation) returns (source: Source)
    requires v in DocumentQueries(schema, columns)
    ensures source in columns && schema.HasColumn(source.0, source.1)
    ensures v == JsonValid(source.0, source.1) || IsKindQuery(schema, source, VALUE_KINDS, v)
      || (IsEventIdQuery(v) && source == EVENTS_SOURCE)
  {
    hide IsKindQuery;
    if v in DocumentQueries(schema, columns[1..]) {
      source := DocumentQueriesAre(schema, columns[1..], v);
    } else {
      source := columns[0];
      if v in KindQueries(schema, source, VALUE_KINDS) {
        KindQueriesLookByKey(schema, source, VALUE_KINDS, v);
      }
    }
  }

  lemma {:induction false} EventIdsAreQueried(schema: Schema, columns: seq<Source>)
    requires EVENTS_SOURCE in columns && schema.HasColumn(DOWNLOAD_TASKS, EVENTS)
    ensures JsonNodes(EventIdFormat, DOWNLOAD_TASKS, EVENTS) in DocumentQueries(schema, columns)
    ensures JsonNodes(EventIdTarget, DOWNLOAD_TASKS, EVENTS) in DocumentQueries(schema, columns)
  {
    if columns[0] != EVENTS_SOURCE {
      EventIdsAreQueried(schema, columns[1..]);
    }
  }

  /** A document the local validation accepts passes every query by key. */
  lemma KindQueryHolds(schema: Schema, tables: Tables, source: Source, v: Validation)
    requires DocumentsAreClean(schema, VALUE_KINDS, tables) && source in JSON_COLUMNS && schema.HasColumn(source.0, source.1)
    requires IsKindQuery(schema, source, VALUE_KINDS, v)
    ensures Holds(v, tables)
  {
    hide Collect, DocumentResolves, TreePasses;
    forall row | row in tables[source.0] ensures RowIsWellFormed(v, tables, row) {
      assert JsonScanIsEmpty(schema, v.check.kind, tables);
      assert ScanIsEmpty(schema, v.check.kind, source, row) && DocumentIsSound(schema, tables, source, row);
      var cell := Field(row, source.1);
      if cell.Doc? {
        CleanTreePasses(v.check, schema, tables, source, cell.tree, "", NoKey, NoKey);
      }
    }
  }

  lemma EventsAreDocuments()
    ensures EVENTS_SOURCE in JSON_COLUMNS && !JsonAllowsDangling(DOWNLOAD_TASKS) && RowId(DOWNLOAD_TASKS) in VALUE_KINDS
  {
    assert JSON_COLUMNS[5] == EVENTS_SOURCE;
    assert VALUE_KINDS[8] == RowId(DOWNLOAD_TASKS);
  }

  lemma EventIdsOfRow(schema: Schema, tables: Tables, row: Row)
    requires DocumentsAreClean(schema, VALUE_KINDS, tables) && row in tables[DOWNLOAD_TASKS]
    requires schema.HasColumn(DOWNLOAD_TASKS, EVENTS) && schema.HasColumn(DOWNLOAD_TASKS, ID)
    ensures var cell := Field(row, EVENTS);
      (DocumentPasses(EventIdFormat, tables, EVENTS_SOURCE, cell) && DocumentPasses(EventIdTarget, tables, EVENTS_SOURCE, cell))
      <==> DocumentPasses(OddEventId, tables, EVENTS_SOURCE, cell)
  {
    hide Collect, DocumentResolves, TreePasses;
    EventsAreDocuments();
    assert JsonScanIsEmpty(schema, RowId(DOWNLOAD_TASKS), tables);
    assert ScanIsEmpty(schema, RowId(DOWNLOAD_TASKS), EVENTS_SOURCE, row);
    assert DocumentIsSound(schema, tables, EVENTS_SOURCE, row);
    if Field(row, EVENTS).Doc? {
      EventIdQueries(schema, tables, Field(row, EVENTS).tree, "", NoKey, NoKey);
    }
  }

  lemma EventIdQueriesHold(schema: Schema, tables: Tables)
    requires DocumentsAreClean(schema, VALUE_KINDS, tables)
    requires schema.HasColumn(DOWNLOAD_TASKS, EVENTS) && schema.HasColumn(DOWNLOAD_TASKS, ID)
    ensures
      (Holds(JsonNodes(EventIdFormat, DOWNLOAD_TASKS, EVENTS), tables)
       && Holds(JsonNodes(EventIdTarget, DOWNLOAD_TASKS, EVENTS), tables))
      <==> OddEventIdsAreSound(schema, tables)
  {
    hide DocumentPasses, DocumentsAreClean;
    var format, target := JsonNodes(EventIdFormat, DOWNLOAD_TASKS, EVENTS), JsonNodes(EventIdTarget, DOWNLOAD_TASKS, EVENTS);
    forall row | row in tables[DOWNLOAD_TASKS]
      ensures (RowIsWellFormed(format, tables, row) && RowIsWellFormed(target, tables, row))
        <==> DocumentPasses(OddEventId, tables, EVENTS_SOURCE, Field(row, EVENTS))
    {
      EventIdsOfRow(schema, tables, row);
    }
  }

  lemma NoOddEventIds(schema: Schema, tables: Tables)
    requires !schema.HasColumn(DOWNLOAD_TASKS, EVENTS)
    ensures OddEventIdsAreSound(schema, tables)
  {
  }

  lemma ValidDocuments(schema: Schema, tables: Tables, source: Source)
    requires DocumentsAreClean(schema, VALUE_KINDS, tables) && source in JSON_COLUMNS && schema.HasColumn(source.0, source.1)
    ensures Holds(JsonValid(source.0, source.1), tables)
  {
    forall row | row in tables[source.0] ensures RowIsWellFormed(JsonValid(source.0, source.1), tables, row) {
      assert DocumentIsSound(schema, tables, source, row);
    }
  }

  lemma DocumentQueryHolds(schema: Schema, tables: Tables, v: Validation)
    requires DocumentsAreClean(schema, VALUE_KINDS, tables) && v in DocumentQueries(schema, JSON_COLUMNS)
    requires IsEventIdQuery(v) ==> Holds(v, tables)
    ensures Holds(v, tables)
  {
    hide DocumentsAreClean, DocumentQueries, IsKindQuery, IsEventIdQuery, Holds;
    var source := DocumentQueriesAre(schema, JSON_COLUMNS, v);
    if v == JsonValid(source.0, source.1) {
      ValidDocuments(schema, tables, source);
    } else if IsKindQuery(schema, source, VALUE_KINDS, v) {
      KindQueryHolds(schema, tables, source, v);
    }
  }

  lemma TwoEventIdQueries(v: Validation)
    requires IsEventIdQuery(v)
    ensures v == JsonNodes(EventIdFormat, DOWNLOAD_TASKS, EVENTS) || v == JsonNodes(EventIdTarget, DOWNLOAD_TASKS, EVENTS)
  {
  }

  lemma QueriedColumnExists(schema: Schema, v: Validation)
    requires v in DocumentQueries(schema, JSON_COLUMNS) && IsEventIdQuery(v)
    ensures schema.HasColumn(DOWNLOAD_TASKS, EVENTS)
  {
    hide DocumentQueries;
    var source := DocumentQueriesAre(schema, JSON_COLUMNS, v);
  }

  /**
   * After the local validation the plan's queries over documents hold exactly if the event ids that only the plan takes
   * for opening ones, because it ignores letter case, name existing tasks.
   */
  lemma DocumentQueriesHold(schema: Schema, tables: Tables)
    requires DocumentsAreClean(schema, VALUE_KINDS, tables)
    requires schema.HasColumn(DOWNLOAD_TASKS, EVENTS) ==> schema.HasColumn(DOWNLOAD_TASKS, ID)
    ensures (forall v | v in DocumentQueries(schema, JSON_COLUMNS) :: Holds(v, tables))
      <==> OddEventIdsAreSound(schema, tables)
  {
    hide DocumentsAreClean, OddEventIdsAreSound, DocumentQueries, IsEventIdQuery, Holds;
    EventsAreDocuments();
    if schema.HasColumn(DOWNLOAD_TASKS, EVENTS) {
      EventIdQueriesHold(schema, tables);
      EventIdsAreQueried(schema, JSON_COLUMNS);
    } else {
      NoOddEventIds(schema, tables);
    }
    forall v | v in DocumentQueries(schema, JSON_COLUMNS) && OddEventIdsAreSound(schema, tables) ensures Holds(v, tables) {
      if IsEventIdQuery(v) {
        TwoEventIdQueries(v);
        QueriedColumnExists(schema, v);
      }
      DocumentQueryHolds(schema, tables, v);
    }
  }
}
