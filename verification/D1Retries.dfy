/**
 * When retries are safe: exactly when resolving the legacy creators a second time, before they are renamed, would lead
 * to the same users.
 */
module D1Retries {
  import opened Wrappers
  import opened Text
  import opened IdRegistry
  import opened IdValues
  import opened IdMapTable
  import opened IdTables
  import opened IdMigration
  import opened IdValidation
  import opened D1Plan
  import opened D1Progress
  import opened D1Replay
  import opened D1Deletions
  import opened D1Refinement
  import opened LocalOutcome

  const CREATORS: (Table, Column) := (DOWNLOAD_TASKS, CREATED_BY_USER_ID)

  /** A resolved owner that itself reads like an API key names no key, or one whose owner gets the same new id. */
  ghost predicate ResolvedOwnerIsFinal(m: IdMap, keys: seq<Row>, owner: Cell) {
    NamesApiKey(owner) ==>
      var next := OwnerOfApiKey(keys, owner.text[8..]);
      next.Some? ==> RenamedCell(m, RowId(USER), next.value) == RenamedCell(m, RowId(USER), owner)
  }

  ghost predicate ResolvedOwnersAreFinal(schema: Schema, m: IdMap, tables: Tables) {
    HasLegacyCreators(schema) ==>
      forall row | row in ResolveLegacyCreators(tables)[DOWNLOAD_TASKS] ::
        ResolvedOwnerIsFinal(m, tables[API_KEY], Field(row, CREATED_BY_USER_ID))
  }

  lemma KeyText(id: string)
    ensures NamesApiKey(Text("api-key:" + id)) && ("api-key:" + id)[8..] == id
  {
    assert ("api-key:" + id)[..8] == "api-key:";
    assert Lower("api-key:") == API_KEY_PREFIX;
  }

  lemma OwnerOfTwo(first: Row, second: Row, a: string, b: string)
    requires a != b && Field(first, ID) == Text(a) && Field(second, ID) == Text(b)
    ensures OwnerOfApiKey([first, second], a) == Some(Field(first, REFERENCE_ID))
    ensures OwnerOfApiKey([first, second], b) == Some(Field(second, REFERENCE_ID))
  {
    assert [first, second][1..] == [second];
  }

  /** It can fail: the owner of key k1 is the user "api-key:k2", and key k2 exists. */
  lemma ChainedOwnersAreNotFinal(schema: Schema, tables: Tables, m: IdMap, newId: string)
    requires HasLegacyCreators(schema) && MappedValueIsValid(RowId(USER), newId) && newId != "u"
    requires tables[DOWNLOAD_TASKS] == [map[CREATED_BY_USER_ID := Text("api-key:" + "k1")]]
    requires tables[API_KEY] == [
      map[ID := Text("k1"), REFERENCE_ID := Text("api-key:" + "k2")], map[ID := Text("k2"), REFERENCE_ID := Text("u")]]
    requires m == map[(RowId(USER), "api-key:" + "k2") := newId]
    ensures WellFormedMap(m) && !ResolvedOwnersAreFinal(schema, m, tables)
  {
    hide NamesApiKey, OwnerOfApiKey;
    KeyText("k1");
    KeyText("k2");
    OwnerOfTwo(tables[API_KEY][0], tables[API_KEY][1], "k1", "k2");
    var row := ResolveLegacyCreators(tables)[DOWNLOAD_TASKS][0];
    NamedIsItsOwner(tables[API_KEY], tables[DOWNLOAD_TASKS][0], Text("api-key:" + "k2"));
    assert row in ResolveLegacyCreators(tables)[DOWNLOAD_TASKS];
    assert Field(row, CREATED_BY_USER_ID) == Text("api-key:" + "k2");
    assert !IsBase62Char(("api-key:" + "k2")[3]);
    assert !ResolvedOwnerIsFinal(m, tables[API_KEY], Field(row, CREATED_BY_USER_ID));
  }

  // If so, retries converge.

  lemma {:induction false} FirstKeyOwns(keys: seq<Row>, id: string, j: nat)
    requires IsFirstKey(keys, id, j)
    ensures OwnerOfApiKey(keys, id) == Some(Field(keys[j], REFERENCE_ID))
  {
    if j > 0 {
      assert Field(keys[0], ID) != Text(id);
      assert IsFirstKey(keys[1..], id, j - 1) by {
        forall k | 0 <= k < j - 1 ensures Field(keys[1..][k], ID) != Text(id) {
          assert keys[1..][k] == keys[k + 1];
        }
      }
      FirstKeyOwns(keys[1..], id, j - 1);
    }
  }

  /** Two values with one image are equal, or the second is the image. */
  lemma SameImage(m: IdMap, kind: Kind, a: Cell, b: Cell)
    requires NewValuesDistinct(m) && RenamedCell(m, kind, a) == RenamedCell(m, kind, b) && RenamedCell(m, kind, a) != a
    ensures b == a || b == RenamedCell(m, kind, a)
  {
  }

  /** Both legacy columns hold users, and the goal of each is the new id. */
  lemma LegacyGoals(job: Job, table: Table, column: Column, i: nat)
    requires GoodJob(job) && VisitsTheRegistry(job.run) && HasLegacyCreators(job.run.schema)
    requires (table, column) == CREATORS || (table, column) == (API_KEY, REFERENCE_ID)
    requires i < |job.prepared[table]|
    ensures At(job.goal, table, i, column) == RenamedCell(job.ids, RowId(USER), At(job.prepared, table, i, column))
  {
    hide GoodJob, GoodColumns, RenameList, CreatorsComeFirst, Staged, WellFormedMap, KeptOutcome, References, HoldsEmbedded;
    LegacyColumnIsRenamed(job.run.schema, table, column);
    var r :| r in job.run.renames && r.table == table && r.column == column;
    RenameListIsOwned(job.run.schema, VALUE_KINDS);
    GoodJobHasGoals(job);
    assert RenameLeads(job, r, i);
  }

  lemma GoodJobHasGoals(job: Job)
    requires GoodJob(job)
    ensures RenamesLead(job)
  {
    hide Staged, WellFormedMap, GoodColumns, KeptOutcome, RenamesLead, Holds, DistinctKeys, DistinctPrimaryKeys;
    StagesLead(job);
  }

  lemma LegacyColumnIsRenamed(schema: Schema, table: Table, column: Column)
    requires HasLegacyCreators(schema)
    requires (table, column) == CREATORS || (table, column) == (API_KEY, REFERENCE_ID)
    ensures IsRenamed(RenameList(schema, VALUE_KINDS), table, column)
    ensures Owner(table, column) == Some(RowId(USER))
  {
    hide RenameList;
    assert VALUE_KINDS[0] == RowId(USER);
    if (table, column) == CREATORS {
      CreatorIsUserReference();
      TargetIsRenamed(schema, VALUE_KINDS, RowId(USER), Historical(DOWNLOAD_TASKS, CREATED_BY_USER_ID));
    } else {
      KeyOwnerIsUserReference();
      TargetIsRenamed(schema, VALUE_KINDS, RowId(USER), Live(API_KEY, REFERENCE_ID));
    }
  }

  lemma KeyOwnerIsUserReference()
    ensures Live(API_KEY, REFERENCE_ID) in Targets(RowId(USER))
  {
    assert References(RowId(USER))[2] == Live(API_KEY, REFERENCE_ID);
    assert Targets(RowId(USER))[3] == Live(API_KEY, REFERENCE_ID);
  }

  lemma PreparedCreators(job: Job)
    requires Staged(job) && HasLegacyCreators(job.run.schema)
    ensures job.prepared[DOWNLOAD_TASKS] == ResolveLegacyCreators(job.original)[DOWNLOAD_TASKS]
    ensures SameExceptMoving(job.original, job.prepared)
  {
    hide ResolveLegacyCreators, SameExceptMoving, PreparedTables;
    PreparedShape(job.run.schema, job.original);
  }

  lemma FinalOwnerIsStable(job: Job, i: nat)
    requires GoodJob(job) && VisitsTheRegistry(job.run) && HasLegacyCreators(job.run.schema) && NewValuesDistinct(job.ids)
    requires i < |job.original[DOWNLOAD_TASKS]| && CreatorLeads(job, i)
    requires SameExceptMoving(job.original, job.prepared)
    requires ResolvedOwnerIsFinal(job.ids, job.original[API_KEY], At(job.prepared, DOWNLOAD_TASKS, i, CREATED_BY_USER_ID))
    ensures IsStable(job, i)
  {
    hide GoodJob, VisitsTheRegistry, HasLegacyCreators, NewValuesDistinct, RenamedCell, NamesApiKey;
    var owner := At(job.prepared, DOWNLOAD_TASKS, i, CREATED_BY_USER_ID);
    LegacyGoals(job, DOWNLOAD_TASKS, CREATED_BY_USER_ID, i);
    forall j: nat | NamesApiKey(owner) && IsFirstKey(job.original[API_KEY], NamedKey(owner), j)
      ensures var next := At(job.prepared, API_KEY, j, REFERENCE_ID);
        && next == At(job.original, API_KEY, j, REFERENCE_ID)
        && At(job.goal, API_KEY, j, REFERENCE_ID) == At(job.goal, DOWNLOAD_TASKS, i, CREATED_BY_USER_ID)
        && (next == owner || next == At(job.goal, DOWNLOAD_TASKS, i, CREATED_BY_USER_ID))
    {
      FirstKeyOwns(job.original[API_KEY], NamedKey(owner), j);
      LegacyGoals(job, API_KEY, REFERENCE_ID, j);
      SameImage(job.ids, RowId(USER), owner, At(job.prepared, API_KEY, j, REFERENCE_ID));
    }
  }

  /** The id behind the prefix. */
  function NamedKey(cell: Cell): string
    requires NamesApiKey(cell)
  {
    cell.text[8..]
  }

  lemma FinalOwnersAreStable(job: Job)
    requires GoodJob(job) && VisitsTheRegistry(job.run) && NewValuesDistinct(job.ids)
    requires ResolvedOwnersAreFinal(job.run.schema, job.ids, job.original)
    ensures OwnersAreStable(job)
  {
    hide GoodJob, VisitsTheRegistry, HasLegacyCreators, NewValuesDistinct, ResolvedOwnerIsFinal, IsStable, Staged,
      ResolveLegacyCreators, SameExceptMoving, CreatorLeads;
    if HasLegacyCreators(job.run.schema) {
      GoodIsStaged(job);
      PreparedCreators(job);
      PreparationsLead(job);
      forall i: nat | i < |job.original[DOWNLOAD_TASKS]| ensures IsStable(job, i) {
        ShapedPrepared(job, i);
        assert job.prepared[DOWNLOAD_TASKS][i] in job.prepared[DOWNLOAD_TASKS];
        FinalOwnerIsStable(job, i);
      }
    }
  }

  lemma ShapedPrepared(job: Job, i: nat)
    requires Shaped(job) && i < |job.original[DOWNLOAD_TASKS]|
    ensures i < |job.prepared[DOWNLOAD_TASKS]|
  {
  }

  // If not, some retry diverges.

  /** The creator of task `i` is the same in both. */
  predicate SameCreator(i: nat, a: Tables, b: Tables) {
    |a[DOWNLOAD_TASKS]| == |b[DOWNLOAD_TASKS]|
    && At(a, DOWNLOAD_TASKS, i, CREATED_BY_USER_ID) == At(b, DOWNLOAD_TASKS, i, CREATED_BY_USER_ID)
  }

  /** A statement that leaves creators and the map alone. */
  predicate IsQuiet(s: Statement) {
    && !s.ResolveCreators? && !s.InsertMappings?
    && (s.RenameTarget? ==> (s.rename.table, s.rename.column) != CREATORS)
    && (s.ApplyExact? ==> (s.table, s.column) != CREATORS)
    && (s.Clear? ==> s.table != DOWNLOAD_TASKS)
  }

  predicate AllQuiet(plan: seq<Statement>) {
    forall s | s in plan :: IsQuiet(s)
  }

  lemma QuietChange(schema: Schema, s: Statement, st: D1, i: nat)
    requires IsQuiet(s)
    ensures SameCreator(i, st.tables, ChangedTables(schema, s, st))
  {
    hide KeyOf, RenamedCell, DropRegistered, CredentialRow, EventKeyRow;
    match s {
      case RenameTarget(r) =>
        forall row ensures forall c | c != r.column :: Field(RenamedRow(AsMap(st.mapRows), r.kind, r.column, row), c) == Field(row, c) {
          RenamedRowField(AsMap(st.mapRows), r.kind, r.column, row);
        }
      case _ =>
    }
  }

  lemma QuietStep(schema: Schema, s: Statement, st: D1, next: D1, i: nat)
    requires IsQuiet(s) && Step(schema, s, st) == Some(next)
    ensures SameCreator(i, st.tables, next.tables) && next.mapRows == st.mapRows
    ensures !s.MarkCompleted? ==> next.completedAt == st.completedAt
  {
    hide Passes, ChangedTables, SameCreator;
    QuietChange(schema, s, st, i);
    SameCreatorReflexive(i, st.tables);
  }

  lemma SameCreatorReflexive(i: nat, tables: Tables)
    ensures SameCreator(i, tables, tables)
  {
  }

  lemma {:induction false} QuietRun(schema: Schema, plan: seq<Statement>, st: D1, end: D1, i: nat)
    requires AllQuiet(plan) && Execute(schema, plan, st) == Some(end)
    ensures SameCreator(i, st.tables, end.tables) && end.mapRows == st.mapRows
    ensures NoMarkers(plan) ==> end.completedAt == st.completedAt
    decreases |plan|
  {
    hide Step, IsQuiet;
    if plan != [] {
      assert plan[0] in plan;
      var next := Step(schema, plan[0], st).value;
      QuietStep(schema, plan[0], st, next, i);
      assert forall s | s in plan[1..] :: s in plan;
      QuietRun(schema, plan[1..], next, end, i);
    }
  }

  /** Renaming every target brings each creator to its new id. */
  lemma {:induction false} RenamesOnCreators(schema: Schema, renames: seq<Rename>, st: D1, end: D1, i: nat)
    requires Pending(st) && Execute(schema, RenameStatements(renames), st) == Some(end) && OwnedRenames(renames)
    requires WellFormedMap(AsMap(st.mapRows))
    ensures end.mapRows == st.mapRows && |end.tables[DOWNLOAD_TASKS]| == |st.tables[DOWNLOAD_TASKS]|
    ensures var before := At(st.tables, DOWNLOAD_TASKS, i, CREATED_BY_USER_ID);
      At(end.tables, DOWNLOAD_TASKS, i, CREATED_BY_USER_ID) ==
        if IsRenamed(renames, DOWNLOAD_TASKS, CREATED_BY_USER_ID)
        then RenamedCell(AsMap(st.mapRows), RowId(USER), before) else before
    decreases |renames|
  {
    hide WellFormedMap, AsMap, RenamedCell, RenameColumn, Step, At, OwnedRenames, IsRenamed, Owner;
    if renames == [] {
      NothingIsRenamed(DOWNLOAD_TASKS, CREATED_BY_USER_ID);
    } else {
      var r := renames[0];
      var next := st.(tables := RenameColumn(AsMap(st.mapRows), r.kind, r.table, r.column, st.tables));
      FirstRenameIsExecuted(schema, renames, st);
      OneRenameOnCreators(AsMap(st.mapRows), r, st.tables, i);
      FirstIsOwned(renames);
      RenamesOnCreators(schema, renames[1..], next, end, i);
      RenamedFirstOrLater(renames, DOWNLOAD_TASKS, CREATED_BY_USER_ID);
      RenamedTwice(AsMap(st.mapRows), RowId(USER), At(st.tables, DOWNLOAD_TASKS, i, CREATED_BY_USER_ID));
    }
  }

  lemma NothingIsRenamed(table: Table, column: Column)
    ensures !IsRenamed([], table, column)
  {
  }

  lemma FirstRenameIsExecuted(schema: Schema, renames: seq<Rename>, st: D1)
    requires Pending(st) && renames != []
    ensures Execute(schema, RenameStatements(renames), st) ==
      Execute(schema, RenameStatements(renames[1..]),
        st.(tables := RenameColumn(AsMap(st.mapRows), renames[0].kind, renames[0].table, renames[0].column, st.tables)))
  {
    hide Step, RenameColumn, AsMap;
    var plan := RenameStatements(renames);
    assert plan[0] == RenameTarget(renames[0]) && plan[1..] == RenameStatements(renames[1..]);
    RenameStep(schema, renames[0], st);
  }

  lemma FirstIsOwned(renames: seq<Rename>)
    requires renames != [] && OwnedRenames(renames)
    ensures OwnedRenames(renames[1..])
    ensures (renames[0].table, renames[0].column) == CREATORS ==> renames[0].kind == RowId(USER)
  {
    assert Owner(DOWNLOAD_TASKS, CREATED_BY_USER_ID) == Some(RowId(USER));
  }

  lemma RenamedFirstOrLater(renames: seq<Rename>, table: Table, column: Column)
    requires renames != []
    ensures IsRenamed(renames, table, column) <==>
      (renames[0].table, renames[0].column) == (table, column) || IsRenamed(renames[1..], table, column)
  {
    assert renames == [renames[0]] + renames[1..];
  }

  lemma RenamedTwice(m: IdMap, kind: Kind, cell: Cell)
    requires WellFormedMap(m)
    ensures RenamedCell(m, kind, RenamedCell(m, kind, cell)) == RenamedCell(m, kind, cell)
  {
    RenamedCellIsSettled(m, kind, cell);
  }

  lemma OneRenameOnCreators(m: IdMap, r: Rename, tables: Tables, i: nat)
    ensures var after := RenameColumn(m, r.kind, r.table, r.column, tables);
      && |after[DOWNLOAD_TASKS]| == |tables[DOWNLOAD_TASKS]|
      && At(after, DOWNLOAD_TASKS, i, CREATED_BY_USER_ID) ==
        if (r.table, r.column) == CREATORS then RenamedCell(m, r.kind, At(tables, DOWNLOAD_TASKS, i, CREATED_BY_USER_ID))
        else At(tables, DOWNLOAD_TASKS, i, CREATED_BY_USER_ID)
  {
    if i < |tables[DOWNLOAD_TASKS]| {
      RenamedRowField(m, r.kind, r.column, tables[DOWNLOAD_TASKS][i]);
    }
  }

  lemma {:induction false} StagingIsQuiet(table: Table, column: Column, chunks: seq<seq<(seq<Cell>, Cell)>>)
    ensures AllQuiet(StageStatements(table, column, chunks))
  {
    if chunks != [] {
      StagingIsQuiet(table, column, chunks[1..]);
    }
  }

  lemma {:induction false} ExactValuesAreQuiet(run: LocalRun, rendering: Rendering, columns: seq<(Table, Column)>)
    requires CREATORS !in columns
    ensures AllQuiet(ExactStatements(run, rendering, columns))
  {
    if columns != [] {
      StagingIsQuiet(columns[0].0, columns[0].1, ExactChunks(run, rendering, columns[0].0, columns[0].1));
      ExactValuesAreQuiet(run, rendering, columns[1..]);
    }
  }

  lemma {:induction false} CredentialsAreQuiet(rows: seq<Row>)
    ensures AllQuiet(CredentialStatements(rows))
  {
    if rows != [] {
      CredentialsAreQuiet(rows[1..]);
    }
  }

  lemma {:induction false} ClearsAreQuiet(tables: seq<Table>)
    requires DOWNLOAD_TASKS !in tables
    ensures AllQuiet(ClearStatements(tables))
  {
    if tables != [] {
      ClearsAreQuiet(tables[1..]);
    }
  }

  lemma {:induction false} ChecksAreQuiet(checks: seq<Check>)
    ensures AllQuiet(CheckStatements(checks))
  {
    if checks != [] {
      ChecksAreQuiet(checks[1..]);
    }
  }

  /** Everything after the renames. */
  function LateStatements(run: LocalRun, rendering: Rendering): seq<Statement> {
    ExactStatements(run, rendering, run.embedded) + RevocationStatements(run)
    + FinishingStatements(run) + [MarkValidated, MarkCompleted(run.completedAt)]
  }

  lemma LateStatementsAreQuiet(run: LocalRun, rendering: Rendering)
    requires CREATORS !in run.embedded && DOWNLOAD_TASKS !in run.emptied
    ensures AllQuiet(LateStatements(run, rendering))
  {
    hide ExactStatements, RevocationStatements, FinishingStatements;
    ExactValuesAreQuiet(run, rendering, run.embedded);
    RevocationIsQuiet(run);
    FinishingIsQuiet(run);
  }

  lemma RevocationIsQuiet(run: LocalRun)
    ensures AllQuiet(RevocationStatements(run))
  {
    hide CredentialStatements;
    CredentialsAreQuiet(run.tables[DOWNLOADERS]);
  }

  lemma FinishingIsQuiet(run: LocalRun)
    requires DOWNLOAD_TASKS !in run.emptied
    ensures AllQuiet(FinishingStatements(run))
  {
    hide ClearStatements, CheckStatements, FinalChecks;
    ClearsAreQuiet(run.emptied);
    ChecksAreQuiet(FinalChecks(run));
  }

  lemma PlanInParts(run: LocalRun, rendering: Rendering)
    requires HasLegacyCreators(run.schema)
    ensures PlanOf(run, rendering) ==
      MappingStatements(run, rendering) + [ResolveCreators]
      + (FillingStatements(run.schema) + (RenameStatements(run.renames) + LateStatements(run, rendering)))
  {
    hide MappingStatements, FillingStatements, RenameStatements, ExactStatements, RevocationStatements, FinishingStatements;
  }

  /** Whatever owner a creator has before the key updates, it ends as that owner's new id. */
  lemma RestOfPlanRenamesCreators(job: Job, rendering: Rendering, st: D1, end: D1, i: nat)
    requires GoodJob(job) && VisitsTheRegistry(job.run) && HasLegacyCreators(job.run.schema)
    requires Pending(st) && AsMap(st.mapRows) == job.ids
    requires Execute(job.run.schema,
      FillingStatements(job.run.schema) + (RenameStatements(job.run.renames) + LateStatements(job.run, rendering)), st)
      == Some(end)
    ensures At(end.tables, DOWNLOAD_TASKS, i, CREATED_BY_USER_ID) ==
      RenamedCell(job.ids, RowId(USER), At(st.tables, DOWNLOAD_TASKS, i, CREATED_BY_USER_ID))
  {
    hide GoodJob, VisitsTheRegistry, Execute, FillingStatements, RenameStatements, LateStatements, AsMap, RenamedCell,
      WellFormedMap, OwnedRenames;
    var schema := job.run.schema;
    var filling, renaming, late := FillingStatements(schema), RenameStatements(job.run.renames), LateStatements(job.run, rendering);
    CreatorsAreSeparate(job);
    ExecuteConcatenates(schema, filling, renaming + late, st);
    var filled := Execute(schema, filling, st).value;
    FillingIsQuiet(schema);
    QuietRun(schema, filling, st, filled, i);
    ExecuteConcatenates(schema, renaming, late, filled);
    var renamed := Execute(schema, renaming, filled).value;
    RenamesOnCreators(schema, job.run.renames, filled, renamed, i);
    LateStatementsAreQuiet(job.run, rendering);
    QuietRun(schema, late, renamed, end, i);
  }

  lemma FillingIsQuiet(schema: Schema)
    ensures AllQuiet(FillingStatements(schema)) && NoMarkers(FillingStatements(schema))
  {
  }

  lemma CreatorsAreSeparate(job: Job)
    requires GoodJob(job) && VisitsTheRegistry(job.run) && HasLegacyCreators(job.run.schema)
    ensures CREATORS !in job.run.embedded && DOWNLOAD_TASKS !in job.run.emptied
    ensures OwnedRenames(job.run.renames) && WellFormedMap(job.ids)
    ensures IsRenamed(job.run.renames, DOWNLOAD_TASKS, CREATED_BY_USER_ID)
  {
    hide Staged, WellFormedMap, OwnedRenames, KeptOutcome, Holds, DistinctKeys, DistinctPrimaryKeys, RenameList, HoldsEmbedded;
    LegacyColumnIsRenamed(job.run.schema, DOWNLOAD_TASKS, CREATED_BY_USER_ID);
    if DOWNLOAD_TASKS in INVALIDATED_TABLES {
      InvalidatedTablesAreNotKept(DOWNLOAD_TASKS);
      TasksAreKept();
    }
  }

  lemma TasksAreKept()
    ensures Kept(DOWNLOAD_TASKS) && Kept(API_KEY)
  {
  }

  lemma ResolveStep(schema: Schema, st: D1)
    requires Pending(st)
    ensures Execute(schema, [ResolveCreators], st) == Some(st.(tables := ResolveLegacyCreators(st.tables)))
  {
    hide Step;
    PreparingSteps(schema, st);
    assert [ResolveCreators][1..] == [];
  }

  /** An attempt that stops right after the creators have been resolved. */
  function ResolvedCopy(job: Job): D1 {
    D1(ResolveLegacyCreators(job.original), job.run.mapRows, map[], "", "")
  }

  lemma StoppedAfterResolving(job: Job, rendering: Rendering)
    requires GoodJob(job) && Plannable(job.run, rendering) && HasLegacyCreators(job.run.schema)
    ensures var stop := MappingStatements(job.run, rendering) + [ResolveCreators];
      Execute(job.run.schema, stop, FreshCopy(job.original)) == Some(ResolvedCopy(job))
    ensures Progress(job, ResolvedCopy(job))
  {
    hide GoodJob, Leads, Progress, Plannable, MappingStatements, Staged, Execute, ResolveLegacyCreators, TablesProgress,
      Resolvable, SafeRun, DistinctKeys, PreparationLeads, Shaped;
    var copy := FreshCopy(job.original);
    GoodIsStaged(job);
    FreshCopyIsInProgress(job);
    FreshCopyIsResolvable(job);
    PreparationsLead(job);
    GoodJobHasDistinctKeys(job);
    var mapped := RunMapping(job, rendering, copy);
    InProgress(job, mapped);
    ResolveStep(job.run.schema, mapped);
    ExecuteConcatenates(job.run.schema, MappingStatements(job.run, rendering), [ResolveCreators], copy);
    ResolvingMakesProgress(job, job.original);
    ProgressGoesOn(job, mapped, ResolveLegacyCreators(job.original));
    assert mapped.(tables := ResolveLegacyCreators(job.original)) == ResolvedCopy(job);
  }

  lemma GoodJobHasDistinctKeys(job: Job)
    requires GoodJob(job)
    ensures DistinctKeys(job.run.mapRows)
  {
  }

  /** The second resolution of an owner that names a key. */
  lemma ResolvedAgain(tables: Tables, i: nat, owner: Cell, next: Cell)
    requires i < |tables[DOWNLOAD_TASKS]| && NamesApiKey(owner) && OwnerOfApiKey(tables[API_KEY], owner.text[8..]) == Some(next)
    requires At(ResolveLegacyCreators(tables), DOWNLOAD_TASKS, i, CREATED_BY_USER_ID) == owner
    ensures At(ResolveLegacyCreators(ResolveLegacyCreators(tables)), DOWNLOAD_TASKS, i, CREATED_BY_USER_ID) == next
  {
    var once := ResolveLegacyCreators(tables);
    NamedIsItsOwner(once[API_KEY], once[DOWNLOAD_TASKS][i], next);
  }

  /** A retry of the whole plan after that stop takes the creator to the owner of the key its owner names. */
  lemma RetryEndsElsewhere(job: Job, rendering: Rendering, i: nat, owner: Cell, next: Cell, end: D1)
    requires GoodJob(job) && VisitsTheRegistry(job.run) && Plannable(job.run, rendering) && HasLegacyCreators(job.run.schema)
    requires i < |job.original[DOWNLOAD_TASKS]| && NamesApiKey(owner)
    requires OwnerOfApiKey(job.original[API_KEY], owner.text[8..]) == Some(next)
    requires At(ResolveLegacyCreators(job.original), DOWNLOAD_TASKS, i, CREATED_BY_USER_ID) == owner
    requires Execute(job.run.schema, PlanOf(job.run, rendering), ResolvedCopy(job)) == Some(end)
    ensures At(end.tables, DOWNLOAD_TASKS, i, CREATED_BY_USER_ID) == RenamedCell(job.ids, RowId(USER), next)
  {
    hide GoodJob, VisitsTheRegistry, Progress, Plannable, MappingStatements, Execute, ResolveLegacyCreators, SafeRun,
      DistinctKeys, FillingStatements, RenameStatements, LateStatements, PlanOf, RenamedCell, AsMap, NamesApiKey, Staged;
    var schema, mapping := job.run.schema, MappingStatements(job.run, rendering);
    var rest := FillingStatements(schema) + (RenameStatements(job.run.renames) + LateStatements(job.run, rendering));
    var stopped := ResolvedCopy(job);
    StoppedAfterResolving(job, rendering);
    GoodJobHasDistinctKeys(job);
    PlanInParts(job.run, rendering);
    ExecuteConcatenates(schema, mapping + [ResolveCreators], rest, stopped);
    ExecuteConcatenates(schema, mapping, [ResolveCreators], stopped);
    var mapped := RunMapping(job, rendering, stopped);
    assert mapped == stopped;
    ResolveStep(schema, stopped);
    ResolvedAgain(job.original, i, owner, next);
    GoodIsStaged(job);
    StagedNamesTheMap(job);
    RestOfPlanRenamesCreators(job, rendering, stopped.(tables := ResolveLegacyCreators(stopped.tables)), end, i);
  }

  ghost predicate RetriesAgree(schema: Schema, plan: seq<Statement>, copy: D1) {
    forall cuts: seq<nat> | forall i | 0 <= i < |cuts| :: cuts[i] <= |plan| :: RetryAgrees(schema, plan, copy, cuts)
  }

  lemma RetriesConvergeIfFinal(job: Job, rendering: Rendering)
    requires GoodJob(job) && VisitsTheRegistry(job.run) && Plannable(job.run, rendering) && NewValuesDistinct(job.ids)
    requires ResolvedOwnersAreFinal(job.run.schema, job.ids, job.original)
    ensures RetriesAgree(job.run.schema, PlanOf(job.run, rendering), FreshCopy(job.original))
  {
    hide GoodJob, VisitsTheRegistry, Plannable, NewValuesDistinct, ResolvedOwnersAreFinal, OwnersAreStable, PlanOf, Execute,
      AfterAttempts;
    FinalOwnersAreStable(job);
    var plan := PlanOf(job.run, rendering);
    forall cuts: seq<nat> | forall i | 0 <= i < |cuts| :: cuts[i] <= |plan|
      ensures RetryAgrees(job.run.schema, plan, FreshCopy(job.original), cuts)
    {
      RetriesConverge(job, rendering, cuts);
    }
  }

  lemma OneCut(schema: Schema, plan: seq<Statement>, k: nat, copy: D1)
    requires k <= |plan|
    ensures AfterAttempts(schema, plan, [k], copy) == Execute(schema, plan[..k], copy)
  {
    hide Execute;
    assert [k][1..] == [];
  }

  lemma CreatorAtTheEnd(job: Job, rendering: Rendering, i: nat)
    requires GoodJob(job) && VisitsTheRegistry(job.run) && Plannable(job.run, rendering) && HasLegacyCreators(job.run.schema)
    requires i < |job.original[DOWNLOAD_TASKS]|
    ensures var once := Execute(job.run.schema, PlanOf(job.run, rendering), FreshCopy(job.original));
      once.Some? && At(once.value.tables, DOWNLOAD_TASKS, i, CREATED_BY_USER_ID) ==
        RenamedCell(job.ids, RowId(USER), At(ResolveLegacyCreators(job.original), DOWNLOAD_TASKS, i, CREATED_BY_USER_ID))
  {
    hide GoodJob, Leads, VisitsTheRegistry, Plannable, PlanOf, Execute, Resolvable, Progress, ResolveLegacyCreators,
      RenamedCell, Staged, SameExceptMoving, DeletionsLead;
    GoodJobsLead(job);
    GoodIsStaged(job);
    FreshCopyIsInProgress(job);
    FreshCopyIsResolvable(job);
    var end := RunPlan(job, rendering, FreshCopy(job.original));
    PreparedCreators(job);
    StagedIsShaped(job);
    ShapedPrepared(job, i);
    LegacyGoals(job, DOWNLOAD_TASKS, CREATED_BY_USER_ID, i);
    TasksAreFinal(job);
  }

  lemma TasksAreFinal(job: Job)
    requires Staged(job)
    ensures job.final[DOWNLOAD_TASKS] == job.goal[DOWNLOAD_TASKS]
  {
    hide Staged, Kept;
    TasksAreKept();
    StagedKeeps(job);
    KeptTablesAreFinal(job, DOWNLOAD_TASKS);
  }

  lemma StagedKeeps(job: Job)
    requires Staged(job)
    ensures KeepsTables(job)
  {
  }

  lemma OwnerIsNotFinal(m: IdMap, keys: seq<Row>, owner: Cell) returns (next: Cell)
    requires !ResolvedOwnerIsFinal(m, keys, owner)
    ensures NamesApiKey(owner) && OwnerOfApiKey(keys, owner.text[8..]) == Some(next)
    ensures RenamedCell(m, RowId(USER), next) != RenamedCell(m, RowId(USER), owner)
  {
    next := OwnerOfApiKey(keys, owner.text[8..]).value;
  }

  /** A creator whose second resolution leads elsewhere, and one cut. */
  lemma RetryDiverges(job: Job, rendering: Rendering, i: nat)
    requires GoodJob(job) && VisitsTheRegistry(job.run) && Plannable(job.run, rendering) && HasLegacyCreators(job.run.schema)
    requires i < |job.original[DOWNLOAD_TASKS]|
    requires !ResolvedOwnerIsFinal(job.ids, job.original[API_KEY],
      At(ResolveLegacyCreators(job.original), DOWNLOAD_TASKS, i, CREATED_BY_USER_ID))
    ensures !RetriesAgree(job.run.schema, PlanOf(job.run, rendering), FreshCopy(job.original))
  {
    hide GoodJob, VisitsTheRegistry, Plannable, PlanOf, Execute, AfterAttempts, RenamedCell, NamesApiKey, MappingStatements,
      ResolveLegacyCreators, Progress, FillingStatements, RenameStatements, LateStatements, HasLegacyCreators;
    var schema, plan, copy := job.run.schema, PlanOf(job.run, rendering), FreshCopy(job.original);
    var owner := At(ResolveLegacyCreators(job.original), DOWNLOAD_TASKS, i, CREATED_BY_USER_ID);
    var next := OwnerIsNotFinal(job.ids, job.original[API_KEY], owner);
    CreatorAtTheEnd(job, rendering, i);
    PlanInParts(job.run, rendering);
    var stop := MappingStatements(job.run, rendering) + [ResolveCreators];
    StoppedAfterResolving(job, rendering);
    assert plan[..|stop|] == stop;
    OneCut(schema, plan, |stop|, copy);
    if RetriesAgree(schema, plan, copy) {
      assert RetryAgrees(schema, plan, copy, [|stop|]);
      var again := Execute(schema, plan, ResolvedCopy(job)).value;
      RetryEndsElsewhere(job, rendering, i, owner, next, again);
    }
  }

  /**
   * Retries agree with a single run, wherever and however often they are interrupted, if and only if every owner that a
   * legacy creator resolves to would stay the same user when it is resolved once more.
   */
  lemma RetriesAgreeIffOwnersAreFinal(job: Job, rendering: Rendering)
    requires GoodJob(job) && VisitsTheRegistry(job.run) && Plannable(job.run, rendering) && NewValuesDistinct(job.ids)
    ensures RetriesAgree(job.run.schema, PlanOf(job.run, rendering), FreshCopy(job.original))
      <==> ResolvedOwnersAreFinal(job.run.schema, job.ids, job.original)
  {
    hide GoodJob, VisitsTheRegistry, Plannable, NewValuesDistinct, RetriesAgree, PlanOf, ResolvedOwnerIsFinal,
      ResolveLegacyCreators, HasLegacyCreators, AsMap;
    if ResolvedOwnersAreFinal(job.run.schema, job.ids, job.original) {
      RetriesConvergeIfFinal(job, rendering);
    } else {
      var rows := ResolveLegacyCreators(job.original)[DOWNLOAD_TASKS];
      var row :| row in rows && !ResolvedOwnerIsFinal(job.ids, job.original[API_KEY], Field(row, CREATED_BY_USER_ID));
      var i: nat :| i < |rows| && rows[i] == row;
      ResolvingKeepsCount(job.original);
      RetryDiverges(job, rendering, i);
    }
  }

  lemma ResolvingKeepsCount(tables: Tables)
    ensures |ResolveLegacyCreators(tables)[DOWNLOAD_TASKS]| == |tables[DOWNLOAD_TASKS]|
  {
  }
}
