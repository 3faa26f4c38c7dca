/**
 * Where a replay can be. Every reachable copy of the database has, cell by cell, either the value it started from or
 * the value it is going to; this module says what those values are and which states count as progress.
 */
module D1Progress {
  import opened Wrappers
  import opened Text
  import opened IdRegistry
  import opened IdValues
  import opened IdMapTable
  import opened IdTables
  import opened IdMigration
  import opened D1Plan

  /**
   * A local run, the untouched copy its plan is replayed on, and the stages on the way: after the preparing updates,
   * before rows are deleted, and at the end. Rows are deleted only from the tables in `deletable`.
   */
  datatype Job = Job(
    run: LocalRun, ids: IdMap, deletable: set<Table>, original: Tables, prepared: Tables, goal: Tables, final: Tables)

  /** The two columns that the preparing updates may change. */
  predicate Moves(table: Table, column: Column) {
    || (table == DOWNLOAD_TASKS && column == CREATED_BY_USER_ID)
    || (table == AUDIT_EVENTS && column == EVENT_KEY)
  }

  ghost predicate Shaped(job: Job) {
    SameShape(job.original, job.prepared) && SameShape(job.original, job.goal) && KeepsTables(job)
  }

  lemma ResolvedRowKeepsRest(keys: seq<Row>, row: Row)
    ensures ResolvedCreatorRow(keys, row).Keys == row.Keys
    ensures forall c | c != CREATED_BY_USER_ID :: Field(ResolvedCreatorRow(keys, row), c) == Field(row, c)
  {
  }

  lemma EventKeyRowKeepsRest(row: Row)
    ensures EventKeyRow(row).Keys == row.Keys
    ensures forall c | c != EVENT_KEY :: Field(EventKeyRow(row), c) == Field(row, c)
  {
  }

  /** Same rows and columns, and the same cells except in the two moving columns. */
  ghost predicate SameExceptMoving(before: Tables, after: Tables) {
    && SameShape(before, after)
    && forall t, i, c | 0 <= i < |before[t]| && !Moves(t, c) :: Field(after[t][i], c) == Field(before[t][i], c)
  }

  lemma ResolvingMovesCreators(tables: Tables)
    ensures SameExceptMoving(tables, ResolveLegacyCreators(tables))
    ensures forall t | t != DOWNLOAD_TASKS :: ResolveLegacyCreators(tables)[t] == tables[t]
  {
    forall row ensures ResolvedCreatorRow(tables[API_KEY], row).Keys == row.Keys
      && forall c | c != CREATED_BY_USER_ID :: Field(ResolvedCreatorRow(tables[API_KEY], row), c) == Field(row, c)
    {
      ResolvedRowKeepsRest(tables[API_KEY], row);
    }
  }

  lemma FillingMovesEventKeys(tables: Tables)
    ensures SameExceptMoving(tables, FillEventKeys(tables))
    ensures forall t | t != AUDIT_EVENTS :: FillEventKeys(tables)[t] == tables[t]
  {
    forall row ensures EventKeyRow(row).Keys == row.Keys
      && forall c | c != EVENT_KEY :: Field(EventKeyRow(row), c) == Field(row, c)
    {
      EventKeyRowKeepsRest(row);
    }
  }

  lemma PreparedShape(schema: Schema, tables: Tables)
    ensures SameExceptMoving(tables, PreparedTables(schema, tables))
    ensures HasLegacyCreators(schema) ==>
      PreparedTables(schema, tables)[DOWNLOAD_TASKS] == ResolveLegacyCreators(tables)[DOWNLOAD_TASKS]
    ensures !HasLegacyCreators(schema) ==> PreparedTables(schema, tables)[DOWNLOAD_TASKS] == tables[DOWNLOAD_TASKS]
    ensures schema.HasColumn(AUDIT_EVENTS, EVENT_KEY) ==>
      PreparedTables(schema, tables)[AUDIT_EVENTS] == FillEventKeys(tables)[AUDIT_EVENTS]
    ensures !schema.HasColumn(AUDIT_EVENTS, EVENT_KEY) ==> PreparedTables(schema, tables)[AUDIT_EVENTS] == tables[AUDIT_EVENTS]
  {
    ResolvingMovesCreators(tables);
    FillingMovesEventKeys(tables);
    FillingMovesEventKeys(ResolveLegacyCreators(tables));
  }

  /** The cell of a row that may be missing, in a column that may be missing. */
  function At(tables: Tables, table: Table, i: nat, column: Column): Cell {
    if i < |tables[table]| then Field(tables[table][i], column) else Null
  }

  predicate IsShippedCell(job: Job, table: Table, column: Column, cell: Cell) {
    (table, column) in job.run.embedded && Shipped(job.run.mapRows, cell)
  }

  predicate IsCredentialPlace(job: Job, table: Table, column: Column) {
    table == DOWNLOADERS && IsCredential(column) && HasCredentials(job.run.schema)
  }

  /** The value a cell is going to, before rows are deleted. */
  function GoalCell(job: Job, table: Table, i: nat, column: Column, prepared: Cell): Cell {
    var outcome := At(job.run.tables, table, i, column);
    if IsShippedCell(job, table, column, outcome) || IsCredentialPlace(job, table, column) then outcome
    else OwnedCell(job.ids, job.run.renames, table, column, prepared)
  }

  function GoalRow(job: Job, table: Table, i: nat, prepared: Row): (r: Row)
    ensures r.Keys == prepared.Keys
    ensures forall c | c in prepared :: r[c] == GoalCell(job, table, i, c, prepared[c])
  {
    map c | c in prepared :: GoalCell(job, table, i, c, prepared[c])
  }

  function GoalRows(job: Job, table: Table): (r: seq<Row>)
    ensures |r| == |job.prepared[table]|
    ensures forall i | 0 <= i < |r| :: r[i] == GoalRow(job, table, i, job.prepared[table][i])
  {
    var rows := job.prepared[table];
    seq(|rows|, i requires 0 <= i < |rows| => GoalRow(job, table, i, rows[i]))
  }

  function GoalTables(job: Job): (r: Tables)
    ensures forall t :: r[t] == GoalRows(job, t)
  {
    map t | t in job.original :: GoalRows(job, t)
  }

  /** The stages are what the passes make of the original. */
  ghost predicate Staged(job: Job) {
    && job.ids == AsMap(job.run.mapRows)
    && job.prepared == PreparedTables(job.run.schema, job.original)
    && job.goal == GoalTables(job)
    && job.final == DropDynamicClients(job.run.schema, ClearTables(job.run.emptied, job.goal))
    && job.deletable == DeletableTables(job.run.emptied)
    && OAUTH_CLIENT !in job.run.emptied && OAUTH_CLIENT_RESOURCE !in job.run.emptied
    && OAUTH_CLIENT_REGISTRATION !in job.run.emptied
    && KeepsTables(job)
  }

  function DeletableTables(emptied: seq<Table>): set<Table> {
    (set t | t in emptied) + {OAUTH_CLIENT, OAUTH_CLIENT_RESOURCE, OAUTH_CLIENT_REGISTRATION}
  }

  /** Tables in which rows are only rewritten. */
  predicate Kept(table: Table) {
    HoldsEmbedded(table) || table == DOWNLOADERS
  }

  ghost predicate KeepsTables(job: Job) {
    forall t | Kept(t) :: t !in job.deletable
  }

  // What a plan presupposes.

  /** Creators are renamed before the ids of the keys they may name. */
  predicate CreatorsLeadKeys(renames: seq<Rename>) {
    || renames == []
    || (renames[0].table, renames[0].column) == (DOWNLOAD_TASKS, CREATED_BY_USER_ID)
    || ((renames[0].table, renames[0].column) != (API_KEY, ID) && CreatorsLeadKeys(renames[1..]))
  }

  ghost predicate CreatorsComeFirst(schema: Schema, renames: seq<Rename>) {
    HasLegacyCreators(schema) ==>
      IsRenamed(renames, DOWNLOAD_TASKS, CREATED_BY_USER_ID) && CreatorsLeadKeys(renames)
  }

  ghost predicate GoodColumns(job: Job) {
    && OwnedRenames(job.run.renames)
    && CreatorsComeFirst(job.run.schema, job.run.renames)
    && forall tc | tc in job.run.embedded ::
      && Owner(tc.0, tc.1).None?
      && HoldsEmbedded(tc.0)
      && forall k | k in KeyColumns(job.run.schema, tc.0) :: (tc.0, k) !in job.run.embedded
  }

  /** No creator names an API key any more. */
  ghost predicate CreatorsAreNamed(schema: Schema, tables: Tables) {
    HasLegacyCreators(schema) ==>
      forall row | row in tables[DOWNLOAD_TASKS] :: !NamesApiKey(Field(row, CREATED_BY_USER_ID))
  }

  /** The outcome of the local run in one kept table. */
  ghost predicate KeptOutcome(job: Job, table: Table) {
    var rows, prepared := job.run.tables[table], job.prepared[table];
    && |rows| == |prepared|
    && forall i | 0 <= i < |rows| ::
      && rows[i].Keys == prepared[i].Keys
      && forall c | c in rows[i] :: KeptCell(job, table, c, prepared[i][c], rows[i][c])
  }

  /** An embedded value is shipped or still means the same; any other value is renamed or a fresh credential. */
  ghost predicate KeptCell(job: Job, table: Table, column: Column, prepared: Cell, outcome: Cell) {
    if (table, column) in job.run.embedded then Shipped(job.run.mapRows, outcome) || SameCell(prepared, outcome)
    else
      || IsCredentialPlace(job, table, column)
      || outcome == OwnedCell(job.ids, job.run.renames, table, column, prepared)
  }

  ghost predicate DistinctPrimaryKeys(schema: Schema, table: Table, rows: seq<Row>) {
    forall i, j | 0 <= i < j < |rows| :: KeyOf(schema, table, rows[i]) != KeyOf(schema, table, rows[j])
  }

  ghost predicate DistinctIds(rows: seq<Row>) {
    forall i, j | 0 <= i < j < |rows| :: Field(rows[i], ID) != Field(rows[j], ID)
  }

  ghost predicate CredentialsGone(rows: seq<Row>) {
    forall row | row in rows :: Field(row, ENABLED) == Number(0) && Field(row, TOKEN_HASH) == Text("")
  }

  ghost predicate GoodJob(job: Job) {
    && Staged(job)
    && WellFormedMap(job.ids) && DistinctKeys(job.run.mapRows)
    && GoodColumns(job)
    && CreatorsAreNamed(job.run.schema, job.run.tables)
    && (forall t | Kept(t) :: KeptOutcome(job, t))
    && (forall t | !Kept(t) :: job.run.tables[t] == job.final[t])
    && (forall tc | tc in job.run.embedded :: DistinctPrimaryKeys(job.run.schema, tc.0, job.run.tables[tc.0]))
    && (HasCredentials(job.run.schema) ==>
          DistinctIds(job.run.tables[DOWNLOADERS]) && CredentialsGone(job.run.tables[DOWNLOADERS])
          && forall row | row in job.original[DOWNLOADERS] ::
            ID in row && TOKEN_HASH in row && TOKEN_JTI in row && ENABLED in row)
    && (forall v | v in job.run.validations :: Holds(v, job.run.tables))
    && job.run.completedAt != ""
  }

  // Progress.

  ghost predicate OnTrack(job: Job, table: Table, i: nat, column: Column, cell: Cell) {
    || cell == At(job.prepared, table, i, column)
    || cell == At(job.goal, table, i, column)
    || (Moves(table, column) && cell == At(job.original, table, i, column))
  }

  ghost predicate Partial(job: Job, table: Table, rows: seq<Row>) {
    && |rows| == |job.original[table]|
    && (forall i | 0 <= i < |rows| :: rows[i].Keys == job.original[table][i].Keys)
    && forall i, c | 0 <= i < |rows| :: OnTrack(job, table, i, c, Field(rows[i], c))
  }

  ghost predicate Deleted(job: Job, table: Table, rows: seq<Row>) {
    table in job.deletable && rows == job.final[table]
  }

  /** Every cell of a column has its goal value. */
  ghost predicate AtGoal(job: Job, table: Table, column: Column, rows: seq<Row>) {
    && |rows| == |job.goal[table]|
    && forall i | 0 <= i < |rows| :: Field(rows[i], column) == At(job.goal, table, i, column)
  }

  /** A column has arrived, or its table has been reduced to its final rows. */
  ghost predicate Arrived(job: Job, table: Table, column: Column, rows: seq<Row>) {
    Deleted(job, table, rows) || AtGoal(job, table, column, rows)
  }

  ghost predicate Untouched(job: Job, table: Table, column: Column, rows: seq<Row>) {
    && |rows| == |job.original[table]|
    && forall i | 0 <= i < |rows| :: Field(rows[i], column) == At(job.original, table, i, column)
  }

  ghost predicate HasMoved(job: Job, table: Table, i: nat, column: Column, cell: Cell) {
    cell == At(job.prepared, table, i, column) || cell == At(job.goal, table, i, column)
  }

  /** No cell of a moving column still waits for the preparing update. */
  ghost predicate Moved(job: Job, table: Table, column: Column, rows: seq<Row>) {
    && |rows| == |job.original[table]|
    && forall i: nat | i < |rows| :: HasMoved(job, table, i, column, Field(rows[i], column))
  }

  ghost predicate PreparationDone(job: Job, tables: Tables) {
    && Moved(job, DOWNLOAD_TASKS, CREATED_BY_USER_ID, tables[DOWNLOAD_TASKS])
    && Moved(job, AUDIT_EVENTS, EVENT_KEY, tables[AUDIT_EVENTS])
  }

  /** Ids move only after the updates that read the old ones. */
  ghost predicate InOrder(job: Job, tables: Tables) {
    && (Moved(job, DOWNLOAD_TASKS, CREATED_BY_USER_ID, tables[DOWNLOAD_TASKS])
        || (Untouched(job, API_KEY, ID, tables[API_KEY]) && Untouched(job, API_KEY, REFERENCE_ID, tables[API_KEY])))
    && (Moved(job, AUDIT_EVENTS, EVENT_KEY, tables[AUDIT_EVENTS])
        || Untouched(job, AUDIT_EVENTS, ID, tables[AUDIT_EVENTS]))
    && (CreatorsArrived(job, tables) || Untouched(job, API_KEY, ID, tables[API_KEY]))
  }

  /** No resolved creator can name a key any more. */
  ghost predicate CreatorsArrived(job: Job, tables: Tables) {
    HasLegacyCreators(job.run.schema) ==> AtGoal(job, DOWNLOAD_TASKS, CREATED_BY_USER_ID, tables[DOWNLOAD_TASKS])
  }

  /** Registrations go last, because they say which clients and resources to delete. */
  ghost predicate RegistrationsLast(job: Job, tables: Tables) {
    || Partial(job, OAUTH_CLIENT_REGISTRATION, tables[OAUTH_CLIENT_REGISTRATION])
    || (Deleted(job, OAUTH_CLIENT_REGISTRATION, tables[OAUTH_CLIENT_REGISTRATION])
        && Deleted(job, OAUTH_CLIENT, tables[OAUTH_CLIENT])
        && Deleted(job, OAUTH_CLIENT_RESOURCE, tables[OAUTH_CLIENT_RESOURCE]))
  }

  ghost predicate TablesProgress(job: Job, tables: Tables) {
    && (forall t :: Partial(job, t, tables[t]) || Deleted(job, t, tables[t]))
    && InOrder(job, tables)
    && RegistrationsLast(job, tables)
  }

  ghost predicate StagedExactly(job: Job, key: ExactKey, cell: Cell) {
    && (key.table, key.column) in job.run.embedded
    && exists i | 0 <= i < |job.run.tables[key.table]| ::
      && key.key == KeyOf(job.run.schema, key.table, job.run.tables[key.table][i])
      && cell == At(job.run.tables, key.table, i, key.column)
      && Shipped(job.run.mapRows, cell)
  }

  ghost predicate Progress(job: Job, st: D1) {
    && Pending(st)
    && st.mapRows <= job.run.mapRows
    && (forall key | key in st.exact :: StagedExactly(job, key, st.exact[key]))
    && TablesProgress(job, st.tables)
  }

  // Facts about the destination.

  lemma EmbeddedIsNotRenamed(job: Job, table: Table, column: Column)
    requires GoodColumns(job)
    requires (table, column) in job.run.embedded
    ensures !IsRenamed(job.run.renames, table, column)
  {
    forall r | r in job.run.renames ensures r.table != table || r.column != column {
      assert Owner(r.table, r.column) == Some(r.kind);
    }
  }

  /** A renamed cell that has arrived is not renamed again. */
  lemma GoalIsSettled(job: Job, r: Rename, i: nat, prepared: Cell)
    requires WellFormedMap(job.ids) && GoodColumns(job)
    requires r in job.run.renames
    ensures var goal := GoalCell(job, r.table, i, r.column, prepared);
      goal == RenamedCell(job.ids, r.kind, prepared) && RenamedCell(job.ids, r.kind, goal) == goal
  {
    assert Owner(r.table, r.column) == Some(r.kind);
    assert (r.table, r.column) !in job.run.embedded;
    RenamedCellIsSettled(job.ids, r.kind, prepared);
  }

  /** What the deletions leave in each table. */
  lemma DeletionsKeepRows(schema: Schema, emptied: seq<Table>, tables: Tables)
    ensures var after := DropDynamicClients(schema, ClearTables(emptied, tables));
      && (forall t, row | row in after[t] :: row in tables[t])
      && (forall t | t !in emptied && t !in {OAUTH_CLIENT, OAUTH_CLIENT_RESOURCE, OAUTH_CLIENT_REGISTRATION} ::
            after[t] == tables[t])
      && (forall t | t in emptied :: after[t] == [])
  {
  }

  lemma FinalRowsAreGoalRows(job: Job, table: Table)
    requires Staged(job)
    ensures forall row | row in job.final[table] :: row in job.goal[table]
  {
    DeletionsKeepRows(job.run.schema, job.run.emptied, job.goal);
  }

  lemma KeptTablesAreFinal(job: Job, table: Table)
    requires Staged(job)
    requires table !in job.deletable
    ensures job.final[table] == job.goal[table]
  {
    DeletionsKeepRows(job.run.schema, job.run.emptied, job.goal);
  }

  lemma GoalAt(job: Job, table: Table, i: nat, column: Column)
    requires Staged(job) && i < |job.prepared[table]|
    ensures |job.goal[table]| == |job.prepared[table]| && job.goal[table][i].Keys == job.prepared[table][i].Keys
    ensures At(job.goal, table, i, column) ==
      if column in job.prepared[table][i] then GoalCell(job, table, i, column, job.prepared[table][i][column]) else Null
  {
  }

  ghost predicate GoalComputed(job: Job, table: Table, i: nat, column: Column)
    requires i < |job.prepared[table]|
  {
    At(job.goal, table, i, column) ==
    if column in job.prepared[table][i] then GoalCell(job, table, i, column, job.prepared[table][i][column]) else Null
  }

  ghost predicate Computed(job: Job) {
    && Shaped(job) && SameShape(job.prepared, job.goal)
    && forall t, i: nat, c | i < |job.prepared[t]| :: GoalComputed(job, t, i, c)
  }

  lemma StagedIsComputed(job: Job)
    requires Staged(job)
    ensures Computed(job)
  {
    StagedIsShaped(job);
    forall t, i: nat, c | i < |job.prepared[t]| ensures GoalComputed(job, t, i, c) {
      GoalAt(job, t, i, c);
    }
  }

  lemma StagedIsShaped(job: Job)
    requires Staged(job)
    ensures SameExceptMoving(job.original, job.prepared)
    ensures SameShape(job.prepared, job.goal) && Shaped(job)
  {
    hide PreparedTables, GoalTables, ClearTables, DropDynamicClients, AsMap, DeletableTables, KeepsTables;
    PreparedShape(job.run.schema, job.original);
    GoalKeepsShape(job);
  }

  lemma GoalKeepsShape(job: Job)
    requires job.goal == GoalTables(job)
    ensures SameShape(job.prepared, job.goal)
  {
    hide GoalCell;
  }

  /** An arrived cell of a renamed column is settled, and a prepared one is renamed to it. */
  lemma RenamedGoalAt(job: Job, r: Rename, i: nat)
    requires Staged(job) && WellFormedMap(job.ids) && GoodColumns(job)
    requires r in job.run.renames && i < |job.prepared[r.table]|
    ensures var prepared, goal := At(job.prepared, r.table, i, r.column), At(job.goal, r.table, i, r.column);
      RenamedCell(job.ids, r.kind, prepared) == goal && RenamedCell(job.ids, r.kind, goal) == goal
  {
    GoalAt(job, r.table, i, r.column);
    if r.column in job.prepared[r.table][i] {
      GoalIsSettled(job, r, i, job.prepared[r.table][i][r.column]);
    }
  }

  // The same facts without the definitions of the stages, which is what the replay proofs work from.

  ghost predicate RenamesLead(job: Job) {
    forall r, i: nat | r in job.run.renames && i < |job.prepared[r.table]| :: RenameLeads(job, r, i)
  }

  /** Renaming takes a prepared cell to its goal, and leaves it there. */
  ghost predicate RenameLeads(job: Job, r: Rename, i: nat) {
    var prepared, goal := At(job.prepared, r.table, i, r.column), At(job.goal, r.table, i, r.column);
    RenamedCell(job.ids, r.kind, prepared) == goal && RenamedCell(job.ids, r.kind, goal) == goal
  }

  ghost predicate FinalWithinGoal(job: Job) {
    forall t, row | row in job.final[t] :: row in job.goal[t]
  }

  lemma StagesLead(job: Job)
    requires Staged(job) && WellFormedMap(job.ids) && GoodColumns(job)
    ensures Shaped(job) && RenamesLead(job) && FinalWithinGoal(job)
  {
    StagedIsShaped(job);
    forall r, i: nat | r in job.run.renames && i < |job.prepared[r.table]| ensures RenameLeads(job, r, i) {
      RenamedGoalAt(job, r, i);
    }
    forall t, row | row in job.final[t] ensures row in job.goal[t] {
      FinalRowsAreGoalRows(job, t);
    }
  }

  /** What the preparing update makes of the creator of task `i`. */
  ghost predicate CreatorLeads(job: Job, i: nat)
    requires i < |job.original[DOWNLOAD_TASKS]|
  {
    var row := job.original[DOWNLOAD_TASKS][i];
    var prepared, goal := At(job.prepared, DOWNLOAD_TASKS, i, CREATED_BY_USER_ID), At(job.goal, DOWNLOAD_TASKS, i, CREATED_BY_USER_ID);
    if HasLegacyCreators(job.run.schema) then
      && prepared == Field(ResolvedCreatorRow(job.original[API_KEY], row), CREATED_BY_USER_ID)
      && !NamesApiKey(goal)
    else prepared == Field(row, CREATED_BY_USER_ID)
  }

  /** What it makes of the key of audit event `i`: an event without a key has an id that stays. */
  ghost predicate EventKeyLeads(job: Job, i: nat)
    requires i < |job.original[AUDIT_EVENTS]|
  {
    var row := job.original[AUDIT_EVENTS][i];
    var prepared, goal := At(job.prepared, AUDIT_EVENTS, i, EVENT_KEY), At(job.goal, AUDIT_EVENTS, i, EVENT_KEY);
    if job.run.schema.HasColumn(AUDIT_EVENTS, EVENT_KEY) then
      && prepared == Field(EventKeyRow(row), EVENT_KEY)
      && (EVENT_KEY in row && (prepared == Null || goal == Null) ==>
            !NeedsNewId(At(job.prepared, AUDIT_EVENTS, i, ID)) && !NeedsNewId(At(job.goal, AUDIT_EVENTS, i, ID)))
    else prepared == Field(row, EVENT_KEY)
  }

  ghost predicate PreparationLeads(job: Job) {
    && (forall i: nat | i < |job.original[DOWNLOAD_TASKS]| :: CreatorLeads(job, i))
    && (forall i: nat | i < |job.original[AUDIT_EVENTS]| :: EventKeyLeads(job, i))
  }

  lemma CreatorsLead(job: Job, i: nat)
    requires Staged(job) && GoodColumns(job) && KeptOutcome(job, DOWNLOAD_TASKS)
    requires CreatorsAreNamed(job.run.schema, job.run.tables)
    requires Shaped(job) && i < |job.original[DOWNLOAD_TASKS]|
    ensures CreatorLeads(job, i)
  {
    hide CreatorsComeFirst;
    PreparedShape(job.run.schema, job.original);
    if HasLegacyCreators(job.run.schema) {
      StagedIsComputed(job);
      CreatorGoalIsTheOutcome(job, i);
      assert job.run.tables[DOWNLOAD_TASKS][i] in job.run.tables[DOWNLOAD_TASKS];
    }
  }

  lemma CreatorGoalIsTheOutcome(job: Job, i: nat)
    requires Computed(job) && GoodColumns(job) && KeptOutcome(job, DOWNLOAD_TASKS) && i < |job.original[DOWNLOAD_TASKS]|
    ensures i < |job.run.tables[DOWNLOAD_TASKS]|
    ensures At(job.goal, DOWNLOAD_TASKS, i, CREATED_BY_USER_ID) == Field(job.run.tables[DOWNLOAD_TASKS][i], CREATED_BY_USER_ID)
  {
    hide CreatorsComeFirst, SameRows, KeptCell;
    KeptGoalIsTheOutcome(job, DOWNLOAD_TASKS);
    assert Owner(DOWNLOAD_TASKS, CREATED_BY_USER_ID) == Some(RowId(USER));
    assert (DOWNLOAD_TASKS, CREATED_BY_USER_ID) !in job.run.embedded;
    assert |job.goal[DOWNLOAD_TASKS]| == |job.original[DOWNLOAD_TASKS]|;
  }

  lemma NothingShippedIsNull(rows: seq<MapRow>, m: IdMap)
    requires DistinctKeys(rows) && m == AsMap(rows) && NewValuesValid(m)
    ensures !Shipped(rows, Null)
  {
    forall row | row in rows ensures !Includes("", row.newValue) {
      AsMapLooksUp(rows, row);
      ValidValuesAreBase62(row.kind, m[row.Key()]);
    }
  }

  lemma ValidIdsStay(m: IdMap, table: Table, cell: Cell)
    requires WellFormedMap(m) && !NeedsNewId(cell)
    ensures RenamedCell(m, RowId(table), cell) == cell
  {
  }

  lemma KeyGoalIsNullOnlyWithoutKey(job: Job, i: nat, cell: Cell)
    requires !Shipped(job.run.mapRows, Null)
    requires GoalCell(job, AUDIT_EVENTS, i, EVENT_KEY, cell) == Null
    ensures cell == Null
  {
  }

  lemma ValidIdIsItsGoal(job: Job, i: nat, cell: Cell)
    requires WellFormedMap(job.ids) && GoodColumns(job)
    requires !NeedsNewId(cell)
    ensures GoalCell(job, AUDIT_EVENTS, i, ID, cell) == cell
  {
    assert (AUDIT_EVENTS, ID) !in job.run.embedded;
    ValidIdsStay(job.ids, AUDIT_EVENTS, cell);
  }

  lemma UnfilledKeyHasValidId(row: Row)
    requires EVENT_KEY in row && Field(EventKeyRow(row), EVENT_KEY) == Null
    ensures !NeedsNewId(Field(row, ID))
  {
  }

  lemma EventKeysLead(job: Job, i: nat)
    requires Staged(job) && WellFormedMap(job.ids) && GoodColumns(job) && DistinctKeys(job.run.mapRows)
    requires Shaped(job) && i < |job.original[AUDIT_EVENTS]|
    ensures EventKeyLeads(job, i)
  {
    hide WellFormedMap, GoodColumns, DistinctKeys, Shaped, Staged, GoalTables, NeedsNewId;
    PreparedEventRow(job, i);
    if job.run.schema.HasColumn(AUDIT_EVENTS, EVENT_KEY) && EVENT_KEY in job.original[AUDIT_EVENTS][i]
      && (At(job.prepared, AUDIT_EVENTS, i, EVENT_KEY) == Null || At(job.goal, AUDIT_EVENTS, i, EVENT_KEY) == Null)
    {
      UnfilledKeysLead(job, i);
    }
  }

  lemma StagedNamesTheMap(job: Job)
    requires Staged(job)
    ensures job.ids == AsMap(job.run.mapRows)
  {
  }

  lemma PreparedEventRow(job: Job, i: nat)
    requires Staged(job) && i < |job.original[AUDIT_EVENTS]|
    ensures i < |job.prepared[AUDIT_EVENTS]|
    ensures job.prepared[AUDIT_EVENTS][i] ==
      if job.run.schema.HasColumn(AUDIT_EVENTS, EVENT_KEY) then EventKeyRow(job.original[AUDIT_EVENTS][i])
      else job.original[AUDIT_EVENTS][i]
  {
    hide GoalTables, KeepsTables, EventKeyRow;
    PreparedShape(job.run.schema, job.original);
  }

  /** A key that stays empty, or would become empty, belongs to an id that stays as it is. */
  lemma UnfilledKeysLead(job: Job, i: nat)
    requires Staged(job) && WellFormedMap(job.ids) && GoodColumns(job) && DistinctKeys(job.run.mapRows)
    requires i < |job.original[AUDIT_EVENTS]| && job.run.schema.HasColumn(AUDIT_EVENTS, EVENT_KEY)
    requires EVENT_KEY in job.original[AUDIT_EVENTS][i]
    requires At(job.prepared, AUDIT_EVENTS, i, EVENT_KEY) == Null || At(job.goal, AUDIT_EVENTS, i, EVENT_KEY) == Null
    ensures !NeedsNewId(At(job.prepared, AUDIT_EVENTS, i, ID)) && !NeedsNewId(At(job.goal, AUDIT_EVENTS, i, ID))
  {
    hide GoodColumns, DistinctKeys, Staged, GoalTables, GoalCell, EventKeyRow, NeedsNewId, AsMap, NewValuesValid;
    PreparedEventRow(job, i);
    StagedNamesTheMap(job);
    var row, prepared := job.original[AUDIT_EVENTS][i], job.prepared[AUDIT_EVENTS][i];
    EventKeyRowKeepsRest(row);
    GoalAt(job, AUDIT_EVENTS, i, EVENT_KEY);
    GoalAt(job, AUDIT_EVENTS, i, ID);
    if At(job.goal, AUDIT_EVENTS, i, EVENT_KEY) == Null {
      NothingShippedIsNull(job.run.mapRows, job.ids);
      KeyGoalIsNullOnlyWithoutKey(job, i, Field(prepared, EVENT_KEY));
    }
    UnfilledKeyHasValidId(row);
    ValidIdIsItsGoal(job, i, Field(prepared, ID));
  }

  lemma PreparationsLead(job: Job)
    requires GoodJob(job)
    ensures Shaped(job) && PreparationLeads(job)
  {
    StagesLead(job);
    forall i: nat | i < |job.original[DOWNLOAD_TASKS]| ensures CreatorLeads(job, i) {
      CreatorsLead(job, i);
    }
    forall i: nat | i < |job.original[AUDIT_EVENTS]| ensures EventKeyLeads(job, i) {
      EventKeysLead(job, i);
    }
  }

  /** No pass changes the column after the preparing updates. */
  ghost predicate StaysPut(job: Job, table: Table, column: Column) {
    forall i: nat | i < |job.goal[table]| :: At(job.goal, table, i, column) == At(job.prepared, table, i, column)
  }

  lemma UnrenamedStaysPut(job: Job, table: Table, column: Column)
    requires Computed(job)
    requires !IsRenamed(job.run.renames, table, column) && (table, column) !in job.run.embedded
    requires !IsCredentialPlace(job, table, column)
    ensures StaysPut(job, table, column)
  {
    forall i: nat | i < |job.goal[table]|
      ensures At(job.goal, table, i, column) == At(job.prepared, table, i, column)
    {
      assert GoalComputed(job, table, i, column);
    }
  }

  /** A shipped value goes where the local run went; any other embedded value stays as prepared. */
  ghost predicate ShipmentLeads(job: Job, table: Table, column: Column, i: nat) {
    var outcome, goal := At(job.run.tables, table, i, column), At(job.goal, table, i, column);
    if Shipped(job.run.mapRows, outcome) then goal == outcome && outcome != Null
    else goal == At(job.prepared, table, i, column)
  }

  /** The primary key of a row is renamed to what the local run made of it. */
  ghost predicate KeyLeads(job: Job, table: Table, key: Column, i: nat) {
    At(job.goal, table, i, key) == At(job.run.tables, table, i, key)
  }

  ghost predicate ExactLeads(job: Job, table: Table, column: Column) {
    && |job.run.tables[table]| == |job.original[table]|
    && HoldsEmbedded(table)
    && DistinctPrimaryKeys(job.run.schema, table, job.run.tables[table])
    && (forall i: nat | i < |job.original[table]| :: ShipmentLeads(job, table, column, i))
    && (forall i: nat, k | i < |job.original[table]| && k in KeyColumns(job.run.schema, table) :: KeyLeads(job, table, k, i))
    && (forall k | k in KeyColumns(job.run.schema, table) ::
          IsRenamed(job.run.renames, table, k) || StaysPut(job, table, k))
  }

  lemma ShipmentsLead(job: Job, table: Table, column: Column, i: nat)
    requires Computed(job) && KeptOutcome(job, table)
    requires (table, column) in job.run.embedded && !IsRenamed(job.run.renames, table, column)
    requires i < |job.prepared[table]| && HoldsEmbedded(table)
    requires !Shipped(job.run.mapRows, Null)
    ensures ShipmentLeads(job, table, column, i)
  {
    assert GoalComputed(job, table, i, column);
  }

  lemma KeysLead(job: Job, table: Table, key: Column, i: nat)
    requires Computed(job) && KeptOutcome(job, table)
    requires (table, key) !in job.run.embedded && !IsCredentialPlace(job, table, key) && i < |job.prepared[table]|
    ensures KeyLeads(job, table, key, i)
  {
    assert GoalComputed(job, table, i, key);
    if key in job.prepared[table][i] {
      assert KeptCell(job, table, key, job.prepared[table][i][key], job.run.tables[table][i][key]);
    }
  }

  lemma ExactColumnLeads(job: Job, table: Table, column: Column)
    requires Computed(job) && GoodColumns(job) && KeptOutcome(job, table)
    requires (table, column) in job.run.embedded
    requires DistinctPrimaryKeys(job.run.schema, table, job.run.tables[table])
    requires !Shipped(job.run.mapRows, Null)
    ensures ExactLeads(job, table, column)
  {
    EmbeddedIsNotRenamed(job, table, column);
    forall i: nat | i < |job.original[table]| ensures ShipmentLeads(job, table, column, i) {
      ShipmentsLead(job, table, column, i);
    }
    forall i: nat, k | i < |job.original[table]| && k in KeyColumns(job.run.schema, table)
      ensures KeyLeads(job, table, k, i)
    {
      KeysLead(job, table, k, i);
    }
    forall k | k in KeyColumns(job.run.schema, table) && !IsRenamed(job.run.renames, table, k)
      ensures StaysPut(job, table, k)
    {
      UnrenamedStaysPut(job, table, k);
    }
  }

  ghost predicate ColumnsLead(job: Job) {
    forall tc | tc in job.run.embedded :: ExactLeads(job, tc.0, tc.1)
  }

  lemma ExactColumnsLead(job: Job)
    requires GoodJob(job)
    ensures ColumnsLead(job)
  {
    StagedIsComputed(job);
    NothingShippedIsNull(job.run.mapRows, job.ids);
    forall tc | tc in job.run.embedded ensures ExactLeads(job, tc.0, tc.1) {
      assert Kept(tc.0);
      ExactColumnLeads(job, tc.0, tc.1);
    }
  }

  /** Credential columns go where the local run put them, and rows are found under their arrived ids. */
  ghost predicate CredentialLeads(job: Job, i: nat) {
    forall c | c == ID || IsCredential(c) :: At(job.goal, DOWNLOADERS, i, c) == At(job.run.tables, DOWNLOADERS, i, c)
  }

  ghost predicate CredentialsLead(job: Job) {
    && |job.run.tables[DOWNLOADERS]| == |job.original[DOWNLOADERS]|
    && DistinctIds(job.run.tables[DOWNLOADERS]) && CredentialsGone(job.run.tables[DOWNLOADERS])
    && (forall row | row in job.original[DOWNLOADERS] ::
          ID in row && TOKEN_HASH in row && TOKEN_JTI in row && ENABLED in row)
    && (forall i: nat | i < |job.original[DOWNLOADERS]| :: CredentialLeads(job, i))
    && (IsRenamed(job.run.renames, DOWNLOADERS, ID) || StaysPut(job, DOWNLOADERS, ID))
  }

  lemma DownloadersHoldNothingEmbedded(job: Job, column: Column)
    requires GoodColumns(job)
    ensures (DOWNLOADERS, column) !in job.run.embedded
  {
    assert !HoldsEmbedded(DOWNLOADERS);
  }

  lemma CredentialCellLeads(job: Job, i: nat)
    requires Computed(job) && GoodColumns(job) && KeptOutcome(job, DOWNLOADERS) && HasCredentials(job.run.schema)
    requires i < |job.prepared[DOWNLOADERS]|
    requires ID in job.prepared[DOWNLOADERS][i] && TOKEN_HASH in job.prepared[DOWNLOADERS][i]
    requires TOKEN_JTI in job.prepared[DOWNLOADERS][i] && ENABLED in job.prepared[DOWNLOADERS][i]
    ensures CredentialLeads(job, i)
  {
    var prepared, outcome := job.prepared[DOWNLOADERS][i], job.run.tables[DOWNLOADERS][i];
    forall c | c == ID || IsCredential(c) ensures At(job.goal, DOWNLOADERS, i, c) == At(job.run.tables, DOWNLOADERS, i, c) {
      DownloadersHoldNothingEmbedded(job, c);
      assert GoalComputed(job, DOWNLOADERS, i, c);
      assert KeptCell(job, DOWNLOADERS, c, prepared[c], outcome[c]);
    }
  }

  lemma KeptRowsAreCounted(job: Job, table: Table)
    requires KeptOutcome(job, table)
    ensures |job.run.tables[table]| == |job.prepared[table]|
  {
  }

  lemma CredentialColumnsLead(job: Job)
    requires GoodJob(job) && HasCredentials(job.run.schema)
    ensures CredentialsLead(job)
  {
    hide Staged, GoodColumns, KeptOutcome, WellFormedMap, DistinctKeys, CreatorsAreNamed, Holds, DistinctPrimaryKeys,
      CredentialLeads, StaysPut, HasCredentials, GoalComputed;
    StagedIsComputed(job);
    assert Kept(DOWNLOADERS) && KeptOutcome(job, DOWNLOADERS);
    KeptRowsAreCounted(job, DOWNLOADERS);
    forall i: nat | i < |job.original[DOWNLOADERS]| ensures CredentialLeads(job, i) {
      assert job.original[DOWNLOADERS][i] in job.original[DOWNLOADERS];
      assert job.prepared[DOWNLOADERS][i].Keys == job.original[DOWNLOADERS][i].Keys;
      CredentialCellLeads(job, i);
    }
    if !IsRenamed(job.run.renames, DOWNLOADERS, ID) {
      DownloadersHoldNothingEmbedded(job, ID);
      UnrenamedStaysPut(job, DOWNLOADERS, ID);
    }
  }

  // The end of the replay against the end of the local run.

  ghost predicate SameRows(a: seq<Row>, b: seq<Row>) {
    && |a| == |b|
    && (forall i | 0 <= i < |a| :: a[i].Keys == b[i].Keys)
    && forall i, c | 0 <= i < |a| :: SameCell(Field(a[i], c), Field(b[i], c))
  }

  /** Equal rows in every table, up to the spelling of JSON documents. */
  ghost predicate SameData(a: Tables, b: Tables) {
    forall t :: SameRows(a[t], b[t])
  }

  lemma KeptGoalIsTheOutcome(job: Job, table: Table)
    requires Computed(job) && GoodColumns(job) && KeptOutcome(job, table)
    ensures SameRows(job.goal[table], job.run.tables[table])
    ensures forall c, i: nat | i < |job.goal[table]| && (table, c) !in job.run.embedded ::
      At(job.goal, table, i, c) == At(job.run.tables, table, i, c)
  {
    forall i: nat, c | i < |job.goal[table]|
      ensures SameCell(At(job.goal, table, i, c), At(job.run.tables, table, i, c))
      ensures (table, c) !in job.run.embedded ==> At(job.goal, table, i, c) == At(job.run.tables, table, i, c)
    {
      assert GoalComputed(job, table, i, c);
      if c in job.prepared[table][i] {
        assert KeptCell(job, table, c, job.prepared[table][i][c], job.run.tables[table][i][c]);
        if (table, c) in job.run.embedded {
          EmbeddedIsNotRenamed(job, table, c);
        }
      }
    }
    forall i, c | 0 <= i < |job.goal[table]|
      ensures SameCell(Field(job.goal[table][i], c), Field(job.run.tables[table][i], c))
    {
      assert SameCell(At(job.goal, table, i, c), At(job.run.tables, table, i, c));
    }
  }

  lemma SameRowsReflexive(rows: seq<Row>)
    ensures SameRows(rows, rows)
  {
  }

  lemma FinalIsTheOutcome(job: Job)
    requires GoodJob(job)
    ensures SameData(job.final, job.run.tables)
  {
    StagedIsComputed(job);
    forall t ensures SameRows(job.final[t], job.run.tables[t]) {
      if Kept(t) {
        KeptTablesAreFinal(job, t);
        KeptGoalIsTheOutcome(job, t);
      } else {
        SameRowsReflexive(job.final[t]);
      }
    }
  }

  /** A renamed column agrees cell for cell with the local run. */
  ghost predicate RenamedColumnAgrees(job: Job, r: Rename) {
    && |job.final[r.table]| == |job.run.tables[r.table]|
    && forall i | 0 <= i < |job.final[r.table]| ::
      Field(job.final[r.table][i], r.column) == Field(job.run.tables[r.table][i], r.column)
  }

  ghost predicate RenamedColumnsAgree(job: Job) {
    forall r | r in job.run.renames :: RenamedColumnAgrees(job, r)
  }

  lemma KeptRenamedColumnAgrees(job: Job, r: Rename)
    requires Computed(job) && GoodColumns(job) && KeptOutcome(job, r.table)
    requires r in job.run.renames && job.final[r.table] == job.goal[r.table]
    ensures RenamedColumnAgrees(job, r)
  {
    KeptGoalIsTheOutcome(job, r.table);
    assert Owner(r.table, r.column) == Some(r.kind);
    forall i: nat | i < |job.final[r.table]|
      ensures Field(job.final[r.table][i], r.column) == Field(job.run.tables[r.table][i], r.column)
    {
      assert At(job.goal, r.table, i, r.column) == At(job.run.tables, r.table, i, r.column);
    }
  }

  lemma RenamedColumnsReachTheOutcome(job: Job)
    requires GoodJob(job)
    ensures RenamedColumnsAgree(job)
  {
    StagedIsComputed(job);
    forall r | r in job.run.renames ensures RenamedColumnAgrees(job, r) {
      if Kept(r.table) {
        KeptTablesAreFinal(job, r.table);
        KeptRenamedColumnAgrees(job, r);
      }
    }
  }

  /** What the deletions make of the goal. */
  ghost predicate DeletionsLead(job: Job) {
    && job.deletable == DeletableTables(job.run.emptied) && OAUTH_CLIENT_REGISTRATION !in job.run.emptied
    && (forall t | t in job.run.emptied :: t in job.deletable && job.final[t] == [])
    && (forall t | t !in job.deletable :: job.final[t] == job.goal[t])
    && (if HasDynamicClients(job.run.schema) then
          && job.final[OAUTH_CLIENT_REGISTRATION] == []
          && job.final[OAUTH_CLIENT] == DropRegistered(job.goal[OAUTH_CLIENT_REGISTRATION], job.goal[OAUTH_CLIENT])
          && job.final[OAUTH_CLIENT_RESOURCE] ==
            if job.run.schema.HasColumn(OAUTH_CLIENT_RESOURCE, CLIENT_ID)
            then DropRegistered(job.goal[OAUTH_CLIENT_REGISTRATION], job.goal[OAUTH_CLIENT_RESOURCE])
            else job.goal[OAUTH_CLIENT_RESOURCE]
        else
          && job.final[OAUTH_CLIENT_REGISTRATION] == job.goal[OAUTH_CLIENT_REGISTRATION]
          && job.final[OAUTH_CLIENT] == job.goal[OAUTH_CLIENT]
          && job.final[OAUTH_CLIENT_RESOURCE] == job.goal[OAUTH_CLIENT_RESOURCE])
  }

  lemma DeletionsOnTables(schema: Schema, emptied: seq<Table>, tables: Tables)
    requires OAUTH_CLIENT !in emptied && OAUTH_CLIENT_RESOURCE !in emptied && OAUTH_CLIENT_REGISTRATION !in emptied
    ensures var after := DropDynamicClients(schema, ClearTables(emptied, tables));
      if HasDynamicClients(schema) then
        && after[OAUTH_CLIENT_REGISTRATION] == []
        && after[OAUTH_CLIENT] == DropRegistered(tables[OAUTH_CLIENT_REGISTRATION], tables[OAUTH_CLIENT])
        && after[OAUTH_CLIENT_RESOURCE] ==
          if schema.HasColumn(OAUTH_CLIENT_RESOURCE, CLIENT_ID)
          then DropRegistered(tables[OAUTH_CLIENT_REGISTRATION], tables[OAUTH_CLIENT_RESOURCE])
          else tables[OAUTH_CLIENT_RESOURCE]
      else
        && after[OAUTH_CLIENT_REGISTRATION] == tables[OAUTH_CLIENT_REGISTRATION]
        && after[OAUTH_CLIENT] == tables[OAUTH_CLIENT]
        && after[OAUTH_CLIENT_RESOURCE] == tables[OAUTH_CLIENT_RESOURCE]
  {
  }

  lemma DeletionsDoLead(job: Job)
    requires Staged(job)
    ensures DeletionsLead(job)
  {
    DeletionsKeepRows(job.run.schema, job.run.emptied, job.goal);
    DeletionsOnTables(job.run.schema, job.run.emptied, job.goal);
  }
}
