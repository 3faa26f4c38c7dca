/** The outcome of a local run is one a plan can repeat. */
module LocalOutcome {
  import opened Wrappers
  import opened Text
  import opened IdRegistry
  import opened IdValues
  import opened IdMapTable
  import opened JsonReferences
  import opened IdTables
  import opened IdMigration
  import opened D1Plan
  import opened D1Progress

  // Stages of the local run.

  /** The tables after all rewriting passes, before credentials are revoked and rows deleted. */
  function RewrittenTables(job: Job, order: seq<(Table, Column)>): Tables {
    RewriteAll(job.ids, order, RenameAll(job.ids, job.run.renames, job.prepared))
  }

  function RevokedOutcome(job: Job, order: seq<(Table, Column)>, tokens: seq<string>): Tables {
    RevokedTables(job.run.schema, tokens, RewrittenTables(job, order))
  }

  /** The passes visit embedded columns once each, and never a column that names a type or is renamed directly. */
  ghost predicate GoodOrder(order: seq<(Table, Column)>) {
    && EachOnce(order)
    && forall tc | tc in order :: !IsTypeColumn(tc.1) && Owner(tc.0, tc.1).None? && HoldsEmbedded(tc.0)
  }

  /** The plan ships the existing columns among those the local run visits. */
  ghost predicate ShipsTheOrder(run: LocalRun, order: seq<(Table, Column)>) {
    forall tc :: tc in run.embedded <==> (tc in order && run.schema.HasColumn(tc.0, tc.1))
  }

  /** A cell after all rewriting passes, from the prepared tables. */
  function RewrittenFrom(job: Job, order: seq<(Table, Column)>, table: Table, column: Column, i: nat, row: Row): Cell {
    if (table, column) in order
    then EmbeddedCell(job.ids, table, column, RenamedAt(job, table, i))
    else OwnedCell(job.ids, job.run.renames, table, column, Field(row, column))
  }

  function RenamedAt(job: Job, table: Table, i: nat): Row {
    var rows := RenameAll(job.ids, job.run.renames, job.prepared)[table];
    if i < |rows| then rows[i] else map[]
  }

  ghost predicate CellsAreRewritten(job: Job, order: seq<(Table, Column)>, tables: Tables) {
    && SameShape(job.prepared, tables)
    && forall t, i: nat, c | i < |tables[t]| && c in tables[t][i] ::
      tables[t][i][c] == RewrittenFrom(job, order, t, c, i, job.prepared[t][i])
  }

  lemma RewritingPassesRewrite(job: Job, order: seq<(Table, Column)>)
    requires WellFormedMap(job.ids) && OwnedRenames(job.run.renames) && GoodOrder(order)
    ensures CellsAreRewritten(job, order, RewrittenTables(job, order))
  {
    hide WellFormedMap, OwnedCell, EmbeddedCell, OwnedRenames, IsTypeColumn, Owner, HoldsEmbedded;
    var renamed := RenameAll(job.ids, job.run.renames, job.prepared);
    RenameAllCells(job.ids, job.run.renames, job.prepared);
    RewriteAllCells(job.ids, order, renamed);
    var after := RewrittenTables(job, order);
    forall t, i: nat, c | i < |after[t]| && c in after[t][i]
      ensures after[t][i][c] == RewrittenFrom(job, order, t, c, i, job.prepared[t][i])
    {
      assert c in renamed[t][i] && after[t][i][c] == RewrittenCell(job.ids, order, t, c, renamed[t][i]);
    }
  }

  /** An embedded column is not renamed directly, so its rewritten value is shipped or means what it meant. */
  lemma EmbeddedCellIsKept(job: Job, order: seq<(Table, Column)>, table: Table, column: Column, i: nat)
    requires WellFormedMap(job.ids) && OwnedRenames(job.run.renames) && GoodOrder(order)
    requires job.ids == AsMap(job.run.mapRows) && DistinctKeys(job.run.mapRows)
    requires (table, column) in order
    requires i < |job.prepared[table]| && column in job.prepared[table][i]
    ensures var cell := EmbeddedCell(job.ids, table, column, RenamedAt(job, table, i));
      Shipped(job.run.mapRows, cell) || SameCell(job.prepared[table][i][column], cell)
  {
    RenameAllCells(job.ids, job.run.renames, job.prepared);
    var row := RenamedAt(job, table, i);
    assert Field(row, column) == job.prepared[table][i][column];
    EmbeddedCellMentions(job.ids, table, column, row);
    MentionedIsShipped(job.run.mapRows, EmbeddedCell(job.ids, table, column, row));
  }

  lemma MentionedIsShipped(rows: seq<MapRow>, cell: Cell)
    requires DistinctKeys(rows)
    ensures MentionsNewValue(AsMap(rows), CellText(cell)) ==> Shipped(rows, cell)
  {
    if MentionsNewValue(AsMap(rows), CellText(cell)) {
      var key :| key in AsMap(rows) && Includes(CellText(cell), AsMap(rows)[key]);
      AsMapValues(rows);
      var row :| row in rows && row.newValue == AsMap(rows)[key];
    }
  }

  /** Downloader rows carry the credential columns when the schema has them. */
  ghost predicate CredentialColumnsPresent(schema: Schema, tables: Tables) {
    HasCredentials(schema) ==>
      forall row | row in tables[DOWNLOADERS] :: ID in row && TOKEN_HASH in row && TOKEN_JTI in row && ENABLED in row
  }

  ghost predicate CellsAreRevoked(job: Job, order: seq<(Table, Column)>, tables: Tables) {
    && SameShape(job.prepared, tables)
    && forall t, i: nat, c | i < |tables[t]| && c in tables[t][i] && !IsCredentialPlace(job, t, c) ::
      tables[t][i][c] == RewrittenFrom(job, order, t, c, i, job.prepared[t][i])
  }

  lemma RevokedRow(row: Row, hash: Cell, jti: Cell, enabled: Cell)
    requires TOKEN_HASH in row && TOKEN_JTI in row && ENABLED in row
    ensures CredentialRow(row, hash, jti, enabled).Keys == row.Keys
    ensures forall c | c in row && !IsCredential(c) :: CredentialRow(row, hash, jti, enabled)[c] == row[c]
    ensures Field(CredentialRow(row, hash, jti, enabled), ENABLED) == enabled
    ensures Field(CredentialRow(row, hash, jti, enabled), TOKEN_HASH) == hash
  {
  }

  lemma RevokingKeepsRest(job: Job, order: seq<(Table, Column)>, tokens: seq<string>, before: Tables)
    requires CellsAreRewritten(job, order, before) && CredentialColumnsPresent(job.run.schema, job.prepared)
    ensures CellsAreRevoked(job, order, RevokedTables(job.run.schema, tokens, before))
    ensures HasCredentials(job.run.schema) ==>
      CredentialsGone(RevokedTables(job.run.schema, tokens, before)[DOWNLOADERS])
  {
    hide RewrittenFrom, CredentialRow, IsCredential, HasCredentials;
    if HasCredentials(job.run.schema) {
      forall i: nat | i < |before[DOWNLOADERS]|
        ensures var row := before[DOWNLOADERS][i]; TOKEN_HASH in row && TOKEN_JTI in row && ENABLED in row
      {
        assert job.prepared[DOWNLOADERS][i] in job.prepared[DOWNLOADERS];
      }
      RevokedDownloaders(tokens, before[DOWNLOADERS]);
    }
  }

  lemma RevokedDownloaders(tokens: seq<string>, rows: seq<Row>)
    requires forall i | 0 <= i < |rows| :: TOKEN_HASH in rows[i] && TOKEN_JTI in rows[i] && ENABLED in rows[i]
    ensures var after := RevokeCredentials(tokens, rows);
      && CredentialsGone(after)
      && forall i | 0 <= i < |rows| ::
        after[i].Keys == rows[i].Keys && forall c | c in rows[i] && !IsCredential(c) :: after[i][c] == rows[i][c]
  {
    hide CredentialRow, IsCredential;
    var after := RevokeCredentials(tokens, rows);
    forall i: nat | i < |rows|
      ensures after[i].Keys == rows[i].Keys
      ensures forall c | c in rows[i] && !IsCredential(c) :: after[i][c] == rows[i][c]
      ensures Field(after[i], ENABLED) == Number(0) && Field(after[i], TOKEN_HASH) == Text("")
    {
      RevokedRow(rows[i], Text(""), Text(TokenFor(tokens, i)), Number(0));
    }
  }

  // The outcome satisfies what a plan presupposes.

  lemma KeptTablesKeepTheirRows(job: Job, order: seq<(Table, Column)>, table: Table, tables: Tables)
    requires CellsAreRevoked(job, order, tables) && job.run.tables[table] == tables[table]
    requires WellFormedMap(job.ids) && OwnedRenames(job.run.renames) && GoodOrder(order) && ShipsTheOrder(job.run, order)
    requires job.ids == AsMap(job.run.mapRows) && DistinctKeys(job.run.mapRows)
    requires Conforms(job.run.schema, job.prepared)
    ensures KeptOutcome(job, table)
  {
    hide WellFormedMap, OwnedCell, EmbeddedCell, DistinctKeys, Shipped;
    var rows := job.run.tables[table];
    forall i: nat, c | i < |rows| && c in rows[i]
      ensures KeptCell(job, table, c, job.prepared[table][i][c], rows[i][c])
    {
      assert c in job.prepared[table][i] && (table, c) in job.run.schema.columns;
      assert IsCredentialPlace(job, table, c) || rows[i][c] == RewrittenFrom(job, order, table, c, i, job.prepared[table][i]);
      if (table, c) in order {
        assert HoldsEmbedded(table);
        EmbeddedCellIsKept(job, order, table, c, i);
      }
    }
  }

  lemma OtherCellsReachTheGoal(job: Job, order: seq<(Table, Column)>, table: Table, c: Column, i: nat, tables: Tables)
    requires CellsAreRevoked(job, order, tables) && !Kept(table)
    requires GoodOrder(order) && ShipsTheOrder(job.run, order)
    requires i < |tables[table]| && i < |job.prepared[table]| && c in tables[table][i] && c in job.prepared[table][i]
    ensures tables[table][i][c] == GoalCell(job, table, i, c, job.prepared[table][i][c])
  {
    hide OwnedCell, HoldsEmbedded, Owner, IsTypeColumn, IsCredential, EachOnce, SameShape, EmbeddedCell;
    assert (table, c) !in order && (table, c) !in job.run.embedded;
  }

  lemma OtherTablesReachTheGoal(job: Job, order: seq<(Table, Column)>, table: Table, tables: Tables)
    requires CellsAreRevoked(job, order, tables) && Computed(job) && !Kept(table)
    requires GoodOrder(order) && ShipsTheOrder(job.run, order)
    ensures tables[table] == job.goal[table]
  {
    hide OwnedCell, Kept, GoodOrder, ShipsTheOrder, RewrittenFrom, GoalCell, IsCredentialPlace;
    forall i: nat | i < |tables[table]| ensures tables[table][i] == job.goal[table][i] {
      var row, goal := tables[table][i], job.goal[table][i];
      assert row.Keys == goal.Keys;
      forall c | c in row ensures row[c] == goal[c] {
        assert GoalComputed(job, table, i, c);
        OtherCellsReachTheGoal(job, order, table, c, i, tables);
      }
    }
  }

  lemma ClientsAreNotKept()
    ensures !Kept(OAUTH_CLIENT) && !Kept(OAUTH_CLIENT_RESOURCE) && !Kept(OAUTH_CLIENT_REGISTRATION)
  {
  }

  lemma DeletionsAgree(schema: Schema, emptied: seq<Table>, a: Tables, b: Tables)
    requires forall t | !Kept(t) :: a[t] == b[t]
    ensures forall t | !Kept(t) ::
      DropDynamicClients(schema, ClearTables(emptied, a))[t] == DropDynamicClients(schema, ClearTables(emptied, b))[t]
  {
    hide DropRegistered, Kept;
    ClientsAreNotKept();
  }

  lemma PreparationConforms(schema: Schema, tables: Tables)
    requires Conforms(schema, tables)
    ensures Conforms(schema, PreparedTables(schema, tables))
    ensures CredentialColumnsPresent(schema, PreparedTables(schema, tables))
    ensures CredentialColumnsPresent(schema, tables)
  {
    PreparedShape(schema, tables);
    var prepared := PreparedTables(schema, tables);
    forall t, i, c | 0 <= i < |prepared[t]| ensures c in prepared[t][i] <==> (t, c) in schema.columns {
      assert prepared[t][i].Keys == tables[t][i].Keys;
    }
    ConformingCredentials(schema, prepared);
    ConformingCredentials(schema, tables);
  }

  lemma ConformingCredentials(schema: Schema, tables: Tables)
    requires Conforms(schema, tables)
    ensures CredentialColumnsPresent(schema, tables)
  {
    forall row | row in tables[DOWNLOADERS] && HasCredentials(schema)
      ensures ID in row && TOKEN_HASH in row && TOKEN_JTI in row && ENABLED in row
    {
      var i: nat :| i < |tables[DOWNLOADERS]| && tables[DOWNLOADERS][i] == row;
    }
  }

  /** What the local database enforces, or the local run has checked, before a plan is built. */
  ghost predicate Checked(run: LocalRun, original: Tables) {
    && CreatorsAreNamed(run.schema, run.tables)
    && (forall tc | tc in run.embedded :: DistinctPrimaryKeys(run.schema, tc.0, run.tables[tc.0]))
    && (forall tc, k | tc in run.embedded && k in KeyColumns(run.schema, tc.0) :: (tc.0, k) !in run.embedded)
    && (HasCredentials(run.schema) ==> DistinctIds(run.tables[DOWNLOADERS]))
    && (forall v | v in run.validations :: Holds(v, run.tables))
    && run.completedAt != ""
  }

  /** The outcome is that of the local run with these fresh token ids and this order of passes. */
  ghost predicate IsOutcome(run: LocalRun, original: Tables, tokens: seq<string>, order: seq<(Table, Column)>) {
    run.tables == MigratedTables(run.schema, AsMap(run.mapRows), tokens, run.renames, order, run.emptied, original)
  }

  lemma OutcomeIsDeletedFromRevoked(job: Job, tokens: seq<string>, order: seq<(Table, Column)>)
    requires Staged(job) && IsOutcome(job.run, job.original, tokens, order)
    ensures job.run.tables ==
      DropDynamicClients(job.run.schema, ClearTables(job.run.emptied, RevokedOutcome(job, order, tokens)))
  {
  }

  lemma KeptIsUndeleted(job: Job, tokens: seq<string>, order: seq<(Table, Column)>, table: Table)
    requires Staged(job) && IsOutcome(job.run, job.original, tokens, order) && Kept(table)
    ensures job.run.tables[table] == RevokedOutcome(job, order, tokens)[table]
  {
    hide RevokedOutcome, MigratedTables;
    OutcomeIsDeletedFromRevoked(job, tokens, order);
    DeletionsKeepRows(job.run.schema, job.run.emptied, RevokedOutcome(job, order, tokens));
    assert table !in job.deletable;
  }

  lemma OthersAreFinal(job: Job, tokens: seq<string>, order: seq<(Table, Column)>)
    requires Staged(job) && IsOutcome(job.run, job.original, tokens, order)
    requires forall t | !Kept(t) :: RevokedOutcome(job, order, tokens)[t] == job.goal[t]
    ensures forall t | !Kept(t) :: job.run.tables[t] == job.final[t]
  {
    hide RevokedOutcome, MigratedTables, DropDynamicClients;
    OutcomeIsDeletedFromRevoked(job, tokens, order);
    DeletionsAgree(job.run.schema, job.run.emptied, RevokedOutcome(job, order, tokens), job.goal);
  }

  lemma RevokedOutcomeIsRevoked(job: Job, order: seq<(Table, Column)>, tokens: seq<string>)
    requires CellsAreRewritten(job, order, RewrittenTables(job, order))
    requires CredentialColumnsPresent(job.run.schema, job.prepared)
    ensures CellsAreRevoked(job, order, RevokedOutcome(job, order, tokens))
    ensures HasCredentials(job.run.schema) ==> CredentialsGone(RevokedOutcome(job, order, tokens)[DOWNLOADERS])
  {
    RevokingKeepsRest(job, order, tokens, RewrittenTables(job, order));
  }

  lemma KeptTablesAreRewritten(job: Job, tokens: seq<string>, order: seq<(Table, Column)>)
    requires Staged(job) && WellFormedMap(job.ids) && DistinctKeys(job.run.mapRows)
    requires OwnedRenames(job.run.renames) && GoodOrder(order) && ShipsTheOrder(job.run, order)
    requires Conforms(job.run.schema, job.prepared) && IsOutcome(job.run, job.original, tokens, order)
    requires CellsAreRevoked(job, order, RevokedOutcome(job, order, tokens))
    ensures forall t | Kept(t) :: KeptOutcome(job, t)
  {
    hide WellFormedMap, IsOutcome, CellsAreRevoked, RevokedOutcome, DistinctKeys, Conforms, KeptOutcome, OwnedRenames,
      GoodOrder, ShipsTheOrder, Kept;
    forall t | Kept(t) ensures KeptOutcome(job, t) {
      KeptIsUndeleted(job, tokens, order, t);
      KeptTablesKeepTheirRows(job, order, t, RevokedOutcome(job, order, tokens));
    }
  }

  lemma OtherTablesAreFinal(job: Job, tokens: seq<string>, order: seq<(Table, Column)>)
    requires Staged(job) && GoodOrder(order) && ShipsTheOrder(job.run, order) && IsOutcome(job.run, job.original, tokens, order)
    requires CellsAreRevoked(job, order, RevokedOutcome(job, order, tokens))
    ensures forall t | !Kept(t) :: job.run.tables[t] == job.final[t]
  {
    hide Staged, IsOutcome, CellsAreRevoked, RevokedOutcome, GoodOrder, ShipsTheOrder, Kept, Computed;
    StagedIsComputed(job);
    forall t | !Kept(t) ensures RevokedOutcome(job, order, tokens)[t] == job.goal[t] {
      OtherTablesReachTheGoal(job, order, t, RevokedOutcome(job, order, tokens));
    }
    OthersAreFinal(job, tokens, order);
  }

  lemma ShippedColumnsAreGood(job: Job, order: seq<(Table, Column)>)
    requires OwnedRenames(job.run.renames) && GoodOrder(order) && ShipsTheOrder(job.run, order) && Checked(job.run, job.original)
    requires CreatorsComeFirst(job.run.schema, job.run.renames)
    ensures GoodColumns(job)
  {
    hide Owner, HoldsEmbedded, IsTypeColumn, OwnedRenames, CreatorsComeFirst, Holds, DistinctPrimaryKeys, CreatorsAreNamed;
  }

  lemma DownloadersAreKept()
    ensures Kept(DOWNLOADERS)
  {
  }

  lemma StagedPrepares(job: Job)
    requires Staged(job)
    ensures job.prepared == PreparedTables(job.run.schema, job.original) && job.ids == AsMap(job.run.mapRows)
  {
  }

  /** The outcome has rewritten rows in the kept tables, and the final rows in the others. */
  ghost predicate OutcomeIsGood(job: Job) {
    && (forall t | Kept(t) :: KeptOutcome(job, t))
    && (forall t | !Kept(t) :: job.run.tables[t] == job.final[t])
    && (HasCredentials(job.run.schema) ==> CredentialsGone(job.run.tables[DOWNLOADERS]))
    && CredentialColumnsPresent(job.run.schema, job.original)
  }

  lemma LocalOutcomeIsGood(job: Job, tokens: seq<string>, order: seq<(Table, Column)>)
    requires Staged(job) && WellFormedMap(job.ids) && DistinctKeys(job.run.mapRows)
    requires OwnedRenames(job.run.renames) && GoodOrder(order) && ShipsTheOrder(job.run, order)
    requires Conforms(job.run.schema, job.original) && IsOutcome(job.run, job.original, tokens, order)
    ensures OutcomeIsGood(job)
  {
    hide Staged, WellFormedMap, IsOutcome, CellsAreRevoked, CellsAreRewritten, RevokedOutcome, RewrittenTables, DistinctKeys,
      Conforms, KeptOutcome, OwnedRenames, ShipsTheOrder, GoodOrder, PreparedTables, CredentialsGone,
      CredentialColumnsPresent, Kept, HasCredentials, AsMap;
    DownloadersAreKept();
    StagedPrepares(job);
    PreparationConforms(job.run.schema, job.original);
    RewritingPassesRewrite(job, order);
    RevokedOutcomeIsRevoked(job, order, tokens);
    KeptTablesAreRewritten(job, tokens, order);
    OtherTablesAreFinal(job, tokens, order);
    KeptIsUndeleted(job, tokens, order, DOWNLOADERS);
  }

  /** Whatever order visits the embedded columns once each, the local run is one whose plan can be replayed. */
  lemma LocalRunIsAGoodJob(job: Job, tokens: seq<string>, order: seq<(Table, Column)>)
    requires Staged(job) && WellFormedMap(job.ids) && DistinctKeys(job.run.mapRows)
    requires OwnedRenames(job.run.renames) && GoodOrder(order) && ShipsTheOrder(job.run, order)
    requires Conforms(job.run.schema, job.original)
    requires IsOutcome(job.run, job.original, tokens, order) && Checked(job.run, job.original)
    requires CreatorsComeFirst(job.run.schema, job.run.renames)
    ensures GoodJob(job)
  {
    hide Staged, WellFormedMap, IsOutcome, DistinctKeys, Conforms, CreatorsAreNamed, DistinctPrimaryKeys, Holds,
      KeptOutcome, OwnedRenames, ShipsTheOrder, GoodOrder, GoodColumns, CredentialsGone, DistinctIds, Kept, HasCredentials,
      CreatorsComeFirst;
    LocalOutcomeIsGood(job, tokens, order);
    ShippedColumnsAreGood(job, order);
  }

  // The columns and tables the migration visits.

  function ExistingColumns(schema: Schema, columns: seq<(Table, Column)>): (r: seq<(Table, Column)>)
    ensures forall tc :: tc in r <==> (tc in columns && schema.HasColumn(tc.0, tc.1))
  {
    if columns == [] then []
    else
      var rest := ExistingColumns(schema, columns[1..]);
      if schema.HasColumn(columns[0].0, columns[0].1) then [columns[0]] + rest else rest
  }

  /** The run visits what the migration lists: every kind's targets, the embedded columns, the invalidated tables. */
  ghost predicate VisitsTheRegistry(run: LocalRun) {
    && run.renames == RenameList(run.schema, VALUE_KINDS)
    && run.embedded == ExistingColumns(run.schema, EMBEDDED_COLUMNS)
    && run.emptied == INVALIDATED_TABLES
  }

  lemma RegistryOrderIsGood()
    ensures GoodOrder(LOCAL_REWRITE_ORDER)
  {
    LocalOrderVisitsEachOnce();
    forall tc | tc in LOCAL_REWRITE_ORDER ensures Owner(tc.0, tc.1).None? && HoldsEmbedded(tc.0) {
      LocalOrderCoversEmbedded(tc.0, tc.1);
      EmbeddedColumnsAreSeparate(tc.0, tc.1);
    }
  }

  lemma RegistryOrderIsShipped(run: LocalRun)
    requires run.embedded == ExistingColumns(run.schema, EMBEDDED_COLUMNS)
    ensures ShipsTheOrder(run, LOCAL_REWRITE_ORDER)
  {
    forall tc: (Table, Column)
      ensures tc in run.embedded <==> (tc in LOCAL_REWRITE_ORDER && run.schema.HasColumn(tc.0, tc.1))
    {
      LocalOrderCoversEmbedded(tc.0, tc.1);
      assert tc == (tc.0, tc.1);
    }
  }

  lemma InvalidatedTablesAreNotKept(table: Table)
    requires table in INVALIDATED_TABLES
    ensures !Kept(table)
    ensures table != OAUTH_CLIENT && table != OAUTH_CLIENT_RESOURCE && table != OAUTH_CLIENT_REGISTRATION
  {
    NothingEmbeddedIsInvalidated(table);
  }

  /** The stages of a run on a copy of its original tables. */
  ghost function JobOf(run: LocalRun, original: Tables): (job: Job)
    ensures job.run == run && job.original == original && job.ids == AsMap(run.mapRows)
  {
    var prepared := PreparedTables(run.schema, original);
    var base := Job(run, AsMap(run.mapRows), DeletableTables(run.emptied), original, prepared, original, original);
    var goal := GoalTables(base);
    base.(goal := goal, final := DropDynamicClients(run.schema, ClearTables(run.emptied, goal)))
  }

  lemma GoalRowsAgree(a: Job, b: Job, table: Table, i: nat, row: Row)
    requires a.run == b.run && a.ids == b.ids
    ensures GoalRow(a, table, i, row) == GoalRow(b, table, i, row)
  {
    hide OwnedCell;
    forall c | c in row ensures GoalRow(a, table, i, row)[c] == GoalRow(b, table, i, row)[c] {
    }
  }

  lemma GoalsAgree(a: Job, b: Job)
    requires a.run == b.run && a.ids == b.ids && a.original == b.original && a.prepared == b.prepared
    ensures GoalTables(a) == GoalTables(b)
  {
    hide GoalRows, GoalRow, GoalTables;
    forall t ensures GoalTables(a)[t] == GoalTables(b)[t] {
      GoalsOfTableAgree(a, b, t);
    }
  }

  lemma GoalsOfTableAgree(a: Job, b: Job, table: Table)
    requires a.run == b.run && a.ids == b.ids && a.prepared == b.prepared
    ensures GoalRows(a, table) == GoalRows(b, table)
  {
    hide GoalRow, GoalRows;
    forall i: nat | i < |a.prepared[table]| ensures GoalRows(a, table)[i] == GoalRows(b, table)[i] {
      GoalRowsAgree(a, b, table, i, a.prepared[table][i]);
    }
  }

  lemma KeepsTheRegistry(job: Job)
    requires job.deletable == DeletableTables(INVALIDATED_TABLES)
    ensures KeepsTables(job)
    ensures OAUTH_CLIENT !in INVALIDATED_TABLES && OAUTH_CLIENT_RESOURCE !in INVALIDATED_TABLES
    ensures OAUTH_CLIENT_REGISTRATION !in INVALIDATED_TABLES
  {
    hide Kept;
    ClientsAreNotKept();
    forall t | t in INVALIDATED_TABLES
      ensures !Kept(t) && t != OAUTH_CLIENT && t != OAUTH_CLIENT_RESOURCE && t != OAUTH_CLIENT_REGISTRATION
    {
      InvalidatedTablesAreNotKept(t);
    }
  }

  lemma JobOfIsStaged(run: LocalRun, original: Tables)
    requires run.emptied == INVALIDATED_TABLES
    ensures Staged(JobOf(run, original))
  {
    hide GoalTables, PreparedTables, DropDynamicClients, AsMap, KeepsTables;
    var job := JobOf(run, original);
    var base := Job(run, job.ids, DeletableTables(run.emptied), original, job.prepared, original, original);
    GoalsAgree(base, job);
    KeepsTheRegistry(job);
  }

  lemma {:induction false} CreatorsAmongRenames(schema: Schema, kind: Kind, targets: seq<Reference>)
    requires schema.HasColumn(DOWNLOAD_TASKS, CREATED_BY_USER_ID)
    requires exists t | t in targets :: (t.table, t.column) == (DOWNLOAD_TASKS, CREATED_BY_USER_ID)
    requires forall t | t in targets :: (t.table, t.column) != (API_KEY, ID)
    ensures IsRenamed(RenamesOf(schema, kind, targets), DOWNLOAD_TASKS, CREATED_BY_USER_ID)
    ensures forall rest :: CreatorsLeadKeys(RenamesOf(schema, kind, targets) + rest)
  {
    var first, tail := targets[0], RenamesOf(schema, kind, targets[1..]);
    if (first.table, first.column) == (DOWNLOAD_TASKS, CREATED_BY_USER_ID) {
      forall rest ensures CreatorsLeadKeys(RenamesOf(schema, kind, targets) + rest) {
        assert (RenamesOf(schema, kind, targets) + rest)[0] == Rename(kind, first.table, first.column);
      }
    } else {
      CreatorsAmongRenames(schema, kind, targets[1..]);
      forall rest ensures CreatorsLeadKeys(RenamesOf(schema, kind, targets) + rest) {
        var whole := RenamesOf(schema, kind, targets) + rest;
        if schema.HasColumn(first.table, first.column) {
          assert whole[0] == Rename(kind, first.table, first.column) && whole[1..] == tail + rest;
        }
      }
      var r :| r in tail && r.table == DOWNLOAD_TASKS && r.column == CREATED_BY_USER_ID;
      assert r in RenamesOf(schema, kind, targets);
    }
  }

  /** Users are the first kind; creators are among their references, and key ids are not. */
  lemma RegistryRenamesCreatorsFirst(schema: Schema)
    ensures CreatorsComeFirst(schema, RenameList(schema, VALUE_KINDS))
  {
    hide Owner, CreatorsLeadKeys, RenamesOf;
    if HasLegacyCreators(schema) {
      var targets := Targets(RowId(USER));
      assert VALUE_KINDS[0] == RowId(USER);
      CreatorIsUserReference();
      forall t | t in targets ensures (t.table, t.column) != (API_KEY, ID) {
        TargetsHaveOneOwner(RowId(USER), t);
        PrimaryHasOneOwner(RowId(API_KEY));
      }
      CreatorsAmongRenames(schema, RowId(USER), targets);
    }
  }

  lemma CreatorIsUserReference()
    ensures Historical(DOWNLOAD_TASKS, CREATED_BY_USER_ID) in References(RowId(USER))
    ensures Historical(DOWNLOAD_TASKS, CREATED_BY_USER_ID) in Targets(RowId(USER))
  {
    assert References(RowId(USER))[19] == Historical(DOWNLOAD_TASKS, CREATED_BY_USER_ID);
  }

  /** A run of the migration as it stands gives a job whose plan can be replayed. */
  lemma MigrationIsAGoodJob(run: LocalRun, original: Tables, tokens: seq<string>)
    requires VisitsTheRegistry(run) && DistinctKeys(run.mapRows) && WellFormedMap(AsMap(run.mapRows))
    requires Conforms(run.schema, original)
    requires IsOutcome(run, original, tokens, LOCAL_REWRITE_ORDER) && Checked(run, original)
    ensures GoodJob(JobOf(run, original))
  {
    hide WellFormedMap, DistinctKeys, Conforms, IsOutcome, Checked, GoodOrder, ShipsTheOrder, RenameList,
      ExistingColumns, Staged, GoodJob, CreatorsComeFirst;
    RegistryOrderIsGood();
    RegistryOrderIsShipped(run);
    RenameListIsOwned(run.schema, VALUE_KINDS);
    RegistryRenamesCreatorsFirst(run.schema);
    JobOfIsStaged(run, original);
    LocalRunIsAGoodJob(JobOf(run, original), tokens, LOCAL_REWRITE_ORDER);
  }
}
