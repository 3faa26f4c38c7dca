/** The end of a replay: rows are deleted, and every final check passes. */
module D1Deletions {
  import opened Wrappers
  import opened IdRegistry
  import opened IdValues
  import opened IdMapTable
  import opened IdTables
  import opened IdMigration
  import opened PlanChunks
  import opened JsonAssertions
  import opened D1Plan
  import opened D1Progress
  import opened D1Replay

  // Dynamic clients.

  lemma {:induction false} FilterOfKeepersIsIdentity(rows: seq<Row>, keep: Row -> bool)
    requires forall row | row in rows :: keep(row)
    ensures FilterRows(rows, keep) == rows
  {
    if rows != [] {
      assert rows[0] in rows;
      FilterOfKeepersIsIdentity(rows[1..], keep);
      assert rows == [rows[0]] + rows[1..];
    }
  }

  lemma DroppingAgain(registrations: seq<Row>, rows: seq<Row>)
    ensures DropRegistered(registrations, DropRegistered(registrations, rows)) == DropRegistered(registrations, rows)
    ensures DropRegistered([], rows) == rows
  {
    FilterOfKeepersIsIdentity(DropRegistered(registrations, rows), row => !IsRegistered(registrations, row));
    FilterOfKeepersIsIdentity(rows, row => !IsRegistered([], row));
  }

  /** Dropping from a table that is whole or already reduced leaves the reduced table. */
  lemma RegistrationsAreWholeOrGone(job: Job, tables: Tables)
    requires AllArrived(job, tables) && TablesProgress(job, tables) && Shaped(job) && DeletionsLead(job) && HasDynamicClients(job.run.schema)
    ensures var registrations := tables[OAUTH_CLIENT_REGISTRATION];
      || registrations == job.goal[OAUTH_CLIENT_REGISTRATION]
      || (registrations == [] && Deleted(job, OAUTH_CLIENT, tables[OAUTH_CLIENT])
          && Deleted(job, OAUTH_CLIENT_RESOURCE, tables[OAUTH_CLIENT_RESOURCE]))
  {
    hide InOrder, OnTrack, KeepsTables, DropRegistered;
    if Partial(job, OAUTH_CLIENT_REGISTRATION, tables[OAUTH_CLIENT_REGISTRATION]) {
      assert |tables[OAUTH_CLIENT_REGISTRATION]| == |job.goal[OAUTH_CLIENT_REGISTRATION]|;
    }
  }

  lemma DropArrives(job: Job, tables: Tables, table: Table)
    requires AllArrived(job, tables) && TablesProgress(job, tables) && Shaped(job) && DeletionsLead(job) && HasDynamicClients(job.run.schema)
    requires table == OAUTH_CLIENT
      || (table == OAUTH_CLIENT_RESOURCE && job.run.schema.HasColumn(OAUTH_CLIENT_RESOURCE, CLIENT_ID))
    ensures DropRegistered(tables[OAUTH_CLIENT_REGISTRATION], tables[table]) == job.final[table]
  {
    hide TablesProgress, Shaped, DropRegistered;
    RegistrationsAreWholeOrGone(job, tables);
    DroppingAgain(job.goal[OAUTH_CLIENT_REGISTRATION], job.goal[table]);
    DroppingAgain(job.goal[OAUTH_CLIENT_REGISTRATION], job.final[table]);
  }

  lemma ResourcesStep(schema: Schema, st: D1)
    requires Pending(st)
    ensures Step(schema, DropResources, st) == Some(st.(tables := st.tables[OAUTH_CLIENT_RESOURCE :=
      DropRegistered(st.tables[OAUTH_CLIENT_REGISTRATION], st.tables[OAUTH_CLIENT_RESOURCE])]))
  {
  }

  lemma ClientsStep(schema: Schema, st: D1)
    requires Pending(st)
    ensures Step(schema, DropClients, st) == Some(st.(tables := st.tables[OAUTH_CLIENT :=
      DropRegistered(st.tables[OAUTH_CLIENT_REGISTRATION], st.tables[OAUTH_CLIENT])]))
  {
  }

  lemma RegistrationsStep(schema: Schema, st: D1)
    requires Pending(st)
    ensures Step(schema, DropRegistrations, st) == Some(st.(tables := st.tables[OAUTH_CLIENT_REGISTRATION := []]))
  {
  }

  /** A statement that brings one table to its final rows. */
  lemma RunDeletion(job: Job, s: Statement, table: Table, st: D1) returns (end: D1)
    requires KeepsTables(job)
    requires Progress(job, st) && PreparationDone(job, st.tables) && AllArrived(job, st.tables)
    requires table in job.deletable
    requires Step(job.run.schema, s, st) == Some(st.(tables := Settled(job, table, st.tables)))
    requires table == OAUTH_CLIENT_REGISTRATION ==>
      Deleted(job, OAUTH_CLIENT, st.tables[OAUTH_CLIENT]) && Deleted(job, OAUTH_CLIENT_RESOURCE, st.tables[OAUTH_CLIENT_RESOURCE])
    ensures end == st.(tables := Settled(job, table, st.tables))
    ensures Reaches(job, [s], st, end)
    ensures Progress(job, end) && PreparationDone(job, end.tables) && AllArrived(job, end.tables)
  {
    hide Progress, Reaches, Step, TablesProgress, Partial, SameShape, KeepsTables, PreparationDone, AllArrived, DeletionsLead;
    InProgress(job, st);
    DeletingMakesProgress(job, st.tables, table);
    end := st.(tables := Settled(job, table, st.tables));
    ProgressGoesOn(job, st, end.tables);
    ReachesByStep(job, s, st, end);
  }

  /** Where nothing is to be dropped, a table that has arrived is already final. */
  lemma NothingToDrop(job: Job, tables: Tables, table: Table)
    requires AllArrived(job, tables) && table in job.deletable && job.final[table] == job.goal[table]
    ensures Deleted(job, table, tables[table]) && tables == Settled(job, table, tables)
  {
  }

  lemma ClientsAreDeletable(job: Job)
    requires DeletionsLead(job)
    ensures OAUTH_CLIENT in job.deletable && OAUTH_CLIENT_RESOURCE in job.deletable
    ensures OAUTH_CLIENT_REGISTRATION in job.deletable
    ensures HasDynamicClients(job.run.schema) ==> job.final[OAUTH_CLIENT_REGISTRATION] == []
    ensures HasDynamicClients(job.run.schema) && !job.run.schema.HasColumn(OAUTH_CLIENT_RESOURCE, CLIENT_ID) ==>
      job.final[OAUTH_CLIENT_RESOURCE] == job.goal[OAUTH_CLIENT_RESOURCE]
  {
  }

  lemma RunResourceDrop(job: Job, st: D1) returns (end: D1)
    requires Shaped(job) && DeletionsLead(job) && HasDynamicClients(job.run.schema)
    requires KeepsTables(job)
    requires Progress(job, st) && PreparationDone(job, st.tables) && AllArrived(job, st.tables)
    ensures end == st.(tables := Settled(job, OAUTH_CLIENT_RESOURCE, st.tables))
    ensures Reaches(job, ResourceStatements(job.run.schema), st, end)
    ensures Progress(job, end) && PreparationDone(job, end.tables) && AllArrived(job, end.tables)
  {
    hide Progress, Reaches, Step, TablesProgress, Partial, SameShape, KeepsTables, PreparationDone, AllArrived, DeletionsLead;
    if job.run.schema.HasColumn(OAUTH_CLIENT_RESOURCE, CLIENT_ID) {
      InProgress(job, st);
      ClientsAreDeletable(job);
      DropArrives(job, st.tables, OAUTH_CLIENT_RESOURCE);
      ResourcesStep(job.run.schema, st);
      end := RunDeletion(job, DropResources, OAUTH_CLIENT_RESOURCE, st);
    } else {
      ClientsAreDeletable(job);
      NothingToDrop(job, st.tables, OAUTH_CLIENT_RESOURCE);
      ReachesNowhere(job, st);
      end := st;
    }
  }

  lemma RunClientDrop(job: Job, st: D1) returns (end: D1)
    requires Shaped(job) && DeletionsLead(job) && HasDynamicClients(job.run.schema)
    requires KeepsTables(job)
    requires Progress(job, st) && PreparationDone(job, st.tables) && AllArrived(job, st.tables)
    ensures end == st.(tables := Settled(job, OAUTH_CLIENT, st.tables))
    ensures Reaches(job, [DropClients], st, end)
    ensures Progress(job, end) && PreparationDone(job, end.tables) && AllArrived(job, end.tables)
  {
    hide Progress, Reaches, Step, TablesProgress, Partial, SameShape, KeepsTables, PreparationDone, AllArrived, DeletionsLead, DropRegistered, Deleted;
    InProgress(job, st);
    ClientsAreDeletable(job);
    DropArrives(job, st.tables, OAUTH_CLIENT);
    ClientsStep(job.run.schema, st);
    end := RunDeletion(job, DropClients, OAUTH_CLIENT, st);
  }

  lemma RunRegistrationDrop(job: Job, st: D1) returns (end: D1)
    requires DeletionsLead(job) && HasDynamicClients(job.run.schema)
    requires KeepsTables(job)
    requires Progress(job, st) && PreparationDone(job, st.tables) && AllArrived(job, st.tables)
    requires Deleted(job, OAUTH_CLIENT, st.tables[OAUTH_CLIENT])
    requires Deleted(job, OAUTH_CLIENT_RESOURCE, st.tables[OAUTH_CLIENT_RESOURCE])
    ensures end == st.(tables := Settled(job, OAUTH_CLIENT_REGISTRATION, st.tables))
    ensures Reaches(job, [DropRegistrations], st, end)
    ensures Progress(job, end)
  {
    hide Progress, Reaches, Step, TablesProgress, Partial, SameShape, KeepsTables, PreparationDone, AllArrived, DeletionsLead;
    InProgress(job, st);
    ClientsAreDeletable(job);
    RegistrationsStep(job.run.schema, st);
    end := RunDeletion(job, DropRegistrations, OAUTH_CLIENT_REGISTRATION, st);
  }

  function WithoutClients(job: Job, tables: Tables): Tables {
    Settled(job, OAUTH_CLIENT_REGISTRATION, Settled(job, OAUTH_CLIENT, Settled(job, OAUTH_CLIENT_RESOURCE, tables)))
  }

  lemma RunDynamicDrops(job: Job, st: D1) returns (end: D1)
    requires Shaped(job) && DeletionsLead(job) && HasDynamicClients(job.run.schema)
    requires KeepsTables(job)
    requires Progress(job, st) && PreparationDone(job, st.tables) && AllArrived(job, st.tables)
    ensures end == st.(tables := WithoutClients(job, st.tables))
    ensures Reaches(job, ResourceStatements(job.run.schema) + ([DropClients] + [DropRegistrations]), st, end)
    ensures Progress(job, end)
  {
    hide Progress, Reaches, Step, TablesProgress, Partial, SameShape, KeepsTables, PreparationDone, AllArrived, DeletionsLead;
    ClientsAreDeletable(job);
    var first := RunResourceDrop(job, st);
    var second := RunClientDrop(job, first);
    end := RunRegistrationDrop(job, second);
    ReachesInSequence(job, [DropClients], [DropRegistrations], first, second, end);
    ReachesInSequence(job, ResourceStatements(job.run.schema), [DropClients] + [DropRegistrations], st, first, end);
  }

  lemma NoDynamicDrops(job: Job, tables: Tables)
    requires DeletionsLead(job) && !HasDynamicClients(job.run.schema) && AllArrived(job, tables)
    ensures WithoutClients(job, tables) == tables
  {
    NothingToDrop(job, tables, OAUTH_CLIENT_RESOURCE);
    NothingToDrop(job, tables, OAUTH_CLIENT);
    NothingToDrop(job, tables, OAUTH_CLIENT_REGISTRATION);
  }

  lemma RunDrops(job: Job, st: D1) returns (end: D1)
    requires Shaped(job) && DeletionsLead(job)
    requires KeepsTables(job)
    requires Progress(job, st) && PreparationDone(job, st.tables) && AllArrived(job, st.tables)
    ensures end == st.(tables := WithoutClients(job, st.tables))
    ensures Reaches(job, DropStatements(job.run.schema), st, end)
    ensures Progress(job, end)
  {
    hide Progress, Reaches, Step, TablesProgress, Partial, SameShape, KeepsTables, PreparationDone, AllArrived, DeletionsLead;
    if HasDynamicClients(job.run.schema) {
      end := RunDynamicDrops(job, st);
      assert [DropClients] + [DropRegistrations] == [DropClients, DropRegistrations];
    } else {
      NoDynamicDrops(job, st.tables);
      ReachesNowhere(job, st);
      end := st;
    }
  }

  lemma DeletionsComplete(job: Job, tables: Tables)
    requires AllArrived(job, tables) && DeletionsLead(job)
    requires forall t | t in job.run.emptied :: Deleted(job, t, tables[t])
    ensures WithoutClients(job, tables) == job.final
  {
    hide DropRegistered, HasDynamicClients, Deleted;
    ClientsAreDeletable(job);
    var after := WithoutClients(job, tables);
    forall t ensures after[t] == job.final[t] {
      TableIsFinal(job, tables, t);
    }
  }

  lemma TableIsFinal(job: Job, tables: Tables, table: Table)
    requires AllArrived(job, tables) && DeletionsLead(job)
    requires table in job.run.emptied ==> Deleted(job, table, tables[table])
    ensures WithoutClients(job, tables)[table] == job.final[table]
  {
    hide DropRegistered, HasDynamicClients;
    if table !in job.deletable {
      assert tables[table] == job.goal[table];
    }
  }

  // The final checks.

  lemma {:induction false} CountsAgree(m: IdMap, kind: Kind, column: Column, a: seq<Row>, b: seq<Row>)
    requires |a| == |b| && forall i | 0 <= i < |a| :: Field(a[i], column) == Field(b[i], column)
    ensures CountNewValues(m, kind, column, a) == CountNewValues(m, kind, column, b)
  {
    if a != [] {
      assert Field(a[0], column) == Field(b[0], column);
      assert forall i | 0 <= i < |a[1..]| :: a[1..][i] == a[i + 1] && b[1..][i] == b[i + 1];
      CountsAgree(m, kind, column, a[1..], b[1..]);
    }
  }

  lemma NoOldValueRemains(job: Job, r: Rename, row: Row)
    requires WellFormedMap(job.ids) && RenamesLead(job) && Shaped(job)
    requires r in job.run.renames && row in job.goal[r.table]
    requires Field(row, r.column).Text?
    ensures (r.kind, Field(row, r.column).text) !in job.ids
  {
    var i: nat :| i < |job.goal[r.table]| && job.goal[r.table][i] == row;
    assert RenameLeads(job, r, i);
    var value := Field(row, r.column).text;
    assert Renamed(job.ids, r.kind, value) == value;
    RenamingIsIdempotent(job.ids, r.kind, value);
  }

  lemma RenamedCheckPasses(job: Job, r: Rename, st: D1)
    requires WellFormedMap(job.ids) && RenamesLead(job) && Shaped(job) && FinalWithinGoal(job) && RenamedColumnsAgree(job)
    requires r in job.run.renames && st.tables == job.final && AsMap(st.mapRows) == job.ids
    requires job.ids == AsMap(job.run.mapRows)
    ensures Passes(job.run.schema,
      ColumnRenamed(r, CountNewValues(AsMap(job.run.mapRows), r.kind, r.column, job.run.tables[r.table])), st)
  {
    assert RenamedColumnAgrees(job, r);
    CountsAgree(job.ids, r.kind, r.column, job.final[r.table], job.run.tables[r.table]);
    forall row | row in job.final[r.table] && Field(row, r.column).Text?
      ensures (r.kind, Field(row, r.column).text) !in job.ids
    {
      NoOldValueRemains(job, r, row);
    }
  }

  lemma SameTargets(a: Tables, b: Tables, table: Table, column: Column, cell: Cell)
    requires SameRows(a[table], b[table]) && !cell.Doc? && IsTarget(b, table, column, cell)
    ensures IsTarget(a, table, column, cell)
  {
    var other :| other in b[table] && Field(other, column) == cell;
    var i :| 0 <= i < |b[table]| && b[table][i] == other;
    assert SameCell(Field(a[table][i], column), Field(b[table][i], column));
    assert a[table][i] in a[table];
  }

  /** A well-formed row stays so when tables are spelled differently. */
  lemma TwinIsWellFormed(validation: Validation, a: Tables, b: Tables, row: Row, twin: Row)
    requires SameData(a, b) && RowIsWellFormed(validation, b, twin)
    requires forall c :: SameCell(Field(row, c), Field(twin, c))
    ensures RowIsWellFormed(validation, a, row)
  {
    hide IsTarget, HasForeignChar, InvalidValue, NamesDownloader, SameRows, IsTypedException, TreePasses;
    match validation {
      case KeyResolves(_, column, target, targetColumn) =>
        assert SameCell(Field(row, column), Field(twin, column)) && SameRows(a[target], b[target]);
        if !Field(row, column).Doc? && IsTarget(b, target, targetColumn, Field(row, column)) {
          SameTargets(a, b, target, targetColumn, Field(row, column));
        }
      case Format(_, _, column, _) => assert SameCell(Field(row, column), Field(twin, column));
      case Resolves(_, column, target, targetColumn) =>
        assert SameCell(Field(row, column), Field(twin, column)) && SameRows(a[target], b[target]);
        if Field(row, column).Text? && Field(row, column).text != "" {
          SameTargets(a, b, target, targetColumn, Field(row, column));
        }
      case TypedFormat(reference) => TwinIsTyped(reference, a, b, row, twin);
      case TypedResolves(_, typeColumn, name, valueColumn, target, targetColumn) =>
        assert SameCell(Field(row, typeColumn), Field(twin, typeColumn));
        assert SameCell(Field(row, valueColumn), Field(twin, valueColumn)) && SameRows(a[target], b[target]);
        var cell := Field(row, valueColumn);
        if Field(row, typeColumn) == Text(name) && cell.Text? && cell.text != "" {
          SameTargets(a, b, target, targetColumn, cell);
        }
      case CreatorFormat => assert SameCell(Field(row, CREATED_BY), Field(twin, CREATED_BY));
      case CreatorResolves =>
        var cell := Field(row, CREATED_BY);
        assert SameCell(cell, Field(twin, CREATED_BY)) && SameRows(a[USER], b[USER]) && SameRows(a[DOWNLOADERS], b[DOWNLOADERS]);
        if cell.Text? && NamesDownloader(cell.text) {
          NamedDownloaderIsLong(cell.text);
          SameTargets(a, b, DOWNLOADERS, ID, Text(cell.text[11..]));
        } else if cell.Text? {
          SameTargets(a, b, USER, ID, cell);
        }
      case JsonValid(_, column) => assert SameCell(Field(row, column), Field(twin, column));
      case JsonNodes(check, table, column) =>
        assert SameCell(Field(row, column), Field(twin, column));
        TwinPasses(check, a, b, (table, column), Field(row, column), Field(twin, column));
    }
  }

  lemma TwinPasses(check: NodeCheck, a: Tables, b: Tables, source: (Table, Column), cell: Cell, twin: Cell)
    requires SameData(a, b) && SameCell(cell, twin) && DocumentPasses(check, b, source, twin)
    ensures DocumentPasses(check, a, source, cell)
  {
    hide IsTarget, TreePasses;
    forall t, c, text | IsTarget(b, t, c, Text(text)) ensures IsTarget(a, t, c, Text(text)) {
      assert SameRows(a[t], b[t]);
      SameTargets(a, b, t, c, Text(text));
    }
    if cell.Doc? {
      TreePassesElsewhere(check, a, b, source, cell.tree, NoKey, NoKey);
    }
  }

  lemma NamedDownloaderIsLong(text: string)
    requires NamesDownloader(text)
    ensures |text| >= 11
  {
  }

  lemma TwinIsTyped(reference: Polymorphic, a: Tables, b: Tables, row: Row, twin: Row)
    requires RowIsWellFormed(TypedFormat(reference), b, twin)
    requires forall c :: SameCell(Field(row, c), Field(twin, c))
    ensures RowIsWellFormed(TypedFormat(reference), a, row)
  {
    assert SameCell(Field(row, reference.typeColumn), Field(twin, reference.typeColumn));
    assert SameCell(Field(row, reference.valueColumn), Field(twin, reference.valueColumn));
    assert SameCell(Field(row, STATUS), Field(twin, STATUS));
    assert SameCell(Field(row, RESOURCE_TYPE), Field(twin, RESOURCE_TYPE));
  }

  /** The shared queries do not see how a document is spelled. */
  lemma ValidationCarriesOver(validation: Validation, a: Tables, b: Tables)
    requires SameData(a, b) && Holds(validation, b)
    ensures Holds(validation, a)
  {
    hide RowIsWellFormed;
    var table := ValidatedTable(validation);
    assert SameRows(a[table], b[table]);
    forall row | row in a[table] ensures RowIsWellFormed(validation, a, row) {
      var i :| 0 <= i < |a[table]| && a[table][i] == row;
      var twin := b[table][i];
      assert twin in b[table];
      assert forall c :: SameCell(Field(row, c), Field(twin, c));
      TwinIsWellFormed(validation, a, b, row, twin);
    }
  }

  lemma {:induction false} RunChecks(job: Job, checks: seq<Check>, st: D1)
    requires Progress(job, st)
    requires forall check | check in checks :: Passes(job.run.schema, check, st)
    ensures Reaches(job, CheckStatements(checks), st, st)
    decreases |checks|
  {
    if checks == [] {
      ReachesNowhere(job, st);
    } else {
      assert checks[0] in checks;
      CheckPasses(job, checks[0], st);
      RunChecks(job, checks[1..], st);
      ReachesInSequence(job, [Assert(checks[0])], CheckStatements(checks[1..]), st, st, st);
    }
  }

  lemma {:induction false} RenamedChecksPass(job: Job, renames: seq<Rename>, st: D1)
    requires WellFormedMap(job.ids) && RenamesLead(job) && Shaped(job) && FinalWithinGoal(job) && RenamedColumnsAgree(job)
    requires st.tables == job.final && AsMap(st.mapRows) == job.ids && job.ids == AsMap(job.run.mapRows)
    requires forall r | r in renames :: r in job.run.renames
    ensures forall check | check in RenamedChecks(job.run, renames) :: Passes(job.run.schema, check, st)
    decreases |renames|
  {
    if renames != [] {
      RenamedCheckPasses(job, renames[0], st);
      RenamedChecksPass(job, renames[1..], st);
    }
  }

  lemma {:induction false} RowCountChecksPass(job: Job, tables: seq<Table>, st: D1)
    requires SameData(job.final, job.run.tables) && st.tables == job.final
    ensures forall check | check in RowCountChecks(job.run, tables) :: Passes(job.run.schema, check, st)
    decreases |tables|
  {
    hide Passes, SameData;
    if tables != [] {
      RowCountPasses(job, tables[0], st);
      RowCountChecksPass(job, tables[1..], st);
    }
  }

  lemma RowCountPasses(job: Job, table: Table, st: D1)
    requires SameData(job.final, job.run.tables) && st.tables == job.final
    ensures Passes(job.run.schema, RowCount(table, |job.run.tables[table]|), st)
  {
    assert SameRows(job.final[table], job.run.tables[table]);
  }

  lemma {:induction false} ValidationChecksPass(job: Job, validations: seq<Validation>, st: D1)
    requires SameData(job.final, job.run.tables) && st.tables == job.final
    requires forall v | v in validations :: Holds(v, job.run.tables)
    ensures forall check | check in ValidationChecks(validations) :: Passes(job.run.schema, check, st)
    decreases |validations|
  {
    hide Passes, SameData, Holds;
    if validations != [] {
      assert validations[0] in validations;
      ValidationCarriesOver(validations[0], job.final, job.run.tables);
      ValidPasses(job.run.schema, validations[0], st);
      ValidationChecksPass(job, validations[1..], st);
    }
  }

  lemma ValidPasses(schema: Schema, validation: Validation, st: D1)
    requires Holds(validation, st.tables)
    ensures Passes(schema, Valid(validation), st)
  {
    hide Holds;
  }

  lemma CreatorsCheckPasses(job: Job, st: D1)
    requires Shaped(job) && PreparationLeads(job) && HasLegacyCreators(job.run.schema)
    requires st.tables[DOWNLOAD_TASKS] == job.goal[DOWNLOAD_TASKS]
    ensures Passes(job.run.schema, CreatorsResolved, st)
  {
    forall row | row in job.goal[DOWNLOAD_TASKS] ensures !NamesApiKey(Field(row, CREATED_BY_USER_ID)) {
      var i: nat :| i < |job.goal[DOWNLOAD_TASKS]| && job.goal[DOWNLOAD_TASKS][i] == row;
      assert CreatorLeads(job, i);
    }
  }

  /** Everything the replay proofs use about a job, without the definitions of its stages. */
  ghost predicate Leads(job: Job) {
    && WellFormedMap(job.ids) && DistinctKeys(job.run.mapRows) && job.ids == AsMap(job.run.mapRows)
    && Shaped(job) && RenamesLead(job) && FinalWithinGoal(job)
    && PreparationLeads(job) && ColumnsLead(job) && OthersStayPut(job)
    && CreatorsComeFirst(job.run.schema, job.run.renames)
    && (HasCredentials(job.run.schema) ==> CredentialsLead(job))
    && DeletionsLead(job) && RenamedColumnsAgree(job)
    && SameData(job.final, job.run.tables)
    && (forall v | v in job.run.validations :: Holds(v, job.run.tables))
    && job.run.completedAt != ""
  }

  lemma GoodColumnsComeFirst(job: Job)
    requires GoodColumns(job)
    ensures CreatorsComeFirst(job.run.schema, job.run.renames)
  {
  }

  lemma OthersDoStayPut(job: Job)
    requires Computed(job)
    ensures OthersStayPut(job)
  {
    hide Computed, IsRenamed, IsCredentialPlace, StaysPut;
    forall t, c | !IsRenamed(job.run.renames, t, c) && (t, c) !in job.run.embedded && !IsCredentialPlace(job, t, c)
      ensures StaysPut(job, t, c)
    {
      UnrenamedStaysPut(job, t, c);
    }
  }

  lemma GoodJobsLead(job: Job)
    requires GoodJob(job)
    ensures Leads(job)
  {
    hide Staged, Computed, WellFormedMap, DistinctKeys, GoodColumns, KeptOutcome, RenamesLead, FinalWithinGoal,
      PreparationLeads, ColumnsLead, CredentialsLead, DeletionsLead, RenamedColumnsAgree, SameData, Holds, OthersStayPut,
      CreatorsAreNamed, CreatorsComeFirst, DistinctPrimaryKeys, IsRenamed, IsCredentialPlace, HasCredentials, Shaped, AsMap;
    StagedNamesTheMap(job);
    GoodColumnsComeFirst(job);
    StagesLead(job);
    PreparationsLead(job);
    ExactColumnsLead(job);
    StagedIsComputed(job);
    OthersDoStayPut(job);
    if HasCredentials(job.run.schema) {
      CredentialColumnsLead(job);
    }
    DeletionsDoLead(job);
    RenamedColumnsReachTheOutcome(job);
    FinalIsTheOutcome(job);
  }

  lemma FinalChecksPass(job: Job, st: D1)
    requires Leads(job) && st.tables == job.final && st.mapRows == job.run.mapRows
    ensures forall check | check in FinalChecks(job.run) :: Passes(job.run.schema, check, st)
  {
    if HasLegacyCreators(job.run.schema) {
      assert Kept(DOWNLOAD_TASKS);
      CreatorsCheckPasses(job, st);
    }
    RenamedChecksPass(job, job.run.renames, st);
    RowCountChecksPass(job, job.run.listed, st);
    ValidationChecksPass(job, job.run.validations, st);
  }
}
