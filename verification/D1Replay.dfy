/** Replaying the plan: every statement makes progress, from wherever an earlier attempt stopped. */
module D1Replay {
  import opened Wrappers
  import opened IdRegistry
  import opened IdValues
  import opened IdMapTable
  import opened IdTables
  import opened IdMigration
  import opened PlanChunks
  import opened D1Plan
  import opened D1Progress

  // Runs that make progress at every statement.

  ghost predicate SafeRun(job: Job, plan: seq<Statement>, st: D1)
    decreases |plan|
  {
    && Progress(job, st)
    && (plan != [] ==>
          Step(job.run.schema, plan[0], st).Some? && SafeRun(job, plan[1..], Step(job.run.schema, plan[0], st).value))
  }

  ghost predicate Reaches(job: Job, plan: seq<Statement>, st: D1, end: D1) {
    SafeRun(job, plan, st) && Execute(job.run.schema, plan, st) == Some(end)
  }

  lemma {:induction false} ReachesInSequence(job: Job, first: seq<Statement>, second: seq<Statement>, st: D1, mid: D1, end: D1)
    requires Reaches(job, first, st, mid) && Reaches(job, second, mid, end)
    ensures Reaches(job, first + second, st, end)
    decreases |first|
  {
    hide Progress, Step;
    if first == [] {
      assert first + second == second;
    } else {
      assert (first + second)[0] == first[0] && (first + second)[1..] == first[1..] + second;
      ReachesInSequence(job, first[1..], second, Step(job.run.schema, first[0], st).value, mid, end);
    }
  }

  lemma ReachesByStep(job: Job, s: Statement, st: D1, next: D1)
    requires Progress(job, st) && Progress(job, next)
    requires Step(job.run.schema, s, st) == Some(next)
    ensures Reaches(job, [s], st, next)
  {
    hide Progress, Step;
    assert [s][1..] == [];
    assert Execute(job.run.schema, [], next) == Some(next);
    assert SafeRun(job, [], next);
  }

  lemma InProgress(job: Job, st: D1)
    requires Progress(job, st)
    ensures Pending(st) && st.mapRows <= job.run.mapRows
    ensures TablesProgress(job, st.tables) && AllStagedExactly(job, st.exact)
  {
  }

  lemma ProgressGoesOn(job: Job, st: D1, tables: Tables)
    requires Progress(job, st) && TablesProgress(job, tables)
    ensures Progress(job, st.(tables := tables))
  {
  }

  lemma StagingGoesOn(job: Job, st: D1, exact: map<ExactKey, Cell>)
    requires Progress(job, st) && AllStagedExactly(job, exact)
    ensures Progress(job, st.(exact := exact))
  {
  }

  lemma ReachesNowhere(job: Job, st: D1)
    requires Progress(job, st)
    ensures Reaches(job, [], st, st)
  {
  }

  /** Whatever prefix of a safe run was executed, the copy is in progress. */
  lemma {:induction false} SafeRunPrefix(job: Job, plan: seq<Statement>, k: nat, st: D1)
    requires SafeRun(job, plan, st) && k <= |plan|
    ensures Execute(job.run.schema, plan[..k], st).Some?
    ensures Progress(job, Execute(job.run.schema, plan[..k], st).value)
    decreases k
  {
    hide Progress, Step;
    if k > 0 {
      assert plan[..k][0] == plan[0] && plan[..k][1..] == plan[1..][..k - 1];
      SafeRunPrefix(job, plan[1..], k - 1, Step(job.run.schema, plan[0], st).value);
    }
  }

  // Tables on their way.

  ghost predicate RowsTowards(job: Job, table: Table, before: seq<Row>, after: seq<Row>) {
    && |after| == |before|
    && (forall i | 0 <= i < |after| :: after[i].Keys == before[i].Keys)
    && forall i, c | 0 <= i < |after| ::
      Field(after[i], c) == Field(before[i], c) || Field(after[i], c) == At(job.goal, table, i, c)
  }

  ghost predicate Towards(job: Job, before: Tables, after: Tables) {
    forall t :: 
      || after[t] == before[t]
      || (!Deleted(job, t, before[t]) && Partial(job, t, before[t]) && RowsTowards(job, t, before[t], after[t]))
  }

  ghost predicate KeepsArrivals(job: Job, before: Tables, after: Tables) {
    forall t, c | Arrived(job, t, c, before[t]) :: Arrived(job, t, c, after[t])
  }

  lemma TowardsKeepsPartial(job: Job, table: Table, before: seq<Row>, after: seq<Row>)
    requires RowsTowards(job, table, before, after) && Partial(job, table, before)
    ensures Partial(job, table, after)
  {
  }

  lemma TowardsKeepsGoal(job: Job, table: Table, column: Column, before: seq<Row>, after: seq<Row>)
    requires RowsTowards(job, table, before, after) && AtGoal(job, table, column, before)
    ensures AtGoal(job, table, column, after)
  {
  }

  lemma TowardsKeepsMoved(job: Job, table: Table, column: Column, before: seq<Row>, after: seq<Row>)
    requires RowsTowards(job, table, before, after) && Moved(job, table, column, before)
    ensures Moved(job, table, column, after)
  {
  }

  /** Key ids stay as they are, unless the creators have arrived. */
  ghost predicate KeysWait(job: Job, before: Tables, after: Tables) {
    || CreatorsArrived(job, before)
    || (|after[API_KEY]| == |before[API_KEY]|
        && forall i | 0 <= i < |after[API_KEY]| :: Field(after[API_KEY][i], ID) == Field(before[API_KEY][i], ID))
  }

  /** After the preparing updates, any set of cells may jump to their goal, but key ids only after the creators. */
  lemma TowardsKeepsProgress(job: Job, before: Tables, after: Tables)
    requires KeepsTables(job)
    requires TablesProgress(job, before) && PreparationDone(job, before) && Towards(job, before, after)
    requires KeysWait(job, before, after)
    ensures TablesProgress(job, after) && PreparationDone(job, after) && KeepsArrivals(job, before, after)
  {
    forall t | after[t] != before[t] ensures Partial(job, t, after[t]) {
      TowardsKeepsPartial(job, t, before[t], after[t]);
    }
    if after[DOWNLOAD_TASKS] != before[DOWNLOAD_TASKS] {
      TowardsKeepsMoved(job, DOWNLOAD_TASKS, CREATED_BY_USER_ID, before[DOWNLOAD_TASKS], after[DOWNLOAD_TASKS]);
    }
    if after[AUDIT_EVENTS] != before[AUDIT_EVENTS] {
      TowardsKeepsMoved(job, AUDIT_EVENTS, EVENT_KEY, before[AUDIT_EVENTS], after[AUDIT_EVENTS]);
    }
    forall t, c | Arrived(job, t, c, before[t]) && after[t] != before[t] ensures Arrived(job, t, c, after[t]) {
      TowardsKeepsGoal(job, t, c, before[t], after[t]);
    }
    if CreatorsArrived(job, before) {
      CreatorsStayArrived(job, before, after);
    }
  }

  lemma CreatorsStayArrived(job: Job, before: Tables, after: Tables)
    requires KeepsTables(job) && KeepsArrivals(job, before, after) && CreatorsArrived(job, before)
    ensures CreatorsArrived(job, after)
  {
    assert Kept(DOWNLOAD_TASKS);
    assert HasLegacyCreators(job.run.schema) ==>
      Arrived(job, DOWNLOAD_TASKS, CREATED_BY_USER_ID, before[DOWNLOAD_TASKS]);
  }

  // Renaming.

  lemma RenamedRowField(m: IdMap, kind: Kind, column: Column, row: Row)
    ensures RenamedRow(m, kind, column, row).Keys == row.Keys
    ensures Field(RenamedRow(m, kind, column, row), column) == RenamedCell(m, kind, Field(row, column))
    ensures forall c | c != column :: Field(RenamedRow(m, kind, column, row), c) == Field(row, c)
  {
  }

  lemma RenameLeavesFinalRows(job: Job, r: Rename, rows: seq<Row>)
    requires Shaped(job) && RenamesLead(job) && FinalWithinGoal(job)
    requires r in job.run.renames && Deleted(job, r.table, rows)
    ensures MapRows(rows, row => RenamedRow(job.ids, r.kind, r.column, row)) == rows
  {
    forall i | 0 <= i < |rows| ensures RenamedRow(job.ids, r.kind, r.column, rows[i]) == rows[i] {
      assert rows[i] in job.goal[r.table];
      var j: nat :| j < |job.goal[r.table]| && job.goal[r.table][j] == rows[i];
      assert RenameLeads(job, r, j);
    }
  }

  lemma RenameArrives(job: Job, r: Rename, before: seq<Row>)
    requires Shaped(job) && RenamesLead(job) && FinalWithinGoal(job)
    requires Partial(job, r.table, before) || Deleted(job, r.table, before)
    requires Moves(r.table, r.column) ==> Moved(job, r.table, r.column, before)
    requires r in job.run.renames
    ensures var after := MapRows(before, row => RenamedRow(job.ids, r.kind, r.column, row));
      if Deleted(job, r.table, before) then after == before
      else RowsTowards(job, r.table, before, after) && AtGoal(job, r.table, r.column, after)
  {
    var after := MapRows(before, row => RenamedRow(job.ids, r.kind, r.column, row));
    if Deleted(job, r.table, before) {
      RenameLeavesFinalRows(job, r, before);
    } else {
      forall i: nat | i < |before|
        ensures after[i].Keys == before[i].Keys
        ensures forall c | c != r.column :: Field(after[i], c) == Field(before[i], c)
        ensures Field(after[i], r.column) == At(job.goal, r.table, i, r.column)
      {
        RenamedRowField(job.ids, r.kind, r.column, before[i]);
        assert RenameLeads(job, r, i);
        assert OnTrack(job, r.table, i, r.column, Field(before[i], r.column));
      }
    }
  }

  lemma RenameStep(schema: Schema, r: Rename, st: D1)
    requires Pending(st)
    ensures Step(schema, RenameTarget(r), st) ==
      Some(st.(tables := RenameColumn(AsMap(st.mapRows), r.kind, r.table, r.column, st.tables)))
  {
  }

  lemma PreparedColumnsMoved(job: Job, table: Table, column: Column, tables: Tables)
    requires PreparationDone(job, tables)
    ensures Moves(table, column) ==> Moved(job, table, column, tables[table])
  {
    hide Moved;
  }

  lemma RenameMakesProgress(job: Job, r: Rename, tables: Tables)
    requires Shaped(job) && RenamesLead(job) && FinalWithinGoal(job)
    requires TablesProgress(job, tables) && PreparationDone(job, tables)
    requires r in job.run.renames
    requires (r.table, r.column) == (API_KEY, ID) ==> CreatorsArrived(job, tables)
    ensures var after := RenameColumn(job.ids, r.kind, r.table, r.column, tables);
      && TablesProgress(job, after) && PreparationDone(job, after) && KeepsArrivals(job, tables, after)
      && Arrived(job, r.table, r.column, after[r.table])
  {
    hide PreparationDone, RenamesLead, FinalWithinGoal, Shaped, RowsTowards, CreatorsArrived, Partial, AtGoal, InOrder,
      RegistrationsLast, KeepsArrivals, Moved;
    ShapedKeeps(job);
    PreparedColumnsMoved(job, r.table, r.column, tables);
    RenameArrives(job, r, tables[r.table]);
    if (r.table, r.column) != (API_KEY, ID) {
      RenamingOthersKeepsKeys(job.ids, r, tables);
    }
    TowardsKeepsProgress(job, tables, RenameColumn(job.ids, r.kind, r.table, r.column, tables));
  }

  lemma RenamingOthersKeepsKeys(m: IdMap, r: Rename, tables: Tables)
    requires (r.table, r.column) != (API_KEY, ID)
    ensures var keys := RenameColumn(m, r.kind, r.table, r.column, tables)[API_KEY];
      |keys| == |tables[API_KEY]| && forall i | 0 <= i < |keys| :: Field(keys[i], ID) == Field(tables[API_KEY][i], ID)
  {
    forall row ensures forall c | c != r.column :: Field(RenamedRow(m, r.kind, r.column, row), c) == Field(row, c) {
      RenamedRowField(m, r.kind, r.column, row);
    }
  }

  /** Unless the creators have arrived, they are renamed before the key ids. */
  ghost predicate KeysComeLater(job: Job, renames: seq<Rename>, tables: Tables) {
    CreatorsArrived(job, tables) || CreatorsLeadKeys(renames)
  }

  lemma KeysStillComeLater(job: Job, renames: seq<Rename>, before: Tables, after: Tables)
    requires renames != [] && KeysComeLater(job, renames, before) && KeepsTables(job) && KeepsArrivals(job, before, after)
    requires Arrived(job, renames[0].table, renames[0].column, after[renames[0].table])
    ensures KeysComeLater(job, renames[1..], after)
  {
    if CreatorsArrived(job, before) {
      CreatorsStayArrived(job, before, after);
    } else if (renames[0].table, renames[0].column) == (DOWNLOAD_TASKS, CREATED_BY_USER_ID) {
      assert Kept(DOWNLOAD_TASKS);
    }
  }

  lemma ShapedKeeps(job: Job)
    requires Shaped(job)
    ensures KeepsTables(job)
  {
  }

  lemma KeysWaitForCreators(job: Job, renames: seq<Rename>, tables: Tables)
    requires renames != [] && KeysComeLater(job, renames, tables)
    ensures (renames[0].table, renames[0].column) == (API_KEY, ID) ==> CreatorsArrived(job, tables)
  {
  }

  lemma {:induction false} RunRenames(job: Job, renames: seq<Rename>, st: D1) returns (end: D1)
    requires Shaped(job) && RenamesLead(job) && FinalWithinGoal(job)
    requires Progress(job, st) && PreparationDone(job, st.tables) && AsMap(st.mapRows) == job.ids
    requires forall r | r in renames :: r in job.run.renames
    requires KeysComeLater(job, renames, st.tables)
    ensures Reaches(job, RenameStatements(renames), st, end)
    ensures Progress(job, end)
    ensures end == st.(tables := end.tables)
    ensures PreparationDone(job, end.tables) && KeepsArrivals(job, st.tables, end.tables)
    ensures forall r | r in renames :: Arrived(job, r.table, r.column, end.tables[r.table])
    decreases |renames|
  {
    hide Progress, Reaches, TablesProgress, RenamesLead, PreparationDone, Shaped, FinalWithinGoal, Step, KeysComeLater,
      CreatorsArrived, Arrived;
    ShapedKeeps(job);
    if renames == [] {
      ReachesNowhere(job, st);
      return st;
    }
    var r := renames[0];
    InProgress(job, st);
    RenameStep(job.run.schema, r, st);
    KeysWaitForCreators(job, renames, st.tables);
    RenameMakesProgress(job, r, st.tables);
    var next := st.(tables := RenameColumn(job.ids, r.kind, r.table, r.column, st.tables));
    ProgressGoesOn(job, st, next.tables);
    ReachesByStep(job, RenameTarget(r), st, next);
    KeysStillComeLater(job, renames, st.tables, next.tables);
    end := RunRenames(job, renames[1..], next);
    ReachesInSequence(job, [RenameTarget(r)], RenameStatements(renames[1..]), st, next, end);
    assert renames == [r] + renames[1..];
  }

  // Mappings.

  lemma InsertStep(schema: Schema, rows: seq<MapRow>, st: D1)
    ensures Step(schema, InsertMappings(rows), st) == Some(st.(mapRows := InsertRows(st.mapRows, rows)))
  {
  }

  lemma InsertMakesProgress(job: Job, from: nat, to: nat, have: nat, st: D1)
    requires Progress(job, st) && DistinctKeys(job.run.mapRows)
    requires from <= to <= |job.run.mapRows| && from <= have <= |job.run.mapRows|
    requires st.mapRows == job.run.mapRows[..have]
    ensures var next := st.(mapRows := job.run.mapRows[..if have < to then to else have]);
      Reaches(job, [InsertMappings(job.run.mapRows[from..to])], st, next) && Progress(job, next)
  {
    hide Reaches, DistinctKeys, TablesProgress, StagedExactly, Step;
    InsertFromPrefix(job.run.mapRows, have, from, to);
    var next := st.(mapRows := job.run.mapRows[..if have < to then to else have]);
    InsertStep(job.run.schema, job.run.mapRows[from..to], st);
    ReachesByStep(job, InsertMappings(job.run.mapRows[from..to]), st, next);
  }

  lemma FirstChunkIsASlice(rows: seq<MapRow>, chunks: seq<seq<MapRow>>, offset: nat)
    requires offset <= |rows| && chunks != [] && Flatten(chunks) == rows[offset..]
    ensures offset + |chunks[0]| <= |rows|
    ensures chunks[0] == rows[offset..offset + |chunks[0]|]
    ensures Flatten(chunks[1..]) == rows[offset + |chunks[0]|..]
  {
    var chunk := chunks[0];
    assert Flatten(chunks) == chunk + Flatten(chunks[1..]);
    assert rows[offset..][..|chunk|] == chunk && rows[offset..][|chunk|..] == Flatten(chunks[1..]);
  }

  lemma {:induction false} RunInserts(job: Job, chunks: seq<seq<MapRow>>, offset: nat, have: nat, st: D1) returns (end: D1)
    requires Progress(job, st) && DistinctKeys(job.run.mapRows)
    requires offset <= have <= |job.run.mapRows|
    requires Flatten(chunks) == job.run.mapRows[offset..] && st.mapRows == job.run.mapRows[..have]
    ensures Reaches(job, InsertStatements(chunks), st, end)
    ensures Progress(job, end)
    ensures end == st.(mapRows := job.run.mapRows)
    decreases |chunks|
  {
    hide Progress, Reaches, DistinctKeys;
    if chunks == [] {
      assert job.run.mapRows[offset..] == [];
      ReachesNowhere(job, st);
      return st;
    }
    var to := offset + |chunks[0]|;
    FirstChunkIsASlice(job.run.mapRows, chunks, offset);
    InsertMakesProgress(job, offset, to, have, st);
    var reached := if have < to then to else have;
    var next := st.(mapRows := job.run.mapRows[..reached]);
    end := RunInserts(job, chunks[1..], to, reached, next);
    ReachesInSequence(job, [InsertMappings(chunks[0])], InsertStatements(chunks[1..]), st, next, end);
  }

  /** A check that passes changes nothing. */
  lemma CheckPasses(job: Job, check: Check, st: D1)
    requires Progress(job, st) && Passes(job.run.schema, check, st)
    ensures Reaches(job, [Assert(check)], st, st)
  {
    hide Progress, Passes, Reaches;
    ReachesByStep(job, Assert(check), st, st);
  }

  lemma {:induction false} RunReviews(job: Job, chunks: seq<seq<MapRow>>, st: D1)
    requires Progress(job, st) && st.mapRows == job.run.mapRows
    requires forall row | row in Flatten(chunks) :: row in job.run.mapRows
    ensures Reaches(job, ReviewStatements(chunks), st, st)
    decreases |chunks|
  {
    hide Progress, Reaches;
    if chunks == [] {
      ReachesNowhere(job, st);
    } else {
      assert Flatten(chunks) == chunks[0] + Flatten(chunks[1..]);
      CheckPasses(job, MappingsReviewed(chunks[0]), st);
      RunReviews(job, chunks[1..], st);
      ReachesInSequence(job, [Assert(MappingsReviewed(chunks[0]))], ReviewStatements(chunks[1..]), st, st, st);
    }
  }

  // The preparing updates.

  lemma {:induction false} OwnersComeFromTwoColumns(a: seq<Row>, b: seq<Row>, id: string)
    requires |a| == |b|
    requires forall i | 0 <= i < |a| :: Field(a[i], ID) == Field(b[i], ID) && Field(a[i], REFERENCE_ID) == Field(b[i], REFERENCE_ID)
    ensures OwnerOfApiKey(a, id) == OwnerOfApiKey(b, id)
  {
    if a != [] {
      assert Field(a[0], ID) == Field(b[0], ID);
      forall i | 0 <= i < |a[1..]| ensures Field(a[1..][i], ID) == Field(b[1..][i], ID)
        && Field(a[1..][i], REFERENCE_ID) == Field(b[1..][i], REFERENCE_ID)
      {
        assert a[1..][i] == a[i + 1] && b[1..][i] == b[i + 1];
      }
      OwnersComeFromTwoColumns(a[1..], b[1..], id);
    }
  }

  /** One moving column of one table changes, in every row to a value past the preparing update. */
  ghost predicate MovesColumn(job: Job, table: Table, column: Column, before: seq<Row>, after: seq<Row>) {
    && |after| == |before|
    && forall i: nat | i < |after| ::
      && after[i].Keys == before[i].Keys
      && (forall c | c != column :: Field(after[i], c) == Field(before[i], c))
      && HasMoved(job, table, i, column, Field(after[i], column))
      && (table == DOWNLOAD_TASKS && Field(before[i], column) == At(job.goal, table, i, column) ==>
            Field(after[i], column) == Field(before[i], column))
  }

  lemma MovingKeepsPartial(job: Job, table: Table, column: Column, before: seq<Row>, after: seq<Row>)
    requires Partial(job, table, before) && MovesColumn(job, table, column, before, after)
    ensures Partial(job, table, after) && Moved(job, table, column, after)
    ensures forall c | c != column && Untouched(job, table, c, before) :: Untouched(job, table, c, after)
  {
    forall i, c | 0 <= i < |after| ensures OnTrack(job, table, i, c, Field(after[i], c)) {
      assert OnTrack(job, table, i, c, Field(before[i], c));
    }
  }

  lemma MovingMakesProgress(job: Job, tables: Tables, table: Table, column: Column, after: seq<Row>)
    requires TablesProgress(job, tables) && Moves(table, column)
    requires Partial(job, table, tables[table]) && MovesColumn(job, table, column, tables[table], after)
    ensures TablesProgress(job, tables[table := after]) && Moved(job, table, column, after)
  {
    hide MovesColumn;
    MovingKeepsPartial(job, table, column, tables[table], after);
    if CreatorsArrived(job, tables) {
      MovingKeepsArrivedCreators(job, tables, table, column, after);
    }
  }

  lemma MovingKeepsArrivedCreators(job: Job, tables: Tables, table: Table, column: Column, after: seq<Row>)
    requires Moves(table, column) && MovesColumn(job, table, column, tables[table], after) && CreatorsArrived(job, tables)
    ensures CreatorsArrived(job, tables[table := after])
  {
  }

  lemma KeptTableIsPartial(job: Job, tables: Tables, table: Table)
    requires KeepsTables(job) && TablesProgress(job, tables) && HoldsEmbedded(table)
    ensures Partial(job, table, tables[table])
  {
  }

  /** Key `j` is the first with this id. */
  predicate IsFirstKey(keys: seq<Row>, id: string, j: nat) {
    j < |keys| && Field(keys[j], ID) == Text(id) && forall k | 0 <= k < j :: Field(keys[k], ID) != Text(id)
  }

  lemma {:induction false} OwnerIsOfFirstKey(keys: seq<Row>, id: string)
    requires OwnerOfApiKey(keys, id).Some?
    ensures exists j: nat :: IsFirstKey(keys, id, j) && OwnerOfApiKey(keys, id).value == Field(keys[j], REFERENCE_ID)
  {
    if Field(keys[0], ID) == Text(id) {
      assert IsFirstKey(keys, id, 0);
    } else {
      OwnerIsOfFirstKey(keys[1..], id);
      var j: nat :| IsFirstKey(keys[1..], id, j) && OwnerOfApiKey(keys[1..], id).value == Field(keys[1..][j], REFERENCE_ID);
      forall k | 0 <= k < j + 1 ensures Field(keys[k], ID) != Text(id) {
        assert k > 0 ==> Field(keys[1..][k - 1], ID) != Text(id);
      }
      assert IsFirstKey(keys, id, j + 1);
    }
  }

  lemma FirstKeyElsewhere(a: seq<Row>, b: seq<Row>, id: string, j: nat)
    requires |a| == |b| && forall i | 0 <= i < |a| :: Field(a[i], ID) == Field(b[i], ID)
    requires IsFirstKey(a, id, j)
    ensures IsFirstKey(b, id, j)
  {
  }

  /** An owner that itself reads like an API key is that key's owner too, before and after the renames. */
  ghost predicate IsStable(job: Job, i: nat) {
    var owner, goal := At(job.prepared, DOWNLOAD_TASKS, i, CREATED_BY_USER_ID), At(job.goal, DOWNLOAD_TASKS, i, CREATED_BY_USER_ID);
    NamesApiKey(owner) ==>
      forall j: nat | IsFirstKey(job.original[API_KEY], owner.text[8..], j) ::
        && (At(job.prepared, API_KEY, j, REFERENCE_ID) == owner || At(job.prepared, API_KEY, j, REFERENCE_ID) == goal)
        && (At(job.goal, API_KEY, j, REFERENCE_ID) == owner || At(job.goal, API_KEY, j, REFERENCE_ID) == goal)
  }

  ghost predicate OwnersAreStable(job: Job) {
    HasLegacyCreators(job.run.schema) ==> forall i: nat | i < |job.original[DOWNLOAD_TASKS]| :: IsStable(job, i)
  }

  /** Nothing that the resolving update reads or writes has changed. */
  ghost predicate CreatorsUntouched(job: Job, tables: Tables) {
    && Untouched(job, DOWNLOAD_TASKS, CREATED_BY_USER_ID, tables[DOWNLOAD_TASKS])
    && Untouched(job, API_KEY, ID, tables[API_KEY]) && Untouched(job, API_KEY, REFERENCE_ID, tables[API_KEY])
  }

  ghost predicate Resolvable(job: Job, tables: Tables) {
    OwnersAreStable(job) || CreatorsUntouched(job, tables)
  }

  /** From the original value, resolving the creator gives the prepared one. */
  lemma ResolvingOriginal(job: Job, i: nat, keys: seq<Row>, row: Row)
    requires i < |job.original[DOWNLOAD_TASKS]| && CreatorLeads(job, i) && HasLegacyCreators(job.run.schema)
    requires row.Keys == job.original[DOWNLOAD_TASKS][i].Keys
    requires Field(row, CREATED_BY_USER_ID) == At(job.original, DOWNLOAD_TASKS, i, CREATED_BY_USER_ID)
    requires forall id :: OwnerOfApiKey(keys, id) == OwnerOfApiKey(job.original[API_KEY], id)
    ensures Field(ResolvedCreatorRow(keys, row), CREATED_BY_USER_ID) == At(job.prepared, DOWNLOAD_TASKS, i, CREATED_BY_USER_ID)
  {
    var from := job.original[DOWNLOAD_TASKS][i];
    var creator := Field(row, CREATED_BY_USER_ID);
    if NamesApiKey(creator) {
      assert OwnerOfApiKey(keys, creator.text[8..]) == OwnerOfApiKey(job.original[API_KEY], creator.text[8..]);
    }
    assert CREATED_BY_USER_ID in row <==> CREATED_BY_USER_ID in from;
    assert Field(ResolvedCreatorRow(keys, row), CREATED_BY_USER_ID) ==
      Field(ResolvedCreatorRow(job.original[API_KEY], from), CREATED_BY_USER_ID);
  }

  lemma UnnamedStays(keys: seq<Row>, row: Row)
    requires !NamesApiKey(Field(row, CREATED_BY_USER_ID))
      || OwnerOfApiKey(keys, Field(row, CREATED_BY_USER_ID).text[8..]).None?
    ensures ResolvedCreatorRow(keys, row) == row
  {
  }

  lemma NamedIsItsOwner(keys: seq<Row>, row: Row, owner: Cell)
    requires NamesApiKey(Field(row, CREATED_BY_USER_ID))
    requires OwnerOfApiKey(keys, Field(row, CREATED_BY_USER_ID).text[8..]) == Some(owner)
    ensures Field(ResolvedCreatorRow(keys, row), CREATED_BY_USER_ID) == owner
  {
  }

  /** From a prepared value, resolving a stable creator again gives the prepared or the goal value. */
  lemma ResolvingPrepared(job: Job, i: nat, keys: seq<Row>, row: Row)
    requires IsStable(job, i) && Field(row, CREATED_BY_USER_ID) == At(job.prepared, DOWNLOAD_TASKS, i, CREATED_BY_USER_ID)
    requires Untouched(job, API_KEY, ID, keys) && Partial(job, API_KEY, keys)
    ensures HasMoved(job, DOWNLOAD_TASKS, i, CREATED_BY_USER_ID, Field(ResolvedCreatorRow(keys, row), CREATED_BY_USER_ID))
  {
    var owner := Field(row, CREATED_BY_USER_ID);
    if NamesApiKey(owner) && OwnerOfApiKey(keys, owner.text[8..]).Some? {
      OwnerIsOfFirstKey(keys, owner.text[8..]);
      var j: nat :| IsFirstKey(keys, owner.text[8..], j)
        && OwnerOfApiKey(keys, owner.text[8..]).value == Field(keys[j], REFERENCE_ID);
      FirstKeyElsewhere(keys, job.original[API_KEY], owner.text[8..], j);
      assert OnTrack(job, API_KEY, j, REFERENCE_ID, Field(keys[j], REFERENCE_ID));
      NamedIsItsOwner(keys, row, Field(keys[j], REFERENCE_ID));
    } else {
      UnnamedStays(keys, row);
    }
  }

  ghost predicate SameOwners(job: Job, keys: seq<Row>) {
    forall id :: OwnerOfApiKey(keys, id) == OwnerOfApiKey(job.original[API_KEY], id)
  }

  lemma UntouchedKeysHaveTheirOwners(job: Job, keys: seq<Row>)
    requires Untouched(job, API_KEY, ID, keys) && Untouched(job, API_KEY, REFERENCE_ID, keys)
    ensures SameOwners(job, keys)
  {
    forall id ensures OwnerOfApiKey(keys, id) == OwnerOfApiKey(job.original[API_KEY], id) {
      OwnersComeFromTwoColumns(keys, job.original[API_KEY], id);
    }
  }

  /** From a row on its way, resolving the creator gives the prepared or the goal value. */
  lemma ResolvingOneRow(job: Job, i: nat, tables: Tables)
    requires Shaped(job) && PreparationLeads(job) && HasLegacyCreators(job.run.schema)
    requires TablesProgress(job, tables) && Resolvable(job, tables) && i < |tables[DOWNLOAD_TASKS]|
    ensures var cell := Field(ResolvedCreatorRow(tables[API_KEY], tables[DOWNLOAD_TASKS][i]), CREATED_BY_USER_ID);
      && HasMoved(job, DOWNLOAD_TASKS, i, CREATED_BY_USER_ID, cell)
      && (Field(tables[DOWNLOAD_TASKS][i], CREATED_BY_USER_ID) == At(job.goal, DOWNLOAD_TASKS, i, CREATED_BY_USER_ID) ==>
            cell == Field(tables[DOWNLOAD_TASKS][i], CREATED_BY_USER_ID))
  {
    hide ResolvedCreatorRow, NamesApiKey, IsStable, SameShape;
    var keys, row := tables[API_KEY], tables[DOWNLOAD_TASKS][i];
    KeptTableIsPartial(job, tables, DOWNLOAD_TASKS);
    KeptTableIsPartial(job, tables, API_KEY);
    assert i < |job.original[DOWNLOAD_TASKS]| && CreatorLeads(job, i);
    var cell := Field(row, CREATED_BY_USER_ID);
    assert OnTrack(job, DOWNLOAD_TASKS, i, CREATED_BY_USER_ID, cell);
    if cell == At(job.goal, DOWNLOAD_TASKS, i, CREATED_BY_USER_ID) {
      UnnamedStays(keys, row);
    } else if CreatorsUntouched(job, tables) || !Moved(job, DOWNLOAD_TASKS, CREATED_BY_USER_ID, tables[DOWNLOAD_TASKS]) {
      UntouchedKeysHaveTheirOwners(job, keys);
      if cell == At(job.original, DOWNLOAD_TASKS, i, CREATED_BY_USER_ID) {
        ResolvingOriginal(job, i, keys, row);
      } else {
        ResolvingPrepared(job, i, keys, row);
      }
    } else {
      assert !CreatorsArrived(job, tables);
      ResolvingPrepared(job, i, keys, row);
    }
  }

  lemma ResolvingMakesProgress(job: Job, tables: Tables)
    requires Shaped(job) && PreparationLeads(job) && HasLegacyCreators(job.run.schema)
    requires TablesProgress(job, tables) && Resolvable(job, tables)
    ensures TablesProgress(job, ResolveLegacyCreators(tables))
    ensures Moved(job, DOWNLOAD_TASKS, CREATED_BY_USER_ID, ResolveLegacyCreators(tables)[DOWNLOAD_TASKS])
  {
    hide TablesProgress, Resolvable, Shaped, PreparationLeads, HasMoved, ResolvedCreatorRow;
    var keys, before := tables[API_KEY], tables[DOWNLOAD_TASKS];
    var after := MapRows(before, row => ResolvedCreatorRow(keys, row));
    ShapedKeeps(job);
    KeptTableIsPartial(job, tables, DOWNLOAD_TASKS);
    forall i: nat | i < |after|
      ensures after[i].Keys == before[i].Keys
      ensures forall c | c != CREATED_BY_USER_ID :: Field(after[i], c) == Field(before[i], c)
      ensures HasMoved(job, DOWNLOAD_TASKS, i, CREATED_BY_USER_ID, Field(after[i], CREATED_BY_USER_ID))
      ensures Field(before[i], CREATED_BY_USER_ID) == At(job.goal, DOWNLOAD_TASKS, i, CREATED_BY_USER_ID) ==>
        Field(after[i], CREATED_BY_USER_ID) == Field(before[i], CREATED_BY_USER_ID)
    {
      ResolvedRowKeepsRest(keys, before[i]);
      ResolvingOneRow(job, i, tables);
    }
    MovingMakesProgress(job, tables, DOWNLOAD_TASKS, CREATED_BY_USER_ID, after);
  }

  lemma FillingOneRow(job: Job, i: nat, row: Row)
    requires i < |job.original[AUDIT_EVENTS]| && EventKeyLeads(job, i) && job.run.schema.HasColumn(AUDIT_EVENTS, EVENT_KEY)
    requires row.Keys == job.original[AUDIT_EVENTS][i].Keys
    requires HasMoved(job, AUDIT_EVENTS, i, ID, Field(row, ID))
    requires HasMoved(job, AUDIT_EVENTS, i, EVENT_KEY, Field(row, EVENT_KEY))
      || (Field(row, EVENT_KEY) == At(job.original, AUDIT_EVENTS, i, EVENT_KEY)
          && Field(row, ID) == At(job.original, AUDIT_EVENTS, i, ID))
    ensures HasMoved(job, AUDIT_EVENTS, i, EVENT_KEY, Field(EventKeyRow(row), EVENT_KEY))
  {
  }

  lemma FillingRowInProgress(job: Job, i: nat, tables: Tables)
    requires Shaped(job) && PreparationLeads(job) && job.run.schema.HasColumn(AUDIT_EVENTS, EVENT_KEY)
    requires TablesProgress(job, tables) && i < |tables[AUDIT_EVENTS]|
    ensures HasMoved(job, AUDIT_EVENTS, i, EVENT_KEY, Field(EventKeyRow(tables[AUDIT_EVENTS][i]), EVENT_KEY))
  {
    hide Shaped, EventKeyRow, CreatorsArrived, EventKeyLeads, RegistrationsLast;
    var row := tables[AUDIT_EVENTS][i];
    ShapedKeeps(job);
    KeptTableIsPartial(job, tables, AUDIT_EVENTS);
    assert EventKeyLeads(job, i);
    assert OnTrack(job, AUDIT_EVENTS, i, ID, Field(row, ID));
    assert OnTrack(job, AUDIT_EVENTS, i, EVENT_KEY, Field(row, EVENT_KEY));
    FillingOneRow(job, i, row);
  }

  lemma FillingMakesProgress(job: Job, tables: Tables)
    requires Shaped(job) && PreparationLeads(job) && job.run.schema.HasColumn(AUDIT_EVENTS, EVENT_KEY)
    requires TablesProgress(job, tables)
    ensures TablesProgress(job, FillEventKeys(tables))
    ensures Moved(job, AUDIT_EVENTS, EVENT_KEY, FillEventKeys(tables)[AUDIT_EVENTS])
    ensures FillEventKeys(tables)[DOWNLOAD_TASKS] == tables[DOWNLOAD_TASKS]
  {
    hide TablesProgress, Shaped, EventKeyRow, HasMoved, PreparationLeads;
    ShapedKeeps(job);
    var before := tables[AUDIT_EVENTS];
    var after := MapRows(before, row => EventKeyRow(row));
    KeptTableIsPartial(job, tables, AUDIT_EVENTS);
    forall i: nat | i < |after|
      ensures after[i].Keys == before[i].Keys
      ensures forall c | c != EVENT_KEY :: Field(after[i], c) == Field(before[i], c)
      ensures HasMoved(job, AUDIT_EVENTS, i, EVENT_KEY, Field(after[i], EVENT_KEY))
    {
      EventKeyRowKeepsRest(before[i]);
      FillingRowInProgress(job, i, tables);
    }
    MovingMakesProgress(job, tables, AUDIT_EVENTS, EVENT_KEY, after);
  }

  lemma UntouchedByPreparation(job: Job, tables: Tables)
    requires Shaped(job) && PreparationLeads(job) && TablesProgress(job, tables)
    ensures !HasLegacyCreators(job.run.schema) ==>
      Moved(job, DOWNLOAD_TASKS, CREATED_BY_USER_ID, tables[DOWNLOAD_TASKS])
    ensures !job.run.schema.HasColumn(AUDIT_EVENTS, EVENT_KEY) ==> Moved(job, AUDIT_EVENTS, EVENT_KEY, tables[AUDIT_EVENTS])
  {
    KeptTableIsPartial(job, tables, DOWNLOAD_TASKS);
    KeptTableIsPartial(job, tables, AUDIT_EVENTS);
    if !HasLegacyCreators(job.run.schema) {
      forall i: nat | i < |tables[DOWNLOAD_TASKS]|
        ensures HasMoved(job, DOWNLOAD_TASKS, i, CREATED_BY_USER_ID, Field(tables[DOWNLOAD_TASKS][i], CREATED_BY_USER_ID))
      {
        assert CreatorLeads(job, i);
        assert OnTrack(job, DOWNLOAD_TASKS, i, CREATED_BY_USER_ID, Field(tables[DOWNLOAD_TASKS][i], CREATED_BY_USER_ID));
      }
    }
    if !job.run.schema.HasColumn(AUDIT_EVENTS, EVENT_KEY) {
      forall i: nat | i < |tables[AUDIT_EVENTS]|
        ensures HasMoved(job, AUDIT_EVENTS, i, EVENT_KEY, Field(tables[AUDIT_EVENTS][i], EVENT_KEY))
      {
        assert EventKeyLeads(job, i);
        assert OnTrack(job, AUDIT_EVENTS, i, EVENT_KEY, Field(tables[AUDIT_EVENTS][i], EVENT_KEY));
      }
    }
  }

  lemma PreparingSteps(schema: Schema, st: D1)
    requires Pending(st)
    ensures Step(schema, ResolveCreators, st) == Some(st.(tables := ResolveLegacyCreators(st.tables)))
    ensures Step(schema, FillKeys, st) == Some(st.(tables := FillEventKeys(st.tables)))
  {
    hide ResolveLegacyCreators, FillEventKeys;
  }

  lemma RunResolving(job: Job, st: D1) returns (end: D1)
    requires Shaped(job) && PreparationLeads(job) && Progress(job, st) && Resolvable(job, st.tables)
    ensures Reaches(job, ResolvingStatements(job.run.schema), st, end)
    ensures Progress(job, end)
    ensures end == st.(tables := end.tables)
    ensures Moved(job, DOWNLOAD_TASKS, CREATED_BY_USER_ID, end.tables[DOWNLOAD_TASKS])
  {
    hide Progress, Reaches, TablesProgress, Shaped, PreparationLeads, Moved, ResolveLegacyCreators, AllStagedExactly,
      Resolvable, Step;
    InProgress(job, st);
    PreparingSteps(job.run.schema, st);
    if HasLegacyCreators(job.run.schema) {
      ResolvingMakesProgress(job, st.tables);
      ProgressGoesOn(job, st, ResolveLegacyCreators(st.tables));
      end := st.(tables := ResolveLegacyCreators(st.tables));
      ReachesByStep(job, ResolveCreators, st, end);
    } else {
      UntouchedByPreparation(job, st.tables);
      ReachesNowhere(job, st);
      end := st;
    }
  }

  lemma RunFilling(job: Job, st: D1) returns (end: D1)
    requires Shaped(job) && PreparationLeads(job) && Progress(job, st)
    requires Moved(job, DOWNLOAD_TASKS, CREATED_BY_USER_ID, st.tables[DOWNLOAD_TASKS])
    ensures Reaches(job, FillingStatements(job.run.schema), st, end)
    ensures Progress(job, end)
    ensures end == st.(tables := end.tables)
    ensures PreparationDone(job, end.tables)
  {
    hide Progress, Reaches, TablesProgress, Shaped, PreparationLeads, Moved, FillEventKeys, AllStagedExactly, Step;
    InProgress(job, st);
    PreparingSteps(job.run.schema, st);
    if job.run.schema.HasColumn(AUDIT_EVENTS, EVENT_KEY) {
      FillingMakesProgress(job, st.tables);
      ProgressGoesOn(job, st, FillEventKeys(st.tables));
      end := st.(tables := FillEventKeys(st.tables));
      ReachesByStep(job, FillKeys, st, end);
    } else {
      UntouchedByPreparation(job, st.tables);
      ReachesNowhere(job, st);
      end := st;
    }
  }

  lemma RunPreparation(job: Job, st: D1) returns (end: D1)
    requires Shaped(job) && PreparationLeads(job) && Progress(job, st) && Resolvable(job, st.tables)
    ensures Reaches(job, PreparationStatements(job.run.schema), st, end)
    ensures Progress(job, end)
    ensures end == st.(tables := end.tables)
    ensures PreparationDone(job, end.tables)
  {
    var mid := RunResolving(job, st);
    end := RunFilling(job, mid);
    ReachesInSequence(job, ResolvingStatements(job.run.schema), FillingStatements(job.run.schema), st, mid, end);
  }

  // Exact values.

  ghost predicate RenamesArrived(job: Job, tables: Tables) {
    forall r | r in job.run.renames :: Arrived(job, r.table, r.column, tables[r.table])
  }

  lemma RenamedCreatorsArrived(job: Job, tables: Tables)
    requires KeepsTables(job) && RenamesArrived(job, tables) && CreatorsComeFirst(job.run.schema, job.run.renames)
    ensures CreatorsArrived(job, tables)
  {
    if HasLegacyCreators(job.run.schema) {
      assert Kept(DOWNLOAD_TASKS);
      var r :| r in job.run.renames && r.table == DOWNLOAD_TASKS && r.column == CREATED_BY_USER_ID;
      assert Arrived(job, r.table, r.column, tables[r.table]);
    }
  }

  /** A column no later pass changes is already where it is going. */
  lemma StaysPutArrives(job: Job, table: Table, column: Column, rows: seq<Row>)
    requires Shaped(job) && Partial(job, table, rows)
    requires Moves(table, column) ==> Moved(job, table, column, rows)
    requires StaysPut(job, table, column)
    ensures AtGoal(job, table, column, rows)
  {
    forall i: nat | i < |rows| ensures Field(rows[i], column) == At(job.goal, table, i, column) {
      assert OnTrack(job, table, i, column, Field(rows[i], column));
    }
  }

  lemma KeyColumnArrives(job: Job, table: Table, key: Column, tables: Tables)
    requires Shaped(job) && TablesProgress(job, tables) && PreparationDone(job, tables) && RenamesArrived(job, tables)
    requires HoldsEmbedded(table)
    requires IsRenamed(job.run.renames, table, key) || StaysPut(job, table, key)
    ensures AtGoal(job, table, key, tables[table])
  {
    if StaysPut(job, table, key) {
      PreparedColumnsMoved(job, table, key, tables);
      StaysPutArrives(job, table, key, tables[table]);
    }
  }

  ghost predicate KeysAgree(job: Job, table: Table, rows: seq<Row>) {
    && |rows| == |job.run.tables[table]|
    && forall i | 0 <= i < |rows| ::
      KeyOf(job.run.schema, table, rows[i]) == KeyOf(job.run.schema, table, job.run.tables[table][i])
  }

  /** Once the renames are done, every row is found under the key the local run gave it. */
  lemma KeysHaveArrived(job: Job, table: Table, column: Column, tables: Tables)
    requires Shaped(job) && TablesProgress(job, tables) && PreparationDone(job, tables) && RenamesArrived(job, tables)
    requires ExactLeads(job, table, column)
    ensures KeysAgree(job, table, tables[table])
  {
    var rows, keys := tables[table], KeyColumns(job.run.schema, table);
    KeptTableIsPartial(job, tables, table);
    forall k | k in keys ensures AtGoal(job, table, k, rows) {
      KeyColumnArrives(job, table, k, tables);
    }
    forall i: nat | i < |rows|
      ensures KeyOf(job.run.schema, table, rows[i]) == KeyOf(job.run.schema, table, job.run.tables[table][i])
    {
      forall n | 0 <= n < |keys| ensures Field(rows[i], keys[n]) == Field(job.run.tables[table][i], keys[n]) {
        assert keys[n] in keys && KeyLeads(job, table, keys[n], i);
      }
    }
  }

  ghost predicate AllStagedExactly(job: Job, exact: map<ExactKey, Cell>) {
    forall key | key in exact :: StagedExactly(job, key, exact[key])
  }

  lemma {:induction false} StagingAddsEntries(
    exact: map<ExactKey, Cell>, table: Table, column: Column, entries: seq<(seq<Cell>, Cell)>)
    ensures var after := StageEntries(exact, table, column, entries);
      && exact.Keys <= after.Keys
      && (forall e | e in entries :: ExactKey(table, column, e.0) in after)
      && forall key | key in after ::
        || (key in exact && after[key] == exact[key])
        || exists e | e in entries :: key == ExactKey(table, column, e.0) && after[key] == e.1
    decreases |entries|
  {
    if entries != [] {
      var next := exact[ExactKey(table, column, entries[0].0) := entries[0].1];
      StagingAddsEntries(next, table, column, entries[1..]);
      assert entries == [entries[0]] + entries[1..];
    }
  }

  lemma StagingKeepsExactness(
    job: Job, exact: map<ExactKey, Cell>, table: Table, column: Column, entries: seq<(seq<Cell>, Cell)>)
    requires AllStagedExactly(job, exact)
    requires forall e | e in entries :: StagedExactly(job, ExactKey(table, column, e.0), e.1)
    ensures AllStagedExactly(job, StageEntries(exact, table, column, entries))
  {
    StagingAddsEntries(exact, table, column, entries);
    var after := StageEntries(exact, table, column, entries);
    forall key | key in after ensures StagedExactly(job, key, after[key]) {
      if !(key in exact && after[key] == exact[key]) {
        var e :| e in entries && key == ExactKey(table, column, e.0) && after[key] == e.1;
        assert StagedExactly(job, ExactKey(table, column, e.0), e.1);
      }
    }
  }

  lemma {:induction false} ExactRowsAreTheShippedRows(run: LocalRun, table: Table, column: Column, rows: seq<Row>)
    ensures forall e :: e in ExactRows(run, table, column, rows) <==>
      exists i | 0 <= i < |rows| :: IsExactEntry(run, table, column, rows[i], e)
  {
    if rows != [] {
      ExactRowsAreTheShippedRows(run, table, column, rows[1..]);
      assert forall i | 0 < i < |rows| :: rows[i] == rows[1..][i - 1];
    }
  }

  predicate IsExactEntry(run: LocalRun, table: Table, column: Column, row: Row, entry: (seq<Cell>, Cell)) {
    && Field(row, column) != Null && Shipped(run.mapRows, Field(row, column))
    && entry == (KeyOf(run.schema, table, row), Field(row, column))
  }

  lemma ExactRowsAreExact(job: Job, table: Table, column: Column)
    requires (table, column) in job.run.embedded
    ensures forall e | e in ExactRows(job.run, table, column, job.run.tables[table]) ::
      StagedExactly(job, ExactKey(table, column, e.0), e.1)
  {
    var rows := job.run.tables[table];
    ExactRowsAreTheShippedRows(job.run, table, column, rows);
    forall e | e in ExactRows(job.run, table, column, rows)
      ensures StagedExactly(job, ExactKey(table, column, e.0), e.1)
    {
      var i :| 0 <= i < |rows| && IsExactEntry(job.run, table, column, rows[i], e);
      assert e.1 == At(job.run.tables, table, i, column);
    }
  }

  /** Every shipped row has its value staged. */
  ghost predicate ColumnStaged(job: Job, table: Table, column: Column, exact: map<ExactKey, Cell>) {
    forall i: nat | i < |job.run.tables[table]| && Shipped(job.run.mapRows, At(job.run.tables, table, i, column)) ::
      ExactKey(table, column, KeyOf(job.run.schema, table, job.run.tables[table][i])) in exact
  }

  /** A staged value belongs to exactly the shipped row with its key. */
  lemma StagedRow(job: Job, table: Table, column: Column, i: nat, exact: map<ExactKey, Cell>)
    requires AllStagedExactly(job, exact) && ColumnStaged(job, table, column, exact) && ExactLeads(job, table, column)
    requires i < |job.run.tables[table]|
    ensures var key := ExactKey(table, column, KeyOf(job.run.schema, table, job.run.tables[table][i]));
      && (key in exact <==> Shipped(job.run.mapRows, At(job.run.tables, table, i, column)))
      && (key in exact ==> exact[key] == At(job.run.tables, table, i, column))
  {
    var rows := job.run.tables[table];
    var key := ExactKey(table, column, KeyOf(job.run.schema, table, rows[i]));
    if key in exact {
      assert StagedExactly(job, key, exact[key]);
      var j :| 0 <= j < |rows| && key.key == KeyOf(job.run.schema, table, rows[j])
        && exact[key] == At(job.run.tables, table, j, column) && Shipped(job.run.mapRows, exact[key]);
      assert j == i;
    }
  }

  lemma StagedRowField(schema: Schema, exact: map<ExactKey, Cell>, table: Table, column: Column, row: Row)
    ensures D1Plan.StagedRow(schema, exact, table, column, row).Keys == row.Keys
    ensures forall c | c != column :: Field(D1Plan.StagedRow(schema, exact, table, column, row), c) == Field(row, c)
    ensures var key := ExactKey(table, column, KeyOf(schema, table, row));
      Field(D1Plan.StagedRow(schema, exact, table, column, row), column) ==
      if column in row && key in exact then exact[key] else Field(row, column)
  {
  }

  lemma ApplyOneRow(job: Job, table: Table, column: Column, exact: map<ExactKey, Cell>, rows: seq<Row>, i: nat)
    requires Shaped(job) && Partial(job, table, rows) && KeysAgree(job, table, rows) && i < |rows|
    requires Moves(table, column) ==> Moved(job, table, column, rows)
    requires AllStagedExactly(job, exact) && ColumnStaged(job, table, column, exact) && ExactLeads(job, table, column)
    ensures Field(D1Plan.StagedRow(job.run.schema, exact, table, column, rows[i]), column) == At(job.goal, table, i, column)
  {
    StagedRow(job, table, column, i, exact);
    StagedRowField(job.run.schema, exact, table, column, rows[i]);
    assert ShipmentLeads(job, table, column, i);
    assert OnTrack(job, table, i, column, Field(rows[i], column));
  }

  lemma ApplyArrives(job: Job, table: Table, column: Column, exact: map<ExactKey, Cell>, rows: seq<Row>)
    requires Shaped(job) && Partial(job, table, rows) && KeysAgree(job, table, rows)
    requires Moves(table, column) ==> Moved(job, table, column, rows)
    requires AllStagedExactly(job, exact) && ColumnStaged(job, table, column, exact) && ExactLeads(job, table, column)
    ensures var after := MapRows(rows, row => D1Plan.StagedRow(job.run.schema, exact, table, column, row));
      RowsTowards(job, table, rows, after) && AtGoal(job, table, column, after)
  {
    var after := MapRows(rows, row => D1Plan.StagedRow(job.run.schema, exact, table, column, row));
    forall i: nat | i < |rows|
      ensures after[i].Keys == rows[i].Keys
      ensures forall c | c != column :: Field(after[i], c) == Field(rows[i], c)
      ensures Field(after[i], column) == At(job.goal, table, i, column)
    {
      StagedRowField(job.run.schema, exact, table, column, rows[i]);
      ApplyOneRow(job, table, column, exact, rows, i);
    }
  }

  lemma StageStep(schema: Schema, table: Table, column: Column, entries: seq<(seq<Cell>, Cell)>, st: D1)
    ensures Step(schema, StageExact(table, column, entries), st) ==
      Some(st.(exact := StageEntries(st.exact, table, column, entries)))
  {
  }

  lemma ApplyStep(schema: Schema, table: Table, column: Column, st: D1)
    requires Pending(st)
    ensures Step(schema, ApplyExact(table, column), st) == Some(st.(tables := st.tables[table :=
      MapRows(st.tables[table], row => D1Plan.StagedRow(schema, st.exact, table, column, row))]))
  {
  }

  ghost predicate EntriesStaged(table: Table, column: Column, entries: seq<(seq<Cell>, Cell)>, exact: map<ExactKey, Cell>) {
    forall e | e in entries :: ExactKey(table, column, e.0) in exact
  }

  lemma {:induction false} RunStaging(
    job: Job, table: Table, column: Column, chunks: seq<seq<(seq<Cell>, Cell)>>, st: D1) returns (end: D1)
    requires Progress(job, st)
    requires forall e | e in Flatten(chunks) :: StagedExactly(job, ExactKey(table, column, e.0), e.1)
    ensures Reaches(job, StageStatements(table, column, chunks), st, end)
    ensures Progress(job, end)
    ensures end == st.(exact := end.exact) && st.exact.Keys <= end.exact.Keys
    ensures EntriesStaged(table, column, Flatten(chunks), end.exact)
    decreases |chunks|
  {
    hide Progress, Reaches, StagedExactly, Step, TablesProgress, AllStagedExactly;
    if chunks == [] {
      ReachesNowhere(job, st);
      return st;
    }
    assert Flatten(chunks) == chunks[0] + Flatten(chunks[1..]);
    InProgress(job, st);
    StagingAddsEntries(st.exact, table, column, chunks[0]);
    StagingKeepsExactness(job, st.exact, table, column, chunks[0]);
    StageStep(job.run.schema, table, column, chunks[0], st);
    var next := st.(exact := StageEntries(st.exact, table, column, chunks[0]));
    StagingGoesOn(job, st, next.exact);
    ReachesByStep(job, StageExact(table, column, chunks[0]), st, next);
    end := RunStaging(job, table, column, chunks[1..], next);
    ReachesInSequence(job, [StageExact(table, column, chunks[0])], StageStatements(table, column, chunks[1..]), st, next, end);
  }

  lemma StagedEntriesStageTheColumn(job: Job, table: Table, column: Column, exact: map<ExactKey, Cell>)
    requires EntriesStaged(table, column, ExactRows(job.run, table, column, job.run.tables[table]), exact)
    requires ExactLeads(job, table, column)
    ensures ColumnStaged(job, table, column, exact)
  {
    var rows := job.run.tables[table];
    ExactRowsAreTheShippedRows(job.run, table, column, rows);
    forall i: nat | i < |rows| && Shipped(job.run.mapRows, At(job.run.tables, table, i, column))
      ensures ExactKey(table, column, KeyOf(job.run.schema, table, rows[i])) in exact
    {
      assert ShipmentLeads(job, table, column, i);
      assert IsExactEntry(job.run, table, column, rows[i], (KeyOf(job.run.schema, table, rows[i]), Field(rows[i], column)));
    }
  }

  // Counting staged values against rows.

  lemma {:induction false} ImageHasSameSize<A, B>(domain: set<A>, image: set<B>, f: A -> B)
    requires image == set i | i in domain :: f(i)
    requires forall i, j | i in domain && j in domain && f(i) == f(j) :: i == j
    ensures |image| == |domain|
    decreases domain
  {
    if i :| i in domain {
      var fewer := domain - {i};
      var rest := set j | j in fewer :: f(j);
      ImageHasSameSize(fewer, rest, f);
      assert image == rest + {f(i)} && f(i) !in rest;
      assert domain == fewer + {i};
    } else {
      assert domain == {} && image == {};
    }
  }

  ghost function RowKey(job: Job, table: Table, column: Column, i: int): ExactKey {
    var rows := job.run.tables[table];
    ExactKey(table, column, if 0 <= i < |rows| then KeyOf(job.run.schema, table, rows[i]) else [])
  }

  lemma StagedKeysAreRowKeys(job: Job, table: Table, column: Column, st: D1)
    requires AllStagedExactly(job, st.exact) && KeysAgree(job, table, st.tables[table])
    ensures StagedKeys(st, table, column) ==
      set i | i in JoinedRows(job.run.schema, st, table, column) :: RowKey(job, table, column, i)
  {
    var rows := job.run.tables[table];
    var joined, staged := JoinedRows(job.run.schema, st, table, column), StagedKeys(st, table, column);
    forall key | key in staged ensures exists i :: i in joined && RowKey(job, table, column, i) == key {
      assert StagedExactly(job, key, st.exact[key]);
      var i :| 0 <= i < |rows| && key.key == KeyOf(job.run.schema, table, rows[i]);
      assert RowKey(job, table, column, i) == key && i in joined;
    }
    forall i | i in joined ensures RowKey(job, table, column, i) in staged {
    }
  }

  lemma StagedKeysAreJoined(job: Job, table: Table, column: Column, st: D1)
    requires AllStagedExactly(job, st.exact) && KeysAgree(job, table, st.tables[table])
    requires DistinctPrimaryKeys(job.run.schema, table, job.run.tables[table])
    ensures |StagedKeys(st, table, column)| == |JoinedRows(job.run.schema, st, table, column)|
  {
    StagedKeysAreRowKeys(job, table, column, st);
    var joined := JoinedRows(job.run.schema, st, table, column);
    forall i, j | i in joined && j in joined && RowKey(job, table, column, i) == RowKey(job, table, column, j)
      ensures i == j
    {
    }
    ImageHasSameSize(joined, StagedKeys(st, table, column), i => RowKey(job, table, column, i));
  }

  lemma ExactCheckPasses(job: Job, table: Table, column: Column, st: D1)
    requires Progress(job, st) && ExactLeads(job, table, column)
    requires ColumnStaged(job, table, column, st.exact) && KeysAgree(job, table, st.tables[table])
    requires AtGoal(job, table, column, st.tables[table])
    ensures Passes(job.run.schema, ExactApplied(table, column), st)
  {
    StagedKeysAreJoined(job, table, column, st);
    var rows := st.tables[table];
    forall i: nat | i in JoinedRows(job.run.schema, st, table, column)
      ensures Field(rows[i], column) == st.exact[ExactKey(table, column, KeyOf(job.run.schema, table, rows[i]))]
    {
      StagedRow(job, table, column, i, st.exact);
      assert ShipmentLeads(job, table, column, i);
    }
  }

  function AppliedTables(schema: Schema, table: Table, column: Column, st: D1): Tables {
    st.tables[table := MapRows(st.tables[table], row => D1Plan.StagedRow(schema, st.exact, table, column, row))]
  }

  lemma ApplyMakesProgress(job: Job, table: Table, column: Column, st: D1)
    requires Shaped(job) && Progress(job, st) && PreparationDone(job, st.tables) && RenamesArrived(job, st.tables)
    requires ExactLeads(job, table, column) && ColumnStaged(job, table, column, st.exact)
    requires CreatorsComeFirst(job.run.schema, job.run.renames)
    ensures var after := AppliedTables(job.run.schema, table, column, st);
      && TablesProgress(job, after) && PreparationDone(job, after) && KeepsArrivals(job, st.tables, after)
      && AtGoal(job, table, column, after[table])
  {
    hide Progress, RenamesArrived, ColumnStaged, PreparationDone, Moved, KeysAgree, SameShape, TablesProgress,
      CreatorsArrived, CreatorsComeFirst, AllStagedExactly, Shaped, RowsTowards, KeepsArrivals, AtGoal, Partial;
    InProgress(job, st);
    ShapedKeeps(job);
    KeptTableIsPartial(job, st.tables, table);
    KeysHaveArrived(job, table, column, st.tables);
    PreparedColumnsMoved(job, table, column, st.tables);
    ApplyArrives(job, table, column, st.exact, st.tables[table]);
    RenamedCreatorsArrived(job, st.tables);
    TowardsKeepsProgress(job, st.tables, AppliedTables(job.run.schema, table, column, st));
  }

  lemma RunApplying(job: Job, table: Table, column: Column, st: D1) returns (end: D1)
    requires Shaped(job) && Progress(job, st) && PreparationDone(job, st.tables) && RenamesArrived(job, st.tables)
    requires ExactLeads(job, table, column) && ColumnStaged(job, table, column, st.exact)
    requires CreatorsComeFirst(job.run.schema, job.run.renames)
    ensures Reaches(job, [ApplyExact(table, column), Assert(ExactApplied(table, column))], st, end)
    ensures Progress(job, end) && end == st.(tables := end.tables)
    ensures PreparationDone(job, end.tables) && KeepsArrivals(job, st.tables, end.tables)
    ensures AtGoal(job, table, column, end.tables[table])
  {
    hide Progress, Reaches, Step, TablesProgress, PreparationDone, Shaped, RenamesArrived, ExactLeads, KeepsArrivals, AtGoal,
      ColumnStaged, Passes, KeysAgree, AllStagedExactly;
    InProgress(job, st);
    ApplyStep(job.run.schema, table, column, st);
    ApplyMakesProgress(job, table, column, st);
    end := st.(tables := AppliedTables(job.run.schema, table, column, st));
    ProgressGoesOn(job, st, end.tables);
    ReachesByStep(job, ApplyExact(table, column), st, end);
    RenamesPersist(job, st.tables, end.tables);
    KeysHaveArrived(job, table, column, end.tables);
    ExactCheckPasses(job, table, column, end);
    CheckPasses(job, ExactApplied(table, column), end);
    var apply, check := ApplyExact(table, column), Assert(ExactApplied(table, column));
    ReachesInSequence(job, [apply], [check], st, end, end);
    assert [apply] + [check] == [apply, check];
  }

  /** When nothing of a column is shipped, it has nowhere to go. */
  lemma UnshippedColumnArrives(job: Job, table: Table, column: Column, tables: Tables)
    requires Shaped(job) && TablesProgress(job, tables) && PreparationDone(job, tables)
    requires ExactLeads(job, table, column)
    requires ExactRows(job.run, table, column, job.run.tables[table]) == []
    ensures AtGoal(job, table, column, tables[table])
  {
    var rows := job.run.tables[table];
    ExactRowsAreTheShippedRows(job.run, table, column, rows);
    forall i: nat | i < |job.goal[table]|
      ensures At(job.goal, table, i, column) == At(job.prepared, table, i, column)
    {
      assert ShipmentLeads(job, table, column, i);
      var entry := (KeyOf(job.run.schema, table, rows[i]), Field(rows[i], column));
      assert IsExactEntry(job.run, table, column, rows[i], entry) ==> entry in ExactRows(job.run, table, column, rows);
    }
    KeptTableIsPartial(job, tables, table);
    PreparedColumnsMoved(job, table, column, tables);
    StaysPutArrives(job, table, column, tables[table]);
  }

  lemma RunColumn(job: Job, rendering: Rendering, table: Table, column: Column, st: D1) returns (end: D1)
    requires Shaped(job) && Progress(job, st) && PreparationDone(job, st.tables) && RenamesArrived(job, st.tables)
    requires ExactLeads(job, table, column) && ColumnFits(job.run, rendering, table, column)
    requires (table, column) in job.run.embedded && CreatorsComeFirst(job.run.schema, job.run.renames)
    ensures Reaches(job, ColumnStatements(job.run, rendering, table, column), st, end)
    ensures Progress(job, end) && end == st.(tables := end.tables, exact := end.exact)
    ensures PreparationDone(job, end.tables) && KeepsArrivals(job, st.tables, end.tables)
    ensures AtGoal(job, table, column, end.tables[table])
  {
    var rows := ExactRows(job.run, table, column, job.run.tables[table]);
    if rows == [] {
      UnshippedColumnArrives(job, table, column, st.tables);
      ReachesNowhere(job, st);
      return st;
    }
    var chunks := ExactChunks(job.run, rendering, table, column);
    ChunksConcatenate(rows, entry => rendering.exactBytes(table, column, entry));
    assert Flatten(chunks) == rows;
    ExactRowsAreExact(job, table, column);
    var staged := RunStaging(job, table, column, chunks, st);
    StagedEntriesStageTheColumn(job, table, column, staged.exact);
    end := RunApplying(job, table, column, staged);
    ReachesInSequence(job, StageStatements(table, column, chunks),
                      [ApplyExact(table, column), Assert(ExactApplied(table, column))], st, staged, end);
  }

  lemma ArrivalsPersist(job: Job, table: Table, column: Column, before: Tables, after: Tables)
    requires KeepsArrivals(job, before, after) && AtGoal(job, table, column, before[table])
    requires table !in job.deletable
    ensures AtGoal(job, table, column, after[table])
  {
    assert Arrived(job, table, column, before[table]);
  }

  lemma RenamesPersist(job: Job, before: Tables, after: Tables)
    requires KeepsArrivals(job, before, after) && RenamesArrived(job, before)
    ensures RenamesArrived(job, after)
  {
  }

  ghost predicate ColumnsAtGoal(job: Job, columns: seq<(Table, Column)>, tables: Tables) {
    forall tc | tc in columns :: AtGoal(job, tc.0, tc.1, tables[tc.0])
  }

  lemma ColumnsAtGoalExtend(job: Job, columns: seq<(Table, Column)>, before: Tables, after: Tables)
    requires columns != [] && columns[0] in job.run.embedded && ColumnsLead(job)
    requires KeepsTables(job) && KeepsArrivals(job, before, after)
    requires AtGoal(job, columns[0].0, columns[0].1, before[columns[0].0]) && ColumnsAtGoal(job, columns[1..], after)
    ensures ColumnsAtGoal(job, columns, after)
  {
    var (table, column) := columns[0];
    assert ExactLeads(job, table, column);
    ArrivalsPersist(job, table, column, before, after);
    assert columns == [columns[0]] + columns[1..];
  }

  lemma {:induction false} RunColumns(job: Job, rendering: Rendering, columns: seq<(Table, Column)>, st: D1) returns (end: D1)
    requires Shaped(job) && Progress(job, st) && PreparationDone(job, st.tables) && RenamesArrived(job, st.tables)
    requires ColumnsLead(job) && Plannable(job.run, rendering)
    requires (forall tc | tc in columns :: tc in job.run.embedded) && CreatorsComeFirst(job.run.schema, job.run.renames)
    ensures Reaches(job, ExactStatements(job.run, rendering, columns), st, end)
    ensures Progress(job, end) && end == st.(tables := end.tables, exact := end.exact)
    ensures PreparationDone(job, end.tables) && KeepsArrivals(job, st.tables, end.tables)
    ensures ColumnsAtGoal(job, columns, end.tables)
    decreases |columns|
  {
    hide Progress, Reaches, PreparationDone, RenamesArrived;
    if columns == [] {
      ReachesNowhere(job, st);
      return st;
    }
    var (table, column) := columns[0];
    assert ExactLeads(job, columns[0].0, columns[0].1) && ColumnFits(job.run, rendering, columns[0].0, columns[0].1);
    var next := RunColumn(job, rendering, table, column, st);
    RenamesPersist(job, st.tables, next.tables);
    end := RunColumns(job, rendering, columns[1..], next);
    ReachesInSequence(job, ColumnStatements(job.run, rendering, table, column),
                      ExactStatements(job.run, rendering, columns[1..]), st, next, end);
    ColumnsAtGoalExtend(job, columns, next.tables, end.tables);
  }

  // Credentials.

  ghost predicate CredentialsSet(job: Job, rows: seq<Row>, n: nat) {
    forall i: nat, c | i < n && i < |rows| && IsCredential(c) :: Field(rows[i], c) == At(job.goal, DOWNLOADERS, i, c)
  }

  lemma CredentialRowField(id: Cell, tokenHash: Cell, tokenJti: Cell, enabled: Cell, row: Row)
    requires ID in row && TOKEN_HASH in row && TOKEN_JTI in row && ENABLED in row
    ensures var after := SetCredentialRow(id, tokenHash, tokenJti, enabled, row);
      && after.Keys == row.Keys
      && (forall c | !IsCredential(c) :: Field(after, c) == Field(row, c))
      && (Field(row, ID) != id ==> after == row)
      && (Field(row, ID) == id ==>
            (Field(after, TOKEN_HASH) == tokenHash && Field(after, TOKEN_JTI) == tokenJti && Field(after, ENABLED) == enabled))
  {
  }

  /** The statement built from local row `n` reaches exactly row `n`. */
  lemma SetOneCredential(job: Job, rows: seq<Row>, n: nat)
    requires Shaped(job) && CredentialsLead(job) && Partial(job, DOWNLOADERS, rows) && AtGoal(job, DOWNLOADERS, ID, rows)
    requires n < |job.run.tables[DOWNLOADERS]| && CredentialsSet(job, rows, n)
    ensures var outcome := job.run.tables[DOWNLOADERS][n];
      var after := MapRows(rows, row => SetCredentialRow(
        Field(outcome, ID), Field(outcome, TOKEN_HASH), Field(outcome, TOKEN_JTI), Field(outcome, ENABLED), row));
      && RowsTowards(job, DOWNLOADERS, rows, after) && CredentialsSet(job, after, n + 1)
      && forall i: nat | i < |rows| :: Field(after[i], ID) == Field(rows[i], ID)
  {
    var outcome := job.run.tables[DOWNLOADERS][n];
    var id, hash, jti, enabled := Field(outcome, ID), Field(outcome, TOKEN_HASH), Field(outcome, TOKEN_JTI), Field(outcome, ENABLED);
    var after := MapRows(rows, row => SetCredentialRow(id, hash, jti, enabled, row));
    forall i: nat | i < |rows|
      ensures after[i].Keys == rows[i].Keys
      ensures forall c | !IsCredential(c) :: Field(after[i], c) == Field(rows[i], c)
      ensures i != n ==> after[i] == rows[i]
      ensures i == n ==> forall c | IsCredential(c) :: Field(after[i], c) == At(job.goal, DOWNLOADERS, i, c)
    {
      assert job.original[DOWNLOADERS][i] in job.original[DOWNLOADERS];
      CredentialRowField(id, hash, jti, enabled, rows[i]);
      assert CredentialLeads(job, i) && CredentialLeads(job, n);
      assert Field(rows[i], ID) == Field(job.run.tables[DOWNLOADERS][i], ID);
    }
  }

  lemma CredentialCheckPasses(job: Job, st: D1, n: nat)
    requires CredentialsLead(job) && AtGoal(job, DOWNLOADERS, ID, st.tables[DOWNLOADERS])
    requires Shaped(job) && n < |job.run.tables[DOWNLOADERS]| && CredentialsSet(job, st.tables[DOWNLOADERS], n + 1)
    ensures var outcome := job.run.tables[DOWNLOADERS][n];
      Passes(job.run.schema, CredentialSet(
        Field(outcome, ID), Field(outcome, TOKEN_HASH), Field(outcome, TOKEN_JTI), Field(outcome, ENABLED)), st)
  {
    hide Shaped, CredentialsLead, AtGoal, CredentialsSet;
    var rows, outcome := st.tables[DOWNLOADERS], job.run.tables[DOWNLOADERS][n];
    OnlyOneHasTheId(job, rows, n);
    CredentialIsSet(job, rows, n);
    assert (set i | 0 <= i < |rows| && Field(rows[i], ID) == Field(outcome, ID)) == {n};
  }

  lemma OnlyOneHasTheId(job: Job, rows: seq<Row>, n: nat)
    requires Shaped(job) && CredentialsLead(job) && AtGoal(job, DOWNLOADERS, ID, rows) && n < |job.run.tables[DOWNLOADERS]|
    ensures n < |rows|
    ensures forall i: nat | i < |rows| :: Field(rows[i], ID) == Field(job.run.tables[DOWNLOADERS][n], ID) <==> i == n
  {
    forall i: nat | i < |rows| ensures Field(rows[i], ID) == Field(job.run.tables[DOWNLOADERS][n], ID) <==> i == n {
      assert CredentialLeads(job, i) && CredentialLeads(job, n);
      assert Field(rows[i], ID) == Field(job.run.tables[DOWNLOADERS][i], ID);
    }
  }

  lemma CredentialIsSet(job: Job, rows: seq<Row>, n: nat)
    requires CredentialsLead(job) && n < |job.run.tables[DOWNLOADERS]| && n < |rows| && CredentialsSet(job, rows, n + 1)
    ensures forall c | IsCredential(c) :: Field(rows[n], c) == Field(job.run.tables[DOWNLOADERS][n], c)
    ensures IsCredential(TOKEN_HASH) && IsCredential(TOKEN_JTI) && IsCredential(ENABLED)
  {
    assert CredentialLeads(job, n);
  }

  lemma SetStep(schema: Schema, id: Cell, hash: Cell, jti: Cell, enabled: Cell, st: D1)
    requires Pending(st)
    ensures Step(schema, SetCredential(id, hash, jti, enabled), st) == Some(st.(tables := st.tables[DOWNLOADERS :=
      MapRows(st.tables[DOWNLOADERS], row => SetCredentialRow(id, hash, jti, enabled, row))]))
  {
  }

  lemma DownloadersArePartial(job: Job, tables: Tables)
    requires KeepsTables(job) && TablesProgress(job, tables)
    ensures Partial(job, DOWNLOADERS, tables[DOWNLOADERS]) && DOWNLOADERS !in job.deletable
  {
  }

  function CredentialPair(row: Row): seq<Statement> {
    var id, hash, jti, enabled := Field(row, ID), Field(row, TOKEN_HASH), Field(row, TOKEN_JTI), Field(row, ENABLED);
    [SetCredential(id, hash, jti, enabled), Assert(CredentialSet(id, hash, jti, enabled))]
  }

  function CredentialTables(row: Row, tables: Tables): Tables {
    tables[DOWNLOADERS := MapRows(tables[DOWNLOADERS], r => SetCredentialRow(
      Field(row, ID), Field(row, TOKEN_HASH), Field(row, TOKEN_JTI), Field(row, ENABLED), r))]
  }

  /** One kept table moves towards its goal. */
  lemma OneTableTowards(job: Job, tables: Tables, table: Table, after: seq<Row>)
    requires KeepsTables(job) && table != API_KEY
    requires TablesProgress(job, tables) && PreparationDone(job, tables) && table !in job.deletable
    requires RowsTowards(job, table, tables[table], after)
    ensures var next := tables[table := after];
      TablesProgress(job, next) && PreparationDone(job, next) && KeepsArrivals(job, tables, next)
  {
    hide PreparationDone, InOrder, RegistrationsLast, Partial, RowsTowards, KeepsArrivals, KeepsTables;
    assert Partial(job, table, tables[table]);
    TowardsKeepsProgress(job, tables, tables[table := after]);
  }

  lemma SameFieldsAtGoal(job: Job, table: Table, column: Column, before: seq<Row>, after: seq<Row>)
    requires AtGoal(job, table, column, before) && |after| == |before|
    requires forall i: nat | i < |before| :: Field(after[i], column) == Field(before[i], column)
    ensures AtGoal(job, table, column, after)
  {
  }

  lemma CredentialMakesProgress(job: Job, n: nat, tables: Tables)
    requires Shaped(job) && CredentialsLead(job) && TablesProgress(job, tables) && PreparationDone(job, tables)
    requires n < |job.run.tables[DOWNLOADERS]|
    requires AtGoal(job, DOWNLOADERS, ID, tables[DOWNLOADERS]) && CredentialsSet(job, tables[DOWNLOADERS], n)
    ensures var after := CredentialTables(job.run.tables[DOWNLOADERS][n], tables);
      && TablesProgress(job, after) && PreparationDone(job, after) && KeepsArrivals(job, tables, after)
      && AtGoal(job, DOWNLOADERS, ID, after[DOWNLOADERS]) && CredentialsSet(job, after[DOWNLOADERS], n + 1)
  {
    DownloadersArePartial(job, tables);
    SetOneCredential(job, tables[DOWNLOADERS], n);
    var after := CredentialTables(job.run.tables[DOWNLOADERS][n], tables)[DOWNLOADERS];
    OneTableTowards(job, tables, DOWNLOADERS, after);
    SameFieldsAtGoal(job, DOWNLOADERS, ID, tables[DOWNLOADERS], after);
  }

  lemma ReachesAndChecks(job: Job, s: Statement, check: Check, st: D1, end: D1)
    requires Progress(job, st) && Progress(job, end)
    requires Step(job.run.schema, s, st) == Some(end) && Passes(job.run.schema, check, end)
    ensures Reaches(job, [s, Assert(check)], st, end)
  {
    ReachesByStep(job, s, st, end);
    CheckPasses(job, check, end);
    ReachesInSequence(job, [s], [Assert(check)], st, end, end);
  }

  lemma RunOneCredential(job: Job, n: nat, st: D1) returns (end: D1)
    requires Shaped(job) && CredentialsLead(job) && Progress(job, st) && PreparationDone(job, st.tables)
    requires n < |job.run.tables[DOWNLOADERS]|
    requires AtGoal(job, DOWNLOADERS, ID, st.tables[DOWNLOADERS]) && CredentialsSet(job, st.tables[DOWNLOADERS], n)
    ensures Reaches(job, CredentialPair(job.run.tables[DOWNLOADERS][n]), st, end)
    ensures Progress(job, end) && end == st.(tables := end.tables)
    ensures PreparationDone(job, end.tables) && KeepsArrivals(job, st.tables, end.tables)
    ensures AtGoal(job, DOWNLOADERS, ID, end.tables[DOWNLOADERS]) && CredentialsSet(job, end.tables[DOWNLOADERS], n + 1)
  {
    var row := job.run.tables[DOWNLOADERS][n];
    SetStep(job.run.schema, Field(row, ID), Field(row, TOKEN_HASH), Field(row, TOKEN_JTI), Field(row, ENABLED), st);
    CredentialMakesProgress(job, n, st.tables);
    end := st.(tables := CredentialTables(row, st.tables));
    CredentialCheckPasses(job, end, n);
    var pair := CredentialPair(row);
    assert Progress(job, end);
    ReachesAndChecks(job, pair[0], pair[1].check, st, end);
  }

  lemma {:induction false} RunCredentials(job: Job, n: nat, st: D1) returns (end: D1)
    requires Shaped(job) && CredentialsLead(job) && Progress(job, st) && PreparationDone(job, st.tables)
    requires n <= |job.run.tables[DOWNLOADERS]|
    requires AtGoal(job, DOWNLOADERS, ID, st.tables[DOWNLOADERS]) && CredentialsSet(job, st.tables[DOWNLOADERS], n)
    ensures Reaches(job, CredentialStatements(job.run.tables[DOWNLOADERS][n..]), st, end)
    ensures Progress(job, end) && end == st.(tables := end.tables)
    ensures PreparationDone(job, end.tables) && KeepsArrivals(job, st.tables, end.tables)
    ensures CredentialsSet(job, end.tables[DOWNLOADERS], |job.run.tables[DOWNLOADERS]|)
    decreases |job.run.tables[DOWNLOADERS]| - n
  {
    hide Progress, Reaches, CredentialsLead, PreparationDone, Shaped;
    var outcomes := job.run.tables[DOWNLOADERS];
    if n == |outcomes| {
      assert outcomes[n..] == [];
      ReachesNowhere(job, st);
      return st;
    }
    assert outcomes[n..][0] == outcomes[n] && outcomes[n..][1..] == outcomes[n + 1..];
    var next := RunOneCredential(job, n, st);
    end := RunCredentials(job, n + 1, next);
    ReachesInSequence(job, CredentialPair(outcomes[n]), CredentialStatements(outcomes[n + 1..]), st, next, end);
  }

  lemma RevokedCheckPasses(job: Job, st: D1)
    requires Shaped(job) && CredentialsLead(job)
    requires |st.tables[DOWNLOADERS]| == |job.original[DOWNLOADERS]|
    requires CredentialsSet(job, st.tables[DOWNLOADERS], |job.run.tables[DOWNLOADERS]|)
    ensures Passes(job.run.schema, CredentialsRevoked, st)
  {
    var rows := st.tables[DOWNLOADERS];
    forall row | row in rows ensures Field(row, ENABLED) == Number(0) && Field(row, TOKEN_HASH) == Text("") {
      var i: nat :| i < |rows| && rows[i] == row;
      assert CredentialLeads(job, i) && IsCredential(ENABLED) && IsCredential(TOKEN_HASH);
      assert job.run.tables[DOWNLOADERS][i] in job.run.tables[DOWNLOADERS];
    }
  }

  /** Credential columns that are governed have all arrived. */
  ghost predicate CredentialsArrived(job: Job, tables: Tables) {
    HasCredentials(job.run.schema) ==>
      |tables[DOWNLOADERS]| == |job.original[DOWNLOADERS]|
      && CredentialsSet(job, tables[DOWNLOADERS], |job.original[DOWNLOADERS]|)
  }

  lemma RunAllCredentials(job: Job, st: D1) returns (end: D1)
    requires Shaped(job) && (HasCredentials(job.run.schema) ==> CredentialsLead(job))
    requires Progress(job, st) && PreparationDone(job, st.tables) && RenamesArrived(job, st.tables)
    ensures Reaches(job, RevocationStatements(job.run), st, end)
    ensures Progress(job, end) && end == st.(tables := end.tables)
    ensures PreparationDone(job, end.tables) && KeepsArrivals(job, st.tables, end.tables)
    ensures CredentialsArrived(job, end.tables)
  {
    if !HasCredentials(job.run.schema) {
      ReachesNowhere(job, st);
      return st;
    }
    DownloadersArePartial(job, st.tables);
    if StaysPut(job, DOWNLOADERS, ID) {
      StaysPutArrives(job, DOWNLOADERS, ID, st.tables[DOWNLOADERS]);
    }
    end := RunCredentials(job, 0, st);
    assert job.run.tables[DOWNLOADERS][0..] == job.run.tables[DOWNLOADERS];
    DownloadersArePartial(job, end.tables);
    RevokedCheckPasses(job, end);
    CheckPasses(job, CredentialsRevoked, end);
    ReachesInSequence(job, CredentialStatements(job.run.tables[DOWNLOADERS]), [Assert(CredentialsRevoked)], st, end, end);
  }

  // Everything has arrived; now rows are deleted.

  ghost predicate AllArrived(job: Job, tables: Tables) {
    forall t :: tables[t] == job.goal[t] || Deleted(job, t, tables[t])
  }

  ghost predicate OthersStayPut(job: Job) {
    forall t, c | !IsRenamed(job.run.renames, t, c) && (t, c) !in job.run.embedded && !IsCredentialPlace(job, t, c) ::
      StaysPut(job, t, c)
  }

  lemma ColumnHasArrived(job: Job, table: Table, column: Column, tables: Tables)
    requires Shaped(job) && OthersStayPut(job) && TablesProgress(job, tables) && PreparationDone(job, tables)
    requires RenamesArrived(job, tables) && ColumnsAtGoal(job, job.run.embedded, tables) && CredentialsArrived(job, tables)
    requires !Deleted(job, table, tables[table])
    ensures AtGoal(job, table, column, tables[table])
  {
    assert Partial(job, table, tables[table]);
    if IsRenamed(job.run.renames, table, column) {
      var r :| r in job.run.renames && r.table == table && r.column == column;
      assert Arrived(job, r.table, r.column, tables[r.table]);
    } else if (table, column) in job.run.embedded {
    } else if IsCredentialPlace(job, table, column) {
    } else {
      PreparedColumnsMoved(job, table, column, tables);
      StaysPutArrives(job, table, column, tables[table]);
    }
  }

  lemma SameFieldsSameRow(a: Row, b: Row)
    requires a.Keys == b.Keys && forall c :: Field(a, c) == Field(b, c)
    ensures a == b
  {
    forall c | c in a ensures a[c] == b[c] {
      assert Field(a, c) == Field(b, c);
    }
  }

  lemma TableHasArrived(job: Job, table: Table, rows: seq<Row>)
    requires Shaped(job) && Partial(job, table, rows)
    requires forall c :: AtGoal(job, table, c, rows)
    ensures rows == job.goal[table]
  {
    assert AtGoal(job, table, ID, rows);
    forall i: nat | i < |rows| ensures rows[i] == job.goal[table][i] {
      forall c ensures Field(rows[i], c) == Field(job.goal[table][i], c) {
        assert AtGoal(job, table, c, rows);
      }
      SameFieldsSameRow(rows[i], job.goal[table][i]);
    }
  }

  lemma EverythingHasArrived(job: Job, tables: Tables)
    requires Shaped(job) && OthersStayPut(job) && TablesProgress(job, tables) && PreparationDone(job, tables)
    requires RenamesArrived(job, tables) && ColumnsAtGoal(job, job.run.embedded, tables) && CredentialsArrived(job, tables)
    ensures AllArrived(job, tables)
  {
    forall t | !Deleted(job, t, tables[t]) ensures tables[t] == job.goal[t] {
      forall c ensures AtGoal(job, t, c, tables[t]) {
        ColumnHasArrived(job, t, c, tables);
      }
      TableHasArrived(job, t, tables[t]);
    }
  }

  // Deletions.

  /** One table reduced to its final rows. */
  function Settled(job: Job, table: Table, tables: Tables): Tables {
    tables[table := job.final[table]]
  }

  lemma OrderIsKept(job: Job, before: Tables, after: Tables)
    requires KeepsTables(job) && InOrder(job, before) && PreparationDone(job, before)
    requires forall t | t !in job.deletable :: after[t] == before[t]
    ensures InOrder(job, after) && PreparationDone(job, after)
  {
    hide Untouched, Moved, AtGoal;
    assert Kept(DOWNLOAD_TASKS) && Kept(AUDIT_EVENTS) && Kept(API_KEY);
  }

  lemma DeletingMakesProgress(job: Job, tables: Tables, table: Table)
    requires KeepsTables(job) && TablesProgress(job, tables) && PreparationDone(job, tables) && AllArrived(job, tables)
    requires table in job.deletable
    requires table == OAUTH_CLIENT_REGISTRATION ==>
      Deleted(job, OAUTH_CLIENT, tables[OAUTH_CLIENT]) && Deleted(job, OAUTH_CLIENT_RESOURCE, tables[OAUTH_CLIENT_RESOURCE])
    ensures var after := Settled(job, table, tables);
      TablesProgress(job, after) && PreparationDone(job, after) && AllArrived(job, after)
  {
    hide InOrder, RegistrationsLast, Partial, PreparationDone, KeepsTables;
    var after := Settled(job, table, tables);
    assert Deleted(job, table, after[table]);
    OrderIsKept(job, tables, after);
    DeletionKeepsRegistrationsLast(job, tables, table);
  }

  lemma DeletionKeepsRegistrationsLast(job: Job, tables: Tables, table: Table)
    requires RegistrationsLast(job, tables) && table in job.deletable
    requires table == OAUTH_CLIENT_REGISTRATION ==>
      Deleted(job, OAUTH_CLIENT, tables[OAUTH_CLIENT]) && Deleted(job, OAUTH_CLIENT_RESOURCE, tables[OAUTH_CLIENT_RESOURCE])
    ensures RegistrationsLast(job, Settled(job, table, tables))
  {
  }

  /** Tables that have been brought to their final rows stay there. */
  ghost predicate KeepsDeletions(job: Job, before: Tables, after: Tables) {
    forall t | Deleted(job, t, before[t]) :: Deleted(job, t, after[t])
  }

  ghost predicate AllDeleted(job: Job, tables: Tables, emptied: seq<Table>) {
    forall t | t in emptied :: Deleted(job, t, tables[t])
  }

  lemma ClearStep(schema: Schema, table: Table, st: D1)
    requires Pending(st)
    ensures Step(schema, Clear(table), st) == Some(st.(tables := st.tables[table := []]))
  {
  }

  lemma RunClear(job: Job, table: Table, st: D1) returns (next: D1)
    requires KeepsTables(job) && Progress(job, st) && PreparationDone(job, st.tables) && AllArrived(job, st.tables)
    requires table != OAUTH_CLIENT_REGISTRATION && table in job.deletable && job.final[table] == []
    ensures next == st.(tables := Settled(job, table, st.tables))
    ensures Reaches(job, [Clear(table)], st, next) && Progress(job, next)
    ensures PreparationDone(job, next.tables) && AllArrived(job, next.tables)
  {
    hide Progress, Reaches, Step, TablesProgress, PreparationDone, AllArrived, KeepsTables, AllStagedExactly;
    InProgress(job, st);
    DeletingMakesProgress(job, st.tables, table);
    ClearStep(job.run.schema, table, st);
    next := st.(tables := Settled(job, table, st.tables));
    ProgressGoesOn(job, st, next.tables);
    ReachesByStep(job, Clear(table), st, next);
  }

  lemma {:induction false} RunClears(job: Job, emptied: seq<Table>, st: D1) returns (end: D1)
    requires KeepsTables(job) && Progress(job, st) && PreparationDone(job, st.tables) && AllArrived(job, st.tables)
    requires OAUTH_CLIENT_REGISTRATION !in emptied
    requires forall t | t in emptied :: t in job.deletable && job.final[t] == []
    ensures Reaches(job, ClearStatements(emptied), st, end)
    ensures Progress(job, end) && end == st.(tables := end.tables)
    ensures PreparationDone(job, end.tables) && AllArrived(job, end.tables)
    ensures KeepsDeletions(job, st.tables, end.tables) && AllDeleted(job, end.tables, emptied)
    decreases |emptied|
  {
    hide Progress, Reaches, Step, TablesProgress, PreparationDone, AllArrived, KeepsTables, AllStagedExactly;
    if emptied == [] {
      ReachesNowhere(job, st);
      return st;
    }
    var table := emptied[0];
    assert table in emptied;
    var next := RunClear(job, table, st);
    end := RunClears(job, emptied[1..], next);
    ReachesInSequence(job, [Clear(table)], ClearStatements(emptied[1..]), st, next, end);
    assert emptied == [table] + emptied[1..];
  }
}
