/** What a plan guarantees: it repeats the local run on another copy, however often it was interrupted before. */
module D1Refinement {
  import opened Wrappers
  import opened IdRegistry
  import opened IdValues
  import opened IdMapTable
  import opened IdTables
  import opened IdMigration
  import opened PlanChunks
  import opened D1Plan
  import opened D1Progress
  import opened D1Replay
  import opened D1Deletions
  import opened LocalOutcome

  lemma MapChunksConcatenate(run: LocalRun, rendering: Rendering)
    requires Plannable(run, rendering)
    ensures Flatten(MapChunks(run, rendering)) == run.mapRows
  {
    hide Chunks;
    ChunksConcatenate(run.mapRows, rendering.mapBytes);
  }

  lemma MarkerIsChecked(schema: Schema, st: D1)
    requires Pending(st)
    ensures Step(schema, CheckMarker, st) == Some(st)
  {
  }

  lemma CountPasses(schema: Schema, st: D1)
    ensures Passes(schema, MappingCount(|st.mapRows|), st)
  {
  }

  lemma RunMapping(job: Job, rendering: Rendering, st: D1) returns (end: D1)
    requires DistinctKeys(job.run.mapRows) && Plannable(job.run, rendering) && Progress(job, st)
    ensures Reaches(job, MappingStatements(job.run, rendering), st, end)
    ensures Progress(job, end) && end == st.(mapRows := job.run.mapRows)
  {
    hide Progress, Reaches, DistinctKeys, Plannable, MapChunks, Passes, Step, TablesProgress, AllStagedExactly;
    InProgress(job, st);
    var chunks := MapChunks(job.run, rendering);
    MapChunksConcatenate(job.run, rendering);
    assert job.run.mapRows[0..] == job.run.mapRows;
    MarkerIsChecked(job.run.schema, st);
    ReachesByStep(job, CheckMarker, st, st);
    end := RunInserts(job, chunks, 0, |st.mapRows|, st);
    ReachesInSequence(job, [CheckMarker], InsertStatements(chunks), st, st, end);
    var sofar := [CheckMarker] + InsertStatements(chunks);
    CountPasses(job.run.schema, end);
    CheckPasses(job, MappingCount(|job.run.mapRows|), end);
    ReachesInSequence(job, sofar, [Assert(MappingCount(|job.run.mapRows|))], st, end, end);
    RunReviews(job, chunks, end);
    ReachesInSequence(job, sofar + [Assert(MappingCount(|job.run.mapRows|))], ReviewStatements(chunks), st, end, end);
  }

  lemma RunRewriting(job: Job, rendering: Rendering, st: D1) returns (end: D1)
    requires Leads(job) && Plannable(job.run, rendering) && Progress(job, st) && AsMap(st.mapRows) == job.ids
    requires Resolvable(job, st.tables)
    ensures Reaches(job, RewritingStatements(job.run, rendering), st, end)
    ensures Progress(job, end) && end == st.(tables := end.tables, exact := end.exact)
    ensures PreparationDone(job, end.tables) && AllArrived(job, end.tables)
  {
    hide Progress, Reaches, Shaped, RenamesLead, FinalWithinGoal, PreparationLeads, ColumnsLead, OthersStayPut,
      CredentialsLead, DeletionsLead, RenamedColumnsAgree, SameData, Plannable, WellFormedMap, DistinctKeys,
      PreparationDone, KeepsArrivals, Arrived, AtGoal, CredentialsArrived, AsMap, TablesProgress, AllArrived,
      Resolvable, CreatorsComeFirst, KeysComeLater;
    var run := job.run;
    var prepared := RunPreparation(job, st);
    RenamesKeepKeysBehind(job, prepared.tables);
    var renamed := RunRenames(job, run.renames, prepared);
    var rewritten := RunColumns(job, rendering, run.embedded, renamed);
    RenamesPersist(job, renamed.tables, rewritten.tables);
    end := RunAllCredentials(job, rewritten);
    RenamesPersist(job, rewritten.tables, end.tables);
    ShapedKeepsTables(job);
    ColumnsPersist(job, rewritten.tables, end.tables);
    InProgress(job, end);
    EverythingHasArrived(job, end.tables);
    ReachesInSequence(job, PreparationStatements(run.schema), RenameStatements(run.renames), st, prepared, renamed);
    var sofar := PreparationStatements(run.schema) + RenameStatements(run.renames);
    ReachesInSequence(job, sofar, ExactStatements(run, rendering, run.embedded), st, renamed, rewritten);
    ReachesInSequence(job, sofar + ExactStatements(run, rendering, run.embedded), RevocationStatements(run), st, rewritten, end);
  }

  lemma RenamesKeepKeysBehind(job: Job, tables: Tables)
    requires CreatorsComeFirst(job.run.schema, job.run.renames)
    ensures KeysComeLater(job, job.run.renames, tables)
  {
  }

  lemma ColumnsPersist(job: Job, before: Tables, after: Tables)
    requires ColumnsLead(job) && KeepsTables(job) && KeepsArrivals(job, before, after)
    requires ColumnsAtGoal(job, job.run.embedded, before)
    ensures ColumnsAtGoal(job, job.run.embedded, after)
  {
    forall tc | tc in job.run.embedded ensures AtGoal(job, tc.0, tc.1, after[tc.0]) {
      assert ExactLeads(job, tc.0, tc.1);
      ArrivalsPersist(job, tc.0, tc.1, before, after);
    }
  }

  lemma RunFinishing(job: Job, st: D1) returns (end: D1)
    requires Leads(job) && Progress(job, st) && st.mapRows == job.run.mapRows
    requires PreparationDone(job, st.tables) && AllArrived(job, st.tables)
    ensures Reaches(job, FinishingStatements(job.run), st, end)
    ensures Progress(job, end) && end == st.(tables := job.final)
  {
    hide Progress, Reaches, Shaped, RenamesLead, FinalWithinGoal, PreparationLeads, ColumnsLead, OthersStayPut,
      CredentialsLead, RenamedColumnsAgree, SameData, WellFormedMap, DistinctKeys, PreparationDone, AsMap, AllArrived,
      KeepsTables, Passes, CreatorsComeFirst;
    var run := job.run;
    ShapedKeepsTables(job);
    var cleared := RunClears(job, run.emptied, st);
    end := RunDrops(job, cleared);
    DeletionsComplete(job, cleared.tables);
    ReachesInSequence(job, ClearStatements(run.emptied), DropStatements(run.schema), st, cleared, end);
    FinalChecksPass(job, end);
    RunChecks(job, FinalChecks(run), end);
    ReachesInSequence(job, ClearStatements(run.emptied) + DropStatements(run.schema), CheckStatements(FinalChecks(run)),
                      st, end, end);
  }

  lemma ShapedKeepsTables(job: Job)
    requires Shaped(job)
    ensures KeepsTables(job)
  {
  }

  /** From wherever an earlier attempt stopped, the plan brings the copy to the final tables. */
  lemma RunWork(job: Job, rendering: Rendering, st: D1) returns (end: D1)
    requires Leads(job) && Plannable(job.run, rendering) && Progress(job, st) && Resolvable(job, st.tables)
    ensures Reaches(job, WorkStatements(job.run, rendering), st, end)
    ensures Progress(job, end)
    ensures end == st.(tables := job.final, mapRows := job.run.mapRows, exact := end.exact)
  {
    hide Progress, Reaches, Shaped, RenamesLead, FinalWithinGoal, PreparationLeads, ColumnsLead, OthersStayPut,
      CredentialsLead, DeletionsLead, RenamedColumnsAgree, SameData, WellFormedMap, DistinctKeys, PreparationDone, AsMap,
      AllArrived, MappingStatements, RewritingStatements, FinishingStatements, Plannable, Resolvable, CreatorsComeFirst;
    var mapped := RunMapping(job, rendering, st);
    var rewritten := RunRewriting(job, rendering, mapped);
    end := RunFinishing(job, rewritten);
    var first, second := MappingStatements(job.run, rendering), RewritingStatements(job.run, rendering);
    ReachesInSequence(job, first, second, st, mapped, rewritten);
    ReachesInSequence(job, first + second, FinishingStatements(job.run), st, rewritten, end);
  }

  // One run.

  /** A copy of the database with empty control tables. */
  function FreshCopy(tables: Tables): D1 {
    D1(tables, [], map[], "", "")
  }

  lemma FreshCopyIsInProgress(job: Job)
    requires Staged(job)
    ensures Progress(job, FreshCopy(job.original))
  {
    hide Staged, Partial, SameExceptMoving, Untouched;
    StagedIsShaped(job);
    forall t ensures Partial(job, t, job.original[t]) {
      OriginalIsPartial(job, t);
    }
    OriginalIsUntouched(job);
  }

  lemma OriginalIsPartial(job: Job, table: Table)
    requires SameExceptMoving(job.original, job.prepared)
    ensures Partial(job, table, job.original[table])
  {
    forall i, c | 0 <= i < |job.original[table]| ensures OnTrack(job, table, i, c, Field(job.original[table][i], c)) {
      if !Moves(table, c) {
        assert Field(job.prepared[table][i], c) == Field(job.original[table][i], c);
      }
    }
  }

  lemma OriginalIsUntouched(job: Job)
    ensures forall t, c :: Untouched(job, t, c, job.original[t])
  {
  }

  lemma FreshCopyIsResolvable(job: Job)
    ensures Resolvable(job, FreshCopy(job.original).tables)
  {
  }

  /** The copy carries the completion markers of the local run, its map, and its final tables. */
  predicate Done(job: Job, st: D1) {
    && st.tables == job.final && st.mapRows == job.run.mapRows
    && st.completedAt == job.run.completedAt && st.version == VALIDATION_VERSION
  }

  lemma MarkersComplete(schema: Schema, at: string, st: D1)
    ensures Execute(schema, [MarkValidated, MarkCompleted(at)], st) ==
      Some(st.(version := VALIDATION_VERSION, completedAt := at))
  {
    var marked := st.(version := VALIDATION_VERSION);
    assert [MarkValidated, MarkCompleted(at)][1..] == [MarkCompleted(at)];
    assert [MarkCompleted(at)][1..] == [];
    assert Execute(schema, [MarkCompleted(at)], marked) == Execute(schema, [], marked.(completedAt := at));
  }

  lemma RunPlan(job: Job, rendering: Rendering, st: D1) returns (end: D1)
    requires Leads(job) && Plannable(job.run, rendering) && Progress(job, st) && Resolvable(job, st.tables)
    ensures Execute(job.run.schema, PlanOf(job.run, rendering), st) == Some(end)
    ensures Done(job, end)
  {
    hide Progress, Leads, WorkStatements, SafeRun, Step, Plannable, Resolvable;
    var worked := RunWork(job, rendering, st);
    MarkersComplete(job.run.schema, job.run.completedAt, worked);
    ExecuteConcatenates(job.run.schema, WorkStatements(job.run, rendering),
                        [MarkValidated, MarkCompleted(job.run.completedAt)], st);
    end := worked.(version := VALIDATION_VERSION, completedAt := job.run.completedAt);
  }

  /** Executing the plan on a fresh copy repeats the local run, row by row, up to the spelling of JSON documents. */
  lemma PlanRepeatsTheLocalRun(job: Job, rendering: Rendering)
    requires GoodJob(job) && Plannable(job.run, rendering)
    ensures var end := Execute(job.run.schema, PlanOf(job.run, rendering), FreshCopy(job.original));
      && end.Some? && SameData(end.value.tables, job.run.tables)
      && end.value.mapRows == job.run.mapRows
      && end.value.completedAt == job.run.completedAt && end.value.version == VALIDATION_VERSION
  {
    hide GoodJob, Progress, SameData, PlanOf, Execute, Resolvable;
    GoodJobsLead(job);
    LeadsToTheOutcome(job);
    GoodIsStaged(job);
    FreshCopyIsInProgress(job);
    FreshCopyIsResolvable(job);
    var end := RunPlan(job, rendering, FreshCopy(job.original));
  }

  lemma LeadsToTheOutcome(job: Job)
    requires Leads(job)
    ensures SameData(job.final, job.run.tables) && job.run.completedAt != ""
  {
  }

  lemma GoodIsStaged(job: Job)
    requires GoodJob(job)
    ensures Staged(job)
  {
  }

  // A completed copy.

  predicate MarksCompletion(plan: seq<Statement>) {
    forall s | s in plan && s.MarkCompleted? :: s.at != ""
  }

  lemma {:induction false} CompletedCopyStays(schema: Schema, plan: seq<Statement>, st: D1)
    requires !Pending(st) && st.version == VALIDATION_VERSION && MarksCompletion(plan)
    ensures var end := Execute(schema, plan, st);
      end.Some? && end.value.tables == st.tables && !Pending(end.value) && end.value.version == VALIDATION_VERSION
    decreases |plan|
  {
    if plan != [] {
      assert plan[0] in plan;
      var next := Step(schema, plan[0], st).value;
      assert forall s | s in plan[1..] :: s in plan;
      CompletedCopyStays(schema, plan[1..], next);
    }
  }

  lemma PlanMarksCompletion(run: LocalRun, rendering: Rendering)
    requires run.completedAt != ""
    ensures MarksCompletion(PlanOf(run, rendering))
  {
  }

  /** On a copy that is already completed a plan changes no application data, and runs exactly under its own version. */
  lemma CompletedCopyIsLeftAlone(run: LocalRun, rendering: Rendering, st: D1)
    requires run.completedAt != "" && !Pending(st)
    ensures var end := Execute(run.schema, PlanOf(run, rendering), st);
      && (end.Some? <==> st.version == VALIDATION_VERSION)
      && (end.Some? ==> end.value.tables == st.tables && end.value.completedAt == run.completedAt)
  {
    var plan := PlanOf(run, rendering);
    assert plan[0] == CheckMarker;
    if st.version == VALIDATION_VERSION {
      PlanMarksCompletion(run, rendering);
      CompletedCopyStays(run.schema, plan, st);
      ExecuteConcatenates(
        run.schema, WorkStatements(run, rendering), [MarkValidated, MarkCompleted(run.completedAt)], st);
      MarkersComplete(run.schema, run.completedAt, Execute(run.schema, WorkStatements(run, rendering), st).value);
    }
  }

  // Retries.

  /** What an attempt can leave behind: work in progress, or a completed copy. */
  ghost predicate Attempted(job: Job, st: D1) {
    Progress(job, st) || (!Pending(st) && st.tables == job.final && st.version == VALIDATION_VERSION)
  }

  /** The state after attempts that stopped after the given numbers of statements. */
  ghost function AfterAttempts(schema: Schema, plan: seq<Statement>, cuts: seq<nat>, st: D1): Option<D1>
    requires forall i | 0 <= i < |cuts| :: cuts[i] <= |plan|
    decreases |cuts|
  {
    if cuts == [] then Some(st)
    else
      match Execute(schema, plan[..cuts[0]], st)
      case None => None
      case Some(next) => AfterAttempts(schema, plan, cuts[1..], next)
  }

  /** The attempts that stop after these many statements end, with one more whole attempt, where a single one ends. */
  ghost predicate RetryAgrees(schema: Schema, plan: seq<Statement>, copy: D1, cuts: seq<nat>)
    requires forall i | 0 <= i < |cuts| :: cuts[i] <= |plan|
  {
    var once, stopped := Execute(schema, plan, copy), AfterAttempts(schema, plan, cuts, copy);
    && once.Some? && stopped.Some?
    && var again := Execute(schema, plan, stopped.value);
    && again.Some? && again.value.tables == once.value.tables
    && again.value.completedAt == once.value.completedAt && again.value.version == once.value.version
  }

  lemma RestOfPlan(plan: seq<Statement>, work: seq<Statement>, at: string, k: nat)
    requires plan == work + [MarkValidated, MarkCompleted(at)] && |work| < k <= |plan|
    ensures plan[..k] == work + [MarkValidated, MarkCompleted(at)][..k - |work|]
  {
  }

  lemma CompletedAttempt(job: Job, st: D1)
    requires Attempted(job, st) && !Pending(st)
    ensures st.tables == job.final && st.version == VALIDATION_VERSION
  {
  }

  lemma OneAttempt(job: Job, rendering: Rendering, k: nat, st: D1)
    requires Leads(job) && Plannable(job.run, rendering) && Attempted(job, st) && Resolvable(job, st.tables)
    requires k <= |PlanOf(job.run, rendering)|
    ensures var next := Execute(job.run.schema, PlanOf(job.run, rendering)[..k], st);
      next.Some? && Attempted(job, next.value)
  {
    hide Leads, Plannable, PlanOf, Execute, Progress, Resolvable, SameData;
    LeadsToTheOutcome(job);
    var plan := PlanOf(job.run, rendering);
    if !Pending(st) {
      CompletedAttempt(job, st);
      PlanMarksCompletion(job.run, rendering);
      assert forall s | s in plan[..k] :: s in plan;
      CompletedCopyStays(job.run.schema, plan[..k], st);
    } else {
      assert Progress(job, st);
      AttemptInProgress(job, rendering, k, st);
    }
  }

  lemma AttemptInProgress(job: Job, rendering: Rendering, k: nat, st: D1)
    requires Leads(job) && Plannable(job.run, rendering) && Progress(job, st) && Resolvable(job, st.tables)
    requires k <= |PlanOf(job.run, rendering)|
    ensures var next := Execute(job.run.schema, PlanOf(job.run, rendering)[..k], st);
      next.Some? && Attempted(job, next.value)
  {
    hide Progress, Leads, WorkStatements, Plannable, Attempted, Step, SafeRun, Execute, Resolvable;
    LeadsToTheOutcome(job);
    var work := WorkStatements(job.run, rendering);
    var worked := RunWork(job, rendering, st);
    assert PlanOf(job.run, rendering) == work + [MarkValidated, MarkCompleted(job.run.completedAt)];
    PrefixIsAttempted(job, work, PlanOf(job.run, rendering), k, st, worked);
  }

  /** A prefix of safe work, or all of it with one or both markers. */
  lemma PrefixIsAttempted(job: Job, work: seq<Statement>, plan: seq<Statement>, k: nat, st: D1, worked: D1)
    requires Reaches(job, work, st, worked) && Progress(job, worked) && worked.tables == job.final
    requires job.run.completedAt != "" && k <= |plan|
    requires plan == work + [MarkValidated, MarkCompleted(job.run.completedAt)]
    ensures var next := Execute(job.run.schema, plan[..k], st); next.Some? && Attempted(job, next.value)
  {
    hide Progress, Attempted, Step, SafeRun, Execute;
    var schema, at := job.run.schema, job.run.completedAt;
    if k <= |work| {
      assert plan[..k] == work[..k];
      SafeRunPrefix(job, work, k, st);
      ProgressIsAttempted(job, Execute(schema, work[..k], st).value);
    } else {
      RestOfPlan(plan, work, at, k);
      ExecuteConcatenates(schema, work, [MarkValidated, MarkCompleted(at)][..k - |work|], st);
      MarkedCopyIsAttempted(job, k - |work|, worked);
    }
  }

  lemma ProgressIsAttempted(job: Job, st: D1)
    requires Progress(job, st)
    ensures Attempted(job, st)
  {
  }

  lemma VersionKeepsProgress(job: Job, st: D1)
    requires Progress(job, st)
    ensures Attempted(job, st.(version := VALIDATION_VERSION))
  {
    hide TablesProgress;
  }

  lemma ValidationMarks(schema: Schema, st: D1)
    ensures Execute(schema, [MarkValidated], st) == Some(st.(version := VALIDATION_VERSION))
  {
    assert [MarkValidated][1..] == [];
  }

  lemma CompletedIsAttempted(job: Job, st: D1)
    requires !Pending(st) && st.tables == job.final && st.version == VALIDATION_VERSION
    ensures Attempted(job, st)
  {
    hide Progress;
  }

  lemma MarkedCopyIsAttempted(job: Job, k: nat, st: D1)
    requires Progress(job, st) && st.tables == job.final && job.run.completedAt != "" && 1 <= k <= 2
    ensures var next := Execute(job.run.schema, [MarkValidated, MarkCompleted(job.run.completedAt)][..k], st);
      next.Some? && Attempted(job, next.value)
  {
    hide Progress, Step, Execute, Attempted;
    var markers := [MarkValidated, MarkCompleted(job.run.completedAt)];
    if k == 1 {
      assert markers[..k] == [MarkValidated];
      ValidationMarks(job.run.schema, st);
      VersionKeepsProgress(job, st);
    } else {
      CompletedIsAttempted(job, st.(version := VALIDATION_VERSION, completedAt := job.run.completedAt));
      assert markers[..k] == markers;
      MarkersComplete(job.run.schema, job.run.completedAt, st);
    }
  }

  lemma {:induction false} AttemptsStayOnTrack(job: Job, rendering: Rendering, cuts: seq<nat>, st: D1)
    requires Leads(job) && Plannable(job.run, rendering) && Attempted(job, st) && OwnersAreStable(job)
    requires forall i | 0 <= i < |cuts| :: cuts[i] <= |PlanOf(job.run, rendering)|
    ensures var after := AfterAttempts(job.run.schema, PlanOf(job.run, rendering), cuts, st);
      after.Some? && Attempted(job, after.value)
    decreases |cuts|
  {
    hide Leads, Attempted, Plannable, PlanOf, Execute, OwnersAreStable;
    if cuts != [] {
      OneAttempt(job, rendering, cuts[0], st);
      AttemptsStayOnTrack(
        job, rendering, cuts[1..], Execute(job.run.schema, PlanOf(job.run, rendering)[..cuts[0]], st).value);
    }
  }

  /**
   * However often and wherever earlier attempts stopped, one complete attempt leaves the same application data as a
   * single uninterrupted one.
   */
  lemma RetriesConverge(job: Job, rendering: Rendering, cuts: seq<nat>)
    requires GoodJob(job) && Plannable(job.run, rendering) && OwnersAreStable(job)
    requires forall i | 0 <= i < |cuts| :: cuts[i] <= |PlanOf(job.run, rendering)|
    ensures RetryAgrees(job.run.schema, PlanOf(job.run, rendering), FreshCopy(job.original), cuts)
  {
    hide GoodJob, Leads, Progress, Plannable, PlanOf, Execute, Staged, OwnersAreStable, AfterAttempts, SameData;
    GoodJobsLead(job);
    LeadsToTheOutcome(job);
    GoodIsStaged(job);
    FreshCopyIsInProgress(job);
    StableOwnersResolve(job, job.original);
    var copy, plan := FreshCopy(job.original), PlanOf(job.run, rendering);
    var once := RunPlan(job, rendering, copy);
    ProgressIsAttempted(job, copy);
    AttemptsStayOnTrack(job, rendering, cuts, copy);
    var stopped := AfterAttempts(job.run.schema, plan, cuts, copy).value;
    OneMoreAttempt(job, rendering, stopped);
  }

  lemma StableOwnersResolve(job: Job, tables: Tables)
    requires OwnersAreStable(job)
    ensures Resolvable(job, tables)
  {
    hide OwnersAreStable;
  }

  /** One complete attempt more. */
  lemma OneMoreAttempt(job: Job, rendering: Rendering, stopped: D1)
    requires Leads(job) && Plannable(job.run, rendering) && Attempted(job, stopped) && OwnersAreStable(job)
    ensures var again := Execute(job.run.schema, PlanOf(job.run, rendering), stopped);
      && again.Some? && again.value.tables == job.final
      && again.value.completedAt == job.run.completedAt && again.value.version == VALIDATION_VERSION
  {
    hide Leads, Progress, Plannable, PlanOf, Execute, OwnersAreStable, Resolvable, SameData;
    LeadsToTheOutcome(job);
    if Progress(job, stopped) {
      StableOwnersResolve(job, stopped.tables);
      var again := RunPlan(job, rendering, stopped);
    } else {
      CompletedCopyIsLeftAlone(job.run, rendering, stopped);
      CompletedCopyKeepsVersion(job.run, rendering, stopped);
    }
  }

  lemma CompletedCopyKeepsVersion(run: LocalRun, rendering: Rendering, st: D1)
    requires run.completedAt != "" && !Pending(st) && st.version == VALIDATION_VERSION
    ensures var end := Execute(run.schema, PlanOf(run, rendering), st);
      end.Some? && end.value.version == VALIDATION_VERSION
  {
    PlanMarksCompletion(run, rendering);
    CompletedCopyStays(run.schema, PlanOf(run, rendering), st);
  }

  // The migration as it stands.

  /**
   * The plan of a validated local run, executed on an untouched copy with empty control tables, yields what the local
   * run produced.
   */
  lemma MigrationPlanIsFaithful(run: LocalRun, original: Tables, tokens: seq<string>, rendering: Rendering)
    requires VisitsTheRegistry(run) && DistinctKeys(run.mapRows) && WellFormedMap(AsMap(run.mapRows))
    requires Conforms(run.schema, original)
    requires IsOutcome(run, original, tokens, LOCAL_REWRITE_ORDER) && Checked(run, original)
    requires Plannable(run, rendering)
    ensures var once := Execute(run.schema, PlanOf(run, rendering), FreshCopy(original));
      once.Some? && SameData(once.value.tables, run.tables)
  {
    hide VisitsTheRegistry, DistinctKeys, WellFormedMap, AsMap, Conforms, IsOutcome, Checked, Plannable, PlanOf, Execute,
      SameData, GoodJob;
    MigrationIsAGoodJob(run, original, tokens);
    PlanRepeatsTheLocalRun(JobOf(run, original), rendering);
  }
}
