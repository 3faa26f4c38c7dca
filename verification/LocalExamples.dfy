/**
 * Small databases that meet, or fail, the conditions of the end-to-end theorems: the conditions are not idle, and what
 * they exclude happens to databases that are normalized successfully.
 */
module LocalExamples {
  import opened Wrappers
  import opened Text
  import opened IdRegistry
  import opened IdValues
  import opened IdMapTable
  import opened JsonText
  import opened JsonReferences
  import opened IdTables
  import opened JsonAssertions
  import opened IdMigration
  import IdIsomorphism
  import opened IdCollection
  import opened IdValidation
  import opened PlanChunks
  import opened D1Plan
  import opened D1Progress
  import opened D1Replay
  import opened D1Refinement
  import opened D1FinalChecks
  import opened D1Retries
  import opened LocalOutcome
  import opened LocalDatabase
  import opened LocalImage
  import opened LocalReferences
  import opened LocalSuccess

  // Plain schemas.

  /** No public token, no actor of an event, no creator of an upload session and no foreign key. */
  ghost predicate IsPlain(schema: Schema) {
    && (forall kind | RotatesAll(kind) :: !schema.HasColumn(PrimaryTable(kind), PrimaryColumn(kind)))
    && !schema.HasColumn(AUDIT_EVENTS, ACTOR_REF) && !schema.HasColumn(OBJECT_UPLOAD_SESSIONS, CREATED_BY)
    && schema.foreignKeys == []
  }

  /** Polymorphic columns hold at most empty values. */
  ghost predicate TypedValuesAreEmpty(schema: Schema, tables: Tables) {
    forall p, row | p in POLYMORPHIC_REFERENCES && schema.HasColumn(p.table, p.valueColumn) && row in tables[p.table]
      && Field(row, p.valueColumn).Text? :: Field(row, p.valueColumn).text == ""
  }

  /** A column that the kind owns holds this value. */
  ghost predicate HoldsValue(schema: Schema, kind: Kind, tables: Tables, tc: (Table, Column), value: string) {
    && schema.HasColumn(tc.0, tc.1) && Owner(tc.0, tc.1) == Some(kind)
    && exists row | row in tables[tc.0] :: Field(row, tc.1) == Text(value)
  }

  lemma {:induction false} HistoricalSourceIsReference(references: seq<Reference>, source: MappingSource)
    requires source in HistoricalSources(references)
    ensures exists ref | ref in references :: ref.table == source.table && ref.column == source.column
  {
    if source in HistoricalSources(references[1..]) {
      HistoricalSourceIsReference(references[1..], source);
    }
  }

  lemma FurtherSourceHasOwner(kind: Kind, source: MappingSource)
    requires source in FurtherSources(kind)
    ensures Owner(source.table, source.column) == Some(kind) || (source.table, source.column) == (AUDIT_EVENTS, ACTOR_REF)
    ensures !RotatesAll(kind)
  {
  }

  /** In a plain schema a plain source is a column that the kind owns. */
  lemma PlainSourceHasOwner(schema: Schema, kind: Kind, source: MappingSource)
    requires IsPlain(schema) && IsPlainSource(kind, source) && schema.HasColumn(source.table, source.column)
    ensures Owner(source.table, source.column) == Some(kind) && !RotatesAll(kind)
  {
    hide Owner, References, FurtherSources, HistoricalSources, RotatesAll, PrimaryTable, PrimaryColumn;
    if source in HistoricalSources(References(kind)) {
      HistoricalSourceIsReference(References(kind), source);
      var ref :| ref in References(kind) && ref.table == source.table && ref.column == source.column;
      TargetsHaveOneOwner(kind, ref);
      if RotatesAll(kind) {
        RotatedKindsHaveNoReferences(kind);
      }
    } else if source in FurtherSources(kind) {
      FurtherSourceHasOwner(kind, source);
    } else {
      PrimaryHasOneOwner(kind);
    }
  }

  /** An empty typed value is not collected. */
  lemma NothingTypedIsCollected(
    schema: Schema, kind: Kind, source: MappingSource, tables: Tables, rows: seq<MapRow>, value: string)
    requires TypedValuesAreEmpty(schema, tables) && IsPolymorphicSource(kind, source)
    ensures !CollectsFrom(schema, kind, source, tables, rows, value)
  {
    hide NeedsMapping, IsNewValue, POLYMORPHIC_REFERENCES;
  }

  /**
   * In a plain schema, outside its documents and typed columns, a collected value is foreign or empty and sits in a column
   * of its kind.
   */
  lemma CollectedIsHeld(schema: Schema, kind: Kind, tables: Tables, rows: seq<MapRow>, value: string)
    requires IsPlain(schema) && TypedValuesAreEmpty(schema, tables) && IsCollected(schema, kind, tables, rows, value)
    requires !CollectsFromJson(schema, kind, JSON_COLUMNS, tables, value)
    ensures HasForeignChar(value) || value == ""
    ensures exists tc :: HoldsValue(schema, kind, tables, tc, value)
  {
    hide IsPlainSource, IsPolymorphicSource, RotatesAll, Owner, HasForeignChar, EmptyIsSentinel, CollectsFromJson, IsPlain,
      TypedValuesAreEmpty;
    var source :| IsSource(kind, source) && CollectsFrom(schema, kind, source, tables, rows, value);
    if IsPolymorphicSource(kind, source) {
      NothingTypedIsCollected(schema, kind, source, tables, rows, value);
    }
    PlainSourceHasOwner(schema, kind, source);
    assert HoldsValue(schema, kind, tables, (source.table, source.column), value);
  }

  lemma NoTokensAreEmpty(schema: Schema, kind: Kind, prepared: Tables, m: IdMap)
    requires IsPlain(schema) && schema.HasColumn(PrimaryTable(kind), PrimaryColumn(kind))
    ensures EmptyTokensAreMapped(kind, prepared, m)
  {
    hide PrimaryTable, PrimaryColumn, RotatesAll;
  }

  /** What is left of the condition for success, in a plain schema. */
  lemma NothingDanglesIf(schema: Schema, m: IdMap, tokens: seq<string>, prepared: Tables)
    requires IsPlain(schema) && EventTaskIdsArePlain(schema, prepared)
    requires var kept := Remaining(schema, prepared);
      && (forall kind, ref | IsLiveReference(schema, kind, ref) :: ReferenceStands(schema, m, kind, ref, kept))
      && (schema.HasColumn(NOTIFICATIONS, REF_ID) ==>
            forall to | to in NOTIFICATION_TARGETS && schema.HasColumn(to.1, ID) :: NotificationsStand(m, kept, to))
      && forall source | source in JSON_COLUMNS :: DocumentsStand(schema, m, kept, source)
    ensures NothingDangles(schema, m, tokens, prepared)
  {
    hide IsPlain, EventTaskIdsArePlain, EmptyTokensAreMapped, VALUE_KINDS, PrimaryTable, PrimaryColumn, ReferenceStands,
      NotificationsStand, DocumentsStand, Remaining, IsLiveReference, JSON_COLUMNS, NOTIFICATION_TARGETS;
    forall kind | kind in VALUE_KINDS && schema.HasColumn(PrimaryTable(kind), PrimaryColumn(kind))
      ensures EmptyTokensAreMapped(kind, prepared, m)
    {
      NoTokensAreEmpty(schema, kind, prepared, m);
    }
    PlainSchemasHaveNoKeys(schema);
  }

  lemma PlainSchemasHaveNoKeys(schema: Schema)
    requires IsPlain(schema)
    ensures schema.foreignKeys == [] && !schema.HasColumn(OBJECT_UPLOAD_SESSIONS, CREATED_BY)
  {
  }

  // Building databases.

  function NoRows(count: nat): (r: map<Table, seq<Row>>)
    requires count <= 49
    ensures forall t: Table :: t in r <==> t as int < count
    ensures forall t | t in r :: r[t] == []
  {
    if count == 0 then map[] else NoRows(count - 1)[(count - 1) as Table := []]
  }

  /** The given tables, and no rows elsewhere. */
  function Filled(parts: map<Table, seq<Row>>): (r: Tables)
    ensures forall t :: r[t] == if t in parts then parts[t] else []
  {
    NoRows(49) + parts
  }

  lemma SucceedsIf(schema: Schema, original: Tables, rows: seq<MapRow>, supply: Supply)
    requires IsBuilt(schema, original, [], rows, supply) && Conforms(schema, original) && supply.stamp != ""
    requires DocumentsAreStored(text => ReadPrinted(text), original)
    requires NothingDangles(schema, AsMap(rows), supply.tokens, PreparedTables(schema, original))
    requires KeysAreProper(RunToValidate(schema, original, rows, supply))
    requires schema.HasColumn(DOWNLOAD_TASKS, EVENTS) ==> schema.HasColumn(DOWNLOAD_TASKS, ID)
    ensures IsSuccessfulRun(RunToValidate(schema, original, rows, supply), original, [], rows, supply)
  {
    hide IsBuilt, Conforms, DocumentsAreStored, PreparedTables, KeysAreProper, Validates, NothingDangles, IsReader,
      RegistryValidations, Normalized, AsMap, VisitsTheRegistry, PlanValidations, RunToValidate, ReadPrinted, INVENTORY;
    RunIsAsListed(schema, original, rows, supply);
    PrintedIsRead();
    NormalizationSucceedsExactlyIf(schema, original, [], rows, supply, text => ReadPrinted(text));
  }

  // A plan that aborts.

  const TASKS_SCHEMA := Schema({(DOWNLOAD_TASKS, ID), (DOWNLOAD_TASKS, EVENTS)}, map[DOWNLOAD_TASKS := [ID]], [])

  /** The events of a task, one of them with a capitalized event id. */
  const ODD_EVENTS: Json := JsonArray([JsonObject([Entry("id", JsonString("Initial:a-b"))])])

  function TaskRow(): Row {
    map[ID := Text("t"), EVENTS := Doc(Stringify(ODD_EVENTS), ODD_EVENTS)]
  }

  function TaskTables(): Tables {
    Filled(map[DOWNLOAD_TASKS := [TaskRow()]])
  }

  lemma OddEventsAreOverlooked(schema: Schema, tables: Tables)
    ensures forall kind :: Collect(ODD_EVENTS, EVENTS_SOURCE, kind, "") == {}
    ensures DocumentResolves(schema, tables, ODD_EVENTS, EVENTS_SOURCE, "")
    ensures !DocumentPasses(OddEventId, tables, EVENTS_SOURCE, Doc(Stringify(ODD_EVENTS), ODD_EVENTS))
  {
    hide Stringify;
    var event := ODD_EVENTS.items[0];
    forall kind ensures Collect(ODD_EVENTS, EVENTS_SOURCE, kind, "") == {} {
      CapitalizedEventIdIsOverlooked(schema, tables, kind);
    }
    CapitalizedEventIdIsOverlooked(schema, tables, RowId(DOWNLOAD_TASKS));
    OddEntryFails(tables);
    assert !TreePasses(OddEventId, tables, EVENTS_SOURCE, event, NoKey, Index(0));
  }

  lemma OddEntryFails(tables: Tables)
    ensures !EntryPasses(OddEventId, tables, EVENTS_SOURCE, Entry("id", JsonString("Initial:a-b")), Index(0))
  {
    hide IsTarget;
    var text := "Initial:a-b";
    assert text[0] != INITIAL_PREFIX[0] && !StartsWith(text, INITIAL_PREFIX);
    assert text[..|INITIAL_PREFIX|] == "Initial:" && Lower("Initial:") == INITIAL_PREFIX;
    assert text[|INITIAL_PREFIX|..] == "a-b" && !IsBase62Char("a-b"[1]);
  }

  lemma TasksArePrepared()
    ensures PreparedTables(TASKS_SCHEMA, TaskTables()) == TaskTables()
  {
    hide TaskTables;
  }

  lemma TasksArePlain()
    ensures IsPlain(TASKS_SCHEMA) && !HasCredentials(TASKS_SCHEMA) && TypedValuesAreEmpty(TASKS_SCHEMA, TaskTables())
  {
    hide PrimaryTable, PrimaryColumn, RotatesAll, TaskTables;
    forall kind | RotatesAll(kind) ensures PrimaryColumn(kind) != ID && PrimaryColumn(kind) != EVENTS {
      RotatedColumns(kind);
    }
  }

  lemma RotatedColumns(kind: Kind)
    requires RotatesAll(kind)
    ensures PrimaryColumn(kind) in {TOKEN, CODE, VERIFICATION_TOKEN}
  {
  }

  lemma TaskTablesConform()
    ensures Conforms(TASKS_SCHEMA, TaskTables())
  {
    hide Stringify, Filled;
  }

  lemma TaskDocumentsAreStored()
    ensures DocumentsAreStored(text => ReadPrinted(text), TaskTables())
    ensures EventTaskIdsArePlain(TASKS_SCHEMA, TaskTables())
  {
    hide Stringify, ReadPrinted, TaskTables, TaskRow, TaskIdsLackColons, IsProper, JSON_COLUMNS, ODD_EVENTS;
    PrintedIsRead();
    OddEventsArePlain();
    TaskCells();
  }

  lemma TaskCells()
    ensures forall t, row | row in TaskTables()[t] :: t == DOWNLOAD_TASKS && row == TaskRow()
    ensures TaskTables()[DOWNLOAD_TASKS] == [TaskRow()]
    ensures Field(TaskRow(), ID) == Text("t") && Field(TaskRow(), EVENTS) == Doc(Stringify(ODD_EVENTS), ODD_EVENTS)
    ensures forall c | c != ID && c != EVENTS :: Field(TaskRow(), c) == Null
  {
    hide Stringify;
  }

  lemma OddEventsArePlain()
    ensures IsProper(ODD_EVENTS) && TaskIdsLackColons(ODD_EVENTS, EVENTS_SOURCE, "")
  {
    EntryIsPlain();
  }

  lemma EntryIsPlain()
    ensures var entry := Entry("id", JsonString("Initial:a-b"));
      EntryTaskIdsLackColons(entry, EVENTS_SOURCE) && EntryIsProper(entry)
  {
    assert "Initial:a-b"[0] != INITIAL_PREFIX[0];
  }

  /** No column of the tasks is a live reference. */
  lemma TasksReferToNothing(kind: Kind, ref: Reference)
    ensures !IsLiveReference(TASKS_SCHEMA, kind, ref)
  {
    hide References, VALUE_KINDS;
    if ref in References(kind) && TASKS_SCHEMA.HasColumn(ref.table, ref.column) {
      TargetsHaveOneOwner(kind, ref);
      assert kind == RowId(DOWNLOAD_TASKS);
      TaskReferences(ref);
    }
  }

  lemma TaskReferences(ref: Reference)
    requires ref in References(RowId(DOWNLOAD_TASKS))
    ensures ref == Historical(REMOTE_DOWNLOAD_USAGE_REPORTS, TASK_ID)
  {
  }

  lemma NothingOfTasksIsCollected(kind: Kind, value: string)
    ensures !IsCollected(TASKS_SCHEMA, kind, TaskTables(), [], value)
  {
    hide IsCollected, IsPlain, HasForeignChar, TaskTables, TaskRow, Stringify, Collect, CollectsFromJson, Owner, TypedValuesAreEmpty;
    TasksArePlain();
    NothingOfTasksIsInDocuments(kind, value);
    if IsCollected(TASKS_SCHEMA, kind, TaskTables(), [], value) {
      CollectedIsHeld(TASKS_SCHEMA, kind, TaskTables(), [], value);
      TaskCells();
      assert value == "t";
      PlainLetter();
    }
  }

  lemma NothingOfTasksIsInDocuments(kind: Kind, value: string)
    ensures !CollectsFromJson(TASKS_SCHEMA, kind, JSON_COLUMNS, TaskTables(), value)
  {
    hide TaskTables, TaskRow, Stringify, Collect, JSON_COLUMNS, ODD_EVENTS;
    TaskCells();
    OddEventsAreOverlooked(TASKS_SCHEMA, TaskTables());
  }

  lemma PlainLetter()
    ensures !HasForeignChar("t")
  {
  }

  lemma TaskMapIsBuilt(supply: Supply)
    requires forall kind :: supply.draws(kind) == []
    ensures IsBuilt(TASKS_SCHEMA, TaskTables(), [], [], supply)
  {
    hide IsCollected, TaskTables, TASKS_SCHEMA, PreparedTables, GoodStart, DrawIsGood;
    TasksArePrepared();
    EmptyStartIsGood();
    forall kind, value ensures !IsCollected(TASKS_SCHEMA, kind, TaskTables(), [], value) {
      NothingOfTasksIsCollected(kind, value);
    }
  }

  ghost function TaskRun(supply: Supply): LocalRun {
    RunToValidate(TASKS_SCHEMA, TaskTables(), [], supply)
  }

  lemma OddDocumentStays()
    ensures DocumentCell(map[], EVENTS_SOURCE, Doc(Stringify(ODD_EVENTS), ODD_EVENTS)) == Doc(Stringify(ODD_EVENTS), ODD_EVENTS)
  {
    hide Stringify;
    var event := ODD_EVENTS.items[0];
    var entry := event.entries[0];
    OddTextStays();
    assert Rewrite(entry.value, map[], EVENTS_SOURCE, entry.key) == entry.value;
    assert RewriteEntries(event.entries, map[], EVENTS_SOURCE) == event.entries;
    assert Rewrite(event, map[], EVENTS_SOURCE, "") == event;
    assert RewriteItems(ODD_EVENTS.items, map[], EVENTS_SOURCE, "") == ODD_EVENTS.items;
  }

  lemma OddTextStays()
    ensures RewriteText(map[], EVENTS_SOURCE, "id", "Initial:a-b") == "Initial:a-b"
  {
    hide JsonReferenceKind;
    assert "Initial:a-b"[0] != INITIAL_PREFIX[0];
  }

  /** The events come out of the run as they went in. */
  lemma TaskOutcome(supply: Supply)
    requires forall kind :: supply.draws(kind) == []
    ensures var rows := TaskRun(supply).tables[DOWNLOAD_TASKS];
      |rows| == 1 && Field(rows[0], EVENTS) == Doc(Stringify(ODD_EVENTS), ODD_EVENTS)
  {
    hide IsBuilt, IsNormalized, TaskTables, TaskRow, TASKS_SCHEMA, PreparedTables, RunToValidate, Normalized, VisitsTheRegistry,
      PlanValidations, Conforms, IsSpared, Revoked, GoodOrder, CellsAreRevoked, WellFormedMap, OwnedRenames, DocumentCell,
      Stringify, ODD_EVENTS, JSON_COLUMNS, LOCAL_REWRITE_ORDER, INVENTORY;
    var run := TaskRun(supply);
    RunIsAsListed(TASKS_SCHEMA, TaskTables(), [], supply);
    TaskMapIsBuilt(supply);
    TaskTablesConform();
    NormalizedJob(run, TaskTables(), [], [], supply);
    var job := JobOf(run, TaskTables());
    OutcomeFacts(job, supply.tokens, []);
    TasksAreSpared();
    SparedTablesKeepTheirRows(job, supply.tokens, [], DOWNLOAD_TASKS);
    PreparedOfJob(run, TaskTables());
    TasksArePrepared();
    TaskCells();
    NormalizedIsWellFormed(job, supply.tokens, []);
    JsonCellIsRewritten(job, LOCAL_REWRITE_ORDER, DOWNLOAD_TASKS, 0, EVENTS, Revoked(job, supply.tokens));
    OddDocumentStays();
  }

  lemma NormalizedIsWellFormed(job: Job, tokens: seq<string>, start: seq<MapRow>)
    requires IsNormalized(job, tokens, start)
    ensures WellFormedMap(job.ids)
  {
    hide Staged, IsOutcome, VisitsTheRegistry, Conforms, WellFormedMap, HasGeneratedLengths, MapsCollected;
  }

  lemma TasksAreSpared()
    ensures IsSpared(DOWNLOAD_TASKS) && EVENTS_SOURCE in JSON_COLUMNS && EVENTS_SOURCE in LOCAL_REWRITE_ORDER
  {
    EventsAreADocumentColumn();
    DocumentsInOrder();
  }

  lemma TaskRunIsAsListed(supply: Supply)
    ensures TaskRun(supply).schema == TASKS_SCHEMA && TaskRun(supply).mapRows == []
    ensures forall tc :: tc in TaskRun(supply).embedded <==> tc == EVENTS_SOURCE
  {
    hide RenameList, Normalized, PlanValidations, AsMap, INVALIDATED_TABLES, VALUE_KINDS, INVENTORY, TaskTables, EMBEDDED_COLUMNS,
      JSON_COLUMNS;
    EventsAreADocumentColumn();
    TasksHaveNoOtherEmbedded();
  }

  lemma TasksHaveNoOtherEmbedded()
    ensures EVENTS_SOURCE in EMBEDDED_COLUMNS && (DOWNLOAD_TASKS, ID) !in EMBEDDED_COLUMNS
  {
    EventsAreADocumentColumn();
    if (DOWNLOAD_TASKS, ID) in EMBEDDED_COLUMNS {
      EmbeddedColumnsAreSeparate(DOWNLOAD_TASKS, ID);
    }
  }

  lemma TaskOutcomeIsOdd(supply: Supply)
    requires forall kind :: supply.draws(kind) == []
    ensures KeysAreProper(TaskRun(supply)) && !OddEventIdsAreSound(TASKS_SCHEMA, TaskRun(supply).tables)
  {
    hide TaskRun, Stringify, ODD_EVENTS, TASKS_SCHEMA, KeysAreProper, DocumentPasses;
    TaskOutcome(supply);
    TaskColumns();
    TaskKeysAreProper(supply);
    var tables := TaskRun(supply).tables;
    OddEventsAreOverlooked(TASKS_SCHEMA, tables);
    assert tables[DOWNLOAD_TASKS][0] in tables[DOWNLOAD_TASKS];
  }

  lemma TaskColumns()
    ensures TASKS_SCHEMA.HasColumn(DOWNLOAD_TASKS, EVENTS) && TASKS_SCHEMA.HasColumn(DOWNLOAD_TASKS, ID)
    ensures !TASKS_SCHEMA.HasColumn(NOTIFICATIONS, REF_ID)
  {
  }

  lemma TaskKeysAreProper(supply: Supply)
    requires |TaskRun(supply).tables[DOWNLOAD_TASKS]| == 1
    ensures KeysAreProper(TaskRun(supply))
  {
    hide TaskRun, HasCredentials, KeyOf;
    TaskRunIsAsListed(supply);
    TasksArePlain();
  }

  lemma OddEventsStand(schema: Schema, m: IdMap, kept: Tables)
    ensures DocumentStands(schema, m, kept, ODD_EVENTS, EVENTS_SOURCE, "")
  {
    OddEntryStands(schema, m, kept);
    assert EntryStands(schema, m, kept, ODD_EVENTS.items[0].entries[0], EVENTS_SOURCE);
  }

  lemma OddEntryStands(schema: Schema, m: IdMap, kept: Tables)
    ensures EntryStands(schema, m, kept, Entry("id", JsonString("Initial:a-b")), EVENTS_SOURCE)
  {
    hide JsonReferenceKind, IsHeld;
    assert "Initial:a-b"[0] != INITIAL_PREFIX[0];
    if JsonReferenceKind(EVENTS_SOURCE, "id").Some? {
      ReferenceKeyIsNoId(EVENTS_SOURCE, "id");
    }
  }

  lemma TaskDocumentsStand(m: IdMap, source: Source)
    requires source in JSON_COLUMNS
    ensures DocumentsStand(TASKS_SCHEMA, m, Remaining(TASKS_SCHEMA, TaskTables()), source)
  {
    hide Stringify, ODD_EVENTS, JSON_COLUMNS, DocumentStands, Owner, Remaining, TaskTables, TaskRow;
    var kept := Remaining(TASKS_SCHEMA, TaskTables());
    RemainingRowsArePrepared(TASKS_SCHEMA, TaskTables());
    TaskCells();
    OddEventsStand(TASKS_SCHEMA, m, kept);
    if source == (DOWNLOAD_TASKS, ID) {
      JsonColumnsAreSeparate(DOWNLOAD_TASKS, ID);
      PrimaryHasOneOwner(RowId(DOWNLOAD_TASKS));
    }
  }

  lemma NothingOfTasksDangles(tokens: seq<string>)
    ensures NothingDangles(TASKS_SCHEMA, AsMap([]), tokens, TaskTables())
  {
    hide TASKS_SCHEMA, TaskTables, IsPlain, EventTaskIdsArePlain, DocumentsAreStored, DocumentsStand, Remaining, NothingDangles,
      IsLiveReference, JSON_COLUMNS, TypedValuesAreEmpty, NOTIFICATION_TARGETS;
    TasksArePlain();
    TaskColumns();
    TaskDocumentsAreStored();
    forall kind, ref ensures !IsLiveReference(TASKS_SCHEMA, kind, ref) {
      TasksReferToNothing(kind, ref);
    }
    forall source | source in JSON_COLUMNS
      ensures DocumentsStand(TASKS_SCHEMA, AsMap([]), Remaining(TASKS_SCHEMA, TaskTables()), source)
    {
      TaskDocumentsStand(AsMap([]), source);
    }
    NothingDanglesIf(TASKS_SCHEMA, AsMap([]), tokens, TaskTables());
  }

  lemma {:induction false} NothingIsShipped(run: LocalRun, table: Table, column: Column, rows: seq<Row>)
    requires run.mapRows == []
    ensures ExactRows(run, table, column, rows) == []
  {
    if rows != [] {
      NothingIsShipped(run, table, column, rows[1..]);
    }
  }

  lemma TaskPlanIsPlannable(supply: Supply, rendering: Rendering)
    ensures Plannable(TaskRun(supply), rendering)
  {
    hide TaskRun;
    var run := TaskRun(supply);
    TaskRunIsAsListed(supply);
    NothingIsShipped(run, DOWNLOAD_TASKS, EVENTS, run.tables[DOWNLOAD_TASKS]);
  }

  /**
   * A database whose only event id is capitalized is normalized successfully, and no other copy takes its plan,
   * whatever the sizes of the statements.
   */
  lemma CapitalizedEventIdAborts(supply: Supply, rendering: Rendering)
    requires supply.stamp != "" && forall kind :: supply.draws(kind) == []
    ensures IsSuccessfulRun(TaskRun(supply), TaskTables(), [], [], supply) && Plannable(TaskRun(supply), rendering)
    ensures Execute(TASKS_SCHEMA, PlanOf(TaskRun(supply), rendering), FreshCopy(TaskTables())) == None
  {
    hide IsBuilt, Conforms, DocumentsAreStored, EventTaskIdsArePlain, PreparedTables, KeysAreProper, NothingDangles,
      RunToValidate, TaskTables, OddEventIdsAreSound, Execute, PlanOf, FreshCopy, Plannable, IsSuccessfulRun, ReadPrinted;
    TaskMapIsBuilt(supply);
    TaskTablesConform();
    TasksArePrepared();
    TaskDocumentsAreStored();
    TaskOutcomeIsOdd(supply);
    TaskRunIsAsListed(supply);
    TaskPlanIsPlannable(supply, rendering);
    NothingOfTasksDangles(supply.tokens);
    SucceedsIf(TASKS_SCHEMA, TaskTables(), [], supply);
    PlanExecutesIffOddEventIdsAreSound(TaskRun(supply), TaskTables(), [], [], supply, rendering);
  }

  // Schemas without documents.

  ghost predicate HasNoDocuments(schema: Schema) {
    forall tc | tc in JSON_COLUMNS :: !schema.HasColumn(tc.0, tc.1)
  }

  lemma NoDocuments(schema: Schema, tables: Tables)
    requires HasNoDocuments(schema)
    ensures EventTaskIdsArePlain(schema, tables) && OddEventIdsAreSound(schema, tables)
    ensures !schema.HasColumn(DOWNLOAD_TASKS, EVENTS)
    ensures forall kind, value :: !CollectsFromJson(schema, kind, JSON_COLUMNS, tables, value)
    ensures forall m, kept, source | source in JSON_COLUMNS :: DocumentsStand(schema, m, kept, source)
  {
    hide JSON_COLUMNS, DocumentStands, Collect;
    EventsAreADocumentColumn();
    assert schema.HasColumn(EVENTS_SOURCE.0, EVENTS_SOURCE.1) <==> schema.HasColumn(DOWNLOAD_TASKS, EVENTS);
  }

  lemma TextsAreStored(tables: Tables)
    requires forall t, row, c | row in tables[t] :: !Field(row, c).Doc?
    ensures DocumentsAreStored(text => ReadPrinted(text), tables)
  {
  }

  ghost predicate AllOwned(schema: Schema) {
    forall tc | tc in schema.columns :: Owner(tc.0, tc.1).Some?
  }

  lemma OwnedColumnsAreNotEmbedded(schema: Schema, tc: (Table, Column))
    requires AllOwned(schema) && schema.HasColumn(tc.0, tc.1)
    ensures tc !in EMBEDDED_COLUMNS && tc !in JSON_COLUMNS
  {
    hide Owner, JSON_COLUMNS, REWRITTEN_COLUMNS;
    if tc in EMBEDDED_COLUMNS {
      EmbeddedColumnsAreSeparate(tc.0, tc.1);
    }
  }

  lemma OwnedColumnsHoldNoDocuments(schema: Schema, tables: Tables)
    requires AllOwned(schema)
    ensures HasNoDocuments(schema) && TypedValuesAreEmpty(schema, tables) && !schema.HasColumn(NOTIFICATIONS, REF_ID)
  {
    hide AllOwned, JSON_COLUMNS, POLYMORPHIC_REFERENCES, EMBEDDED_COLUMNS;
    forall tc | tc in JSON_COLUMNS ensures !schema.HasColumn(tc.0, tc.1) {
      if schema.HasColumn(tc.0, tc.1) {
        OwnedColumnsAreNotEmbedded(schema, tc);
      }
    }
    forall p | p in POLYMORPHIC_REFERENCES ensures !schema.HasColumn(p.table, p.valueColumn) {
      TypedColumnsAreEmbedded(p);
      if schema.HasColumn(p.table, p.valueColumn) {
        OwnedColumnsAreNotEmbedded(schema, (p.table, p.valueColumn));
      }
    }
    NotificationsAreTyped();
  }

  lemma TypedColumnsAreEmbedded(p: Polymorphic)
    requires p in POLYMORPHIC_REFERENCES
    ensures (p.table, p.valueColumn) in EMBEDDED_COLUMNS
  {
    hide POLYMORPHIC_REFERENCES, POLYMORPHIC_COLUMNS, EMBEDDED_COLUMNS, LOCAL_REWRITE_ORDER;
    TypedEmbedding(p);
    PolymorphicColumnsComeFirst(p.table, p.valueColumn);
    LocalOrderCoversEmbedded(p.table, p.valueColumn);
  }

  lemma NotificationsAreTyped()
    ensures Polymorphic(NOTIFICATIONS, REF_TYPE, REF_ID, NOTIFICATION_KINDS) in POLYMORPHIC_REFERENCES
  {
    assert POLYMORPHIC_REFERENCES[4] == Polymorphic(NOTIFICATIONS, REF_TYPE, REF_ID, NOTIFICATION_KINDS);
  }

  lemma OwnedKeysAreProper(schema: Schema, original: Tables, rows: seq<MapRow>, supply: Supply)
    requires AllOwned(schema) && !HasCredentials(schema)
    ensures KeysAreProper(RunToValidate(schema, original, rows, supply))
  {
    hide AllOwned, EMBEDDED_COLUMNS, HasCredentials, RenameList, Normalized, PlanValidations, AsMap, INVALIDATED_TABLES,
      VALUE_KINDS, INVENTORY;
    forall tc | tc in EMBEDDED_COLUMNS ensures !schema.HasColumn(tc.0, tc.1) {
      if schema.HasColumn(tc.0, tc.1) {
        OwnedColumnsAreNotEmbedded(schema, tc);
      }
    }
  }

  // A retry that ends elsewhere.

  const CHAINED_USER: string := "api-key:" + "k2"

  const FRESH_ID: string := "aaaaaaaaaaaaaaaaaaaaaa"

  const OWNERS_SCHEMA :=
    Schema({(USER, ID), (API_KEY, ID), (API_KEY, REFERENCE_ID), (DOWNLOAD_TASKS, CREATED_BY_USER_ID)}, map[], [])

  function UserRow(id: string): Row {
    map[ID := Text(id)]
  }

  function KeyRow(id: string, owner: string): Row {
    map[ID := Text(id), REFERENCE_ID := Text(owner)]
  }

  function CreatorRow(creator: string): Row {
    map[CREATED_BY_USER_ID := Text(creator)]
  }

  /** A task created through the first key, whose owner reads like the second key. */
  function OwnerTables(): Tables {
    Filled(map[
      USER := [UserRow(CHAINED_USER), UserRow("u")],
      API_KEY := [KeyRow("k1", CHAINED_USER), KeyRow("k2", "u")],
      DOWNLOAD_TASKS := [CreatorRow("api-key:" + "k1")]])
  }

  function OwnerRows(): seq<MapRow> {
    [MapRow(RowId(USER), CHAINED_USER, FRESH_ID, 0)]
  }

  /** One draw, for one kind. */
  ghost predicate SuppliesOne(supply: Supply, of: Kind) {
    forall kind :: supply.draws(kind) == if kind == of then [FRESH_ID] else []
  }

  lemma FreshIdIsGood()
    ensures DrawIsGood(RowId(USER), FRESH_ID) && DrawIsGood(RowId(ORGANIZATION), FRESH_ID) && FRESH_ID != "u"
  {
  }

  lemma OldValues()
    ensures HasForeignChar(CHAINED_USER) && !HasForeignChar("u") && !HasForeignChar("k1") && !HasForeignChar("k2")
  {
    assert CHAINED_USER[3] == '-';
  }

  lemma OwnersAreOwned()
    ensures AllOwned(OWNERS_SCHEMA)
  {
  }

  lemma OwnersArePlain()
    ensures IsPlain(OWNERS_SCHEMA) && AllOwned(OWNERS_SCHEMA) && HasLegacyCreators(OWNERS_SCHEMA)
    ensures !HasCredentials(OWNERS_SCHEMA) && !OWNERS_SCHEMA.HasColumn(AUDIT_EVENTS, EVENT_KEY)
  {
    hide AllOwned, PrimaryTable, PrimaryColumn, RotatesAll;
    OwnersAreOwned();
    forall kind | RotatesAll(kind)
      ensures PrimaryColumn(kind) != ID && PrimaryColumn(kind) != REFERENCE_ID && PrimaryColumn(kind) != CREATED_BY_USER_ID
    {
      RotatedColumns(kind);
    }
  }

  /** The creator is resolved to the owner of the first key. */
  lemma PreparedOwners()
    ensures var prepared := PreparedTables(OWNERS_SCHEMA, OwnerTables());
      && (forall t | t != DOWNLOAD_TASKS :: prepared[t] == OwnerTables()[t])
      && prepared[DOWNLOAD_TASKS] == [CreatorRow(CHAINED_USER)]
  {
    hide ResolvedCreatorRow, ResolveLegacyCreators, HasLegacyCreators, OWNERS_SCHEMA, OwnerTables, FillEventKeys, CHAINED_USER;
    OwnersArePlain();
    ResolvedOwner();
    OwnersTask();
    OneResolvedTask(OwnerTables(), CreatorRow("api-key:" + "k1"), CreatorRow(CHAINED_USER));
  }

  lemma OwnersTask()
    ensures OwnerTables()[DOWNLOAD_TASKS] == [CreatorRow("api-key:" + "k1")]
  {
  }

  lemma OneResolvedTask(tables: Tables, row: Row, next: Row)
    requires tables[DOWNLOAD_TASKS] == [row] && ResolvedCreatorRow(tables[API_KEY], row) == next
    ensures ResolveLegacyCreators(tables) == tables[DOWNLOAD_TASKS := [next]]
  {
    hide ResolvedCreatorRow;
    assert ResolveLegacyCreators(tables)[DOWNLOAD_TASKS] == [next];
  }

  lemma ResolvedOwner()
    ensures ResolvedCreatorRow(OwnerTables()[API_KEY], CreatorRow("api-key:" + "k1")) == CreatorRow(CHAINED_USER)
  {
    hide NamesApiKey, OwnerOfApiKey, Filled;
    var keys := OwnerTables()[API_KEY];
    KeyText("k1");
    OwnerOfTwo(keys[0], keys[1], "k1", "k2");
  }

  lemma OwnerTablesHold()
    ensures OwnerTables()[USER] == [UserRow(CHAINED_USER), UserRow("u")]
    ensures OwnerTables()[API_KEY] == [KeyRow("k1", CHAINED_USER), KeyRow("k2", "u")]
    ensures forall t | t !in {USER, API_KEY, DOWNLOAD_TASKS} :: OwnerTables()[t] == []
  {
    hide CHAINED_USER, UserRow, KeyRow, CreatorRow;
  }

  lemma OwnerTablesConform()
    ensures Conforms(OWNERS_SCHEMA, OwnerTables())
    ensures forall t, row, c | row in OwnerTables()[t] :: !Field(row, c).Doc?
  {
    hide OwnerTables, CHAINED_USER;
    OwnerTablesHold();
    OwnersTask();
  }

  /** The only foreign value is the id that reads like a key, and only users hold it. */
  lemma OwnerValues(kind: Kind, tc: (Table, Column), value: string)
    requires HoldsValue(OWNERS_SCHEMA, kind, PreparedTables(OWNERS_SCHEMA, OwnerTables()), tc, value)
    requires HasForeignChar(value) || value == ""
    ensures kind == RowId(USER) && value == CHAINED_USER
  {
    hide HasForeignChar, PreparedTables, OwnerTables, CHAINED_USER;
    PreparedOwners();
    OwnerTablesHold();
    OldValues();
  }

  lemma ChainedUserIsCollected()
    ensures IsCollected(OWNERS_SCHEMA, RowId(USER), PreparedTables(OWNERS_SCHEMA, OwnerTables()), [], CHAINED_USER)
  {
    hide HasForeignChar, PreparedTables, OwnerTables, CHAINED_USER, References, FurtherSources, IsPolymorphicSource,
      CollectsFromJson;
    var source := MappingSource(USER, ID, None, false);
    assert IsSource(RowId(USER), source);
    PreparedOwners();
    OwnerTablesHold();
    OldValues();
    var prepared := PreparedTables(OWNERS_SCHEMA, OwnerTables());
    assert prepared[USER][0] in prepared[USER];
    assert CollectsFrom(OWNERS_SCHEMA, RowId(USER), source, prepared, [], CHAINED_USER);
  }

  lemma OwnerMapIsBuilt(supply: Supply)
    requires SuppliesOne(supply, RowId(USER))
    ensures IsBuilt(OWNERS_SCHEMA, OwnerTables(), [], OwnerRows(), supply)
  {
    hide IsCollected, PreparedTables, OwnerTables, OWNERS_SCHEMA, GoodStart, DrawIsGood, CHAINED_USER, FRESH_ID, IsPlain,
      AllOwned, HasForeignChar, HoldsValue, CollectsFromJson, VALUE_KINDS, TypedValuesAreEmpty, HasNoDocuments, JSON_COLUMNS;
    EmptyStartIsGood();
    FreshIdIsGood();
    ChainedUserIsCollected();
    OwnersArePlain();
    var prepared := PreparedTables(OWNERS_SCHEMA, OwnerTables());
    OwnedColumnsHoldNoDocuments(OWNERS_SCHEMA, prepared);
    NoDocuments(OWNERS_SCHEMA, prepared);
    forall kind, value | IsCollected(OWNERS_SCHEMA, kind, prepared, [], value) ensures HasKey(OwnerRows(), (kind, value)) {
      CollectedIsHeld(OWNERS_SCHEMA, kind, prepared, [], value);
      var tc :| HoldsValue(OWNERS_SCHEMA, kind, prepared, tc, value);
      OwnerValues(kind, tc, value);
      assert OwnerRows()[0].Key() == (kind, value);
    }
  }

  lemma OwnerMap()
    ensures AsMap(OwnerRows()) == map[(RowId(USER), CHAINED_USER) := FRESH_ID]
  {
    assert OwnerRows()[..0] == [];
  }

  ghost function OwnerRun(supply: Supply): LocalRun {
    RunToValidate(OWNERS_SCHEMA, OwnerTables(), OwnerRows(), supply)
  }

  lemma UsersRemain()
    ensures Remaining(OWNERS_SCHEMA, PreparedTables(OWNERS_SCHEMA, OwnerTables()))[USER] == [UserRow(CHAINED_USER), UserRow("u")]
    ensures OWNERS_SCHEMA.HasColumn(PrimaryTable(RowId(USER)), PrimaryColumn(RowId(USER)))
  {
    hide Remaining, PreparedTables, OwnerTables, UserRow, CHAINED_USER;
    var prepared := PreparedTables(OWNERS_SCHEMA, OwnerTables());
    RemainingRows(OWNERS_SCHEMA, prepared, USER);
    PreparedOwners();
    OwnerTablesHold();
  }

  /** Every owner of a key is a user before the run. */
  lemma OwnersStand(m: IdMap)
    ensures ReferenceStands(OWNERS_SCHEMA, m, RowId(USER), Live(API_KEY, REFERENCE_ID),
                            Remaining(OWNERS_SCHEMA, PreparedTables(OWNERS_SCHEMA, OwnerTables())))
  {
    hide Remaining, PreparedTables, OwnerTables, CHAINED_USER, OWNERS_SCHEMA, IdIsomorphism.Collides;
    var prepared := PreparedTables(OWNERS_SCHEMA, OwnerTables());
    var kept := Remaining(OWNERS_SCHEMA, prepared);
    RemainingRowsArePrepared(OWNERS_SCHEMA, prepared);
    PreparedOwners();
    OwnerTablesHold();
    UsersRemain();
    assert kept[USER][0] in kept[USER] && kept[USER][1] in kept[USER];
  }

  /** The owner of a key is the only live reference. */
  lemma OwnersReferToUsers(kind: Kind, ref: Reference)
    requires IsLiveReference(OWNERS_SCHEMA, kind, ref)
    ensures kind == RowId(USER) && ref == Live(API_KEY, REFERENCE_ID)
  {
    hide References, VALUE_KINDS;
    TargetsHaveOneOwner(kind, ref);
    KeysReferToNothing();
    UserReferences(ref);
  }

  lemma KeysReferToNothing()
    ensures References(RowId(API_KEY)) == []
  {
  }

  lemma UserReferences(ref: Reference)
    requires ref in References(RowId(USER)) && !ref.allowDangling
    ensures ref.column != ID && ref.column != CREATED_BY_USER_ID
    ensures ref.table == API_KEY ==> ref == Live(API_KEY, REFERENCE_ID)
  {
  }

  lemma OwnerRunIsAsListed(supply: Supply)
    ensures OwnerRun(supply).schema == OWNERS_SCHEMA
  {
    hide OWNERS_SCHEMA;
  }

  lemma OwnersAreNotFinal()
    ensures !ResolvedOwnersAreFinal(OWNERS_SCHEMA, AsMap(OwnerRows()), OwnerTables())
  {
    hide ResolvedOwnersAreFinal, OwnerTables, OWNERS_SCHEMA, AsMap, OwnerRows, FRESH_ID, HasLegacyCreators, MappedValueIsValid;
    OwnersArePlain();
    OwnerMap();
    OwnerTablesHold();
    OwnersTask();
    FreshIdIsGood();
    ChainedOwnersAreNotFinal(OWNERS_SCHEMA, OwnerTables(), AsMap(OwnerRows()), FRESH_ID);
  }

  lemma NothingOfOwnersDangles(tokens: seq<string>)
    ensures NothingDangles(OWNERS_SCHEMA, AsMap(OwnerRows()), tokens, PreparedTables(OWNERS_SCHEMA, OwnerTables()))
  {
    hide OWNERS_SCHEMA, OwnerTables, IsPlain, EventTaskIdsArePlain, DocumentsStand, Remaining, NothingDangles, IsLiveReference,
      JSON_COLUMNS, TypedValuesAreEmpty, NOTIFICATION_TARGETS, PreparedTables, OwnerRows, AsMap, ReferenceStands, AllOwned,
      HasLegacyCreators, HasCredentials, HasNoDocuments, OddEventIdsAreSound, CollectsFromJson;
    var m, prepared := AsMap(OwnerRows()), PreparedTables(OWNERS_SCHEMA, OwnerTables());
    OwnersArePlain();
    OwnedColumnsHoldNoDocuments(OWNERS_SCHEMA, prepared);
    NoDocuments(OWNERS_SCHEMA, prepared);
    forall kind, ref | IsLiveReference(OWNERS_SCHEMA, kind, ref)
      ensures ReferenceStands(OWNERS_SCHEMA, m, kind, ref, Remaining(OWNERS_SCHEMA, prepared))
    {
      OwnersReferToUsers(kind, ref);
      OwnersStand(m);
    }
    NothingDanglesIf(OWNERS_SCHEMA, m, tokens, prepared);
  }

  /** One row fits any chunk it fits alone. */
  lemma OneRowIsChunked(bytes: MapRow -> nat)
    requires bytes(OwnerRows()[0]) <= STATEMENT_BUDGET_BYTES
    ensures Chunks(OwnerRows(), bytes).Some?
  {
    assert OwnerRows()[1..] == [];
    assert ChunkFrom(OwnerRows(), bytes(OwnerRows()[0]), [], bytes).Some?;
  }

  lemma OwnerPlanIsPlannable(supply: Supply, rendering: Rendering)
    requires rendering.mapBytes(OwnerRows()[0]) <= STATEMENT_BUDGET_BYTES
    ensures Plannable(OwnerRun(supply), rendering)
  {
    hide AllOwned, EMBEDDED_COLUMNS, HasCredentials, RenameList, Normalized, PlanValidations, AsMap, INVALIDATED_TABLES,
      VALUE_KINDS, INVENTORY, Chunks, OWNERS_SCHEMA, OwnerTables, OwnerRows, ColumnFits;
    OneRowIsChunked(rendering.mapBytes);
    OwnersAreOwned();
    forall tc | tc in EMBEDDED_COLUMNS ensures !OWNERS_SCHEMA.HasColumn(tc.0, tc.1) {
      if OWNERS_SCHEMA.HasColumn(tc.0, tc.1) {
        OwnedColumnsAreNotEmbedded(OWNERS_SCHEMA, tc);
      }
    }
  }

  /**
   * A database whose task was created through a key that belongs to the user "api-key:k2" is normalized successfully, and
   * some interrupted attempts on another copy end with another creator.
   */
  lemma ChainedOwnersMakeRetriesDisagree(supply: Supply, rendering: Rendering)
    requires supply.stamp != "" && SuppliesOne(supply, RowId(USER))
    requires rendering.mapBytes(OwnerRows()[0]) <= STATEMENT_BUDGET_BYTES
    ensures IsSuccessfulRun(OwnerRun(supply), OwnerTables(), [], OwnerRows(), supply) && Plannable(OwnerRun(supply), rendering)
    ensures !RetriesAgree(OWNERS_SCHEMA, PlanOf(OwnerRun(supply), rendering), FreshCopy(OwnerTables()))
  {
    hide IsBuilt, Conforms, IsPlain, DocumentsAreStored, EventTaskIdsArePlain, PreparedTables, KeysAreProper, RunToValidate,
      OwnerTables, OddEventIdsAreSound, PlanOf, FreshCopy, Plannable, IsSuccessfulRun, ReadPrinted, OwnerRows, SuppliesOne,
      AllOwned, RetriesAgree, ResolvedOwnersAreFinal, OWNERS_SCHEMA, HasCredentials, HasLegacyCreators, AsMap, NothingDangles,
      HasNoDocuments, TypedValuesAreEmpty, JSON_COLUMNS;
    var run := OwnerRun(supply);
    OwnerRunIsAsListed(supply);
    OwnerMapIsBuilt(supply);
    OwnerTablesConform();
    OwnersArePlain();
    TextsAreStored(OwnerTables());
    OwnedColumnsHoldNoDocuments(OWNERS_SCHEMA, run.tables);
    NoDocuments(OWNERS_SCHEMA, run.tables);
    OwnedKeysAreProper(OWNERS_SCHEMA, OwnerTables(), OwnerRows(), supply);
    NothingOfOwnersDangles(supply.tokens);
    SucceedsIf(OWNERS_SCHEMA, OwnerTables(), OwnerRows(), supply);
    OwnersAreNotFinal();
    OwnerPlanIsPlannable(supply, rendering);
    RetriesOfANormalizedDatabaseAgree(run, OwnerTables(), [], OwnerRows(), supply, rendering);
  }

  // An empty reference that wakes up.

  const TEAMS_SCHEMA :=
    Schema({(ORGANIZATION, ID), (STORAGE_USAGE_BREAKDOWNS, ORG_ID), (NOTIFICATIONS, REF_TYPE), (NOTIFICATIONS, REF_ID)}, map[], [])

  function BreakdownRow(): Row {
    map[ORG_ID := Text("")]
  }

  function NoticeRow(): Row {
    map[REF_TYPE := Text("team"), REF_ID := Text("")]
  }

  /** A notification with an empty reference to a team, alone or beside a breakdown without an organization. */
  function TeamTables(breakdowns: seq<Row>): Tables {
    Filled(map[STORAGE_USAGE_BREAKDOWNS := breakdowns, NOTIFICATIONS := [NoticeRow()]])
  }

  function TeamRows(): seq<MapRow> {
    [MapRow(RowId(ORGANIZATION), "", FRESH_ID, 0)]
  }

  ghost predicate AreEmptyBreakdowns(breakdowns: seq<Row>) {
    forall row | row in breakdowns :: row == BreakdownRow()
  }

  lemma TeamColumns()
    ensures forall t, c :: TEAMS_SCHEMA.HasColumn(t, c) <==>
      (t, c) == (ORGANIZATION, ID) || (t, c) == (STORAGE_USAGE_BREAKDOWNS, ORG_ID)
      || (t, c) == (NOTIFICATIONS, REF_TYPE) || (t, c) == (NOTIFICATIONS, REF_ID)
  {
  }

  lemma TeamCells(breakdowns: seq<Row>)
    ensures TeamTables(breakdowns)[NOTIFICATIONS] == [NoticeRow()]
    ensures TeamTables(breakdowns)[STORAGE_USAGE_BREAKDOWNS] == breakdowns
    ensures forall t | t != NOTIFICATIONS && t != STORAGE_USAGE_BREAKDOWNS :: TeamTables(breakdowns)[t] == []
  {
    hide NoticeRow;
  }

  lemma TeamsArePlain()
    ensures IsPlain(TEAMS_SCHEMA)
  {
    hide TEAMS_SCHEMA, PrimaryTable, PrimaryColumn, RotatesAll;
    TeamColumns();
    forall kind | RotatesAll(kind)
      ensures PrimaryColumn(kind) != ID && PrimaryColumn(kind) != ORG_ID && PrimaryColumn(kind) != REF_TYPE && PrimaryColumn(kind) != REF_ID
    {
      RotatedColumns(kind);
    }
    TeamsHaveNoKeys();
  }

  lemma TeamsHaveNoKeys()
    ensures TEAMS_SCHEMA.foreignKeys == []
  {
  }

  lemma TeamTypesAreEmpty(breakdowns: seq<Row>)
    ensures TypedValuesAreEmpty(TEAMS_SCHEMA, TeamTables(breakdowns))
  {
    hide TEAMS_SCHEMA, TeamTables;
    TeamColumns();
    TeamCells(breakdowns);
  }

  lemma TeamsHaveNoDocuments()
    ensures HasNoDocuments(TEAMS_SCHEMA)
  {
    hide TEAMS_SCHEMA;
    TeamColumns();
  }

  lemma TeamsArePrepared(breakdowns: seq<Row>)
    ensures PreparedTables(TEAMS_SCHEMA, TeamTables(breakdowns)) == TeamTables(breakdowns)
  {
    hide TeamTables, TEAMS_SCHEMA;
    TeamColumns();
  }

  lemma TeamTablesConform(breakdowns: seq<Row>)
    requires AreEmptyBreakdowns(breakdowns)
    ensures Conforms(TEAMS_SCHEMA, TeamTables(breakdowns))
    ensures forall t, row, c | row in TeamTables(breakdowns)[t] :: !Field(row, c).Doc?
  {
    hide TeamTables, TEAMS_SCHEMA;
    TeamColumns();
    TeamCells(breakdowns);
    var tables := TeamTables(breakdowns);
    forall t, i, c | 0 <= i < |tables[t]| ensures c in tables[t][i] <==> (t, c) in TEAMS_SCHEMA.columns {
      assert tables[t][i] in tables[t];
      assert TEAMS_SCHEMA.HasColumn(t, c) <==> (t, c) in TEAMS_SCHEMA.columns;
    }
  }

  /** Only the organization of the breakdown can be collected. */
  lemma TeamValues(breakdowns: seq<Row>, kind: Kind, value: string)
    requires AreEmptyBreakdowns(breakdowns) && IsCollected(TEAMS_SCHEMA, kind, TeamTables(breakdowns), [], value)
    ensures kind == RowId(ORGANIZATION) && value == "" && breakdowns != []
  {
    hide TEAMS_SCHEMA, TeamTables, IsPlain, TypedValuesAreEmpty, HasNoDocuments, IsCollected, HasForeignChar, CollectsFromJson,
      JSON_COLUMNS, HoldsValue;
    TeamsArePlain();
    TeamTypesAreEmpty(breakdowns);
    TeamsHaveNoDocuments();
    NoDocuments(TEAMS_SCHEMA, TeamTables(breakdowns));
    CollectedIsHeld(TEAMS_SCHEMA, kind, TeamTables(breakdowns), [], value);
    var tc :| HoldsValue(TEAMS_SCHEMA, kind, TeamTables(breakdowns), tc, value);
    HeldTeamValue(breakdowns, kind, tc, value);
  }

  lemma HeldTeamValue(breakdowns: seq<Row>, kind: Kind, tc: (Table, Column), value: string)
    requires AreEmptyBreakdowns(breakdowns) && HoldsValue(TEAMS_SCHEMA, kind, TeamTables(breakdowns), tc, value)
    ensures kind == RowId(ORGANIZATION) && value == "" && breakdowns != []
  {
    hide TEAMS_SCHEMA, TeamTables, Owner;
    TeamColumns();
    TeamCells(breakdowns);
    TeamOwners();
  }

  lemma TeamOwners()
    ensures Owner(STORAGE_USAGE_BREAKDOWNS, ORG_ID) == Some(RowId(ORGANIZATION))
    ensures Owner(NOTIFICATIONS, REF_TYPE).None? && Owner(NOTIFICATIONS, REF_ID).None?
  {
  }

  lemma EmptyTeamIsCollected()
    ensures IsCollected(TEAMS_SCHEMA, RowId(ORGANIZATION), TeamTables([BreakdownRow()]), [], "")
  {
    hide TEAMS_SCHEMA, TeamTables, HasForeignChar, References, FurtherSources, IsPolymorphicSource, CollectsFromJson;
    var source := MappingSource(STORAGE_USAGE_BREAKDOWNS, ORG_ID, None, false);
    TeamColumns();
    TeamCells([BreakdownRow()]);
    BreakdownsMayDangle();
    assert source in HistoricalSources(References(RowId(ORGANIZATION)));
    assert IsSource(RowId(ORGANIZATION), source);
    var tables := TeamTables([BreakdownRow()]);
    assert tables[STORAGE_USAGE_BREAKDOWNS][0] in tables[STORAGE_USAGE_BREAKDOWNS];
    assert CollectsFrom(TEAMS_SCHEMA, RowId(ORGANIZATION), source, tables, [], "");
  }

  lemma BreakdownsMayDangle()
    ensures Historical(STORAGE_USAGE_BREAKDOWNS, ORG_ID) in References(RowId(ORGANIZATION))
  {
    assert References(RowId(ORGANIZATION))[17] == Historical(STORAGE_USAGE_BREAKDOWNS, ORG_ID);
  }

  /** With the breakdown, the empty value is mapped; without it, nothing is. */
  lemma TeamMapsAreBuilt(supply: Supply)
    requires SuppliesOne(supply, RowId(ORGANIZATION))
    ensures IsBuilt(TEAMS_SCHEMA, TeamTables([BreakdownRow()]), [], TeamRows(), supply)
    ensures IsBuilt(TEAMS_SCHEMA, TeamTables([]), [], [], supply)
  {
    hide IsCollected, PreparedTables, TeamTables, TEAMS_SCHEMA, GoodStart, DrawIsGood, FRESH_ID, VALUE_KINDS;
    EmptyStartIsGood();
    FreshIdIsGood();
    EmptyTeamIsCollected();
    TeamsArePrepared([]);
    TeamsArePrepared([BreakdownRow()]);
    forall kind, value | IsCollected(TEAMS_SCHEMA, kind, TeamTables([BreakdownRow()]), [], value)
      ensures HasKey(TeamRows(), (kind, value))
    {
      TeamValues([BreakdownRow()], kind, value);
      assert TeamRows()[0].Key() == (kind, value);
    }
    forall kind, value ensures !IsCollected(TEAMS_SCHEMA, kind, TeamTables([]), [], value) {
      if IsCollected(TEAMS_SCHEMA, kind, TeamTables([]), [], value) {
        TeamValues([], kind, value);
      }
    }
  }

  lemma TeamMap()
    ensures AsMap(TeamRows()) == map[(RowId(ORGANIZATION), "") := FRESH_ID]
  {
    assert TeamRows()[..0] == [];
  }

  lemma TeamsRemain(breakdowns: seq<Row>)
    ensures Remaining(TEAMS_SCHEMA, TeamTables(breakdowns))[NOTIFICATIONS] == [NoticeRow()]
    ensures Remaining(TEAMS_SCHEMA, TeamTables(breakdowns))[ORGANIZATION] == []
  {
    hide Remaining, TeamTables, TEAMS_SCHEMA;
    RemainingRows(TEAMS_SCHEMA, TeamTables(breakdowns), NOTIFICATIONS);
    RemainingRows(TEAMS_SCHEMA, TeamTables(breakdowns), ORGANIZATION);
    TeamCells(breakdowns);
    NotificationsAreNotInvalidated();
  }

  lemma NotificationsAreNotInvalidated()
    ensures NOTIFICATIONS !in INVALIDATED_TABLES && ORGANIZATION !in INVALIDATED_TABLES
  {
  }

  /** No column of the teams is a live reference. */
  lemma TeamsReferToNothing(kind: Kind, ref: Reference)
    ensures !IsLiveReference(TEAMS_SCHEMA, kind, ref)
  {
    hide References, VALUE_KINDS, TEAMS_SCHEMA;
    TeamColumns();
    if IsLiveReference(TEAMS_SCHEMA, kind, ref) {
      TargetsHaveOneOwner(kind, ref);
      OrganizationReferences(ref);
    }
  }

  lemma OrganizationReferences(ref: Reference)
    requires ref in References(RowId(ORGANIZATION)) && !ref.allowDangling
    ensures ref.column != ID && ref.table != STORAGE_USAGE_BREAKDOWNS
  {
  }

  /** Unmapped, the empty reference may stay. */
  lemma NothingOfTeamsDangles(tokens: seq<string>)
    ensures NothingDangles(TEAMS_SCHEMA, AsMap([]), tokens, TeamTables([]))
  {
    hide TEAMS_SCHEMA, TeamTables, IsPlain, EventTaskIdsArePlain, DocumentsStand, Remaining, NothingDangles, IsLiveReference,
      JSON_COLUMNS, NOTIFICATION_TARGETS, HasNoDocuments, OddEventIdsAreSound, CollectsFromJson, NamesPrimary;
    TeamsArePlain();
    TeamsHaveNoDocuments();
    NoDocuments(TEAMS_SCHEMA, TeamTables([]));
    TeamsRemain([]);
    forall kind, ref ensures !IsLiveReference(TEAMS_SCHEMA, kind, ref) {
      TeamsReferToNothing(kind, ref);
    }
    NothingDanglesIf(TEAMS_SCHEMA, AsMap([]), tokens, TeamTables([]));
  }

  /** Mapped, it must name a team. */
  lemma EmptyTeamDangles(tokens: seq<string>)
    ensures !NothingDangles(TEAMS_SCHEMA, AsMap(TeamRows()), tokens, TeamTables([BreakdownRow()]))
  {
    hide TEAMS_SCHEMA, TeamTables, EventTaskIdsArePlain, DocumentsStand, Remaining, IsLiveReference, EmptyTokensAreMapped, KeyStands,
      CreatorsStand, ReferenceStands, JSON_COLUMNS, VALUE_KINDS, AsMap, TeamRows;
    TeamMap();
    TeamColumns();
    TeamsRemain([BreakdownRow()]);
    var kept, to := Remaining(TEAMS_SCHEMA, TeamTables([BreakdownRow()])), NOTIFICATION_TARGETS[1];
    assert to == ("team", ORGANIZATION) && to in NOTIFICATION_TARGETS;
    assert kept[NOTIFICATIONS][0] in kept[NOTIFICATIONS];
    assert !NotificationStands(AsMap(TeamRows()), kept, to, NoticeRow());
    assert !NotificationsStand(AsMap(TeamRows()), kept, to);
  }

  /** What validation asks about the notification holds before the run. */
  lemma NoticeIsInOrder(breakdowns: seq<Row>, to: (string, Table))
    ensures Holds(NotificationQuery(to), TeamTables(breakdowns))
    ensures Holds(TypedFormat(POLYMORPHIC_REFERENCES[4]), TeamTables(breakdowns))
  {
    hide TeamTables, IsTarget;
    TeamCells(breakdowns);
  }

  /**
   * A notification whose empty reference is in order, alone: the run validates. Beside a breakdown whose organization is
   * empty, the empty value is mapped, the reference with it, and validation rejects the outcome.
   */
  lemma MappedEmptyReferenceFailsValidation(supply: Supply)
    requires SuppliesOne(supply, RowId(ORGANIZATION))
    ensures var alone, beside := TeamTables([]), TeamTables([BreakdownRow()]);
      && IsBuilt(TEAMS_SCHEMA, alone, [], [], supply) && IsBuilt(TEAMS_SCHEMA, beside, [], TeamRows(), supply)
      && Validates(TEAMS_SCHEMA, INVENTORY, AsMap([]), RegistryValidations(TEAMS_SCHEMA), alone,
                   Normalized(TEAMS_SCHEMA, INVENTORY, AsMap([]), supply.tokens, alone))
      && !Validates(TEAMS_SCHEMA, INVENTORY, AsMap(TeamRows()), RegistryValidations(TEAMS_SCHEMA), beside,
                    Normalized(TEAMS_SCHEMA, INVENTORY, AsMap(TeamRows()), supply.tokens, beside))
    ensures forall to :: Holds(NotificationQuery(to), TeamTables([BreakdownRow()]))
    ensures Holds(TypedFormat(POLYMORPHIC_REFERENCES[4]), TeamTables([BreakdownRow()]))
  {
    hide IsBuilt, Conforms, DocumentsAreStored, PreparedTables, NothingDangles, TeamTables, ReadPrinted, TeamRows, SuppliesOne,
      TEAMS_SCHEMA, AsMap, Validates, Normalized, RegistryValidations, INVENTORY, IsReader, Holds, NotificationQuery,
      POLYMORPHIC_REFERENCES;
    var alone, beside := TeamTables([]), TeamTables([BreakdownRow()]);
    PrintedIsRead();
    TeamMapsAreBuilt(supply);
    TeamsArePrepared([]);
    TeamsArePrepared([BreakdownRow()]);
    TeamTablesConform([]);
    TeamTablesConform([BreakdownRow()]);
    TextsAreStored(alone);
    TextsAreStored(beside);
    NothingOfTeamsDangles(supply.tokens);
    EmptyTeamDangles(supply.tokens);
    NormalizationSucceedsExactlyIf(TEAMS_SCHEMA, alone, [], [], supply, text => ReadPrinted(text));
    NormalizationSucceedsExactlyIf(TEAMS_SCHEMA, beside, [], TeamRows(), supply, text => ReadPrinted(text));
    forall to ensures Holds(NotificationQuery(to), beside) {
      NoticeIsInOrder([BreakdownRow()], to);
    }
    NoticeIsInOrder([BreakdownRow()], ("team", ORGANIZATION));
  }
}
