/** The statement plan for another copy of the database: its statements, their execution, and how it is built. */
module D1Plan {
  import opened Wrappers
  import opened Text
  import opened IdRegistry
  import opened IdValues
  import opened IdMapTable
  import opened IdTables
  import opened IdMigration
  import opened JsonText
  import opened JsonAssertions
  import opened PlanChunks

  const VALIDATION_VERSION: string := "2"

  datatype ExactKey = ExactKey(table: Table, column: Column, key: seq<Cell>)

  /** The remote copy: application tables, the two control tables and the completion markers ("" when absent). */
  datatype D1 = D1(
    tables: Tables, mapRows: seq<MapRow>, exact: map<ExactKey, Cell>, completedAt: string, version: string)

  /** Queries that demand that no row violates them. Validation and the plan share all but those on JSON documents. */
  datatype Validation =
    | KeyResolves(table: Table, column: Column, target: Table, targetColumn: Column)
    | Format(kind: Kind, table: Table, column: Column, allowEmpty: bool)
    | Resolves(table: Table, column: Column, target: Table, targetColumn: Column)
    | TypedFormat(reference: Polymorphic)
    | TypedResolves(
        table: Table, typeColumn: Column, name: string, valueColumn: Column, target: Table, targetColumn: Column)
    | CreatorFormat
    | CreatorResolves
    | JsonValid(table: Table, column: Column)
    | JsonNodes(check: NodeCheck, table: Table, column: Column)

  datatype Check =
    | MappingCount(expected: nat)
    | MappingsReviewed(rows: seq<MapRow>)
    | CreatorsResolved
    | ColumnRenamed(rename: Rename, expectedNew: nat)
    | ExactApplied(table: Table, column: Column)
    | CredentialSet(id: Cell, tokenHash: Cell, tokenJti: Cell, enabled: Cell)
    | CredentialsRevoked
    | RowCount(table: Table, expected: nat)
    | Valid(validation: Validation)

  datatype Statement =
    | CheckMarker
    | InsertMappings(rows: seq<MapRow>)
    | ResolveCreators
    | FillKeys
    | RenameTarget(rename: Rename)
    | StageExact(table: Table, column: Column, entries: seq<(seq<Cell>, Cell)>)
    | ApplyExact(table: Table, column: Column)
    | SetCredential(id: Cell, tokenHash: Cell, tokenJti: Cell, enabled: Cell)
    | Clear(table: Table)
    | DropResources
    | DropClients
    | DropRegistrations
    | Assert(check: Check)
    | MarkValidated
    | MarkCompleted(at: string)

  // The validations of the registry.

  function ColumnFormats(schema: Schema, kind: Kind, references: seq<Reference>): seq<Validation> {
    if references == [] then []
    else
      var r, rest := references[0], ColumnFormats(schema, kind, references[1..]);
      if schema.HasColumn(r.table, r.column)
      then [Format(kind, r.table, r.column, EmptyIsSentinel(r.table, r.column))] + rest else rest
  }

  function PrimaryFormat(schema: Schema, kind: Kind): seq<Validation> {
    if schema.HasColumn(PrimaryTable(kind), PrimaryColumn(kind))
    then [Format(kind, PrimaryTable(kind), PrimaryColumn(kind), false)] else []
  }

  function KindFormats(schema: Schema, kinds: seq<Kind>): seq<Validation> {
    if kinds == [] then []
    else
      PrimaryFormat(schema, kinds[0]) + ColumnFormats(schema, kinds[0], References(kinds[0])) + KindFormats(schema, kinds[1..])
  }

  /** Columns that are only validated hold plain ids. */
  function PlainFormats(schema: Schema, columns: seq<(Table, Column)>): seq<Validation> {
    if columns == [] then []
    else
      var rest := PlainFormats(schema, columns[1..]);
      if schema.HasColumn(columns[0].0, columns[0].1)
      then [Format(RowId(columns[0].0), columns[0].0, columns[0].1, false)] + rest else rest
  }

  function ColumnResolutions(schema: Schema, kind: Kind, references: seq<Reference>): seq<Validation> {
    if references == [] then []
    else
      var r, rest := references[0], ColumnResolutions(schema, kind, references[1..]);
      if schema.HasColumn(r.table, r.column) && !r.allowDangling
      then [Resolves(r.table, r.column, PrimaryTable(kind), PrimaryColumn(kind))] + rest else rest
  }

  function KindResolutions(schema: Schema, kinds: seq<Kind>): seq<Validation> {
    if kinds == [] then []
    else
      var rest := KindResolutions(schema, kinds[1..]);
      if schema.HasColumn(PrimaryTable(kinds[0]), PrimaryColumn(kinds[0]))
      then ColumnResolutions(schema, kinds[0], References(kinds[0])) + rest else rest
  }

  function TypedFormats(schema: Schema, references: seq<Polymorphic>): seq<Validation> {
    if references == [] then []
    else
      var r, rest := references[0], TypedFormats(schema, references[1..]);
      if schema.HasColumn(r.table, r.typeColumn) && schema.HasColumn(r.table, r.valueColumn)
      then [TypedFormat(r)] + rest else rest
  }

  /** What a notification may refer to, by the name of its type. */
  const NOTIFICATION_TARGETS: seq<(string, Table)> :=
    [("share", SHARES), ("team", ORGANIZATION), ("background_job", BACKGROUND_JOBS)]

  /** Of the polymorphic references only those of notifications must resolve. */
  function TypedResolutions(schema: Schema, names: seq<(string, Table)>): seq<Validation> {
    if names == [] then []
    else
      var (name, target) := names[0];
      var rest := TypedResolutions(schema, names[1..]);
      if schema.HasColumn(NOTIFICATIONS, REF_TYPE) && schema.HasColumn(NOTIFICATIONS, REF_ID) && schema.HasColumn(target, ID)
      then [TypedResolves(NOTIFICATIONS, REF_TYPE, name, REF_ID, target, ID)] + rest else rest
  }

  /** `foreign_key_check`. */
  function KeyResolutions(keys: seq<ForeignKey>): seq<Validation> {
    if keys == [] then []
    else
      [KeyResolves(keys[0].table, keys[0].column, keys[0].target, keys[0].targetColumn)] + KeyResolutions(keys[1..])
  }

  /** Every query that validation and the plan share. */
  function RegistryValidations(schema: Schema): seq<Validation> {
    KeyResolutions(schema.foreignKeys)
    + KindFormats(schema, VALUE_KINDS)
    + PlainFormats(schema, VALIDATE_ONLY_COLUMNS)
    + KindResolutions(schema, VALUE_KINDS)
    + TypedFormats(schema, POLYMORPHIC_REFERENCES)
    + TypedResolutions(schema, NOTIFICATION_TARGETS)
    + (if schema.HasColumn(OBJECT_UPLOAD_SESSIONS, CREATED_BY) then [CreatorFormat, CreatorResolves] else [])
  }

  /** The queries of one document column, for every kind that has a key and a column to look in. */
  function KindQueries(schema: Schema, source: (Table, Column), kinds: seq<Kind>): seq<Validation> {
    if kinds == [] then []
    else
      var kind, rest := kinds[0], KindQueries(schema, source, kinds[1..]);
      if ReferenceKeys(source, kind) == {} || !schema.HasColumn(PrimaryTable(kind), PrimaryColumn(kind)) then rest
      else
        [JsonNodes(FormatOf(kind), source.0, source.1)]
        + (if JsonAllowsDangling(source.0) then [] else [JsonNodes(TargetOf(kind), source.0, source.1)])
        + rest
  }

  function DocumentQueries(schema: Schema, columns: seq<(Table, Column)>): seq<Validation> {
    if columns == [] then []
    else
      var source, rest := columns[0], DocumentQueries(schema, columns[1..]);
      if !schema.HasColumn(source.0, source.1) then rest
      else
        [JsonValid(source.0, source.1)]
        + KindQueries(schema, source, VALUE_KINDS)
        + (if source == EVENTS_SOURCE
           then [JsonNodes(EventIdFormat, source.0, source.1), JsonNodes(EventIdTarget, source.0, source.1)] else [])
        + rest
  }

  /** The queries at the end of the plan. */
  function PlanValidations(schema: Schema): seq<Validation> {
    RegistryValidations(schema) + DocumentQueries(schema, JSON_COLUMNS)
  }

  // Reading the tables.

  function KeyColumns(schema: Schema, table: Table): seq<Column> {
    if table in schema.keys then schema.keys[table] else []
  }

  /** The JSON array of a row's primary key, as the tuple of its cells. */
  function KeyOf(schema: Schema, table: Table, row: Row): (key: seq<Cell>)
    ensures |key| == |KeyColumns(schema, table)|
    ensures forall i | 0 <= i < |key| :: key[i] == Field(row, KeyColumns(schema, table)[i])
  {
    var columns := KeyColumns(schema, table);
    seq(|columns|, i requires 0 <= i < |columns| => Field(row, columns[i]))
  }

  predicate HoldsNewValue(m: IdMap, kind: Kind, cell: Cell) {
    cell.Text? && exists key | key in m :: key.0 == kind && m[key] == cell.text
  }

  function CountNewValues(m: IdMap, kind: Kind, column: Column, rows: seq<Row>): nat {
    if rows == [] then 0
    else (if HoldsNewValue(m, kind, Field(rows[0], column)) then 1 else 0) + CountNewValues(m, kind, column, rows[1..])
  }

  predicate RowIsWellFormed(validation: Validation, tables: Tables, row: Row) {
    match validation
    case KeyResolves(_, column, target, targetColumn) =>
      var cell := Field(row, column);
      cell.Text? || cell.Number? ==> IsTarget(tables, target, targetColumn, cell)
    case Format(kind, _, column, allowEmpty) =>
      Field(row, column).Text? ==> !InvalidValue(kind, Field(row, column).text, allowEmpty)
    case Resolves(_, column, target, targetColumn) =>
      Field(row, column).Text? && Field(row, column).text != "" ==> IsTarget(tables, target, targetColumn, Field(row, column))
    case TypedFormat(reference) =>
      var kindCell, cell := Field(row, reference.typeColumn), Field(row, reference.valueColumn);
      kindCell.Text? && kindCell.text in reference.typeKinds && cell.Text? && !IsTypedException(reference, row, cell) ==>
        !HasForeignChar(cell.text)
    case TypedResolves(_, typeColumn, name, valueColumn, target, targetColumn) =>
      var cell := Field(row, valueColumn);
      Field(row, typeColumn) == Text(name) && cell.Text? && cell.text != "" ==> IsTarget(tables, target, targetColumn, cell)
    case CreatorFormat =>
      var cell := Field(row, CREATED_BY);
      cell.Text? ==>
        cell.text != ""
        && (HasForeignChar(cell.text) ==> NamesDownloader(cell.text) && cell.text[11..] != "" && !HasForeignChar(cell.text[11..]))
    case CreatorResolves =>
      var cell := Field(row, CREATED_BY);
      cell.Text? ==>
        if NamesDownloader(cell.text) then IsTarget(tables, DOWNLOADERS, ID, Text(cell.text[11..]))
        else IsTarget(tables, USER, ID, cell)
    case JsonValid(_, column) => !Field(row, column).Text?
    case JsonNodes(check, table, column) => DocumentPasses(check, tables, (table, column), Field(row, column))
  }

  const DOWNLOADER_PREFIX: string := "downloader:"

  /** `LIKE 'downloader:%'`, which ignores ASCII case. */
  predicate NamesDownloader(text: string) {
    |text| >= 11 && Lower(text[..11]) == DOWNLOADER_PREFIX
  }

  /** Ledger openings and the wildcard notification change are exempt. */
  predicate IsTypedException(reference: Polymorphic, row: Row, cell: Cell) {
    || (reference.table == CLOUD_TRAFFIC_REPORTS && Field(row, STATUS) == Text("ledger_opening"))
    || (reference.table == RESOURCE_CHANGES && reference.valueColumn == RESOURCE_ID
        && Field(row, RESOURCE_TYPE) == Text("notification") && cell == Text("*"))
  }

  function ValidatedTable(validation: Validation): Table {
    match validation
    case TypedFormat(reference) => reference.table
    case CreatorFormat => OBJECT_UPLOAD_SESSIONS
    case CreatorResolves => OBJECT_UPLOAD_SESSIONS
    case _ => validation.table
  }

  predicate Holds(validation: Validation, tables: Tables) {
    forall row | row in tables[ValidatedTable(validation)] :: RowIsWellFormed(validation, tables, row)
  }

  ghost function StagedKeys(st: D1, table: Table, column: Column): set<ExactKey> {
    set key | key in st.exact && key.table == table && key.column == column
  }

  /** The rows that join with a staged value. */
  ghost function JoinedRows(schema: Schema, st: D1, table: Table, column: Column): set<int> {
    set i | 0 <= i < |st.tables[table]| && ExactKey(table, column, KeyOf(schema, table, st.tables[table][i])) in st.exact
  }

  /** Whether a check counts no violation. */
  ghost predicate Passes(schema: Schema, check: Check, st: D1) {
    match check
    case MappingCount(expected) => |st.mapRows| == expected
    case MappingsReviewed(rows) => forall row | row in rows :: row in st.mapRows
    case CreatorsResolved =>
      forall row | row in st.tables[DOWNLOAD_TASKS] :: !NamesApiKey(Field(row, CREATED_BY_USER_ID))
    case ColumnRenamed(rename, expectedNew) =>
      var m := AsMap(st.mapRows);
      && (forall row | row in st.tables[rename.table] ::
            Field(row, rename.column).Text? ==> (rename.kind, Field(row, rename.column).text) !in m)
      && CountNewValues(m, rename.kind, rename.column, st.tables[rename.table]) == expectedNew
    case ExactApplied(table, column) =>
      && |StagedKeys(st, table, column)| == |JoinedRows(schema, st, table, column)|
      && forall i | i in JoinedRows(schema, st, table, column) ::
        Field(st.tables[table][i], column) == st.exact[ExactKey(table, column, KeyOf(schema, table, st.tables[table][i]))]
    case CredentialSet(id, tokenHash, tokenJti, enabled) =>
      && |(set i | 0 <= i < |st.tables[DOWNLOADERS]| && Field(st.tables[DOWNLOADERS][i], ID) == id)| == 1
      && forall row | row in st.tables[DOWNLOADERS] && Field(row, ID) == id ::
        Field(row, TOKEN_HASH) == tokenHash && Field(row, TOKEN_JTI) == tokenJti && Field(row, ENABLED) == enabled
    case CredentialsRevoked =>
      forall row | row in st.tables[DOWNLOADERS] ::
        Field(row, ENABLED) == Number(0) && Field(row, TOKEN_HASH) == Text("")
    case RowCount(table, expected) => |st.tables[table]| == expected
    case Valid(validation) => Holds(validation, st.tables)
  }

  // Executing statements.

  predicate Pending(st: D1) {
    st.completedAt == ""
  }

  function StagedRow(schema: Schema, exact: map<ExactKey, Cell>, table: Table, column: Column, row: Row): Row {
    var key := ExactKey(table, column, KeyOf(schema, table, row));
    if column in row && key in exact then row[column := exact[key]] else row
  }

  function StageEntries(
    exact: map<ExactKey, Cell>, table: Table, column: Column, entries: seq<(seq<Cell>, Cell)>): map<ExactKey, Cell>
    decreases |entries|
  {
    if entries == [] then exact
    else
      StageEntries(exact[ExactKey(table, column, entries[0].0) := entries[0].1], table, column, entries[1..])
  }

  function SetCredentialRow(id: Cell, tokenHash: Cell, tokenJti: Cell, enabled: Cell, row: Row): Row {
    if Field(row, ID) == id then CredentialRow(row, tokenHash, tokenJti, enabled) else row
  }

  /** The table changes of a statement that is guarded by the completion marker. */
  function ChangedTables(schema: Schema, s: Statement, st: D1): Tables {
    match s
    case ResolveCreators => ResolveLegacyCreators(st.tables)
    case FillKeys => FillEventKeys(st.tables)
    case RenameTarget(rename) =>
      RenameColumn(AsMap(st.mapRows), rename.kind, rename.table, rename.column, st.tables)
    case ApplyExact(table, column) =>
      st.tables[table := MapRows(st.tables[table], row => StagedRow(schema, st.exact, table, column, row))]
    case SetCredential(id, tokenHash, tokenJti, enabled) =>
      st.tables[DOWNLOADERS :=
        MapRows(st.tables[DOWNLOADERS], row => SetCredentialRow(id, tokenHash, tokenJti, enabled, row))]
    case Clear(table) => st.tables[table := []]
    case DropResources =>
      st.tables[OAUTH_CLIENT_RESOURCE :=
        DropRegistered(st.tables[OAUTH_CLIENT_REGISTRATION], st.tables[OAUTH_CLIENT_RESOURCE])]
    case DropClients =>
      st.tables[OAUTH_CLIENT := DropRegistered(st.tables[OAUTH_CLIENT_REGISTRATION], st.tables[OAUTH_CLIENT])]
    case DropRegistrations => st.tables[OAUTH_CLIENT_REGISTRATION := []]
    case _ => st.tables
  }

  /** One statement; None is an aborted batch. */
  ghost function Step(schema: Schema, s: Statement, st: D1): Option<D1> {
    match s
    case CheckMarker => if !Pending(st) && st.version != VALIDATION_VERSION then None else Some(st)
    case InsertMappings(rows) => Some(st.(mapRows := InsertRows(st.mapRows, rows)))
    case StageExact(table, column, entries) =>
      Some(st.(exact := StageEntries(st.exact, table, column, entries)))
    case Assert(check) => if Pending(st) && !Passes(schema, check, st) then None else Some(st)
    case MarkValidated => Some(st.(version := VALIDATION_VERSION))
    case MarkCompleted(at) => Some(st.(completedAt := at))
    case _ => Some(if Pending(st) then st.(tables := ChangedTables(schema, s, st)) else st)
  }

  ghost function Execute(schema: Schema, plan: seq<Statement>, st: D1): Option<D1>
    decreases |plan|
  {
    if plan == [] then Some(st)
    else
      match Step(schema, plan[0], st)
      case None => None
      case Some(next) => Execute(schema, plan[1..], next)
  }

  lemma {:induction false} ExecuteConcatenates(schema: Schema, first: seq<Statement>, second: seq<Statement>, st: D1)
    ensures Execute(schema, first + second, st) ==
      match Execute(schema, first, st)
      case None => None
      case Some(mid) => Execute(schema, second, mid)
    decreases |first|
  {
    if first == [] {
      assert first + second == second;
    } else {
      assert (first + second)[0] == first[0] && (first + second)[1..] == first[1..] + second;
      match Step(schema, first[0], st)
      case None =>
      case Some(next) => ExecuteConcatenates(schema, first[1..], second, next);
    }
  }

  // Building the plan.

  /** Everything the plan is built from: the schema, the columns to visit, and the outcome of the local run. */
  datatype LocalRun = LocalRun(
    schema: Schema,
    renames: seq<Rename>,
    embedded: seq<(Table, Column)>,
    emptied: seq<Table>,
    listed: seq<Table>,
    validations: seq<Validation>,
    tables: Tables,
    mapRows: seq<MapRow>,
    completedAt: string)

  /** Sizes of the rendered literals, which decide where the chunks break, and of whole statements. */
  datatype Rendering = Rendering(
    mapBytes: MapRow -> nat, exactBytes: (Table, Column, (seq<Cell>, Cell)) -> nat, statementBytes: Statement -> nat)

  /** A value is shipped exactly when its text includes some new value. */
  predicate Shipped(mapRows: seq<MapRow>, cell: Cell) {
    exists row | row in mapRows :: Includes(CellText(cell), row.newValue)
  }

  function ExactRows(run: LocalRun, table: Table, column: Column, rows: seq<Row>): seq<(seq<Cell>, Cell)> {
    if rows == [] then []
    else
      var cell := Field(rows[0], column);
      var rest := ExactRows(run, table, column, rows[1..]);
      if cell != Null && Shipped(run.mapRows, cell) then [(KeyOf(run.schema, table, rows[0]), cell)] + rest else rest
  }

  function ChunksOrNone<T>(fragments: seq<T>, bytes: T -> nat): seq<seq<T>> {
    match Chunks(fragments, bytes)
    case Some(chunks) => chunks
    case None => []
  }

  function MapChunks(run: LocalRun, rendering: Rendering): seq<seq<MapRow>> {
    ChunksOrNone(run.mapRows, rendering.mapBytes)
  }

  function ExactChunks(run: LocalRun, rendering: Rendering, table: Table, column: Column): seq<seq<(seq<Cell>, Cell)>> {
    ChunksOrNone(ExactRows(run, table, column, run.tables[table]), entry => rendering.exactBytes(table, column, entry))
  }

  /** The markers are set elsewhere. */
  predicate NoMarkers(plan: seq<Statement>) {
    forall s | s in plan :: !s.MarkValidated? && !s.MarkCompleted?
  }

  function InsertStatements(chunks: seq<seq<MapRow>>): (plan: seq<Statement>)
    ensures NoMarkers(plan)
  {
    if chunks == [] then [] else [InsertMappings(chunks[0])] + InsertStatements(chunks[1..])
  }

  function ReviewStatements(chunks: seq<seq<MapRow>>): (plan: seq<Statement>)
    ensures NoMarkers(plan)
  {
    if chunks == [] then [] else [Assert(MappingsReviewed(chunks[0]))] + ReviewStatements(chunks[1..])
  }

  function ResolvingStatements(schema: Schema): (plan: seq<Statement>)
    ensures NoMarkers(plan)
  {
    if HasLegacyCreators(schema) then [ResolveCreators] else []
  }

  function FillingStatements(schema: Schema): (plan: seq<Statement>)
    ensures NoMarkers(plan)
  {
    if schema.HasColumn(AUDIT_EVENTS, EVENT_KEY) then [FillKeys] else []
  }

  function PreparationStatements(schema: Schema): (plan: seq<Statement>)
    ensures NoMarkers(plan)
  {
    ResolvingStatements(schema) + FillingStatements(schema)
  }

  function RenameStatements(renames: seq<Rename>): (plan: seq<Statement>)
    ensures NoMarkers(plan)
  {
    if renames == [] then [] else [RenameTarget(renames[0])] + RenameStatements(renames[1..])
  }

  function StageStatements(table: Table, column: Column, chunks: seq<seq<(seq<Cell>, Cell)>>): (plan: seq<Statement>)
    ensures NoMarkers(plan)
  {
    if chunks == [] then [] else [StageExact(table, column, chunks[0])] + StageStatements(table, column, chunks[1..])
  }

  /** Staging, applying and checking one embedded column; nothing when no value of it is shipped. */
  function ColumnStatements(run: LocalRun, rendering: Rendering, table: Table, column: Column): (plan: seq<Statement>)
    ensures NoMarkers(plan)
  {
    if ExactRows(run, table, column, run.tables[table]) == [] then []
    else
      StageStatements(table, column, ExactChunks(run, rendering, table, column))
      + [ApplyExact(table, column), Assert(ExactApplied(table, column))]
  }

  function ExactStatements(run: LocalRun, rendering: Rendering, columns: seq<(Table, Column)>): (plan: seq<Statement>)
    ensures NoMarkers(plan)
  {
    if columns == [] then []
    else ColumnStatements(run, rendering, columns[0].0, columns[0].1) + ExactStatements(run, rendering, columns[1..])
  }

  function CredentialStatements(rows: seq<Row>): (plan: seq<Statement>)
    ensures NoMarkers(plan)
  {
    if rows == [] then []
    else
      var id, hash, jti, enabled :=
        Field(rows[0], ID), Field(rows[0], TOKEN_HASH), Field(rows[0], TOKEN_JTI), Field(rows[0], ENABLED);
      [SetCredential(id, hash, jti, enabled), Assert(CredentialSet(id, hash, jti, enabled))]
      + CredentialStatements(rows[1..])
  }

  function RevocationStatements(run: LocalRun): (plan: seq<Statement>)
    ensures NoMarkers(plan)
  {
    if HasCredentials(run.schema)
    then CredentialStatements(run.tables[DOWNLOADERS]) + [Assert(CredentialsRevoked)] else []
  }

  function ClearStatements(tables: seq<Table>): (plan: seq<Statement>)
    ensures NoMarkers(plan)
  {
    if tables == [] then [] else [Clear(tables[0])] + ClearStatements(tables[1..])
  }

  function ResourceStatements(schema: Schema): (plan: seq<Statement>)
    ensures NoMarkers(plan)
  {
    if schema.HasColumn(OAUTH_CLIENT_RESOURCE, CLIENT_ID) then [DropResources] else []
  }

  function DropStatements(schema: Schema): (plan: seq<Statement>)
    ensures NoMarkers(plan)
  {
    if HasDynamicClients(schema) then ResourceStatements(schema) + [DropClients, DropRegistrations] else []
  }

  function RenamedChecks(run: LocalRun, renames: seq<Rename>): seq<Check> {
    if renames == [] then []
    else
      var r := renames[0];
      [ColumnRenamed(r, CountNewValues(AsMap(run.mapRows), r.kind, r.column, run.tables[r.table]))]
      + RenamedChecks(run, renames[1..])
  }

  function RowCountChecks(run: LocalRun, tables: seq<Table>): seq<Check> {
    if tables == [] then [] else [RowCount(tables[0], |run.tables[tables[0]]|)] + RowCountChecks(run, tables[1..])
  }

  function ValidationChecks(validations: seq<Validation>): seq<Check> {
    if validations == [] then [] else [Valid(validations[0])] + ValidationChecks(validations[1..])
  }

  function FinalChecks(run: LocalRun): seq<Check> {
    (if HasLegacyCreators(run.schema) then [CreatorsResolved] else [])
    + RenamedChecks(run, run.renames)
    + RowCountChecks(run, run.listed)
    + ValidationChecks(run.validations)
  }

  function CheckStatements(checks: seq<Check>): (plan: seq<Statement>)
    ensures NoMarkers(plan)
  {
    if checks == [] then [] else [Assert(checks[0])] + CheckStatements(checks[1..])
  }

  /** Copying the map. */
  function MappingStatements(run: LocalRun, rendering: Rendering): (plan: seq<Statement>)
    ensures NoMarkers(plan)
  {
    [CheckMarker]
    + InsertStatements(MapChunks(run, rendering))
    + [Assert(MappingCount(|run.mapRows|))]
    + ReviewStatements(MapChunks(run, rendering))
  }

  /** Rewriting cells. */
  function RewritingStatements(run: LocalRun, rendering: Rendering): (plan: seq<Statement>)
    ensures NoMarkers(plan)
  {
    PreparationStatements(run.schema)
    + RenameStatements(run.renames)
    + ExactStatements(run, rendering, run.embedded)
    + RevocationStatements(run)
  }

  /** Deleting rows, and checking the outcome. */
  function FinishingStatements(run: LocalRun): (plan: seq<Statement>)
    ensures NoMarkers(plan)
  {
    ClearStatements(run.emptied) + DropStatements(run.schema) + CheckStatements(FinalChecks(run))
  }

  /** Everything up to the markers. */
  function WorkStatements(run: LocalRun, rendering: Rendering): (plan: seq<Statement>)
    ensures NoMarkers(plan)
  {
    MappingStatements(run, rendering) + RewritingStatements(run, rendering) + FinishingStatements(run)
  }

  /** The whole plan: the version marker precedes the completion marker, which is the last change. */
  function PlanOf(run: LocalRun, rendering: Rendering): seq<Statement> {
    WorkStatements(run, rendering) + [MarkValidated, MarkCompleted(run.completedAt)]
  }

  /** The table has a stable key, and no literal of the column is too large for a statement. */
  predicate ColumnFits(run: LocalRun, rendering: Rendering, table: Table, column: Column) {
    && KeyColumns(run.schema, table) != []
    && Chunks(ExactRows(run, table, column, run.tables[table]), entry => rendering.exactBytes(table, column, entry)).Some?
  }

  predicate Plannable(run: LocalRun, rendering: Rendering) {
    && Chunks(run.mapRows, rendering.mapBytes).Some?
    && forall tc | tc in run.embedded :: ColumnFits(run, rendering, tc.0, tc.1)
  }

  const MAX_STATEMENT_BYTES: nat := 100_000

  const MAX_COMMANDS: nat := 1_000

  /** Two pragmas, four tables and the clearing of the marker check surround the statements modelled here. */
  const FIXED_COMMANDS: nat := 7

  predicate WithinLimits(plan: seq<Statement>, rendering: Rendering) {
    && (forall s | s in plan :: rendering.statementBytes(s) <= MAX_STATEMENT_BYTES)
    && |plan| + FIXED_COMMANDS <= MAX_COMMANDS
  }

  datatype PlanError =
    | NotValidated
    | StableKeyMissing(table: Table)
    | LiteralTooLarge
    | LimitExceeded

  /** The statements of one embedded column. */
  method PlanColumn(run: LocalRun, rendering: Rendering, table: Table, column: Column)
    returns (result: Result<seq<Statement>, PlanError>)
    ensures result.Ok? <==> ColumnFits(run, rendering, table, column)
    ensures result.Ok? ==> result.value == ColumnStatements(run, rendering, table, column)
  {
    if KeyColumns(run.schema, table) == [] {
      return Err(StableKeyMissing(table));
    }
    var rows := ExactRows(run, table, column, run.tables[table]);
    var chunks := ChunkSqlFragments(rows, entry => rendering.exactBytes(table, column, entry));
    if chunks.None? {
      return Err(LiteralTooLarge);
    }
    if rows == [] {
      return Ok([]);
    }
    var staged := StageStatements(table, column, chunks.value);
    result := Ok(staged + [ApplyExact(table, column), Assert(ExactApplied(table, column))]);
  }

  method PlanColumns(run: LocalRun, rendering: Rendering) returns (result: Result<seq<Statement>, PlanError>)
    ensures result.Ok? <==> forall tc | tc in run.embedded :: ColumnFits(run, rendering, tc.0, tc.1)
    ensures result.Ok? ==> result.value == ExactStatements(run, rendering, run.embedded)
  {
    hide ColumnFits, ColumnStatements;
    var exact: seq<Statement> := [];
    var i := 0;
    assert run.embedded[0..] == run.embedded;
    while i < |run.embedded|
      invariant 0 <= i <= |run.embedded|
      invariant exact + ExactStatements(run, rendering, run.embedded[i..]) ==
        ExactStatements(run, rendering, run.embedded)
      invariant forall j | 0 <= j < i :: ColumnFits(run, rendering, run.embedded[j].0, run.embedded[j].1)
    {
      var (table, column) := run.embedded[i];
      assert run.embedded[i] in run.embedded;
      var pushed := PlanColumn(run, rendering, table, column);
      if pushed.Err? {
        return Err(pushed.error);
      }
      assert run.embedded[i..][0] == run.embedded[i] && run.embedded[i..][1..] == run.embedded[i + 1..];
      exact := exact + pushed.value;
      i := i + 1;
    }
    result := Ok(exact);
  }

  /** `buildD1ApplySql`: refused without a validated local run, a stable key, literals that fit, or within the limits. */
  method BuildD1ApplySql(run: LocalRun, rendering: Rendering, version: string)
    returns (result: Result<seq<Statement>, PlanError>)
    ensures result.Ok? <==>
      run.completedAt != "" && version == VALIDATION_VERSION && Plannable(run, rendering)
      && WithinLimits(PlanOf(run, rendering), rendering)
    ensures result.Ok? ==> result.value == PlanOf(run, rendering)
    ensures run.completedAt == "" || version != VALIDATION_VERSION ==> result == Err(NotValidated)
  {
    if run.completedAt == "" || version != VALIDATION_VERSION {
      return Err(NotValidated);
    }
    var mapChunks := ChunkSqlFragments(run.mapRows, rendering.mapBytes);
    if mapChunks.None? {
      return Err(LiteralTooLarge);
    }
    var exact := PlanColumns(run, rendering);
    if exact.Err? {
      return Err(exact.error);
    }
    var statements := [CheckMarker];
    statements := statements + InsertStatements(mapChunks.value);
    statements := statements + [Assert(MappingCount(|run.mapRows|))];
    statements := statements + ReviewStatements(mapChunks.value);
    var rewriting := PreparationStatements(run.schema);
    rewriting := rewriting + RenameStatements(run.renames);
    rewriting := rewriting + exact.value;
    rewriting := rewriting + RevocationStatements(run);
    var finishing := ClearStatements(run.emptied);
    finishing := finishing + DropStatements(run.schema);
    finishing := finishing + CheckStatements(FinalChecks(run));
    var plan := statements + rewriting + finishing + [MarkValidated, MarkCompleted(run.completedAt)];
    result := if WithinLimits(plan, rendering) then Ok(plan) else Err(LimitExceeded);
  }
}
