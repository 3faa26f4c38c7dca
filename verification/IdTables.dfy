/** The governed database as tables of rows, and the row-by-row updates of the migration. */
module IdTables {
  import opened Wrappers
  import opened Text
  import opened IdRegistry
  import opened IdValues
  import opened JsonText
  import opened JsonReferences

  /** A stored value. A JSON column holds its text together with the document that text parses to. */
  datatype Cell = Null | Text(text: string) | Number(n: int) | Doc(source: string, tree: Json)

  type Row = map<Column, Cell>

  type Tables = tables: map<Table, seq<Row>> | forall t: Table :: t in tables ghost witness (map id: int | 0 <= id < 49 :: id as Table := [])

  datatype ForeignKey = ForeignKey(table: Table, column: Column, target: Table, targetColumn: Column)

  datatype Schema = Schema(columns: set<(Table, Column)>, keys: map<Table, seq<Column>>, foreignKeys: seq<ForeignKey>)
  {
    predicate HasColumn(table: Table, column: Column) {
      (table, column) in columns
    }
  }

  /** Every row of a table has exactly the columns the schema declares. */
  ghost predicate Conforms(schema: Schema, tables: Tables) {
    forall t, i, c | 0 <= i < |tables[t]| :: c in tables[t][i] <==> (t, c) in schema.columns
  }

  function MapRows(rows: seq<Row>, change: Row -> Row): (r: seq<Row>)
    ensures |r| == |rows|
    ensures forall i | 0 <= i < |rows| :: r[i] == change(rows[i])
  {
    seq(|rows|, i requires 0 <= i < |rows| => change(rows[i]))
  }

  function FilterRows(rows: seq<Row>, keep: Row -> bool): (r: seq<Row>)
    ensures forall row | row in r :: row in rows && keep(row)
  {
    if rows == [] then []
    else if keep(rows[0]) then [rows[0]] + FilterRows(rows[1..], keep)
    else FilterRows(rows[1..], keep)
  }

  function Field(row: Row, column: Column): Cell {
    if column in row then row[column] else Null
  }

  // Direct columns.

  function RenamedCell(m: IdMap, kind: Kind, cell: Cell): Cell {
    if cell.Text? then Text(Renamed(m, kind, cell.text)) else cell
  }

  function RenamedRow(m: IdMap, kind: Kind, column: Column, row: Row): Row {
    if column in row then row[column := RenamedCell(m, kind, row[column])] else row
  }

  /** The single UPDATE of `updateColumn`: every row whose value is mapped takes the new value. */
  function RenameColumn(m: IdMap, kind: Kind, table: Table, column: Column, tables: Tables): Tables {
    tables[table := MapRows(tables[table], row => RenamedRow(m, kind, column, row))]
  }

  // Rows written before the identifiers change.

  const API_KEY_PREFIX: string := "api-key:"

  /** `LIKE 'api-key:%'`, which ignores ASCII case. */
  predicate NamesApiKey(cell: Cell) {
    cell.Text? && |cell.text| >= 8 && Lower(cell.text[..8]) == API_KEY_PREFIX
  }

  /** The owner column of the first key with this id. */
  function OwnerOfApiKey(keys: seq<Row>, id: string): Option<Cell> {
    if keys == [] then None
    else if Field(keys[0], ID) == Text(id) then Some(Field(keys[0], REFERENCE_ID))
    else OwnerOfApiKey(keys[1..], id)
  }

  /** A creator stored as an API key becomes the owner of that key; an unknown key is left alone. */
  function ResolvedCreatorRow(keys: seq<Row>, row: Row): Row {
    var creator := Field(row, CREATED_BY_USER_ID);
    if CREATED_BY_USER_ID in row && NamesApiKey(creator) && OwnerOfApiKey(keys, creator.text[8..]).Some? then
      row[CREATED_BY_USER_ID := OwnerOfApiKey(keys, creator.text[8..]).value]
    else row
  }

  function ResolveLegacyCreators(tables: Tables): Tables {
    var keys := tables[API_KEY];
    tables[DOWNLOAD_TASKS := MapRows(tables[DOWNLOAD_TASKS], row => ResolvedCreatorRow(keys, row))]
  }

  /** Some creator still names a key that does not exist. */
  predicate LegacyCreatorUnresolved(tables: Tables) {
    exists row | row in tables[DOWNLOAD_TASKS] ::
      NamesApiKey(Field(row, CREATED_BY_USER_ID))
      && OwnerOfApiKey(tables[API_KEY], Field(row, CREATED_BY_USER_ID).text[8..]).None?
  }

  predicate NeedsNewId(cell: Cell) {
    cell.Text? && (cell.text == "" || HasForeignChar(cell.text))
  }

  function EventKeyRow(row: Row): Row {
    if EVENT_KEY in row && row[EVENT_KEY] == Null && NeedsNewId(Field(row, ID)) then row[EVENT_KEY := Field(row, ID)] else row
  }

  /** Audit events without a key keep their old id as the key. */
  function FillEventKeys(tables: Tables): Tables {
    tables[AUDIT_EVENTS := MapRows(tables[AUDIT_EVENTS], row => EventKeyRow(row))]
  }

  // Embedded references.

  function PolymorphicCell(m: IdMap, typeKinds: map<string, Kind>, kindCell: Cell, cell: Cell): Cell {
    if cell.Text? && kindCell.Text? && kindCell.text in typeKinds then
      var key := (typeKinds[kindCell.text], cell.text);
      if key in m && m[key] != "" then Text(m[key]) else cell
    else cell
  }

  function DocumentCell(m: IdMap, source: Source, cell: Cell): Cell {
    if cell.Doc? then
      var tree := Rewrite(cell.tree, m, source, "");
      if Stringify(tree) != cell.source then Doc(Stringify(tree), tree) else cell
    else cell
  }

  function SegmentCell(m: IdMap, kind: Kind, cell: Cell): Cell {
    if cell.Text? then Text(ReplaceSegments(m, kind, cell.text)) else cell
  }

  function EventKeyCell(m: IdMap, targetType: Cell, cell: Cell): Cell {
    if targetType.Text? && targetType.text in ENTITY_TYPE_KINDS
    then SegmentCell(m, ENTITY_TYPE_KINDS[targetType.text], cell) else cell
  }

  function LedgerKeyCell(m: IdMap, cell: Cell): Cell {
    if !cell.Text? then cell
    else if StartsWith(cell.text, "opening:") || StartsWith(cell.text, "integrity-opening:") then
      SegmentCell(m, RowId(STORAGES), SegmentCell(m, RowId(ORGANIZATION), cell))
    else if StartsWith(cell.text, "matter:") then SegmentCell(m, RowId(MATTERS), cell)
    else if StartsWith(cell.text, "image:") then SegmentCell(m, RowId(IMAGE_HOSTINGS), cell)
    else cell
  }

  function FreePlanCell(m: IdMap, source: Cell, cell: Cell): Cell {
    if source == Text("free_plan") && cell.Text? && StartsWith(cell.text, "free_plan:")
    then SegmentCell(m, RowId(ORGANIZATION), cell) else cell
  }

  function UploadCreatorCell(m: IdMap, cell: Cell): Cell {
    if !cell.Text? then cell
    else if StartsWith(cell.text, "downloader:") then SegmentCell(m, RowId(DOWNLOADERS), cell)
    else RenamedCell(m, RowId(USER), cell)
  }

  /** How one embedded column is rewritten. */
  datatype Embedding =
    | Typed(typeColumn: Column, typeKinds: map<string, Kind>)
    | Document(source: Source)
    | EventKeys
    | LedgerKeys
    | FreePlanKeys
    | UploadCreators
    | Plain

  function EmbeddingOf(table: Table, column: Column): Embedding {
    var place := (table, column);
    if place == (AUDIT_EVENTS, TARGET_ID) then Typed(TARGET_TYPE, ENTITY_TYPE_KINDS)
    else if place == (AUDIT_EVENTS, ACTOR_REF) then Typed(ACTOR_TYPE, ACTOR_KINDS)
    else if place == (RESOURCE_CHANGES, SCOPE_ID) then Typed(SCOPE_TYPE, SCOPE_KINDS)
    else if place == (RESOURCE_CHANGES, RESOURCE_ID) then Typed(RESOURCE_TYPE, ENTITY_TYPE_KINDS)
    else if place == (NOTIFICATIONS, REF_ID) then Typed(REF_TYPE, NOTIFICATION_KINDS)
    else if place == (STORAGE_USAGE_LEDGER, RESOURCE_ID) then Typed(RESOURCE_TYPE, LEDGER_KINDS)
    else if place == (CLOUD_TRAFFIC_REPORTS, SOURCE_ID) then Typed(SOURCE, TRAFFIC_KINDS)
    else if place == (AUDIT_EVENTS, EVENT_KEY) then EventKeys
    else if place == (STORAGE_USAGE_LEDGER, EVENT_KEY) then LedgerKeys
    else if place == (ORG_QUOTA_ENTITLEMENTS, SOURCE_ID) then FreePlanKeys
    else if place == (OBJECT_UPLOAD_SESSIONS, CREATED_BY) then UploadCreators
    else if place in JSON_COLUMNS then Document(place)
    else Plain
  }

  /** The sibling column that decides what a value refers to. */
  function TypeColumnOf(embedding: Embedding): Column {
    match embedding
    case Typed(typeColumn, _) => typeColumn
    case EventKeys => TARGET_TYPE
    case _ => SOURCE
  }

  function EmbeddedValue(m: IdMap, embedding: Embedding, typeCell: Cell, cell: Cell): Cell {
    match embedding
    case Typed(_, typeKinds) => PolymorphicCell(m, typeKinds, typeCell, cell)
    case Document(source) => DocumentCell(m, source, cell)
    case EventKeys => EventKeyCell(m, typeCell, cell)
    case LedgerKeys => LedgerKeyCell(m, cell)
    case FreePlanKeys => FreePlanCell(m, typeCell, cell)
    case UploadCreators => UploadCreatorCell(m, cell)
    case Plain => cell
  }

  /** The rewritten value of one embedded column, from the row as it is. */
  function EmbeddedCell(m: IdMap, table: Table, column: Column, row: Row): Cell {
    var embedding := EmbeddingOf(table, column);
    EmbeddedValue(m, embedding, Field(row, TypeColumnOf(embedding)), Field(row, column))
  }

  function EmbeddedRow(m: IdMap, table: Table, column: Column, row: Row): Row {
    if column in row then row[column := EmbeddedCell(m, table, column, row)] else row
  }

  function RewriteColumn(m: IdMap, table: Table, column: Column, tables: Tables): Tables {
    tables[table := MapRows(tables[table], row => EmbeddedRow(m, table, column, row))]
  }

  /** The columns that name a type; none of them is ever rewritten. */
  predicate IsTypeColumn(column: Column) {
    column in {TARGET_TYPE, ACTOR_TYPE, SCOPE_TYPE, RESOURCE_TYPE, REF_TYPE, SOURCE}
  }

  lemma TypeColumnsNameTypes(table: Table, column: Column)
    ensures IsTypeColumn(TypeColumnOf(EmbeddingOf(table, column)))
  {
  }

  /** An embedded cell depends only on its own old value and on the type columns of its row. */
  lemma EmbeddedCellReadsItselfAndTypes(m: IdMap, table: Table, column: Column, a: Row, b: Row)
    requires Field(a, column) == Field(b, column)
    requires forall c | IsTypeColumn(c) :: Field(a, c) == Field(b, c)
    ensures EmbeddedCell(m, table, column, a) == EmbeddedCell(m, table, column, b)
  {
    TypeColumnsNameTypes(table, column);
  }

  // What a rewritten cell shows of the new values.

  function CellText(cell: Cell): string {
    match cell
    case Text(text) => text
    case Doc(source, _) => source
    case _ => ""
  }

  /** Equal, or two spellings of one document. */
  predicate SameCell(a: Cell, b: Cell) {
    a == b || (a.Doc? && b.Doc? && a.tree == b.tree)
  }

  lemma NewValueMentioned(m: IdMap, key: (Kind, string))
    requires key in m
    ensures MentionsNewValue(m, m[key])
  {
    IncludesWithin([], m[key], []);
    assert [] + m[key] + [] == m[key];
  }

  lemma SegmentCellMentions(m: IdMap, kind: Kind, cell: Cell)
    requires SegmentCell(m, kind, cell) != cell
    ensures MentionsNewValue(m, CellText(SegmentCell(m, kind, cell)))
  {
    ChangedSegmentsIncludeNewValue(m, kind, cell.text);
  }

  lemma SecondSegmentsMention(m: IdMap, first: Kind, second: Kind, cell: Cell)
    requires WellFormedMap(m)
    requires first.RowId? && second.RowId?
    requires SegmentCell(m, second, SegmentCell(m, first, cell)) != cell
    ensures MentionsNewValue(m, CellText(SegmentCell(m, second, SegmentCell(m, first, cell))))
  {
    SequentialIsSimultaneous(m, first, second, cell.text);
    var parts := Split(cell.text, ':');
    var both := seq(|parts|, i requires 0 <= i < |parts| =>
      if (first, parts[i]) in m then m[(first, parts[i])] else Renamed(m, second, parts[i]));
    JoinOfSplit(cell.text, ':');
    assert both != parts;
    var i :| 0 <= i < |parts| && both[i] != parts[i];
    JoinIncludesPart(both, ':', i);
    var key := if (first, parts[i]) in m then (first, parts[i]) else (second, parts[i]);
    assert key in m && Includes(Join(both, ':'), m[key]);
  }

  lemma DocumentCellMentions(m: IdMap, source: Source, cell: Cell)
    requires WellFormedMap(m)
    requires cell.Doc? && Rewrite(cell.tree, m, source, "") != cell.tree
    requires DocumentCell(m, source, cell) != cell
    ensures MentionsNewValue(m, CellText(DocumentCell(m, source, cell)))
  {
    ChangedDocumentMentionsNewValue(cell.tree, m, source, "");
  }

  lemma EmbeddedValueMentions(m: IdMap, embedding: Embedding, typeCell: Cell, cell: Cell)
    requires WellFormedMap(m)
    ensures var next := EmbeddedValue(m, embedding, typeCell, cell);
      SameCell(cell, next) || MentionsNewValue(m, CellText(next))
  {
    var next := EmbeddedValue(m, embedding, typeCell, cell);
    if next != cell {
      match embedding {
        case Typed(_, typeKinds) => NewValueMentioned(m, (typeKinds[typeCell.text], cell.text));
        case Document(source) =>
          if Rewrite(cell.tree, m, source, "") != cell.tree {
            DocumentCellMentions(m, source, cell);
          }
        case EventKeys => SegmentCellMentions(m, ENTITY_TYPE_KINDS[typeCell.text], cell);
        case LedgerKeys =>
          if StartsWith(cell.text, "opening:") || StartsWith(cell.text, "integrity-opening:") {
            SecondSegmentsMention(m, RowId(ORGANIZATION), RowId(STORAGES), cell);
          } else if StartsWith(cell.text, "matter:") {
            SegmentCellMentions(m, RowId(MATTERS), cell);
          } else {
            SegmentCellMentions(m, RowId(IMAGE_HOSTINGS), cell);
          }
        case FreePlanKeys => SegmentCellMentions(m, RowId(ORGANIZATION), cell);
        case UploadCreators =>
          if StartsWith(cell.text, "downloader:") {
            SegmentCellMentions(m, RowId(DOWNLOADERS), cell);
          } else {
            NewValueMentioned(m, (RowId(USER), cell.text));
          }
      }
    }
  }

  /**
   * A rewritten cell either prints a new value - the plan's test for shipping it - or still means what it meant.
   */
  lemma EmbeddedCellMentions(m: IdMap, table: Table, column: Column, row: Row)
    requires WellFormedMap(m)
    ensures var next := EmbeddedCell(m, table, column, row);
      SameCell(Field(row, column), next) || MentionsNewValue(m, CellText(next))
  {
    var embedding := EmbeddingOf(table, column);
    EmbeddedValueMentions(m, embedding, Field(row, TypeColumnOf(embedding)), Field(row, column));
  }
}
