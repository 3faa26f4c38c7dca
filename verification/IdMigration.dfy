/** The local run: what every pass does to the tables, and what its outcome is, cell by cell. */
module IdMigration {
  import opened Wrappers
  import opened IdRegistry
  import opened IdValues
  import opened JsonReferences
  import opened IdTables

  // The two preparing updates, which move old ids before anything is renamed.

  predicate HasLegacyCreators(schema: Schema) {
    && schema.HasColumn(DOWNLOAD_TASKS, CREATED_BY_USER_ID)
    && schema.HasColumn(API_KEY, ID)
    && schema.HasColumn(API_KEY, REFERENCE_ID)
  }

  function PreparedTables(schema: Schema, tables: Tables): Tables {
    var resolved := if HasLegacyCreators(schema) then ResolveLegacyCreators(tables) else tables;
    if schema.HasColumn(AUDIT_EVENTS, EVENT_KEY) then FillEventKeys(resolved) else resolved
  }

  // Direct columns.

  datatype Rename = Rename(kind: Kind, table: Table, column: Column)

  function RenamesOf(schema: Schema, kind: Kind, targets: seq<Reference>): seq<Rename> {
    if targets == [] then []
    else
      var rest := RenamesOf(schema, kind, targets[1..]);
      if schema.HasColumn(targets[0].table, targets[0].column)
      then [Rename(kind, targets[0].table, targets[0].column)] + rest
      else rest
  }

  /** Every existing target of every kind, in the order they are updated. */
  function RenameList(schema: Schema, kinds: seq<Kind>): seq<Rename> {
    if kinds == [] then [] else RenamesOf(schema, kinds[0], Targets(kinds[0])) + RenameList(schema, kinds[1..])
  }

  function RenameAll(m: IdMap, renames: seq<Rename>, tables: Tables): Tables {
    if renames == [] then tables
    else
      var last := renames[|renames| - 1];
      RenameColumn(m, last.kind, last.table, last.column, RenameAll(m, renames[..|renames| - 1], tables))
  }

  predicate IsRenamed(renames: seq<Rename>, table: Table, column: Column) {
    exists r | r in renames :: r.table == table && r.column == column
  }

  /** Each renamed column is renamed under the kind that owns it. */
  ghost predicate OwnedRenames(renames: seq<Rename>) {
    forall r | r in renames :: Owner(r.table, r.column) == Some(r.kind)
  }

  lemma {:induction false} RenamesOfAreTargets(schema: Schema, kind: Kind, targets: seq<Reference>)
    ensures forall r :: r in RenamesOf(schema, kind, targets) <==>
      (r.kind == kind && schema.HasColumn(r.table, r.column)
       && exists t | t in targets :: t.table == r.table && t.column == r.column)
  {
    if targets != [] {
      RenamesOfAreTargets(schema, kind, targets[1..]);
      assert targets == [targets[0]] + targets[1..];
    }
  }

  lemma {:induction false} RenameListIsOwned(schema: Schema, kinds: seq<Kind>)
    ensures OwnedRenames(RenameList(schema, kinds))
    ensures forall r | r in RenameList(schema, kinds) :: schema.HasColumn(r.table, r.column)
  {
    if kinds != [] {
      RenameListIsOwned(schema, kinds[1..]);
      RenamesOfAreTargets(schema, kinds[0], Targets(kinds[0]));
      forall r | r in RenamesOf(schema, kinds[0], Targets(kinds[0]))
        ensures Owner(r.table, r.column) == Some(r.kind) && schema.HasColumn(r.table, r.column)
      {
        var t :| t in Targets(kinds[0]) && t.table == r.table && t.column == r.column;
        TargetsHaveOneOwner(kinds[0], t);
      }
    }
  }

  lemma {:induction false} RenameListIsComplete(schema: Schema, kinds: seq<Kind>, kind: Kind, target: Reference)
    requires kind in kinds && target in Targets(kind) && schema.HasColumn(target.table, target.column)
    ensures Rename(kind, target.table, target.column) in RenameList(schema, kinds)
  {
    if kinds[0] == kind {
      RenamesOfAreTargets(schema, kind, Targets(kind));
    } else {
      RenameListIsComplete(schema, kinds[1..], kind, target);
    }
  }

  /** The cell after all passes over direct columns, wherever and however often its column is listed. */
  function OwnedCell(m: IdMap, renames: seq<Rename>, table: Table, column: Column, cell: Cell): Cell {
    if IsRenamed(renames, table, column) && Owner(table, column).Some?
    then RenamedCell(m, Owner(table, column).value, cell) else cell
  }

  ghost predicate SameShape(a: Tables, b: Tables) {
    forall t :: |a[t]| == |b[t]| && forall i | 0 <= i < |a[t]| :: a[t][i].Keys == b[t][i].Keys
  }

  lemma RenamedCellIsSettled(m: IdMap, kind: Kind, cell: Cell)
    requires WellFormedMap(m)
    ensures RenamedCell(m, kind, RenamedCell(m, kind, cell)) == RenamedCell(m, kind, cell)
  {
    if cell.Text? {
      RenamingIsIdempotent(m, kind, cell.text);
    }
  }

  /** What one UPDATE over a column does: every cell of that column, and nothing else. */
  lemma RenameColumnCells(m: IdMap, kind: Kind, table: Table, column: Column, tables: Tables)
    ensures var after := RenameColumn(m, kind, table, column, tables);
      && SameShape(tables, after)
      && forall t, i, c | 0 <= i < |tables[t]| && c in tables[t][i] ::
        after[t][i][c] == if t == table && c == column then RenamedCell(m, kind, tables[t][i][c]) else tables[t][i][c]
  {
  }

  lemma {:induction false} RenameAllCells(m: IdMap, renames: seq<Rename>, tables: Tables)
    requires WellFormedMap(m) && OwnedRenames(renames)
    ensures SameShape(tables, RenameAll(m, renames, tables))
    ensures forall t, i, c | 0 <= i < |tables[t]| && c in tables[t][i] ::
      RenameAll(m, renames, tables)[t][i][c] == OwnedCell(m, renames, t, c, tables[t][i][c])
  {
    if renames != [] {
      var init, last := renames[..|renames| - 1], renames[|renames| - 1];
      assert renames == init + [last];
      RenameAllCells(m, init, tables);
      var before := RenameAll(m, init, tables);
      RenameColumnCells(m, last.kind, last.table, last.column, before);
      forall t, i, c | 0 <= i < |tables[t]| && c in tables[t][i]
        ensures RenameAll(m, renames, tables)[t][i][c] == OwnedCell(m, renames, t, c, tables[t][i][c])
      {
        OwnedCellExtends(m, init, last, t, c, tables[t][i][c]);
      }
    }
  }

  lemma OwnedCellExtends(m: IdMap, init: seq<Rename>, last: Rename, t: Table, c: Column, cell: Cell)
    requires WellFormedMap(m) && OwnedRenames(init + [last])
    ensures var before := OwnedCell(m, init, t, c, cell);
      OwnedCell(m, init + [last], t, c, cell) ==
      if t == last.table && c == last.column then RenamedCell(m, last.kind, before) else before
  {
    assert last in init + [last];
    RenamedCellIsSettled(m, last.kind, cell);
    if t != last.table || c != last.column {
      assert IsRenamed(init + [last], t, c) <==> IsRenamed(init, t, c);
    }
  }

  // Embedded columns.

  function RewriteAll(m: IdMap, columns: seq<(Table, Column)>, tables: Tables): Tables {
    if columns == [] then tables
    else
      var last := columns[|columns| - 1];
      RewriteColumn(m, last.0, last.1, RewriteAll(m, columns[..|columns| - 1], tables))
  }

  ghost predicate EachOnce(columns: seq<(Table, Column)>) {
    forall i, j | 0 <= i < j < |columns| :: columns[i] != columns[j]
  }

  lemma RewriteColumnCells(m: IdMap, table: Table, column: Column, tables: Tables)
    ensures var after := RewriteColumn(m, table, column, tables);
      && SameShape(tables, after)
      && forall t, i, c | 0 <= i < |tables[t]| && c in tables[t][i] ::
        after[t][i][c] ==
        if t == table && c == column then EmbeddedCell(m, table, column, tables[t][i]) else tables[t][i][c]
  {
  }

  function RewrittenCell(m: IdMap, columns: seq<(Table, Column)>, table: Table, column: Column, row: Row): Cell {
    if (table, column) in columns then EmbeddedCell(m, table, column, row) else Field(row, column)
  }

  /** The passes over embedded columns amount to one simultaneous rewrite. */
  lemma {:induction false} RewriteAllCells(m: IdMap, columns: seq<(Table, Column)>, tables: Tables)
    requires EachOnce(columns)
    requires forall tc | tc in columns :: !IsTypeColumn(tc.1)
    ensures SameShape(tables, RewriteAll(m, columns, tables))
    ensures forall t, i, c | 0 <= i < |tables[t]| && c in tables[t][i] ::
      RewriteAll(m, columns, tables)[t][i][c] == RewrittenCell(m, columns, t, c, tables[t][i])
  {
    if columns != [] {
      var init, last := columns[..|columns| - 1], columns[|columns| - 1];
      assert columns == init + [last];
      assert EachOnce(init) && last !in init;
      RewriteAllCells(m, init, tables);
      var before := RewriteAll(m, init, tables);
      RewriteColumnCells(m, last.0, last.1, before);
      forall t, i, c | 0 <= i < |tables[t]| && c in tables[t][i]
        ensures RewriteAll(m, columns, tables)[t][i][c] == RewrittenCell(m, columns, t, c, tables[t][i])
      {
        RewrittenCellExtends(m, init, last, t, c, tables[t][i], before[t][i]);
      }
    }
  }

  lemma RewrittenCellExtends(
    m: IdMap, init: seq<(Table, Column)>, last: (Table, Column), t: Table, c: Column, row: Row, before: Row)
    requires last !in init && forall tc | tc in init :: !IsTypeColumn(tc.1)
    requires before.Keys == row.Keys && c in row
    requires forall k | k in row :: before[k] == RewrittenCell(m, init, t, k, row)
    ensures RewrittenCell(m, init + [last], t, c, row) ==
      if t == last.0 && c == last.1 then EmbeddedCell(m, t, c, before) else before[c]
  {
    if (t, c) == last {
      forall k | IsTypeColumn(k) ensures Field(before, k) == Field(row, k) {
        assert (t, k) !in init;
      }
      EmbeddedCellReadsItselfAndTypes(m, t, c, before, row);
    } else {
      assert (t, c) in init + [last] <==> (t, c) in init;
    }
  }

  /** Polymorphic columns first, then JSON documents, then structured keys. */
  const POLYMORPHIC_COLUMNS: seq<(Table, Column)> := [
    (AUDIT_EVENTS, TARGET_ID), (AUDIT_EVENTS, ACTOR_REF), (RESOURCE_CHANGES, SCOPE_ID), (RESOURCE_CHANGES, RESOURCE_ID),
    (NOTIFICATIONS, REF_ID), (STORAGE_USAGE_LEDGER, RESOURCE_ID), (CLOUD_TRAFFIC_REPORTS, SOURCE_ID)]

  const STRUCTURED_COLUMNS: seq<(Table, Column)> := [
    (AUDIT_EVENTS, EVENT_KEY), (STORAGE_USAGE_LEDGER, EVENT_KEY), (ORG_QUOTA_ENTITLEMENTS, SOURCE_ID),
    (OBJECT_UPLOAD_SESSIONS, CREATED_BY)]

  const LOCAL_REWRITE_ORDER: seq<(Table, Column)> := POLYMORPHIC_COLUMNS + JSON_COLUMNS + STRUCTURED_COLUMNS

  /** The position of a column in that order, which shows that no column is visited twice. */
  function RewriteRank(table: Table, column: Column): nat {
    if column == TARGET_ID then 0
    else if column == ACTOR_REF then 1
    else if column == SCOPE_ID then 2
    else if column == RESOURCE_ID then (if table == RESOURCE_CHANGES then 3 else 5)
    else if column == REF_ID then 4
    else if column == SOURCE_ID then (if table == CLOUD_TRAFFIC_REPORTS then 6 else 18)
    else if column == METADATA then
      (if table == API_KEY then 7 else if table == AUDIT_EVENTS then 8 else if table == NOTIFICATIONS then 9
       else if table == BACKGROUND_JOBS then 10 else if table == ORG_QUOTA_ENTITLEMENTS then 13
       else if table == RESOURCE_CHANGES then 14 else 15)
    else if column == RESULT_METADATA then 11
    else if column == EVENTS then 12
    else if column == EVENT_KEY then (if table == AUDIT_EVENTS then 16 else 17)
    else 19
  }

  ghost predicate HasRank(column: (Table, Column), rank: nat) {
    RewriteRank(column.0, column.1) == rank && !IsTypeColumn(column.1)
  }

  lemma PolymorphicRanks(i: nat)
    requires i < |POLYMORPHIC_COLUMNS|
    ensures HasRank(POLYMORPHIC_COLUMNS[i], i)
  {
  }

  lemma JsonRanks(i: nat)
    requires i < |JSON_COLUMNS|
    ensures HasRank(JSON_COLUMNS[i], 7 + i)
  {
  }

  lemma StructuredRanks(i: nat)
    requires i < |STRUCTURED_COLUMNS|
    ensures HasRank(STRUCTURED_COLUMNS[i], 16 + i)
  {
  }

  lemma LocalOrderHasRanks(i: nat)
    requires i < |LOCAL_REWRITE_ORDER|
    ensures HasRank(LOCAL_REWRITE_ORDER[i], i)
  {
    if i < 7 {
      PolymorphicRanks(i);
    } else if i < 16 {
      JsonRanks(i - 7);
    } else {
      StructuredRanks(i - 16);
    }
  }

  lemma LocalOrderVisitsEachOnce()
    ensures EachOnce(LOCAL_REWRITE_ORDER)
    ensures forall tc | tc in LOCAL_REWRITE_ORDER :: !IsTypeColumn(tc.1)
  {
    forall i: nat | i < |LOCAL_REWRITE_ORDER| ensures HasRank(LOCAL_REWRITE_ORDER[i], i) {
      LocalOrderHasRanks(i);
    }
  }

  /** The local run and the plan visit the same embedded columns, in different orders. */
  lemma LocalOrderCoversEmbedded(table: Table, column: Column)
    ensures (table, column) in LOCAL_REWRITE_ORDER <==> (table, column) in EMBEDDED_COLUMNS
  {
  }

  // Credentials and deletions.

  predicate HasCredentials(schema: Schema) {
    && schema.HasColumn(DOWNLOADERS, ID)
    && schema.HasColumn(DOWNLOADERS, TOKEN_HASH)
    && schema.HasColumn(DOWNLOADERS, TOKEN_JTI)
    && schema.HasColumn(DOWNLOADERS, ENABLED)
  }

  predicate IsCredential(column: Column) {
    column == TOKEN_HASH || column == TOKEN_JTI || column == ENABLED
  }

  function CredentialRow(row: Row, tokenHash: Cell, tokenJti: Cell, enabled: Cell): Row {
    row[TOKEN_HASH := tokenHash][TOKEN_JTI := tokenJti][ENABLED := enabled]
  }

  /** The fresh token id drawn for a row. */
  function TokenFor(tokens: seq<string>, i: nat): string {
    if i < |tokens| then tokens[i] else ""
  }

  /** Every downloader loses its hash, takes a fresh token id, and is disabled. */
  function RevokeCredentials(tokens: seq<string>, rows: seq<Row>): (r: seq<Row>)
    ensures |r| == |rows|
    ensures forall i | 0 <= i < |rows| :: r[i] == CredentialRow(rows[i], Text(""), Text(TokenFor(tokens, i)), Number(0))
  {
    seq(|rows|, i requires 0 <= i < |rows| => CredentialRow(rows[i], Text(""), Text(TokenFor(tokens, i)), Number(0)))
  }

  function RevokedTables(schema: Schema, tokens: seq<string>, tables: Tables): Tables {
    if HasCredentials(schema) then tables[DOWNLOADERS := RevokeCredentials(tokens, tables[DOWNLOADERS])] else tables
  }

  function ClearTables(emptied: seq<Table>, tables: Tables): (r: Tables)
    ensures forall t :: r[t] == if t in emptied then [] else tables[t]
  {
    map t | t in tables :: if t in emptied then [] else tables[t]
  }

  predicate IsRegistered(registrations: seq<Row>, row: Row) {
    var client := Field(row, CLIENT_ID);
    client != Null && exists reg | reg in registrations :: Field(reg, CLIENT_ID) == client
  }

  function DropRegistered(registrations: seq<Row>, rows: seq<Row>): seq<Row> {
    FilterRows(rows, row => !IsRegistered(registrations, row))
  }

  predicate HasDynamicClients(schema: Schema) {
    schema.HasColumn(OAUTH_CLIENT_REGISTRATION, CLIENT_ID) && schema.HasColumn(OAUTH_CLIENT, CLIENT_ID)
  }

  /** Dynamically registered clients go, with their resources and their registrations. */
  function DropDynamicClients(schema: Schema, tables: Tables): Tables {
    if !HasDynamicClients(schema) then tables
    else
      var registrations := tables[OAUTH_CLIENT_REGISTRATION];
      var resources :=
        if schema.HasColumn(OAUTH_CLIENT_RESOURCE, CLIENT_ID)
        then DropRegistered(registrations, tables[OAUTH_CLIENT_RESOURCE]) else tables[OAUTH_CLIENT_RESOURCE];
      tables[OAUTH_CLIENT_RESOURCE := resources]
            [OAUTH_CLIENT := DropRegistered(registrations, tables[OAUTH_CLIENT])]
            [OAUTH_CLIENT_REGISTRATION := []]
  }

  /** All passes of the local run once the map is known: `renames` and `order` list the columns to visit. */
  function MigratedTables(
    schema: Schema, m: IdMap, tokens: seq<string>, renames: seq<Rename>, order: seq<(Table, Column)>, emptied: seq<Table>,
    tables: Tables): Tables
  {
    var renamed := RenameAll(m, renames, PreparedTables(schema, tables));
    var revoked := RevokedTables(schema, tokens, RewriteAll(m, order, renamed));
    DropDynamicClients(schema, ClearTables(emptied, revoked))
  }
}
