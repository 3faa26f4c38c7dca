/**
 * The outcome of a local run described by itself: which rows of the original tables remain, and what every cell of every
 * column becomes. None of the passes of the run is mentioned in the description.
 */
module LocalRows {
  import opened Wrappers
  import opened IdRegistry
  import opened IdValues
  import opened IdMapTable
  import opened JsonLeaves
  import opened IdTables
  import opened IdMigration
  import opened IdCollection
  import opened IdEmbedding
  import opened D1Plan
  import opened D1Progress
  import opened LocalOutcome
  import opened LocalDatabase
  import opened LocalImage
  import opened LocalSuccess
  import opened LocalTokens

  // Rows that remain.

  /** Rows of the invalidated tables go, and dynamically registered clients with their resources and registrations. */
  ghost predicate IsDeleted(schema: Schema, tables: Tables, table: Table, row: Row) {
    || table in INVALIDATED_TABLES
    || (HasDynamicClients(schema)
        && (table == OAUTH_CLIENT_REGISTRATION
            || ((table == OAUTH_CLIENT || (table == OAUTH_CLIENT_RESOURCE && schema.HasColumn(table, CLIENT_ID)))
                && Field(row, CLIENT_ID) != Null
                && exists registration | registration in tables[OAUTH_CLIENT_REGISTRATION] ::
                     Field(registration, CLIENT_ID) == Field(row, CLIENT_ID))))
  }

  predicate IsIncreasing(places: seq<nat>) {
    forall i, j | 0 <= i < j < |places| :: places[i] < places[j]
  }

  /** The places, in order, of exactly the rows that are kept. */
  ghost predicate ArePlaces<T(!new)>(rows: seq<T>, keep: T -> bool, places: seq<nat>) {
    && IsIncreasing(places)
    && forall k: nat :: k in places <==> k < |rows| && keep(rows[k])
  }

  ghost predicate AreTaken(rows: seq<Row>, places: seq<nat>, taken: seq<Row>) {
    |taken| == |places| && forall i: nat | i < |places| :: places[i] < |rows| && taken[i] == rows[places[i]]
  }

  function Shifted(places: seq<nat>): (r: seq<nat>)
    ensures |r| == |places| && forall i | 0 <= i < |places| :: r[i] == places[i] + 1
  {
    seq(|places|, i requires 0 <= i < |places| => places[i] + 1)
  }

  lemma {:induction false} FilteredRowsArePlaced(rows: seq<Row>, keep: Row -> bool) returns (places: seq<nat>)
    ensures ArePlaces(rows, keep, places) && AreTaken(rows, places, FilterRows(rows, keep))
    decreases |rows|
  {
    if rows == [] {
      places := [];
    } else {
      var rest := FilteredRowsArePlaced(rows[1..], keep);
      var shifted := Shifted(rest);
      places := if keep(rows[0]) then [0] + shifted else shifted;
      PlacesExtend(rows, keep, rest, shifted, places);
      TakenExtend(rows, keep, rest, shifted, places);
    }
  }

  lemma ShiftedPlaces(rest: seq<nat>, shifted: seq<nat>)
    requires shifted == Shifted(rest)
    ensures forall k: nat :: k in shifted <==> k > 0 && k - 1 in rest
  {
    forall k: nat ensures k in shifted <==> k > 0 && k - 1 in rest {
      if k in shifted {
        var i :| 0 <= i < |shifted| && shifted[i] == k;
        assert rest[i] == k - 1;
      }
      if k > 0 && k - 1 in rest {
        var i :| 0 <= i < |rest| && rest[i] == k - 1;
        assert shifted[i] == k;
      }
    }
  }

  lemma PlacesExtend(rows: seq<Row>, keep: Row -> bool, rest: seq<nat>, shifted: seq<nat>, places: seq<nat>)
    requires rows != [] && ArePlaces(rows[1..], keep, rest) && shifted == Shifted(rest)
    requires places == if keep(rows[0]) then [0] + shifted else shifted
    ensures ArePlaces(rows, keep, places)
  {
    ShiftedPlaces(rest, shifted);
    forall k: nat ensures k in places <==> k < |rows| && keep(rows[k]) {
      assert k in places <==> (k == 0 && keep(rows[0])) || k in shifted;
      if k > 0 && k < |rows| {
        assert rows[1..][k - 1] == rows[k];
      }
    }
  }

  lemma TakenExtend(rows: seq<Row>, keep: Row -> bool, rest: seq<nat>, shifted: seq<nat>, places: seq<nat>)
    requires rows != [] && AreTaken(rows[1..], rest, FilterRows(rows[1..], keep)) && shifted == Shifted(rest)
    requires places == if keep(rows[0]) then [0] + shifted else shifted
    ensures AreTaken(rows, places, FilterRows(rows, keep))
  {
    var tail := FilterRows(rows[1..], keep);
    assert FilterRows(rows, keep) == if keep(rows[0]) then [rows[0]] + tail else tail;
    hide FilterRows;
    TakenShifted(rows, rest, shifted, tail);
    if keep(rows[0]) {
      TakenWithFirst(rows, shifted, tail);
    }
  }

  lemma TakenShifted(rows: seq<Row>, rest: seq<nat>, shifted: seq<nat>, tail: seq<Row>)
    requires rows != [] && AreTaken(rows[1..], rest, tail) && shifted == Shifted(rest)
    ensures AreTaken(rows, shifted, tail)
  {
    forall i: nat | i < |shifted| ensures shifted[i] < |rows| && tail[i] == rows[shifted[i]] {
      assert rows[1..][rest[i]] == rows[shifted[i]];
    }
  }

  lemma TakenWithFirst(rows: seq<Row>, shifted: seq<nat>, tail: seq<Row>)
    requires rows != [] && AreTaken(rows, shifted, tail)
    ensures AreTaken(rows, [0] + shifted, [rows[0]] + tail)
  {
  }

  function AllPlaces(n: nat): (places: seq<nat>)
    ensures |places| == n && forall i | 0 <= i < n :: places[i] == i
  {
    seq(n, i requires 0 <= i => i)
  }

  /** What remains of a table are the rows that are not deleted, in their order. */
  lemma RemainingArePlaced(schema: Schema, tables: Tables, table: Table) returns (places: seq<nat>)
    ensures IsIncreasing(places)
    ensures forall k: nat :: k in places <==> k < |tables[table]| && !IsDeleted(schema, tables, table, tables[table][k])
    ensures AreTaken(tables[table], places, Remaining(schema, tables)[table])
  {
    hide Remaining, INVALIDATED_TABLES, HasDynamicClients, FilterRows;
    var rows := tables[table];
    RemainingRows(schema, tables, table);
    if table in INVALIDATED_TABLES || (table == OAUTH_CLIENT_REGISTRATION && HasDynamicClients(schema)) {
      places := [];
    } else if LosesClients(schema, table) {
      var registrations := tables[OAUTH_CLIENT_REGISTRATION];
      places := FilteredRowsArePlaced(rows, row => !IsRegistered(registrations, row));
      forall k: nat | k < |rows| ensures IsDeleted(schema, tables, table, rows[k]) <==> IsRegistered(registrations, rows[k]) {
      }
    } else {
      places := AllPlaces(|rows|);
      forall k: nat ensures k in places <==> k < |rows| {
        if k < |rows| {
          assert places[k] == k;
        }
      }
    }
  }

  // Cells.

  /** What a cell of a prepared row becomes: a credential, a value some kind owns, or an embedded reference. */
  ghost predicate IsNewCell(
    schema: Schema, m: IdMap, tokens: seq<string>, table: Table, i: nat, column: Column, row: Row, after: Cell)
  {
    if table == DOWNLOADERS && HasCredentials(schema) && IsCredential(column) then
      && (column == TOKEN_HASH ==> after == Text("")) && (column == ENABLED ==> after == Number(0))
      && (column == TOKEN_JTI ==> after == Text(if i < |tokens| then tokens[i] else ""))
    else
      && (forall kind, target | IsOwnTarget(kind, target, table, column) :: CellReplaced(m, kind, Field(row, column), after))
      && ((forall kind, target :: !IsOwnTarget(kind, target, table, column)) ==> IsEmbeddedImage(m, table, column, row, after))
  }

  /** The column is the primary column of a governed kind, or one of its declared references. */
  predicate IsOwnTarget(kind: Kind, target: Reference, table: Table, column: Column) {
    kind in VALUE_KINDS && target in Targets(kind) && target.table == table && target.column == column
  }

  lemma {:induction false} RenamedIsTarget(schema: Schema, kinds: seq<Kind>, table: Table, column: Column)
    returns (kind: Kind, target: Reference)
    requires IsRenamed(RenameList(schema, kinds), table, column)
    ensures kind in kinds && target in Targets(kind) && target.table == table && target.column == column
  {
    var list := RenamesOf(schema, kinds[0], Targets(kinds[0]));
    if IsRenamed(list, table, column) {
      kind := kinds[0];
      RenamesOfAreTargets(schema, kind, Targets(kind));
      var r :| r in list && r.table == table && r.column == column;
      target :| target in Targets(kind) && target.table == r.table && target.column == r.column;
    } else {
      var r :| r in RenameList(schema, kinds) && r.table == table && r.column == column;
      assert r in RenameList(schema, kinds[1..]);
      kind, target := RenamedIsTarget(schema, kinds[1..], table, column);
    }
  }

  lemma RenamedIsOwnTarget(schema: Schema, table: Table, column: Column)
    ensures IsRenamed(RenameList(schema, VALUE_KINDS), table, column) ==>
      exists kind, target :: IsOwnTarget(kind, target, table, column)
  {
    hide VALUE_KINDS, Targets, RenameList;
    if IsRenamed(RenameList(schema, VALUE_KINDS), table, column) {
      var kind, target := RenamedIsTarget(schema, VALUE_KINDS, table, column);
      assert IsOwnTarget(kind, target, table, column);
    }
  }

  lemma UnvisitedColumnsStay(m: IdMap, table: Table, column: Column, row: Row)
    requires (table, column) !in LOCAL_REWRITE_ORDER
    ensures EmbeddedCell(m, table, column, row) == Field(row, column)
  {
    hide POLYMORPHIC_REFERENCES, ENTITY_TYPE_KINDS, ACTOR_KINDS, SCOPE_KINDS, NOTIFICATION_KINDS, LEDGER_KINDS, TRAFFIC_KINDS,
      JSON_COLUMNS;
    VisitedColumns(table, column);
  }

  lemma VisitedColumns(table: Table, column: Column)
    ensures (table, column) in LOCAL_REWRITE_ORDER <==>
      (table, column) in POLYMORPHIC_COLUMNS || (table, column) in JSON_COLUMNS || (table, column) in STRUCTURED_COLUMNS
  {
    hide POLYMORPHIC_COLUMNS, JSON_COLUMNS, STRUCTURED_COLUMNS;
  }

  lemma UnownedCellIsEmbedded(
    schema: Schema, m: IdMap, tokens: seq<string>, table: Table, i: nat, column: Column, row: Row)
    requires !IsRevokedColumn(schema, table, column) && forall kind, target :: !IsOwnTarget(kind, target, table, column)
    ensures NewCell(schema, m, tokens, table, i, column, row) == EmbeddedCell(m, table, column, row)
  {
    hide LOCAL_REWRITE_ORDER, VALUE_KINDS, Targets, EmbeddedCell, RenameList, Owner;
    if (table, column) !in LOCAL_REWRITE_ORDER {
      UnvisitedColumnsStay(m, table, column, row);
      RenamedIsOwnTarget(schema, table, column);
    }
  }

  lemma NewCellExactly(schema: Schema, m: IdMap, tokens: seq<string>, table: Table, i: nat, column: Column, row: Row)
    requires WellFormedMap(m) && (schema.HasColumn(table, column) || Field(row, column) == Null)
    ensures IsNewCell(schema, m, tokens, table, i, column, row, NewCell(schema, m, tokens, table, i, column, row))
  {
    hide LOCAL_REWRITE_ORDER, VALUE_KINDS, Targets, EmbeddedCell, OwnedCell, RenameList, WellFormedMap, IsEmbeddedImage, HasCredentials;
    var after := NewCell(schema, m, tokens, table, i, column, row);
    if !(table == DOWNLOADERS && HasCredentials(schema) && IsCredential(column)) {
      assert !IsRevokedColumn(schema, table, column);
      forall kind, target | IsOwnTarget(kind, target, table, column) ensures CellReplaced(m, kind, Field(row, column), after) {
        TargetsAreRenamed(schema, m, tokens, kind, target, i, row);
      }
      if forall kind, target :: !IsOwnTarget(kind, target, table, column) {
        UnownedCellIsEmbedded(schema, m, tokens, table, i, column, row);
        EmbeddedCellExactly(m, table, column, row);
      }
    }
  }

  // Rows.

  ghost predicate IsPreparedRow(schema: Schema, tables: Tables, table: Table, row: Row, prepared: Row) {
    forall c :: IsPreparedCell(
      HasLegacyCreators(schema), schema.HasColumn(AUDIT_EVENTS, EVENT_KEY), tables[API_KEY], table, c, row, Field(prepared, c))
  }

  /** The row is first prepared, and then every cell becomes what its column says. */
  ghost predicate IsNewRow(
    schema: Schema, m: IdMap, tokens: seq<string>, tables: Tables, table: Table, i: nat, row: Row, after: Row)
  {
    exists prepared | IsPreparedRow(schema, tables, table, row, prepared) ::
      forall c :: IsNewCell(schema, m, tokens, table, i, c, prepared, Field(after, c))
  }

  lemma PreparedRowIs(schema: Schema, tables: Tables, table: Table, k: nat)
    requires k < |tables[table]|
    ensures |PreparedTables(schema, tables)[table]| == |tables[table]|
    ensures IsPreparedRow(schema, tables, table, tables[table][k], PreparedTables(schema, tables)[table][k])
  {
    hide CreatorResolved, IsMalformed, HasLegacyCreators, OwnerOfApiKey, NamesApiKey;
    var row, prepared := tables[table][k], PreparedTables(schema, tables)[table][k];
    forall c ensures IsPreparedCell(
      HasLegacyCreators(schema), schema.HasColumn(AUDIT_EVENTS, EVENT_KEY), tables[API_KEY], table, c, row, Field(prepared, c))
    {
      if table == DOWNLOAD_TASKS && CREATED_BY_USER_ID in row {
        CreatorIsResolved(tables[API_KEY], row);
      }
      if Field(row, ID).Text? {
        MalformedExactlyIf(Field(row, ID).text);
      }
    }
  }

  lemma DeletionIgnoresPreparation(schema: Schema, tables: Tables, table: Table, k: nat)
    requires k < |tables[table]| && |PreparedTables(schema, tables)[table]| == |tables[table]|
    ensures IsDeleted(schema, PreparedTables(schema, tables), table, PreparedTables(schema, tables)[table][k])
      <==> IsDeleted(schema, tables, table, tables[table][k])
  {
    hide INVALIDATED_TABLES, HasDynamicClients, HasLegacyCreators, ResolvedCreatorRow, EventKeyRow;
    var prepared := PreparedTables(schema, tables);
    assert prepared[OAUTH_CLIENT_REGISTRATION] == tables[OAUTH_CLIENT_REGISTRATION];
    if table == OAUTH_CLIENT || table == OAUTH_CLIENT_RESOURCE {
      assert prepared[table] == tables[table];
    }
  }

  // The whole outcome.

  /** The places of the rows that remain, and each of them rewritten. */
  ghost predicate IsTableOutcome(
    schema: Schema, m: IdMap, tokens: seq<string>, original: Tables, table: Table, outcome: seq<Row>, places: seq<nat>)
  {
    && IsIncreasing(places) && |outcome| == |places|
    && (forall k: nat :: k in places <==>
          k < |original[table]| && !IsDeleted(schema, original, table, original[table][k]))
    && forall i: nat | i < |places| ::
         places[i] < |original[table]|
         && IsNewRow(schema, m, tokens, original, table, i, original[table][places[i]], outcome[i])
  }

  ghost predicate HasOutcome(schema: Schema, m: IdMap, tokens: seq<string>, original: Tables, outcome: Tables) {
    forall table :: TableHasOutcome(schema, m, tokens, original, table, outcome[table])
  }

  ghost predicate TableHasOutcome(
    schema: Schema, m: IdMap, tokens: seq<string>, original: Tables, table: Table, outcome: seq<Row>)
  {
    exists places :: IsTableOutcome(schema, m, tokens, original, table, outcome, places)
  }

  lemma TableOutcome(
    schema: Schema, m: IdMap, tokens: seq<string>, original: Tables, table: Table, outcome: Tables)
    returns (places: seq<nat>)
    requires WellFormedMap(m) && Conforms(schema, original)
    requires IsImage(schema, m, tokens, Remaining(schema, PreparedTables(schema, original)), outcome)
    ensures IsTableOutcome(schema, m, tokens, original, table, outcome[table], places)
  {
    hide Conforms, PreparedTables, IsImage, Remaining, IsDeleted, NewCell, WellFormedMap, IsNewCell, IsPreparedRow, AsMap;
    var prepared := PreparedTables(schema, original);
    var kept := Remaining(schema, prepared);
    places := RemainingArePlaced(schema, prepared, table);
    ImageOfTable(schema, m, tokens, kept, outcome, table);
    if original[table] != [] {
      PreparedRowIs(schema, original, table, 0);
    }
    PreparedLengths(schema, original, table);
    forall k: nat | k < |original[table]|
      ensures IsDeleted(schema, prepared, table, prepared[table][k]) <==> IsDeleted(schema, original, table, original[table][k])
    {
      DeletionIgnoresPreparation(schema, original, table, k);
    }
    forall i: nat | i < |places|
      ensures IsNewRow(schema, m, tokens, original, table, i, original[table][places[i]], outcome[table][i])
    {
      var row := prepared[table][places[i]];
      assert kept[table][i] == row;
      PreparedRowIs(schema, original, table, places[i]);
      forall c ensures IsNewCell(schema, m, tokens, table, i, c, row, Field(outcome[table][i], c)) {
        assert Field(outcome[table][i], c) == NewCell(schema, m, tokens, table, i, c, row);
        if !schema.HasColumn(table, c) {
          assert row in prepared[table];
          MissingColumn(schema, original, table, c, row);
        }
        NewCellExactly(schema, m, tokens, table, i, c, row);
      }
    }
  }

  lemma PreparedLengths(schema: Schema, tables: Tables, table: Table)
    ensures |PreparedTables(schema, tables)[table]| == |tables[table]|
  {
  }

  /** End to end: a run from a built map leaves exactly the described rows, with exactly the described cells. */
  lemma OutcomeExactly(schema: Schema, original: Tables, start: seq<MapRow>, rows: seq<MapRow>, supply: Supply)
    requires IsBuilt(schema, original, start, rows, supply) && Conforms(schema, original)
    ensures HasOutcome(schema, AsMap(rows), supply.tokens, original,
                       Normalized(schema, INVENTORY, AsMap(rows), supply.tokens, original))
  {
    hide IsBuilt, Conforms, Normalized, AsMap, IsImage, WellFormedMap, NewValuesDistinct, HasGeneratedLengths, DistinctKeys,
      IsTableOutcome, PreparedTables, Remaining;
    ImageOfRun(schema, original, start, rows, supply);
    BuiltIsWellFormed(schema, original, start, rows, supply);
    var outcome := Normalized(schema, INVENTORY, AsMap(rows), supply.tokens, original);
    forall table ensures TableHasOutcome(schema, AsMap(rows), supply.tokens, original, table, outcome[table]) {
      var places := TableOutcome(schema, AsMap(rows), supply.tokens, original, table, outcome);
    }
  }
}
