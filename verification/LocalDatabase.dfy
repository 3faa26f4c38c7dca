/** The local database while it is normalized in one transaction. */
module LocalDatabase {
  import opened Wrappers
  import opened Text
  import opened IdRegistry
  import opened IdValues
  import opened IdMapTable
  import opened IdTables
  import opened IdMigration
  import opened IdCollection
  import opened JsonAssertions
  import opened D1Plan
  import opened D1Progress
  import opened D1Refinement
  import opened D1FinalChecks
  import opened D1Retries
  import opened LocalOutcome

  datatype Failure =
    | MarkerMissing
    | LegacyCreatorUnresolvable
    | MappingFailed(error: MapError)
    | Invalid

  /** What the generator and the clock supply. */
  datatype Supply = Supply(draws: Kind -> seq<string>, tokens: seq<string>, now: int, stamp: string)

  predicate HoldsClients(table: Table) {
    table == OAUTH_CLIENT || table == OAUTH_CLIENT_RESOURCE || table == OAUTH_CLIENT_REGISTRATION
  }

  /** The kinds to map, the embedded columns in the order of their passes, and the tables to empty. */
  datatype Inventory = Inventory(kinds: seq<Kind>, order: seq<(Table, Column)>, emptied: seq<Table>)

  const INVENTORY := Inventory(VALUE_KINDS, LOCAL_REWRITE_ORDER, INVALIDATED_TABLES)

  /** What `validate` demands of the outcome. */
  predicate Validates(
    schema: Schema, what: Inventory, m: IdMap, checks: seq<Validation>, before: Tables, tables: Tables)
  {
    && (forall t: Table | t !in what.emptied && !HoldsClients(t) :: |tables[t]| == |before[t]|)
    && RewriteAll(m, what.order, tables) == tables
    && (forall v | v in checks :: Holds(v, tables))
    && DocumentsAreClean(schema, what.kinds, tables)
  }

  /** The passes over the columns and tables of an inventory. */
  function Normalized(schema: Schema, what: Inventory, m: IdMap, tokens: seq<string>, tables: Tables): Tables {
    MigratedTables(schema, m, tokens, RenameList(schema, what.kinds), what.order, what.emptied, tables)
  }

  lemma NormalizedInSteps(schema: Schema, what: Inventory, m: IdMap, tokens: seq<string>, tables: Tables)
    ensures Normalized(schema, what, m, tokens, tables) ==
      DropDynamicClients(schema, ClearTables(what.emptied, RevokedTables(schema, tokens,
        RewriteAll(m, what.order, RenameAll(m, RenameList(schema, what.kinds), PreparedTables(schema, tables))))))
  {
  }

  lemma RowsOfRewrittenColumn(m: IdMap, table: Table, column: Column, tables: Tables, next: seq<Row>)
    requires |next| == |tables[table]|
    requires forall i | 0 <= i < |next| :: next[i] == EmbeddedRow(m, table, column, tables[table][i])
    ensures RewriteColumn(m, table, column, tables) == tables[table := next]
  {
    assert RewriteColumn(m, table, column, tables)[table] == next;
  }

  lemma PrefixGrows(a: seq<Row>, b: seq<Row>, i: nat, row: Row)
    requires |a| == |b| && i < |b| && a[i] == b[i]
    ensures row == b[i] ==> (a[..i + 1] == b[..i + 1] <==> a[..i] == b[..i])
    ensures row != b[i] ==> a[i := row][..i + 1] != b[..i + 1]
  {
    assert a[..i + 1] == a[..i] + [a[i]] && b[..i + 1] == b[..i] + [b[i]];
    assert a[i := row][..i + 1][i] == row && b[..i + 1][i] == b[i];
    assert a[..i] == a[..i + 1][..i] && b[..i] == b[..i + 1][..i];
  }

  /** The rows of one embedded column; a row is written only when its value changes. */
  method WriteRows(m: IdMap, table: Table, column: Column, rows: seq<Row>) returns (next: seq<Row>, changes: nat)
    ensures |next| == |rows|
    ensures forall i | 0 <= i < |rows| :: next[i] == EmbeddedRow(m, table, column, rows[i])
    ensures changes == 0 <==> next == rows
  {
    hide EmbeddedRow;
    next, changes := rows, 0;
    var i := 0;
    while i < |rows|
      invariant 0 <= i <= |rows| && |next| == |rows|
      invariant forall j | 0 <= j < i :: next[j] == EmbeddedRow(m, table, column, rows[j])
      invariant forall j | i <= j < |rows| :: next[j] == rows[j]
      invariant changes == 0 <==> next[..i] == rows[..i]
    {
      var row := EmbeddedRow(m, table, column, rows[i]);
      PrefixGrows(next, rows, i, row);
      if row != rows[i] {
        next := next[i := row];
        changes := changes + 1;
      }
      i := i + 1;
    }
    assert next[..i] == next && rows[..i] == rows;
  }

  lemma RewriteNothing(m: IdMap, order: seq<(Table, Column)>, tables: Tables)
    requires order == []
    ensures RewriteAll(m, order, tables) == tables
  {
  }

  lemma RewriteOneMore(m: IdMap, order: seq<(Table, Column)>, i: nat, tables: Tables)
    requires i < |order|
    ensures RewriteAll(m, order[..i + 1], tables) ==
      RewriteColumn(m, order[i].0, order[i].1, RewriteAll(m, order[..i], tables))
  {
    hide RewriteColumn;
    assert order[..i + 1][..i] == order[..i];
  }

  lemma ClearNothing(emptied: seq<Table>, tables: Tables)
    requires emptied == []
    ensures ClearTables(emptied, tables) == tables
  {
  }

  lemma ClearOneMore(emptied: seq<Table>, i: nat, tables: Tables)
    requires i < |emptied|
    ensures ClearTables(emptied[..i + 1], tables) == ClearTables(emptied[..i], tables)[emptied[i] := []]
  {
    assert emptied[..i + 1] == emptied[..i] + [emptied[i]];
  }

  // When a run cannot succeed.

  /** Rows were added to the map, drawn for what must be mapped and nothing else, and cover all of it. */
  ghost predicate IsMapFor(
    schema: Schema, what: Inventory, supply: Supply, before: Tables, start: seq<MapRow>, rows: seq<MapRow>)
  {
    var prepared := PreparedTables(schema, before);
    && MeetsConstraints(rows) && (SoundRows(start) ==> SoundRows(rows))
    && ComesFrom(schema, prepared, supply.draws, start, rows)
    && Complete(schema, what.kinds, prepared, start, rows)
    && TokensAreMapped(schema, what.kinds, prepared, start, rows)
    && MalformedAreMapped(schema, what.kinds, prepared, start, rows)
    && OnlyNeededAreMapped(schema, prepared, start, rows)
  }

  /** Some document column holds text that is no document. */
  ghost predicate HoldsInvalidDocuments(schema: Schema, tables: Tables) {
    exists tc | tc in JSON_COLUMNS :: HoldsInvalidJson(schema, tc, PreparedTables(schema, tables))
  }

  /** A creator names no key, a document cannot be read, or the generator may run out of values. */
  ghost predicate IsHindered(schema: Schema, what: Inventory, supply: Supply, tables: Tables, start: seq<MapRow>) {
    || (HasLegacyCreators(schema) && LegacyCreatorUnresolved(tables))
    || HoldsInvalidDocuments(schema, tables)
    || !Suffices(schema, what.kinds, PreparedTables(schema, tables), start, supply.draws)
  }

  /** A map for these tables under which validation of the outcome has this result. */
  ghost predicate SomeMapValidates(schema: Schema, supply: Supply, before: Tables, start: seq<MapRow>, valid: bool) {
    exists rows | IsMapFor(schema, INVENTORY, supply, before, start, rows) ::
      Validates(schema, INVENTORY, AsMap(rows), RegistryValidations(schema), before,
                Normalized(schema, INVENTORY, AsMap(rows), supply.tokens, before)) == valid
  }

  class Database {
    const schema: Schema
    var tables: Tables
    var mapRows: seq<MapRow>
    var completedAt: string
    var version: string

    constructor (schema: Schema, tables: Tables)
      ensures this.schema == schema && this.tables == tables && mapRows == [] && completedAt == "" && version == ""
    {
      this.schema := schema;
      this.tables := tables;
      mapRows := [];
      completedAt := "";
      version := "";
    }

    /** `updateColumn` over every target of every kind. */
    method UpdateColumns(renames: seq<Rename>)
      modifies this`tables
      ensures tables == RenameAll(AsMap(mapRows), renames, old(tables))
    {
      var i := 0;
      while i < |renames|
        invariant 0 <= i <= |renames|
        invariant tables == RenameAll(AsMap(mapRows), renames[..i], old(tables))
      {
        tables := RenameColumn(AsMap(mapRows), renames[i].kind, renames[i].table, renames[i].column, tables);
        assert renames[..i + 1][..i] == renames[..i];
        i := i + 1;
      }
      assert renames[..i] == renames;
    }

    /** One embedded column; nothing changes exactly if no row was written. */
    method RewriteRows(table: Table, column: Column) returns (changes: nat)
      modifies this`tables
      ensures tables == RewriteColumn(AsMap(mapRows), table, column, old(tables))
      ensures changes == 0 <==> tables == old(tables)
    {
      hide RewriteColumn, EmbeddedRow;
      var next: seq<Row>;
      next, changes := WriteRows(AsMap(mapRows), table, column, tables[table]);
      RowsOfRewrittenColumn(AsMap(mapRows), table, column, tables, next);
      tables := tables[table := next];
    }

    /** All embedded columns; nothing changes exactly if no row was written. */
    method RewriteEmbedded(order: seq<(Table, Column)>) returns (changes: nat)
      modifies this`tables
      ensures tables == RewriteAll(AsMap(mapRows), order, old(tables))
      ensures changes == 0 ==> tables == old(tables)
    {
      hide RewriteColumn, RewriteAll, AsMap;
      var i := 0;
      changes := 0;
      RewriteNothing(AsMap(mapRows), order[..0], tables);
      while i < |order|
        invariant 0 <= i <= |order|
        invariant tables == RewriteAll(AsMap(mapRows), order[..i], old(tables))
        invariant changes == 0 ==> tables == old(tables)
      {
        var more := RewriteRows(order[i].0, order[i].1);
        changes := changes + more;
        RewriteOneMore(AsMap(mapRows), order, i, old(tables));
        i := i + 1;
      }
      assert order[..i] == order;
    }

    /** `invalidateDownloaderCredentials`. */
    method InvalidateDownloaderCredentials(tokens: seq<string>)
      modifies this`tables
      ensures tables == RevokedTables(schema, tokens, old(tables))
    {
      if !HasCredentials(schema) {
        return;
      }
      var rows := tables[DOWNLOADERS];
      var i := 0;
      while i < |rows|
        invariant 0 <= i <= |rows|
        invariant |tables[DOWNLOADERS]| == |rows| && tables == old(tables)[DOWNLOADERS := tables[DOWNLOADERS]]
        invariant forall j | 0 <= j < i ::
          tables[DOWNLOADERS][j] == CredentialRow(rows[j], Text(""), Text(TokenFor(tokens, j)), Number(0))
        invariant forall j | i <= j < |rows| :: tables[DOWNLOADERS][j] == rows[j]
      {
        var next := CredentialRow(rows[i], Text(""), Text(TokenFor(tokens, i)), Number(0));
        tables := tables[DOWNLOADERS := tables[DOWNLOADERS][i := next]];
        i := i + 1;
      }
      assert tables[DOWNLOADERS] == RevokeCredentials(tokens, rows);
    }

    method EmptyTables(emptied: seq<Table>)
      modifies this`tables
      ensures tables == ClearTables(emptied, old(tables))
    {
      hide ClearTables;
      var i := 0;
      ClearNothing(emptied[..0], tables);
      while i < |emptied|
        invariant 0 <= i <= |emptied|
        invariant tables == ClearTables(emptied[..i], old(tables))
      {
        ClearOneMore(emptied, i, old(tables));
        tables := tables[emptied[i] := []];
        i := i + 1;
      }
      assert emptied[..i] == emptied;
    }

    /** The transaction between the guards and the markers; a failure leaves the tables for the caller to restore. */
    method Migrate(what: Inventory, supply: Supply, checks: seq<Validation>) returns (result: Result<(), Failure>)
      requires MeetsConstraints(mapRows) && GoodDraws(schema, PreparedTables(schema, tables), mapRows, supply.draws)
      requires forall i, j | 0 <= i < j < |what.kinds| :: what.kinds[i] != what.kinds[j]
      modifies this
      ensures completedAt == old(completedAt) && version == old(version)
      ensures result.Ok? || result == Err(Invalid) ==>
        && MapIsBuilt(what, supply, old(tables), old(mapRows))
        && tables == Normalized(schema, what, AsMap(mapRows), supply.tokens, old(tables))
        && (result.Ok? <==> Validates(schema, what, AsMap(mapRows), checks, old(tables), tables))
      ensures HasLegacyCreators(schema) && LegacyCreatorUnresolved(old(tables)) ==> result == Err(LegacyCreatorUnresolvable)
      ensures result.Err? && result != Err(Invalid) ==> IsHindered(schema, what, supply, old(tables), old(mapRows))
      ensures what.kinds != [] && HoldsInvalidDocuments(schema, old(tables)) ==> result.Err? && result != Err(Invalid)
    {
      hide RenameAll, RewriteAll, RenameList, RevokedTables, ClearTables, DropDynamicClients, SoundRows, ComesFrom, Complete,
        MeetsConstraints, GoodDraws, IsSource, Validates, PreparedTables, Normalized, AsMap, LegacyCreatorUnresolved, HasLegacyCreators,
        TokensAreMapped, MalformedAreMapped, OnlyNeededAreMapped, Suffices, HoldsInvalidJson;
      if HasLegacyCreators(schema) && LegacyCreatorUnresolved(tables) {
        return Err(LegacyCreatorUnresolvable);
      }
      var before := tables;
      tables := PreparedTables(schema, tables);
      var built := BuildMap(schema, what.kinds, supply.draws, mapRows, tables, supply.now);
      if built.Err? {
        return Err(MappingFailed(built.error));
      }
      mapRows := built.value;
      UpdateColumns(RenameList(schema, what.kinds));
      var rewritten := RewriteEmbedded(what.order);
      InvalidateDownloaderCredentials(supply.tokens);
      EmptyTables(what.emptied);
      tables := DropDynamicClients(schema, tables);
      NormalizedInSteps(schema, what, AsMap(mapRows), supply.tokens, before);
      if !Validates(schema, what, AsMap(mapRows), checks, before, tables) {
        return Err(Invalid);
      }
      result := Ok(());
    }

    ghost predicate MapIsBuilt(what: Inventory, supply: Supply, before: Tables, start: seq<MapRow>)
      reads this
    {
      IsMapFor(schema, what, supply, before, start, mapRows)
    }

    /**
     * `normalizeDatabase`: one transaction, rolled back on any failure and in a dry run. A database that is already
     * completed is only validated.
     */
    method Normalize(apply: bool, supply: Supply) returns (result: Result<(), Failure>)
      requires MeetsConstraints(mapRows)
      requires completedAt == "" ==> GoodDraws(schema, PreparedTables(schema, tables), mapRows, supply.draws)
      modifies this
      ensures result.Err? || !apply || old(completedAt) != "" ==>
        tables == old(tables) && mapRows == old(mapRows) && completedAt == old(completedAt) && version == old(version)
      ensures old(completedAt) != "" ==>
        (result.Ok? <==>
          (version == VALIDATION_VERSION
           && Validates(schema, INVENTORY, AsMap(mapRows), RegistryValidations(schema), tables, tables)))
      ensures result.Ok? && apply && old(completedAt) == "" ==>
        && MapIsBuilt(INVENTORY, supply, old(tables), old(mapRows))
        && tables == Normalized(schema, INVENTORY, AsMap(mapRows), supply.tokens, old(tables))
        && Validates(schema, INVENTORY, AsMap(mapRows), RegistryValidations(schema), old(tables), tables)
        && completedAt == supply.stamp && version == VALIDATION_VERSION
      ensures old(completedAt) == "" && result.Ok? ==>
        && !(HasLegacyCreators(schema) && LegacyCreatorUnresolved(old(tables))) && !HoldsInvalidDocuments(schema, old(tables))
        && SomeMapValidates(schema, supply, old(tables), old(mapRows), true)
      ensures old(completedAt) == "" && result.Err? ==>
        || IsHindered(schema, INVENTORY, supply, old(tables), old(mapRows))
        || SomeMapValidates(schema, supply, old(tables), old(mapRows), false)
    {
      hide SoundRows, MeetsConstraints, ComesFrom, Complete, GoodDraws, IsSource, Validates, Normalized, PreparedTables,
        AsMap, RegistryValidations, TokensAreMapped, MalformedAreMapped, OnlyNeededAreMapped, IsMapFor, IsHindered,
        HoldsInvalidDocuments, LegacyCreatorUnresolved, HasLegacyCreators;
      var what, checks := INVENTORY, RegistryValidations(schema);
      if completedAt != "" {
        if version != VALIDATION_VERSION {
          return Err(MarkerMissing);
        }
        return if Validates(schema, what, AsMap(mapRows), checks, tables, tables) then Ok(()) else Err(Invalid);
      }
      var before, beforeRows := tables, mapRows;
      ValueKindsAreDistinct();
      result := Migrate(what, supply, checks);
      assert what.kinds != [];
      assert result.Ok? || result == Err(Invalid) ==> IsMapFor(schema, what, supply, before, beforeRows, mapRows);
      assert result.Ok? || result == Err(Invalid) ==> SomeMapValidates(schema, supply, before, beforeRows, result.Ok?);
      if result.Err? || !apply {
        tables, mapRows := before, beforeRows;
        return;
      }
      completedAt, version := supply.stamp, VALIDATION_VERSION;
    }
  }

  // From the local database to its plan.

  /** The run a plan is built from, once a database has been normalized with this map and stamp. */
  ghost predicate IsRunOf(run: LocalRun, original: Tables, rows: seq<MapRow>, supply: Supply) {
    && VisitsTheRegistry(run) && run.mapRows == rows && run.completedAt == supply.stamp
    && run.validations == PlanValidations(run.schema)
    && run.tables == Normalized(run.schema, INVENTORY, AsMap(rows), supply.tokens, original)
  }

  /** Key columns are unique, as the database enforces, and hold no embedded values. */
  ghost predicate KeysAreProper(run: LocalRun) {
    && (forall tc | tc in run.embedded :: DistinctPrimaryKeys(run.schema, tc.0, run.tables[tc.0]))
    && (forall tc, k | tc in run.embedded && k in KeyColumns(run.schema, tc.0) :: (tc.0, k) !in run.embedded)
    && (HasCredentials(run.schema) ==> DistinctIds(run.tables[DOWNLOADERS]))
  }

  /** The map was built, from an empty table or from one filled by the same rules. */
  ghost predicate IsBuilt(schema: Schema, original: Tables, start: seq<MapRow>, rows: seq<MapRow>, supply: Supply) {
    var prepared := PreparedTables(schema, original);
    && GoodStart(start) && SoundRows(rows) && ComesFrom(schema, prepared, supply.draws, start, rows)
    && Complete(schema, VALUE_KINDS, prepared, start, rows) && GoodDraws(schema, prepared, start, supply.draws)
  }

  lemma BuiltIsWellFormed(schema: Schema, original: Tables, start: seq<MapRow>, rows: seq<MapRow>, supply: Supply)
    requires IsBuilt(schema, original, start, rows, supply)
    ensures WellFormedMap(AsMap(rows)) && NewValuesDistinct(AsMap(rows)) && HasGeneratedLengths(AsMap(rows))
    ensures DistinctKeys(rows)
  {
    hide GoodStart, GoodDraws, ComesFrom, Complete, PreparedTables, WellFormedMap, NewValuesDistinct, HasGeneratedLengths,
      DistinctKeys;
    BuiltMapIsWellFormed(schema, PreparedTables(schema, original), supply.draws, start, rows);
  }

  /** What the local transaction guarantees about a run when it succeeds. */
  ghost predicate IsSuccessfulRun(
    run: LocalRun, original: Tables, start: seq<MapRow>, rows: seq<MapRow>, supply: Supply) {
    && IsRunOf(run, original, rows, supply) && supply.stamp != ""
    && IsBuilt(run.schema, original, start, rows, supply)
    && Validates(run.schema, INVENTORY, AsMap(rows), RegistryValidations(run.schema), original, run.tables)
    && Conforms(run.schema, original) && KeysAreProper(run)
    && (run.schema.HasColumn(DOWNLOAD_TASKS, EVENTS) ==> run.schema.HasColumn(DOWNLOAD_TASKS, ID))
  }

  lemma RunIsAnOutcome(run: LocalRun, original: Tables, rows: seq<MapRow>, supply: Supply)
    requires IsRunOf(run, original, rows, supply)
    ensures IsOutcome(run, original, supply.tokens, LOCAL_REWRITE_ORDER)
  {
    hide MigratedTables, AsMap;
  }

  /** A run whose validations hold is fit for the replay, whatever part of the plan's queries they are. */
  lemma SuccessfulRunIsGood(
    run: LocalRun, original: Tables, start: seq<MapRow>, rows: seq<MapRow>, supply: Supply, validations: seq<Validation>)
    requires IsSuccessfulRun(run, original, start, rows, supply)
    requires forall v | v in validations :: Holds(v, run.tables)
    ensures var part := run.(validations := validations);
      && WellFormedMap(AsMap(part.mapRows)) && DistinctKeys(part.mapRows) && VisitsTheRegistry(part)
      && Conforms(part.schema, original) && Checked(part, original)
      && IsOutcome(part, original, supply.tokens, LOCAL_REWRITE_ORDER)
  {
    hide VisitsTheRegistry, IsBuilt, WellFormedMap, AsMap, Conforms, PreparedTables, MigratedTables,
      CreatorsAreNamed, DistinctPrimaryKeys, DistinctIds, Holds, DistinctKeys, HasCredentials, Validates,
      NewValuesDistinct, RegistryValidations;
    BuiltIsWellFormed(run.schema, original, start, rows, supply);
    RunIsAnOutcome(run, original, rows, supply);
    VisitsAlike(run, validations);
    ValidatedCreatorsAreNamed(run, original, rows);
  }

  lemma {:induction false} CreatorFormatIsListed(schema: Schema, references: seq<Reference>)
    requires Historical(DOWNLOAD_TASKS, CREATED_BY_USER_ID) in references
    requires schema.HasColumn(DOWNLOAD_TASKS, CREATED_BY_USER_ID)
    ensures Format(RowId(USER), DOWNLOAD_TASKS, CREATED_BY_USER_ID, false)
      in ColumnFormats(schema, RowId(USER), references)
  {
    if references[0] != Historical(DOWNLOAD_TASKS, CREATED_BY_USER_ID) {
      CreatorFormatIsListed(schema, references[1..]);
    }
  }

  lemma CreatorFormatIsValidated(schema: Schema)
    requires HasLegacyCreators(schema)
    ensures Format(RowId(USER), DOWNLOAD_TASKS, CREATED_BY_USER_ID, false) in RegistryValidations(schema)
  {
    hide ColumnFormats, PlainFormats, TypedFormats, TypedResolutions, KindResolutions, KeyResolutions, References;
    CreatorIsUserReference();
    CreatorFormatIsListed(schema, References(RowId(USER)));
    assert VALUE_KINDS[0] == RowId(USER);
    assert Format(RowId(USER), DOWNLOAD_TASKS, CREATED_BY_USER_ID, false) in KindFormats(schema, VALUE_KINDS);
  }

  lemma PlainTextNamesNoApiKey(cell: Cell)
    requires cell.Text? && !HasForeignChar(cell.text)
    ensures !NamesApiKey(cell)
  {
    if |cell.text| >= 8 {
      assert IsBase62Char(cell.text[3]);
      assert Lower(cell.text[..8])[3] == LowerChar(cell.text[3]);
      assert API_KEY_PREFIX[3] == '-';
    }
  }

  /** The format pass leaves no creator that reads like an API key. */
  lemma ValidatedCreatorsAreNamed(run: LocalRun, original: Tables, rows: seq<MapRow>)
    requires Validates(run.schema, INVENTORY, AsMap(rows), RegistryValidations(run.schema), original, run.tables)
    ensures CreatorsAreNamed(run.schema, run.tables)
  {
    hide RegistryValidations, NamesApiKey, HasForeignChar, DocumentsAreClean, RewriteAll, AsMap;
    if HasLegacyCreators(run.schema) {
      CreatorFormatIsValidated(run.schema);
      var format := Format(RowId(USER), DOWNLOAD_TASKS, CREATED_BY_USER_ID, false);
      assert Holds(format, run.tables);
      forall row | row in run.tables[DOWNLOAD_TASKS] ensures !NamesApiKey(Field(row, CREATED_BY_USER_ID)) {
        assert RowIsWellFormed(format, run.tables, row);
        if Field(row, CREATED_BY_USER_ID).Text? {
          PlainTextNamesNoApiKey(Field(row, CREATED_BY_USER_ID));
        } else {
          OnlyTextNamesApiKeys(Field(row, CREATED_BY_USER_ID));
        }
      }
    }
  }

  lemma OnlyTextNamesApiKeys(cell: Cell)
    requires !cell.Text?
    ensures !NamesApiKey(cell)
  {
  }

  lemma VisitsAlike(run: LocalRun, validations: seq<Validation>)
    requires VisitsTheRegistry(run)
    ensures VisitsTheRegistry(run.(validations := validations))
  {
  }

  lemma ValidatedOutcome(run: LocalRun, original: Tables, start: seq<MapRow>, rows: seq<MapRow>, supply: Supply)
    requires IsSuccessfulRun(run, original, start, rows, supply)
    ensures forall v | v in RegistryValidations(run.schema) :: Holds(v, run.tables)
    ensures (forall v | v in DocumentQueries(run.schema, JSON_COLUMNS) :: Holds(v, run.tables))
      <==> OddEventIdsAreSound(run.schema, run.tables)
    ensures run.validations == RegistryValidations(run.schema) + DocumentQueries(run.schema, JSON_COLUMNS)
  {
    hide IsRunOf, IsBuilt, Conforms, PreparedTables, KeysAreProper, RewriteAll, RegistryValidations,
      DocumentQueries, OddEventIdsAreSound, DocumentsAreClean, Holds, AsMap;
    DocumentQueriesHold(run.schema, run.tables);
    RunQueries(run, original, rows, supply);
  }

  lemma RunQueries(run: LocalRun, original: Tables, rows: seq<MapRow>, supply: Supply)
    requires IsRunOf(run, original, rows, supply)
    ensures run.validations == PlanValidations(run.schema)
  {
    hide VisitsTheRegistry, Normalized, RegistryValidations, DocumentQueries;
  }

  /**
   * End to end, when: the plan of a successful run executes on an untouched copy if and only if the event ids that only
   * the plan takes for opening ones name existing tasks.
   */
  lemma PlanExecutesIffOddEventIdsAreSound(
    run: LocalRun, original: Tables, start: seq<MapRow>, rows: seq<MapRow>, supply: Supply, rendering: Rendering)
    requires IsSuccessfulRun(run, original, start, rows, supply) && Plannable(run, rendering)
    ensures Execute(run.schema, PlanOf(run, rendering), FreshCopy(original)).Some?
      <==> OddEventIdsAreSound(run.schema, run.tables)
  {
    hide IsSuccessfulRun, Plannable, PlanOf, Execute, VisitsTheRegistry, Checked, Conforms, IsOutcome, WellFormedMap, AsMap,
      DistinctKeys, RegistryValidations, DocumentQueries, OddEventIdsAreSound, Holds, GoodJob;
    ValidatedOutcome(run, original, start, rows, supply);
    SuccessfulRunIsGood(run, original, start, rows, supply, RegistryValidations(run.schema));
    var part := run.(validations := RegistryValidations(run.schema));
    MigrationIsAGoodJob(part, original, supply.tokens);
    PlanExecutesExactlyIf(JobOf(part, original), run, rendering, DocumentQueries(run.schema, JSON_COLUMNS));
  }

  /** End to end, what: if so, the plan repeats on another copy what `normalizeDatabase` left behind. */
  lemma NormalizedDatabaseHasAFaithfulPlan(
    run: LocalRun, original: Tables, start: seq<MapRow>, rows: seq<MapRow>, supply: Supply, rendering: Rendering)
    requires IsSuccessfulRun(run, original, start, rows, supply) && Plannable(run, rendering)
    requires OddEventIdsAreSound(run.schema, run.tables)
    ensures var once := Execute(run.schema, PlanOf(run, rendering), FreshCopy(original));
      && once.Some? && SameData(once.value.tables, run.tables)
      && once.value.mapRows == rows && once.value.completedAt == supply.stamp && once.value.version == VALIDATION_VERSION
  {
    hide IsSuccessfulRun, Plannable, PlanOf, Execute, Checked, Conforms, IsOutcome, WellFormedMap, AsMap, SameData,
      DistinctKeys, GoodJob, VisitsTheRegistry, OddEventIdsAreSound;
    SuccessfulRunIsAGoodJob(run, original, start, rows, supply);
    PlanRepeatsTheLocalRun(JobOf(run, original), rendering);
    RunRows(run, original, start, rows, supply);
  }

  lemma RunRows(run: LocalRun, original: Tables, start: seq<MapRow>, rows: seq<MapRow>, supply: Supply)
    requires IsSuccessfulRun(run, original, start, rows, supply)
    ensures run.mapRows == rows && run.completedAt == supply.stamp && VisitsTheRegistry(run)
  {
    hide VisitsTheRegistry, Validates, Normalized, IsBuilt, Conforms, KeysAreProper, PlanValidations;
  }

  lemma SuccessfulRunIsAGoodJob(run: LocalRun, original: Tables, start: seq<MapRow>, rows: seq<MapRow>, supply: Supply)
    requires IsSuccessfulRun(run, original, start, rows, supply) && OddEventIdsAreSound(run.schema, run.tables)
    ensures GoodJob(JobOf(run, original))
  {
    hide IsSuccessfulRun, VisitsTheRegistry, Checked, Conforms, IsOutcome, WellFormedMap, AsMap, DistinctKeys,
      RegistryValidations, DocumentQueries, OddEventIdsAreSound, Holds, GoodJob;
    ValidatedOutcome(run, original, start, rows, supply);
    SuccessfulRunIsGood(run, original, start, rows, supply, run.validations);
    assert run.(validations := run.validations) == run;
    MigrationIsAGoodJob(run, original, supply.tokens);
  }

  lemma NewIdsAreDistinct(run: LocalRun, original: Tables, start: seq<MapRow>, rows: seq<MapRow>, supply: Supply)
    requires IsSuccessfulRun(run, original, start, rows, supply)
    ensures NewValuesDistinct(AsMap(run.mapRows))
  {
    hide VisitsTheRegistry, IsBuilt, WellFormedMap, AsMap, Conforms, PreparedTables, DistinctKeys, Validates,
      NewValuesDistinct, Normalized, KeysAreProper, PlanValidations;
    BuiltIsWellFormed(run.schema, original, start, rows, supply);
  }

  /**
   * End to end, retries: however often and wherever earlier attempts stopped, one more leaves the same application data
   * as a single run - for all of them, if and only if no resolved creator would be resolved again to another user.
   */
  lemma RetriesOfANormalizedDatabaseAgree(
    run: LocalRun, original: Tables, start: seq<MapRow>, rows: seq<MapRow>, supply: Supply, rendering: Rendering)
    requires IsSuccessfulRun(run, original, start, rows, supply) && Plannable(run, rendering)
    requires OddEventIdsAreSound(run.schema, run.tables)
    ensures RetriesAgree(run.schema, PlanOf(run, rendering), FreshCopy(original))
      <==> ResolvedOwnersAreFinal(run.schema, AsMap(rows), original)
  {
    hide IsSuccessfulRun, Plannable, PlanOf, Execute, AsMap, GoodJob, VisitsTheRegistry, OddEventIdsAreSound, RetriesAgree,
      ResolvedOwnersAreFinal, NewValuesDistinct;
    SuccessfulRunIsAGoodJob(run, original, start, rows, supply);
    RunRows(run, original, start, rows, supply);
    NewIdsAreDistinct(run, original, start, rows, supply);
    RetriesAgreeIffOwnersAreFinal(JobOf(run, original), rendering);
  }
}
