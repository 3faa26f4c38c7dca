/** After a local run no public token of before is left: every token is one that was drawn. */
module LocalTokens {
  import opened Wrappers
  import opened IdRegistry
  import opened IdValues
  import opened IdMapTable
  import opened IdTables
  import opened IdMigration
  import opened IdCollection
  import opened IdValidation
  import opened D1Plan
  import opened D1Progress
  import opened LocalOutcome
  import opened LocalDatabase
  import opened LocalImage
  import opened LocalSuccess

  lemma ImageOfRun(schema: Schema, original: Tables, start: seq<MapRow>, rows: seq<MapRow>, supply: Supply)
    requires IsBuilt(schema, original, start, rows, supply) && Conforms(schema, original)
    ensures IsImage(schema, AsMap(rows), supply.tokens, Remaining(schema, PreparedTables(schema, original)),
                    Normalized(schema, INVENTORY, AsMap(rows), supply.tokens, original))
  {
    hide IsBuilt, Conforms, Normalized, PreparedTables, AsMap, IsNormalized, IsImage, Remaining, IsReady, WellFormedMap,
      NewValuesDistinct;
    var run := RunToValidate(schema, original, rows, supply);
    RunIsAsListed(schema, original, rows, supply);
    NormalizedJob(run, original, start, rows, supply);
    NormalizedIsReady(JobOf(run, original), supply.tokens, start);
    PreparedOfJob(run, original);
  }

  /** The cells of a token column that the run leaves are its renamed cells, and they were in a row before the run. */
  lemma TokenIsRenamed(
    schema: Schema, m: IdMap, tokens: seq<string>, prepared: Tables, outcome: Tables, place: (Kind, Table, Column), row: Row)
    returns (before: Row)
    requires IsImage(schema, m, tokens, Remaining(schema, prepared), outcome) && place in TOKEN_COLUMNS
    requires row in outcome[place.1]
    ensures before in prepared[place.1]
    ensures schema.HasColumn(place.1, place.2) || Field(before, place.2) == Null ==>
      Field(row, place.2) == RenamedCell(m, place.0, Field(before, place.2))
  {
    hide IsImage, Remaining, NewCell, PrimaryTable, PrimaryColumn, TOKEN_COLUMNS, RotatesAll, Targets, VALUE_KINDS, Renamed;
    var kept := Remaining(schema, prepared);
    TokenColumnsArePrimary(place);
    TokenKindsAreListed(place);
    PrimaryIsTarget(place.0);
    ImageOfTable(schema, m, tokens, kept, outcome, place.1);
    var i: nat :| i < |outcome[place.1]| && outcome[place.1][i] == row;
    before := kept[place.1][i];
    assert before in kept[place.1];
    RemainingRowsArePrepared(schema, prepared);
    if schema.HasColumn(place.1, place.2) || Field(before, place.2) == Null {
      TargetsAreRenamed(schema, m, tokens, place.0, Primary(place.0), i, before);
    }
  }

  lemma TokenKindsAreListed(place: (Kind, Table, Column))
    requires place in TOKEN_COLUMNS
    ensures place.0 in VALUE_KINDS
  {
    var n := |VALUE_KINDS|;
    assert VALUE_KINDS[n - 6] == ShareToken && VALUE_KINDS[n - 5] == ImageToken && VALUE_KINDS[n - 4] == SiteInviteToken;
    assert VALUE_KINDS[n - 3] == TeamInviteToken && VALUE_KINDS[n - 2] == InviteCode;
    assert VALUE_KINDS[n - 1] == ImageVerificationToken;
  }

  /** What the map makes of a live token was drawn, now or in an earlier run. */
  lemma RenamedTokenWasDrawn(
    schema: Schema, prepared: Tables, draws: Kind -> seq<string>, start: seq<MapRow>, rows: seq<MapRow>,
    place: (Kind, Table, Column), before: Row)
    requires place in TOKEN_COLUMNS && place.0 in VALUE_KINDS && schema.HasColumn(place.1, place.2)
    requires DistinctKeys(rows) && ComesFrom(schema, prepared, draws, start, rows)
    requires Complete(schema, VALUE_KINDS, prepared, start, rows)
    requires before in prepared[place.1] && Field(before, place.2).Text?
    ensures var after := Renamed(AsMap(rows), place.0, Field(before, place.2).text);
      after == "" || after in draws(place.0) || IsNewValue(start, place.0, after)
  {
    hide IsCollected, DistinctKeys, TOKEN_COLUMNS, VALUE_KINDS, Complete;
    var value := Field(before, place.2).text;
    LiveTokensAreMapped(schema, VALUE_KINDS, prepared, start, rows);
    AsMapKeys(rows);
    if (place.0, value) in AsMap(rows) {
      var row := KeyComesFromRow(rows, (place.0, value));
      RowIsOldOrAdded(start, rows, row);
    } else if value != "" {
      assert IsLiveToken(schema, prepared, place, value);
    }
  }

  /** Preparing the tables leaves token columns alone. */
  lemma TokensArePrepared(schema: Schema, original: Tables, place: (Kind, Table, Column), value: string)
    requires place in TOKEN_COLUMNS && schema.HasColumn(place.1, place.2) && value != ""
    ensures IsLiveToken(schema, PreparedTables(schema, original), place, value) <==>
      exists row | row in original[place.1] :: Field(row, place.2) == Text(value)
  {
    assert place.1 != DOWNLOAD_TASKS && place.1 != AUDIT_EVENTS;
    assert PreparedTables(schema, original)[place.1] == original[place.1];
  }

  /** Rows of a table without the column have nothing there. */
  lemma MissingColumn(schema: Schema, original: Tables, table: Table, column: Column, row: Row)
    requires Conforms(schema, original) && !schema.HasColumn(table, column)
    requires row in PreparedTables(schema, original)[table]
    ensures Field(row, column) == Null
  {
    hide Conforms, PreparedTables;
    PreparationConforms(schema, original);
    var prepared := PreparedTables(schema, original);
    var i :| 0 <= i < |prepared[table]| && prepared[table][i] == row;
    ConformingRow(schema, prepared, table, i, column);
  }

  lemma ConformingRow(schema: Schema, tables: Tables, table: Table, i: nat, column: Column)
    requires Conforms(schema, tables) && i < |tables[table]| && !schema.HasColumn(table, column)
    ensures column !in tables[table][i]
  {
  }

  /**
   * Every token a run leaves is empty or drawn, in this run or in one recorded in the map table it started from; and from
   * an empty map table, no token of before is left in its column, well formed or not.
   */
  lemma NoOldTokenRemains(
    schema: Schema, original: Tables, start: seq<MapRow>, rows: seq<MapRow>, supply: Supply, place: (Kind, Table, Column),
    row: Row, token: string)
    requires IsBuilt(schema, original, start, rows, supply) && Conforms(schema, original) && place in TOKEN_COLUMNS
    requires row in Normalized(schema, INVENTORY, AsMap(rows), supply.tokens, original)[place.1]
    requires Field(row, place.2) == Text(token)
    ensures token == "" || token in supply.draws(place.0) || IsNewValue(start, place.0, token)
    ensures start == [] && token != "" ==> forall earlier | earlier in original[place.1] :: Field(earlier, place.2) != Text(token)
  {
    hide Conforms, Normalized, PreparedTables, AsMap, IsImage, TOKEN_COLUMNS, VALUE_KINDS, Complete, ComesFrom, GoodStart,
      DistinctKeys, WellFormedMap, NewValuesDistinct, HasGeneratedLengths, Remaining, DrawIsGood, Renamed, SoundRows;
    var prepared, outcome := PreparedTables(schema, original), Normalized(schema, INVENTORY, AsMap(rows), supply.tokens, original);
    ImageOfRun(schema, original, start, rows, supply);
    BuiltIsWellFormed(schema, original, start, rows, supply);
    TokenKindsAreListed(place);
    var before := TokenIsRenamed(schema, AsMap(rows), supply.tokens, prepared, outcome, place, row);
    if !schema.HasColumn(place.1, place.2) {
      MissingColumn(schema, original, place.1, place.2, before);
    }
    RenamedTokenWasDrawn(schema, prepared, supply.draws, start, rows, place, before);
    if token != "" {
      TokensArePrepared(schema, original, place, token);
    }
  }
}
