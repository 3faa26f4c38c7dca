/**
 * The outcome of a local run as an image of the tables before it: which rows remain, what becomes of every cell, and which
 * values find a primary value among them.
 */
module LocalImage {
  import opened Wrappers
  import opened IdRegistry
  import opened IdValues
  import opened IdTables
  import opened JsonAssertions
  import opened IdMigration
  import IdIsomorphism
  import opened IdValidation
  import opened D1Plan
  import opened D1Progress
  import opened LocalOutcome

  // The outcome, cell by cell.

  /** The rows the run does not delete. */
  function Remaining(schema: Schema, tables: Tables): Tables {
    DropDynamicClients(schema, ClearTables(INVALIDATED_TABLES, tables))
  }

  predicate IsRevokedColumn(schema: Schema, table: Table, column: Column) {
    table == DOWNLOADERS && IsCredential(column) && HasCredentials(schema)
  }

  /** What the run makes of one cell. */
  function NewCell(schema: Schema, m: IdMap, tokens: seq<string>, table: Table, i: nat, column: Column, row: Row): Cell {
    if IsRevokedColumn(schema, table, column) then
      if column == TOKEN_HASH then Text("") else if column == TOKEN_JTI then Text(TokenFor(tokens, i)) else Number(0)
    else if (table, column) in LOCAL_REWRITE_ORDER then EmbeddedCell(m, table, column, row)
    else OwnedCell(m, RenameList(schema, VALUE_KINDS), table, column, Field(row, column))
  }

  ghost predicate IsImageOf(
    schema: Schema, m: IdMap, tokens: seq<string>, table: Table, before: seq<Row>, after: seq<Row>)
  {
    && |after| == |before|
    && forall i: nat, c | i < |before| :: Field(after[i], c) == NewCell(schema, m, tokens, table, i, c, before[i])
  }

  ghost predicate IsImage(schema: Schema, m: IdMap, tokens: seq<string>, before: Tables, after: Tables) {
    forall t :: IsImageOf(schema, m, tokens, t, before[t], after[t])
  }

  /** Deleting rows and changing cells commute. */
  lemma {:induction false} FilterCommutes(
    schema: Schema, m: IdMap, tokens: seq<string>, table: Table, before: seq<Row>, after: seq<Row>, keepBefore: Row -> bool,
    keepAfter: Row -> bool)
    requires table != DOWNLOADERS && IsImageOf(schema, m, tokens, table, before, after)
    requires forall i | 0 <= i < |before| :: keepAfter(after[i]) == keepBefore(before[i])
    ensures IsImageOf(schema, m, tokens, table, FilterRows(before, keepBefore), FilterRows(after, keepAfter))
  {
    hide NewCell;
    if before == [] {
    } else {
      ImageOfRest(schema, m, tokens, table, before, after);
      FilterCommutes(schema, m, tokens, table, before[1..], after[1..], keepBefore, keepAfter);
      if keepBefore(before[0]) {
        ImageOfOneMore(schema, m, tokens, table, before[0], after[0], FilterRows(before[1..], keepBefore),
                       FilterRows(after[1..], keepAfter));
      }
    }
  }

  lemma NewCellIgnoresIndex(
    schema: Schema, m: IdMap, tokens: seq<string>, table: Table, i: nat, j: nat, column: Column, row: Row)
    requires table != DOWNLOADERS
    ensures NewCell(schema, m, tokens, table, i, column, row) == NewCell(schema, m, tokens, table, j, column, row)
  {
    hide EmbeddedCell, OwnedCell, LOCAL_REWRITE_ORDER;
  }

  lemma ImageOfRest(schema: Schema, m: IdMap, tokens: seq<string>, table: Table, before: seq<Row>, after: seq<Row>)
    requires table != DOWNLOADERS && IsImageOf(schema, m, tokens, table, before, after) && before != []
    ensures IsImageOf(schema, m, tokens, table, before[1..], after[1..])
  {
    hide NewCell;
    forall i: nat, c | i < |before[1..]|
      ensures Field(after[1..][i], c) == NewCell(schema, m, tokens, table, i, c, before[1..][i])
    {
      assert Field(after[i + 1], c) == NewCell(schema, m, tokens, table, i + 1, c, before[i + 1]);
      NewCellIgnoresIndex(schema, m, tokens, table, i, i + 1, c, before[i + 1]);
    }
  }

  lemma ImageOfOneMore(
    schema: Schema, m: IdMap, tokens: seq<string>, table: Table, row: Row, next: Row, before: seq<Row>, after: seq<Row>)
    requires table != DOWNLOADERS && IsImageOf(schema, m, tokens, table, before, after)
    requires forall c :: Field(next, c) == NewCell(schema, m, tokens, table, 0, c, row)
    ensures IsImageOf(schema, m, tokens, table, [row] + before, [next] + after)
  {
    hide NewCell;
    forall i: nat, c | i < |[row] + before|
      ensures Field(([next] + after)[i], c) == NewCell(schema, m, tokens, table, i, c, ([row] + before)[i])
    {
      if i > 0 {
        assert Field(after[i - 1], c) == NewCell(schema, m, tokens, table, i - 1, c, before[i - 1]);
        NewCellIgnoresIndex(schema, m, tokens, table, i - 1, i, c, before[i - 1]);
      }
    }
  }

  lemma ClientIdsStay(schema: Schema, m: IdMap, tokens: seq<string>, table: Table, i: nat, row: Row)
    ensures NewCell(schema, m, tokens, table, i, CLIENT_ID, row) == Field(row, CLIENT_ID)
  {
    hide EmbeddedCell, LOCAL_REWRITE_ORDER;
    if (table, CLIENT_ID) in LOCAL_REWRITE_ORDER {
      ClientIdsAreNotEmbedded(table);
    }
  }

  lemma ClientIdsAreNotEmbedded(table: Table)
    ensures (table, CLIENT_ID) !in LOCAL_REWRITE_ORDER
  {
    hide LOCAL_REWRITE_ORDER;
    if i: nat :| i < |LOCAL_REWRITE_ORDER| && LOCAL_REWRITE_ORDER[i] == (table, CLIENT_ID) {
      LocalOrderHasColumns(i);
    }
  }

  lemma LocalOrderHasColumns(i: nat)
    requires i < |LOCAL_REWRITE_ORDER|
    ensures LOCAL_REWRITE_ORDER[i].1 != CLIENT_ID
  {
  }

  lemma RegisteredRowsStayRegistered(
    schema: Schema, m: IdMap, tokens: seq<string>, table: Table, i: nat, registrations: seq<Row>, next: seq<Row>, row: Row, after: Row)
    requires IsImageOf(schema, m, tokens, OAUTH_CLIENT_REGISTRATION, registrations, next)
    requires Field(after, CLIENT_ID) == NewCell(schema, m, tokens, table, i, CLIENT_ID, row)
    ensures IsRegistered(next, after) <==> IsRegistered(registrations, row)
  {
    hide NewCell;
    ClientIdsStay(schema, m, tokens, table, i, row);
    forall j: nat | j < |registrations| ensures Field(next[j], CLIENT_ID) == Field(registrations[j], CLIENT_ID) {
      ClientIdsStay(schema, m, tokens, OAUTH_CLIENT_REGISTRATION, j, registrations[j]);
    }
  }

  lemma DroppingCommutes(
    schema: Schema, m: IdMap, tokens: seq<string>, table: Table, registrations: seq<Row>, next: seq<Row>, before: seq<Row>,
    after: seq<Row>)
    requires table != DOWNLOADERS && IsImageOf(schema, m, tokens, table, before, after)
    requires IsImageOf(schema, m, tokens, OAUTH_CLIENT_REGISTRATION, registrations, next)
    ensures IsImageOf(schema, m, tokens, table, DropRegistered(registrations, before), DropRegistered(next, after))
  {
    hide NewCell, IsRegistered;
    forall i: nat | i < |before| ensures IsRegistered(next, after[i]) == IsRegistered(registrations, before[i]) {
      RegisteredRowsStayRegistered(schema, m, tokens, table, i, registrations, next, before[i], after[i]);
    }
    FilterCommutes(schema, m, tokens, table, before, after, row => !IsRegistered(registrations, row), row => !IsRegistered(next, row));
  }

  lemma ClientsAreNotInvalidated()
    ensures OAUTH_CLIENT !in INVALIDATED_TABLES && OAUTH_CLIENT_RESOURCE !in INVALIDATED_TABLES
    ensures OAUTH_CLIENT_REGISTRATION !in INVALIDATED_TABLES
  {
  }

  predicate LosesClients(schema: Schema, table: Table) {
    && HasDynamicClients(schema)
    && (table == OAUTH_CLIENT || (table == OAUTH_CLIENT_RESOURCE && schema.HasColumn(OAUTH_CLIENT_RESOURCE, CLIENT_ID)))
  }

  lemma RemainingRows(schema: Schema, tables: Tables, table: Table)
    ensures Remaining(schema, tables)[table] ==
      if table in INVALIDATED_TABLES || (table == OAUTH_CLIENT_REGISTRATION && HasDynamicClients(schema)) then []
      else if LosesClients(schema, table) then DropRegistered(tables[OAUTH_CLIENT_REGISTRATION], tables[table])
      else tables[table]
  {
    hide DropRegistered, INVALIDATED_TABLES, HasDynamicClients;
    ClientsAreNotInvalidated();
  }

  /** So the rows that remain are the image of the rows that remain. */
  lemma DeletionsCommute(schema: Schema, m: IdMap, tokens: seq<string>, before: Tables, after: Tables)
    requires IsImage(schema, m, tokens, before, after)
    ensures IsImage(schema, m, tokens, Remaining(schema, before), Remaining(schema, after))
  {
    hide Remaining, IsImageOf, DropRegistered, INVALIDATED_TABLES, LosesClients;
    forall t ensures IsImageOf(schema, m, tokens, t, Remaining(schema, before)[t], Remaining(schema, after)[t]) {
      RemainingRows(schema, before, t);
      RemainingRows(schema, after, t);
      NothingIsAnImage(schema, m, tokens, t);
      if LosesClients(schema, t) {
        ClientsAreNoDownloaders(schema, t);
        DroppingCommutes(schema, m, tokens, t, before[OAUTH_CLIENT_REGISTRATION], after[OAUTH_CLIENT_REGISTRATION],
                         before[t], after[t]);
      }
    }
  }

  lemma ClientsAreNoDownloaders(schema: Schema, table: Table)
    requires LosesClients(schema, table)
    ensures table != DOWNLOADERS
  {
  }

  lemma NothingIsAnImage(schema: Schema, m: IdMap, tokens: seq<string>, table: Table)
    ensures IsImageOf(schema, m, tokens, table, [], [])
  {
  }

  /** Before anything is deleted. */
  lemma RevokedCellIsNew(job: Job, tokens: seq<string>, table: Table, i: nat, column: Column)
    requires i < |job.prepared[table]| && column in job.prepared[table][i]
    requires WellFormedMap(job.ids) && GoodOrder(LOCAL_REWRITE_ORDER) && OwnedRenames(job.run.renames)
    requires job.run.renames == RenameList(job.run.schema, VALUE_KINDS)
    requires CellsAreRevoked(job, LOCAL_REWRITE_ORDER, RevokedOutcome(job, LOCAL_REWRITE_ORDER, tokens))
    requires !IsRevokedColumn(job.run.schema, table, column)
    ensures i < |RevokedOutcome(job, LOCAL_REWRITE_ORDER, tokens)[table]|
    ensures Field(RevokedOutcome(job, LOCAL_REWRITE_ORDER, tokens)[table][i], column) ==
      NewCell(job.run.schema, job.ids, tokens, table, i, column, job.prepared[table][i])
  {
    hide WellFormedMap, GoodOrder, OwnedRenames, RevokedOutcome, RenameList, LOCAL_REWRITE_ORDER, EmbeddedCell, OwnedCell, RenamedAt;
    var after := RevokedOutcome(job, LOCAL_REWRITE_ORDER, tokens);
    assert after[table][i].Keys == job.prepared[table][i].Keys;
    assert !IsCredentialPlace(job, table, column);
    if (table, column) in LOCAL_REWRITE_ORDER {
      EmbeddedFromPrepared(job, table, i, column);
    }
  }

  /** The direct updates touch nothing an embedded cell is rewritten from. */
  lemma EmbeddedFromPrepared(job: Job, table: Table, i: nat, column: Column)
    requires i < |job.prepared[table]| && (table, column) in LOCAL_REWRITE_ORDER
    requires WellFormedMap(job.ids) && GoodOrder(LOCAL_REWRITE_ORDER) && OwnedRenames(job.run.renames)
    ensures EmbeddedCell(job.ids, table, column, RenamedAt(job, table, i)) ==
      EmbeddedCell(job.ids, table, column, job.prepared[table][i])
  {
    hide WellFormedMap, OwnedRenames, LOCAL_REWRITE_ORDER, EmbeddedCell, RenamedAt, HoldsEmbedded, Owner, IsTypeColumn;
    UnownedCellIsPrepared(job, table, i, column);
    forall c | IsTypeColumn(c) ensures Field(RenamedAt(job, table, i), c) == Field(job.prepared[table][i], c) {
      TypeColumnsAreUnowned(c, table);
      UnownedCellIsPrepared(job, table, i, c);
    }
    EmbeddedCellReadsItselfAndTypes(job.ids, table, column, RenamedAt(job, table, i), job.prepared[table][i]);
  }

  lemma MissingCellsStayMissing(schema: Schema, m: IdMap, tokens: seq<string>, table: Table, i: nat, column: Column, row: Row)
    requires Field(row, column) == Null && !IsRevokedColumn(schema, table, column)
    ensures NewCell(schema, m, tokens, table, i, column, row) == Null
  {
    hide LOCAL_REWRITE_ORDER, EmbeddingOf, RenameList;
  }

  lemma RevokedCredential(job: Job, tokens: seq<string>, i: nat, column: Column)
    requires IsRevokedColumn(job.run.schema, DOWNLOADERS, column)
    requires i < |RevokedOutcome(job, LOCAL_REWRITE_ORDER, tokens)[DOWNLOADERS]|
    ensures Field(RevokedOutcome(job, LOCAL_REWRITE_ORDER, tokens)[DOWNLOADERS][i], column) ==
      NewCell(job.run.schema, job.ids, tokens, DOWNLOADERS, i, column, map[])
  {
    hide RewrittenTables, LOCAL_REWRITE_ORDER, EmbeddedCell, OwnedCell;
  }

  lemma CredentialsIgnoreTheRow(
    schema: Schema, m: IdMap, tokens: seq<string>, table: Table, i: nat, column: Column, a: Row, b: Row)
    requires IsRevokedColumn(schema, table, column)
    ensures NewCell(schema, m, tokens, table, i, column, a) == NewCell(schema, m, tokens, table, i, column, b)
  {
    hide LOCAL_REWRITE_ORDER, EmbeddedCell, OwnedCell;
  }

  ghost predicate IsReady(job: Job, tokens: seq<string>) {
    && WellFormedMap(job.ids) && GoodOrder(LOCAL_REWRITE_ORDER) && OwnedRenames(job.run.renames)
    && job.run.renames == RenameList(job.run.schema, VALUE_KINDS)
    && CellsAreRevoked(job, LOCAL_REWRITE_ORDER, RevokedOutcome(job, LOCAL_REWRITE_ORDER, tokens))
  }

  lemma RevokedCellsAreNew(job: Job, tokens: seq<string>, table: Table, i: nat, column: Column)
    requires IsReady(job, tokens) && i < |job.prepared[table]|
    ensures i < |RevokedOutcome(job, LOCAL_REWRITE_ORDER, tokens)[table]|
    ensures Field(RevokedOutcome(job, LOCAL_REWRITE_ORDER, tokens)[table][i], column) ==
      NewCell(job.run.schema, job.ids, tokens, table, i, column, job.prepared[table][i])
  {
    hide WellFormedMap, GoodOrder, OwnedRenames, RevokedOutcome, RenameList, LOCAL_REWRITE_ORDER, NewCell, RewrittenFrom,
      IsRevokedColumn;
    var after := RevokedOutcome(job, LOCAL_REWRITE_ORDER, tokens);
    assert |after[table]| == |job.prepared[table]| && after[table][i].Keys == job.prepared[table][i].Keys;
    if IsRevokedColumn(job.run.schema, table, column) {
      OnlyDownloadersAreRevoked(job.run.schema, table, column);
      RevokedCredential(job, tokens, i, column);
      CredentialsIgnoreTheRow(job.run.schema, job.ids, tokens, table, i, column, map[], job.prepared[table][i]);
    } else if column in job.prepared[table][i] {
      RevokedCellIsNew(job, tokens, table, i, column);
    } else {
      MissingCellsStayMissing(job.run.schema, job.ids, tokens, table, i, column, job.prepared[table][i]);
    }
  }

  lemma OnlyDownloadersAreRevoked(schema: Schema, table: Table, column: Column)
    requires IsRevokedColumn(schema, table, column)
    ensures table == DOWNLOADERS
  {
  }

  /** The outcome is the image of the prepared tables, both without the rows that are deleted. */
  lemma OutcomeIsImage(job: Job, tokens: seq<string>)
    requires IsReady(job, tokens) && Staged(job) && IsOutcome(job.run, job.original, tokens, LOCAL_REWRITE_ORDER)
    requires job.run.emptied == INVALIDATED_TABLES
    ensures IsImage(job.run.schema, job.ids, tokens, Remaining(job.run.schema, job.prepared), job.run.tables)
  {
    hide IsReady, Staged, IsOutcome, RevokedOutcome, LOCAL_REWRITE_ORDER, NewCell, INVALIDATED_TABLES, DropDynamicClients,
      ClearTables;
    var revoked := RevokedOutcome(job, LOCAL_REWRITE_ORDER, tokens);
    forall t ensures IsImageOf(job.run.schema, job.ids, tokens, t, job.prepared[t], revoked[t]) {
      ReadyLengths(job, tokens, t);
      forall i: nat, c | i < |job.prepared[t]|
        ensures Field(revoked[t][i], c) == NewCell(job.run.schema, job.ids, tokens, t, i, c, job.prepared[t][i])
      {
        RevokedCellsAreNew(job, tokens, t, i, c);
      }
    }
    DeletionsCommute(job.run.schema, job.ids, tokens, job.prepared, revoked);
    OutcomeIsDeletedFromRevoked(job, tokens, LOCAL_REWRITE_ORDER);
  }

  lemma ReadyLengths(job: Job, tokens: seq<string>, table: Table)
    requires IsReady(job, tokens)
    ensures |RevokedOutcome(job, LOCAL_REWRITE_ORDER, tokens)[table]| == |job.prepared[table]|
  {
    hide WellFormedMap, GoodOrder, OwnedRenames, RevokedOutcome, RenameList, LOCAL_REWRITE_ORDER;
  }

  // Primary values.

  lemma PrimaryIsTarget(kind: Kind)
    ensures Primary(kind) in Targets(kind)
    ensures Primary(kind).table == PrimaryTable(kind) && Primary(kind).column == PrimaryColumn(kind)
  {
    hide References;
    assert Targets(kind)[0] == Primary(kind);
  }

  /** A column the kind owns is renamed, and nothing else happens to it. */
  lemma TargetsAreRenamed(
    schema: Schema, m: IdMap, tokens: seq<string>, kind: Kind, target: Reference, i: nat, row: Row)
    requires kind in VALUE_KINDS && target in Targets(kind)
    requires schema.HasColumn(target.table, target.column) || Field(row, target.column) == Null
    ensures NewCell(schema, m, tokens, target.table, i, target.column, row) ==
      RenamedCell(m, kind, Field(row, target.column))
  {
    hide Targets, LOCAL_REWRITE_ORDER, VALUE_KINDS, Owner, RenameList, EmbeddedCell, HasCredentials;
    TargetsHaveOneOwner(kind, target);
    CredentialsAreUnowned(target.table, target.column);
    if (target.table, target.column) in LOCAL_REWRITE_ORDER {
      LocalOrderCoversEmbedded(target.table, target.column);
      EmbeddedColumnsAreSeparate(target.table, target.column);
    }
    if schema.HasColumn(target.table, target.column) {
      TargetIsRenamed(schema, VALUE_KINDS, kind, target);
    }
  }

  lemma CredentialsAreUnowned(table: Table, column: Column)
    ensures IsCredential(column) ==> Owner(table, column).None?
  {
  }

  /** Some primary value of the kind becomes this value. */
  ghost predicate Becomes(m: IdMap, kind: Kind, tables: Tables, value: string) {
    exists row | row in tables[PrimaryTable(kind)] ::
      Field(row, PrimaryColumn(kind)).Text? && Renamed(m, kind, Field(row, PrimaryColumn(kind)).text) == value
  }

  /** The value is a primary value of the kind, or the map confuses it with one. */
  ghost predicate NamesPrimary(m: IdMap, kind: Kind, tables: Tables, value: string) {
    exists row | row in tables[PrimaryTable(kind)] ::
      && Field(row, PrimaryColumn(kind)).Text?
      && var primary := Field(row, PrimaryColumn(kind)).text;
        primary == value || IdIsomorphism.Collides(m, kind, value, primary)
  }

  lemma NamesWhatItBecomes(m: IdMap, kind: Kind, tables: Tables, value: string)
    requires NewValuesDistinct(m)
    ensures NamesPrimary(m, kind, tables, value) <==> Becomes(m, kind, tables, Renamed(m, kind, value))
  {
    hide NewValuesDistinct, IdIsomorphism.Collides, PrimaryTable, PrimaryColumn, Renamed;
    forall primary: string
      ensures (primary == value || IdIsomorphism.Collides(m, kind, value, primary)) <==>
        Renamed(m, kind, primary) == Renamed(m, kind, value)
    {
      IdIsomorphism.EqualityIsKept(m, kind, value, primary);
      EqualIsNoCollision(m, kind, value);
    }
  }

  lemma EqualIsNoCollision(m: IdMap, kind: Kind, value: string)
    ensures !IdIsomorphism.Collides(m, kind, value, value)
  {
  }

  /** No new value of the kind is stored in the primary column. */
  ghost predicate IsUnused(m: IdMap, kind: Kind, tables: Tables) {
    forall key | key in m && key.0 == kind :: !IsPrimaryValue(kind, tables, Text(m[key]))
  }

  ghost predicate IsOldValue(m: IdMap, kind: Kind, value: string) {
    forall key | key in m && key.0 == kind :: m[key] != value
  }

  /** With fresh draws nothing is confused. */
  lemma FreshDrawsConfuseNothing(m: IdMap, kind: Kind, tables: Tables, value: string)
    requires IsUnused(m, kind, tables) && IsOldValue(m, kind, value)
    ensures NamesPrimary(m, kind, tables, value) <==> IsPrimaryValue(kind, tables, Text(value))
  {
    hide PrimaryTable, PrimaryColumn;
    forall row | row in tables[PrimaryTable(kind)] && Field(row, PrimaryColumn(kind)).Text?
      ensures !IdIsomorphism.Collides(m, kind, value, Field(row, PrimaryColumn(kind)).text)
    {
      assert IsPrimaryValue(kind, tables, Field(row, PrimaryColumn(kind)));
    }
  }

  /** The columns of the rows are those of the schema, wherever a kind has its primary column. */
  ghost predicate PrimaryConforms(schema: Schema, kind: Kind, tables: Tables) {
    schema.HasColumn(PrimaryTable(kind), PrimaryColumn(kind))
    || forall row | row in tables[PrimaryTable(kind)] :: Field(row, PrimaryColumn(kind)) == Null
  }

  /** What a value finds in the outcome. */
  lemma TargetsInOutcome(
    schema: Schema, m: IdMap, tokens: seq<string>, kept: Tables, outcome: Tables, kind: Kind, value: string)
    requires IsImage(schema, m, tokens, kept, outcome) && kind in VALUE_KINDS && PrimaryConforms(schema, kind, kept)
    ensures IsTarget(outcome, PrimaryTable(kind), PrimaryColumn(kind), Text(value)) <==> Becomes(m, kind, kept, value)
  {
    hide IsImage, PrimaryTable, PrimaryColumn, NewCell, Targets, VALUE_KINDS, Renamed;
    var table, column := PrimaryTable(kind), PrimaryColumn(kind);
    PrimaryIsTarget(kind);
    ImageOfTable(schema, m, tokens, kept, outcome, table);
    forall i: nat | i < |kept[table]| ensures Field(outcome[table][i], column) == RenamedCell(m, kind, Field(kept[table][i], column)) {
      assert kept[table][i] in kept[table];
      TargetsAreRenamed(schema, m, tokens, kind, Primary(kind), i, kept[table][i]);
    }
    if IsTarget(outcome, table, column, Text(value)) {
      var other :| other in outcome[table] && Field(other, column) == Text(value);
      var i: nat :| i < |outcome[table]| && outcome[table][i] == other;
      assert kept[table][i] in kept[table];
    }
    if Becomes(m, kind, kept, value) {
      var row :| row in kept[table] && Field(row, column).Text? && Renamed(m, kind, Field(row, column).text) == value;
      var i: nat :| i < |kept[table]| && kept[table][i] == row;
      assert outcome[table][i] in outcome[table];
    }
  }

  lemma ImageOfTable(schema: Schema, m: IdMap, tokens: seq<string>, kept: Tables, outcome: Tables, table: Table)
    requires IsImage(schema, m, tokens, kept, outcome)
    ensures IsImageOf(schema, m, tokens, table, kept[table], outcome[table])
  {
    hide IsImageOf;
  }

  /** A primary value is replaced or has the right format already. */
  ghost predicate PrimariesAreGood(m: IdMap, kind: Kind, tables: Tables) {
    forall row | row in tables[PrimaryTable(kind)] && Field(row, PrimaryColumn(kind)).Text? ::
      (kind, Field(row, PrimaryColumn(kind)).text) in m || MappedValueIsValid(kind, Field(row, PrimaryColumn(kind)).text)
  }

  /** The rows that remain, before and after a run with a complete map. */
  ghost predicate IsRunOn(schema: Schema, m: IdMap, tokens: seq<string>, kept: Tables, outcome: Tables) {
    && IsImage(schema, m, tokens, kept, outcome) && WellFormedMap(m) && NewValuesDistinct(m)
    && (forall kind | kind in VALUE_KINDS :: PrimaryConforms(schema, kind, kept))
    && forall kind | kind in VALUE_KINDS && !RotatesAll(kind) :: PrimariesAreGood(m, kind, kept)
  }

  lemma BecomingIsValid(m: IdMap, kind: Kind, tables: Tables, value: string)
    requires NewValuesValid(m) && PrimariesAreGood(m, kind, tables) && Becomes(m, kind, tables, value)
    ensures MappedValueIsValid(kind, value)
  {
    hide MappedValueIsValid, PrimaryTable, PrimaryColumn;
  }

  /** What the value of a reference finds in the outcome. */
  lemma RenamedTargets(
    schema: Schema, m: IdMap, tokens: seq<string>, kept: Tables, outcome: Tables, kind: Kind, value: string)
    requires IsRunOn(schema, m, tokens, kept, outcome) && kind in VALUE_KINDS
    ensures IsTarget(outcome, PrimaryTable(kind), PrimaryColumn(kind), Text(Renamed(m, kind, value)))
      <==> NamesPrimary(m, kind, kept, value)
    ensures NamesPrimary(m, kind, kept, value) && !RotatesAll(kind) ==> MappedValueIsValid(kind, Renamed(m, kind, value))
  {
    hide IsImage, NewValuesDistinct, PrimaryConforms, PrimariesAreGood, PrimaryTable, PrimaryColumn, VALUE_KINDS, NamesPrimary,
      Becomes, IsTarget, MappedValueIsValid, RotatesAll, Renamed, UnrotatedOldValuesInvalid, RotatedOldAndNewDisjoint, NewValuesValid;
    TargetsInOutcome(schema, m, tokens, kept, outcome, kind, Renamed(m, kind, value));
    NamesWhatItBecomes(m, kind, kept, value);
    if NamesPrimary(m, kind, kept, value) && !RotatesAll(kind) {
      BecomingIsValid(m, kind, kept, Renamed(m, kind, value));
    }
  }

  // Polymorphic columns.

  lemma TypedEmbedding(p: Polymorphic)
    requires p in POLYMORPHIC_REFERENCES
    ensures EmbeddingOf(p.table, p.valueColumn) == Typed(p.typeColumn, p.typeKinds)
    ensures (p.table, p.valueColumn) in POLYMORPHIC_COLUMNS && IsTypeColumn(p.typeColumn)
  {
    hide EmbeddingOf;
    var i: nat :| i < |POLYMORPHIC_REFERENCES| && POLYMORPHIC_REFERENCES[i] == p;
    assert (p.table, p.valueColumn) == POLYMORPHIC_COLUMNS[i];
    TypedEmbeddingAt(i);
  }

  lemma TypedEmbeddingAt(i: nat)
    requires i < |POLYMORPHIC_REFERENCES|
    ensures var p := POLYMORPHIC_REFERENCES[i];
      EmbeddingOf(p.table, p.valueColumn) == Typed(p.typeColumn, p.typeKinds)
  {
  }

  lemma PolymorphicColumnsComeFirst(table: Table, column: Column)
    requires (table, column) in POLYMORPHIC_COLUMNS
    ensures (table, column) in LOCAL_REWRITE_ORDER
  {
    assert LOCAL_REWRITE_ORDER == POLYMORPHIC_COLUMNS + (JSON_COLUMNS + STRUCTURED_COLUMNS);
  }

  /** A typed cell is rewritten by its type, which stays. */
  lemma TypedCells(schema: Schema, m: IdMap, tokens: seq<string>, p: Polymorphic, i: nat, row: Row)
    requires p in POLYMORPHIC_REFERENCES
    ensures NewCell(schema, m, tokens, p.table, i, p.typeColumn, row) == Field(row, p.typeColumn)
    ensures NewCell(schema, m, tokens, p.table, i, p.valueColumn, row) ==
      PolymorphicCell(m, p.typeKinds, Field(row, p.typeColumn), Field(row, p.valueColumn))
  {
    hide LOCAL_REWRITE_ORDER, PolymorphicCell, RenameList, EmbeddingOf, POLYMORPHIC_REFERENCES, HasCredentials, Owner, IsTypeColumn,
      HoldsEmbedded;
    TypedEmbedding(p);
    PolymorphicColumnsComeFirst(p.table, p.valueColumn);
    LocalOrderVisitsEachOnce();
    LocalOrderCoversEmbedded(p.table, p.valueColumn);
    EmbeddedColumnsAreSeparate(p.table, p.valueColumn);
    DownloadersHoldNoDocuments();
    TypeColumnsAreUnowned(p.typeColumn, p.table);
    assert (p.table, p.typeColumn) !in LOCAL_REWRITE_ORDER;
  }

  lemma DownloadersHoldNoDocuments()
    ensures !HoldsEmbedded(DOWNLOADERS)
  {
  }
}
