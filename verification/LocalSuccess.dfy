/** When a local run succeeds, once its map is built: what its validation can still reject, and nothing else. */
module LocalSuccess {
  import opened Wrappers
  import opened IdRegistry
  import opened IdValues
  import opened IdMapTable
  import opened JsonText
  import opened JsonReferences
  import opened IdTables
  import opened JsonAssertions
  import opened IdMigration
  import opened IdCollection
  import opened IdValidation
  import opened D1Plan
  import opened D1Progress
  import opened LocalOutcome
  import opened LocalDatabase
  import opened LocalImage
  import opened LocalReferences

  /** The job of a local run whose map is complete. */
  ghost predicate IsNormalized(job: Job, tokens: seq<string>, start: seq<MapRow>) {
    && Staged(job) && IsOutcome(job.run, job.original, tokens, LOCAL_REWRITE_ORDER) && VisitsTheRegistry(job.run)
    && Conforms(job.run.schema, job.original)
    && WellFormedMap(job.ids) && NewValuesDistinct(job.ids) && HasGeneratedLengths(job.ids)
    && forall kind | kind in VALUE_KINDS :: MapsCollected(job.run.schema, kind, job.prepared, start, job.ids)
  }

  function Revoked(job: Job, tokens: seq<string>): Tables {
    RevokedOutcome(job, LOCAL_REWRITE_ORDER, tokens)
  }

  lemma OutcomeFacts(job: Job, tokens: seq<string>, start: seq<MapRow>)
    requires IsNormalized(job, tokens, start)
    ensures GoodOrder(LOCAL_REWRITE_ORDER) && OwnedRenames(job.run.renames)
    ensures CellsAreRevoked(job, LOCAL_REWRITE_ORDER, Revoked(job, tokens))
  {
    hide Staged, IsOutcome, Conforms, WellFormedMap, HasGeneratedLengths, MapsCollected, GoodOrder, RenameList,
      CellsAreRevoked, RevokedOutcome, ExistingColumns;
    RegistryOrderIsGood();
    RenameListIsOwned(job.run.schema, VALUE_KINDS);
    RevokedCells(job, tokens, LOCAL_REWRITE_ORDER, VALUE_KINDS);
  }

  /** A table whose rows are not deleted. */
  predicate IsSpared(table: Table) {
    table !in INVALIDATED_TABLES && !HoldsClients(table)
  }

  lemma SparedTablesKeepTheirRows(job: Job, tokens: seq<string>, start: seq<MapRow>, table: Table)
    requires IsNormalized(job, tokens, start) && IsSpared(table)
    ensures job.run.tables[table] == Revoked(job, tokens)[table]
    ensures |job.run.tables[table]| == |job.prepared[table]| == |job.original[table]|
  {
    hide Staged, Conforms, WellFormedMap, HasGeneratedLengths, MapsCollected, GoodOrder, RevokedOutcome, IsOutcome,
      RenameList, ExistingColumns;
    OutcomeFacts(job, tokens, start);
    OutcomeIsDeletedFromRevoked(job, tokens, LOCAL_REWRITE_ORDER);
    DeletionsKeepRows(job.run.schema, INVALIDATED_TABLES, Revoked(job, tokens));
    RevokedLengths(job, LOCAL_REWRITE_ORDER, Revoked(job, tokens), table);
    StagedIsShaped(job);
    SameShapeKeepsCount(job, table);
  }

  lemma SameShapeKeepsCount(job: Job, table: Table)
    requires Shaped(job)
    ensures |job.prepared[table]| == |job.original[table]|
  {
  }

  lemma EmptiedTablesAreEmpty(job: Job, tokens: seq<string>, start: seq<MapRow>, table: Table)
    requires IsNormalized(job, tokens, start) && table in INVALIDATED_TABLES
    ensures job.run.tables[table] == []
  {
    hide Staged, Conforms, WellFormedMap, HasGeneratedLengths, MapsCollected, RevokedOutcome, IsOutcome, RenameList,
      ExistingColumns, ClearTables, DropDynamicClients, Kept;
    OutcomeIsDeletedFromRevoked(job, tokens, LOCAL_REWRITE_ORDER);
    InvalidatedTablesAreNotKept(table);
    ClearedTablesStayEmpty(job.run.schema, INVALIDATED_TABLES, Revoked(job, tokens), table);
  }

  lemma ClearedTablesStayEmpty(schema: Schema, emptied: seq<Table>, tables: Tables, table: Table)
    requires table in emptied && table != OAUTH_CLIENT && table != OAUTH_CLIENT_RESOURCE
    requires table != OAUTH_CLIENT_REGISTRATION
    ensures DropDynamicClients(schema, ClearTables(emptied, tables))[table] == []
  {
    hide DropRegistered, HasDynamicClients;
  }

  // Formats.

  /** Every primary column passes its format check, if and only if no empty token remains. */
  lemma PrimaryFormatExactlyIf(job: Job, tokens: seq<string>, start: seq<MapRow>, kind: Kind)
    requires IsNormalized(job, tokens, start) && kind in VALUE_KINDS
    requires job.run.schema.HasColumn(PrimaryTable(kind), PrimaryColumn(kind))
    ensures Holds(Format(kind, PrimaryTable(kind), PrimaryColumn(kind), false), job.run.tables)
      <==> EmptyTokensAreMapped(kind, job.prepared, job.ids)
  {
    hide Staged, Conforms, WellFormedMap, HasGeneratedLengths, MapsCollected, IsOutcome, RenameList, ExistingColumns,
      PrimaryTable, PrimaryColumn, References, Holds, RotatedValuesArePresent;
    if EmptyTokensAreMapped(kind, job.prepared, job.ids) {
      RegistryOrderIsGood();
      FormatPassFindsNothing(job, tokens, LOCAL_REWRITE_ORDER, VALUE_KINDS, start, kind, Primary(kind));
    } else {
      EmptyTokenRemains(job, tokens, start, kind);
    }
  }

  lemma NormalizedVisits(job: Job, tokens: seq<string>, start: seq<MapRow>)
    requires IsNormalized(job, tokens, start)
    ensures job.run.renames == RenameList(job.run.schema, VALUE_KINDS)
  {
    hide Staged, Conforms, WellFormedMap, HasGeneratedLengths, MapsCollected, IsOutcome, RenameList, ExistingColumns;
  }

  lemma RotatedTablesAreSpared(kind: Kind)
    requires RotatesAll(kind)
    ensures IsSpared(PrimaryTable(kind))
  {
  }

  lemma EmptyTokenRemains(job: Job, tokens: seq<string>, start: seq<MapRow>, kind: Kind)
    requires IsNormalized(job, tokens, start) && kind in VALUE_KINDS
    requires job.run.schema.HasColumn(PrimaryTable(kind), PrimaryColumn(kind))
    requires !EmptyTokensAreMapped(kind, job.prepared, job.ids)
    ensures !Holds(Format(kind, PrimaryTable(kind), PrimaryColumn(kind), false), job.run.tables)
  {
    hide IsNormalized, PrimaryTable, PrimaryColumn, References, CellsAreRevoked, RevokedOutcome, Revoked, IsRenamed, GoodOrder,
      Holds, Targets, RotatesAll, IsSpared;
    NormalizedVisits(job, tokens, start);
    var table, column := PrimaryTable(kind), PrimaryColumn(kind);
    var row :| row in job.prepared[table] && Field(row, column) == Text("");
    var i: nat :| i < |job.prepared[table]| && job.prepared[table][i] == row;
    OutcomeFacts(job, tokens, start);
    RotatedTablesAreSpared(kind);
    SparedTablesKeepTheirRows(job, tokens, start, table);
    PrimaryIsTarget(kind);
    TargetIsRenamed(job.run.schema, VALUE_KINDS, kind, Primary(kind));
    RevokedCellIsRenamed(job, LOCAL_REWRITE_ORDER, kind, Primary(kind), Revoked(job, tokens), i);
    var after := job.run.tables[table][i];
    assert after in job.run.tables[table] && Field(after, column) == Text("");
    EmptyCellFails(kind, table, column, job.run.tables, after);
  }

  lemma EmptyCellFails(kind: Kind, table: Table, column: Column, tables: Tables, row: Row)
    requires row in tables[table] && Field(row, column) == Text("")
    ensures !Holds(Format(kind, table, column, false), tables)
  {
    hide InvalidValue;
    EmptyIsInvalid(kind);
    assert !RowIsWellFormed(Format(kind, table, column, false), tables, row);
  }

  lemma EmptyIsInvalid(kind: Kind)
    ensures InvalidValue(kind, "", false)
  {
  }

  /** Historical references always pass. */
  lemma HistoricalFormatHolds(job: Job, tokens: seq<string>, start: seq<MapRow>, kind: Kind, target: Reference)
    requires IsNormalized(job, tokens, start) && kind in VALUE_KINDS
    requires target in References(kind) && target.allowDangling && job.run.schema.HasColumn(target.table, target.column)
    ensures Holds(Format(kind, target.table, target.column, EmptyIsSentinel(target.table, target.column)), job.run.tables)
  {
    hide Staged, Conforms, WellFormedMap, HasGeneratedLengths, MapsCollected, IsOutcome, RenameList, ExistingColumns,
      References, Holds, RotatedValuesArePresent, EmptyIsSentinel;
    RegistryOrderIsGood();
    ReferencesAreTargets(kind, target);
    FormatPassFindsNothing(job, tokens, LOCAL_REWRITE_ORDER, VALUE_KINDS, start, kind, target);
  }

  /** Columns that are only validated belong to emptied tables. */
  lemma PlainFormatHolds(job: Job, tokens: seq<string>, start: seq<MapRow>, v: Validation)
    requires IsNormalized(job, tokens, start) && v in PlainFormats(job.run.schema, VALIDATE_ONLY_COLUMNS)
    ensures Holds(v, job.run.tables)
  {
    hide IsNormalized, PlainFormats, RowIsWellFormed;
    PlainFormatsCheck(job.run.schema, VALIDATE_ONLY_COLUMNS, v);
    PlainColumnsAreEmptied(v.table, v.column);
    EmptiedTablesAreEmpty(job, tokens, start, v.table);
  }

  lemma {:induction false} PlainFormatsCheck(schema: Schema, columns: seq<(Table, Column)>, v: Validation)
    requires v in PlainFormats(schema, columns)
    ensures v.Format? && (v.table, v.column) in columns
  {
    if v in PlainFormats(schema, columns[1..]) {
      PlainFormatsCheck(schema, columns[1..], v);
    }
  }

  lemma PlainColumnsAreEmptied(table: Table, column: Column)
    requires (table, column) in VALIDATE_ONLY_COLUMNS
    ensures table in INVALIDATED_TABLES
  {
    assert INVALIDATED_TABLES[0] == SESSION && INVALIDATED_TABLES[1] == VERIFICATION;
    assert INVALIDATED_TABLES[2] == DOWNLOADER_BOOTSTRAP_CREDENTIALS && INVALIDATED_TABLES[3] == OAUTH_ACCESS_TOKEN;
    assert INVALIDATED_TABLES[4] == OAUTH_REFRESH_TOKEN && INVALIDATED_TABLES[5] == OAUTH_PUSHED_AUTHORIZATION_REQUEST;
    assert INVALIDATED_TABLES[6] == OAUTH_CLIENT_ASSERTION && INVALIDATED_TABLES[7] == OAUTH_CONSENT;
  }

  // Polymorphic columns.

  lemma TypedKindsAreListed(p: Polymorphic, name: string)
    requires p in POLYMORPHIC_REFERENCES && name in p.typeKinds
    ensures p.typeKinds[name] in VALUE_KINDS && p.typeKinds[name].RowId?
  {
    EntityKinds(name);
    OtherKinds(name);
    TypedKindIsListed(p.typeKinds[name]);
  }

  /** A typed value that is no new value and needs none is plain. */
  lemma UnmappedTypedValueIsPlain(
    schema: Schema, tables: Tables, start: seq<MapRow>, m: IdMap, p: Polymorphic, row: Row, name: string, value: string)
    requires p in POLYMORPHIC_REFERENCES && name in p.typeKinds
    requires MapsCollected(schema, p.typeKinds[name], tables, start, m) && (p.typeKinds[name], value) !in m
    requires schema.HasColumn(p.table, p.valueColumn) && row in tables[p.table]
    requires Field(row, p.typeColumn) == Text(name) && Field(row, p.valueColumn) == Text(value)
    ensures !HasForeignChar(value)
  {
    hide MapsCollected, IsSource, HasForeignChar, MappedValueIsValid;
    var kind := p.typeKinds[name];
    TypedKindsAreListed(p, name);
    if HasForeignChar(value) {
      var source := MappingSource(p.table, p.valueColumn, Some((p.typeColumn, name)), true);
      TypedIsSource(kind, p, name);
      ForeignIsNotEmpty(value);
      UnmappedNeedsNoMapping(schema, kind, source, tables, start, m, row, value);
      if MappedValueIsValid(kind, value) {
        ValidValuesAreBase62(kind, value);
      }
    }
  }

  lemma ForeignIsNotEmpty(value: string)
    requires HasForeignChar(value)
    ensures value != ""
  {
  }

  lemma TypedIsSource(kind: Kind, p: Polymorphic, name: string)
    requires p in POLYMORPHIC_REFERENCES && name in p.typeKinds && p.typeKinds[name] == kind
    ensures IsSource(kind, MappingSource(p.table, p.valueColumn, Some((p.typeColumn, name)), true))
  {
    hide HistoricalSources, FurtherSources, References;
    assert IsTypedSource(kind, p, name, MappingSource(p.table, p.valueColumn, Some((p.typeColumn, name)), true));
  }

  /** A typed value after the rewrite. */
  lemma TypedRowIsWellFormed(job: Job, tokens: seq<string>, start: seq<MapRow>, p: Polymorphic, from: Row, row: Row)
    requires IsNormalized(job, tokens, start) && p in POLYMORPHIC_REFERENCES
    requires job.run.schema.HasColumn(p.table, p.valueColumn) && from in job.prepared[p.table]
    requires Field(row, p.typeColumn) == Field(from, p.typeColumn)
    requires Field(row, p.valueColumn) ==
      PolymorphicCell(job.ids, p.typeKinds, Field(from, p.typeColumn), Field(from, p.valueColumn))
    ensures RowIsWellFormed(TypedFormat(p), job.run.tables, row)
  {
    hide IsNormalized, HasForeignChar, MappedValueIsValid, MapsCollected;
    var kindCell, cell := Field(from, p.typeColumn), Field(from, p.valueColumn);
    if kindCell.Text? && kindCell.text in p.typeKinds && cell.Text? {
      var key := (p.typeKinds[kindCell.text], cell.text);
      TypedKindsAreListed(p, kindCell.text);
      MapCovers(job, tokens, start, key.0);
      if key in job.ids {
        ValidValuesAreBase62(key.0, job.ids[key]);
      } else {
        UnmappedTypedValueIsPlain(job.run.schema, job.prepared, start, job.ids, p, from, kindCell.text, cell.text);
      }
    }
  }

  lemma MapCovers(job: Job, tokens: seq<string>, start: seq<MapRow>, kind: Kind)
    requires IsNormalized(job, tokens, start) && kind in VALUE_KINDS
    ensures MapsCollected(job.run.schema, kind, job.prepared, start, job.ids) && NewValuesValid(job.ids)
  {
    hide Staged, Conforms, HasGeneratedLengths, MapsCollected, IsOutcome, VisitsTheRegistry;
  }

  lemma TypedFormatHolds(job: Job, tokens: seq<string>, start: seq<MapRow>, p: Polymorphic)
    requires IsNormalized(job, tokens, start) && p in POLYMORPHIC_REFERENCES
    requires job.run.schema.HasColumn(p.table, p.valueColumn)
    ensures Holds(TypedFormat(p), job.run.tables)
  {
    hide IsNormalized, RowIsWellFormed, PolymorphicCell, IsReady, NewCell, Remaining, IsImage, WellFormedMap, NewValuesDistinct,
      INVALIDATED_TABLES, POLYMORPHIC_REFERENCES;
    NormalizedIsReady(job, tokens, start);
    var kept := Remaining(job.run.schema, job.prepared);
    RemainingRowsArePrepared(job.run.schema, job.prepared);
    ImageOfTable(job.run.schema, job.ids, tokens, kept, job.run.tables, p.table);
    forall row | row in job.run.tables[p.table] ensures RowIsWellFormed(TypedFormat(p), job.run.tables, row) {
      var i: nat :| i < |job.run.tables[p.table]| && job.run.tables[p.table][i] == row;
      assert kept[p.table][i] in kept[p.table];
      TypedCells(job.run.schema, job.ids, tokens, p, i, kept[p.table][i]);
      TypedRowIsWellFormed(job, tokens, start, p, kept[p.table][i], row);
    }
  }

  // All of validation.

  /** The queries that validation shares with the plan and that depend on what refers to what. */
  function ReferenceQueries(schema: Schema): seq<Validation> {
    KeyResolutions(schema.foreignKeys)
    + KindResolutions(schema, VALUE_KINDS)
    + TypedResolutions(schema, NOTIFICATION_TARGETS)
    + (if schema.HasColumn(OBJECT_UPLOAD_SESSIONS, CREATED_BY) then [CreatorFormat, CreatorResolves] else [])
  }

  ghost predicate DocumentsAreSound(schema: Schema, tables: Tables) {
    forall tc, row | tc in JSON_COLUMNS && row in tables[tc.0] :: DocumentIsSound(schema, tables, tc, row)
  }

  /** What validation asks of references and documents in the outcome. */
  ghost predicate OutcomeIsInOrder(schema: Schema, outcome: Tables) {
    && (forall kind, ref | IsLiveReference(schema, kind, ref) :: Holds(FormatOfReference(kind, ref), outcome))
    && (forall v | v in ReferenceQueries(schema) :: Holds(v, outcome))
    && DocumentsAreSound(schema, outcome)
  }

  /** What every reference must be before the run, among the rows that remain. */
  ghost predicate ReferencesStand(schema: Schema, m: IdMap, tokens: seq<string>, kept: Tables) {
    && (forall kind, ref | IsLiveReference(schema, kind, ref) :: ReferenceStands(schema, m, kind, ref, kept))
    && (forall key | key in schema.foreignKeys :: KeyStands(schema, m, tokens, kept, key))
    && (schema.HasColumn(NOTIFICATIONS, REF_TYPE) && schema.HasColumn(NOTIFICATIONS, REF_ID) ==>
          forall to | to in NOTIFICATION_TARGETS && schema.HasColumn(to.1, ID) :: NotificationsStand(m, kept, to))
    && (schema.HasColumn(OBJECT_UPLOAD_SESSIONS, CREATED_BY) ==> CreatorsStand(m, kept))
    && (forall source | source in JSON_COLUMNS :: DocumentsStand(schema, m, kept, source))
  }

  /**
   * The condition for success, on the map and the tables before the run: no empty token is left unmapped, no event names
   * a task with a colon, and every reference in a row that remains stands.
   */
  ghost predicate NothingDangles(schema: Schema, m: IdMap, tokens: seq<string>, prepared: Tables) {
    && (forall kind | kind in VALUE_KINDS && schema.HasColumn(PrimaryTable(kind), PrimaryColumn(kind)) ::
          EmptyTokensAreMapped(kind, prepared, m))
    && EventTaskIdsArePlain(schema, prepared)
    && ReferencesStand(schema, m, tokens, Remaining(schema, prepared))
  }

  lemma {:induction false} ColumnFormatsCheck(schema: Schema, kind: Kind, references: seq<Reference>, v: Validation)
    ensures v in ColumnFormats(schema, kind, references) <==>
      exists ref | ref in references && schema.HasColumn(ref.table, ref.column) ::
        v == Format(kind, ref.table, ref.column, EmptyIsSentinel(ref.table, ref.column))
  {
    hide EmptyIsSentinel;
    if references != [] {
      ColumnFormatsCheck(schema, kind, references[1..], v);
      assert references == [references[0]] + references[1..];
    }
  }

  ghost predicate IsKindFormat(schema: Schema, kind: Kind, v: Validation) {
    v in PrimaryFormat(schema, kind) || v in ColumnFormats(schema, kind, References(kind))
  }

  lemma FirstKindFormats(schema: Schema, kinds: seq<Kind>, v: Validation)
    requires kinds != []
    ensures v in KindFormats(schema, kinds) <==>
      (IsKindFormat(schema, kinds[0], v) || v in KindFormats(schema, kinds[1..]))
  {
    hide PrimaryFormat, ColumnFormats, References;
    var kind := kinds[0];
    InFour(PrimaryFormat(schema, kind), ColumnFormats(schema, kind, References(kind)), KindFormats(schema, kinds[1..]), [], v);
  }

  lemma {:induction false} KindFormatsCheck(schema: Schema, kinds: seq<Kind>, v: Validation)
    ensures v in KindFormats(schema, kinds) <==> exists kind | kind in kinds :: IsKindFormat(schema, kind, v)
  {
    hide PrimaryFormat, ColumnFormats, References, IsKindFormat;
    if kinds != [] {
      KindFormatsCheck(schema, kinds[1..], v);
      FirstKindFormats(schema, kinds, v);
      assert kinds == [kinds[0]] + kinds[1..];
    }
  }

  lemma {:induction false} TypedFormatsCheck(schema: Schema, references: seq<Polymorphic>, v: Validation)
    requires v in TypedFormats(schema, references)
    ensures exists p | p in references && schema.HasColumn(p.table, p.valueColumn) :: v == TypedFormat(p)
  {
    if v in TypedFormats(schema, references[1..]) {
      TypedFormatsCheck(schema, references[1..], v);
      assert references == [references[0]] + references[1..];
    }
  }

  /** The queries fall into those on references and those on formats. */
  lemma QueriesAre(schema: Schema, v: Validation)
    ensures v in RegistryValidations(schema) <==>
      (v in ReferenceQueries(schema) || v in KindFormats(schema, VALUE_KINDS)
       || v in PlainFormats(schema, VALIDATE_ONLY_COLUMNS) || v in TypedFormats(schema, POLYMORPHIC_REFERENCES))
  {
    hide KeyResolutions, KindResolutions, TypedResolutions, KindFormats, PlainFormats, TypedFormats;
    var keys, kinds, typed := KeyResolutions(schema.foreignKeys), KindResolutions(schema, VALUE_KINDS),
      TypedResolutions(schema, NOTIFICATION_TARGETS);
    var creators: seq<Validation> :=
      if schema.HasColumn(OBJECT_UPLOAD_SESSIONS, CREATED_BY) then [CreatorFormat, CreatorResolves] else [];
    assert ReferenceQueries(schema) == keys + kinds + typed + creators;
    InFour(keys, kinds, typed, creators, v);
    var a, b, c := KindFormats(schema, VALUE_KINDS), PlainFormats(schema, VALIDATE_ONLY_COLUMNS),
      TypedFormats(schema, POLYMORPHIC_REFERENCES);
    assert RegistryValidations(schema) == keys + a + b + kinds + c + typed + creators;
    InFour(keys, a, b, kinds, v);
    InFour(keys + a + b + kinds, c, typed, creators, v);
  }

  lemma InFour(a: seq<Validation>, b: seq<Validation>, c: seq<Validation>, d: seq<Validation>, v: Validation)
    ensures v in a + b + c + d <==> v in a || v in b || v in c || v in d
  {
  }

  /** A format check of a kind that does not concern a live reference. */
  lemma KindFormatHolds(job: Job, tokens: seq<string>, start: seq<MapRow>, kind: Kind, v: Validation)
    requires IsNormalized(job, tokens, start) && kind in VALUE_KINDS && IsKindFormat(job.run.schema, kind, v)
    requires job.run.schema.HasColumn(PrimaryTable(kind), PrimaryColumn(kind)) ==>
      EmptyTokensAreMapped(kind, job.prepared, job.ids)
    requires forall ref | IsLiveReference(job.run.schema, kind, ref) :: Holds(FormatOfReference(kind, ref), job.run.tables)
    ensures Holds(v, job.run.tables)
  {
    hide IsNormalized, References, PrimaryTable, PrimaryColumn, EmptyTokensAreMapped, EmptyIsSentinel, Holds, ColumnFormats;
    if v in PrimaryFormat(job.run.schema, kind) {
      PrimaryFormatExactlyIf(job, tokens, start, kind);
    } else {
      ColumnFormatsCheck(job.run.schema, kind, References(kind), v);
      var ref :| ref in References(kind) && job.run.schema.HasColumn(ref.table, ref.column)
        && v == Format(kind, ref.table, ref.column, EmptyIsSentinel(ref.table, ref.column));
      if ref.allowDangling {
        HistoricalFormatHolds(job, tokens, start, kind, ref);
      } else {
        assert IsLiveReference(job.run.schema, kind, ref);
      }
    }
  }

  lemma QueriesHoldIf(job: Job, tokens: seq<string>, start: seq<MapRow>, v: Validation)
    requires IsNormalized(job, tokens, start) && v in RegistryValidations(job.run.schema)
    requires forall kind | kind in VALUE_KINDS && job.run.schema.HasColumn(PrimaryTable(kind), PrimaryColumn(kind)) ::
      EmptyTokensAreMapped(kind, job.prepared, job.ids)
    requires OutcomeIsInOrder(job.run.schema, job.run.tables)
    ensures Holds(v, job.run.tables)
  {
    hide IsNormalized, RegistryValidations, ReferenceQueries, KindFormats, PlainFormats, TypedFormats, Holds, IsKindFormat,
      EmptyTokensAreMapped, DocumentsAreSound, PrimaryTable, PrimaryColumn, IsLiveReference, FormatOfReference;
    QueriesAre(job.run.schema, v);
    if v in KindFormats(job.run.schema, VALUE_KINDS) {
      KindFormatsCheck(job.run.schema, VALUE_KINDS, v);
      var kind :| kind in VALUE_KINDS && IsKindFormat(job.run.schema, kind, v);
      KindFormatHolds(job, tokens, start, kind, v);
    } else if v in PlainFormats(job.run.schema, VALIDATE_ONLY_COLUMNS) {
      PlainFormatHolds(job, tokens, start, v);
    } else if v in TypedFormats(job.run.schema, POLYMORPHIC_REFERENCES) {
      TypedFormatsCheck(job.run.schema, POLYMORPHIC_REFERENCES, v);
      var p :| p in POLYMORPHIC_REFERENCES && job.run.schema.HasColumn(p.table, p.valueColumn) && v == TypedFormat(p);
      TypedFormatHolds(job, tokens, start, p);
    }
  }

  lemma PrimaryFormatIsListed(schema: Schema, kind: Kind)
    requires kind in VALUE_KINDS && schema.HasColumn(PrimaryTable(kind), PrimaryColumn(kind))
    ensures Format(kind, PrimaryTable(kind), PrimaryColumn(kind), false) in RegistryValidations(schema)
  {
    hide RegistryValidations, KindFormats, PlainFormats, TypedFormats, ReferenceQueries, PrimaryTable, PrimaryColumn,
      ColumnFormats, References;
    var v := Format(kind, PrimaryTable(kind), PrimaryColumn(kind), false);
    assert IsKindFormat(schema, kind, v);
    KindFormatsCheck(schema, VALUE_KINDS, v);
    QueriesAre(schema, v);
  }

  lemma ReferenceFormatIsListed(schema: Schema, kind: Kind, ref: Reference)
    requires IsLiveReference(schema, kind, ref)
    ensures FormatOfReference(kind, ref) in RegistryValidations(schema)
  {
    hide RegistryValidations, KindFormats, PlainFormats, TypedFormats, ReferenceQueries, EmptyIsSentinel, ColumnFormats,
      References, PrimaryFormat;
    var v := FormatOfReference(kind, ref);
    ColumnFormatsCheck(schema, kind, References(kind), v);
    assert IsKindFormat(schema, kind, v);
    KindFormatsCheck(schema, VALUE_KINDS, v);
    QueriesAre(schema, v);
  }

  lemma QueriesHoldOnlyIf(job: Job, tokens: seq<string>, start: seq<MapRow>)
    requires IsNormalized(job, tokens, start)
    requires forall v | v in RegistryValidations(job.run.schema) :: Holds(v, job.run.tables)
    ensures forall kind | kind in VALUE_KINDS && job.run.schema.HasColumn(PrimaryTable(kind), PrimaryColumn(kind)) ::
      EmptyTokensAreMapped(kind, job.prepared, job.ids)
    ensures forall kind, ref | IsLiveReference(job.run.schema, kind, ref) :: Holds(FormatOfReference(kind, ref), job.run.tables)
    ensures forall v | v in ReferenceQueries(job.run.schema) :: Holds(v, job.run.tables)
  {
    hide IsNormalized, RegistryValidations, ReferenceQueries, Holds, EmptyTokensAreMapped, PrimaryTable, PrimaryColumn,
      IsLiveReference, FormatOfReference;
    var schema := job.run.schema;
    forall kind | kind in VALUE_KINDS && schema.HasColumn(PrimaryTable(kind), PrimaryColumn(kind))
      ensures EmptyTokensAreMapped(kind, job.prepared, job.ids)
    {
      PrimaryFormatIsListed(schema, kind);
      PrimaryFormatExactlyIf(job, tokens, start, kind);
    }
    forall kind, ref | IsLiveReference(schema, kind, ref) ensures Holds(FormatOfReference(kind, ref), job.run.tables) {
      ReferenceFormatIsListed(schema, kind, ref);
    }
    forall v | v in ReferenceQueries(schema) ensures Holds(v, job.run.tables) {
      QueriesAre(schema, v);
    }
  }

  lemma DocumentsInOrder()
    ensures forall tc | tc in JSON_COLUMNS :: tc in LOCAL_REWRITE_ORDER
  {
    assert LOCAL_REWRITE_ORDER == POLYMORPHIC_COLUMNS + (JSON_COLUMNS + STRUCTURED_COLUMNS);
  }

  lemma ScansExactlyIf(job: Job, tokens: seq<string>, start: seq<MapRow>, read: string -> Option<Json>)
    requires IsNormalized(job, tokens, start) && IsReader(read) && DocumentsAreStored(read, job.original)
    ensures (forall kind | kind in VALUE_KINDS :: JsonScanIsEmpty(job.run.schema, kind, job.run.tables))
      <==> EventTaskIdsArePlain(job.run.schema, job.prepared)
  {
    hide Conforms, WellFormedMap, HasGeneratedLengths, MapsCollected, IsOutcome, RenameList, ExistingColumns, GoodOrder,
      JsonScanIsEmpty, EventTaskIdsArePlain, DocumentsAreStored, IsReader, PreparedTables, GoalTables, DropDynamicClients,
      ClearTables, AsMap;
    RegistryOrderIsGood();
    DocumentsInOrder();
    TasksAreListed();
    PreparedDocumentsAreStored(read, job.run.schema, job.original);
    forall kind | kind in VALUE_KINDS
      ensures JsonScanIsEmpty(job.run.schema, kind, job.run.tables)
        <==> (kind == RowId(DOWNLOAD_TASKS) ==> EventTaskIdsArePlain(job.run.schema, job.prepared))
    {
      JsonScanExactlyIf(job, tokens, LOCAL_REWRITE_ORDER, VALUE_KINDS, start, kind, read);
    }
  }

  lemma DocumentsAreCleanExactlyIf(job: Job, tokens: seq<string>, start: seq<MapRow>, read: string -> Option<Json>)
    requires IsNormalized(job, tokens, start) && IsReader(read) && DocumentsAreStored(read, job.original)
    ensures DocumentsAreClean(job.run.schema, VALUE_KINDS, job.run.tables)
      <==> EventTaskIdsArePlain(job.run.schema, job.prepared) && DocumentsAreSound(job.run.schema, job.run.tables)
  {
    hide IsNormalized, JsonScanIsEmpty, DocumentIsSound, EventTaskIdsArePlain, DocumentsAreStored;
    ScansExactlyIf(job, tokens, start, read);
  }

  lemma RowCountsAndStaleCounts(job: Job, tokens: seq<string>, start: seq<MapRow>)
    requires IsNormalized(job, tokens, start)
    ensures forall t: Table | t !in INVALIDATED_TABLES && !HoldsClients(t) :: |job.run.tables[t]| == |job.original[t]|
    ensures RewriteAll(job.ids, LOCAL_REWRITE_ORDER, job.run.tables) == job.run.tables
  {
    hide Staged, Conforms, WellFormedMap, HasGeneratedLengths, MapsCollected, IsOutcome, RenameList, ExistingColumns,
      GoodOrder, RewriteAll, HoldsClients;
    forall t: Table | t !in INVALIDATED_TABLES && !HoldsClients(t) ensures |job.run.tables[t]| == |job.original[t]| {
      SparedTablesKeepTheirRows(job, tokens, start, t);
    }
    RegistryOrderIsGood();
    NothingIsStale(job, tokens, LOCAL_REWRITE_ORDER, VALUE_KINDS);
  }

  /** Of everything validation demands, only the following is not decided by the run itself. */
  lemma ValidatesByOutcome(job: Job, tokens: seq<string>, start: seq<MapRow>, read: string -> Option<Json>)
    requires IsNormalized(job, tokens, start) && IsReader(read) && DocumentsAreStored(read, job.original)
    ensures Validates(job.run.schema, INVENTORY, job.ids, RegistryValidations(job.run.schema), job.original, job.run.tables) <==>
      (forall kind | kind in VALUE_KINDS && job.run.schema.HasColumn(PrimaryTable(kind), PrimaryColumn(kind)) ::
         EmptyTokensAreMapped(kind, job.prepared, job.ids))
      && EventTaskIdsArePlain(job.run.schema, job.prepared) && OutcomeIsInOrder(job.run.schema, job.run.tables)
  {
    hide IsNormalized, RegistryValidations, ReferenceQueries, Holds, EmptyTokensAreMapped, DocumentsAreSound, IsLiveReference,
      EventTaskIdsArePlain, PrimaryTable, PrimaryColumn, DocumentsAreClean, RewriteAll, IsReader, DocumentsAreStored,
      FormatOfReference;
    RowCountsAndStaleCounts(job, tokens, start);
    DocumentsAreCleanExactlyIf(job, tokens, start, read);
    var schema, outcome := job.run.schema, job.run.tables;
    if forall v | v in RegistryValidations(schema) :: Holds(v, outcome) {
      QueriesHoldOnlyIf(job, tokens, start);
    }
    if OutcomeIsInOrder(schema, outcome) && forall kind | kind in VALUE_KINDS
      && schema.HasColumn(PrimaryTable(kind), PrimaryColumn(kind)) :: EmptyTokensAreMapped(kind, job.prepared, job.ids)
    {
      forall v | v in RegistryValidations(schema) ensures Holds(v, outcome) {
        QueriesHoldIf(job, tokens, start, v);
      }
    }
  }

  // The same, before the run.

  lemma LiveReferencesExactlyIf(schema: Schema, m: IdMap, tokens: seq<string>, kept: Tables, outcome: Tables)
    requires IsRunOn(schema, m, tokens, kept, outcome)
    ensures (forall kind, ref | IsLiveReference(schema, kind, ref) :: IsInOrder(schema, kind, ref, outcome)) <==>
      (forall kind, ref | IsLiveReference(schema, kind, ref) :: ReferenceStands(schema, m, kind, ref, kept))
  {
    hide IsRunOn, IsLiveReference, IsInOrder, ReferenceStands;
    forall kind, ref | IsLiveReference(schema, kind, ref)
      ensures IsInOrder(schema, kind, ref, outcome) <==> ReferenceStands(schema, m, kind, ref, kept)
    {
      LiveReferenceExactlyIf(schema, m, tokens, kept, outcome, kind, ref);
    }
  }

  ghost predicate AllKeysHold(schema: Schema, outcome: Tables) {
    forall key | key in schema.foreignKeys :: Holds(KeyQuery(key), outcome)
  }

  ghost predicate AllResolve(schema: Schema, outcome: Tables) {
    forall kind, ref | IsLiveReference(schema, kind, ref) && schema.HasColumn(PrimaryTable(kind), PrimaryColumn(kind)) ::
      Holds(ResolutionOf(kind, ref), outcome)
  }

  ghost predicate AllNotificationsResolve(schema: Schema, outcome: Tables) {
    schema.HasColumn(NOTIFICATIONS, REF_TYPE) && schema.HasColumn(NOTIFICATIONS, REF_ID) ==>
      forall to | to in NOTIFICATION_TARGETS && schema.HasColumn(to.1, ID) :: Holds(NotificationQuery(to), outcome)
  }

  ghost predicate AllCreatorsResolve(schema: Schema, outcome: Tables) {
    schema.HasColumn(OBJECT_UPLOAD_SESSIONS, CREATED_BY) ==> Holds(CreatorFormat, outcome) && Holds(CreatorResolves, outcome)
  }

  lemma ReferenceQueriesAre(schema: Schema, v: Validation)
    ensures v in ReferenceQueries(schema) <==>
      (v in KeyResolutions(schema.foreignKeys) || v in KindResolutions(schema, VALUE_KINDS)
       || v in TypedResolutions(schema, NOTIFICATION_TARGETS)
       || (schema.HasColumn(OBJECT_UPLOAD_SESSIONS, CREATED_BY) && (v == CreatorFormat || v == CreatorResolves)))
  {
    hide KeyResolutions, KindResolutions, TypedResolutions, VALUE_KINDS, NOTIFICATION_TARGETS;
    var creators: seq<Validation> :=
      if schema.HasColumn(OBJECT_UPLOAD_SESSIONS, CREATED_BY) then [CreatorFormat, CreatorResolves] else [];
    InFour(KeyResolutions(schema.foreignKeys), KindResolutions(schema, VALUE_KINDS),
           TypedResolutions(schema, NOTIFICATION_TARGETS), creators, v);
  }

  lemma KindQueriesHold(schema: Schema, outcome: Tables)
    ensures (forall v | v in KindResolutions(schema, VALUE_KINDS) :: Holds(v, outcome)) <==> AllResolve(schema, outcome)
  {
    hide KindResolutions, ColumnResolutions, Holds, References, PrimaryTable, PrimaryColumn, VALUE_KINDS, ResolutionOf;
    if AllResolve(schema, outcome) {
      forall v | v in KindResolutions(schema, VALUE_KINDS) ensures Holds(v, outcome) {
        KindResolutionsAre(schema, VALUE_KINDS, v);
        var kind :| kind in VALUE_KINDS && IsKindResolution(schema, kind, v);
        ColumnResolutionsAre(schema, kind, References(kind), v);
        var ref :| ref in References(kind) && !ref.allowDangling && schema.HasColumn(ref.table, ref.column) && v == ResolutionOf(kind, ref);
        assert IsLiveReference(schema, kind, ref);
      }
    }
    if forall v | v in KindResolutions(schema, VALUE_KINDS) :: Holds(v, outcome) {
      forall kind, ref | IsLiveReference(schema, kind, ref) && schema.HasColumn(PrimaryTable(kind), PrimaryColumn(kind))
        ensures Holds(ResolutionOf(kind, ref), outcome)
      {
        ColumnResolutionsAre(schema, kind, References(kind), ResolutionOf(kind, ref));
        KindResolutionsAre(schema, VALUE_KINDS, ResolutionOf(kind, ref));
        assert IsKindResolution(schema, kind, ResolutionOf(kind, ref));
      }
    }
  }

  lemma KeyQueriesHold(schema: Schema, outcome: Tables)
    ensures (forall v | v in KeyResolutions(schema.foreignKeys) :: Holds(v, outcome)) <==> AllKeysHold(schema, outcome)
  {
    hide KeyResolutions, Holds, KeyQuery;
    forall v ensures v in KeyResolutions(schema.foreignKeys) <==> exists key | key in schema.foreignKeys :: v == KeyQuery(key) {
      KeyResolutionsAre(schema.foreignKeys, v);
    }
  }

  lemma TypedQueriesHold(schema: Schema, outcome: Tables)
    ensures (forall v | v in TypedResolutions(schema, NOTIFICATION_TARGETS) :: Holds(v, outcome))
      <==> AllNotificationsResolve(schema, outcome)
  {
    hide TypedResolutions, Holds, NotificationQuery, NOTIFICATION_TARGETS;
    forall v
      ensures v in TypedResolutions(schema, NOTIFICATION_TARGETS) <==>
        schema.HasColumn(NOTIFICATIONS, REF_TYPE) && schema.HasColumn(NOTIFICATIONS, REF_ID)
        && exists to | to in NOTIFICATION_TARGETS && schema.HasColumn(to.1, ID) :: v == NotificationQuery(to)
    {
      TypedResolutionsAre(schema, NOTIFICATION_TARGETS, v);
    }
  }

  lemma ReferenceQueriesHold(schema: Schema, outcome: Tables)
    ensures (forall v | v in ReferenceQueries(schema) :: Holds(v, outcome)) <==>
      (AllKeysHold(schema, outcome) && AllResolve(schema, outcome) && AllNotificationsResolve(schema, outcome)
       && AllCreatorsResolve(schema, outcome))
  {
    hide ReferenceQueries, KeyResolutions, KindResolutions, TypedResolutions, AllKeysHold, AllResolve, AllNotificationsResolve,
      Holds, VALUE_KINDS, NOTIFICATION_TARGETS;
    KeyQueriesHold(schema, outcome);
    KindQueriesHold(schema, outcome);
    TypedQueriesHold(schema, outcome);
    forall v
      ensures v in ReferenceQueries(schema) <==>
        (v in KeyResolutions(schema.foreignKeys) || v in KindResolutions(schema, VALUE_KINDS)
         || v in TypedResolutions(schema, NOTIFICATION_TARGETS)
         || (schema.HasColumn(OBJECT_UPLOAD_SESSIONS, CREATED_BY) && (v == CreatorFormat || v == CreatorResolves)))
    {
      ReferenceQueriesAre(schema, v);
    }
  }

  lemma AllKeysExactlyIf(schema: Schema, m: IdMap, tokens: seq<string>, kept: Tables, outcome: Tables)
    requires IsRunOn(schema, m, tokens, kept, outcome)
    ensures AllKeysHold(schema, outcome) <==> forall key | key in schema.foreignKeys :: KeyStands(schema, m, tokens, kept, key)
  {
    hide IsRunOn, Holds, KeyQuery, KeyStands;
    forall key | key in schema.foreignKeys ensures Holds(KeyQuery(key), outcome) <==> KeyStands(schema, m, tokens, kept, key) {
      KeyExactlyIf(schema, m, tokens, kept, outcome, key);
    }
  }

  lemma AllNotificationsExactlyIf(schema: Schema, m: IdMap, tokens: seq<string>, kept: Tables, outcome: Tables)
    requires IsRunOn(schema, m, tokens, kept, outcome)
    ensures (forall to | to in NOTIFICATION_TARGETS && schema.HasColumn(to.1, ID) :: Holds(NotificationQuery(to), outcome)) <==>
      (forall to | to in NOTIFICATION_TARGETS && schema.HasColumn(to.1, ID) :: NotificationsStand(m, kept, to))
  {
    hide IsRunOn, Holds, NotificationQuery, NotificationsStand, NOTIFICATION_TARGETS;
    forall to | to in NOTIFICATION_TARGETS ensures Holds(NotificationQuery(to), outcome) <==> NotificationsStand(m, kept, to) {
      NotificationsExactlyIf(schema, m, tokens, kept, outcome, to);
    }
  }

  /** The documents of the rows that remain, as they were stored. */
  ghost predicate RemainingAreStored(schema: Schema, kept: Tables, read: string -> Option<Json>) {
    && DocumentsAreStored(read, kept)
    && EventTaskIdsArePlain(schema, kept)
  }

  lemma AllDocumentsExactlyIf(
    schema: Schema, m: IdMap, tokens: seq<string>, kept: Tables, outcome: Tables, read: string -> Option<Json>)
    requires IsRunOn(schema, m, tokens, kept, outcome) && IsReader(read) && RemainingAreStored(schema, kept, read)
    ensures DocumentsAreSound(schema, outcome) <==>
      forall source | source in JSON_COLUMNS :: DocumentsStand(schema, m, kept, source)
  {
    hide IsRunOn, IsReader, IsStored, DocumentsStand, DocumentIsSound, EventIdsOfRowArePlain, JSON_COLUMNS;
    forall source | source in JSON_COLUMNS
      ensures (forall row | row in outcome[source.0] :: DocumentIsSound(schema, outcome, source, row))
        <==> DocumentsStand(schema, m, kept, source)
    {
      DocumentsExactlyIf(schema, m, tokens, kept, outcome, read, source);
    }
  }

  lemma StandsExactlyIf(
    schema: Schema, m: IdMap, tokens: seq<string>, kept: Tables, outcome: Tables, read: string -> Option<Json>)
    requires IsRunOn(schema, m, tokens, kept, outcome) && IsReader(read) && RemainingAreStored(schema, kept, read)
    ensures OutcomeIsInOrder(schema, outcome) <==> ReferencesStand(schema, m, tokens, kept)
  {
    hide IsRunOn, IsReader, RemainingAreStored, Holds, ReferenceStands, KeyStands, NotificationsStand, CreatorsStand, DocumentsStand,
      ReferenceQueries, DocumentsAreSound, NOTIFICATION_TARGETS, JSON_COLUMNS, IsLiveReference, FormatOfReference, ResolutionOf,
      PrimaryTable, PrimaryColumn, NotificationQuery, AllKeysHold;
    ReferenceQueriesHold(schema, outcome);
    LiveReferencesExactlyIf(schema, m, tokens, kept, outcome);
    AllKeysExactlyIf(schema, m, tokens, kept, outcome);
    AllNotificationsExactlyIf(schema, m, tokens, kept, outcome);
    CreatorsExactlyIf(schema, m, tokens, kept, outcome);
    AllDocumentsExactlyIf(schema, m, tokens, kept, outcome, read);
  }

  lemma NormalizedIsReady(job: Job, tokens: seq<string>, start: seq<MapRow>)
    requires IsNormalized(job, tokens, start)
    ensures IsReady(job, tokens)
    ensures IsImage(job.run.schema, job.ids, tokens, Remaining(job.run.schema, job.prepared), job.run.tables)
    ensures WellFormedMap(job.ids) && NewValuesDistinct(job.ids) && job.run.emptied == INVALIDATED_TABLES
  {
    hide Staged, IsOutcome, Conforms, WellFormedMap, HasGeneratedLengths, MapsCollected, RenameList, ExistingColumns, CellsAreRevoked,
      RevokedOutcome, GoodOrder, OwnedRenames, NewValuesDistinct, IsImage, Remaining;
    OutcomeFacts(job, tokens, start);
    OutcomeIsImage(job, tokens);
  }

  lemma RemainingRowsArePrepared(schema: Schema, prepared: Tables)
    ensures forall t, row | row in Remaining(schema, prepared)[t] :: row in prepared[t]
  {
    DeletionsKeepRows(schema, INVALIDATED_TABLES, prepared);
  }

  lemma PrimaryColumnsConform(job: Job, tokens: seq<string>, start: seq<MapRow>, kind: Kind)
    requires IsNormalized(job, tokens, start)
    ensures PrimaryConforms(job.run.schema, kind, Remaining(job.run.schema, job.prepared))
  {
    hide IsOutcome, WellFormedMap, HasGeneratedLengths, MapsCollected, VisitsTheRegistry, Remaining, PreparedTables, GoalTables,
      PrimaryTable, PrimaryColumn, NewValuesDistinct, DropDynamicClients, ClearTables, AsMap;
    PreparationConforms(job.run.schema, job.original);
    RemainingRowsArePrepared(job.run.schema, job.prepared);
    var table, column := PrimaryTable(kind), PrimaryColumn(kind);
    forall row | row in Remaining(job.run.schema, job.prepared)[table] && !job.run.schema.HasColumn(table, column)
      ensures Field(row, column) == Null
    {
      var i :| 0 <= i < |job.prepared[table]| && job.prepared[table][i] == row;
      assert column in job.prepared[table][i] <==> (table, column) in job.run.schema.columns;
    }
  }

  lemma UnrotatedPrimariesAreGood(job: Job, tokens: seq<string>, start: seq<MapRow>, kind: Kind)
    requires IsNormalized(job, tokens, start) && kind in VALUE_KINDS && !RotatesAll(kind)
    ensures PrimariesAreGood(job.ids, kind, Remaining(job.run.schema, job.prepared))
  {
    hide IsNormalized, Remaining, PrimaryTable, PrimaryColumn, RotatesAll, MapsCollected, MappedValueIsValid;
    MapCovers(job, tokens, start, kind);
    PrimaryColumnsConform(job, tokens, start, kind);
    var schema, kept := job.run.schema, Remaining(job.run.schema, job.prepared);
    RemainingRowsArePrepared(schema, job.prepared);
    forall row | row in kept[PrimaryTable(kind)] && Field(row, PrimaryColumn(kind)).Text?
      ensures var value := Field(row, PrimaryColumn(kind)).text; (kind, value) in job.ids || MappedValueIsValid(kind, value)
    {
      var value := Field(row, PrimaryColumn(kind)).text;
      if (kind, value) !in job.ids {
        assert IsPrimaryValue(kind, job.prepared, Text(value));
        UnmappedPrimaryIsValid(schema, kind, job.prepared, start, job.ids, value);
      }
    }
  }

  lemma NormalizedRun(job: Job, tokens: seq<string>, start: seq<MapRow>)
    requires IsNormalized(job, tokens, start)
    ensures IsRunOn(job.run.schema, job.ids, tokens, Remaining(job.run.schema, job.prepared), job.run.tables)
  {
    hide IsNormalized, IsReady, IsImage, Remaining, PrimaryConforms, PrimariesAreGood, RotatesAll, VALUE_KINDS, WellFormedMap,
      NewValuesDistinct;
    NormalizedIsReady(job, tokens, start);
    var kept := Remaining(job.run.schema, job.prepared);
    forall kind | kind in VALUE_KINDS ensures PrimaryConforms(job.run.schema, kind, kept) {
      PrimaryColumnsConform(job, tokens, start, kind);
    }
    forall kind | kind in VALUE_KINDS && !RotatesAll(kind) ensures PrimariesAreGood(job.ids, kind, kept) {
      UnrotatedPrimariesAreGood(job, tokens, start, kind);
    }
  }

  lemma RemainingDocuments(job: Job, tokens: seq<string>, start: seq<MapRow>, read: string -> Option<Json>)
    requires IsNormalized(job, tokens, start) && DocumentsAreStored(read, job.original)
    requires EventTaskIdsArePlain(job.run.schema, job.prepared)
    ensures RemainingAreStored(job.run.schema, Remaining(job.run.schema, job.prepared), read)
  {
    hide IsOutcome, WellFormedMap, HasGeneratedLengths, MapsCollected, VisitsTheRegistry, Remaining, PreparedTables, GoalTables,
      NewValuesDistinct, DropDynamicClients, ClearTables, AsMap, Conforms, IsStored, EventIdsOfRowArePlain, JSON_COLUMNS, KeepsTables;
    PreparedDocumentsAreStored(read, job.run.schema, job.original);
    RemainingRowsArePrepared(job.run.schema, job.prepared);
  }

  /**
   * Of everything validation demands, the row counts, the stale counts, the formats outside live references and the
   * document scan are decided by the run itself; it succeeds exactly if nothing dangled before it.
   */
  lemma ValidatesExactlyIf(job: Job, tokens: seq<string>, start: seq<MapRow>, read: string -> Option<Json>)
    requires IsNormalized(job, tokens, start) && IsReader(read) && DocumentsAreStored(read, job.original)
    ensures Validates(job.run.schema, INVENTORY, job.ids, RegistryValidations(job.run.schema), job.original, job.run.tables)
      <==> NothingDangles(job.run.schema, job.ids, tokens, job.prepared)
  {
    hide IsNormalized, Validates, EmptyTokensAreMapped, EventTaskIdsArePlain, PrimaryTable, PrimaryColumn, IsReader, VALUE_KINDS,
      DocumentsAreStored, OutcomeIsInOrder, ReferencesStand, RemainingAreStored, IsRunOn, Remaining, RegistryValidations, INVENTORY;
    ValidatesByOutcome(job, tokens, start, read);
    if EventTaskIdsArePlain(job.run.schema, job.prepared) {
      NormalizedRun(job, tokens, start);
      RemainingDocuments(job, tokens, start, read);
      StandsExactlyIf(
        job.run.schema, job.ids, tokens, Remaining(job.run.schema, job.prepared), job.run.tables, read);
    }
  }

  /**
   * End to end: once the map is built, the validation that decides whether `normalizeDatabase` commits succeeds exactly
   * if nothing dangles in the tables it starts from.
   */
  lemma NormalizationSucceedsExactlyIf(
    schema: Schema, original: Tables, start: seq<MapRow>, rows: seq<MapRow>, supply: Supply, read: string -> Option<Json>)
    requires IsBuilt(schema, original, start, rows, supply) && Conforms(schema, original)
    requires IsReader(read) && DocumentsAreStored(read, original)
    ensures var outcome := Normalized(schema, INVENTORY, AsMap(rows), supply.tokens, original);
      Validates(schema, INVENTORY, AsMap(rows), RegistryValidations(schema), original, outcome)
      <==> NothingDangles(schema, AsMap(rows), supply.tokens, PreparedTables(schema, original))
  {
    hide IsBuilt, Conforms, Normalized, Validates, NothingDangles, PreparedTables, AsMap, IsNormalized, DocumentsAreStored,
      IsReader, RegistryValidations;
    var run := RunToValidate(schema, original, rows, supply);
    RunIsAsListed(schema, original, rows, supply);
    NormalizedJob(run, original, start, rows, supply);
    ValidatesExactlyIf(JobOf(run, original), supply.tokens, start, read);
    PreparedOfJob(run, original);
  }

  /** With fresh draws a live reference must hold a primary value. */
  lemma FreshReferencesStandExactlyIf(schema: Schema, m: IdMap, kind: Kind, ref: Reference, kept: Tables)
    requires schema.HasColumn(PrimaryTable(kind), PrimaryColumn(kind)) && IsUnused(m, kind, kept)
    requires forall row | row in kept[ref.table] && Field(row, ref.column).Text? :: IsOldValue(m, kind, Field(row, ref.column).text)
    ensures ReferenceStands(schema, m, kind, ref, kept) <==>
      forall row | row in kept[ref.table] && Field(row, ref.column).Text? :: IsPrimaryValue(kind, kept, Field(row, ref.column))
  {
    hide PrimaryTable, PrimaryColumn, NamesPrimary, IsPrimaryValue, IsUnused, IsOldValue;
    forall row | row in kept[ref.table] && Field(row, ref.column).Text?
      ensures NamesPrimary(m, kind, kept, Field(row, ref.column).text) <==> IsPrimaryValue(kind, kept, Field(row, ref.column))
    {
      FreshDrawsConfuseNothing(m, kind, kept, Field(row, ref.column).text);
    }
  }

  /** An empty live reference is rejected, mapped or not, unless the empty value is a primary value. */
  lemma EmptyReferenceIsRejected(
    schema: Schema, original: Tables, start: seq<MapRow>, rows: seq<MapRow>, supply: Supply, read: string -> Option<Json>,
    kind: Kind, ref: Reference, row: Row)
    requires IsBuilt(schema, original, start, rows, supply) && Conforms(schema, original)
    requires IsReader(read) && DocumentsAreStored(read, original) && IsLiveReference(schema, kind, ref)
    requires schema.HasColumn(PrimaryTable(kind), PrimaryColumn(kind))
    requires var kept := Remaining(schema, PreparedTables(schema, original));
      && row in kept[ref.table] && Field(row, ref.column) == Text("")
      && IsUnused(AsMap(rows), kind, kept) && !IsPrimaryValue(kind, kept, Text(""))
    ensures !Validates(schema, INVENTORY, AsMap(rows), RegistryValidations(schema), original,
                       Normalized(schema, INVENTORY, AsMap(rows), supply.tokens, original))
  {
    hide IsBuilt, Conforms, Normalized, Validates, PreparedTables, AsMap, DocumentsAreStored, IsReader, RegistryValidations, Remaining,
      IsLiveReference, PrimaryTable, PrimaryColumn, NamesPrimary, IsPrimaryValue, IsUnused, EmptyTokensAreMapped, VALUE_KINDS, INVENTORY,
      KeyStands, NotificationsStand, CreatorsStand, DocumentsStand, WellFormedMap, NewValuesDistinct, HasGeneratedLengths, DistinctKeys;
    var kept := Remaining(schema, PreparedTables(schema, original));
    BuiltIsWellFormed(schema, original, start, rows, supply);
    NoNewValueIsEmpty(AsMap(rows), kind);
    FreshDrawsConfuseNothing(AsMap(rows), kind, kept, "");
    assert !ReferenceStands(schema, AsMap(rows), kind, ref, kept);
    NormalizationSucceedsExactlyIf(schema, original, start, rows, supply, read);
  }

  lemma NoNewValueIsEmpty(m: IdMap, kind: Kind)
    requires WellFormedMap(m)
    ensures IsOldValue(m, kind, "")
  {
    forall key | key in m && key.0 == kind ensures m[key] != "" {
      ValidValuesAreBase62(kind, m[key]);
    }
  }

  ghost function RunToValidate(schema: Schema, original: Tables, rows: seq<MapRow>, supply: Supply): LocalRun {
    LocalRun(
      schema, RenameList(schema, VALUE_KINDS), ExistingColumns(schema, EMBEDDED_COLUMNS), INVALIDATED_TABLES, [],
      PlanValidations(schema), Normalized(schema, INVENTORY, AsMap(rows), supply.tokens, original), rows, supply.stamp)
  }

  lemma RunIsAsListed(schema: Schema, original: Tables, rows: seq<MapRow>, supply: Supply)
    ensures var run := RunToValidate(schema, original, rows, supply);
      && run.schema == schema && run.mapRows == rows && VisitsTheRegistry(run)
      && run.completedAt == supply.stamp && run.validations == PlanValidations(schema)
      && run.tables == Normalized(schema, INVENTORY, AsMap(rows), supply.tokens, original)
  {
    hide RenameList, ExistingColumns, Normalized, PlanValidations, AsMap, EMBEDDED_COLUMNS, INVALIDATED_TABLES, INVENTORY,
      VALUE_KINDS;
  }

  lemma PreparedOfJob(run: LocalRun, original: Tables)
    ensures JobOf(run, original).prepared == PreparedTables(run.schema, original)
  {
    hide GoalTables, DropDynamicClients, PreparedTables;
  }

  lemma NormalizedJob(run: LocalRun, original: Tables, start: seq<MapRow>, rows: seq<MapRow>, supply: Supply)
    requires IsBuilt(run.schema, original, start, rows, supply) && Conforms(run.schema, original)
    requires run.mapRows == rows && VisitsTheRegistry(run)
    requires run.tables == Normalized(run.schema, INVENTORY, AsMap(rows), supply.tokens, original)
    ensures IsNormalized(JobOf(run, original), supply.tokens, start)
  {
    hide Conforms, MigratedTables, AsMap, Staged, WellFormedMap, HasGeneratedLengths, NewValuesDistinct, MapsCollected,
      GoodDraws, ComesFrom, Complete, RenameList, ExistingColumns, PreparedTables, DistinctKeys;
    BuiltIsWellFormed(run.schema, original, start, rows, supply);
    JobOfIsStaged(run, original);
    PreparedOfJob(run, original);
    assert IsOutcome(run, original, supply.tokens, LOCAL_REWRITE_ORDER);
    forall kind | kind in VALUE_KINDS
      ensures MapsCollected(run.schema, kind, PreparedTables(run.schema, original), start, AsMap(rows))
    {
      BuiltMapCoversCollected(run.schema, VALUE_KINDS, kind, PreparedTables(run.schema, original), start, rows);
    }
  }
}
