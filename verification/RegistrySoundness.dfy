/** What the queries that validation and the plan share demand of the tables, column by column, without the queries. */
module RegistrySoundness {
  import opened Wrappers
  import opened IdRegistry
  import opened IdValues
  import opened IdMapTable
  import opened IdTables
  import opened JsonAssertions
  import opened D1Plan
  import opened LocalDatabase
  import opened LocalReferences
  import opened LocalSuccess
  import opened D1Safety

  /** The text stands in this column of some row. */
  ghost predicate StandsIn(tables: Tables, table: Table, column: Column, text: string) {
    exists row | row in tables[table] :: Field(row, column) == Text(text)
  }

  /** Every text in the column has the format of the kind; the empty one is let through where it means nothing. */
  ghost predicate HoldsGoodValues(kind: Kind, ref: Reference, tables: Tables) {
    forall row | row in tables[ref.table] && Field(row, ref.column).Text? ::
      || MappedValueIsValid(kind, Field(row, ref.column).text)
      || (Field(row, ref.column).text == "" && EmptyIsSentinel(ref.table, ref.column))
  }

  ghost predicate FormatsAreGood(schema: Schema, tables: Tables) {
    && (forall kind, ref | kind in VALUE_KINDS && ref in Targets(kind) && schema.HasColumn(ref.table, ref.column) ::
          HoldsGoodValues(kind, ref, tables))
    && (forall place | place in VALIDATE_ONLY_COLUMNS && schema.HasColumn(place.0, place.1) ::
          forall row | row in tables[place.0] && Field(row, place.1).Text? :: !IsMalformed(Field(row, place.1).text))
  }

  /** A declared reference that may not dangle finds its value in the primary column. */
  ghost predicate ReferenceResolves(kind: Kind, ref: Reference, tables: Tables) {
    forall row | row in tables[ref.table] && Field(row, ref.column).Text? && Field(row, ref.column).text != "" ::
      StandsIn(tables, PrimaryTable(kind), PrimaryColumn(kind), Field(row, ref.column).text)
  }

  ghost predicate ReferencesResolve(schema: Schema, tables: Tables) {
    forall kind, ref |
      kind in VALUE_KINDS && ref in References(kind) && !ref.allowDangling && schema.HasColumn(ref.table, ref.column)
      && schema.HasColumn(PrimaryTable(kind), PrimaryColumn(kind)) ::
      ReferenceResolves(kind, ref, tables)
  }

  /** A typed value holds letters and digits only, but for ledger openings and the notification wildcard. */
  ghost predicate TypedValueIsGood(p: Polymorphic, row: Row) {
    var typeCell, cell := Field(row, p.typeColumn), Field(row, p.valueColumn);
    typeCell.Text? && typeCell.text in p.typeKinds && cell.Text? && cell.text != "" && IsMalformed(cell.text) ==>
      || (p.table == CLOUD_TRAFFIC_REPORTS && Field(row, STATUS) == Text("ledger_opening"))
      || (p.table == RESOURCE_CHANGES && p.valueColumn == RESOURCE_ID && Field(row, RESOURCE_TYPE) == Text("notification")
          && cell.text == "*")
  }

  ghost predicate TypedValuesAreGood(p: Polymorphic, tables: Tables) {
    forall row | row in tables[p.table] :: TypedValueIsGood(p, row)
  }

  ghost predicate TypedColumnsAreGood(schema: Schema, tables: Tables) {
    forall p | p in POLYMORPHIC_REFERENCES && schema.HasColumn(p.table, p.typeColumn) && schema.HasColumn(p.table, p.valueColumn) ::
      TypedValuesAreGood(p, tables)
  }

  /** A notification about a share, a team or a job names one. */
  ghost predicate NotificationsResolve(schema: Schema, tables: Tables) {
    forall name, target |
      (name, target) in [("share", SHARES), ("team", ORGANIZATION), ("background_job", BACKGROUND_JOBS)]
      && schema.HasColumn(NOTIFICATIONS, REF_TYPE) && schema.HasColumn(NOTIFICATIONS, REF_ID) && schema.HasColumn(target, ID) ::
      NamedTargetsExist(name, target, tables)
  }

  ghost predicate NamedTargetsExist(name: string, target: Table, tables: Tables) {
    forall row | row in tables[NOTIFICATIONS] && Field(row, REF_TYPE) == Text(name) && Field(row, REF_ID).Text? ::
      Field(row, REF_ID).text != "" ==> StandsIn(tables, target, ID, Field(row, REF_ID).text)
  }

  /** An upload creator is a user by its id, or a downloader by its prefix and id. */
  ghost predicate UploadCreatorsResolve(schema: Schema, tables: Tables) {
    schema.HasColumn(OBJECT_UPLOAD_SESSIONS, CREATED_BY) ==>
      forall row | row in tables[OBJECT_UPLOAD_SESSIONS] && Field(row, CREATED_BY).Text? ::
        UploadCreatorResolves(Field(row, CREATED_BY).text, tables)
  }

  ghost predicate UploadCreatorResolves(creator: string, tables: Tables) {
    if NamesDownloader(creator) then !IsMalformed(creator[11..]) && StandsIn(tables, DOWNLOADERS, ID, creator[11..])
    else !IsMalformed(creator) && StandsIn(tables, USER, ID, creator)
  }

  ghost predicate KeysResolve(schema: Schema, tables: Tables) {
    forall key | key in schema.foreignKeys ::
      forall row | row in tables[key.table] && Field(row, key.column) != Null && !Field(row, key.column).Doc? ::
        exists other | other in tables[key.target] :: Field(other, key.targetColumn) == Field(row, key.column)
  }

  ghost predicate IsSound(schema: Schema, tables: Tables) {
    && FormatsAreGood(schema, tables) && ReferencesResolve(schema, tables) && TypedColumnsAreGood(schema, tables)
    && NotificationsResolve(schema, tables) && UploadCreatorsResolve(schema, tables) && KeysResolve(schema, tables)
  }

  // Query by query.

  lemma FormatQueryExactly(kind: Kind, ref: Reference, tables: Tables)
    ensures Holds(Format(kind, ref.table, ref.column, EmptyIsSentinel(ref.table, ref.column)), tables)
      <==> HoldsGoodValues(kind, ref, tables)
  {
    hide MappedValueIsValid, InvalidValue, EmptyIsSentinel;
    var query := Format(kind, ref.table, ref.column, EmptyIsSentinel(ref.table, ref.column));
    forall row | row in tables[ref.table] && Field(row, ref.column).Text?
      ensures RowIsWellFormed(query, tables, row) <==>
        || MappedValueIsValid(kind, Field(row, ref.column).text)
        || (Field(row, ref.column).text == "" && EmptyIsSentinel(ref.table, ref.column))
    {
      FormatChecksAgree(kind, Field(row, ref.column).text);
      if MappedValueIsValid(kind, Field(row, ref.column).text) {
        ValidValuesAreBase62(kind, Field(row, ref.column).text);
      }
    }
  }

  lemma PrimaryColumnsAreNoSentinels(kind: Kind)
    ensures !EmptyIsSentinel(PrimaryTable(kind), PrimaryColumn(kind))
  {
  }

  lemma PlainFormatExactly(place: (Table, Column), tables: Tables)
    ensures Holds(Format(RowId(place.0), place.0, place.1, false), tables)
      <==> forall row | row in tables[place.0] && Field(row, place.1).Text? :: !IsMalformed(Field(row, place.1).text)
  {
    hide IsMalformed;
    var query := Format(RowId(place.0), place.0, place.1, false);
    forall row | row in tables[place.0] && Field(row, place.1).Text?
      ensures RowIsWellFormed(query, tables, row) <==> !IsMalformed(Field(row, place.1).text)
    {
      MalformedExactlyIf(Field(row, place.1).text);
    }
  }

  lemma ResolutionExactly(kind: Kind, ref: Reference, tables: Tables)
    ensures Holds(ResolutionOf(kind, ref), tables) <==> ReferenceResolves(kind, ref, tables)
  {
    hide PrimaryTable, PrimaryColumn;
    forall row | row in tables[ref.table]
      ensures RowIsWellFormed(ResolutionOf(kind, ref), tables, row) <==>
        (Field(row, ref.column).Text? && Field(row, ref.column).text != "" ==>
           StandsIn(tables, PrimaryTable(kind), PrimaryColumn(kind), Field(row, ref.column).text))
    {
    }
  }

  lemma TypedQueryExactly(p: Polymorphic, tables: Tables)
    ensures Holds(TypedFormat(p), tables) <==> TypedValuesAreGood(p, tables)
  {
    hide RowIsWellFormed, TypedValueIsGood;
    forall row ensures RowIsWellFormed(TypedFormat(p), tables, row) <==> TypedValueIsGood(p, row) {
      TypedRowExactly(p, tables, row);
    }
  }

  lemma TypedRowExactly(p: Polymorphic, tables: Tables, row: Row)
    ensures RowIsWellFormed(TypedFormat(p), tables, row) <==> TypedValueIsGood(p, row)
  {
    hide IsMalformed, HasForeignChar;
    if Field(row, p.valueColumn).Text? {
      MalformedExactlyIf(Field(row, p.valueColumn).text);
      EmptyHasNoForeignChar();
    }
  }

  lemma EmptyHasNoForeignChar()
    ensures !HasForeignChar("")
  {
  }

  lemma CreatorQueriesExactly(tables: Tables)
    ensures Holds(CreatorFormat, tables) && Holds(CreatorResolves, tables) <==>
      forall row | row in tables[OBJECT_UPLOAD_SESSIONS] && Field(row, CREATED_BY).Text? ::
        UploadCreatorResolves(Field(row, CREATED_BY).text, tables)
  {
    hide IsMalformed, HasForeignChar, NamesDownloader;
    forall row | row in tables[OBJECT_UPLOAD_SESSIONS] && Field(row, CREATED_BY).Text?
      ensures RowIsWellFormed(CreatorFormat, tables, row) && RowIsWellFormed(CreatorResolves, tables, row)
        <==> UploadCreatorResolves(Field(row, CREATED_BY).text, tables)
    {
      CreatorRowExactly(tables, row);
    }
  }

  lemma CreatorRowExactly(tables: Tables, row: Row)
    requires Field(row, CREATED_BY).Text?
    ensures RowIsWellFormed(CreatorFormat, tables, row) && RowIsWellFormed(CreatorResolves, tables, row)
      <==> UploadCreatorResolves(Field(row, CREATED_BY).text, tables)
  {
    hide IsMalformed, HasForeignChar;
    var creator := Field(row, CREATED_BY).text;
    MalformedExactlyIf(creator);
    if NamesDownloader(creator) {
      MalformedExactlyIf(creator[11..]);
      NamedDownloadersAreLong(creator);
    }
  }

  lemma NotificationQueryExactly(name: string, target: Table, tables: Tables)
    ensures Holds(NotificationQuery((name, target)), tables) <==> NamedTargetsExist(name, target, tables)
  {
    var query := NotificationQuery((name, target));
    forall row | row in tables[NOTIFICATIONS]
      ensures RowIsWellFormed(query, tables, row) <==>
        (Field(row, REF_TYPE) == Text(name) && Field(row, REF_ID).Text? && Field(row, REF_ID).text != "" ==>
           StandsIn(tables, target, ID, Field(row, REF_ID).text))
    {
    }
    assert ValidatedTable(query) == NOTIFICATIONS;
  }

  lemma KeyQueryExactly(key: ForeignKey, tables: Tables)
    ensures Holds(KeyQuery(key), tables) <==>
      forall row | row in tables[key.table] && Field(row, key.column) != Null && !Field(row, key.column).Doc? ::
        exists other | other in tables[key.target] :: Field(other, key.targetColumn) == Field(row, key.column)
  {
    var query := KeyQuery(key);
    forall row | row in tables[key.table]
      ensures RowIsWellFormed(query, tables, row) <==>
        (Field(row, key.column) != Null && !Field(row, key.column).Doc? ==>
           exists other | other in tables[key.target] :: Field(other, key.targetColumn) == Field(row, key.column))
    {
    }
    assert ValidatedTable(query) == key.table;
  }

  // All queries.

  ghost predicate AllHold(validations: seq<Validation>, tables: Tables) {
    forall v | v in validations :: Holds(v, tables)
  }

  lemma {:induction false} KindFormatsExactly(schema: Schema, tables: Tables)
    ensures AllHold(KindFormats(schema, VALUE_KINDS), tables) <==>
      forall kind, ref | kind in VALUE_KINDS && ref in Targets(kind) && schema.HasColumn(ref.table, ref.column) ::
        HoldsGoodValues(kind, ref, tables)
  {
    hide KindFormats, VALUE_KINDS, References, PrimaryTable, PrimaryColumn, EmptyIsSentinel, Holds, HoldsGoodValues;
    forall kind, ref ensures ref in Targets(kind) <==> ref == Primary(kind) || ref in References(kind) {
    }
    if AllHold(KindFormats(schema, VALUE_KINDS), tables) {
      forall kind, ref | kind in VALUE_KINDS && ref in Targets(kind) && schema.HasColumn(ref.table, ref.column)
        ensures HoldsGoodValues(kind, ref, tables)
      {
        FormatIsListed(schema, kind, ref);
        FormatQueryExactly(kind, ref, tables);
      }
    }
    if forall kind, ref | kind in VALUE_KINDS && ref in Targets(kind) && schema.HasColumn(ref.table, ref.column) ::
      HoldsGoodValues(kind, ref, tables)
    {
      forall v | v in KindFormats(schema, VALUE_KINDS) ensures Holds(v, tables) {
        var kind, ref := ListedFormatIs(schema, v);
        FormatQueryExactly(kind, ref, tables);
      }
    }
  }

  lemma FormatIsListed(schema: Schema, kind: Kind, ref: Reference)
    requires kind in VALUE_KINDS && ref in Targets(kind) && schema.HasColumn(ref.table, ref.column)
    ensures Format(kind, ref.table, ref.column, EmptyIsSentinel(ref.table, ref.column)) in KindFormats(schema, VALUE_KINDS)
  {
    hide KindFormats, VALUE_KINDS, References, PrimaryTable, PrimaryColumn, EmptyIsSentinel, ColumnFormats;
    var v := Format(kind, ref.table, ref.column, EmptyIsSentinel(ref.table, ref.column));
    KindFormatsCheck(schema, VALUE_KINDS, v);
    ColumnFormatsCheck(schema, kind, References(kind), v);
    PrimaryColumnsAreNoSentinels(kind);
    assert ref == Primary(kind) || ref in References(kind);
    assert IsKindFormat(schema, kind, v);
  }

  lemma ListedFormatIs(schema: Schema, v: Validation) returns (kind: Kind, ref: Reference)
    requires v in KindFormats(schema, VALUE_KINDS)
    ensures kind in VALUE_KINDS && ref in Targets(kind) && schema.HasColumn(ref.table, ref.column)
    ensures v == Format(kind, ref.table, ref.column, EmptyIsSentinel(ref.table, ref.column))
  {
    hide KindFormats, VALUE_KINDS, References, PrimaryTable, PrimaryColumn, EmptyIsSentinel, ColumnFormats;
    KindFormatsCheck(schema, VALUE_KINDS, v);
    kind :| kind in VALUE_KINDS && IsKindFormat(schema, kind, v);
    PrimaryColumnsAreNoSentinels(kind);
    if v in PrimaryFormat(schema, kind) {
      ref := Primary(kind);
      assert Targets(kind)[0] == ref;
    } else {
      ColumnFormatsCheck(schema, kind, References(kind), v);
      ref :| ref in References(kind) && schema.HasColumn(ref.table, ref.column)
        && v == Format(kind, ref.table, ref.column, EmptyIsSentinel(ref.table, ref.column));
    }
  }

  lemma {:induction false} PlainFormatsAre(schema: Schema, columns: seq<(Table, Column)>, v: Validation)
    ensures v in PlainFormats(schema, columns) <==>
      exists place | place in columns && schema.HasColumn(place.0, place.1) ::
        v == Format(RowId(place.0), place.0, place.1, false)
    decreases |columns|
  {
    if columns != [] {
      PlainFormatsAre(schema, columns[1..], v);
      assert columns == [columns[0]] + columns[1..];
    }
  }

  lemma PlainFormatsExactly(schema: Schema, tables: Tables)
    ensures AllHold(PlainFormats(schema, VALIDATE_ONLY_COLUMNS), tables) <==>
      forall place | place in VALIDATE_ONLY_COLUMNS && schema.HasColumn(place.0, place.1) ::
        forall row | row in tables[place.0] && Field(row, place.1).Text? :: !IsMalformed(Field(row, place.1).text)
  {
    hide PlainFormats, VALIDATE_ONLY_COLUMNS, Holds, IsMalformed;
    forall v ensures v in PlainFormats(schema, VALIDATE_ONLY_COLUMNS) <==>
      exists place | place in VALIDATE_ONLY_COLUMNS && schema.HasColumn(place.0, place.1) ::
        v == Format(RowId(place.0), place.0, place.1, false)
    {
      PlainFormatsAre(schema, VALIDATE_ONLY_COLUMNS, v);
    }
    forall place: (Table, Column)
      ensures Holds(Format(RowId(place.0), place.0, place.1, false), tables) <==>
        forall row | row in tables[place.0] && Field(row, place.1).Text? :: !IsMalformed(Field(row, place.1).text)
    {
      PlainFormatExactly(place, tables);
    }
  }

  lemma {:induction false} TypedFormatsAre(schema: Schema, references: seq<Polymorphic>, v: Validation)
    ensures v in TypedFormats(schema, references) <==>
      exists p | p in references && schema.HasColumn(p.table, p.typeColumn) && schema.HasColumn(p.table, p.valueColumn) ::
        v == TypedFormat(p)
    decreases |references|
  {
    if references != [] {
      TypedFormatsAre(schema, references[1..], v);
      assert references == [references[0]] + references[1..];
    }
  }

  lemma TypedFormatsExactly(schema: Schema, tables: Tables)
    ensures AllHold(TypedFormats(schema, POLYMORPHIC_REFERENCES), tables) <==> TypedColumnsAreGood(schema, tables)
  {
    hide TypedFormats, POLYMORPHIC_REFERENCES, Holds, TypedValuesAreGood;
    forall v ensures v in TypedFormats(schema, POLYMORPHIC_REFERENCES) <==>
      exists p | p in POLYMORPHIC_REFERENCES && schema.HasColumn(p.table, p.typeColumn) && schema.HasColumn(p.table, p.valueColumn) ::
        v == TypedFormat(p)
    {
      TypedFormatsAre(schema, POLYMORPHIC_REFERENCES, v);
    }
    forall p ensures Holds(TypedFormat(p), tables) <==> TypedValuesAreGood(p, tables) {
      TypedQueryExactly(p, tables);
    }
  }

  lemma ReferencesExactly(schema: Schema, tables: Tables)
    ensures AllResolve(schema, tables) <==> ReferencesResolve(schema, tables)
  {
    hide VALUE_KINDS, References, PrimaryTable, PrimaryColumn, Holds, ReferenceResolves, ResolutionOf;
    forall kind, ref ensures Holds(ResolutionOf(kind, ref), tables) <==> ReferenceResolves(kind, ref, tables) {
      ResolutionExactly(kind, ref, tables);
    }
  }

  lemma NotificationsExactly(schema: Schema, tables: Tables)
    ensures AllNotificationsResolve(schema, tables) <==> NotificationsResolve(schema, tables)
  {
    hide Holds, NamedTargetsExist, NotificationQuery;
    forall name, target ensures Holds(NotificationQuery((name, target)), tables) <==> NamedTargetsExist(name, target, tables) {
      NotificationQueryExactly(name, target, tables);
    }
    if AllNotificationsResolve(schema, tables) {
      forall name, target |
        (name, target) in NOTIFICATION_TARGETS && schema.HasColumn(NOTIFICATIONS, REF_TYPE)
        && schema.HasColumn(NOTIFICATIONS, REF_ID) && schema.HasColumn(target, ID)
        ensures NamedTargetsExist(name, target, tables)
      {
        assert Holds(NotificationQuery((name, target)), tables);
      }
    }
    if NotificationsResolve(schema, tables) && schema.HasColumn(NOTIFICATIONS, REF_TYPE) && schema.HasColumn(NOTIFICATIONS, REF_ID) {
      forall to: (string, Table) | to in NOTIFICATION_TARGETS && schema.HasColumn(to.1, ID) ensures Holds(NotificationQuery(to), tables) {
        assert to == (to.0, to.1) && NamedTargetsExist(to.0, to.1, tables);
      }
    }
  }

  lemma KeysExactly(schema: Schema, tables: Tables)
    ensures AllKeysHold(schema, tables) <==> KeysResolve(schema, tables)
  {
    hide Holds, KeyQuery;
    forall key: ForeignKey
      ensures Holds(KeyQuery(key), tables) <==>
        forall row | row in tables[key.table] && Field(row, key.column) != Null && !Field(row, key.column).Doc? ::
          exists other | other in tables[key.target] :: Field(other, key.targetColumn) == Field(row, key.column)
    {
      KeyQueryExactly(key, tables);
    }
  }

  /** The queries that validation and the plan share hold exactly if the tables are sound. */
  lemma RegistryQueriesExactly(schema: Schema, tables: Tables)
    ensures AllHold(RegistryValidations(schema), tables) <==> IsSound(schema, tables)
  {
    hide RegistryValidations, ReferenceQueries, KindFormats, PlainFormats, TypedFormats, Holds, AllKeysHold, AllResolve,
      AllNotificationsResolve, KeysResolve, ReferencesResolve, NotificationsResolve, TypedColumnsAreGood, UploadCreatorResolves,
      HoldsGoodValues, VALUE_KINDS, VALIDATE_ONLY_COLUMNS, POLYMORPHIC_REFERENCES, Targets, IsMalformed;
    forall v ensures v in RegistryValidations(schema) <==>
      (v in ReferenceQueries(schema) || v in KindFormats(schema, VALUE_KINDS)
       || v in PlainFormats(schema, VALIDATE_ONLY_COLUMNS) || v in TypedFormats(schema, POLYMORPHIC_REFERENCES))
    {
      QueriesAre(schema, v);
    }
    ReferenceQueriesHold(schema, tables);
    KindFormatsExactly(schema, tables);
    PlainFormatsExactly(schema, tables);
    TypedFormatsExactly(schema, tables);
    ReferencesExactly(schema, tables);
    NotificationsExactly(schema, tables);
    KeysExactly(schema, tables);
    CreatorQueriesExactly(tables);
  }

  /** So a completed plan leaves a sound copy, whatever the copy held before. */
  lemma CompletedCopyIsSound(run: LocalRun, rendering: Rendering, st: D1, end: D1)
    requires Execute(run.schema, PlanOf(run, rendering), st) == Some(end) && Pending(st) && Plannable(run, rendering)
    requires run.validations == PlanValidations(run.schema)
    ensures IsSound(run.schema, end.tables)
  {
    hide RegistryValidations, DocumentQueries, Holds, IsSound, Plannable, PlanOf, Execute, IsRenamedAsLocally;
    CompletedPlanIsChecked(run, rendering, st, end);
    RegistryQueriesExactly(run.schema, end.tables);
  }

  /** And validation accepts only sound tables. */
  lemma ValidatedTablesAreSound(schema: Schema, what: Inventory, m: IdMap, before: Tables, tables: Tables)
    requires Validates(schema, what, m, RegistryValidations(schema), before, tables)
    ensures IsSound(schema, tables)
  {
    hide RegistryValidations, Holds, IsSound, DocumentsAreClean;
    RegistryQueriesExactly(schema, tables);
  }
}
