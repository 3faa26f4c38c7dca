/**
 * Every query over references that validation puts to the outcome of a local run, as a condition on the map and on the
 * tables before the run.
 */
module LocalReferences {
  import opened Wrappers
  import opened Text
  import opened IdRegistry
  import opened IdValues
  import opened JsonText
  import opened JsonReferences
  import opened IdTables
  import opened JsonAssertions
  import opened IdMigration
  import IdIsomorphism
  import opened IdCollection
  import opened IdValidation
  import opened D1Plan
  import opened D1Progress
  import opened LocalOutcome
  import opened LocalImage

  // Live references.

  lemma ReferencesAreTargets(kind: Kind, target: Reference)
    requires target in References(kind)
    ensures target in Targets(kind)
    ensures target.allowDangling ==> target != Primary(kind)
  {
    hide References, PrimaryTable, PrimaryColumn;
  }

  ghost predicate IsLiveReference(schema: Schema, kind: Kind, ref: Reference) {
    kind in VALUE_KINDS && ref in References(kind) && !ref.allowDangling && schema.HasColumn(ref.table, ref.column)
  }

  function ResolutionOf(kind: Kind, ref: Reference): Validation {
    Resolves(ref.table, ref.column, PrimaryTable(kind), PrimaryColumn(kind))
  }

  function FormatOfReference(kind: Kind, ref: Reference): Validation {
    Format(kind, ref.table, ref.column, EmptyIsSentinel(ref.table, ref.column))
  }

  /** What validation asks about one live reference. */
  ghost predicate IsInOrder(schema: Schema, kind: Kind, ref: Reference, outcome: Tables) {
    && Holds(FormatOfReference(kind, ref), outcome)
    && (schema.HasColumn(PrimaryTable(kind), PrimaryColumn(kind)) ==> Holds(ResolutionOf(kind, ref), outcome))
  }

  /** A live value names a primary value; without a primary column it need only be replaced or well formed. */
  ghost predicate ValueStands(schema: Schema, m: IdMap, kind: Kind, kept: Tables, value: string) {
    if schema.HasColumn(PrimaryTable(kind), PrimaryColumn(kind)) then NamesPrimary(m, kind, kept, value)
    else (kind, value) in m || MappedValueIsValid(kind, value)
  }

  ghost predicate ReferenceStands(schema: Schema, m: IdMap, kind: Kind, ref: Reference, kept: Tables) {
    forall row | row in kept[ref.table] && Field(row, ref.column).Text? ::
      ValueStands(schema, m, kind, kept, Field(row, ref.column).text)
  }

  lemma LiveReferencesAreNoSentinels(kind: Kind, ref: Reference)
    requires ref in References(kind) && !ref.allowDangling
    ensures !EmptyIsSentinel(ref.table, ref.column)
  {
  }

  lemma LiveValue(
    schema: Schema, m: IdMap, tokens: seq<string>, kept: Tables, outcome: Tables, kind: Kind, value: string)
    requires IsRunOn(schema, m, tokens, kept, outcome) && kind in VALUE_KINDS && !RotatesAll(kind)
    ensures var next := Renamed(m, kind, value);
      ValueStands(schema, m, kind, kept, value) <==>
      (!InvalidValue(kind, next, false)
       && (schema.HasColumn(PrimaryTable(kind), PrimaryColumn(kind)) && next != "" ==>
             IsTarget(outcome, PrimaryTable(kind), PrimaryColumn(kind), Text(next))))
  {
    hide IsImage, NewValuesDistinct, PrimaryConforms, PrimariesAreGood, PrimaryTable, PrimaryColumn, VALUE_KINDS, NamesPrimary,
      IsTarget, MappedValueIsValid, RotatesAll, InvalidValue, UnrotatedOldValuesInvalid, RotatedOldAndNewDisjoint;
    var next := Renamed(m, kind, value);
    RenamedTargets(schema, m, tokens, kept, outcome, kind, value);
    FormatChecksAgree(kind, next);
    if MappedValueIsValid(kind, next) {
      ValidValuesAreBase62(kind, next);
    }
  }

  lemma LiveRow(
    schema: Schema, m: IdMap, tokens: seq<string>, kept: Tables, outcome: Tables, kind: Kind, ref: Reference, from: Row, row: Row)
    requires IsRunOn(schema, m, tokens, kept, outcome) && IsLiveReference(schema, kind, ref)
    requires Field(row, ref.column) == RenamedCell(m, kind, Field(from, ref.column))
    ensures (Field(from, ref.column).Text? ==> ValueStands(schema, m, kind, kept, Field(from, ref.column).text)) <==>
      (RowIsWellFormed(FormatOfReference(kind, ref), outcome, row)
       && (schema.HasColumn(PrimaryTable(kind), PrimaryColumn(kind)) ==> RowIsWellFormed(ResolutionOf(kind, ref), outcome, row)))
  {
    hide IsRunOn, PrimaryTable, PrimaryColumn, VALUE_KINDS, References, ValueStands, InvalidValue, IsTarget, EmptyIsSentinel,
      RotatesAll, Renamed;
    LiveReferencesAreNoSentinels(kind, ref);
    if RotatesAll(kind) {
      RotatedKindsHaveNoReferences(kind);
    }
    if Field(from, ref.column).Text? {
      LiveValue(schema, m, tokens, kept, outcome, kind, Field(from, ref.column).text);
    }
  }

  /** What validation asks about a live reference in the outcome, asked before the run. */
  lemma LiveReferenceExactlyIf(
    schema: Schema, m: IdMap, tokens: seq<string>, kept: Tables, outcome: Tables, kind: Kind, ref: Reference)
    requires IsRunOn(schema, m, tokens, kept, outcome) && IsLiveReference(schema, kind, ref)
    ensures IsInOrder(schema, kind, ref, outcome) <==> ReferenceStands(schema, m, kind, ref, kept)
  {
    hide IsRunOn, PrimaryTable, PrimaryColumn, VALUE_KINDS, References, ValueStands, RowIsWellFormed, NewCell, RenamedCell, Targets,
      EmptyIsSentinel;
    var before, after := kept[ref.table], outcome[ref.table];
    RunIsImage(schema, m, tokens, kept, outcome, ref.table);
    ReferencesAreTargets(kind, ref);
    var primary := schema.HasColumn(PrimaryTable(kind), PrimaryColumn(kind));
    forall i: nat | i < |before|
      ensures (Field(before[i], ref.column).Text? ==> ValueStands(schema, m, kind, kept, Field(before[i], ref.column).text)) <==>
        (RowIsWellFormed(FormatOfReference(kind, ref), outcome, after[i])
         && (primary ==> RowIsWellFormed(ResolutionOf(kind, ref), outcome, after[i])))
    {
      TargetsAreRenamed(schema, m, tokens, kind, ref, i, before[i]);
      LiveRow(schema, m, tokens, kept, outcome, kind, ref, before[i], after[i]);
    }
    RowsAgree(
      before, after,
      row => Field(row, ref.column).Text? ==> ValueStands(schema, m, kind, kept, Field(row, ref.column).text),
      row => RowIsWellFormed(FormatOfReference(kind, ref), outcome, row)
        && (primary ==> RowIsWellFormed(ResolutionOf(kind, ref), outcome, row)));
  }

  lemma RowsAgree(before: seq<Row>, after: seq<Row>, stands: Row -> bool, holds: Row -> bool)
    requires |after| == |before| && forall i | 0 <= i < |before| :: stands(before[i]) == holds(after[i])
    ensures (forall row | row in before :: stands(row)) <==> (forall row | row in after :: holds(row))
  {
    if forall row | row in before :: stands(row) {
      forall row | row in after ensures holds(row) {
        var i :| 0 <= i < |after| && after[i] == row;
        assert before[i] in before;
      }
    }
    if forall row | row in after :: holds(row) {
      forall row | row in before ensures stands(row) {
        var i :| 0 <= i < |before| && before[i] == row;
        assert after[i] in after;
      }
    }
  }

  lemma RunIsImage(schema: Schema, m: IdMap, tokens: seq<string>, kept: Tables, outcome: Tables, table: Table)
    requires IsRunOn(schema, m, tokens, kept, outcome)
    ensures IsImageOf(schema, m, tokens, table, kept[table], outcome[table])
  {
    hide IsImageOf, PrimaryConforms, PrimariesAreGood, WellFormedMap, NewValuesDistinct, VALUE_KINDS;
  }

  // References of notifications.

  /** An empty reference may stay empty; any other names a primary value. */
  ghost predicate NotificationStands(m: IdMap, kept: Tables, to: (string, Table), row: Row) {
    Field(row, REF_TYPE) == Text(to.0) && Field(row, REF_ID).Text? ==>
      var value := Field(row, REF_ID).text;
      (value == "" && (RowId(to.1), "") !in m) || NamesPrimary(m, RowId(to.1), kept, value)
  }

  ghost predicate NotificationsStand(m: IdMap, kept: Tables, to: (string, Table)) {
    forall row | row in kept[NOTIFICATIONS] :: NotificationStands(m, kept, to, row)
  }

  function NotificationQuery(to: (string, Table)): Validation {
    TypedResolves(NOTIFICATIONS, REF_TYPE, to.0, REF_ID, to.1, ID)
  }

  lemma NotificationCells(schema: Schema, m: IdMap, tokens: seq<string>, i: nat, row: Row)
    ensures NewCell(schema, m, tokens, NOTIFICATIONS, i, REF_TYPE, row) == Field(row, REF_TYPE)
    ensures NewCell(schema, m, tokens, NOTIFICATIONS, i, REF_ID, row) ==
      PolymorphicCell(m, NOTIFICATION_KINDS, Field(row, REF_TYPE), Field(row, REF_ID))
  {
    hide NewCell, PolymorphicCell;
    TypedCells(schema, m, tokens, POLYMORPHIC_REFERENCES[4], i, row);
  }

  lemma NotificationKinds(to: (string, Table))
    requires to in NOTIFICATION_TARGETS
    ensures to.0 in NOTIFICATION_KINDS && NOTIFICATION_KINDS[to.0] == RowId(to.1) && RowId(to.1) in VALUE_KINDS
  {
    hide VALUE_KINDS;
    TypedKindIsListed(RowId(to.1));
  }

  lemma NotificationRow(
    schema: Schema, m: IdMap, tokens: seq<string>, kept: Tables, outcome: Tables, to: (string, Table), from: Row, row: Row)
    requires IsRunOn(schema, m, tokens, kept, outcome) && to in NOTIFICATION_TARGETS
    requires Field(row, REF_TYPE) == Field(from, REF_TYPE)
    requires Field(row, REF_ID) == PolymorphicCell(m, NOTIFICATION_KINDS, Field(from, REF_TYPE), Field(from, REF_ID))
    ensures NotificationStands(m, kept, to, from) <==> RowIsWellFormed(NotificationQuery(to), outcome, row)
  {
    hide IsImage, NewValuesDistinct, PrimaryConforms, PrimariesAreGood, VALUE_KINDS, NamesPrimary, IsTarget, MappedValueIsValid,
      UnrotatedOldValuesInvalid, RotatedOldAndNewDisjoint, NOTIFICATION_TARGETS, NOTIFICATION_KINDS;
    NotificationKinds(to);
    if Field(from, REF_TYPE) == Text(to.0) && Field(from, REF_ID).Text? {
      var kind, value := RowId(to.1), Field(from, REF_ID).text;
      RenamedTargets(schema, m, tokens, kept, outcome, kind, value);
      if (kind, value) in m {
        ValidValuesAreBase62(kind, m[(kind, value)]);
      } else if value == "" {
        EmptyIsMalformed(kind);
      }
    }
  }

  lemma EmptyIsMalformed(kind: Kind)
    ensures !MappedValueIsValid(kind, "")
  {
  }

  lemma NotificationsExactlyIf(
    schema: Schema, m: IdMap, tokens: seq<string>, kept: Tables, outcome: Tables, to: (string, Table))
    requires IsRunOn(schema, m, tokens, kept, outcome) && to in NOTIFICATION_TARGETS
    ensures Holds(NotificationQuery(to), outcome) <==> NotificationsStand(m, kept, to)
  {
    hide IsRunOn, NewCell, PolymorphicCell, NotificationStands, RowIsWellFormed, NOTIFICATION_TARGETS;
    var before, after := kept[NOTIFICATIONS], outcome[NOTIFICATIONS];
    RunIsImage(schema, m, tokens, kept, outcome, NOTIFICATIONS);
    forall i: nat | i < |before|
      ensures NotificationStands(m, kept, to, before[i]) <==> RowIsWellFormed(NotificationQuery(to), outcome, after[i])
    {
      NotificationCells(schema, m, tokens, i, before[i]);
      NotificationRow(schema, m, tokens, kept, outcome, to, before[i], after[i]);
    }
    RowsAgree(before, after, row => NotificationStands(m, kept, to, row), row => RowIsWellFormed(NotificationQuery(to), outcome, row));
  }

  // Foreign keys.

  /** Some parent row becomes what the child row becomes. */
  ghost predicate KeyRowStands(schema: Schema, m: IdMap, tokens: seq<string>, kept: Tables, key: ForeignKey, cell: Cell) {
    cell.Text? || cell.Number? ==>
      exists j: nat | j < |kept[key.target]| ::
        NewCell(schema, m, tokens, key.target, j, key.targetColumn, kept[key.target][j]) == cell
  }

  ghost predicate KeyStands(schema: Schema, m: IdMap, tokens: seq<string>, kept: Tables, key: ForeignKey) {
    forall i: nat | i < |kept[key.table]| ::
      KeyRowStands(schema, m, tokens, kept, key, NewCell(schema, m, tokens, key.table, i, key.column, kept[key.table][i]))
  }

  function KeyQuery(key: ForeignKey): Validation {
    KeyResolves(key.table, key.column, key.target, key.targetColumn)
  }

  lemma KeyRowExactlyIf(
    schema: Schema, m: IdMap, tokens: seq<string>, kept: Tables, outcome: Tables, key: ForeignKey, cell: Cell)
    requires IsImageOf(schema, m, tokens, key.target, kept[key.target], outcome[key.target])
    ensures KeyRowStands(schema, m, tokens, kept, key, cell) <==>
      (cell.Text? || cell.Number? ==> IsTarget(outcome, key.target, key.targetColumn, cell))
  {
    hide NewCell;
    var before, after := kept[key.target], outcome[key.target];
    if IsTarget(outcome, key.target, key.targetColumn, cell) {
      var other :| other in after && Field(other, key.targetColumn) == cell;
      var j: nat :| j < |after| && after[j] == other;
      assert NewCell(schema, m, tokens, key.target, j, key.targetColumn, before[j]) == cell;
    }
    if j: nat :| j < |before| && NewCell(schema, m, tokens, key.target, j, key.targetColumn, before[j]) == cell {
      assert after[j] in after;
    }
  }

  lemma KeyExactlyIf(schema: Schema, m: IdMap, tokens: seq<string>, kept: Tables, outcome: Tables, key: ForeignKey)
    requires IsRunOn(schema, m, tokens, kept, outcome)
    ensures Holds(KeyQuery(key), outcome) <==> KeyStands(schema, m, tokens, kept, key)
  {
    hide IsRunOn, NewCell, KeyRowStands, IsTarget;
    RunIsImage(schema, m, tokens, kept, outcome, key.table);
    RunIsImage(schema, m, tokens, kept, outcome, key.target);
    var before, after := kept[key.table], outcome[key.table];
    forall i: nat | i < |before|
      ensures KeyRowStands(schema, m, tokens, kept, key, NewCell(schema, m, tokens, key.table, i, key.column, before[i])) <==>
        RowIsWellFormed(KeyQuery(key), outcome, after[i])
    {
      KeyRowExactlyIf(schema, m, tokens, kept, outcome, key, Field(after[i], key.column));
    }
    forall i: nat | i < |after| ensures after[i] in after {
    }
  }

  /** Equal, or two texts the map confuses. */
  ghost predicate CellsMeet(m: IdMap, kind: Kind, a: Cell, b: Cell) {
    a == b || (a.Text? && b.Text? && IdIsomorphism.Collides(m, kind, a.text, b.text))
  }

  lemma CellsMeetAgain(m: IdMap, kind: Kind, a: Cell, b: Cell)
    requires NewValuesDistinct(m)
    ensures CellsMeet(m, kind, a, b) <==> RenamedCell(m, kind, a) == RenamedCell(m, kind, b)
  {
    hide NewValuesDistinct, IdIsomorphism.Collides, Renamed;
    if a.Text? && b.Text? {
      IdIsomorphism.EqualityIsKept(m, kind, a.text, b.text);
      EqualIsNoCollision(m, kind, a.text);
    }
  }

  /** Some parent row holds the child's value. */
  ghost predicate ParentExists(m: IdMap, kind: Kind, kept: Tables, key: ForeignKey, row: Row) {
    var cell := Field(row, key.column);
    cell.Text? || cell.Number? ==>
      exists parent | parent in kept[key.target] :: CellsMeet(m, kind, cell, Field(parent, key.targetColumn))
  }

  /** A foreign key between two columns of one kind stands exactly if every child row has its parent before the run. */
  lemma KeyOfOneKindStandsExactlyIf(
    schema: Schema, m: IdMap, tokens: seq<string>, kept: Tables, key: ForeignKey, kind: Kind, from: Reference, to: Reference)
    requires NewValuesDistinct(m) && kind in VALUE_KINDS && from in Targets(kind) && to in Targets(kind)
    requires (from.table, from.column) == (key.table, key.column) && (to.table, to.column) == (key.target, key.targetColumn)
    requires schema.HasColumn(key.table, key.column) && schema.HasColumn(key.target, key.targetColumn)
    ensures KeyStands(schema, m, tokens, kept, key) <==>
      forall row | row in kept[key.table] :: ParentExists(m, kind, kept, key, row)
  {
    hide NewCell, NewValuesDistinct, VALUE_KINDS, Targets, KeyRowStands, ParentExists;
    var rows := kept[key.table];
    forall i: nat | i < |rows|
      ensures ParentExists(m, kind, kept, key, rows[i]) <==>
        KeyRowStands(schema, m, tokens, kept, key, NewCell(schema, m, tokens, key.table, i, key.column, rows[i]))
    {
      TargetsAreRenamed(schema, m, tokens, kind, from, i, rows[i]);
      ParentInImage(schema, m, tokens, kept, key, kind, to, rows[i]);
    }
    forall i: nat | i < |rows| ensures rows[i] in rows {
    }
  }

  lemma ParentInImage(
    schema: Schema, m: IdMap, tokens: seq<string>, kept: Tables, key: ForeignKey, kind: Kind, to: Reference, row: Row)
    requires NewValuesDistinct(m) && kind in VALUE_KINDS && to in Targets(kind)
    requires (to.table, to.column) == (key.target, key.targetColumn) && schema.HasColumn(key.target, key.targetColumn)
    ensures ParentExists(m, kind, kept, key, row) <==>
      KeyRowStands(schema, m, tokens, kept, key, RenamedCell(m, kind, Field(row, key.column)))
  {
    hide NewCell, NewValuesDistinct, VALUE_KINDS, Targets, CellsMeet, Renamed;
    var cell, parents := Field(row, key.column), kept[key.target];
    forall j: nat | j < |parents|
      ensures CellsMeet(m, kind, cell, Field(parents[j], key.targetColumn)) <==>
        NewCell(schema, m, tokens, key.target, j, key.targetColumn, parents[j]) == RenamedCell(m, kind, cell)
    {
      TargetsAreRenamed(schema, m, tokens, kind, to, j, parents[j]);
      CellsMeetAgain(m, kind, cell, Field(parents[j], key.targetColumn));
    }
    forall j: nat | j < |parents| ensures parents[j] in parents {
    }
  }

  // Creators of upload sessions.

  /**
   * A downloader in the exact spelling has an id without a colon and exists; in any other spelling it is not rewritten and
   * must be the new id already; everyone else is a user.
   */
  ghost predicate CreatorStands(m: IdMap, kept: Tables, value: string) {
    if StartsWith(value, "downloader:") then
      ':' !in value[11..] && NamesPrimary(m, RowId(DOWNLOADERS), kept, value[11..])
    else if NamesDownloader(value) && (RowId(USER), value) !in m then Becomes(m, RowId(DOWNLOADERS), kept, value[11..])
    else NamesPrimary(m, RowId(USER), kept, value)
  }

  /** What the two creator queries ask of a value. */
  ghost predicate CreatorIsSound(outcome: Tables, text: string) {
    && text != ""
    && (HasForeignChar(text) ==> NamesDownloader(text) && text[11..] != "" && !HasForeignChar(text[11..]))
    && (if NamesDownloader(text) then IsTarget(outcome, DOWNLOADERS, ID, Text(text[11..]))
        else IsTarget(outcome, USER, ID, Text(text)))
  }

  lemma CreatorQueries(outcome: Tables, row: Row)
    ensures (RowIsWellFormed(CreatorFormat, outcome, row) && RowIsWellFormed(CreatorResolves, outcome, row)) <==>
      (Field(row, CREATED_BY).Text? ==> CreatorIsSound(outcome, Field(row, CREATED_BY).text))
  {
    hide HasForeignChar, NamesDownloader, IsTarget;
    if Field(row, CREATED_BY).Text? && NamesDownloader(Field(row, CREATED_BY).text) {
      NamedDownloadersAreLong(Field(row, CREATED_BY).text);
    }
  }

  lemma NamedDownloadersAreLong(text: string)
    requires NamesDownloader(text)
    ensures |text| >= 11 && HasForeignChar(text)
  {
    assert Lower(text[..11])[10] == LowerChar(text[10]) && DOWNLOADER_PREFIX[10] == ':';
    assert !IsBase62Char(text[10]);
  }

  /** The exact spelling: the prefix stays, and the id is renamed segment by segment. */
  lemma RewrittenDownloader(m: IdMap, value: string)
    requires WellFormedMap(m) && StartsWith(value, "downloader:")
    ensures ReplaceSegments(m, RowId(DOWNLOADERS), value) == "downloader:" + ReplaceSegments(m, RowId(DOWNLOADERS), value[11..])
  {
    DownloaderIsNeverMapped(m);
    assert value == "downloader" + [':'] + value[11..];
    ReplaceSegmentsAfterWord(m, RowId(DOWNLOADERS), "downloader", value[11..]);
  }

  lemma DownloaderIsNeverMapped(m: IdMap)
    requires WellFormedMap(m)
    ensures (RowId(DOWNLOADERS), "downloader") !in m
  {
    assert MappedValueIsValid(RowId(DOWNLOADERS), "downloader");
  }

  lemma ExactDownloader(
    schema: Schema, m: IdMap, tokens: seq<string>, kept: Tables, outcome: Tables, value: string)
    requires IsRunOn(schema, m, tokens, kept, outcome) && StartsWith(value, "downloader:")
    ensures CreatorStands(m, kept, value) <==> CreatorIsSound(outcome, ReplaceSegments(m, RowId(DOWNLOADERS), value))
  {
    hide IsImage, NewValuesDistinct, PrimaryConforms, PrimariesAreGood, VALUE_KINDS, NamesPrimary, IsTarget, ReplaceSegments,
      UnrotatedOldValuesInvalid, RotatedOldAndNewDisjoint, HasForeignChar, NewValuesValid, Renamed;
    var kind, id := RowId(DOWNLOADERS), value[11..];
    var next := ReplaceSegments(m, kind, id);
    CreatorKindsAreListed();
    RewrittenDownloader(m, value);
    ExactPrefix(next);
    if ':' in id {
      ColonsStay(m, kind, id);
    } else {
      ReplaceSegmentsWithoutColon(m, kind, id);
      RenamedTargets(schema, m, tokens, kept, outcome, kind, id);
      if NamesPrimary(m, kind, kept, id) {
        ValidValuesAreBase62(kind, next);
      }
    }
  }

  lemma ExactPrefix(id: string)
    ensures var text := "downloader:" + id; NamesDownloader(text) && text[11..] == id && text != "" && HasForeignChar(text)
  {
    var text := "downloader:" + id;
    assert text[..11] == "downloader:" && Lower("downloader:") == DOWNLOADER_PREFIX;
    NamedDownloadersAreLong(text);
  }

  lemma CreatorKindsAreListed()
    ensures RowId(DOWNLOADERS) in VALUE_KINDS && RowId(USER) in VALUE_KINDS
  {
    hide VALUE_KINDS;
    TypedKindIsListed(RowId(DOWNLOADERS));
    TypedKindIsListed(RowId(USER));
  }

  /** Another spelling of the prefix is left as it is. */
  lemma OddDownloader(
    schema: Schema, m: IdMap, tokens: seq<string>, kept: Tables, outcome: Tables, value: string)
    requires IsRunOn(schema, m, tokens, kept, outcome) && NamesDownloader(value)
    ensures CreatorIsSound(outcome, value) <==> Becomes(m, RowId(DOWNLOADERS), kept, value[11..])
  {
    hide IsImage, NewValuesDistinct, PrimaryConforms, PrimariesAreGood, VALUE_KINDS, IsTarget, Becomes,
      UnrotatedOldValuesInvalid, RotatedOldAndNewDisjoint, HasForeignChar, NewValuesValid, MappedValueIsValid;
    CreatorKindsAreListed();
    NamedDownloadersAreLong(value);
    TargetsInOutcome(schema, m, tokens, kept, outcome, RowId(DOWNLOADERS), value[11..]);
    if Becomes(m, RowId(DOWNLOADERS), kept, value[11..]) {
      BecomingIsValid(m, RowId(DOWNLOADERS), kept, value[11..]);
      ValidValuesAreBase62(RowId(DOWNLOADERS), value[11..]);
    }
  }

  lemma UserCreator(
    schema: Schema, m: IdMap, tokens: seq<string>, kept: Tables, outcome: Tables, value: string)
    requires IsRunOn(schema, m, tokens, kept, outcome) && (NamesDownloader(value) ==> (RowId(USER), value) in m)
    ensures CreatorIsSound(outcome, Renamed(m, RowId(USER), value)) <==> NamesPrimary(m, RowId(USER), kept, value)
  {
    hide IsImage, NewValuesDistinct, PrimaryConforms, PrimariesAreGood, VALUE_KINDS, NamesPrimary, IsTarget,
      UnrotatedOldValuesInvalid, RotatedOldAndNewDisjoint, HasForeignChar, MappedValueIsValid;
    var kind, next := RowId(USER), Renamed(m, RowId(USER), value);
    CreatorKindsAreListed();
    RenamedTargets(schema, m, tokens, kept, outcome, kind, value);
    if MappedValueIsValid(kind, next) {
      ValidValuesAreBase62(kind, next);
    }
    if NamesDownloader(next) {
      NamedDownloadersAreLong(next);
    }
  }

  lemma CreatorValue(schema: Schema, m: IdMap, tokens: seq<string>, kept: Tables, outcome: Tables, from: Row, row: Row)
    requires IsRunOn(schema, m, tokens, kept, outcome)
    requires Field(row, CREATED_BY) == UploadCreatorCell(m, Field(from, CREATED_BY))
    ensures (Field(from, CREATED_BY).Text? ==> CreatorStands(m, kept, Field(from, CREATED_BY).text)) <==>
      (RowIsWellFormed(CreatorFormat, outcome, row) && RowIsWellFormed(CreatorResolves, outcome, row))
  {
    hide IsRunOn, NamesPrimary, Becomes, CreatorIsSound, ReplaceSegments, NamesDownloader, Renamed, RowIsWellFormed;
    CreatorQueries(outcome, row);
    if Field(from, CREATED_BY).Text? {
      var value := Field(from, CREATED_BY).text;
      if StartsWith(value, "downloader:") {
        ExactDownloader(schema, m, tokens, kept, outcome, value);
      } else if NamesDownloader(value) && (RowId(USER), value) !in m {
        OddDownloader(schema, m, tokens, kept, outcome, value);
        UnmappedStays(m, value);
      } else {
        UserCreator(schema, m, tokens, kept, outcome, value);
      }
    }
  }

  lemma UnmappedStays(m: IdMap, value: string)
    requires (RowId(USER), value) !in m
    ensures Renamed(m, RowId(USER), value) == value
  {
  }

  lemma CreatorCells(schema: Schema, m: IdMap, tokens: seq<string>, i: nat, row: Row)
    ensures NewCell(schema, m, tokens, OBJECT_UPLOAD_SESSIONS, i, CREATED_BY, row) == UploadCreatorCell(m, Field(row, CREATED_BY))
  {
    hide LOCAL_REWRITE_ORDER, UploadCreatorCell, RenameList;
    LocalOrderCoversEmbedded(OBJECT_UPLOAD_SESSIONS, CREATED_BY);
    assert REWRITTEN_COLUMNS[10] == (OBJECT_UPLOAD_SESSIONS, CREATED_BY);
  }

  ghost predicate CreatorsStand(m: IdMap, kept: Tables) {
    forall row | row in kept[OBJECT_UPLOAD_SESSIONS] && Field(row, CREATED_BY).Text? ::
      CreatorStands(m, kept, Field(row, CREATED_BY).text)
  }

  lemma CreatorsExactlyIf(schema: Schema, m: IdMap, tokens: seq<string>, kept: Tables, outcome: Tables)
    requires IsRunOn(schema, m, tokens, kept, outcome)
    ensures (Holds(CreatorFormat, outcome) && Holds(CreatorResolves, outcome)) <==> CreatorsStand(m, kept)
  {
    hide IsRunOn, NewCell, UploadCreatorCell, CreatorStands, RowIsWellFormed;
    var before, after := kept[OBJECT_UPLOAD_SESSIONS], outcome[OBJECT_UPLOAD_SESSIONS];
    RunIsImage(schema, m, tokens, kept, outcome, OBJECT_UPLOAD_SESSIONS);
    forall i: nat | i < |before|
      ensures (Field(before[i], CREATED_BY).Text? ==> CreatorStands(m, kept, Field(before[i], CREATED_BY).text)) <==>
        (RowIsWellFormed(CreatorFormat, outcome, after[i]) && RowIsWellFormed(CreatorResolves, outcome, after[i]))
    {
      CreatorCells(schema, m, tokens, i, before[i]);
      CreatorValue(schema, m, tokens, kept, outcome, before[i], after[i]);
    }
    RowsAgree(
      before, after, row => Field(row, CREATED_BY).Text? ==> CreatorStands(m, kept, Field(row, CREATED_BY).text),
      row => RowIsWellFormed(CreatorFormat, outcome, row) && RowIsWellFormed(CreatorResolves, outcome, row));
  }

  // Documents.

  /** A kind without a primary column holds everything. */
  ghost predicate IsHeld(schema: Schema, m: IdMap, kind: Kind, kept: Tables, value: string) {
    schema.HasColumn(PrimaryTable(kind), PrimaryColumn(kind)) ==> NamesPrimary(m, kind, kept, value)
  }

  ghost predicate LeafStands(schema: Schema, m: IdMap, kept: Tables, source: Source, key: string, text: string) {
    if key == "" then true
    else if IsInitialEventId(source, key, text) then IsHeld(schema, m, RowId(DOWNLOAD_TASKS), kept, text[|INITIAL_PREFIX|..])
    else
      match JsonReferenceKind(source, key)
      case None => true
      case Some(kind) => IsHeld(schema, m, kind, kept, text)
  }

  /** Every reference in the document names a primary value. */
  ghost predicate DocumentStands(schema: Schema, m: IdMap, kept: Tables, value: Json, source: Source, key: string)
    decreases value
  {
    match value
    case JsonArray(items) => forall i | 0 <= i < |items| :: DocumentStands(schema, m, kept, items[i], source, key)
    case JsonObject(entries) => forall i | 0 <= i < |entries| :: EntryStands(schema, m, kept, entries[i], source)
    case JsonString(text) => LeafStands(schema, m, kept, source, key, text)
    case _ => true
  }

  ghost predicate EntryStands(schema: Schema, m: IdMap, kept: Tables, entry: Entry, source: Source)
    decreases entry
  {
    DocumentStands(schema, m, kept, entry.value, source, entry.key)
  }

  const TYPED_TABLES: set<Table> := {
    USER, ORGANIZATION, MATTERS, STORAGES, SHARES, IMAGE_HOSTINGS, BACKGROUND_JOBS, DOWNLOADERS, DOWNLOAD_TASKS, API_KEY,
    NOTIFICATIONS, OBJECT_UPLOAD_SESSIONS, ORG_QUOTA_ENTITLEMENTS}

  predicate IsTypedKind(kind: Kind) {
    kind.RowId? && kind.of in TYPED_TABLES
  }

  lemma TypedKindIsListed(kind: Kind)
    requires IsTypedKind(kind)
    ensures kind in VALUE_KINDS
  {
    var at := KindRank(kind);
    ListedAt(kind, at);
  }

  lemma ListedAt(kind: Kind, at: nat)
    requires IsTypedKind(kind) && at == KindRank(kind)
    ensures at < |VALUE_KINDS| && VALUE_KINDS[at] == kind
  {
  }

  lemma EntityKinds(name: string)
    ensures name in ENTITY_TYPE_KINDS ==> IsTypedKind(ENTITY_TYPE_KINDS[name])
  {
  }

  lemma OtherKinds(name: string)
    ensures name in ACTOR_KINDS ==> IsTypedKind(ACTOR_KINDS[name])
    ensures name in SCOPE_KINDS ==> IsTypedKind(SCOPE_KINDS[name])
    ensures name in NOTIFICATION_KINDS ==> IsTypedKind(NOTIFICATION_KINDS[name])
    ensures name in LEDGER_KINDS ==> IsTypedKind(LEDGER_KINDS[name])
    ensures name in TRAFFIC_KINDS ==> IsTypedKind(TRAFFIC_KINDS[name])
  {
  }

  lemma JsonKindsAreListed(source: Source, key: string)
    requires JsonReferenceKind(source, key).Some?
    ensures JsonReferenceKind(source, key).value in VALUE_KINDS
  {
    hide VALUE_KINDS;
    var kind := JsonReferenceKind(source, key).value;
    if kind == ShareToken {
      TokensAreListed();
    } else {
      JsonKeyKinds(key);
      TypedKindIsListed(kind);
    }
  }

  lemma TokensAreListed()
    ensures ShareToken in VALUE_KINDS
  {
    assert VALUE_KINDS[36] == ShareToken;
  }

  lemma JsonKeyKinds(key: string)
    ensures key in JSON_KEY_KINDS ==> IsTypedKind(JSON_KEY_KINDS[key])
  {
  }

  lemma HeldInOutcome(
    schema: Schema, m: IdMap, tokens: seq<string>, kept: Tables, outcome: Tables, kind: Kind, value: string)
    requires IsRunOn(schema, m, tokens, kept, outcome) && kind in VALUE_KINDS
    ensures ReferenceExists(schema, outcome, kind, Renamed(m, kind, value)) <==> IsHeld(schema, m, kind, kept, value)
  {
    hide IsRunOn, VALUE_KINDS, NamesPrimary, PrimaryTable, PrimaryColumn, Renamed, IsTarget;
    RenamedTargets(schema, m, tokens, kept, outcome, kind, value);
  }

  lemma LeafExactlyIf(
    schema: Schema, m: IdMap, tokens: seq<string>, kept: Tables, outcome: Tables, source: Source, key: string, text: string)
    requires IsRunOn(schema, m, tokens, kept, outcome)
    requires key != "" && IsInitialEventId(source, key, text) ==> ':' !in text[|INITIAL_PREFIX|..]
    ensures LeafResolves(schema, outcome, source, key, RewriteText(m, source, key, text)) <==>
      LeafStands(schema, m, kept, source, key, text)
  {
    hide IsImage, NewValuesDistinct, PrimaryConforms, PrimariesAreGood, VALUE_KINDS, IsHeld, ReferenceExists, Renamed,
      JsonReferenceKind, ReplaceSegments, UnrotatedOldValuesInvalid, RotatedOldAndNewDisjoint, NewValuesValid;
    if key == "" {
    } else if IsInitialEventId(source, key, text) {
      var id := text[|INITIAL_PREFIX|..];
      RewrittenInitialEventId(m, text);
      ReplaceSegmentsWithoutColon(m, RowId(DOWNLOAD_TASKS), id);
      TasksAreListed();
      HeldInOutcome(schema, m, tokens, kept, outcome, RowId(DOWNLOAD_TASKS), id);
      assert (INITIAL_PREFIX + Renamed(m, RowId(DOWNLOAD_TASKS), id))[|INITIAL_PREFIX|..] == Renamed(m, RowId(DOWNLOAD_TASKS), id);
    } else if JsonReferenceKind(source, key).Some? {
      ReferenceKeyIsNoId(source, key);
      JsonKindsAreListed(source, key);
      HeldInOutcome(schema, m, tokens, kept, outcome, JsonReferenceKind(source, key).value, text);
    }
  }

  lemma TasksAreListed()
    ensures RowId(DOWNLOAD_TASKS) in VALUE_KINDS
  {
    assert VALUE_KINDS[8] == RowId(DOWNLOAD_TASKS);
  }

  /** A rewritten document resolves in the outcome exactly if it stands before the run. */
  lemma {:induction false} DocumentExactlyIf(
    schema: Schema, m: IdMap, tokens: seq<string>, kept: Tables, outcome: Tables, value: Json, source: Source, key: string)
    requires IsRunOn(schema, m, tokens, kept, outcome) && TaskIdsLackColons(value, source, key)
    ensures DocumentResolves(schema, outcome, Rewrite(value, m, source, key), source, key) <==>
      DocumentStands(schema, m, kept, value, source, key)
    decreases value
  {
    hide IsRunOn, LeafResolves, LeafStands, RewriteText, IsInitialEventId;
    var after := Rewrite(value, m, source, key);
    match value {
      case JsonArray(items) =>
        forall i | 0 <= i < |items|
          ensures DocumentResolves(schema, outcome, after.items[i], source, key) <==>
            DocumentStands(schema, m, kept, items[i], source, key)
        {
          DocumentExactlyIf(schema, m, tokens, kept, outcome, items[i], source, key);
        }
      case JsonObject(entries) =>
        forall i | 0 <= i < |entries|
          ensures EntryResolves(schema, outcome, after.entries[i], source) <==> EntryStands(schema, m, kept, entries[i], source)
        {
          assert EntryTaskIdsLackColons(entries[i], source) && entries[i].value < entries[i];
          DocumentExactlyIf(schema, m, tokens, kept, outcome, entries[i].value, source, entries[i].key);
        }
      case JsonString(text) => LeafExactlyIf(schema, m, tokens, kept, outcome, source, key, text);
      case _ =>
    }
  }

  ghost predicate RowDocumentStands(schema: Schema, m: IdMap, kept: Tables, source: Source, row: Row) {
    var cell := Field(row, source.1);
    schema.HasColumn(source.0, source.1) ==>
      && !cell.Text?
      && (cell.Doc? && !JsonAllowsDangling(source.0) ==> DocumentStands(schema, m, kept, cell.tree, source, ""))
  }

  ghost predicate DocumentsStand(schema: Schema, m: IdMap, kept: Tables, source: Source) {
    forall row | row in kept[source.0] :: RowDocumentStands(schema, m, kept, source, row)
  }

  lemma DocumentCells(schema: Schema, m: IdMap, tokens: seq<string>, source: Source, i: nat, row: Row)
    requires source in JSON_COLUMNS
    ensures NewCell(schema, m, tokens, source.0, i, source.1, row) == DocumentCell(m, source, Field(row, source.1))
  {
    hide LOCAL_REWRITE_ORDER, DocumentCell, RenameList, JSON_COLUMNS, EmbeddingOf, HasCredentials;
    assert source == (source.0, source.1);
    JsonColumnsAreDocuments(source.0, source.1);
    LocalOrderCoversEmbedded(source.0, source.1);
    JsonColumnsAreSeparate(source.0, source.1);
    DownloadersHoldNoDocuments();
  }

  lemma RowDocumentExactlyIf(
    schema: Schema, m: IdMap, tokens: seq<string>, kept: Tables, outcome: Tables, read: string -> Option<Json>, source: Source,
    from: Row, row: Row)
    requires IsRunOn(schema, m, tokens, kept, outcome) && IsReader(read) && IsStored(read, Field(from, source.1))
    requires Field(row, source.1) == DocumentCell(m, source, Field(from, source.1))
    requires source == EVENTS_SOURCE ==> EventIdsOfRowArePlain(schema, from)
    ensures RowDocumentStands(schema, m, kept, source, from) <==> DocumentIsSound(schema, outcome, source, row)
  {
    hide IsRunOn, IsReader, IsStored, DocumentCell, DocumentStands, DocumentResolves, TaskIdsLackColons;
    var cell := Field(from, source.1);
    DocumentCellIsStored(read, m, source, cell);
    DocumentCellKeepsTexts(m, source, cell);
    if schema.HasColumn(source.0, source.1) && cell.Doc? {
      if source != EVENTS_SOURCE {
        OtherDocumentsNameNoTasks(cell.tree, source, "");
      }
      DocumentExactlyIf(schema, m, tokens, kept, outcome, cell.tree, source, "");
    }
  }

  lemma DocumentCellKeepsTexts(m: IdMap, source: Source, cell: Cell)
    ensures DocumentCell(m, source, cell).Text? <==> cell.Text?
  {
  }

  lemma DocumentsExactlyIf(
    schema: Schema, m: IdMap, tokens: seq<string>, kept: Tables, outcome: Tables, read: string -> Option<Json>, source: Source)
    requires IsRunOn(schema, m, tokens, kept, outcome) && IsReader(read) && source in JSON_COLUMNS
    requires forall row | row in kept[source.0] :: IsStored(read, Field(row, source.1))
    requires source == EVENTS_SOURCE ==> forall row | row in kept[source.0] :: EventIdsOfRowArePlain(schema, row)
    ensures (forall row | row in outcome[source.0] :: DocumentIsSound(schema, outcome, source, row))
      <==> DocumentsStand(schema, m, kept, source)
  {
    hide IsRunOn, IsReader, IsStored, NewCell, DocumentCell, RowDocumentStands, DocumentIsSound, EventIdsOfRowArePlain, JSON_COLUMNS;
    var before, after := kept[source.0], outcome[source.0];
    RunIsImage(schema, m, tokens, kept, outcome, source.0);
    forall i: nat | i < |before|
      ensures RowDocumentStands(schema, m, kept, source, before[i]) <==> DocumentIsSound(schema, outcome, source, after[i])
    {
      assert before[i] in before;
      DocumentCells(schema, m, tokens, source, i, before[i]);
      RowDocumentExactlyIf(schema, m, tokens, kept, outcome, read, source, before[i], after[i]);
    }
    RowsAgree(before, after, row => RowDocumentStands(schema, m, kept, source, row),
              row => DocumentIsSound(schema, outcome, source, row));
  }

  // The queries over references, one by one.

  lemma {:induction false} KeyResolutionsAre(keys: seq<ForeignKey>, v: Validation)
    ensures v in KeyResolutions(keys) <==> exists key | key in keys :: v == KeyQuery(key)
  {
    if keys == [] {
    } else {
      KeyResolutionsAre(keys[1..], v);
      assert KeyResolutions(keys) == [KeyQuery(keys[0])] + KeyResolutions(keys[1..]);
      forall key ensures key in keys <==> key == keys[0] || key in keys[1..] {
        InHeadOrTail(keys, key);
      }
    }
  }

  lemma {:induction false} ColumnResolutionsAre(schema: Schema, kind: Kind, references: seq<Reference>, v: Validation)
    ensures v in ColumnResolutions(schema, kind, references) <==>
      exists ref | ref in references && !ref.allowDangling && schema.HasColumn(ref.table, ref.column) :: v == ResolutionOf(kind, ref)
  {
    hide PrimaryTable, PrimaryColumn;
    if references == [] {
    } else {
      ColumnResolutionsAre(schema, kind, references[1..], v);
      assert references == [references[0]] + references[1..];
    }
  }

  ghost predicate IsKindResolution(schema: Schema, kind: Kind, v: Validation) {
    schema.HasColumn(PrimaryTable(kind), PrimaryColumn(kind)) && v in ColumnResolutions(schema, kind, References(kind))
  }

  lemma FirstKindResolutions(schema: Schema, kinds: seq<Kind>, v: Validation)
    requires kinds != []
    ensures v in KindResolutions(schema, kinds) <==>
      IsKindResolution(schema, kinds[0], v) || v in KindResolutions(schema, kinds[1..])
  {
    hide References, PrimaryTable, PrimaryColumn, ColumnResolutions;
  }

  lemma {:induction false} KindResolutionsAre(schema: Schema, kinds: seq<Kind>, v: Validation)
    ensures v in KindResolutions(schema, kinds) <==> exists kind | kind in kinds :: IsKindResolution(schema, kind, v)
  {
    hide IsKindResolution;
    if kinds == [] {
    } else {
      KindResolutionsAre(schema, kinds[1..], v);
      FirstKindResolutions(schema, kinds, v);
      forall kind ensures kind in kinds <==> kind == kinds[0] || kind in kinds[1..] {
        InHeadOrTail(kinds, kind);
      }
    }
  }

  lemma {:induction false} TypedResolutionsAre(schema: Schema, names: seq<(string, Table)>, v: Validation)
    ensures v in TypedResolutions(schema, names) <==>
      schema.HasColumn(NOTIFICATIONS, REF_TYPE) && schema.HasColumn(NOTIFICATIONS, REF_ID)
      && exists to | to in names && schema.HasColumn(to.1, ID) :: v == NotificationQuery(to)
  {
    if names == [] {
    } else {
      TypedResolutionsAre(schema, names[1..], v);
      assert names == [names[0]] + names[1..];
    }
  }
}
