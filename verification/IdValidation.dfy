/**
 * What the formats, the stale counts and the document scan of validation find after a local run whose map covers
 * everything collected.
 */
module IdValidation {
  import opened Wrappers
  import opened Text
  import opened IdRegistry
  import opened IdValues
  import opened IdMapTable
  import opened JsonText
  import opened JsonReferences
  import opened IdTables
  import opened JsonAssertions
  import opened IdMigration
  import opened IdCollection
  import opened D1Plan
  import opened D1Progress
  import opened LocalOutcome

  // The format pass.

  /** Every value of a live reference is the value of some row of the target. */
  ghost predicate LiveValuesArePrimary(schema: Schema, kind: Kind, tables: Tables) {
    forall ref, row | ref in References(kind) && !ref.allowDangling && schema.HasColumn(ref.table, ref.column)
      && row in tables[ref.table] && Field(row, ref.column).Text? ::
      schema.HasColumn(PrimaryTable(kind), PrimaryColumn(kind)) && IsPrimaryValue(kind, tables, Field(row, ref.column))
  }

  ghost predicate IsPrimaryValue(kind: Kind, tables: Tables, cell: Cell) {
    exists row | row in tables[PrimaryTable(kind)] :: Field(row, PrimaryColumn(kind)) == cell
  }

  /** Values that are always replaced are never empty. */
  ghost predicate RotatedValuesArePresent(kind: Kind, tables: Tables) {
    RotatesAll(kind) ==>
      forall row | row in tables[PrimaryTable(kind)] :: Field(row, PrimaryColumn(kind)) != Text("")
  }

  /** An empty value that is always replaced is replaced at most if a document refers to it. */
  ghost predicate EmptyTokensAreMapped(kind: Kind, tables: Tables, m: IdMap) {
    RotatedValuesArePresent(kind, tables) || (kind, "") in m
  }

  /** Whatever is collected is mapped, and what the table held before are values of the right format. */
  ghost predicate MapsCollected(schema: Schema, kind: Kind, tables: Tables, start: seq<MapRow>, m: IdMap) {
    && (forall v | IsCollected(schema, kind, tables, start, v) :: (kind, v) in m)
    && forall row | row in start && row.kind == kind :: MappedValueIsValid(kind, row.newValue)
  }

  lemma BuiltMapCoversCollected(
    schema: Schema, kinds: seq<Kind>, kind: Kind, tables: Tables, start: seq<MapRow>, rows: seq<MapRow>)
    requires Complete(schema, kinds, tables, start, rows) && SoundRows(start) && kind in kinds
    ensures MapsCollected(schema, kind, tables, start, AsMap(rows))
  {
    hide IsCollected, MappedValueIsValid;
    AsMapKeys(rows);
  }

  /** Whether an empty value of the target passes the format check. */
  predicate EmptyPasses(kind: Kind, target: Reference) {
    target != Primary(kind) && EmptyIsSentinel(target.table, target.column)
  }

  lemma SourceCollects(
    schema: Schema, kind: Kind, source: MappingSource, tables: Tables, start: seq<MapRow>, row: Row, value: string)
    requires IsSource(kind, source) && schema.HasColumn(source.table, source.column)
    requires row in tables[source.table] && Field(row, source.column) == Text(value)
    requires Matches(source, row, value) && NeedsMapping(kind, source, value) && !IsNewValue(start, kind, value)
    ensures IsCollected(schema, kind, tables, start, value)
  {
    hide IsSource, NeedsMapping;
    assert CollectsFrom(schema, kind, source, tables, start, value);
  }

  lemma PrimaryIsNoSentinel(kind: Kind)
    ensures !EmptyIsSentinel(PrimaryTable(kind), PrimaryColumn(kind))
  {
  }

  lemma RotatedKindsHaveNoReferences(kind: Kind)
    requires RotatesAll(kind)
    ensures References(kind) == []
  {
  }

  /** An unmapped value that its source would have collected is a new value, or needs no mapping. */
  lemma UnmappedNeedsNoMapping(
    schema: Schema, kind: Kind, source: MappingSource, tables: Tables, start: seq<MapRow>, m: IdMap, row: Row,
    value: string)
    requires MapsCollected(schema, kind, tables, start, m) && (kind, value) !in m
    requires IsSource(kind, source) && schema.HasColumn(source.table, source.column)
    requires row in tables[source.table] && Field(row, source.column) == Text(value) && Matches(source, row, value)
    ensures MappedValueIsValid(kind, value) || !NeedsMapping(kind, source, value)
  {
    hide IsSource, NeedsMapping, Matches, MappedValueIsValid, IsCollected;
    if NeedsMapping(kind, source, value) && !IsNewValue(start, kind, value) {
      SourceCollects(schema, kind, source, tables, start, row, value);
    }
  }

  /** An unmapped value of the primary column has the right format. */
  lemma UnmappedPrimaryIsValid(schema: Schema, kind: Kind, tables: Tables, start: seq<MapRow>, m: IdMap, value: string)
    requires MapsCollected(schema, kind, tables, start, m) && EmptyTokensAreMapped(kind, tables, m)
    requires schema.HasColumn(PrimaryTable(kind), PrimaryColumn(kind))
    requires IsPrimaryValue(kind, tables, Text(value)) && (kind, value) !in m
    ensures MappedValueIsValid(kind, value)
  {
    hide IsSource, PrimaryTable, PrimaryColumn, IsCollected, HasForeignChar, MappedValueIsValid, MapsCollected;
    var source := MappingSource(PrimaryTable(kind), PrimaryColumn(kind), None, false);
    var row :| row in tables[PrimaryTable(kind)] && Field(row, PrimaryColumn(kind)) == Text(value);
    PrimaryIsSource(kind);
    PrimaryIsNoSentinel(kind);
    UnmappedNeedsNoMapping(schema, kind, source, tables, start, m, row, value);
    if !MappedValueIsValid(kind, value) && !RotatesAll(kind) {
      ValidWhenUnrotated(kind, value);
    }
  }

  lemma PrimaryIsSource(kind: Kind)
    ensures IsSource(kind, MappingSource(PrimaryTable(kind), PrimaryColumn(kind), None, false))
  {
  }

  lemma HistoricalIsSource(kind: Kind, ref: Reference)
    requires ref in References(kind) && ref.allowDangling
    ensures IsSource(kind, MappingSource(ref.table, ref.column, None, false))
  {
  }

  lemma ValidWhenUnrotated(kind: Kind, value: string)
    requires !RotatesAll(kind) && value != "" && !HasForeignChar(value)
    ensures MappedValueIsValid(kind, value)
  {
  }

  /** A declared reference that must resolve. */
  predicate IsLive(kind: Kind, target: Reference) {
    target != Primary(kind) && !target.allowDangling
  }

  /** Whatever a target column holds, renaming leaves a value the format check accepts. */
  lemma RenamedValuePasses(
    schema: Schema, kind: Kind, target: Reference, tables: Tables, start: seq<MapRow>, m: IdMap, row: Row, value: string)
    requires MapsCollected(schema, kind, tables, start, m) && NewValuesValid(m)
    requires target.allowDangling || EmptyTokensAreMapped(kind, tables, m)
    requires IsLive(kind, target) ==> LiveValuesArePrimary(schema, kind, tables)
    requires target in Targets(kind) && schema.HasColumn(target.table, target.column)
    requires row in tables[target.table] && Field(row, target.column) == Text(value)
    ensures !InvalidValue(kind, Renamed(m, kind, value), EmptyPasses(kind, target))
  {
    hide IsSource, PrimaryTable, PrimaryColumn, IsCollected, HasForeignChar, References, MappedValueIsValid, InvalidValue,
      EmptyIsSentinel, MapsCollected, EmptyTokensAreMapped, RotatesAll;
    var after := Renamed(m, kind, value);
    FormatChecksAgree(kind, after);
    if (kind, value) !in m {
      if target == Primary(kind) {
        assert IsPrimaryValue(kind, tables, Text(value));
        UnmappedPrimaryIsValid(schema, kind, tables, start, m, value);
      } else if !target.allowDangling {
        assert IsPrimaryValue(kind, tables, Text(value));
        UnmappedPrimaryIsValid(schema, kind, tables, start, m, value);
      } else {
        UnmappedHistoricalIsValid(schema, kind, target, tables, start, m, row, value);
      }
    }
  }

  lemma UnmappedHistoricalIsValid(
    schema: Schema, kind: Kind, target: Reference, tables: Tables, start: seq<MapRow>, m: IdMap, row: Row, value: string)
    requires MapsCollected(schema, kind, tables, start, m)
    requires target in References(kind) && target.allowDangling && target != Primary(kind)
    requires schema.HasColumn(target.table, target.column)
    requires row in tables[target.table] && Field(row, target.column) == Text(value)
    requires (kind, value) !in m
    ensures !InvalidValue(kind, value, EmptyPasses(kind, target))
  {
    hide IsSource, PrimaryTable, PrimaryColumn, IsCollected, HasForeignChar, References, MappedValueIsValid, InvalidValue,
      EmptyIsSentinel, MapsCollected;
    var source := MappingSource(target.table, target.column, None, false);
    HistoricalIsSource(kind, target);
    FormatChecksAgree(kind, value);
    if RotatesAll(kind) {
      RotatedKindsHaveNoReferences(kind);
    }
    UnmappedNeedsNoMapping(schema, kind, source, tables, start, m, row, value);
    if value != "" && !HasForeignChar(value) {
      ValidWhenUnrotated(kind, value);
    }
  }

  /** A column renamed under its own kind is neither embedded nor a credential. */
  lemma TargetColumnIsOrdinary(job: Job, order: seq<(Table, Column)>, kind: Kind, target: Reference)
    requires GoodOrder(order) && target in Targets(kind)
    ensures (target.table, target.column) !in order && !IsCredentialPlace(job, target.table, target.column)
    ensures Owner(target.table, target.column) == Some(kind)
  {
    hide Targets;
    TargetsHaveOneOwner(kind, target);
  }

  lemma OutcomeRowsAreRevoked(job: Job, tokens: seq<string>, order: seq<(Table, Column)>, table: Table)
    requires Staged(job) && IsOutcome(job.run, job.original, tokens, order)
    ensures forall row | row in job.run.tables[table] :: row in RevokedOutcome(job, order, tokens)[table]
  {
    hide RevokedOutcome, IsOutcome, Staged;
    OutcomeIsDeletedFromRevoked(job, tokens, order);
    DeletionsKeepRows(job.run.schema, job.run.emptied, RevokedOutcome(job, order, tokens));
  }

  lemma RevokedCellIsRenamed(
    job: Job, order: seq<(Table, Column)>, kind: Kind, target: Reference, tables: Tables, i: nat)
    requires GoodOrder(order) && CellsAreRevoked(job, order, tables)
    requires target in Targets(kind) && IsRenamed(job.run.renames, target.table, target.column)
    requires i < |tables[target.table]|
    ensures |job.prepared[target.table]| == |tables[target.table]|
    ensures Field(tables[target.table][i], target.column) ==
      RenamedCell(job.ids, kind, Field(job.prepared[target.table][i], target.column))
  {
    hide GoodOrder, Targets, IsRenamed, Owner, IsCredentialPlace, EmbeddedCell;
    TargetColumnIsOrdinary(job, order, kind, target);
    assert job.prepared[target.table][i].Keys == tables[target.table][i].Keys;
  }

  lemma OutcomeRowsComeFromPrepared(
    job: Job, tokens: seq<string>, order: seq<(Table, Column)>, kind: Kind, target: Reference, row: Row)
    returns (prepared: Row)
    requires Staged(job) && IsOutcome(job.run, job.original, tokens, order) && GoodOrder(order)
    requires CellsAreRevoked(job, order, RevokedOutcome(job, order, tokens))
    requires target in Targets(kind) && IsRenamed(job.run.renames, target.table, target.column)
    requires row in job.run.tables[target.table]
    ensures prepared in job.prepared[target.table]
    ensures Field(row, target.column) == RenamedCell(job.ids, kind, Field(prepared, target.column))
  {
    hide RevokedOutcome, GoodOrder, Targets, IsOutcome, Staged, IsRenamed, Owner, CellsAreRevoked, RenamedCell;
    var revoked := RevokedOutcome(job, order, tokens);
    OutcomeRowsAreRevoked(job, tokens, order, target.table);
    var i: nat :| i < |revoked[target.table]| && revoked[target.table][i] == row;
    RevokedCellIsRenamed(job, order, kind, target, revoked, i);
    prepared := job.prepared[target.table][i];
  }

  lemma TargetIsRenamed(schema: Schema, kinds: seq<Kind>, kind: Kind, target: Reference)
    requires kind in kinds && target in Targets(kind) && schema.HasColumn(target.table, target.column)
    ensures IsRenamed(RenameList(schema, kinds), target.table, target.column)
  {
    RenameListIsComplete(schema, kinds, kind, target);
    assert Rename(kind, target.table, target.column) in RenameList(schema, kinds);
  }

  /**
   * After collecting, mapping and updating, the format pass has nothing to reject: not in primary columns, not in live or
   * historical references, under the pattern of each kind and with the empty sentinels.
   */
  lemma FormatPassFindsNothing(
    job: Job, tokens: seq<string>, order: seq<(Table, Column)>, kinds: seq<Kind>, start: seq<MapRow>, kind: Kind,
    target: Reference)
    requires Staged(job) && IsOutcome(job.run, job.original, tokens, order) && GoodOrder(order)
    requires WellFormedMap(job.ids) && Conforms(job.run.schema, job.original)
    requires job.run.renames == RenameList(job.run.schema, kinds) && kind in kinds
    requires MapsCollected(job.run.schema, kind, job.prepared, start, job.ids)
    requires target.allowDangling || EmptyTokensAreMapped(kind, job.prepared, job.ids)
    requires IsLive(kind, target) ==> LiveValuesArePrimary(job.run.schema, kind, job.prepared)
    requires target in Targets(kind) && job.run.schema.HasColumn(target.table, target.column)
    ensures Holds(Format(kind, target.table, target.column, EmptyPasses(kind, target)), job.run.tables)
  {
    hide Staged, IsOutcome, GoodOrder, Conforms, RenameList, MapsCollected, LiveValuesArePrimary, EmptyTokensAreMapped,
      Targets, IsRenamed, CellsAreRevoked, CellsAreRewritten, RevokedOutcome, InvalidValue, EmptyPasses;
    TargetIsRenamed(job.run.schema, kinds, kind, target);
    RevokedCells(job, tokens, order, kinds);
    forall row | row in job.run.tables[target.table] && Field(row, target.column).Text?
      ensures !InvalidValue(kind, Field(row, target.column).text, EmptyPasses(kind, target))
    {
      var prepared := OutcomeRowsComeFromPrepared(job, tokens, order, kind, target, row);
      RenamedValuePasses(
        job.run.schema, kind, target, job.prepared, start, job.ids, prepared, Field(prepared, target.column).text);
    }
  }

  lemma RevokedCells(job: Job, tokens: seq<string>, order: seq<(Table, Column)>, kinds: seq<Kind>)
    requires Staged(job) && GoodOrder(order) && WellFormedMap(job.ids) && Conforms(job.run.schema, job.original)
    requires job.run.renames == RenameList(job.run.schema, kinds)
    ensures CellsAreRevoked(job, order, RevokedOutcome(job, order, tokens))
  {
    hide GoodOrder, WellFormedMap, Conforms, RenameList, CellsAreRevoked, CellsAreRewritten, RevokedOutcome,
      PreparedTables, RewrittenTables, CredentialColumnsPresent, OwnedRenames;
    RenameListIsOwned(job.run.schema, kinds);
    PreparationConforms(job.run.schema, job.original);
    RewritingPassesRewrite(job, order);
    RevokedOutcomeIsRevoked(job, order, tokens);
  }

  // Stale embedded references.

  /** New organization and storage ids, as they are generated, are longer than every word that opens a structured key. */
  lemma OpeningIdsAreLong(m: IdMap, table: Table, word: string)
    requires HasGeneratedLengths(m) && (table == ORGANIZATION || table == STORAGES) && (RowId(table), word) in m
    ensures |m[(RowId(table), word)]| > |"integrity-opening"|
  {
  }

  const OPENING_WORDS: seq<string> := ["opening", "integrity-opening", "matter", "image", "downloader", "free_plan"]

  predicate IsOpeningWord(word: string) {
    word in OPENING_WORDS
  }

  lemma OpeningWordsAreShort(word: string)
    requires IsOpeningWord(word)
    ensures ':' !in word && |word| <= |"integrity-opening"|
  {
  }

  predicate Opens(text: string, word: string) {
    StartsWith(text, word + ":")
  }

  function FirstSegment(text: string): string {
    Split(text, ':')[0]
  }

  /** A key is opened by a word exactly when that is its first segment of several. */
  lemma OpensWithItsFirstSegment(text: string, word: string)
    requires ':' !in word
    ensures Opens(text, word) <==> |Split(text, ':')| >= 2 && FirstSegment(text) == word
  {
    JoinOfSplit(text, ':');
    var parts := Split(text, ':');
    assert word + ":" == word + [':'];
    if Opens(text, word) {
      var rest := text[|word| + 1..];
      assert text == word + [':'] + rest;
      SplitAtSeparator(word, rest, ':');
    }
    if |parts| >= 2 {
      assert text == parts[0] + [':'] + Join(parts[1..], ':');
    }
  }

  lemma ReplacingRenamesTheFirstSegment(m: IdMap, kind: Kind, text: string)
    requires NewValuesValid(m)
    ensures FirstSegment(ReplaceSegments(m, kind, text)) == Renamed(m, kind, FirstSegment(text))
    ensures |Split(ReplaceSegments(m, kind, text), ':')| == |Split(text, ':')|
  {
    ReplaceSegmentsKeepsStructure(m, kind, text);
  }

  lemma OpeningIsKept(m: IdMap, kind: Kind, text: string, word: string)
    requires NewValuesValid(m) && ':' !in word && (kind, word) !in m && Opens(text, word)
    ensures Opens(ReplaceSegments(m, kind, text), word)
  {
    OpensWithItsFirstSegment(text, word);
    ReplacingRenamesTheFirstSegment(m, kind, text);
    OpensWithItsFirstSegment(ReplaceSegments(m, kind, text), word);
  }

  /** Words of the alphabet are never mapped under a row id. */
  lemma WordIsUnmapped(m: IdMap, table: Table, word: string)
    requires WellFormedMap(m) && word != "" && !HasForeignChar(word)
    ensures (RowId(table), word) !in m
  {
    assert MappedValueIsValid(RowId(table), word);
  }

  lemma LongSegmentOpensNothing(text: string, word: string)
    requires IsOpeningWord(word) && |FirstSegment(text)| > |"integrity-opening"|
    ensures !Opens(text, word)
  {
    OpeningWordsAreShort(word);
    OpensWithItsFirstSegment(text, word);
  }

  ghost predicate Settled(m: IdMap, embedding: Embedding, typeCell: Cell, cell: Cell) {
    EmbeddedValue(m, embedding, typeCell, cell) == cell
  }

  lemma SegmentCellIsSettled(m: IdMap, kind: Kind, cell: Cell)
    requires WellFormedMap(m)
    ensures SegmentCell(m, kind, SegmentCell(m, kind, cell)) == SegmentCell(m, kind, cell)
  {
    if cell.Text? {
      ReplaceSegmentsIsIdempotent(m, kind, cell.text);
    }
  }

  lemma KnownOpenings(text: string)
    ensures StartsWith(text, "opening:") <==> Opens(text, "opening")
    ensures StartsWith(text, "integrity-opening:") <==> Opens(text, "integrity-opening")
    ensures StartsWith(text, "matter:") <==> Opens(text, "matter")
    ensures StartsWith(text, "image:") <==> Opens(text, "image")
    ensures StartsWith(text, "downloader:") <==> Opens(text, "downloader")
  {
    assert "opening" + ":" == "opening:" && "integrity-opening" + ":" == "integrity-opening:";
    assert "matter" + ":" == "matter:" && "image" + ":" == "image:" && "downloader" + ":" == "downloader:";
  }

  /** The opening keys of the ledger name an organization and a storage. */
  lemma OpeningKeyIsSettled(m: IdMap, text: string)
    requires WellFormedMap(m) && HasGeneratedLengths(m)
    requires Opens(text, "opening") || Opens(text, "integrity-opening")
    ensures Settled(m, LedgerKeys, Null, EmbeddedValue(m, LedgerKeys, Null, Text(text)))
  {
    hide Opens, StartsWith, Split, ReplaceSegments;
    var org, storage := RowId(ORGANIZATION), RowId(STORAGES);
    KnownOpenings(text);
    var half := ReplaceSegments(m, org, text);
    var after := ReplaceSegments(m, storage, half);
    assert EmbeddedValue(m, LedgerKeys, Null, Text(text)) == Text(after);
    ReplacingRenamesTheFirstSegment(m, org, text);
    ReplacingRenamesTheFirstSegment(m, storage, half);
    OpensWithItsFirstSegment(text, "opening");
    OpensWithItsFirstSegment(text, "integrity-opening");
    if FirstSegment(after) == FirstSegment(text) {
      OpensWithItsFirstSegment(after, FirstSegment(text));
      OpeningKeysAreSettled(m, org, storage, text);
      KnownOpenings(after);
    } else {
      assert |FirstSegment(after)| > |"integrity-opening"| by {
        if (org, FirstSegment(text)) in m {
          var next := m[(org, FirstSegment(text))];
          OpeningIdsAreLong(m, ORGANIZATION, FirstSegment(text));
          ValidValuesAreBase62(org, next);
          WordIsUnmapped(m, STORAGES, next);
        } else {
          OpeningIdsAreLong(m, STORAGES, FirstSegment(text));
        }
      }
      LongSegmentOpensNothing(after, "opening");
      LongSegmentOpensNothing(after, "integrity-opening");
      LongSegmentOpensNothing(after, "matter");
      LongSegmentOpensNothing(after, "image");
      KnownOpenings(after);
    }
  }

  /** Keys opened by a word of the alphabet keep their opening. */
  lemma SingleKeyIsSettled(m: IdMap, table: Table, text: string, word: string)
    requires WellFormedMap(m) && (word == "matter" || word == "image" || word == "downloader")
    requires Opens(text, word)
    ensures var after := ReplaceSegments(m, RowId(table), text);
      Opens(after, word) && ReplaceSegments(m, RowId(table), after) == after
    ensures forall other | IsOpeningWord(other) && other != word :: !Opens(ReplaceSegments(m, RowId(table), text), other)
  {
    assert !HasForeignChar(word);
    WordIsUnmapped(m, table, word);
    OpeningIsKept(m, RowId(table), text, word);
    ReplaceSegmentsIsIdempotent(m, RowId(table), text);
    var after := ReplaceSegments(m, RowId(table), text);
    forall other | IsOpeningWord(other) && other != word ensures !Opens(after, other) {
      OpeningWordsAreShort(other);
      OpensWithItsFirstSegment(after, word);
      OpensWithItsFirstSegment(after, other);
    }
  }

  lemma LedgerKeyIsSettled(m: IdMap, typeCell: Cell, cell: Cell)
    requires WellFormedMap(m) && HasGeneratedLengths(m)
    ensures Settled(m, LedgerKeys, typeCell, EmbeddedValue(m, LedgerKeys, typeCell, cell))
  {
    hide Opens, StartsWith, Split, ReplaceSegments, WellFormedMap;
    if cell.Text? {
      var text := cell.text;
      KnownOpenings(text);
      KnownOpenings(ReplaceSegments(m, RowId(MATTERS), text));
      KnownOpenings(ReplaceSegments(m, RowId(IMAGE_HOSTINGS), text));
      assert IsOpeningWord("opening") && IsOpeningWord("integrity-opening") && IsOpeningWord("matter");
      if Opens(text, "opening") || Opens(text, "integrity-opening") {
        OpeningKeyIsSettled(m, text);
      } else if Opens(text, "matter") {
        SingleKeyIsSettled(m, MATTERS, text, "matter");
      } else if Opens(text, "image") {
        SingleKeyIsSettled(m, IMAGE_HOSTINGS, text, "image");
      }
    }
  }

  lemma FreePlanKeyIsSettled(m: IdMap, source: Cell, cell: Cell)
    requires WellFormedMap(m)
    ensures Settled(m, FreePlanKeys, source, EmbeddedValue(m, FreePlanKeys, source, cell))
  {
    if cell.Text? {
      ReplaceSegmentsIsIdempotent(m, RowId(ORGANIZATION), cell.text);
    }
  }

  lemma OpenedIsForeign(text: string, word: string)
    requires Opens(text, word)
    ensures HasForeignChar(text)
  {
    assert text[|word|] == ':' && !IsBase62Char(text[|word|]);
  }

  lemma UploadCreatorIsSettled(m: IdMap, typeCell: Cell, cell: Cell)
    requires WellFormedMap(m)
    ensures Settled(m, UploadCreators, typeCell, EmbeddedValue(m, UploadCreators, typeCell, cell))
  {
    hide Opens, StartsWith, Split, ReplaceSegments;
    if cell.Text? {
      KnownOpenings(cell.text);
      KnownOpenings(Renamed(m, RowId(USER), cell.text));
      KnownOpenings(ReplaceSegments(m, RowId(DOWNLOADERS), cell.text));
      if Opens(cell.text, "downloader") {
        SingleKeyIsSettled(m, DOWNLOADERS, cell.text, "downloader");
      } else {
        RenamingIsIdempotent(m, RowId(USER), cell.text);
        if (RowId(USER), cell.text) in m {
          ValidValuesAreBase62(RowId(USER), m[(RowId(USER), cell.text)]);
          if Opens(m[(RowId(USER), cell.text)], "downloader") {
            OpenedIsForeign(m[(RowId(USER), cell.text)], "downloader");
          }
        }
      }
    }
  }

  lemma DocumentIsSettled(m: IdMap, source: Source, typeCell: Cell, cell: Cell)
    requires WellFormedMap(m)
    ensures Settled(m, Document(source), typeCell, EmbeddedValue(m, Document(source), typeCell, cell))
  {
    if cell.Doc? {
      RewriteIsIdempotent(cell.tree, m, source, "");
    }
  }

  lemma TypedValueIsSettled(m: IdMap, typeColumn: Column, typeKinds: map<string, Kind>, typeCell: Cell, cell: Cell)
    requires WellFormedMap(m)
    ensures Settled(m, Typed(typeColumn, typeKinds), typeCell, EmbeddedValue(m, Typed(typeColumn, typeKinds), typeCell, cell))
  {
    if cell.Text? && typeCell.Text? && typeCell.text in typeKinds {
      RenamingIsIdempotent(m, typeKinds[typeCell.text], cell.text);
    }
  }

  /** Whatever an embedded column holds, a second pass finds nothing stale in it. */
  lemma EmbeddedValueIsSettled(m: IdMap, embedding: Embedding, typeCell: Cell, cell: Cell)
    requires WellFormedMap(m) && HasGeneratedLengths(m)
    ensures Settled(m, embedding, typeCell, EmbeddedValue(m, embedding, typeCell, cell))
  {
    hide WellFormedMap, HasGeneratedLengths;
    match embedding {
      case Typed(typeColumn, typeKinds) => TypedValueIsSettled(m, typeColumn, typeKinds, typeCell, cell);
      case Document(source) => DocumentIsSettled(m, source, typeCell, cell);
      case EventKeys =>
        if typeCell.Text? && typeCell.text in ENTITY_TYPE_KINDS {
          SegmentCellIsSettled(m, ENTITY_TYPE_KINDS[typeCell.text], cell);
        }
      case LedgerKeys => LedgerKeyIsSettled(m, typeCell, cell);
      case FreePlanKeys => FreePlanKeyIsSettled(m, typeCell, cell);
      case UploadCreators => UploadCreatorIsSettled(m, typeCell, cell);
      case Plain =>
    }
  }

  lemma TwoSegments(m: IdMap, kind: Kind, first: string, second: string)
    requires ':' !in first && ':' !in second
    ensures ReplaceSegments(m, kind, first + [':'] + second) ==
      Renamed(m, kind, first) + [':'] + Renamed(m, kind, second)
  {
    SplitAtSeparator(first, second, ':');
    SplitOfFree(second, ':');
    var parts := Split(first + [':'] + second, ':');
    assert parts == [first, second];
    assert RenamedParts(m, kind, parts) == [Renamed(m, kind, first), Renamed(m, kind, second)];
    var renamed := [Renamed(m, kind, first), Renamed(m, kind, second)];
    assert renamed[1..] == [Renamed(m, kind, second)];
    assert Join(renamed, ':') == renamed[0] + [':'] + Join(renamed[1..], ':');
  }

  /** Short ids would not do: a replaced opening word can open the key anew, and a second pass changes it again. */
  lemma ShortIdsCanLeaveStaleKeys(m: IdMap, id: string)
    requires WellFormedMap(m) && ':' !in id
    requires (RowId(ORGANIZATION), "integrity-opening") in m && (RowId(MATTERS), id) in m
    requires m[(RowId(ORGANIZATION), "integrity-opening")] == "matter"
    requires (RowId(ORGANIZATION), id) !in m && (RowId(STORAGES), id) !in m
    ensures var cell := Text("integrity-opening" + [':'] + id);
      !Settled(m, LedgerKeys, Null, EmbeddedValue(m, LedgerKeys, Null, cell))
  {
    hide Split, Join, ReplaceSegments, Opens, StartsWith, WellFormedMap;
    var text, once := "integrity-opening" + [':'] + id, "matter" + [':'] + id;
    TwoSegments(m, RowId(ORGANIZATION), "integrity-opening", id);
    WordIsUnmapped(m, STORAGES, "matter");
    TwoSegments(m, RowId(STORAGES), "matter", id);
    WordIsUnmapped(m, MATTERS, "matter");
    TwoSegments(m, RowId(MATTERS), "matter", id);
    OpenedByWords(id);
    KnownOpenings(text);
    KnownOpenings(once);
    RenamingIsIdempotent(m, RowId(MATTERS), id);
    assert once[7..] == id;
    assert ("matter" + [':'] + m[(RowId(MATTERS), id)])[7..] == m[(RowId(MATTERS), id)];
  }

  lemma OpenedByWords(id: string)
    ensures Opens("integrity-opening" + [':'] + id, "integrity-opening")
    ensures Opens("matter" + [':'] + id, "matter")
    ensures !Opens("matter" + [':'] + id, "opening") && !Opens("matter" + [':'] + id, "integrity-opening")
  {
    assert ("matter" + [':'] + id)[0] == 'm' && ("opening" + ":")[0] == 'o' && ("integrity-opening" + ":")[0] == 'i';
  }

  /** Such a map is well formed. */
  lemma ShortIdMapIsWellFormed(m: IdMap)
    requires m == map[(RowId(ORGANIZATION), "integrity-opening") := "matter", (RowId(MATTERS), "-") := "x"]
    ensures WellFormedMap(m)
  {
    assert !IsBase62Char("integrity-opening"[9]) && !IsBase62Char("-"[0]);
  }

  // The passes of validation over the outcome.

  lemma TypeCellsAgree(job: Job, order: seq<(Table, Column)>, table: Table, i: nat, column: Column, tables: Tables)
    requires WellFormedMap(job.ids) && OwnedRenames(job.run.renames) && GoodOrder(order)
    requires CellsAreRevoked(job, order, tables) && i < |tables[table]| && HoldsEmbedded(table)
    requires IsTypeColumn(column)
    ensures Field(tables[table][i], column) == Field(RenamedAt(job, table, i), column)
  {
    hide WellFormedMap, OwnedRenames, OwnedCell, EmbeddedCell, Owner, EachOnce, IsTypeColumn;
    RenameAllCells(job.ids, job.run.renames, job.prepared);
    assert (table, column) !in order;
    assert !IsCredentialPlace(job, table, column);
    assert job.prepared[table][i].Keys == tables[table][i].Keys == RenamedAt(job, table, i).Keys;
  }

  lemma OutcomeCellIsEmbedded(job: Job, order: seq<(Table, Column)>, table: Table, i: nat, column: Column, tables: Tables)
    requires GoodOrder(order) && CellsAreRevoked(job, order, tables)
    requires (table, column) in order && i < |tables[table]| && column in tables[table][i]
    ensures tables[table][i][column] == EmbeddedCell(job.ids, table, column, RenamedAt(job, table, i))
    ensures HoldsEmbedded(table)
  {
    hide EmbeddedCell, Owner, EachOnce, IsTypeColumn, OwnedCell;
    assert !IsCredentialPlace(job, table, column);
  }

  /** Rewriting an embedded column of a rewritten row changes nothing. */
  lemma EmbeddedCellIsSettled(job: Job, order: seq<(Table, Column)>, table: Table, i: nat, column: Column, tables: Tables)
    requires WellFormedMap(job.ids) && HasGeneratedLengths(job.ids) && OwnedRenames(job.run.renames) && GoodOrder(order)
    requires CellsAreRevoked(job, order, tables)
    requires (table, column) in order && i < |tables[table]|
    ensures EmbeddedRow(job.ids, table, column, tables[table][i]) == tables[table][i]
  {
    hide WellFormedMap, HasGeneratedLengths, OwnedRenames, GoodOrder, CellsAreRevoked, EmbeddedValue, EmbeddingOf, TypeColumnOf,
      RenamedAt, IsTypeColumn;
    var row := tables[table][i];
    if column in row {
      OutcomeCellIsEmbedded(job, order, table, i, column, tables);
      TypeColumnsNameTypes(table, column);
      var embedding := EmbeddingOf(table, column);
      TypeCellsAgree(job, order, table, i, TypeColumnOf(embedding), tables);
      var from := RenamedAt(job, table, i);
      EmbeddedValueIsSettled(job.ids, embedding, Field(from, TypeColumnOf(embedding)), Field(from, column));
    }
  }

  lemma {:induction false} SettledColumnsStay(m: IdMap, columns: seq<(Table, Column)>, tables: Tables)
    requires forall tc, i | tc in columns && 0 <= i < |tables[tc.0]| ::
      EmbeddedRow(m, tc.0, tc.1, tables[tc.0][i]) == tables[tc.0][i]
    ensures RewriteAll(m, columns, tables) == tables
  {
    hide EmbeddedRow;
    if columns != [] {
      var init, last := columns[..|columns| - 1], columns[|columns| - 1];
      assert last in columns;
      SettledColumnsStay(m, init, tables);
      assert MapRows(tables[last.0], row => EmbeddedRow(m, last.0, last.1, row)) == tables[last.0];
    }
  }

  /** The stale counts of validation are zero: the passes over embedded columns, run again, change nothing. */
  lemma NothingIsStale(job: Job, tokens: seq<string>, order: seq<(Table, Column)>, kinds: seq<Kind>)
    requires Staged(job) && IsOutcome(job.run, job.original, tokens, order) && GoodOrder(order)
    requires WellFormedMap(job.ids) && HasGeneratedLengths(job.ids) && Conforms(job.run.schema, job.original)
    requires job.run.renames == RenameList(job.run.schema, kinds)
    ensures RewriteAll(job.ids, order, job.run.tables) == job.run.tables
  {
    hide Staged, IsOutcome, WellFormedMap, HasGeneratedLengths, Conforms, RenameList, CellsAreRevoked, RevokedOutcome,
      EmbeddedRow, HoldsEmbedded, OwnedRenames;
    RevokedCells(job, tokens, order, kinds);
    RenameListIsOwned(job.run.schema, kinds);
    var revoked := RevokedOutcome(job, order, tokens);
    forall tc, i: nat | tc in order && i < |job.run.tables[tc.0]|
      ensures EmbeddedRow(job.ids, tc.0, tc.1, job.run.tables[tc.0][i]) == job.run.tables[tc.0][i]
    {
      KeptIsUndeleted(job, tokens, order, tc.0);
      EmbeddedCellIsSettled(job, order, tc.0, i, tc.1, revoked);
    }
    SettledColumnsStay(job.ids, order, job.run.tables);
  }

  /** What a cell holds is what its text is read as. */
  ghost predicate IsStored(read: string -> Option<Json>, cell: Cell) {
    cell.Doc? ==> IsProper(cell.tree) && read(cell.source) == Some(cell.tree)
  }

  ghost predicate DocumentsAreStored(read: string -> Option<Json>, tables: Tables) {
    forall tc, row | tc in JSON_COLUMNS && row in tables[tc.0] :: IsStored(read, Field(row, tc.1))
  }

  lemma {:induction false} RewriteIsProper(value: Json, m: IdMap, source: Source, key: string)
    requires IsProper(value)
    ensures IsProper(Rewrite(value, m, source, key))
    decreases value
  {
    var after := Rewrite(value, m, source, key);
    match value {
      case JsonArray(items) =>
        forall i | 0 <= i < |items| ensures IsProper(after.items[i]) {
          RewriteIsProper(items[i], m, source, key);
        }
      case JsonObject(entries) =>
        forall i | 0 <= i < |entries| ensures EntryIsProper(after.entries[i]) {
          assert EntryIsProper(entries[i]) && entries[i].value < entries[i];
          RewriteIsProper(entries[i].value, m, source, entries[i].key);
        }
      case _ =>
    }
  }

  /** Rewriting keeps cells stored; a document that would print its stored text is unchanged. */
  lemma DocumentCellIsStored(read: string -> Option<Json>, m: IdMap, source: Source, cell: Cell)
    requires IsReader(read) && IsStored(read, cell)
    ensures IsStored(read, DocumentCell(m, source, cell)) && (DocumentCell(m, source, cell).Doc? <==> cell.Doc?)
    ensures cell.Doc? ==> DocumentCell(m, source, cell).tree == Rewrite(cell.tree, m, source, "")
  {
    hide IsProper, Rewrite, Stringify;
    if cell.Doc? {
      RewriteIsProper(cell.tree, m, source, "");
      assert read(Stringify(Rewrite(cell.tree, m, source, ""))) == Some(Rewrite(cell.tree, m, source, ""));
    }
  }

  /** The preparing updates touch no document. */
  lemma PreparedDocumentsAreStored(read: string -> Option<Json>, schema: Schema, tables: Tables)
    requires DocumentsAreStored(read, tables)
    ensures DocumentsAreStored(read, PreparedTables(schema, tables))
  {
    hide IsStored, PreparedTables;
    PreparedShape(schema, tables);
    var prepared := PreparedTables(schema, tables);
    forall tc, row | tc in JSON_COLUMNS && row in prepared[tc.0] ensures IsStored(read, Field(row, tc.1)) {
      var i :| 0 <= i < |prepared[tc.0]| && prepared[tc.0][i] == row;
      assert tables[tc.0][i] in tables[tc.0];
      JsonColumnsStandStill(tc.0, tc.1);
      assert tc == (tc.0, tc.1);
    }
  }

  lemma JsonColumnsStandStill(table: Table, column: Column)
    requires (table, column) in JSON_COLUMNS
    ensures !Moves(table, column)
  {
  }

  lemma {:induction false} OtherDocumentsNameNoTasks(value: Json, source: Source, key: string)
    requires source != EVENTS_SOURCE
    ensures TaskIdsLackColons(value, source, key)
    decreases value
  {
    match value {
      case JsonArray(items) =>
        forall i | 0 <= i < |items| ensures TaskIdsLackColons(items[i], source, key) {
          OtherDocumentsNameNoTasks(items[i], source, key);
        }
      case JsonObject(entries) =>
        forall i | 0 <= i < |entries| ensures EntryTaskIdsLackColons(entries[i], source) {
          assert entries[i].value < entries[i];
          OtherDocumentsNameNoTasks(entries[i].value, source, entries[i].key);
        }
      case _ =>
    }
  }

  /** No opening event id of a download task carries a task id with a colon. */
  ghost predicate EventTaskIdsArePlain(schema: Schema, tables: Tables) {
    forall row | row in tables[DOWNLOAD_TASKS] :: EventIdsOfRowArePlain(schema, row)
  }

  ghost predicate EventIdsOfRowArePlain(schema: Schema, row: Row) {
    schema.HasColumn(DOWNLOAD_TASKS, EVENTS) && Field(row, EVENTS).Doc? ==>
      TaskIdsLackColons(Field(row, EVENTS).tree, EVENTS_SOURCE, "")
  }

  lemma JsonColumnsAreDocuments(table: Table, column: Column)
    requires (table, column) in JSON_COLUMNS
    ensures EmbeddingOf(table, column) == Document((table, column))
    ensures (table, column) in EMBEDDED_COLUMNS
  {
    assert EMBEDDED_COLUMNS == JSON_COLUMNS + REWRITTEN_COLUMNS;
  }

  /** A column no kind owns is the same after the direct updates. */
  lemma UnownedCellIsPrepared(job: Job, table: Table, i: nat, column: Column)
    requires WellFormedMap(job.ids) && OwnedRenames(job.run.renames)
    requires HoldsEmbedded(table) && Owner(table, column).None? && i < |job.prepared[table]|
    ensures Field(RenamedAt(job, table, i), column) == Field(job.prepared[table][i], column)
  {
    hide WellFormedMap, OwnedRenames, HoldsEmbedded, Owner;
    RenameAllCells(job.ids, job.run.renames, job.prepared);
    assert RenamedAt(job, table, i).Keys == job.prepared[table][i].Keys;
    if column in job.prepared[table][i] {
      assert RenamedAt(job, table, i)[column] ==
        OwnedCell(job.ids, job.run.renames, table, column, job.prepared[table][i][column]);
    }
  }

  lemma TypeColumnsAreUnowned(column: Column, table: Table)
    requires IsTypeColumn(column)
    ensures Owner(table, column).None?
  {
  }

  /** A rewritten document yields no value - of download tasks exactly when none of its task ids had a colon. */
  ghost predicate CellScans(kind: Kind, source: Source, cell: Cell, from: Cell) {
    && (cell.Doc? <==> from.Doc?)
    && (cell.Doc? ==>
          (Collect(cell.tree, source, kind, "") == {}
           <==> (kind == RowId(DOWNLOAD_TASKS) ==> TaskIdsLackColons(from.tree, source, ""))))
  }

  lemma JsonCellIsScanned(
    job: Job, order: seq<(Table, Column)>, start: seq<MapRow>, kind: Kind, read: string -> Option<Json>, table: Table,
    i: nat, column: Column, tables: Tables)
    requires (table, column) in order && (table, column) in JSON_COLUMNS && i < |tables[table]| && i < |job.prepared[table]|
    requires WellFormedMap(job.ids) && OwnedRenames(job.run.renames) && GoodOrder(order)
    requires CellsAreRevoked(job, order, tables)
    requires MapsCollected(job.run.schema, kind, job.prepared, start, job.ids)
    requires IsReader(read) && DocumentsAreStored(read, job.prepared)
    requires job.run.schema.HasColumn(table, column)
    ensures CellScans(kind, (table, column), Field(tables[table][i], column), Field(job.prepared[table][i], column))
  {
    hide WellFormedMap, OwnedRenames, GoodOrder, CellsAreRevoked, RenamedAt, Collect, TaskIdsLackColons, IsReader,
      DocumentCell, IsSource, EmbeddingOf, IsStored, MappedValueIsValid;
    var source, prepared := (table, column), job.prepared[table][i];
    var cell, from := Field(tables[table][i], column), Field(prepared, column);
    JsonCellIsRewritten(job, order, table, i, column, tables);
    assert prepared in job.prepared[table];
    DocumentCellIsStored(read, job.ids, source, from);
    if cell.Doc? {
      forall found | found in Collect(from.tree, source, kind, "") ensures (kind, found) in job.ids {
        assert CollectsFromColumn(job.run.schema, kind, source, job.prepared, found);
        assert IsCollected(job.run.schema, kind, job.prepared, start, found);
      }
      CollectAfterRewrite(from.tree, job.ids, source, kind, "");
    }
  }

  lemma JsonCellIsRewritten(
    job: Job, order: seq<(Table, Column)>, table: Table, i: nat, column: Column, tables: Tables)
    requires WellFormedMap(job.ids) && OwnedRenames(job.run.renames) && GoodOrder(order)
    requires CellsAreRevoked(job, order, tables)
    requires (table, column) in order && (table, column) in JSON_COLUMNS && i < |tables[table]| && i < |job.prepared[table]|
    ensures Field(tables[table][i], column) ==
      DocumentCell(job.ids, (table, column), Field(job.prepared[table][i], column))
  {
    hide WellFormedMap, OwnedRenames, GoodOrder, RenamedAt, DocumentCell, EmbeddingOf, OwnedCell;
    JsonColumnsAreSeparate(table, column);
    UnownedCellIsPrepared(job, table, i, column);
    JsonColumnsAreDocuments(table, column);
    assert job.prepared[table][i].Keys == tables[table][i].Keys;
    if column in tables[table][i] {
      OutcomeCellIsEmbedded(job, order, table, i, column, tables);
    } else {
      NullStaysNull(job.ids, (table, column));
    }
  }

  lemma NullStaysNull(m: IdMap, source: Source)
    ensures DocumentCell(m, source, Null) == Null
  {
  }

  lemma ScannedRow(
    job: Job, tokens: seq<string>, order: seq<(Table, Column)>, start: seq<MapRow>, kind: Kind,
    read: string -> Option<Json>, tc: (Table, Column), i: nat)
    requires tc in order && tc in JSON_COLUMNS && i < |job.run.tables[tc.0]|
    requires Staged(job) && IsOutcome(job.run, job.original, tokens, order) && GoodOrder(order)
    requires WellFormedMap(job.ids) && OwnedRenames(job.run.renames)
    requires CellsAreRevoked(job, order, RevokedOutcome(job, order, tokens))
    requires MapsCollected(job.run.schema, kind, job.prepared, start, job.ids)
    requires IsReader(read) && DocumentsAreStored(read, job.prepared)
    ensures RowScans(job.run.schema, kind, job.run.tables, job.prepared, tc, i)
  {
    hide Staged, IsOutcome, WellFormedMap, CellsAreRevoked, RevokedOutcome, MapsCollected, HoldsEmbedded, OwnedRenames,
      Collect, EachOnce, TaskIdsLackColons, IsReader, DocumentsAreStored;
    KeptIsUndeleted(job, tokens, order, tc.0);
    RevokedLengths(job, order, RevokedOutcome(job, order, tokens), tc.0);
    assert tc == (tc.0, tc.1);
    var from := Field(job.prepared[tc.0][i], tc.1);
    if job.run.schema.HasColumn(tc.0, tc.1) {
      JsonCellIsScanned(job, order, start, kind, read, tc.0, i, tc.1, RevokedOutcome(job, order, tokens));
    }
    RowScansByCell(job.run.schema, kind, job.run.tables, job.prepared, tc, i);
  }

  /** The scan of a row as the scan of its cell. */
  lemma RowScansByCell(schema: Schema, kind: Kind, rows: Tables, before: Tables, tc: (Table, Column), i: nat)
    requires i < |rows[tc.0]| && i < |before[tc.0]|
    requires schema.HasColumn(tc.0, tc.1) ==> CellScans(kind, tc, Field(rows[tc.0][i], tc.1), Field(before[tc.0][i], tc.1))
    ensures RowScans(schema, kind, rows, before, tc, i)
  {
    hide Collect, TaskIdsLackColons;
    var from := Field(before[tc.0][i], tc.1);
    if from.Doc? && tc != EVENTS_SOURCE {
      OtherDocumentsNameNoTasks(from.tree, tc, "");
    }
  }

  /**
   * The JSON scan of validation finds no value of any kind - except that for download tasks this holds exactly when no
   * opening event id carries a task id with a colon.
   */
  lemma JsonScanExactlyIf(
    job: Job, tokens: seq<string>, order: seq<(Table, Column)>, kinds: seq<Kind>, start: seq<MapRow>, kind: Kind,
    read: string -> Option<Json>)
    requires Staged(job) && IsOutcome(job.run, job.original, tokens, order) && GoodOrder(order)
    requires forall tc | tc in JSON_COLUMNS :: tc in order
    requires WellFormedMap(job.ids) && Conforms(job.run.schema, job.original)
    requires job.run.renames == RenameList(job.run.schema, kinds)
    requires MapsCollected(job.run.schema, kind, job.prepared, start, job.ids)
    requires IsReader(read) && DocumentsAreStored(read, job.prepared)
    ensures JsonScanIsEmpty(job.run.schema, kind, job.run.tables)
      <==> (kind == RowId(DOWNLOAD_TASKS) ==> EventTaskIdsArePlain(job.run.schema, job.prepared))
  {
    hide Staged, IsOutcome, GoodOrder, WellFormedMap, Conforms, RenameList, CellsAreRevoked, RevokedOutcome, MapsCollected,
      HoldsEmbedded, OwnedRenames, EventIdsOfRowArePlain, ScanIsEmpty, IsReader, DocumentsAreStored;
    RevokedCells(job, tokens, order, kinds);
    RenameListIsOwned(job.run.schema, kinds);
    var schema, rows, before := job.run.schema, job.run.tables, job.prepared;
    forall tc, i: nat | tc in JSON_COLUMNS && i < |rows[tc.0]|
      ensures RowScans(schema, kind, rows, before, tc, i)
    {
      ScannedRow(job, tokens, order, start, kind, read, tc, i);
    }
    TasksKeepTheirCount(job, tokens, order);
    EventsAreADocumentColumn();
    ScanIsDecidedByEvents(schema, kind, rows, before);
  }

  lemma EventsAreADocumentColumn()
    ensures EVENTS_SOURCE in JSON_COLUMNS
  {
    assert JSON_COLUMNS[5] == EVENTS_SOURCE;
  }

  lemma TasksKeepTheirCount(job: Job, tokens: seq<string>, order: seq<(Table, Column)>)
    requires Staged(job) && IsOutcome(job.run, job.original, tokens, order)
    requires CellsAreRevoked(job, order, RevokedOutcome(job, order, tokens))
    ensures |job.run.tables[DOWNLOAD_TASKS]| == |job.prepared[DOWNLOAD_TASKS]|
  {
    hide Staged, IsOutcome, CellsAreRevoked, RevokedOutcome;
    KeptIsUndeleted(job, tokens, order, DOWNLOAD_TASKS);
    RevokedLengths(job, order, RevokedOutcome(job, order, tokens), DOWNLOAD_TASKS);
  }

  /** Row `i` of a document column, after and before. */
  ghost predicate RowScans(schema: Schema, kind: Kind, rows: Tables, before: Tables, tc: (Table, Column), i: nat) {
    && i < |rows[tc.0]| && i < |before[tc.0]|
    && (ScanIsEmpty(schema, kind, tc, rows[tc.0][i]) <==>
          (kind == RowId(DOWNLOAD_TASKS) && tc == EVENTS_SOURCE ==> EventIdsOfRowArePlain(schema, before[tc.0][i])))
  }

  lemma ScanIsDecidedByEvents(schema: Schema, kind: Kind, rows: Tables, before: Tables)
    requires |rows[DOWNLOAD_TASKS]| == |before[DOWNLOAD_TASKS]| && EVENTS_SOURCE in JSON_COLUMNS
    requires forall tc, i: nat | tc in JSON_COLUMNS && i < |rows[tc.0]| :: RowScans(schema, kind, rows, before, tc, i)
    ensures JsonScanIsEmpty(schema, kind, rows) <==> (kind == RowId(DOWNLOAD_TASKS) ==> EventTaskIdsArePlain(schema, before))
  {
    hide ScanIsEmpty, EventIdsOfRowArePlain;
    if JsonScanIsEmpty(schema, kind, rows) && kind == RowId(DOWNLOAD_TASKS) {
      forall row | row in before[DOWNLOAD_TASKS] ensures EventIdsOfRowArePlain(schema, row) {
        var i: nat :| i < |before[DOWNLOAD_TASKS]| && before[DOWNLOAD_TASKS][i] == row;
        assert RowScans(schema, kind, rows, before, EVENTS_SOURCE, i);
        assert rows[EVENTS_SOURCE.0][i] in rows[DOWNLOAD_TASKS];
        assert ScanIsEmpty(schema, kind, EVENTS_SOURCE, rows[EVENTS_SOURCE.0][i]);
      }
    }
    if kind == RowId(DOWNLOAD_TASKS) ==> EventTaskIdsArePlain(schema, before) {
      forall tc, row | tc in JSON_COLUMNS && row in rows[tc.0] ensures ScanIsEmpty(schema, kind, tc, row) {
        var i: nat :| i < |rows[tc.0]| && rows[tc.0][i] == row;
        assert RowScans(schema, kind, rows, before, tc, i);
        assert before[tc.0][i] in before[tc.0];
      }
    }
  }

  lemma RevokedLengths(job: Job, order: seq<(Table, Column)>, tables: Tables, table: Table)
    requires CellsAreRevoked(job, order, tables)
    ensures |tables[table]| == |job.prepared[table]|
  {
  }
}
