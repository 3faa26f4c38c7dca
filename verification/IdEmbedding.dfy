/** What the run makes of embedded references, of creators and of event keys: cell by cell, from the row as it was. */
module IdEmbedding {
  import opened Wrappers
  import opened Text
  import opened IdRegistry
  import opened IdValues
  import opened JsonText
  import opened JsonReferences
  import opened JsonLeaves
  import opened IdTables

  // One cell.

  /** The type column names one of the types, and with it a kind. */
  predicate NamesKind(typeKinds: map<string, Kind>, typeCell: Cell, kind: Kind) {
    typeCell.Text? && typeCell.text in typeKinds && typeKinds[typeCell.text] == kind
  }

  /** A text is replaced as a whole; anything else stays. */
  ghost predicate CellReplaced(m: IdMap, kind: Kind, before: Cell, after: Cell) {
    if before.Text? then after.Text? && IsReplaced(m, kind, before.text, after.text) else after == before
  }

  /** A text is replaced between its colons; anything else stays. */
  ghost predicate KeyReplaced(m: IdMap, kind: Kind, before: Cell, after: Cell) {
    if before.Text? then after.Text? && SegmentsReplaced(m, kind, before.text, after.text) else after == before
  }

  predicate BeginsWith(cell: Cell, prefix: string) {
    cell.Text? && prefix <= cell.text
  }

  /** A typed reference is one of the kind its type names; with any other type it stays. */
  ghost predicate TypedReplaced(m: IdMap, typeKinds: map<string, Kind>, typeCell: Cell, before: Cell, after: Cell) {
    && (forall kind | NamesKind(typeKinds, typeCell, kind) :: CellReplaced(m, kind, before, after))
    && ((forall kind :: !NamesKind(typeKinds, typeCell, kind)) ==> after == before)
  }

  /** So is an event key, but between its colons. */
  ghost predicate EventKeyReplaced(m: IdMap, typeCell: Cell, before: Cell, after: Cell) {
    && (forall kind | NamesKind(ENTITY_TYPE_KINDS, typeCell, kind) :: KeyReplaced(m, kind, before, after))
    && ((forall kind :: !NamesKind(ENTITY_TYPE_KINDS, typeCell, kind)) ==> after == before)
  }

  /** Opening keys carry an organization and then a storage, matter and image keys one id each. */
  ghost predicate LedgerKeyReplaced(m: IdMap, before: Cell, after: Cell) {
    if BeginsWith(before, "opening:") || BeginsWith(before, "integrity-opening:") then
      exists middle | KeyReplaced(m, RowId(ORGANIZATION), before, middle) :: KeyReplaced(m, RowId(STORAGES), middle, after)
    else if BeginsWith(before, "matter:") then KeyReplaced(m, RowId(MATTERS), before, after)
    else if BeginsWith(before, "image:") then KeyReplaced(m, RowId(IMAGE_HOSTINGS), before, after)
    else after == before
  }

  ghost predicate FreePlanReplaced(m: IdMap, source: Cell, before: Cell, after: Cell) {
    if source == Text("free_plan") && BeginsWith(before, "free_plan:") then KeyReplaced(m, RowId(ORGANIZATION), before, after)
    else after == before
  }

  ghost predicate UploadCreatorReplaced(m: IdMap, before: Cell, after: Cell) {
    if BeginsWith(before, "downloader:") then KeyReplaced(m, RowId(DOWNLOADERS), before, after)
    else CellReplaced(m, RowId(USER), before, after)
  }

  /** A document is rewritten, and printed anew unless it prints as before. */
  ghost predicate DocumentReplaced(m: IdMap, source: Source, before: Cell, after: Cell) {
    if before.Doc? then
      exists tree | IsRewritten(m, source, "", before.tree, tree) ::
        after == if Stringify(tree) == before.source then before else Doc(Stringify(tree), tree)
    else after == before
  }

  predicate IsTypedColumn(p: Polymorphic, table: Table, column: Column) {
    p in POLYMORPHIC_REFERENCES && p.table == table && p.valueColumn == column
  }

  /** What becomes of the cell in any column, by what the column holds. */
  ghost predicate IsEmbeddedImage(m: IdMap, table: Table, column: Column, row: Row, after: Cell) {
    var before := Field(row, column);
    if table == AUDIT_EVENTS && column == EVENT_KEY then EventKeyReplaced(m, Field(row, TARGET_TYPE), before, after)
    else if table == STORAGE_USAGE_LEDGER && column == EVENT_KEY then LedgerKeyReplaced(m, before, after)
    else if table == ORG_QUOTA_ENTITLEMENTS && column == SOURCE_ID then FreePlanReplaced(m, Field(row, SOURCE), before, after)
    else if table == OBJECT_UPLOAD_SESSIONS && column == CREATED_BY then UploadCreatorReplaced(m, before, after)
    else if (table, column) in JSON_COLUMNS then DocumentReplaced(m, (table, column), before, after)
    else
      && (forall p | IsTypedColumn(p, table, column) :: TypedReplaced(m, p.typeKinds, Field(row, p.typeColumn), before, after))
      && ((forall p :: !IsTypedColumn(p, table, column)) ==> after == before)
  }

  lemma SegmentCellIsReplaced(m: IdMap, kind: Kind, cell: Cell)
    ensures KeyReplaced(m, kind, cell, SegmentCell(m, kind, cell))
  {
    hide SegmentsReplaced, ReplaceSegments;
    if cell.Text? {
      ReplaceSegmentsExactly(m, kind, cell.text, ReplaceSegments(m, kind, cell.text));
    }
  }

  lemma TypedCellIsReplaced(m: IdMap, typeKinds: map<string, Kind>, typeCell: Cell, cell: Cell)
    requires WellFormedMap(m)
    ensures TypedReplaced(m, typeKinds, typeCell, cell, PolymorphicCell(m, typeKinds, typeCell, cell))
  {
    if typeCell.Text? && typeCell.text in typeKinds {
      var key := (typeKinds[typeCell.text], if cell.Text? then cell.text else "");
      assert NamesKind(typeKinds, typeCell, key.0);
      assert key in m ==> MappedValueIsValid(key.0, m[key]);
    }
  }

  lemma EventKeyIsReplaced(m: IdMap, typeCell: Cell, cell: Cell)
    ensures EventKeyReplaced(m, typeCell, cell, EventKeyCell(m, typeCell, cell))
  {
    hide ENTITY_TYPE_KINDS, KeyReplaced, SegmentCell;
    if typeCell.Text? && typeCell.text in ENTITY_TYPE_KINDS {
      assert NamesKind(ENTITY_TYPE_KINDS, typeCell, ENTITY_TYPE_KINDS[typeCell.text]);
      SegmentCellIsReplaced(m, ENTITY_TYPE_KINDS[typeCell.text], cell);
    }
  }

  lemma LedgerKeyIsReplaced(m: IdMap, cell: Cell)
    ensures LedgerKeyReplaced(m, cell, LedgerKeyCell(m, cell))
  {
    hide KeyReplaced, SegmentCell;
    SegmentCellIsReplaced(m, RowId(ORGANIZATION), cell);
    SegmentCellIsReplaced(m, RowId(STORAGES), SegmentCell(m, RowId(ORGANIZATION), cell));
    SegmentCellIsReplaced(m, RowId(MATTERS), cell);
    SegmentCellIsReplaced(m, RowId(IMAGE_HOSTINGS), cell);
  }

  lemma DocumentIsReplaced(m: IdMap, source: Source, cell: Cell)
    ensures DocumentReplaced(m, source, cell, DocumentCell(m, source, cell))
  {
    hide IsRewritten, Rewrite, Stringify;
    if cell.Doc? {
      RewriteReplacesEveryReference(cell.tree, m, source, "");
    }
  }

  predicate IsStructuredColumn(table: Table, column: Column) {
    || (table == AUDIT_EVENTS && column == EVENT_KEY) || (table == STORAGE_USAGE_LEDGER && column == EVENT_KEY)
    || (table == ORG_QUOTA_ENTITLEMENTS && column == SOURCE_ID) || (table == OBJECT_UPLOAD_SESSIONS && column == CREATED_BY)
  }

  lemma StructuredEmbeddings()
    ensures EmbeddingOf(AUDIT_EVENTS, EVENT_KEY) == EventKeys && EmbeddingOf(STORAGE_USAGE_LEDGER, EVENT_KEY) == LedgerKeys
    ensures EmbeddingOf(ORG_QUOTA_ENTITLEMENTS, SOURCE_ID) == FreePlanKeys
    ensures EmbeddingOf(OBJECT_UPLOAD_SESSIONS, CREATED_BY) == UploadCreators
  {
    hide JSON_COLUMNS, ENTITY_TYPE_KINDS, ACTOR_KINDS, SCOPE_KINDS, NOTIFICATION_KINDS, LEDGER_KINDS, TRAFFIC_KINDS;
  }

  lemma StructuredCells(m: IdMap, row: Row)
    ensures EmbeddedCell(m, AUDIT_EVENTS, EVENT_KEY, row) == EventKeyCell(m, Field(row, TARGET_TYPE), Field(row, EVENT_KEY))
    ensures EmbeddedCell(m, STORAGE_USAGE_LEDGER, EVENT_KEY, row) == LedgerKeyCell(m, Field(row, EVENT_KEY))
    ensures EmbeddedCell(m, ORG_QUOTA_ENTITLEMENTS, SOURCE_ID, row) == FreePlanCell(m, Field(row, SOURCE), Field(row, SOURCE_ID))
    ensures EmbeddedCell(m, OBJECT_UPLOAD_SESSIONS, CREATED_BY, row) == UploadCreatorCell(m, Field(row, CREATED_BY))
  {
    hide EventKeyCell, LedgerKeyCell, FreePlanCell, UploadCreatorCell, EmbeddingOf, Field;
    StructuredEmbeddings();
  }

  lemma StructuredColumnsAreReplaced(m: IdMap, table: Table, column: Column, row: Row)
    requires IsStructuredColumn(table, column)
    ensures IsEmbeddedImage(m, table, column, row, EmbeddedCell(m, table, column, row))
  {
    hide EventKeyReplaced, LedgerKeyReplaced, KeyReplaced, CellReplaced, SegmentCell, EventKeyCell, LedgerKeyCell, EmbeddedCell,
      JSON_COLUMNS, POLYMORPHIC_REFERENCES, Field;
    StructuredCells(m, row);
    EventKeyIsReplaced(m, Field(row, TARGET_TYPE), Field(row, EVENT_KEY));
    LedgerKeyIsReplaced(m, Field(row, EVENT_KEY));
    FreePlanIsReplaced(m, Field(row, SOURCE), Field(row, SOURCE_ID));
    UploadCreatorIsReplaced(m, Field(row, CREATED_BY));
  }

  lemma FreePlanIsReplaced(m: IdMap, source: Cell, cell: Cell)
    ensures FreePlanReplaced(m, source, cell, FreePlanCell(m, source, cell))
  {
    hide KeyReplaced, SegmentCell;
    SegmentCellIsReplaced(m, RowId(ORGANIZATION), cell);
  }

  lemma UploadCreatorIsReplaced(m: IdMap, cell: Cell)
    ensures UploadCreatorReplaced(m, cell, UploadCreatorCell(m, cell))
  {
    hide KeyReplaced, SegmentCell;
    SegmentCellIsReplaced(m, RowId(DOWNLOADERS), cell);
  }

  lemma EmbeddingOfDocuments(table: Table, column: Column)
    requires (table, column) in JSON_COLUMNS
    ensures EmbeddingOf(table, column) == Document((table, column))
    ensures column == METADATA || column == RESULT_METADATA || column == EVENTS
  {
  }

  lemma EmbeddingOfOthers(table: Table, column: Column)
    requires (table, column) !in JSON_COLUMNS && forall p :: !IsTypedColumn(p, table, column)
    requires !IsStructuredColumn(table, column)
    ensures EmbeddingOf(table, column) == Plain
  {
    hide JSON_COLUMNS, ENTITY_TYPE_KINDS, ACTOR_KINDS, SCOPE_KINDS, NOTIFICATION_KINDS, LEDGER_KINDS, TRAFFIC_KINDS;
    forall i: nat | i < |POLYMORPHIC_REFERENCES|
      ensures (table, column) != (POLYMORPHIC_REFERENCES[i].table, POLYMORPHIC_REFERENCES[i].valueColumn)
    {
      assert !IsTypedColumn(POLYMORPHIC_REFERENCES[i], table, column);
    }
    assert POLYMORPHIC_REFERENCES[0].table == AUDIT_EVENTS && POLYMORPHIC_REFERENCES[1].table == AUDIT_EVENTS;
    assert POLYMORPHIC_REFERENCES[2].table == RESOURCE_CHANGES && POLYMORPHIC_REFERENCES[3].table == RESOURCE_CHANGES;
    assert POLYMORPHIC_REFERENCES[4].table == NOTIFICATIONS && POLYMORPHIC_REFERENCES[5].table == STORAGE_USAGE_LEDGER;
    assert POLYMORPHIC_REFERENCES[6].table == CLOUD_TRAFFIC_REPORTS;
  }

  lemma EmbeddingOfTyped(p: Polymorphic)
    requires p in POLYMORPHIC_REFERENCES
    ensures EmbeddingOf(p.table, p.valueColumn) == Typed(p.typeColumn, p.typeKinds)
    ensures (p.table, p.valueColumn) !in JSON_COLUMNS
    ensures !IsStructuredColumn(p.table, p.valueColumn)
  {
    var i: nat :| i < |POLYMORPHIC_REFERENCES| && POLYMORPHIC_REFERENCES[i] == p;
    EmbeddingOfTypedAt(i);
  }

  lemma EmbeddingOfTypedAt(i: nat)
    requires i < |POLYMORPHIC_REFERENCES|
    ensures var p := POLYMORPHIC_REFERENCES[i];
      && EmbeddingOf(p.table, p.valueColumn) == Typed(p.typeColumn, p.typeKinds)
      && p.valueColumn in {TARGET_ID, ACTOR_REF, SCOPE_ID, RESOURCE_ID, REF_ID, SOURCE_ID}
      && (p.table, p.valueColumn) != (ORG_QUOTA_ENTITLEMENTS, SOURCE_ID)
  {
  }

  /** Every column of every table is rewritten by what it holds, and no other column changes. */
  lemma EmbeddedCellExactly(m: IdMap, table: Table, column: Column, row: Row)
    requires WellFormedMap(m)
    ensures IsEmbeddedImage(m, table, column, row, EmbeddedCell(m, table, column, row))
  {
    hide EmbeddingOf, JSON_COLUMNS, POLYMORPHIC_REFERENCES, EventKeyReplaced, LedgerKeyReplaced, FreePlanReplaced, DocumentReplaced,
      UploadCreatorReplaced, TypedReplaced, WellFormedMap, PolymorphicCell, DocumentCell;
    if IsStructuredColumn(table, column) {
      StructuredColumnsAreReplaced(m, table, column, row);
    } else if (table, column) in JSON_COLUMNS {
      EmbeddingOfDocuments(table, column);
      DocumentIsReplaced(m, (table, column), Field(row, column));
    } else if p :| IsTypedColumn(p, table, column) {
      forall q | IsTypedColumn(q, table, column)
        ensures TypedReplaced(m, q.typeKinds, Field(row, q.typeColumn), Field(row, column), EmbeddedCell(m, table, column, row))
      {
        EmbeddingOfTyped(q);
        TypedCellIsReplaced(m, q.typeKinds, Field(row, q.typeColumn), Field(row, column));
      }
    } else {
      EmbeddingOfOthers(table, column);
    }
  }

  /** An event key changes exactly if its type names a kind under which one of its segments is mapped. */
  lemma EventKeyChangesExactlyIf(m: IdMap, row: Row)
    requires WellFormedMap(m)
    ensures EmbeddedCell(m, AUDIT_EVENTS, EVENT_KEY, row) != Field(row, EVENT_KEY) <==>
      && Field(row, EVENT_KEY).Text?
      && exists kind | NamesKind(ENTITY_TYPE_KINDS, Field(row, TARGET_TYPE), kind) ::
           exists part | part in Split(Field(row, EVENT_KEY).text, ':') :: (kind, part) in m
  {
    hide WellFormedMap, ENTITY_TYPE_KINDS, Split, ReplaceSegments;
    var cell, typeCell := Field(row, EVENT_KEY), Field(row, TARGET_TYPE);
    if cell.Text? && typeCell.Text? && typeCell.text in ENTITY_TYPE_KINDS {
      assert NamesKind(ENTITY_TYPE_KINDS, typeCell, ENTITY_TYPE_KINDS[typeCell.text]);
      SegmentsChangeExactlyIf(m, ENTITY_TYPE_KINDS[typeCell.text], cell.text);
    }
  }

  /** The source of an entitlement changes exactly if it is a free plan with a mapped segment. */
  lemma FreePlanChangesExactlyIf(m: IdMap, row: Row)
    requires WellFormedMap(m)
    ensures EmbeddedCell(m, ORG_QUOTA_ENTITLEMENTS, SOURCE_ID, row) != Field(row, SOURCE_ID) <==>
      && Field(row, SOURCE) == Text("free_plan") && BeginsWith(Field(row, SOURCE_ID), "free_plan:")
      && exists part | part in Split(Field(row, SOURCE_ID).text, ':') :: (RowId(ORGANIZATION), part) in m
  {
    hide WellFormedMap, Split, ReplaceSegments;
    var cell := Field(row, SOURCE_ID);
    if cell.Text? {
      SegmentsChangeExactlyIf(m, RowId(ORGANIZATION), cell.text);
    }
  }

  // Rows before anything is renamed.

  /** The creator is "api-key:" in any letter case, and then an id. */
  predicate NamesKey(cell: Cell, id: string) {
    && cell.Text? && |cell.text| == 8 + |id| && cell.text[8..] == id
    && cell.text[0] in "aA" && cell.text[1] in "pP" && cell.text[2] in "iI" && cell.text[3] == '-'
    && cell.text[4] in "kK" && cell.text[5] in "eE" && cell.text[6] in "yY" && cell.text[7] == ':'
  }

  /** The first key with this id. */
  predicate IsFirstKey(keys: seq<Row>, id: string, at: nat) {
    && at < |keys| && Field(keys[at], ID) == Text(id)
    && forall j | 0 <= j < at :: Field(keys[j], ID) != Text(id)
  }

  lemma {:induction false} OwnerIsOfFirstKey(keys: seq<Row>, id: string)
    ensures OwnerOfApiKey(keys, id).None? <==> forall at: nat :: !IsFirstKey(keys, id, at)
    ensures forall at: nat | IsFirstKey(keys, id, at) :: OwnerOfApiKey(keys, id) == Some(Field(keys[at], REFERENCE_ID))
    decreases |keys|
  {
    if keys != [] {
      if Field(keys[0], ID) == Text(id) {
        assert IsFirstKey(keys, id, 0);
      } else {
        OwnerIsOfFirstKey(keys[1..], id);
        forall at: nat ensures IsFirstKey(keys, id, at) <==> at > 0 && IsFirstKey(keys[1..], id, at - 1) {
          if at > 0 && IsFirstKey(keys[1..], id, at - 1) {
            forall j | 0 <= j < at ensures Field(keys[j], ID) != Text(id) {
              assert j > 0 ==> keys[j] == keys[1..][j - 1];
            }
          }
          if IsFirstKey(keys, id, at) {
            forall j | 0 <= j < at - 1 ensures Field(keys[1..][j], ID) != Text(id) {
              assert keys[1..][j] == keys[j + 1];
            }
          }
        }
        if OwnerOfApiKey(keys[1..], id).Some? {
          var at: nat :| IsFirstKey(keys[1..], id, at);
          assert IsFirstKey(keys, id, at + 1);
        }
      }
    }
  }

  /** What preparation makes of one cell: the owner of a key that a creator names, and the old id as a missing event key. */
  ghost predicate IsPreparedCell(
    resolves: bool, fills: bool, keys: seq<Row>, table: Table, column: Column, row: Row, after: Cell)
  {
    if resolves && table == DOWNLOAD_TASKS && column == CREATED_BY_USER_ID && column in row then
      CreatorResolved(keys, Field(row, column), after)
    else if fills && table == AUDIT_EVENTS && column == EVENT_KEY && column in row then
      after == if Field(row, column) == Null && Field(row, ID).Text? && IsMalformed(Field(row, ID).text) then Field(row, ID)
               else Field(row, column)
    else after == Field(row, column)
  }

  ghost predicate CreatorResolved(keys: seq<Row>, before: Cell, after: Cell) {
    && (forall id, at: nat | NamesKey(before, id) && IsFirstKey(keys, id, at) :: after == Field(keys[at], REFERENCE_ID))
    && ((forall id, at: nat | IsFirstKey(keys, id, at) :: !NamesKey(before, id)) ==> after == before)
  }

  lemma PrefixInAnyCase(text: string)
    requires |text| >= 8
    ensures Lower(text[..8]) == API_KEY_PREFIX <==> NamesKey(Text(text), text[8..])
  {
    var prefix := text[..8];
    if Lower(prefix) == API_KEY_PREFIX {
      forall i | 0 <= i < 8 ensures LowerChar(text[i]) == API_KEY_PREFIX[i] {
        assert Lower(prefix)[i] == LowerChar(prefix[i]) == LowerChar(text[i]);
      }
      LettersOf(text);
    }
  }

  lemma LettersOf(text: string)
    requires |text| >= 8 && forall i | 0 <= i < 8 :: LowerChar(text[i]) == API_KEY_PREFIX[i]
    ensures NamesKey(Text(text), text[8..])
  {
    hide NamesKey;
    LetterOf(text[0], 'a', 'A');
    LetterOf(text[1], 'p', 'P');
    LetterOf(text[2], 'i', 'I');
    LetterOf(text[4], 'k', 'K');
    LetterOf(text[5], 'e', 'E');
    LetterOf(text[6], 'y', 'Y');
    NamesKeyByLetters(text);
  }

  lemma LetterOf(c: char, small: char, capital: char)
    requires 'a' <= small <= 'z' && capital as int + 32 == small as int && LowerChar(c) == small
    ensures c == small || c == capital
  {
  }

  lemma NamesKeyByLetters(text: string)
    requires |text| >= 8
    requires (text[0] == 'a' || text[0] == 'A') && (text[1] == 'p' || text[1] == 'P') && (text[2] == 'i' || text[2] == 'I')
    requires LowerChar(text[3]) == '-' && LowerChar(text[7]) == ':'
    requires (text[4] == 'k' || text[4] == 'K') && (text[5] == 'e' || text[5] == 'E') && (text[6] == 'y' || text[6] == 'Y')
    ensures NamesKey(Text(text), text[8..])
  {
    assert text[0] in "aA" && text[1] in "pP" && text[2] in "iI";
    assert text[4] in "kK" && text[5] in "eE" && text[6] in "yY";
  }

  lemma CreatorIsResolved(keys: seq<Row>, row: Row)
    requires CREATED_BY_USER_ID in row
    ensures CreatorResolved(keys, Field(row, CREATED_BY_USER_ID), Field(ResolvedCreatorRow(keys, row), CREATED_BY_USER_ID))
  {
    hide OwnerOfApiKey, NamesKey, IsFirstKey, Lower;
    var creator := Field(row, CREATED_BY_USER_ID);
    forall id | NamesKey(creator, id) ensures creator.Text? && |creator.text| >= 8 && creator.text[8..] == id {
      NamedKey(creator, id);
    }
    if creator.Text? && |creator.text| >= 8 {
      var id := creator.text[8..];
      PrefixInAnyCase(creator.text);
      OwnerIsOfFirstKey(keys, id);
    }
  }

  lemma NamedKey(cell: Cell, id: string)
    requires NamesKey(cell, id)
    ensures cell.Text? && |cell.text| >= 8 && cell.text[8..] == id
  {
  }
}
