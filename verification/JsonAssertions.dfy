/**
 * JSON documents in validation. The local scan walks the parsed document and hands keys down through arrays; the plan
 * asks SQLite's `json_tree`, which knows every node's own key and that of its parent.
 */
module JsonAssertions {
  import opened Wrappers
  import opened Text
  import opened IdRegistry
  import opened IdValues
  import opened JsonText
  import opened JsonReferences
  import opened IdTables

  const EVENTS_SOURCE: Source := (DOWNLOAD_TASKS, EVENTS)

  /** Some row of the target has this value. */
  predicate IsTarget(tables: Tables, target: Table, targetColumn: Column, cell: Cell) {
    exists other | other in tables[target] :: Field(other, targetColumn) == cell
  }

  // The local validation.

  /** `referenceValueExists`: a kind without a column to look in resolves. */
  predicate ReferenceExists(schema: Schema, tables: Tables, kind: Kind, value: string) {
    || !schema.HasColumn(PrimaryTable(kind), PrimaryColumn(kind))
    || IsTarget(tables, PrimaryTable(kind), PrimaryColumn(kind), Text(value))
  }

  predicate LeafResolves(schema: Schema, tables: Tables, source: Source, key: string, text: string) {
    if key == "" then true
    else if IsInitialEventId(source, key, text) then
      ReferenceExists(schema, tables, RowId(DOWNLOAD_TASKS), text[|INITIAL_PREFIX|..])
    else
      match JsonReferenceKind(source, key)
      case None => true
      case Some(kind) => ReferenceExists(schema, tables, kind, text)
  }

  /** `countDanglingJsonReferences` counts nothing. */
  predicate DocumentResolves(schema: Schema, tables: Tables, value: Json, source: Source, key: string)
    decreases value
  {
    match value
    case JsonArray(items) => forall i | 0 <= i < |items| :: DocumentResolves(schema, tables, items[i], source, key)
    case JsonObject(entries) => forall i | 0 <= i < |entries| :: EntryResolves(schema, tables, entries[i], source)
    case JsonString(text) => LeafResolves(schema, tables, source, key, text)
    case _ => true
  }

  predicate EntryResolves(schema: Schema, tables: Tables, entry: Entry, source: Source)
    decreases entry
  {
    DocumentResolves(schema, tables, entry.value, source, entry.key)
  }

  predicate JsonAllowsDangling(table: Table) {
    table == AUDIT_EVENTS || table == RESOURCE_CHANGES || table == BACKGROUND_JOBS || table == STATS_ROLLUPS_HOURLY
  }

  /** The scan finds no value of this kind. */
  predicate JsonScanIsEmpty(schema: Schema, kind: Kind, tables: Tables) {
    forall tc, row | tc in JSON_COLUMNS && row in tables[tc.0] :: ScanIsEmpty(schema, kind, tc, row)
  }

  predicate ScanIsEmpty(schema: Schema, kind: Kind, source: Source, row: Row) {
    var cell := Field(row, source.1);
    schema.HasColumn(source.0, source.1) && cell.Doc? ==> Collect(cell.tree, source, kind, "") == {}
  }

  /** Every text parses, and its references resolve unless the column may outlive what it refers to. */
  predicate DocumentIsSound(schema: Schema, tables: Tables, source: Source, row: Row) {
    var cell := Field(row, source.1);
    schema.HasColumn(source.0, source.1) ==>
      && !cell.Text?
      && (cell.Doc? && !JsonAllowsDangling(source.0) ==> DocumentResolves(schema, tables, cell.tree, source, ""))
  }

  /** What the local validation demands of the documents. */
  predicate DocumentsAreClean(schema: Schema, kinds: seq<Kind>, tables: Tables) {
    && (forall kind | kind in kinds :: JsonScanIsEmpty(schema, kind, tables))
    && forall tc, row | tc in JSON_COLUMNS && row in tables[tc.0] :: DocumentIsSound(schema, tables, tc, row)
  }

  // The plan's queries over the nodes of a document.

  /** A node's key in `json_tree`: a position in an array, a name in an object, nothing at the root. */
  datatype NodeKey = NoKey | Index(at: nat) | Name(name: string)

  /** Items of an array take the key of the array, but not from further up. */
  function EffectiveKey(parent: NodeKey, key: NodeKey): NodeKey {
    if key.Index? then parent else key
  }

  const CONTEXT_KEYS: set<string> := {"token", "sessionId", "sourceId"}

  /** `jsonReferenceKeys`. */
  function ReferenceKeys(source: Source, kind: Kind): set<string> {
    (set key | key in JSON_KEY_KINDS && JSON_KEY_KINDS[key] == kind)
    + (set key | key in CONTEXT_KEYS && JsonReferenceKind(source, key) == Some(kind))
  }

  /** The keys the plan looks for are those the local walk takes for references of the kind. */
  lemma ReferenceKeysAgree(source: Source, kind: Kind, key: string)
    ensures key in ReferenceKeys(source, kind) <==> JsonReferenceKind(source, key) == Some(kind)
  {
    assert forall k | k in CONTEXT_KEYS :: k !in JSON_KEY_KINDS;
  }

  predicate IsSelected(source: Source, kind: Kind, parent: NodeKey, key: NodeKey) {
    var effective := EffectiveKey(parent, key);
    effective.Name? && effective.name in ReferenceKeys(source, kind)
  }

  /** `node.key = 'id' AND node.value LIKE 'initial:%'`, which ignores ASCII case. */
  predicate LooksLikeEventId(key: NodeKey, text: string) {
    key == Name("id") && |text| >= |INITIAL_PREFIX| && Lower(text[..|INITIAL_PREFIX|]) == INITIAL_PREFIX
  }

  /** The queries of the plan; `OddEventId` is not one of them, but what the two event id queries see beyond the scan. */
  datatype NodeCheck = FormatOf(kind: Kind) | TargetOf(kind: Kind) | EventIdFormat | EventIdTarget | OddEventId

  predicate NamesTask(tables: Tables, text: string)
    requires |text| >= |INITIAL_PREFIX|
  {
    IsTarget(tables, DOWNLOAD_TASKS, ID, Text(text[|INITIAL_PREFIX|..]))
  }

  predicate NodePasses(check: NodeCheck, tables: Tables, source: Source, parent: NodeKey, key: NodeKey, text: string) {
    match check
    case FormatOf(kind) => IsSelected(source, kind, parent, key) ==> !InvalidValue(kind, text, false)
    case TargetOf(kind) =>
      IsSelected(source, kind, parent, key) ==> IsTarget(tables, PrimaryTable(kind), PrimaryColumn(kind), Text(text))
    case EventIdFormat =>
      LooksLikeEventId(key, text) ==> !InvalidValue(RowId(DOWNLOAD_TASKS), text[|INITIAL_PREFIX|..], false)
    case EventIdTarget => LooksLikeEventId(key, text) ==> NamesTask(tables, text)
    case OddEventId =>
      LooksLikeEventId(key, text) && !StartsWith(text, INITIAL_PREFIX) ==>
        !InvalidValue(RowId(DOWNLOAD_TASKS), text[|INITIAL_PREFIX|..], false) && NamesTask(tables, text)
  }

  /** Every text node of the tree passes. */
  predicate TreePasses(check: NodeCheck, tables: Tables, source: Source, value: Json, parent: NodeKey, key: NodeKey)
    decreases value
  {
    match value
    case JsonArray(items) =>
      forall i | 0 <= i < |items| :: TreePasses(check, tables, source, items[i], key, Index(i))
    case JsonObject(entries) =>
      forall i | 0 <= i < |entries| :: EntryPasses(check, tables, source, entries[i], key)
    case JsonString(text) => NodePasses(check, tables, source, parent, key, text)
    case _ => true
  }

  predicate EntryPasses(check: NodeCheck, tables: Tables, source: Source, entry: Entry, parent: NodeKey)
    decreases entry
  {
    TreePasses(check, tables, source, entry.value, parent, Name(entry.key))
  }

  predicate DocumentPasses(check: NodeCheck, tables: Tables, source: Source, cell: Cell) {
    cell.Doc? ==> TreePasses(check, tables, source, cell.tree, NoKey, NoKey)
  }

  /** Event ids that open with another spelling of the prefix name an existing task that is Base62. */
  predicate OddEventIdsAreSound(schema: Schema, tables: Tables) {
    schema.HasColumn(DOWNLOAD_TASKS, EVENTS) ==>
      forall row | row in tables[DOWNLOAD_TASKS] :: DocumentPasses(OddEventId, tables, EVENTS_SOURCE, Field(row, EVENTS))
  }

  // How the two walks compare.

  /** `local` is the key the local walk has in hand at a node of these keys. */
  predicate Tracks(local: string, parent: NodeKey, key: NodeKey) {
    match key
    case NoKey => local == ""
    case Name(name) => local == name
    case Index(_) => parent.Index? || (parent.NoKey? && local == "") || parent == Name(local)
  }

  lemma ReferenceKeyIsNoId(source: Source, key: string)
    requires JsonReferenceKind(source, key).Some?
    ensures key != "" && key != "id"
  {
    assert "" !in JSON_KEY_KINDS && "id" !in JSON_KEY_KINDS;
  }

  lemma SelectedIsLocal(source: Source, kind: Kind, local: string, parent: NodeKey, key: NodeKey, text: string)
    requires Tracks(local, parent, key) && IsSelected(source, kind, parent, key)
    ensures local != "" && JsonReferenceKind(source, local) == Some(kind) && !IsInitialEventId(source, local, text)
  {
    hide JsonReferenceKind, ReferenceKeys;
    ReferenceKeysAgree(source, kind, local);
    ReferenceKeyIsNoId(source, local);
  }

  /** What the local validation has found in order, the plan's queries by key find in order. */
  lemma {:induction false} CleanTreePasses(
    check: NodeCheck, schema: Schema, tables: Tables, source: Source, value: Json, local: string, parent: NodeKey, key: NodeKey)
    requires Tracks(local, parent, key)
    requires check.FormatOf? || check.TargetOf?
    requires check.FormatOf? ==> Collect(value, source, check.kind, local) == {}
    requires check.TargetOf? ==>
      DocumentResolves(schema, tables, value, source, local)
      && schema.HasColumn(PrimaryTable(check.kind), PrimaryColumn(check.kind))
    ensures TreePasses(check, tables, source, value, parent, key)
    decreases value
  {
    hide IsTarget, InvalidValue, MappedValueIsValid, JsonReferenceKind, ReferenceKeys;
    match value {
      case JsonArray(items) =>
        forall i | 0 <= i < |items| ensures TreePasses(check, tables, source, items[i], key, Index(i)) {
          assert check.FormatOf? ==> Collect(items[i], source, check.kind, local) <= Collect(value, source, check.kind, local);
          CleanTreePasses(check, schema, tables, source, items[i], local, key, Index(i));
        }
      case JsonObject(entries) =>
        forall i | 0 <= i < |entries| ensures EntryPasses(check, tables, source, entries[i], key) {
          assert entries[i].value < entries[i];
          assert check.FormatOf? ==> CollectEntry(entries[i], source, check.kind) <= Collect(value, source, check.kind, local);
          assert check.TargetOf? ==> EntryResolves(schema, tables, entries[i], source);
          CleanTreePasses(check, schema, tables, source, entries[i].value, entries[i].key, key, Name(entries[i].key));
        }
      case JsonString(text) =>
        if IsSelected(source, check.kind, parent, key) {
          SelectedIsLocal(source, check.kind, local, parent, key, text);
          FormatChecksAgree(check.kind, text);
        }
      case _ =>
    }
  }

  /** At a leaf the two event id queries see, beyond the local scan, just the odd spellings. */
  lemma EventIdLeaf(schema: Schema, tables: Tables, local: string, parent: NodeKey, key: NodeKey, text: string)
    requires Tracks(local, parent, key) && schema.HasColumn(DOWNLOAD_TASKS, ID)
    requires CollectText(RowId(DOWNLOAD_TASKS), EVENTS_SOURCE, local, text) == {}
    requires LeafResolves(schema, tables, EVENTS_SOURCE, local, text)
    ensures
      (NodePasses(EventIdFormat, tables, EVENTS_SOURCE, parent, key, text)
       && NodePasses(EventIdTarget, tables, EVENTS_SOURCE, parent, key, text))
      <==> NodePasses(OddEventId, tables, EVENTS_SOURCE, parent, key, text)
  {
    if LooksLikeEventId(key, text) && StartsWith(text, INITIAL_PREFIX) {
      FormatChecksAgree(RowId(DOWNLOAD_TASKS), text[|INITIAL_PREFIX|..]);
    }
  }

  lemma {:induction false} EventIdQueries(
    schema: Schema, tables: Tables, value: Json, local: string, parent: NodeKey, key: NodeKey)
    requires Tracks(local, parent, key) && schema.HasColumn(DOWNLOAD_TASKS, ID)
    requires Collect(value, EVENTS_SOURCE, RowId(DOWNLOAD_TASKS), local) == {}
    requires DocumentResolves(schema, tables, value, EVENTS_SOURCE, local)
    ensures
      (TreePasses(EventIdFormat, tables, EVENTS_SOURCE, value, parent, key)
       && TreePasses(EventIdTarget, tables, EVENTS_SOURCE, value, parent, key))
      <==> TreePasses(OddEventId, tables, EVENTS_SOURCE, value, parent, key)
    decreases value
  {
    hide IsTarget, NodePasses, LeafResolves, CollectText;
    var kind := RowId(DOWNLOAD_TASKS);
    match value {
      case JsonArray(items) =>
        forall i | 0 <= i < |items|
          ensures
            (TreePasses(EventIdFormat, tables, EVENTS_SOURCE, items[i], key, Index(i))
             && TreePasses(EventIdTarget, tables, EVENTS_SOURCE, items[i], key, Index(i)))
            <==> TreePasses(OddEventId, tables, EVENTS_SOURCE, items[i], key, Index(i))
        {
          assert Collect(items[i], EVENTS_SOURCE, kind, local) <= Collect(value, EVENTS_SOURCE, kind, local);
          EventIdQueries(schema, tables, items[i], local, key, Index(i));
        }
      case JsonObject(entries) =>
        forall i | 0 <= i < |entries|
          ensures
            (EntryPasses(EventIdFormat, tables, EVENTS_SOURCE, entries[i], key)
             && EntryPasses(EventIdTarget, tables, EVENTS_SOURCE, entries[i], key))
            <==> EntryPasses(OddEventId, tables, EVENTS_SOURCE, entries[i], key)
        {
          assert entries[i].value < entries[i];
          assert CollectEntry(entries[i], EVENTS_SOURCE, kind) <= Collect(value, EVENTS_SOURCE, kind, local);
          assert EntryResolves(schema, tables, entries[i], EVENTS_SOURCE);
          EventIdQueries(schema, tables, entries[i].value, entries[i].key, key, Name(entries[i].key));
        }
      case JsonString(text) => EventIdLeaf(schema, tables, local, parent, key, text);
      case _ =>
    }
  }

  lemma NodePassesElsewhere(
    check: NodeCheck, a: Tables, b: Tables, source: Source, parent: NodeKey, key: NodeKey, text: string)
    requires forall t, c, x | IsTarget(b, t, c, Text(x)) :: IsTarget(a, t, c, Text(x))
    requires NodePasses(check, b, source, parent, key, text)
    ensures NodePasses(check, a, source, parent, key, text)
  {
    hide IsTarget, IsSelected, InvalidValue;
    if LooksLikeEventId(key, text) {
      assert NamesTask(b, text) ==> NamesTask(a, text);
    }
  }

  /** The queries depend on the tables only through the values that are targets. */
  lemma {:induction false} TreePassesElsewhere(
    check: NodeCheck, a: Tables, b: Tables, source: Source, value: Json, parent: NodeKey, key: NodeKey)
    requires forall t, c, text | IsTarget(b, t, c, Text(text)) :: IsTarget(a, t, c, Text(text))
    requires TreePasses(check, b, source, value, parent, key)
    ensures TreePasses(check, a, source, value, parent, key)
    decreases value
  {
    hide IsTarget, NodePasses;
    match value {
      case JsonArray(items) =>
        forall i | 0 <= i < |items| ensures TreePasses(check, a, source, items[i], key, Index(i)) {
          TreePassesElsewhere(check, a, b, source, items[i], key, Index(i));
        }
      case JsonObject(entries) =>
        forall i | 0 <= i < |entries| ensures EntryPasses(check, a, source, entries[i], key) {
          assert entries[i].value < entries[i];
          assert EntryPasses(check, b, source, entries[i], key);
          TreePassesElsewhere(check, a, b, source, entries[i].value, key, Name(entries[i].key));
        }
      case JsonString(text) => NodePassesElsewhere(check, a, b, source, parent, key, text);
      case _ =>
    }
  }

  lemma OddTextIsOverlooked(schema: Schema, tables: Tables, kind: Kind, text: string)
    requires text == "Initial:a-b"
    ensures CollectText(kind, EVENTS_SOURCE, "id", text) == {} && LeafResolves(schema, tables, EVENTS_SOURCE, "id", text)
    ensures !NodePasses(EventIdFormat, tables, EVENTS_SOURCE, Index(0), Name("id"), text)
  {
    hide JsonReferenceKind, IsTarget;
    if JsonReferenceKind(EVENTS_SOURCE, "id").Some? {
      ReferenceKeyIsNoId(EVENTS_SOURCE, "id");
    }
    assert text[0] != INITIAL_PREFIX[0] && !StartsWith(text, INITIAL_PREFIX);
    assert text[..|INITIAL_PREFIX|] == "Initial:" && Lower("Initial:") == INITIAL_PREFIX;
    assert text[|INITIAL_PREFIX|..] == "a-b" && !IsBase62Char("a-b"[1]);
  }

  /** The local scan overlooks an event id whose prefix is capitalized; the plan's query does not. */
  lemma CapitalizedEventIdIsOverlooked(schema: Schema, tables: Tables, kind: Kind)
    ensures var event := JsonObject([Entry("id", JsonString("Initial:a-b"))]);
      && Collect(event, EVENTS_SOURCE, kind, "") == {}
      && DocumentResolves(schema, tables, event, EVENTS_SOURCE, "")
      && !TreePasses(EventIdFormat, tables, EVENTS_SOURCE, event, Index(0), Index(0))
  {
    hide CollectText, NodePasses, LeafResolves;
    var entry := Entry("id", JsonString("Initial:a-b"));
    OddTextIsOverlooked(schema, tables, kind, "Initial:a-b");
    assert CollectEntry(entry, EVENTS_SOURCE, kind) == {};
    assert EntryResolves(schema, tables, entry, EVENTS_SOURCE);
    assert !EntryPasses(EventIdFormat, tables, EVENTS_SOURCE, entry, Index(0));
    assert JsonObject([entry]).entries[0] == entry;
  }
}
