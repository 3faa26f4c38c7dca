/** Typed references inside JSON documents: rewriting them, and collecting the ones that still need a mapping. */
module JsonReferences {
  import opened Wrappers
  import opened Text
  import opened IdRegistry
  import opened IdValues
  import opened JsonText

  type Source = (Table, Column)

  const INITIAL_PREFIX: string := "initial:"

  /** The kind a leaf under `key` refers to; three keys have a meaning of their own in some documents. */
  function JsonReferenceKind(source: Source, key: string): Option<Kind> {
    if source == (NOTIFICATIONS, METADATA) && key == "token" then Some(ShareToken)
    else if source == (AUDIT_EVENTS, METADATA) && key == "sessionId" then Some(RowId(OBJECT_UPLOAD_SESSIONS))
    else if source == (AUDIT_EVENTS, METADATA) && key == "sourceId" then Some(RowId(MATTERS))
    else if key in JSON_KEY_KINDS then Some(JSON_KEY_KINDS[key])
    else None
  }

  /** The opening event of a download task carries its task id inside a colon-separated event id. */
  predicate IsInitialEventId(source: Source, key: string, text: string) {
    source == (DOWNLOAD_TASKS, EVENTS) && key == "id" && StartsWith(text, INITIAL_PREFIX)
  }

  /** An absent key and an empty key are both falsy, so "" stands for either. */
  function RewriteText(m: IdMap, source: Source, key: string, text: string): string {
    if key == "" then text
    else if IsInitialEventId(source, key, text) then ReplaceSegments(m, RowId(DOWNLOAD_TASKS), text)
    else
      match JsonReferenceKind(source, key)
      case None => text
      case Some(kind) => Renamed(m, kind, text)
  }

  /** `rewriteJsonValue`: arrays pass their own key on to their items. */
  function Rewrite(value: Json, m: IdMap, source: Source, key: string): (r: Json)
    ensures r.JsonString? <==> value.JsonString?
    ensures r.JsonArray? <==> value.JsonArray?
    ensures r.JsonObject? <==> value.JsonObject?
    decreases value, 1
  {
    match value
    case JsonArray(items) => JsonArray(RewriteItems(items, m, source, key))
    case JsonObject(entries) => JsonObject(RewriteEntries(entries, m, source))
    case JsonString(text) => JsonString(RewriteText(m, source, key, text))
    case _ => value
  }

  function RewriteItems(items: seq<Json>, m: IdMap, source: Source, key: string): (r: seq<Json>)
    ensures |r| == |items|
    ensures forall i | 0 <= i < |items| :: r[i] == Rewrite(items[i], m, source, key)
    decreases items, 0
  {
    seq(|items|, i requires 0 <= i < |items| => Rewrite(items[i], m, source, key))
  }

  function RewriteEntries(entries: seq<Entry>, m: IdMap, source: Source): (r: seq<Entry>)
    ensures |r| == |entries|
    ensures forall i | 0 <= i < |entries| ::
      r[i] == Entry(entries[i].key, Rewrite(entries[i].value, m, source, entries[i].key))
    decreases entries, 0
  {
    seq(|entries|, i requires 0 <= i < |entries| =>
      RewriteEntry(entries[i], m, source))
  }

  function RewriteEntry(entry: Entry, m: IdMap, source: Source): Entry
    decreases entry, 0
  {
    Entry(entry.key, Rewrite(entry.value, m, source, entry.key))
  }

  function CollectText(kind: Kind, source: Source, key: string, text: string): set<string> {
    if key == "" then {}
    else if IsInitialEventId(source, key, text) then
      var taskId := text[|INITIAL_PREFIX|..];
      if kind == RowId(DOWNLOAD_TASKS) && !MappedValueIsValid(kind, taskId) then {taskId} else {}
    else if JsonReferenceKind(source, key) == Some(kind) && !MappedValueIsValid(kind, text) then {text}
    else {}
  }

  /** The values of one kind that a document still refers to in a wrong format. */
  function Collect(value: Json, source: Source, kind: Kind, key: string): set<string>
    decreases value
  {
    match value
    case JsonArray(items) => set i, v | 0 <= i < |items| && v in Collect(items[i], source, kind, key) :: v
    case JsonObject(entries) =>
      set i, v | 0 <= i < |entries| && v in CollectEntry(entries[i], source, kind) :: v
    case JsonString(text) => CollectText(kind, source, key, text)
    case _ => {}
  }

  function CollectEntry(entry: Entry, source: Source, kind: Kind): set<string>
    decreases entry
  {
    Collect(entry.value, source, kind, entry.key)
  }

  /** `collectJsonValuesForKind`, which grows `found` while it walks the document. */
  method CollectJsonValuesForKind(value: Json, source: Source, kind: Kind, found: set<string>, key: string)
    returns (result: set<string>)
    ensures result == found + Collect(value, source, kind, key)
    decreases value
  {
    result := found;
    match value {
      case JsonArray(items) =>
        for i := 0 to |items|
          invariant forall v :: v in result <==>
            (v in found || exists j | 0 <= j < i :: v in Collect(items[j], source, kind, key))
        {
          result := CollectJsonValuesForKind(items[i], source, kind, result, key);
        }
        assert result == found + Collect(value, source, kind, key);
      case JsonObject(entries) =>
        for i := 0 to |entries|
          invariant forall v :: v in result <==>
            (v in found || exists j | 0 <= j < i :: v in CollectEntry(entries[j], source, kind))
        {
          assert entries[i].value < entries[i];
          result := CollectJsonValuesForKind(entries[i].value, source, kind, result, entries[i].key);
        }
        assert result == found + Collect(value, source, kind, key);
      case JsonString(text) =>
        if key != "" {
          if IsInitialEventId(source, key, text) {
            var taskId := text[|INITIAL_PREFIX|..];
            if kind == RowId(DOWNLOAD_TASKS) && !MappedValueIsValid(kind, taskId) {
              result := result + {taskId};
            }
            return;
          }
          if JsonReferenceKind(source, key) == Some(kind) && !MappedValueIsValid(kind, text) {
            result := result + {text};
          }
        }
      case _ =>
    }
  }

  ghost predicate Covers(m: IdMap, kind: Kind, values: set<string>) {
    forall v | v in values :: (kind, v) in m
  }

  // Leaves.

  lemma InitialIsNeverMapped(m: IdMap)
    requires WellFormedMap(m)
    ensures (RowId(DOWNLOAD_TASKS), "initial") !in m
  {
    assert MappedValueIsValid(RowId(DOWNLOAD_TASKS), "initial");
  }

  /** Rewriting an opening event id keeps its prefix and renames the task id segment by segment. */
  lemma RewrittenInitialEventId(m: IdMap, text: string)
    requires WellFormedMap(m)
    requires StartsWith(text, INITIAL_PREFIX)
    ensures var kind, taskId := RowId(DOWNLOAD_TASKS), text[|INITIAL_PREFIX|..];
      ReplaceSegments(m, kind, text) == INITIAL_PREFIX + ReplaceSegments(m, kind, taskId)
  {
    var kind, taskId := RowId(DOWNLOAD_TASKS), text[|INITIAL_PREFIX|..];
    InitialIsNeverMapped(m);
    assert text == "initial" + [':'] + taskId;
    ReplaceSegmentsAfterWord(m, kind, "initial", taskId);
  }

  /** After a covered rewrite a leaf is collected only as an opening event id whose task id holds a colon. */
  lemma CollectAfterRewriteText(m: IdMap, kind: Kind, source: Source, key: string, text: string)
    requires WellFormedMap(m)
    requires Covers(m, kind, CollectText(kind, source, key, text))
    ensures CollectText(kind, source, key, RewriteText(m, source, key, text)) == {}
      <==> !(kind == RowId(DOWNLOAD_TASKS) && key != "" && IsInitialEventId(source, key, text)
             && ':' in text[|INITIAL_PREFIX|..])
  {
    if key == "" {
    } else if IsInitialEventId(source, key, text) {
      var taskId := text[|INITIAL_PREFIX|..];
      RewrittenInitialEventId(m, text);
      var after := ReplaceSegments(m, RowId(DOWNLOAD_TASKS), taskId);
      assert (INITIAL_PREFIX + after)[|INITIAL_PREFIX|..] == after;
      if ':' in taskId {
        ColonsStay(m, RowId(DOWNLOAD_TASKS), taskId);
      } else {
        ReplaceSegmentsWithoutColon(m, RowId(DOWNLOAD_TASKS), taskId);
      }
    } else if JsonReferenceKind(source, key).Some? {
      RenamedReferenceIsNoEventId(m, source, key, text);
    }
  }

  /** The key `id` is not a reference key, so a renamed reference is never taken for an opening event id. */
  lemma RenamedReferenceIsNoEventId(m: IdMap, source: Source, key: string, text: string)
    requires JsonReferenceKind(source, key).Some?
    ensures !IsInitialEventId(source, key, text)
    ensures !IsInitialEventId(source, key, RewriteText(m, source, key, text))
  {
    assert "id" !in JSON_KEY_KINDS;
  }

  lemma RewriteTextIsIdempotent(m: IdMap, source: Source, key: string, text: string)
    requires WellFormedMap(m)
    ensures RewriteText(m, source, key, RewriteText(m, source, key, text)) == RewriteText(m, source, key, text)
  {
    if key == "" {
    } else if IsInitialEventId(source, key, text) {
      RewrittenInitialEventId(m, text);
      ReplaceSegmentsIsIdempotent(m, RowId(DOWNLOAD_TASKS), text);
    } else {
      match JsonReferenceKind(source, key) {
        case None =>
        case Some(kind) =>
          RenamedReferenceIsNoEventId(m, source, key, text);
          RenamingIsIdempotent(m, kind, text);
      }
    }
  }

  // Whole documents.

  /** No opening event id in the document carries a task id with a colon. */
  predicate TaskIdsLackColons(value: Json, source: Source, key: string)
    decreases value
  {
    match value
    case JsonArray(items) => forall i | 0 <= i < |items| :: TaskIdsLackColons(items[i], source, key)
    case JsonObject(entries) => forall i | 0 <= i < |entries| :: EntryTaskIdsLackColons(entries[i], source)
    case JsonString(text) =>
      key != "" && IsInitialEventId(source, key, text) ==> ':' !in text[|INITIAL_PREFIX|..]
    case _ => true
  }

  predicate EntryTaskIdsLackColons(entry: Entry, source: Source)
    decreases entry
  {
    TaskIdsLackColons(entry.value, source, entry.key)
  }

  /**
   * Rewriting under a map that covers every collected value leaves nothing to collect, for every kind and
   * document - except that for download tasks this holds exactly when no opening event id has a colon in it.
   */
  lemma {:induction false} CollectAfterRewrite(value: Json, m: IdMap, source: Source, kind: Kind, key: string)
    requires WellFormedMap(m)
    requires Covers(m, kind, Collect(value, source, kind, key))
    ensures Collect(Rewrite(value, m, source, key), source, kind, key) == {}
      <==> (kind == RowId(DOWNLOAD_TASKS) ==> TaskIdsLackColons(value, source, key))
    decreases value
  {
    var after := Rewrite(value, m, source, key);
    match value {
      case JsonArray(items) =>
        forall i | 0 <= i < |items|
          ensures Collect(after.items[i], source, kind, key) == {}
            <==> (kind == RowId(DOWNLOAD_TASKS) ==> TaskIdsLackColons(items[i], source, key))
        {
          CollectAfterRewrite(items[i], m, source, kind, key);
        }
        assert Collect(after, source, kind, key) == {}
          <==> forall i | 0 <= i < |items| :: Collect(after.items[i], source, kind, key) == {} by {
          if i :| 0 <= i < |items| && Collect(after.items[i], source, kind, key) != {} {
            var v :| v in Collect(after.items[i], source, kind, key);
            assert v in Collect(after, source, kind, key);
          }
        }
      case JsonObject(entries) =>
        forall i | 0 <= i < |entries|
          ensures CollectEntry(after.entries[i], source, kind) == {}
            <==> (kind == RowId(DOWNLOAD_TASKS) ==> EntryTaskIdsLackColons(entries[i], source))
        {
          assert CollectEntry(entries[i], source, kind) <= Collect(value, source, kind, key);
          assert entries[i].value < entries[i];
          CollectAfterRewrite(entries[i].value, m, source, kind, entries[i].key);
        }
        assert Collect(after, source, kind, key) == {}
          <==> forall i | 0 <= i < |entries| :: CollectEntry(after.entries[i], source, kind) == {} by {
          if i :| 0 <= i < |entries| && CollectEntry(after.entries[i], source, kind) != {} {
            var v :| v in CollectEntry(after.entries[i], source, kind);
            assert v in Collect(after, source, kind, key);
          }
        }
      case JsonString(text) => CollectAfterRewriteText(m, kind, source, key, text);
      case _ =>
    }
  }

  /** A task id with a colon is mapped as a whole but rewritten by segments, so the scan finds it again. */
  lemma ColonTaskIdIsCollectedAgain(m: IdMap)
    requires WellFormedMap(m)
    requires (RowId(DOWNLOAD_TASKS), "a:b") in m
    ensures var leaf, source := JsonString("initial:a:b"), (DOWNLOAD_TASKS, EVENTS);
      && Covers(m, RowId(DOWNLOAD_TASKS), Collect(leaf, source, RowId(DOWNLOAD_TASKS), "id"))
      && Collect(Rewrite(leaf, m, source, "id"), source, RowId(DOWNLOAD_TASKS), "id") != {}
  {
    var leaf, source := JsonString("initial:a:b"), (DOWNLOAD_TASKS, EVENTS);
    assert leaf.text[|INITIAL_PREFIX|..] == "a:b";
    assert "a:b"[1] == ':';
    CollectAfterRewrite(leaf, m, source, RowId(DOWNLOAD_TASKS), "id");
  }

  lemma {:induction false} RewriteIsIdempotent(value: Json, m: IdMap, source: Source, key: string)
    requires WellFormedMap(m)
    ensures Rewrite(Rewrite(value, m, source, key), m, source, key) == Rewrite(value, m, source, key)
    decreases value
  {
    var once := Rewrite(value, m, source, key);
    match value {
      case JsonArray(items) =>
        forall i | 0 <= i < |items|
          ensures Rewrite(once.items[i], m, source, key) == once.items[i]
        {
          RewriteIsIdempotent(items[i], m, source, key);
        }
        assert RewriteItems(once.items, m, source, key) == once.items;
      case JsonObject(entries) =>
        forall i | 0 <= i < |entries|
          ensures Rewrite(once.entries[i].value, m, source, entries[i].key) == once.entries[i].value
        {
          assert entries[i].value < entries[i];
          RewriteIsIdempotent(entries[i].value, m, source, entries[i].key);
        }
        assert RewriteEntries(once.entries, m, source) == once.entries;
      case JsonString(text) => RewriteTextIsIdempotent(m, source, key, text);
      case _ =>
    }
  }

  /** Same shape and keys, and the same leaf wherever the key names no reference. */
  ghost predicate SameOutsideReferences(before: Json, after: Json, source: Source, key: string)
    decreases before
  {
    match (before, after)
    case (JsonArray(a), JsonArray(b)) =>
      |a| == |b| && forall i | 0 <= i < |a| :: SameOutsideReferences(a[i], b[i], source, key)
    case (JsonObject(a), JsonObject(b)) =>
      |a| == |b| && forall i | 0 <= i < |a| :: EntrySameOutsideReferences(a[i], b[i], source)
    case (JsonString(a), JsonString(b)) =>
      key == "" || (JsonReferenceKind(source, key).None? && !IsInitialEventId(source, key, a)) ==> a == b
    case (_, _) => before == after
  }

  ghost predicate EntrySameOutsideReferences(before: Entry, after: Entry, source: Source)
    decreases before
  {
    before.key == after.key && SameOutsideReferences(before.value, after.value, source, before.key)
  }

  lemma {:induction false} RewriteKeepsEverythingElse(value: Json, m: IdMap, source: Source, key: string)
    ensures SameOutsideReferences(value, Rewrite(value, m, source, key), source, key)
    decreases value
  {
    match value {
      case JsonArray(items) =>
        forall i | 0 <= i < |items|
          ensures SameOutsideReferences(items[i], Rewrite(items[i], m, source, key), source, key)
        {
          RewriteKeepsEverythingElse(items[i], m, source, key);
        }
      case JsonObject(entries) =>
        var after := Rewrite(value, m, source, key).entries;
        forall i | 0 <= i < |entries|
          ensures EntrySameOutsideReferences(entries[i], after[i], source)
        {
          assert entries[i].value < entries[i];
          RewriteKeepsEverythingElse(entries[i].value, m, source, entries[i].key);
        }
      case _ =>
    }
  }

  // Rewritten documents print a new value.

  ghost predicate MentionsNewValue(m: IdMap, text: string) {
    exists key :: key in m && Includes(text, m[key])
  }

  lemma Base62PrintsVerbatim(value: string)
    requires !HasForeignChar(value)
    ensures PrintsVerbatim(value)
  {
    forall c | c in value ensures EscapeChar(c) == [c] {
      var i :| 0 <= i < |value| && value[i] == c;
      assert IsBase62Char(value[i]);
    }
  }

  lemma ChangedTextMentionsNewValue(m: IdMap, source: Source, key: string, text: string)
    requires RewriteText(m, source, key, text) != text
    ensures MentionsNewValue(m, RewriteText(m, source, key, text))
  {
    if IsInitialEventId(source, key, text) {
      ChangedSegmentsIncludeNewValue(m, RowId(DOWNLOAD_TASKS), text);
    } else {
      var after := RewriteText(m, source, key, text);
      var kind := JsonReferenceKind(source, key).value;
      IncludesWithin([], after, []);
      assert [] + after + [] == after;
      assert m[(kind, text)] == after;
    }
  }

  /** A document whose tree changed prints at least one new value, which is how the plan selects it. */
  lemma {:induction false} ChangedDocumentMentionsNewValue(value: Json, m: IdMap, source: Source, key: string)
    requires NewValuesValid(m)
    requires Rewrite(value, m, source, key) != value
    ensures MentionsNewValue(m, Stringify(Rewrite(value, m, source, key)))
    decreases value
  {
    var after := Rewrite(value, m, source, key);
    match value {
      case JsonArray(items) =>
        assert after.items != items;
        var i :| 0 <= i < |items| && after.items[i] != items[i];
        ChangedDocumentMentionsNewValue(items[i], m, source, key);
        var id :| id in m && Includes(Stringify(after.items[i]), m[id]);
        ArrayIncludes(after.items, i, m[id]);
      case JsonObject(entries) =>
        assert after.entries != entries;
        assert exists i | 0 <= i < |entries| :: after.entries[i] != entries[i];
        var i :| 0 <= i < |entries| && after.entries[i].value != entries[i].value;
        assert entries[i].value < entries[i];
        ChangedDocumentMentionsNewValue(entries[i].value, m, source, entries[i].key);
        var id :| id in m && Includes(Stringify(after.entries[i].value), m[id]);
        ObjectIncludes(after.entries, i, m[id]);
      case JsonString(text) =>
        ChangedTextMentionsNewValue(m, source, key, text);
        var id :| id in m && Includes(after.text, m[id]);
        ValidValuesAreBase62(id.0, m[id]);
        Base62PrintsVerbatim(m[id]);
        QuoteIncludes(after.text, m[id]);
      case _ =>
    }
  }
}
