/** The text leaves of a document, each with the key it stands under: what rewriting and collecting do to every one. */
module JsonLeaves {
  import opened Wrappers
  import opened Text
  import opened IdRegistry
  import opened IdValues
  import opened JsonText
  import opened JsonReferences

  datatype Leaf = Leaf(key: string, text: string)

  /** The text at a path of positions; the key is that of the nearest entry above, which arrays pass on. */
  function LeafAt(value: Json, key: string, path: seq<nat>): Option<Leaf>
    decreases |path|
  {
    match value
    case JsonString(text) => if path == [] then Some(Leaf(key, text)) else None
    case JsonArray(items) =>
      if path == [] || path[0] >= |items| then None else LeafAt(items[path[0]], key, path[1..])
    case JsonObject(entries) =>
      if path == [] || path[0] >= |entries| then None
      else LeafAt(entries[path[0]].value, entries[path[0]].key, path[1..])
    case _ => None
  }

  // Replacing.

  ghost predicate IsReplaced(m: IdMap, kind: Kind, before: string, after: string) {
    && ((kind, before) in m ==> after == m[(kind, before)])
    && ((kind, before) !in m ==> after == before)
  }

  predicate AreSegments(parts: seq<string>) {
    parts != [] && forall i | 0 <= i < |parts| :: ':' !in parts[i]
  }

  ghost predicate PartsReplaced(m: IdMap, kind: Kind, parts: seq<string>, next: seq<string>) {
    |next| == |parts| && forall i | 0 <= i < |parts| :: IsReplaced(m, kind, parts[i], next[i])
  }

  /** Between the colons every mapped segment has given way to its new value, and nothing else has changed. */
  ghost predicate SegmentsReplaced(m: IdMap, kind: Kind, before: string, after: string) {
    exists parts, next | PartsReplaced(m, kind, parts, next) ::
      AreSegments(parts) && before == Join(parts, ':') && after == Join(next, ':')
  }

  lemma SplitGivesSegments(text: string)
    ensures AreSegments(Split(text, ':')) && text == Join(Split(text, ':'), ':')
  {
    JoinOfSplit(text, ':');
    SplitPartsLackSeparator(text, ':');
  }

  lemma SegmentsAreSplit(parts: seq<string>)
    requires AreSegments(parts)
    ensures Split(Join(parts, ':'), ':') == parts
  {
    SplitOfJoin(parts, ':');
  }

  lemma RenamedPartsAreReplaced(m: IdMap, kind: Kind, parts: seq<string>, next: seq<string>)
    ensures PartsReplaced(m, kind, parts, next) <==> next == RenamedParts(m, kind, parts)
  {
    if PartsReplaced(m, kind, parts, next) {
      forall i | 0 <= i < |parts| ensures next[i] == RenamedParts(m, kind, parts)[i] {
        assert IsReplaced(m, kind, parts[i], next[i]);
      }
    }
  }

  lemma ReplaceSegmentsExactly(m: IdMap, kind: Kind, before: string, after: string)
    ensures ReplaceSegments(m, kind, before) == after <==> SegmentsReplaced(m, kind, before, after)
  {
    hide Split, Join, AreSegments, PartsReplaced, RenamedParts;
    var parts := Split(before, ':');
    SplitGivesSegments(before);
    RenamedPartsAreReplaced(m, kind, parts, RenamedParts(m, kind, parts));
    if parts, next :| PartsReplaced(m, kind, parts, next) && AreSegments(parts) && before == Join(parts, ':') && after == Join(next, ':') {
      SegmentsAreSplit(parts);
      RenamedPartsAreReplaced(m, kind, parts, next);
    }
  }

  /** A key changes exactly if one of its segments is mapped. */
  lemma SegmentsChangeExactlyIf(m: IdMap, kind: Kind, text: string)
    requires WellFormedMap(m)
    ensures ReplaceSegments(m, kind, text) != text <==> exists part | part in Split(text, ':') :: (kind, part) in m
  {
    hide Split, Join, WellFormedMap;
    var parts := Split(text, ':');
    SplitGivesSegments(text);
    if part :| part in parts && (kind, part) in m {
      RenamingIsIdempotent(m, kind, part);
      var i :| 0 <= i < |parts| && parts[i] == part;
      MapIsValid(m);
      ReplaceSegmentsKeepsStructure(m, kind, text);
      assert RenamedParts(m, kind, parts)[i] != parts[i];
    } else {
      assert RenamedParts(m, kind, parts) == parts;
    }
  }

  lemma MapIsValid(m: IdMap)
    requires WellFormedMap(m)
    ensures NewValuesValid(m)
  {
  }

  // Leaves that are rewritten.

  /** What rewriting makes of a leaf: opening event ids by segments, references as a whole, all else not at all. */
  ghost predicate LeafIsRewritten(m: IdMap, source: Source, before: Leaf, after: Leaf) {
    && after.key == before.key
    && (IsOpeningEvent(source, before) ==> SegmentsReplaced(m, RowId(DOWNLOAD_TASKS), before.text, after.text))
    && (!IsOpeningEvent(source, before) ==>
          && (forall kind | RefersTo(source, before, kind) :: IsReplaced(m, kind, before.text, after.text))
          && ((forall kind :: !RefersTo(source, before, kind)) ==> after.text == before.text))
  }

  predicate IsOpeningEvent(source: Source, leaf: Leaf) {
    source == (DOWNLOAD_TASKS, EVENTS) && leaf.key == "id" && "initial:" <= leaf.text
  }

  /** A key of its own meaning in this document, or else one of the listed keys; the empty key is none. */
  predicate RefersTo(source: Source, leaf: Leaf, kind: Kind) {
    leaf.key != "" &&
    if source == (NOTIFICATIONS, METADATA) && leaf.key == "token" then kind == ShareToken
    else if source == (AUDIT_EVENTS, METADATA) && leaf.key == "sessionId" then kind == RowId(OBJECT_UPLOAD_SESSIONS)
    else if source == (AUDIT_EVENTS, METADATA) && leaf.key == "sourceId" then kind == RowId(MATTERS)
    else leaf.key in JSON_KEY_KINDS && JSON_KEY_KINDS[leaf.key] == kind
  }

  lemma KindOfLeaf(source: Source, leaf: Leaf, kind: Kind)
    ensures RefersTo(source, leaf, kind) <==> leaf.key != "" && JsonReferenceKind(source, leaf.key) == Some(kind)
  {
    hide JSON_KEY_KINDS;
  }

  lemma RewrittenLeaf(m: IdMap, source: Source, leaf: Leaf)
    ensures LeafIsRewritten(m, source, leaf, Leaf(leaf.key, RewriteText(m, source, leaf.key, leaf.text)))
  {
    hide JsonReferenceKind, ReplaceSegments, SegmentsReplaced, JSON_KEY_KINDS, RefersTo;
    var after := RewriteText(m, source, leaf.key, leaf.text);
    ReplaceSegmentsExactly(m, RowId(DOWNLOAD_TASKS), leaf.text, after);
    forall kind ensures RefersTo(source, leaf, kind) <==> leaf.key != "" && JsonReferenceKind(source, leaf.key) == Some(kind) {
      KindOfLeaf(source, leaf, kind);
    }
    if leaf.key != "" && JsonReferenceKind(source, leaf.key).Some? {
      assert RefersTo(source, leaf, JsonReferenceKind(source, leaf.key).value);
    }
  }

  ghost predicate LeafBecomes(m: IdMap, source: Source, before: Option<Leaf>, after: Option<Leaf>) {
    match (before, after)
    case (None, None) => true
    case (Some(a), Some(b)) => LeafIsRewritten(m, source, a, b)
    case (_, _) => false
  }

  lemma {:induction false} RewriteAt(value: Json, m: IdMap, source: Source, key: string, path: seq<nat>)
    ensures LeafBecomes(m, source, LeafAt(value, key, path), LeafAt(Rewrite(value, m, source, key), key, path))
    decreases |path|
  {
    hide RewriteText, LeafIsRewritten;
    match value {
      case JsonString(text) => RewrittenLeaf(m, source, Leaf(key, text));
      case JsonArray(items) =>
        if path != [] && path[0] < |items| {
          RewriteAt(items[path[0]], m, source, key, path[1..]);
        }
      case JsonObject(entries) =>
        if path != [] && path[0] < |entries| {
          RewriteAt(entries[path[0]].value, m, source, entries[path[0]].key, path[1..]);
        }
      case _ =>
    }
  }

  /** The document has the shape and keys of the other, and each of its texts is what rewriting makes of the other's. */
  ghost predicate IsRewritten(m: IdMap, source: Source, key: string, before: Json, after: Json) {
    && SameOutsideReferences(before, after, source, key)
    && forall path :: LeafBecomes(m, source, LeafAt(before, key, path), LeafAt(after, key, path))
  }

  /** Rewriting replaces every reference in a document, wherever it stands, and changes nothing else. */
  lemma RewriteReplacesEveryReference(value: Json, m: IdMap, source: Source, key: string)
    ensures IsRewritten(m, source, key, value, Rewrite(value, m, source, key))
  {
    hide Rewrite, SameOutsideReferences, LeafBecomes, LeafAt;
    RewriteKeepsEverythingElse(value, m, source, key);
    forall path ensures LeafBecomes(m, source, LeafAt(value, key, path), LeafAt(Rewrite(value, m, source, key), key, path)) {
      RewriteAt(value, m, source, key, path);
    }
  }

  // Leaves that are collected.

  /** The leaf holds the value as a reference of the kind, in a format that is not the kind's. */
  predicate HoldsMalformed(source: Source, kind: Kind, leaf: Leaf, value: string) {
    && InvalidValue(kind, value, false)
    && if IsOpeningEvent(source, leaf) then kind == RowId(DOWNLOAD_TASKS) && leaf.text == "initial:" + value
       else RefersTo(source, leaf, kind) && leaf.text == value
  }

  lemma CollectedLeaf(source: Source, kind: Kind, leaf: Leaf, value: string)
    ensures value in CollectText(kind, source, leaf.key, leaf.text) <==> HoldsMalformed(source, kind, leaf, value)
  {
    hide JsonReferenceKind, RefersTo, MappedValueIsValid, InvalidValue;
    KindOfLeaf(source, leaf, kind);
    FormatChecksAgree(kind, value);
    if IsOpeningEvent(source, leaf) {
      var taskId := leaf.text[|INITIAL_PREFIX|..];
      assert leaf.text == "initial:" + taskId;
      FormatChecksAgree(kind, taskId);
      assert ("initial:" + value)[|INITIAL_PREFIX|..] == value;
    }
  }

  ghost predicate HoldsAt(document: Json, source: Source, kind: Kind, key: string, path: seq<nat>, value: string) {
    match LeafAt(document, key, path)
    case None => false
    case Some(leaf) => HoldsMalformed(source, kind, leaf, value)
  }

  lemma {:induction false} CollectedStandsSomewhere(document: Json, source: Source, kind: Kind, key: string, value: string)
    returns (path: seq<nat>)
    requires value in Collect(document, source, kind, key)
    ensures HoldsAt(document, source, kind, key, path, value)
    decreases document
  {
    hide CollectText, HoldsMalformed;
    match document {
      case JsonArray(items) =>
        var i: nat :| i < |items| && value in Collect(items[i], source, kind, key);
        var rest := CollectedStandsSomewhere(items[i], source, kind, key, value);
        path := [i] + rest;
        assert path[1..] == rest;
      case JsonObject(entries) =>
        var i: nat :| i < |entries| && value in CollectEntry(entries[i], source, kind);
        assert entries[i].value < entries[i];
        var rest := CollectedStandsSomewhere(entries[i].value, source, kind, entries[i].key, value);
        path := [i] + rest;
        assert path[1..] == rest;
      case JsonString(text) =>
        CollectedLeaf(source, kind, Leaf(key, text), value);
        path := [];
    }
  }

  lemma {:induction false} HeldIsCollected(
    document: Json, source: Source, kind: Kind, key: string, path: seq<nat>, value: string)
    requires HoldsAt(document, source, kind, key, path, value)
    ensures value in Collect(document, source, kind, key)
    decreases |path|
  {
    hide CollectText, HoldsMalformed;
    match document {
      case JsonArray(items) => HeldIsCollected(items[path[0]], source, kind, key, path[1..], value);
      case JsonObject(entries) =>
        HeldIsCollected(entries[path[0]].value, source, kind, entries[path[0]].key, path[1..], value);
        assert value in CollectEntry(entries[path[0]], source, kind);
      case JsonString(text) => CollectedLeaf(source, kind, Leaf(key, text), value);
    }
  }

  /** Collected are exactly the malformed values that some reference of the kind holds, at whatever depth. */
  lemma CollectExactly(document: Json, source: Source, kind: Kind, key: string, value: string)
    ensures value in Collect(document, source, kind, key) <==> exists path :: HoldsAt(document, source, kind, key, path, value)
  {
    hide Collect, HoldsAt;
    if value in Collect(document, source, kind, key) {
      var path := CollectedStandsSomewhere(document, source, kind, key, value);
    }
    forall path | HoldsAt(document, source, kind, key, path, value) ensures value in Collect(document, source, kind, key) {
      HeldIsCollected(document, source, kind, key, path, value);
    }
  }
}
