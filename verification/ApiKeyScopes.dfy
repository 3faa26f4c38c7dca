/** The order, the legacy table and the change test of API key permissions, each described by itself. */
module ApiKeyScopes {
  import opened Wrappers
  import opened ApiKeyPermissions

  // The order of `sort`.

  /** A character as UTF-16 code units, section 2.1 of RFC 2781. */
  function UnitsOf(c: char): (units: seq<nat>)
    ensures 1 <= |units| <= 2
  {
    var n := c as int;
    if n < 0x1_0000 then [n] else [0xD800 + (n - 0x1_0000) / 0x400, 0xDC00 + (n - 0x1_0000) % 0x400]
  }

  function Utf16(s: string): seq<nat> {
    if s == [] then [] else UnitsOf(s[0]) + Utf16(s[1..])
  }

  /** Up to some place both agree, and there the one ends or has the smaller unit. */
  ghost predicate UnitsBefore(a: seq<nat>, b: seq<nat>) {
    exists k: nat :: DivergeAt(a, b, k)
  }

  ghost predicate DivergeAt(a: seq<nat>, b: seq<nat>, k: nat) {
    k <= |a| && k < |b| && a[..k] == b[..k] && (k == |a| || a[k] < b[k])
  }

  lemma DivergeFurther(prefix: seq<nat>, a: seq<nat>, b: seq<nat>, k: nat)
    ensures DivergeAt(prefix + a, prefix + b, |prefix| + k) <==> DivergeAt(a, b, k)
  {
    var x, y := prefix + a, prefix + b;
    if k <= |a| && k <= |b| {
      assert x[..|prefix| + k] == prefix + a[..k] && y[..|prefix| + k] == prefix + b[..k];
      assert (prefix + a[..k])[|prefix|..] == a[..k] && (prefix + b[..k])[|prefix|..] == b[..k];
    }
  }

  lemma DivergePastPrefix(prefix: seq<nat>, a: seq<nat>, b: seq<nat>, k: nat)
    ensures DivergeAt(prefix + a, prefix + b, k) ==> k >= |prefix|
  {
    if k < |prefix| {
      assert (prefix + a)[k] == prefix[k] == (prefix + b)[k];
    }
  }

  lemma PrefixesDiverge(prefix: seq<nat>, a: seq<nat>, b: seq<nat>)
    ensures UnitsBefore(prefix + a, prefix + b) <==> UnitsBefore(a, b)
  {
    hide DivergeAt;
    if k: nat :| DivergeAt(prefix + a, prefix + b, k) {
      DivergePastPrefix(prefix, a, b, k);
      DivergeFurther(prefix, a, b, k - |prefix|);
      assert |prefix| + (k - |prefix|) == k;
    }
    if k: nat :| DivergeAt(a, b, k) {
      DivergeFurther(prefix, a, b, k);
    }
  }

  lemma DifferAtFirst(a: seq<nat>, b: seq<nat>)
    requires a != [] && b != [] && a[0] != b[0]
    ensures UnitsBefore(a, b) <==> a[0] < b[0]
  {
    if a[0] < b[0] {
      assert DivergeAt(a, b, 0);
    }
    forall k: nat | DivergeAt(a, b, k) ensures a[0] < b[0] {
      if k > 0 {
        assert a[..k][0] == b[..k][0];
      }
    }
  }

  lemma DifferAtSecond(a: seq<nat>, b: seq<nat>)
    requires |a| >= 2 && |b| >= 2 && a[0] == b[0] && a[1] != b[1]
    ensures UnitsBefore(a, b) <==> a[1] < b[1]
  {
    assert a == [a[0]] + a[1..] && b == [a[0]] + b[1..];
    PrefixesDiverge([a[0]], a[1..], b[1..]);
    DifferAtFirst(a[1..], b[1..]);
  }

  /** Different characters are ordered alike by their rank and by their units. */
  lemma RankIsUnitOrder(c: char, d: char, a: seq<nat>, b: seq<nat>)
    requires c != d
    ensures Rank(c) < Rank(d) <==> UnitsBefore(UnitsOf(c) + a, UnitsOf(d) + b)
  {
    var x, y := UnitsOf(c) + a, UnitsOf(d) + b;
    if x[0] != y[0] {
      DifferAtFirst(x, y);
    } else {
      DifferAtSecond(x, y);
    }
  }

  /** The order used for sorting is that of UTF-16 code units. */
  lemma {:induction false} BeforeIsUtf16Order(a: string, b: string)
    ensures Before(a, b) <==> UnitsBefore(Utf16(a), Utf16(b))
    decreases |a|
  {
    hide Rank, UnitsOf;
    if a == [] || b == [] {
      if b != [] {
        assert DivergeAt(Utf16(a), Utf16(b), 0);
      }
    } else if a[0] == b[0] {
      BeforeIsUtf16Order(a[1..], b[1..]);
      PrefixesDiverge(UnitsOf(a[0]), Utf16(a[1..]), Utf16(b[1..]));
    } else {
      RankIsUnitOrder(a[0], b[0], Utf16(a[1..]), Utf16(b[1..]));
    }
  }

  // The legacy table.

  /** Every replacement of an action of the old vocabulary: its resource, the action, and one present scope. */
  const REPLACEMENTS: set<(string, string, string)> := {
    ("ihost", "upload", "images:upload"),
    ("webdav", "read", "objects:read"),
    ("webdav", "write", "objects:create"),
    ("webdav", "write", "objects:update"),
    ("webdav", "write", "objects:delete"),
    ("remoteDownload", "read", "download-tasks:read"),
    ("remoteDownload", "create", "download-tasks:create"),
    ("remoteDownload", "cancel", "download-tasks:cancel")}

  lemma LegacyScopesAreReplacements(resource: string, action: string, scope: string)
    ensures scope in LegacyScopes(resource, action) <==> (resource, action, scope) in REPLACEMENTS
  {
  }

  ghost predicate IsLegacy(resource: string, action: string) {
    exists scope :: (resource, action, scope) in REPLACEMENTS
  }

  lemma LegacyExactlyIf(resource: string, action: string)
    ensures IsLegacy(resource, action) <==> LegacyScopes(resource, action) != {}
  {
    hide LegacyScopes, REPLACEMENTS;
    forall scope ensures scope in LegacyScopes(resource, action) <==> (resource, action, scope) in REPLACEMENTS {
      LegacyScopesAreReplacements(resource, action, scope);
    }
    if LegacyScopes(resource, action) != {} {
      var scope :| scope in LegacyScopes(resource, action);
      assert (resource, action, scope) in REPLACEMENTS;
    }
  }

  // The canonical form.

  /** A listed action stands for the scope: a legacy action by the table, any other by its own name. */
  ghost predicate StandsFor(resource: string, action: string, scope: string) {
    (resource, action, scope) in REPLACEMENTS || (!IsLegacy(resource, action) && scope == resource + ":" + action)
  }

  lemma StandsForExactly(resource: string, action: string, scope: string)
    ensures StandsFor(resource, action, scope) <==> scope in ActionScopes(resource, action)
  {
    hide LegacyScopes, REPLACEMENTS;
    LegacyScopesAreReplacements(resource, action, scope);
    LegacyExactlyIf(resource, action);
  }

  ghost predicate IsGranted(input: Input, scope: string) {
    exists resource, action | Lists(input, resource, action) :: StandsFor(resource, action, scope)
  }

  /** Proper resources with their granted actions, each list in the order of UTF-16 code units and without repetition. */
  ghost predicate IsCanonical(input: Input, permissions: Permissions) {
    && (forall resource | resource in permissions ::
          resource != "" && ':' !in resource && permissions[resource] != [] && UnitsAscend(permissions[resource]))
    && (forall resource, action | resource != "" && ':' !in resource ::
          (resource in permissions && action in permissions[resource]) <==> IsGranted(input, resource + ":" + action))
  }

  ghost predicate UnitsAscend(actions: seq<string>) {
    forall i, j | 0 <= i < j < |actions| :: UnitsBefore(Utf16(actions[i]), Utf16(actions[j]))
  }

  lemma AscendingExactlyIf(actions: seq<string>)
    ensures Ascending(actions) <==> UnitsAscend(actions)
  {
    hide Before, UnitsBefore, Utf16;
    forall i, j | 0 <= i < j < |actions|
      ensures Before(actions[i], actions[j]) <==> UnitsBefore(Utf16(actions[i]), Utf16(actions[j]))
    {
      BeforeIsUtf16Order(actions[i], actions[j]);
    }
  }

  lemma ScopeIsGranted(input: Input, scope: string)
    ensures scope in Scopes(input) <==> IsGranted(input, scope)
  {
    hide Scopes, StandsFor, ActionScopes, Lists;
    ScopesComeFromActions(input, scope);
    forall resource, action ensures StandsFor(resource, action, scope) <==> scope in ActionScopes(resource, action) {
      StandsForExactly(resource, action, scope);
    }
  }

  lemma CanonicalIs(input: Input)
    ensures IsCanonical(input, Canonical(input))
  {
    hide Scopes, Grouped, SortedOf, FirstColon, Ascending, IsGranted, UnitsAscend;
    var permissions := Canonical(input);
    CanonicalGroups(input);
    forall resource | resource in permissions
      ensures resource != "" && ':' !in resource && permissions[resource] != [] && UnitsAscend(permissions[resource])
    {
      assert ListIsProper(resource, permissions[resource]);
      AscendingExactlyIf(permissions[resource]);
    }
    forall resource, action | resource != "" && ':' !in resource
      ensures (resource in permissions && action in permissions[resource]) <==> IsGranted(input, resource + ":" + action)
    {
      JoinAndSplit(resource, action);
      ScopeIsGranted(input, resource + ":" + action);
    }
  }

  /** The description determines the canonical form, so `canonicalizeApiKeyPermissions` computes what it describes. */
  lemma CanonicalExactlyIf(input: Input, permissions: Permissions)
    ensures permissions == Canonical(input) <==> IsCanonical(input, permissions)
  {
    hide Canonical, IsGranted, UnitsAscend;
    CanonicalIs(input);
    if IsCanonical(input, permissions) {
      var canonical := Canonical(input);
      forall resource ensures resource in permissions <==> resource in canonical {
        if resource in permissions {
          assert permissions[resource][0] in permissions[resource];
        }
        if resource in canonical {
          assert canonical[resource][0] in canonical[resource];
        }
      }
      forall resource | resource in permissions ensures permissions[resource] == canonical[resource] {
        AscendingExactlyIf(permissions[resource]);
        AscendingExactlyIf(canonical[resource]);
        AscendingListsAreUnique(permissions[resource], canonical[resource]);
      }
    }
  }

  // The change test.

  /** A list of strings under a proper resource, none of them of the old vocabulary, and at least one. */
  ghost predicate IsPresent(resource: string, entry: ApiKeyPermissions.Entry) {
    && resource != "" && ':' !in resource && entry.Actions?
    && (exists action :: Name(action) in entry.items)
    && forall action | Name(action) in entry.items :: !IsLegacy(resource, action)
  }

  ghost predicate AllPresent(input: Input) {
    forall resource | resource in input :: IsPresent(resource, input[resource])
  }

  lemma NamesAre(items: seq<Item>, action: string)
    ensures action in NamesIn(items) <==> Name(action) in items
  {
    if Name(action) in items {
      var i :| 0 <= i < |items| && items[i] == Name(action);
      assert items[i].text in NamesIn(items);
    }
  }

  /** Where every entry is present, the canonical form lists just what the entries list. */
  lemma PresentEntriesStay(input: Input, resource: string, action: string)
    requires AllPresent(input)
    ensures (resource in Canonical(input) && action in Canonical(input)[resource]) <==> Lists(input, resource, action)
  {
    hide Canonical, REPLACEMENTS;
    CanonicalIs(input);
    if resource in Canonical(input) && action in Canonical(input)[resource] {
      var r, a :| Lists(input, r, a) && StandsFor(r, a, resource + ":" + action);
      assert IsPresent(r, input[r]);
      JoinAndSplit(resource, action);
      JoinAndSplit(r, a);
    }
    if Lists(input, resource, action) {
      assert IsPresent(resource, input[resource]) && StandsFor(resource, action, resource + ":" + action);
    }
  }

  lemma PresentEntrySerializes(input: Input, resource: string)
    requires AllPresent(input) && resource in input
    ensures resource in Canonical(input)
    ensures SerializedEntry(input[resource]) == SerializedEntry(AsInput(Canonical(input))[resource])
  {
    hide Canonical, SortedOf, IsLegacy;
    assert IsPresent(resource, input[resource]);
    var items := input[resource].items;
    var some :| Name(some) in items;
    PresentEntriesStay(input, resource, some);
    var actions := Canonical(input)[resource];
    var stored := AsInput(Canonical(input))[resource].items;
    forall action ensures action in NamesIn(items) <==> action in NamesIn(stored) {
      PresentEntriesStay(input, resource, action);
      NamesAre(items, action);
      NamesAre(stored, action);
      InputLists(Canonical(input), resource, action);
    }
    assert NamesIn(items) == NamesIn(stored);
  }

  lemma UnchangedEntryIsPresent(input: Input, resource: string)
    requires Serialize(input) == Serialize(AsInput(Canonical(input))) && resource in input
    ensures IsPresent(resource, input[resource])
  {
    hide Canonical, REPLACEMENTS, LegacyScopes, SortedOf, IsLegacy;
    CanonicalIs(input);
    assert resource in Serialize(input) && resource in AsInput(Canonical(input));
    assert SerializedEntry(input[resource]) == Serialize(input)[resource] ==
      SerializedEntry(AsInput(Canonical(input))[resource]);
    var items, stored := input[resource].items, AsInput(Canonical(input))[resource].items;
    assert NamesIn(items) == NamesIn(stored) by {
      assert SortedOf(NamesIn(items)) == SortedOf(NamesIn(stored));
    }
    var first := Canonical(input)[resource][0];
    assert first in Canonical(input)[resource];
    InputLists(Canonical(input), resource, first);
    NamesAre(stored, first);
    NamesAre(items, first);
    forall action | Name(action) in items ensures !IsLegacy(resource, action) {
      NamesAre(items, action);
      NamesAre(stored, action);
      InputLists(Canonical(input), resource, action);
      ScopeIsGranted(input, ScopeName(resource, action));
      CollectedScopesArePresent(input, resource, action);
      LegacyExactlyIf(resource, action);
    }
  }

  /** A row is changed exactly if it can be read and some entry is not present; order and repetition play no part. */
  lemma NeedsChangeExactlyIf(row: Row)
    ensures NeedsChange(row) <==> row.permissions.Readable? && !AllPresent(row.permissions.input)
  {
    hide Canonical, SerializedEntry, IsPresent;
    if row.permissions.Readable? {
      var input := row.permissions.input;
      if AllPresent(input) {
        forall resource ensures resource in input <==> resource in Canonical(input) {
          if resource in input {
            PresentEntrySerializes(input, resource);
          }
          if resource in Canonical(input) {
            CanonicalHasActions(input, resource);
            PresentEntriesStay(input, resource, Canonical(input)[resource][0]);
          }
        }
        assert Serialize(input) == Serialize(AsInput(Canonical(input))) by {
          forall resource | resource in input
            ensures SerializedEntry(input[resource]) == SerializedEntry(AsInput(Canonical(input))[resource])
          {
            PresentEntrySerializes(input, resource);
          }
        }
      }
      if Serialize(input) == Serialize(AsInput(Canonical(input))) {
        forall resource | resource in input ensures IsPresent(resource, input[resource]) {
          UnchangedEntryIsPresent(input, resource);
        }
      }
    }
  }

  lemma CanonicalHasActions(input: Input, resource: string)
    requires resource in Canonical(input)
    ensures Canonical(input)[resource] != [] && Canonical(input)[resource][0] in Canonical(input)[resource]
  {
    hide Canonical, IsGranted;
    CanonicalIs(input);
  }
}
