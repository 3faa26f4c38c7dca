/** The canonical form of API key permissions, what it grants, and the backfill that brings stored keys to it. */
module ApiKeyPermissions {
  import opened Wrappers

  // Text order, by UTF-16 code units.

  /**
   * The place of a character in that order: a character beyond the first 65536 starts with a surrogate, which comes
   * after 0xD7FF and before 0xE000, and such characters are among themselves in the order of their numbers.
   */
  function Rank(c: char): nat {
    var n := c as int;
    if n < 0xD800 then n else if n >= 0x1_0000 then n - 0x2800 else n + 0x10_0000 - 0x800
  }

  lemma RanksDiffer(c: char, d: char)
    ensures Rank(c) == Rank(d) <==> c == d
  {
  }

  predicate Before(a: string, b: string) {
    if b == [] then false
    else if a == [] then true
    else Rank(a[0]) < Rank(b[0]) || (a[0] == b[0] && Before(a[1..], b[1..]))
  }

  lemma {:induction false} BeforeIsTotal(a: string, b: string)
    ensures Before(a, b) || a == b || Before(b, a)
    ensures !(Before(a, b) && Before(b, a)) && !Before(a, a)
    decreases |a|
  {
    if a != [] {
      BeforeIsTotal(a[1..], a[1..]);
      if b != [] {
        RanksDiffer(a[0], b[0]);
        BeforeIsTotal(a[1..], b[1..]);
        if a[0] == b[0] && a[1..] == b[1..] {
          assert a == [a[0]] + a[1..] && b == [b[0]] + b[1..];
        }
      }
    }
  }

  lemma {:induction false} BeforeIsTransitive(a: string, b: string, c: string)
    requires Before(a, b) && Before(b, c)
    ensures Before(a, c)
    decreases |a|
  {
    if a != [] && a[0] == b[0] && b[0] == c[0] {
      BeforeIsTransitive(a[1..], b[1..], c[1..]);
    }
  }

  lemma {:induction false} SamePrefixOrder(prefix: string, a: string, b: string)
    ensures Before(prefix + a, prefix + b) <==> Before(a, b)
    decreases |prefix|
  {
    if prefix == [] {
      assert prefix + a == a && prefix + b == b;
    } else {
      assert (prefix + a)[1..] == prefix[1..] + a && (prefix + b)[1..] == prefix[1..] + b;
      SamePrefixOrder(prefix[1..], a, b);
    }
  }

  predicate Ascending(texts: seq<string>) {
    forall i, j | 0 <= i < j < |texts| :: Before(texts[i], texts[j])
  }

  /** Sorting by insertion; a text that is there already is not added again. */
  function Insert(x: string, sorted: seq<string>): seq<string> {
    if sorted == [] then [x]
    else if x == sorted[0] then sorted
    else if Before(x, sorted[0]) then [x] + sorted
    else [sorted[0]] + Insert(x, sorted[1..])
  }

  lemma {:induction false} InsertKeepsOrder(x: string, sorted: seq<string>)
    requires Ascending(sorted)
    ensures Ascending(Insert(x, sorted))
    ensures forall y :: y in Insert(x, sorted) <==> (y == x || y in sorted)
  {
    if sorted != [] {
      var first, rest := sorted[0], sorted[1..];
      assert sorted == [first] + rest;
      BeforeIsTotal(x, first);
      if Before(x, first) {
        forall j | 0 <= j < |sorted| ensures Before(x, sorted[j]) {
          if j > 0 {
            BeforeIsTransitive(x, first, sorted[j]);
          }
        }
      } else if x != first {
        InsertKeepsOrder(x, rest);
        var after := Insert(x, rest);
        forall j | 0 <= j < |after| ensures Before(first, after[j]) {
          assert after[j] in after;
          if after[j] != x {
            var k :| 0 <= k < |rest| && rest[k] == after[j];
            assert sorted[k + 1] == after[j];
          }
        }
        assert Insert(x, sorted) == [first] + after;
      }
    }
  }

  /** An ascending list is determined by what it holds. */
  lemma {:induction false} AscendingListsAreUnique(a: seq<string>, b: seq<string>)
    requires Ascending(a) && Ascending(b) && forall x :: x in a <==> x in b
    ensures a == b
    decreases |a|
  {
    if a != [] {
      assert a[0] in b;
      FirstIsLeast(a, b);
      FirstIsLeast(b, a);
      BeforeIsTotal(a[0], b[0]);
      assert a == [a[0]] + a[1..] && b == [b[0]] + b[1..];
      forall x ensures x in a[1..] <==> x in b[1..] {
        RestHoldsTheOthers(a, x);
        RestHoldsTheOthers(b, x);
      }
      AscendingListsAreUnique(a[1..], b[1..]);
    }
    assert b != [] ==> b[0] in b;
  }

  lemma FirstIsLeast(a: seq<string>, b: seq<string>)
    requires a != [] && b != [] && Ascending(b) && a[0] in b
    ensures b[0] == a[0] || Before(b[0], a[0])
  {
    var i :| 0 <= i < |b| && b[i] == a[0];
  }

  lemma RestHoldsTheOthers(a: seq<string>, x: string)
    requires a != [] && Ascending(a)
    ensures x in a[1..] <==> (x in a && x != a[0])
  {
    assert a == [a[0]] + a[1..];
    if x in a[1..] {
      var i :| 0 <= i < |a[1..]| && a[1..][i] == x;
      assert a[i + 1] == x;
      BeforeIsTotal(a[0], x);
    }
  }

  /** The elements of a set in ascending order. */
  ghost function SortedOf(s: set<string>): (sorted: seq<string>)
    ensures Ascending(sorted) && forall x :: x in sorted <==> x in s
  {
    if s == {} then []
    else
      var x :| x in s;
      var rest := SortedOf(s - {x});
      InsertKeepsOrder(x, rest);
      Insert(x, rest)
  }

  /** `[...set].sort()`. */
  method Sort(s: set<string>) returns (sorted: seq<string>)
    ensures sorted == SortedOf(s)
  {
    var pending := s;
    sorted := [];
    while pending != {}
      invariant pending <= s && Ascending(sorted)
      invariant forall x :: x in sorted <==> x in s - pending
    {
      var x :| x in pending;
      InsertKeepsOrder(x, sorted);
      sorted := Insert(x, sorted);
      pending := pending - {x};
    }
    AscendingListsAreUnique(sorted, SortedOf(s));
  }

  // Stored permissions.

  /** What a stored action list may hold; anything but a string is skipped. */
  datatype Item = Name(text: string) | Junk

  datatype Entry = Actions(items: seq<Item>) | NoList(json: string)

  /** Permissions as parsed: for each resource a list of actions, or some other value. */
  type Input = map<string, Entry>

  type Permissions = map<string, seq<string>>

  /** The scopes that replace an action of the old vocabulary; none for an action of the present one. */
  function LegacyScopes(resource: string, action: string): set<string> {
    if resource == "ihost" && action == "upload" then {"images:upload"}
    else if resource == "webdav" && action == "read" then {"objects:read"}
    else if resource == "webdav" && action == "write" then {"objects:create", "objects:update", "objects:delete"}
    else if resource == "remoteDownload" && action == "read" then {"download-tasks:read"}
    else if resource == "remoteDownload" && action == "create" then {"download-tasks:create"}
    else if resource == "remoteDownload" && action == "cancel" then {"download-tasks:cancel"}
    else {}
  }

  function ScopeName(resource: string, action: string): string {
    resource + ":" + action
  }

  /** The scopes one stored action stands for. */
  function ActionScopes(resource: string, action: string): set<string> {
    if LegacyScopes(resource, action) != {} then LegacyScopes(resource, action) else {ScopeName(resource, action)}
  }

  predicate Lists(input: Input, resource: string, action: string) {
    resource in input && input[resource].Actions? && Name(action) in input[resource].items
  }

  function EntryScopes(resource: string, entry: Entry): set<string> {
    if entry.Actions? then
      set i, s | 0 <= i < |entry.items| && entry.items[i].Name? && s in ActionScopes(resource, entry.items[i].text) :: s
    else {}
  }

  function Scopes(input: Input): set<string> {
    set resource, s | resource in input && s in EntryScopes(resource, input[resource]) :: s
  }

  /** A scope is collected exactly when some listed action stands for it. */
  lemma ScopesComeFromActions(input: Input, scope: string)
    ensures scope in Scopes(input) <==>
      exists resource, action :: Lists(input, resource, action) && scope in ActionScopes(resource, action)
  {
    if scope in Scopes(input) {
      var resource :| resource in input && scope in EntryScopes(resource, input[resource]);
      var items := input[resource].items;
      var i :| 0 <= i < |items| && items[i].Name? && scope in ActionScopes(resource, items[i].text);
      assert Lists(input, resource, items[i].text);
    }
    if resource, action :| Lists(input, resource, action) && scope in ActionScopes(resource, action) {
      var items := input[resource].items;
      var i :| 0 <= i < |items| && items[i] == Name(action);
      assert scope in EntryScopes(resource, input[resource]);
    }
  }

  // Grouping scopes by resource.

  /** `scope.indexOf(':')`, or the length when there is none. */
  function FirstColon(scope: string): (at: nat)
    ensures at <= |scope| && (at < |scope| ==> scope[at] == ':') && ':' !in scope[..at]
  {
    if scope == [] then 0
    else if scope[0] == ':' then 0
    else
      var at := FirstColon(scope[1..]) + 1;
      assert scope[..at] == [scope[0]] + scope[1..][..at - 1];
      at
  }

  /** The scope names a resource: its first colon is neither missing nor in front. */
  predicate Splits(scope: string) {
    0 < FirstColon(scope) < |scope|
  }

  function ResourceOf(scope: string): string {
    scope[..FirstColon(scope)]
  }

  function ActionOf(scope: string): string
    requires Splits(scope)
  {
    scope[FirstColon(scope) + 1..]
  }

  lemma SplitAndJoin(scope: string)
    requires Splits(scope)
    ensures ScopeName(ResourceOf(scope), ActionOf(scope)) == scope
    ensures ResourceOf(scope) != "" && ':' !in ResourceOf(scope)
  {
    var at := FirstColon(scope);
    assert scope == scope[..at] + [scope[at]] + scope[at + 1..];
  }

  lemma {:induction false} FirstColonAfter(resource: string, action: string)
    requires ':' !in resource
    ensures FirstColon(ScopeName(resource, action)) == |resource|
    decreases |resource|
  {
    var scope := ScopeName(resource, action);
    if resource == [] {
      assert scope[0] == ':';
    } else {
      assert scope[0] == resource[0] && resource[0] in resource && scope[1..] == ScopeName(resource[1..], action);
      FirstColonAfter(resource[1..], action);
    }
  }

  lemma JoinAndSplit(resource: string, action: string)
    requires resource != "" && ':' !in resource
    ensures var scope := ScopeName(resource, action);
      Splits(scope) && ResourceOf(scope) == resource && ActionOf(scope) == action
  {
    var scope := ScopeName(resource, action);
    FirstColonAfter(resource, action);
    assert scope[..|resource|] == resource && scope[|resource| + 1..] == action;
  }

  function Listed(permissions: Permissions, resource: string): seq<string> {
    if resource in permissions then permissions[resource] else []
  }

  /** The action is appended under its resource; a scope that does not split is dropped. */
  function WithScope(before: Permissions, scope: string): Permissions {
    if Splits(scope) then before[ResourceOf(scope) := Listed(before, ResourceOf(scope)) + [ActionOf(scope)]] else before
  }

  function Grouped(scopes: seq<string>): Permissions {
    if scopes == [] then map[] else WithScope(Grouped(scopes[..|scopes| - 1]), scopes[|scopes| - 1])
  }

  ghost predicate ListIsProper(resource: string, actions: seq<string>) {
    resource != "" && ':' !in resource && actions != [] && Ascending(actions)
  }

  /** What a grouping of ascending scopes holds: exactly their actions, in ascending order, under proper resources. */
  ghost predicate Groups(permissions: Permissions, scopes: seq<string>) {
    && (forall resource | resource in permissions :: ListIsProper(resource, permissions[resource]))
    && (forall resource, action | resource in permissions ::
          action in permissions[resource] <==> ScopeName(resource, action) in scopes)
    && (forall scope | scope in scopes && Splits(scope) :: ResourceOf(scope) in permissions)
  }

  lemma {:induction false} GroupedGroups(scopes: seq<string>)
    requires Ascending(scopes)
    ensures Groups(Grouped(scopes), scopes)
    decreases |scopes|
  {
    hide Before, Groups, WithScope;
    if scopes == [] {
      NothingGroups();
    } else {
      var init, scope := scopes[..|scopes| - 1], scopes[|scopes| - 1];
      assert scopes == init + [scope];
      AscendingPrefix(init, scope);
      GroupedGroups(init);
      if Splits(scope) {
        GroupOneMore(Grouped(init), init, scope);
      } else {
        GroupDropped(Grouped(init), init, scope);
      }
    }
  }

  lemma NothingGroups()
    ensures Groups(map[], [])
  {
  }

  lemma AscendingPrefix(init: seq<string>, last: string)
    requires Ascending(init + [last])
    ensures Ascending(init)
  {
    hide Before;
    forall i, j | 0 <= i < j < |init| ensures Before(init[i], init[j]) {
      assert (init + [last])[i] == init[i] && (init + [last])[j] == init[j];
    }
  }

  /** A scope that does not split names nothing. */
  lemma GroupDropped(before: Permissions, init: seq<string>, scope: string)
    requires Groups(before, init) && !Splits(scope)
    ensures Groups(WithScope(before, scope), init + [scope])
  {
    hide Splits, Ascending;
    forall r, a | r in before ensures a in before[r] <==> ScopeName(r, a) in init + [scope] {
      assert ListIsProper(r, before[r]);
      JoinAndSplit(r, a);
    }
  }

  lemma GroupOneMore(before: Permissions, init: seq<string>, scope: string)
    requires Groups(before, init) && Ascending(init + [scope]) && Splits(scope)
    ensures Groups(WithScope(before, scope), init + [scope])
  {
    hide Before, FirstColon, Splits, Ascending, ResourceOf, ActionOf, ScopeName;
    var after := WithScope(before, scope);
    SplitAndJoin(scope);
    ActionsStayAscending(before, init, scope);
    forall r, a | r in after ensures a in after[r] <==> ScopeName(r, a) in init + [scope] {
      if r in before {
        KnownResource(before, init, scope, r, a);
      } else {
        NewResource(before, init, scope, a);
      }
    }
  }

  /** A resource that had actions before holds the new one exactly if the scope names it. */
  lemma KnownResource(before: Permissions, init: seq<string>, scope: string, r: string, a: string)
    requires Groups(before, init) && Splits(scope) && r in before
    ensures a in WithScope(before, scope)[r] <==> ScopeName(r, a) in init + [scope]
  {
    hide Before, FirstColon, Ascending, ScopeName;
    assert ListIsProper(r, before[r]);
    JoinAndSplit(r, a);
    SplitAndJoin(scope);
  }

  /** A resource without actions before holds just the new one. */
  lemma NewResource(before: Permissions, init: seq<string>, scope: string, a: string)
    requires Groups(before, init) && Splits(scope) && ResourceOf(scope) !in before
    ensures a in WithScope(before, scope)[ResourceOf(scope)] <==> ScopeName(ResourceOf(scope), a) in init + [scope]
  {
    hide Before, FirstColon, Ascending, ScopeName;
    SplitAndJoin(scope);
    JoinAndSplit(ResourceOf(scope), a);
    assert ScopeName(ResourceOf(scope), a) !in init;
  }

  lemma ActionsStayAscending(before: Permissions, init: seq<string>, scope: string)
    requires Groups(before, init) && Ascending(init + [scope]) && Splits(scope)
    ensures Ascending(Listed(before, ResourceOf(scope)) + [ActionOf(scope)])
  {
    hide Before, FirstColon;
    var resource, action := ResourceOf(scope), ActionOf(scope);
    SplitAndJoin(scope);
    var listed := Listed(before, resource);
    forall i | 0 <= i < |listed| ensures Before(listed[i], action) {
      assert listed[i] in listed;
      var k :| 0 <= k < |init| && init[k] == ScopeName(resource, listed[i]);
      assert Before((init + [scope])[k], (init + [scope])[|init|]);
      assert ScopeName(resource, listed[i]) == (resource + ":") + listed[i] && scope == (resource + ":") + action;
      SamePrefixOrder(resource + ":", listed[i], action);
    }
  }

  // The canonical form.

  ghost function Canonical(input: Input): Permissions {
    Grouped(SortedOf(Scopes(input)))
  }

  /** `canonicalizeApiKeyPermissions`. */
  method Canonicalize(input: Input) returns (permissions: Permissions)
    ensures permissions == Canonical(input)
  {
    hide FirstColon, SortedOf, LegacyScopes, ScopeName;
    var scopes: set<string> := {};
    var pending := input.Keys;
    while pending != {}
      invariant pending <= input.Keys
      invariant forall s :: s in scopes <==> exists r | r in input.Keys - pending :: s in EntryScopes(r, input[r])
    {
      var resource :| resource in pending;
      pending := pending - {resource};
      if input[resource].NoList? {
        continue;
      }
      var items := input[resource].items;
      ghost var before := scopes;
      for i := 0 to |items|
        invariant forall s :: s in scopes <==>
          (s in before || exists j | 0 <= j < i :: items[j].Name? && s in ActionScopes(resource, items[j].text))
      {
        if items[i].Junk? {
          continue;
        }
        var legacy := LegacyScopes(resource, items[i].text);
        scopes := scopes + (if legacy != {} then legacy else {ScopeName(resource, items[i].text)});
      }
      assert forall s :: s in scopes <==> (s in before || s in EntryScopes(resource, input[resource]));
    }
    assert scopes == Scopes(input);
    var sorted := Sort(scopes);
    permissions := map[];
    for i := 0 to |sorted|
      invariant permissions == Grouped(sorted[..i])
    {
      var scope := sorted[i];
      assert sorted[..i + 1][..i] == sorted[..i];
      if !Splits(scope) {
        continue;
      }
      permissions := permissions[ResourceOf(scope) := Listed(permissions, ResourceOf(scope)) + [ActionOf(scope)]];
    }
    assert sorted[..|sorted|] == sorted;
  }

  // What permissions grant.

  /** `hasAuthorizationScope`. */
  predicate HasScope(permissions: Permissions, scope: string) {
    Splits(scope) && ResourceOf(scope) in permissions && ActionOf(scope) in permissions[ResourceOf(scope)]
  }

  lemma CanonicalGroups(input: Input)
    ensures Groups(Canonical(input), SortedOf(Scopes(input)))
  {
    GroupedGroups(SortedOf(Scopes(input)));
  }

  /**
   * Canonical permissions grant exactly the present scopes that are listed and the expansions of the legacy actions that
   * are listed.
   */
  lemma CanonicalGrants(input: Input, scope: string)
    requires Splits(scope)
    ensures HasScope(Canonical(input), scope) <==>
      exists resource, action :: Lists(input, resource, action)
        && if LegacyScopes(resource, action) != {} then scope in LegacyScopes(resource, action)
           else scope == ScopeName(resource, action)
  {
    hide LegacyScopes, Grouped, SortedOf, FirstColon;
    CanonicalGroups(input);
    SplitAndJoin(scope);
    ScopesComeFromActions(input, scope);
    assert HasScope(Canonical(input), scope) <==> scope in Scopes(input);
    forall resource, action
      ensures scope in ActionScopes(resource, action) <==>
        if LegacyScopes(resource, action) != {} then scope in LegacyScopes(resource, action)
        else scope == ScopeName(resource, action)
    {
    }
  }

  /** `scopePermissions` of any list of scopes grants those scopes and no others. */
  lemma {:induction false} GroupedGrants(scopes: seq<string>, scope: string)
    requires Splits(scope)
    ensures HasScope(Grouped(scopes), scope) <==> scope in scopes
    decreases |scopes|
  {
    hide FirstColon;
    if scopes != [] {
      var init, last := scopes[..|scopes| - 1], scopes[|scopes| - 1];
      assert scopes == init + [last];
      GroupedGrants(init, scope);
      SplitAndJoin(scope);
      if Splits(last) {
        SplitAndJoin(last);
      }
    }
  }

  // The canonical form is its own canonical form.

  function AsInput(permissions: Permissions): (input: Input)
    ensures input.Keys == permissions.Keys
  {
    map resource | resource in permissions ::
      Actions(seq(|permissions[resource]|, i requires 0 <= i < |permissions[resource]| => Name(permissions[resource][i])))
  }

  lemma InputLists(permissions: Permissions, resource: string, action: string)
    ensures Lists(AsInput(permissions), resource, action) <==>
      resource in permissions && action in permissions[resource]
  {
    if resource in permissions {
      var items := AsInput(permissions)[resource].items;
      assert forall i | 0 <= i < |items| :: items[i] == Name(permissions[resource][i]);
      if action in permissions[resource] {
        var i :| 0 <= i < |permissions[resource]| && permissions[resource][i] == action;
        assert items[i] == Name(action);
      }
      if Name(action) in items {
        var i :| 0 <= i < |items| && items[i] == Name(action);
        assert permissions[resource][i] == action;
      }
    }
  }

  /** No collected scope spells a legacy action: those are expanded, and their resources hold no colon. */
  lemma CollectedScopesArePresent(input: Input, resource: string, action: string)
    requires resource != "" && ':' !in resource && ScopeName(resource, action) in Scopes(input)
    ensures LegacyScopes(resource, action) == {}
  {
    hide Scopes, FirstColon;
    var scope := ScopeName(resource, action);
    ScopesComeFromActions(input, scope);
    var r, a :| Lists(input, r, a) && scope in ActionScopes(r, a);
    if LegacyScopes(r, a) == {} {
      FirstColonAfter(resource, action);
      if ':' !in r {
        FirstColonAfter(r, a);
        assert scope[..|resource|] == resource && scope[..|r|] == r;
        assert scope[|resource| + 1..] == action && scope[|r| + 1..] == a;
      } else {
        OtherColonPlacesDiffer(resource, action, r, a);
      }
    } else {
      ExpansionsArePresent(r, a, scope);
      SpelledOnce(resource, action, scope);
    }
  }

  /** A resource with a colon spells the same scope only when the action has a colon too, and then is no legacy action. */
  lemma OtherColonPlacesDiffer(resource: string, action: string, r: string, a: string)
    requires ':' !in resource && ':' in r && ScopeName(resource, action) == ScopeName(r, a)
    ensures LegacyScopes(resource, action) == {}
  {
    var scope := ScopeName(resource, action);
    var at :| 0 <= at < |r| && r[at] == ':';
    assert scope[|r|] == ':' && scope[at] == ':';
    forall k | 0 <= k < |resource| ensures scope[k] != ':' {
      assert scope[k] == resource[k] && resource[k] in resource;
    }
    assert action[|r| - |resource| - 1] == ':' && ':' in action;
    LegacyActionsHoldNoColon(resource, action);
  }

  lemma LegacyActionsHoldNoColon(resource: string, action: string)
    requires ':' in action
    ensures LegacyScopes(resource, action) == {}
  {
  }

  lemma ExpansionsArePresent(r: string, a: string, scope: string)
    requires scope in LegacyScopes(r, a)
    ensures scope in {"images:upload", "objects:read", "objects:create", "objects:update", "objects:delete",
                      "download-tasks:read", "download-tasks:create", "download-tasks:cancel"}
  {
  }

  lemma SpelledOnce(resource: string, action: string, scope: string)
    requires ':' !in resource && scope == ScopeName(resource, action)
    requires scope in {"images:upload", "objects:read", "objects:create", "objects:update", "objects:delete",
                       "download-tasks:read", "download-tasks:create", "download-tasks:cancel"}
    ensures LegacyScopes(resource, action) == {}
  {
    if resource != "" {
      assert scope[0] == resource[0];
    }
  }

  /** So the scopes of a canonical form are those it was made of. */
  lemma ScopesOfCanonical(input: Input, scope: string)
    ensures scope in Scopes(AsInput(Canonical(input))) <==> (scope in Scopes(input) && Splits(scope))
  {
    hide Scopes, FirstColon, Grouped, SortedOf, LegacyScopes;
    var permissions := Canonical(input);
    CanonicalGroups(input);
    ScopesComeFromActions(AsInput(permissions), scope);
    if scope in Scopes(AsInput(permissions)) {
      var r, a :| Lists(AsInput(permissions), r, a) && scope in ActionScopes(r, a);
      InputLists(permissions, r, a);
      CollectedScopesArePresent(input, r, a);
      JoinAndSplit(r, a);
    }
    if scope in Scopes(input) && Splits(scope) {
      var r, a := ResourceOf(scope), ActionOf(scope);
      SplitAndJoin(scope);
      InputLists(permissions, r, a);
      CollectedScopesArePresent(input, r, a);
      assert Lists(AsInput(permissions), r, a) && scope in ActionScopes(r, a);
    }
  }

  lemma SameGroups(a: Permissions, b: Permissions, x: seq<string>, y: seq<string>)
    requires Groups(a, x) && Groups(b, y)
    requires forall scope | Splits(scope) :: scope in x <==> scope in y
    ensures a == b
  {
    hide FirstColon;
    forall resource ensures resource in a <==> resource in b {
      if resource in a {
        assert a[resource][0] in a[resource];
        JoinAndSplit(resource, a[resource][0]);
      }
      if resource in b {
        assert b[resource][0] in b[resource];
        JoinAndSplit(resource, b[resource][0]);
      }
    }
    forall resource | resource in a ensures a[resource] == b[resource] {
      forall action ensures action in a[resource] <==> action in b[resource] {
        JoinAndSplit(resource, action);
      }
      AscendingListsAreUnique(a[resource], b[resource]);
    }
  }

  /** `canonicalizeApiKeyPermissions` is idempotent, on every input. */
  lemma CanonicalIsIdempotent(input: Input)
    ensures Canonical(AsInput(Canonical(input))) == Canonical(input)
  {
    hide Groups, Scopes, Splits;
    CanonicalGroups(input);
    CanonicalGroups(AsInput(Canonical(input)));
    forall scope | Splits(scope)
      ensures scope in SortedOf(Scopes(AsInput(Canonical(input)))) <==> scope in SortedOf(Scopes(input))
    {
      ScopesOfCanonical(input, scope);
    }
    SameGroups(Canonical(AsInput(Canonical(input))), Canonical(input), SortedOf(Scopes(AsInput(Canonical(input)))),
               SortedOf(Scopes(input)));
  }

  // Serialization, and the backfill.

  /** A serialized entry: the strings of the list, once each and ascending, or the other value as it was. */
  datatype Serialized = Texts(actions: seq<string>) | Verbatim(json: string)

  type Normal = map<string, Serialized>

  function NamesIn(items: seq<Item>): set<string> {
    set i | 0 <= i < |items| && items[i].Name? :: items[i].text
  }

  ghost function SerializedEntry(entry: Entry): Serialized {
    match entry
    case Actions(items) => Texts(SortedOf(NamesIn(items)))
    case NoList(json) => Verbatim(json)
  }

  /** `serializeApiKeyPermissions`, as the object it prints: equal texts are equal objects. */
  ghost function Serialize(input: Input): Normal {
    map resource | resource in input :: SerializedEntry(input[resource])
  }

  /** The object a serialized text is parsed to. */
  function Parsed(normal: Normal): Input {
    map resource | resource in normal ::
      match normal[resource]
      case Texts(actions) => Actions(seq(|actions|, i requires 0 <= i < |actions| => Name(actions[i])))
      case Verbatim(json) => NoList(json)
  }

  lemma AscendingEntrySerializes(actions: seq<string>, items: seq<Item>)
    requires Ascending(actions) && |items| == |actions| && forall i | 0 <= i < |items| :: items[i] == Name(actions[i])
    ensures SerializedEntry(Actions(items)) == Texts(actions)
  {
    forall x ensures x in NamesIn(items) <==> x in actions {
      if x in actions {
        var i :| 0 <= i < |actions| && actions[i] == x;
        assert items[i].text in NamesIn(items);
      }
    }
    AscendingListsAreUnique(SortedOf(NamesIn(items)), actions);
  }

  /** Canonical permissions are written as they stand, and read back as they stand. */
  lemma CanonicalIsStoredAsItIs(input: Input)
    ensures Parsed(Serialize(AsInput(Canonical(input)))) == AsInput(Canonical(input))
  {
    hide Grouped, SortedOf, SerializedEntry;
    CanonicalGroups(input);
    var permissions := Canonical(input);
    var stored := AsInput(permissions);
    forall resource | resource in permissions ensures Parsed(Serialize(stored))[resource] == stored[resource] {
      AscendingEntrySerializes(permissions[resource], stored[resource].items);
    }
  }

  /** A stored value: absent, not an object, or an object. */
  datatype Stored = Absent | Unreadable | Readable(input: Input)

  datatype Row = Row(id: string, permissions: Stored)

  datatype Change = Change(id: string, after: Normal)

  ghost predicate NeedsChange(row: Row) {
    row.permissions.Readable? &&
    Serialize(row.permissions.input) != Serialize(AsInput(Canonical(row.permissions.input)))
  }

  ghost function ChangeOf(row: Row): Change
    requires row.permissions.Readable?
  {
    Change(row.id, Serialize(AsInput(Canonical(row.permissions.input))))
  }

  /** `backfillApiKeyScopePermissionsRows`: one change for every row whose canonical form is written differently. */
  ghost function Changes(rows: seq<Row>): seq<Change> {
    if rows == [] then []
    else
      var rest := Changes(rows[1..]);
      if NeedsChange(rows[0]) then [ChangeOf(rows[0])] + rest else rest
  }

  function Updated(row: Row, change: Change): Row {
    if row.id == change.id then Row(row.id, Readable(Parsed(change.after))) else row
  }

  function UpdateAll(rows: seq<Row>, change: Change): (r: seq<Row>)
    ensures |r| == |rows| && forall i | 0 <= i < |rows| :: r[i] == Updated(rows[i], change)
  {
    seq(|rows|, i requires 0 <= i < |rows| => Updated(rows[i], change))
  }

  /** `applyApiKeyScopeBackfill`: each change updates the row with its id. */
  function Applied(rows: seq<Row>, changes: seq<Change>): seq<Row>
    decreases |changes|
  {
    if changes == [] then rows else Applied(UpdateAll(rows, changes[0]), changes[1..])
  }

  ghost predicate DistinctRows(rows: seq<Row>) {
    forall i, j | 0 <= i < j < |rows| :: rows[i].id != rows[j].id
  }

  /** The row the backfill leaves in place of another. */
  ghost function Settled(row: Row): Row {
    if NeedsChange(row) then Row(row.id, Readable(AsInput(Canonical(row.permissions.input)))) else row
  }

  lemma SettledRowNeedsNoChange(row: Row)
    ensures !NeedsChange(Settled(row))
  {
    hide Canonical, Serialize;
    if NeedsChange(row) {
      CanonicalIsIdempotent(row.permissions.input);
    }
  }

  lemma UpdatedIsSettled(row: Row)
    requires NeedsChange(row)
    ensures Updated(row, ChangeOf(row)) == Settled(row)
  {
    hide Canonical, Serialize, Parsed;
    CanonicalIsStoredAsItIs(row.permissions.input);
  }

  lemma {:induction false} ChangesNameTheirRows(rows: seq<Row>)
    ensures forall change | change in Changes(rows) :: exists i | 0 <= i < |rows| :: rows[i].id == change.id
  {
    hide NeedsChange, ChangeOf;
    if rows != [] {
      ChangesNameTheirRows(rows[1..]);
      forall change | change in Changes(rows) ensures exists i | 0 <= i < |rows| :: rows[i].id == change.id {
        if change in Changes(rows[1..]) {
          var i :| 0 <= i < |rows[1..]| && rows[1..][i].id == change.id;
          assert rows[i + 1].id == change.id;
        } else {
          ChangeNamesItsRow(rows[0]);
          assert rows[0].id == change.id;
        }
      }
    }
  }

  lemma ChangeNamesItsRow(row: Row)
    ensures NeedsChange(row) ==> row.permissions.Readable? && ChangeOf(row).id == row.id
  {
  }

  lemma {:induction false} OtherRowsAreUntouched(rows: seq<Row>, changes: seq<Change>)
    requires forall change, i | change in changes && 0 <= i < |rows| :: rows[i].id != change.id
    ensures Applied(rows, changes) == rows
    decreases |changes|
  {
    if changes != [] {
      assert changes[0] in changes;
      assert UpdateAll(rows, changes[0]) == rows;
      OtherRowsAreUntouched(rows, changes[1..]);
    }
  }

  lemma {:induction false} AppliedToParts(first: seq<Row>, rest: seq<Row>, changes: seq<Change>)
    ensures Applied(first + rest, changes) == Applied(first, changes) + Applied(rest, changes)
    decreases |changes|
  {
    if changes != [] {
      assert UpdateAll(first + rest, changes[0]) == UpdateAll(first, changes[0]) + UpdateAll(rest, changes[0]);
      AppliedToParts(UpdateAll(first, changes[0]), UpdateAll(rest, changes[0]), changes[1..]);
    }
  }

  ghost function AllSettled(rows: seq<Row>): seq<Row> {
    if rows == [] then [] else [Settled(rows[0])] + AllSettled(rows[1..])
  }

  /** Applying the changes leaves every row settled, in one pass. */
  lemma {:induction false} OnePassSettles(rows: seq<Row>)
    requires DistinctRows(rows)
    ensures Applied(rows, Changes(rows)) == AllSettled(rows)
  {
    hide NeedsChange, Settled, ChangeOf, Updated;
    if rows != [] {
      var first, rest := [rows[0]], rows[1..];
      assert rows == first + rest;
      OnePassSettles(rest);
      ChangesNameTheirRows(rest);
      forall change, i | change in Changes(rest) && 0 <= i < |first| ensures first[i].id != change.id {
        var k :| 0 <= k < |rest| && rest[k].id == change.id;
        assert rows[k + 1].id == change.id;
      }
      FirstRowIsSettled(rows[0], rest, rows);
      if NeedsChange(rows[0]) {
        var change := ChangeOf(rows[0]);
        assert Changes(rows) == [change] + Changes(rest);
        assert ([change] + Changes(rest))[1..] == Changes(rest);
        var settled := [Settled(rows[0])];
        assert UpdateAll(rows, change) == settled + rest;
        AppliedToParts(settled, rest, Changes(rest));
        SettlingKeepsId(rows[0]);
        OtherRowsAreUntouched(settled, Changes(rest));
      } else {
        SettlingKeepsId(rows[0]);
        AppliedToParts(first, rest, Changes(rest));
        OtherRowsAreUntouched(first, Changes(rest));
      }
    }
  }

  lemma SettlingKeepsId(row: Row)
    ensures Settled(row).id == row.id && (!NeedsChange(row) ==> Settled(row) == row)
  {
  }

  lemma FirstRowIsSettled(row: Row, rest: seq<Row>, rows: seq<Row>)
    requires rows == [row] + rest && DistinctRows(rows)
    ensures NeedsChange(row) ==>
      row.permissions.Readable? && UpdateAll(rows, ChangeOf(row)) == [Settled(row)] + rest
  {
    hide NeedsChange, Settled;
    if NeedsChange(row) {
      ChangeNamesItsRow(row);
      UpdatedIsSettled(row);
      var after := UpdateAll(rows, ChangeOf(row));
      forall i | 0 < i < |rows| ensures after[i] == rows[i] {
        assert rows[0].id != rows[i].id;
      }
      assert after[0] == Settled(row);
    }
  }

  lemma {:induction false} SettledRowsNeedNoChange(rows: seq<Row>)
    ensures Changes(AllSettled(rows)) == []
  {
    hide NeedsChange, Settled;
    if rows != [] {
      SettledRowNeedsNoChange(rows[0]);
      SettledRowsNeedNoChange(rows[1..]);
      assert AllSettled(rows)[1..] == AllSettled(rows[1..]);
    }
  }

  /** After one application of its changes the backfill finds nothing left to change. */
  lemma BackfillReachesAFixpoint(rows: seq<Row>)
    requires DistinctRows(rows)
    ensures Changes(Applied(rows, Changes(rows))) == []
  {
    OnePassSettles(rows);
    SettledRowsNeedNoChange(rows);
  }

  // The run.

  method CollectNames(items: seq<Item>) returns (names: set<string>)
    ensures names == NamesIn(items)
  {
    names := {};
    for i := 0 to |items|
      invariant names == set j | 0 <= j < i && items[j].Name? :: items[j].text
    {
      if items[i].Name? {
        names := names + {items[i].text};
      }
    }
  }

  /** `serializeApiKeyPermissions`, resource by resource. */
  method SerializePermissions(input: Input) returns (normal: Normal)
    ensures normal == Serialize(input)
  {
    normal := map[];
    var pending := input.Keys;
    while pending != {}
      invariant pending <= input.Keys && normal.Keys == input.Keys - pending
      invariant forall resource | resource in normal :: normal[resource] == SerializedEntry(input[resource])
    {
      var resource :| resource in pending;
      pending := pending - {resource};
      match input[resource] {
        case Actions(items) =>
          var names := CollectNames(items);
          var actions := Sort(names);
          normal := normal[resource := Texts(actions)];
        case NoList(json) => normal := normal[resource := Verbatim(json)];
      }
    }
  }

  method BackfillRows(rows: seq<Row>) returns (changes: seq<Change>)
    ensures changes == Changes(rows)
  {
    hide Serialize, Canonical;
    changes := [];
    var i := |rows|;
    while i > 0
      invariant 0 <= i <= |rows|
      invariant changes == Changes(rows[i..])
    {
      i := i - 1;
      var row := rows[i];
      assert rows[i..][0] == row && rows[i..][1..] == rows[i + 1..];
      if row.permissions.Readable? {
        var after := Canonicalize(row.permissions.input);
        var beforeJson := SerializePermissions(row.permissions.input);
        var afterJson := SerializePermissions(AsInput(after));
        if beforeJson != afterJson {
          changes := [Change(row.id, afterJson)] + changes;
        }
      }
    }
    assert rows[0..] == rows;
  }

  datatype BackfillError = BackfillFailed(remaining: int)

  /** The stored keys. */
  class KeyTable {
    var rows: seq<Row>

    constructor (rows: seq<Row>)
      ensures this.rows == rows
    {
      this.rows := rows;
    }

    method ApplyChanges(changes: seq<Change>)
      modifies this
      ensures rows == Applied(old(rows), changes)
    {
      var i := 0;
      assert changes[0..] == changes;
      while i < |changes|
        invariant 0 <= i <= |changes|
        invariant Applied(rows, changes[i..]) == Applied(old(rows), changes)
      {
        assert changes[i..][0] == changes[i] && changes[i..][1..] == changes[i + 1..];
        rows := UpdateAll(rows, changes[i]);
        i := i + 1;
      }
      assert changes[i..] == [];
    }

    /** `runApiKeyScopeBackfill`: with no other writer the final failure cannot happen. */
    method RunBackfill(apply: bool) returns (result: Result<(), BackfillError>)
      requires DistinctRows(rows)
      modifies this
      ensures result.Ok?
      ensures rows == if apply then AllSettled(old(rows)) else old(rows)
      ensures apply ==> Changes(rows) == []
    {
      var changes := BackfillRows(rows);
      if !apply {
        return Ok(());
      }
      OnePassSettles(rows);
      BackfillReachesAFixpoint(rows);
      ApplyChanges(changes);
      var remaining := BackfillRows(rows);
      if |remaining| > 0 {
        return Err(BackfillFailed(|remaining|));
      }
      result := Ok(());
    }
  }

  /** A settled row grants what its listed actions stand for. */
  lemma SettledRowGrants(row: Row, scope: string)
    requires NeedsChange(row) && Splits(scope)
    ensures HasScope(Canonical(row.permissions.input), scope) <==> scope in Scopes(row.permissions.input)
    ensures Settled(row).permissions == Readable(AsInput(Canonical(row.permissions.input)))
    ensures scope in Scopes(Settled(row).permissions.input) <==> scope in Scopes(row.permissions.input)
  {
    hide Grouped, SortedOf, FirstColon, Serialize;
    CanonicalGroups(row.permissions.input);
    SplitAndJoin(scope);
    ScopesOfCanonical(row.permissions.input, scope);
  }

  lemma NamesAreListed(input: Input, resource: string, action: string)
    requires resource in input && input[resource].Actions?
    ensures action in NamesIn(input[resource].items) <==> Lists(input, resource, action)
  {
    var items := input[resource].items;
    if Name(action) in items {
      var i :| 0 <= i < |items| && items[i] == Name(action);
      assert items[i].text in NamesIn(items);
    }
  }

  lemma EqualNormalsListTheSame(a: Input, b: Input, resource: string, action: string)
    requires Serialize(a) == Serialize(b)
    ensures Lists(a, resource, action) <==> Lists(b, resource, action)
  {
    assert Serialize(a).Keys == a.Keys && Serialize(b).Keys == b.Keys;
    if resource in a {
      assert Serialize(a)[resource] == SerializedEntry(a[resource]) && Serialize(b)[resource] == SerializedEntry(b[resource]);
      if a[resource].Actions? {
        NamesAreListed(a, resource, action);
        NamesAreListed(b, resource, action);
        assert action in SortedOf(NamesIn(a[resource].items)) <==> action in SortedOf(NamesIn(b[resource].items));
      }
    }
  }

  /** A row the backfill leaves alone already lists exactly what its canonical form grants. */
  lemma UntouchedRowIsCanonical(row: Row, scope: string)
    requires row.permissions.Readable? && !NeedsChange(row) && Splits(scope)
    ensures Lists(row.permissions.input, ResourceOf(scope), ActionOf(scope)) <==>
      HasScope(Canonical(row.permissions.input), scope)
  {
    hide Canonical, FirstColon;
    var canonical := Canonical(row.permissions.input);
    EqualNormalsListTheSame(row.permissions.input, AsInput(canonical), ResourceOf(scope), ActionOf(scope));
    InputLists(canonical, ResourceOf(scope), ActionOf(scope));
  }
}
