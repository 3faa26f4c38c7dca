/** Merging the registered operations of one OpenAPI document into another, all or nothing. */
module OpenApiMerge {
  import opened Wrappers
  import opened Text
  import opened OpenApiValues
  import opened OpenApiImport
  import opened OpenApiOperations

  const METHODS: set<string> := {"delete", "get", "head", "options", "patch", "post", "put", "trace"}

  datatype MergeError =
    | DuplicateSource(registration: Registration)
    | DuplicateTarget(registration: Registration)
    | DuplicateOperationId(registration: Registration)
    | MissingTags(registration: Registration)
    | EmptyRequirements(registration: Registration)
    | SourceMissing(registration: Registration)
    | ParametersAreNoArray(registration: Registration)
    | OverrideFails(registration: Registration)
    | ImportFails(error: ImportError)
    | TargetIsNoPathItem(registration: Registration)
    | AlreadyDefined(registration: Registration)
    | ParametersConflict(registration: Registration)
    | OperationIdsClash
    | ImportedReferenceDangles

  // The registry.

  predicate DistinctSources(registry: Registry) {
    forall i, j | 0 <= i < j < |registry| ::
      (registry[i].verb, registry[i].sourcePath) != (registry[j].verb, registry[j].sourcePath)
  }

  predicate DistinctTargets(registry: Registry) {
    forall i, j | 0 <= i < j < |registry| ::
      (registry[i].verb, registry[i].publicPath) != (registry[j].verb, registry[j].publicPath)
  }

  predicate DistinctIds(registry: Registry) {
    forall i, j | 0 <= i < j < |registry| :: registry[i].operationId != registry[j].operationId
  }

  predicate WellFormed(registration: Registration) {
    registration.tags != [] && (registration.security.Requirements? ==> registration.security.requirements != [])
  }

  predicate ValidRegistry(registry: Registry) {
    && DistinctSources(registry) && DistinctTargets(registry) && DistinctIds(registry)
    && forall registration | registration in registry :: WellFormed(registration)
  }

  /** `validateRegistry`. */
  method ValidateRegistry(registry: Registry) returns (result: Result<(), MergeError>)
    ensures result.Ok? <==> ValidRegistry(registry)
    ensures result.Err? ==> !result.error.ImportFails? && !result.error.ImportedReferenceDangles?
  {
    var sources: set<(string, string)> := {};
    var targets: set<(string, string)> := {};
    var operationIds: set<string> := {};
    for i := 0 to |registry|
      invariant sources == set j | 0 <= j < i :: (registry[j].verb, registry[j].sourcePath)
      invariant targets == set j | 0 <= j < i :: (registry[j].verb, registry[j].publicPath)
      invariant operationIds == set j | 0 <= j < i :: registry[j].operationId
      invariant ValidRegistry(registry[..i])
    {
      var registration := registry[i];
      assert registry[..i + 1] == registry[..i] + [registration];
      if (registration.verb, registration.sourcePath) in sources {
        return Err(DuplicateSource(registration));
      }
      sources := sources + {(registration.verb, registration.sourcePath)};
      if (registration.verb, registration.publicPath) in targets {
        return Err(DuplicateTarget(registration));
      }
      targets := targets + {(registration.verb, registration.publicPath)};
      if registration.operationId in operationIds {
        return Err(DuplicateOperationId(registration));
      }
      operationIds := operationIds + {registration.operationId};
      assert registration in registry;
      if registration.tags == [] {
        assert !WellFormed(registration);
        return Err(MissingTags(registration));
      }
      if registration.security.Requirements? && registration.security.requirements == [] {
        assert !WellFormed(registration);
        return Err(EmptyRequirements(registration));
      }
    }
    assert registry[..|registry|] == registry;
    result := Ok(());
  }

  // One path item.

  /** The parameters agree: both absent, only the source's, or equal ones. */
  predicate ParametersAgree(item: map<string, Value>, parameters: Option<Value>) {
    if "parameters" in item then parameters == Some(item["parameters"]) else true
  }

  function WithParameters(item: map<string, Value>, parameters: Option<Value>): map<string, Value> {
    if "parameters" !in item && parameters.Some? then item["parameters" := parameters.value] else item
  }

  function ItemFields(paths: map<string, Value>, path: string): map<string, Value> {
    if path in paths && paths[path].Object? then paths[path].fields else map[]
  }

  /** The target item is absent or an object, the verb is free there, and the parameters agree. */
  predicate HasRoom(paths: map<string, Value>, registration: Registration, parameters: Option<Value>) {
    && (registration.publicPath in paths ==> paths[registration.publicPath].Object?)
    && registration.verb !in ItemFields(paths, registration.publicPath)
    && ParametersAgree(ItemFields(paths, registration.publicPath), parameters)
  }

  function WithOperation(
    paths: map<string, Value>, registration: Registration, operation: Value, parameters: Option<Value>)
    : map<string, Value>
  {
    var item := WithParameters(ItemFields(paths, registration.publicPath), parameters);
    paths[registration.publicPath := Object(item[registration.verb := operation])]
  }

  /** `mergePathParameters`, and adding the operation to the path item. */
  method MergeOperation(
    paths: map<string, Value>, registration: Registration, operation: Value, parameters: Option<Value>)
    returns (result: Result<map<string, Value>, MergeError>)
    ensures result.Ok? <==> HasRoom(paths, registration, parameters)
    ensures result.Ok? ==> result.value == WithOperation(paths, registration, operation, parameters)
    ensures result.Err? ==> !result.error.ImportFails? && !result.error.ImportedReferenceDangles?
  {
    var item: map<string, Value> := map[];
    if registration.publicPath in paths {
      if !paths[registration.publicPath].Object? {
        return Err(TargetIsNoPathItem(registration));
      }
      item := paths[registration.publicPath].fields;
    }
    if registration.verb in item {
      return Err(AlreadyDefined(registration));
    }
    if "parameters" in item {
      if parameters.None? {
        return Err(ParametersConflict(registration));
      }
      JsonEqualIsEquality(item["parameters"], parameters.value);
      if !JsonEqual(item["parameters"], parameters.value) {
        return Err(ParametersConflict(registration));
      }
    } else if parameters.Some? {
      item := item["parameters" := parameters.value];
    }
    result := Ok(paths[registration.publicPath := Object(item[registration.verb := operation])]);
  }

  // Operation ids.

  /** The id of the operation under a verb of a path. */
  function OperationIdAt(paths: map<string, Value>, path: string, verb: string): Option<string> {
    if path in paths && paths[path].Object? && verb in paths[path].fields && verb in METHODS then
      match FieldOf(paths[path].fields[verb], "operationId")
      case Some(String(id)) => Some(id)
      case _ => None
    else None
  }

  ghost predicate HasOperationId(paths: map<string, Value>, path: string, verb: string, id: string) {
    verb in METHODS && ValueAt(Object(paths), [Field(path), Field(verb), Field("operationId")]) == Some(String(id))
  }

  /** No id stands under two verbs or two paths. */
  ghost predicate UniqueOperationIds(paths: map<string, Value>) {
    forall p, v, q, w, id | HasOperationId(paths, p, v, id) && HasOperationId(paths, q, w, id) :: p == q && v == w
  }

  lemma OperationIdExactly(paths: map<string, Value>, path: string, verb: string, id: string)
    ensures OperationIdAt(paths, path, verb) == Some(id) <==> HasOperationId(paths, path, verb, id)
  {
    var steps, rest, last := [Field(path), Field(verb), Field("operationId")], [Field(verb), Field("operationId")], [Field("operationId")];
    assert steps[1..] == rest && rest[1..] == last && last[1..] == [];
    if path in paths {
      assert ValueAt(Object(paths), steps) == ValueAt(paths[path], rest);
      if paths[path].Object? && verb in paths[path].fields {
        var operation := paths[path].fields[verb];
        assert ValueAt(paths[path], rest) == ValueAt(operation, last);
        assert ValueAt(operation, last) == FieldOf(operation, "operationId");
      } else {
        assert ValueAt(paths[path], rest).None?;
      }
    } else {
      assert ValueAt(Object(paths), steps).None?;
    }
  }

  // All registered operations.

  /** The values whose references are followed: every operation with its path parameters. */
  function Contribution(auth: Value, registration: Registration): seq<Value> {
    (match OperationOf(auth, registration) case None => [] case Some(operation) => [operation])
    + (match SourceParameters(auth, registration) case None => [] case Some(parameters) => [parameters])
  }

  function Contributions(auth: Value, registry: Registry): seq<Value> {
    if registry == [] then []
    else Contributions(auth, registry[..|registry| - 1]) + Contribution(auth, registry[|registry| - 1])
  }

  /** The paths with every registered operation added, in order. */
  function PathsAfter(auth: Value, paths: map<string, Value>, registry: Registry): map<string, Value> {
    if registry == [] then paths
    else
      var init, last := registry[..|registry| - 1], registry[|registry| - 1];
      var before := PathsAfter(auth, paths, init);
      match OperationOf(auth, last)
      case None => before
      case Some(operation) => WithOperation(before, last, operation, SourceParameters(auth, last))
  }

  /** Nothing earlier is lost or changed; what is new is a registered operation or the parameters of its path. */
  ghost predicate PathsOnlyGrow(before: map<string, Value>, after: map<string, Value>, registry: Registry) {
    && (forall path | path in before ::
          path in after && ItemOnlyGrows(before[path], after[path]))
    && (forall path | path in after && !(path in before && after[path] == before[path]) ::
          exists r | r in registry :: r.publicPath == path)
    && (forall path, name | name in ItemFields(after, path) && name !in ItemFields(before, path) ::
          name == "parameters" || exists r | r in registry :: r.publicPath == path && r.verb == name)
  }

  ghost predicate ItemOnlyGrows(before: Value, after: Value) {
    if before.Object? && after.Object? then
      forall name | name in before.fields :: name in after.fields && after.fields[name] == before.fields[name]
    else before == after
  }

  /** The operations stand where they were registered, and any parameters beside them were followed too. */
  ghost predicate StandsIn(auth: Value, registration: Registration, paths: map<string, Value>, origins: seq<Value>) {
    && OperationOf(auth, registration).Some? && OperationOf(auth, registration).value in origins
    && registration.publicPath in paths && paths[registration.publicPath].Object?
    && registration.verb in paths[registration.publicPath].fields
    && paths[registration.publicPath].fields[registration.verb] == OperationOf(auth, registration).value
    && ("parameters" in paths[registration.publicPath].fields ==>
          paths[registration.publicPath].fields["parameters"] in origins)
  }

  /** Under its path and verb the document has the source operation as the registration adapts it. */
  ghost predicate PublishesAdapted(auth: Value, registration: Registration, paths: map<string, Value>) {
    && registration.publicPath in paths && paths[registration.publicPath].Object?
    && registration.verb in paths[registration.publicPath].fields
    && IsContributed(auth, registration, paths[registration.publicPath].fields[registration.verb])
  }

  lemma StandingIsAdapted(auth: Value, registration: Registration, paths: map<string, Value>, origins: seq<Value>)
    requires StandsIn(auth, registration, paths, origins)
    ensures PublishesAdapted(auth, registration, paths)
  {
    hide OperationOf, IsContributed;
    OperationExactly(auth, registration);
  }

  lemma GrowingByOne(
    before: map<string, Value>, middle: map<string, Value>, registry: Registry, registration: Registration,
    operation: Value, parameters: Option<Value>)
    requires PathsOnlyGrow(before, middle, registry)
    requires registration.publicPath in middle ==> middle[registration.publicPath].Object?
    requires registration.verb !in ItemFields(middle, registration.publicPath)
    ensures PathsOnlyGrow(before, WithOperation(middle, registration, operation, parameters), registry + [registration])
  {
    var after := WithOperation(middle, registration, operation, parameters);
    var more := registry + [registration];
    assert registration in more && forall r | r in registry :: r in more;
    forall path | path in before ensures path in after && ItemOnlyGrows(before[path], after[path]) {
      assert ItemOnlyGrows(before[path], middle[path]);
    }
    forall path, name | name in ItemFields(after, path) && name !in ItemFields(before, path)
      ensures name == "parameters" || exists r | r in more :: r.publicPath == path && r.verb == name
    {
      if name in ItemFields(middle, path) && name != "parameters" {
        var r :| r in registry && r.publicPath == path && r.verb == name;
        assert r in more;
      }
    }
  }

  lemma StandingStays(
    auth: Value, earlier: Registration, registration: Registration, paths: map<string, Value>, operation: Value,
    parameters: Option<Value>, origins: seq<Value>, more: seq<Value>)
    requires StandsIn(auth, earlier, paths, origins)
    requires registration.verb != "parameters"
    requires (earlier.verb, earlier.publicPath) != (registration.verb, registration.publicPath)
    requires earlier.verb != "parameters"
    requires forall v | v in origins :: v in more
    requires parameters.Some? ==> parameters.value in more
    ensures StandsIn(auth, earlier, WithOperation(paths, registration, operation, parameters), more)
  {
    hide OperationOf;
  }

  lemma StandingAtFirst(
    auth: Value, registration: Registration, paths: map<string, Value>, parameters: Option<Value>, more: seq<Value>)
    requires OperationOf(auth, registration).Some? && OperationOf(auth, registration).value in more
    requires registration.verb != "parameters"
    requires ParametersAgree(ItemFields(paths, registration.publicPath), parameters)
    requires parameters.Some? ==> parameters.value in more
    ensures StandsIn(auth, registration, WithOperation(paths, registration, OperationOf(auth, registration).value, parameters), more)
  {
    hide OperationOf;
  }

  // What the merged paths hold beside the operations.

  /**
   * Items that were added are objects; the items of registered paths have the parameters of their sources; and
   * parameters that were added come from a source.
   */
  ghost predicate ItemsFit(auth: Value, before: map<string, Value>, after: map<string, Value>, registry: Registry) {
    && (forall path | path in after && path !in before :: after[path].Object?)
    && (forall r | r in registry :: HasItsParameters(auth, r, after))
    && (forall path | "parameters" in ItemFields(after, path) && "parameters" !in ItemFields(before, path) ::
          AreSourced(auth, registry, path, ItemFields(after, path)["parameters"]))
  }

  ghost predicate HasItsParameters(auth: Value, registration: Registration, paths: map<string, Value>) {
    forall parameters | IsSourceParameters(auth, registration, parameters) ::
      var item := ItemFields(paths, registration.publicPath);
      "parameters" in item && item["parameters"] == parameters
  }

  ghost predicate AreSourced(auth: Value, registry: Registry, path: string, parameters: Value) {
    exists r | r in registry :: r.publicPath == path && IsSourceParameters(auth, r, parameters)
  }

  lemma ItemsFitByOne(
    auth: Value, before: map<string, Value>, middle: map<string, Value>, registry: Registry, registration: Registration,
    operation: Value, parameters: Option<Value>)
    requires ItemsFit(auth, before, middle, registry) && parameters == SourceParameters(auth, registration)
    requires ParametersAgree(ItemFields(middle, registration.publicPath), parameters) && registration.verb != "parameters"
    ensures ItemsFit(auth, before, WithOperation(middle, registration, operation, parameters), registry + [registration])
  {
    hide SourceParameters, IsSourceParameters;
    var after, more := WithOperation(middle, registration, operation, parameters), registry + [registration];
    SourceParametersExactly(auth, registration);
    forall r | r in more ensures HasItsParameters(auth, r, after) {
      if r in registry {
        assert HasItsParameters(auth, r, middle);
      }
    }
    forall path | "parameters" in ItemFields(after, path) && "parameters" !in ItemFields(before, path)
      ensures AreSourced(auth, more, path, ItemFields(after, path)["parameters"])
    {
      if "parameters" in ItemFields(middle, path) {
        var r :| r in registry && r.publicPath == path && IsSourceParameters(auth, r, ItemFields(middle, path)["parameters"]);
        assert r in more;
      } else {
        assert registration in more;
      }
    }
  }

  /** The target path is absent, or an item without this verb and with no other parameters. */
  ghost predicate HasFreeTarget(auth: Value, paths: map<string, Value>, registration: Registration) {
    registration.publicPath in paths ==>
      && paths[registration.publicPath].Object?
      && registration.verb !in paths[registration.publicPath].fields
      && ("parameters" in paths[registration.publicPath].fields ==>
            IsSourceParameters(auth, registration, paths[registration.publicPath].fields["parameters"]))
  }

  /** Parameters that the earlier one brings to the same path, the later one has too. */
  ghost predicate ParametersMatch(auth: Value, earlier: Registration, later: Registration) {
    earlier.publicPath == later.publicPath ==>
      forall parameters | IsSourceParameters(auth, earlier, parameters) :: IsSourceParameters(auth, later, parameters)
  }

  /** After earlier registrations there is room exactly if there was in the beginning and their parameters match. */
  lemma HasRoomExactlyIf(
    auth: Value, before: map<string, Value>, paths: map<string, Value>, registry: Registry, registration: Registration)
    requires PathsOnlyGrow(before, paths, registry) && ItemsFit(auth, before, paths, registry)
    requires registration.verb != "parameters"
    requires forall r | r in registry :: (r.verb, r.publicPath) != (registration.verb, registration.publicPath)
    ensures HasRoom(paths, registration, SourceParameters(auth, registration)) <==>
      && HasFreeTarget(auth, before, registration)
      && forall r | r in registry :: ParametersMatch(auth, r, registration)
  {
    hide SourceParameters, IsSourceParameters;
    SourceParametersExactly(auth, registration);
    if HasRoom(paths, registration, SourceParameters(auth, registration)) {
      RoomWasFree(auth, before, paths, registry, registration);
    }
    if HasFreeTarget(auth, before, registration) && forall r | r in registry :: ParametersMatch(auth, r, registration) {
      FreeTargetHasRoom(auth, before, paths, registry, registration);
    }
  }

  lemma RoomWasFree(
    auth: Value, before: map<string, Value>, paths: map<string, Value>, registry: Registry, registration: Registration)
    requires PathsOnlyGrow(before, paths, registry) && ItemsFit(auth, before, paths, registry)
    requires HasRoom(paths, registration, SourceParameters(auth, registration))
    ensures HasFreeTarget(auth, before, registration)
    ensures forall r | r in registry :: ParametersMatch(auth, r, registration)
  {
    hide SourceParameters, IsSourceParameters;
    SourceParametersExactly(auth, registration);
    if registration.publicPath in before {
      assert ItemOnlyGrows(before[registration.publicPath], paths[registration.publicPath]);
    }
    forall r | r in registry ensures ParametersMatch(auth, r, registration) {
      assert HasItsParameters(auth, r, paths);
    }
  }

  lemma FreeTargetHasRoom(
    auth: Value, before: map<string, Value>, paths: map<string, Value>, registry: Registry, registration: Registration)
    requires PathsOnlyGrow(before, paths, registry) && ItemsFit(auth, before, paths, registry)
    requires registration.verb != "parameters"
    requires forall r | r in registry :: (r.verb, r.publicPath) != (registration.verb, registration.publicPath)
    requires HasFreeTarget(auth, before, registration)
    requires forall r | r in registry :: ParametersMatch(auth, r, registration)
    ensures HasRoom(paths, registration, SourceParameters(auth, registration))
  {
    hide SourceParameters, IsSourceParameters;
    SourceParametersExactly(auth, registration);
    var path := registration.publicPath;
    if path in before {
      assert ItemOnlyGrows(before[path], paths[path]);
    }
    if "parameters" in ItemFields(paths, path) && "parameters" !in ItemFields(before, path) {
      var p := ItemFields(paths, path)["parameters"];
      assert AreSourced(auth, registry, path, p);
      var r :| r in registry && r.publicPath == path && IsSourceParameters(auth, r, p);
      assert ParametersMatch(auth, r, registration);
    }
  }

  // The target document resolves what was imported.

  function DocumentOf(paths: map<string, Value>, components: map<string, Value>): Value {
    Object(map["paths" := Object(paths), "components" := Object(components)])
  }

  predicate ReferenceResolves(decode: Decoder, document: Value, reference: string) {
    && StartsWith(reference, "#/")
    && ParsePointer(decode, reference).Some?
    && Resolve(document, ParsePointer(decode, reference).value).Some?
  }

  lemma FollowedReferenceResolves(
    auth: Value, decode: Decoder, paths: map<string, Value>, components: map<string, Value>, imported: set<Root>,
    reference: string)
    requires Carries(auth, components, imported) && ReferenceFollowed(auth, decode, imported, reference)
    ensures ReferenceResolves(decode, DocumentOf(paths, components), reference)
  {
    var segments := ParseReference(decode, reference).value;
    var root, rest := RootOf(segments), segments[3..];
    var document := DocumentOf(paths, components);
    RootOfResolvedReference(auth, segments);
    assert segments == ["components", root.0, root.1] + rest;
    ResolveInSteps(document, ["components", root.0, root.1], rest);
    ComponentStands(paths, components, root);
  }

  lemma ComponentStands(paths: map<string, Value>, components: map<string, Value>, root: Root)
    requires root.0 in components && components[root.0].Object? && root.1 in components[root.0].fields
    ensures Resolve(DocumentOf(paths, components), ["components", root.0, root.1]) ==
      Some(components[root.0].fields[root.1])
  {
    var document := DocumentOf(paths, components);
    assert Child(document, "components") == Some(Object(components));
    assert ["components", root.0, root.1][1..] == [root.0, root.1] && [root.0, root.1][1..] == [root.1];
    assert Resolve(document, ["components", root.0, root.1]) == Resolve(Object(components), [root.0, root.1]);
    assert Resolve(Object(components), [root.0, root.1]) == Resolve(components[root.0], [root.1]);
    assert [root.1][1..] == [];
    assert Resolve(components[root.0], [root.1]) == Resolve(components[root.0].fields[root.1], []);
  }

  // The checks before the commit.

  lemma IdsArePlaced(paths: map<string, Value>, path: string, verb: string)
    ensures OperationIdAt(paths, path, verb).Some? ==> path in paths && verb in METHODS
  {
  }

  /** `assertUniqueOperationIds`. */
  method HasUniqueOperationIds(paths: map<string, Value>) returns (unique: bool)
    ensures unique <==> UniqueOperationIds(paths)
  {
    hide OperationIdAt, HasOperationId;
    var places := set p, v | p in paths && v in METHODS :: (p, v);
    var pending := places;
    var ids: map<string, (string, string)> := map[];
    while pending != {}
      invariant pending <= places
      invariant forall id | id in ids :: ids[id] in places - pending && OperationIdAt(paths, ids[id].0, ids[id].1) == Some(id)
      invariant forall at | at in places - pending && OperationIdAt(paths, at.0, at.1).Some? ::
        OperationIdAt(paths, at.0, at.1).value in ids && ids[OperationIdAt(paths, at.0, at.1).value] == at
    {
      var at :| at in pending;
      pending := pending - {at};
      var id := OperationIdAt(paths, at.0, at.1);
      if id.Some? {
        if id.value in ids {
          ghost var other := ids[id.value];
          OperationIdExactly(paths, at.0, at.1, id.value);
          OperationIdExactly(paths, other.0, other.1, id.value);
          assert other != at;
          return false;
        }
        ids := ids[id.value := at];
      }
    }
    forall p, v, q, w, id | HasOperationId(paths, p, v, id) && HasOperationId(paths, q, w, id) ensures p == q && v == w {
      OperationIdExactly(paths, p, v, id);
      OperationIdExactly(paths, q, w, id);
      IdsArePlaced(paths, p, v);
      IdsArePlaced(paths, q, w);
      assert (p, v) in places && (q, w) in places;
    }
    unique := true;
  }

  /** Everything the merge knows about its values when it runs the last check. */
  ghost predicate ReadyToResolve(
    auth: Value, decode: Decoder, registry: Registry, paths: map<string, Value>, components: map<string, Value>,
    imported: set<Root>, origins: seq<Value>)
  {
    && (forall r | r in registry :: StandsIn(auth, r, paths, origins))
    && (forall v | v in origins :: Followed(auth, decode, imported, v))
    && Carries(auth, components, imported) && AllFollowed(auth, decode, imported, imported)
  }

  lemma FollowedValueResolves(
    auth: Value, decode: Decoder, paths: map<string, Value>, components: map<string, Value>, imported: set<Root>,
    value: Value)
    requires Carries(auth, components, imported) && Followed(auth, decode, imported, value)
    ensures forall r | Mentions(value, r) :: ReferenceResolves(decode, DocumentOf(paths, components), r)
  {
    hide Carries, ReferenceResolves, DocumentOf;
    forall r | Mentions(value, r) ensures ReferenceResolves(decode, DocumentOf(paths, components), r) {
      FollowedReferenceResolves(auth, decode, paths, components, imported, r);
    }
  }

  method AllReferencesResolve(decode: Decoder, document: Value, value: Value) returns (resolve: bool)
    ensures resolve <==> forall r | Mentions(value, r) :: ReferenceResolves(decode, document, r)
  {
    hide References, Mentions, ReferenceResolves;
    ReferencesExactly(value);
    var pending := References(value);
    while pending != {}
      invariant pending <= References(value)
      invariant forall r | r in References(value) - pending :: ReferenceResolves(decode, document, r)
    {
      var r :| r in pending;
      if !ReferenceResolves(decode, document, r) {
        return false;
      }
      pending := pending - {r};
    }
    resolve := true;
  }

  /** `assertImportedReferencesResolve`, which has nothing left to reject. */
  method ImportedReferencesResolve(
    auth: Value, decode: Decoder, registry: Registry, paths: map<string, Value>, components: map<string, Value>,
    imported: set<Root>, ghost origins: seq<Value>) returns (resolve: bool)
    requires ReadyToResolve(auth, decode, registry, paths, components, imported, origins)
    ensures resolve
  {
    hide OperationOf, Followed, Carries, ReferenceResolves, DocumentOf, Resolve;
    var document := DocumentOf(paths, components);
    for i := 0 to |registry| {
      var registration := registry[i];
      assert StandsIn(auth, registration, paths, origins);
      if registration.publicPath !in paths || !paths[registration.publicPath].Object? {
        return false;
      }
      var item := paths[registration.publicPath].fields;
      FollowedValueResolves(auth, decode, paths, components, imported, item[registration.verb]);
      var operationResolves := AllReferencesResolve(decode, document, item[registration.verb]);
      if !operationResolves {
        return false;
      }
      if "parameters" in item {
        FollowedValueResolves(auth, decode, paths, components, imported, item["parameters"]);
        var parametersResolve := AllReferencesResolve(decode, document, item["parameters"]);
        if !parametersResolve {
          return false;
        }
      }
    }
    var pending := imported;
    while pending != {}
      invariant pending <= imported
    {
      var root :| root in pending;
      pending := pending - {root};
      CarriedComponent(auth, paths, components, imported, root);
      var component := Resolve(document, ["components", root.0, root.1]);
      if component.Some? {
        FollowedValueResolves(auth, decode, paths, components, imported, component.value);
        var componentResolves := AllReferencesResolve(decode, document, component.value);
        if !componentResolves {
          return false;
        }
      }
    }
    resolve := true;
  }

  lemma CarriedComponent(
    auth: Value, paths: map<string, Value>, components: map<string, Value>, imported: set<Root>, root: Root)
    requires Carries(auth, components, imported) && root in imported
    ensures Resolve(DocumentOf(paths, components), ["components", root.0, root.1]) == SourceOf(auth, root)
  {
    ComponentStands(paths, components, root);
  }

  // The merge.

  /**
   * What the inputs must be for the merge to succeed: every operation available, with a free target and matching
   * parameters; nothing in the way of any component; and all operation ids of the outcome distinct.
   */
  ghost predicate CanMerge(
    auth: Value, decode: Decoder, registry: Registry, paths: map<string, Value>, components: map<string, Value>)
  {
    && ValidRegistry(registry)
    && (forall i: nat | i < |registry| :: CanAdd(auth, registry[..i], registry[i], paths))
    && !Obstructed(auth, decode, Contributions(auth, registry), components)
    && UniqueOperationIds(PathsAfter(auth, paths, registry))
  }

  ghost predicate CanAdd(auth: Value, earlier: Registry, registration: Registration, paths: map<string, Value>) {
    && IsAvailable(auth, registration) && HasFreeTarget(auth, paths, registration)
    && forall r | r in earlier :: ParametersMatch(auth, r, registration)
  }

  lemma {:induction false} ContributionIsPart(auth: Value, registry: Registry, i: nat)
    requires i < |registry|
    ensures forall v | v in Contribution(auth, registry[i]) :: v in Contributions(auth, registry)
    decreases |registry|
  {
    if i < |registry| - 1 {
      ContributionIsPart(auth, registry[..|registry| - 1], i);
    }
  }

  /** An obstacle for one registration is one for the merge. */
  lemma ObstacleForOne(
    auth: Value, decode: Decoder, registry: Registry, i: nat, components: map<string, Value>)
    requires i < |registry| && Obstructed(auth, decode, Contribution(auth, registry[i]), components)
    ensures Obstructed(auth, decode, Contributions(auth, registry), components)
  {
    hide Obstructed, Contribution, Contributions;
    ContributionIsPart(auth, registry, i);
    ObstructedInMore(auth, decode, Contribution(auth, registry[i]), Contributions(auth, registry), components);
  }

  /** What a successful merge has done with the components. */
  ghost predicate ComponentsMerged(
    auth: Value, decode: Decoder, registry: Registry, before: map<string, Value>, after: map<string, Value>)
  {
    exists imported: set<Root> ::
      && (forall root :: root in imported <==> Reachable(auth, decode, Contributions(auth, registry), root))
      && Carries(auth, after, imported) && OnlyAdds(before, after, imported)
  }

  lemma ImportIsExact(
    auth: Value, decode: Decoder, registry: Registry, before: map<string, Value>, after: map<string, Value>,
    imported: set<Root>)
    requires Achieved(auth, decode, Contributions(auth, registry), before, {}, after, imported)
    requires forall v | v in Contributions(auth, registry) :: Followed(auth, decode, imported, v)
    ensures ComponentsMerged(auth, decode, registry, before, after)
  {
    hide Carries, OnlyAdds, AllFollowed, Followed, Reachable, Contributions;
    assert imported - {} == imported;
    ImportedIsReachable(auth, decode, Contributions(auth, registry), imported);
  }

  /** The state of the merge after some registrations. */
  ghost predicate Merging(
    auth: Value, decode: Decoder, registry: Registry, oldPaths: map<string, Value>, oldComponents: map<string, Value>,
    paths: map<string, Value>, components: map<string, Value>, imported: set<Root>)
  {
    var origins := Contributions(auth, registry);
    && paths == PathsAfter(auth, oldPaths, registry) && PathsOnlyGrow(oldPaths, paths, registry)
    && (forall r | r in registry :: StandsIn(auth, r, paths, origins)) && ItemsFit(auth, oldPaths, paths, registry)
    && Achieved(auth, decode, origins, oldComponents, {}, components, imported)
    && (forall v | v in origins :: Followed(auth, decode, imported, v))
  }

  lemma NothingIsMerged(
    auth: Value, decode: Decoder, registry: Registry, paths: map<string, Value>, components: map<string, Value>)
    requires registry == []
    ensures Merging(auth, decode, registry, paths, components, paths, components, {})
  {
    NothingIsAchieved(auth, decode, [], components, {});
  }

  lemma MergingByOne(
    auth: Value, decode: Decoder, registry: Registry, registration: Registration, oldPaths: map<string, Value>,
    oldComponents: map<string, Value>, paths: map<string, Value>, components: map<string, Value>, imported: set<Root>,
    nextComponents: map<string, Value>, nextImported: set<Root>)
    requires Merging(auth, decode, registry, oldPaths, oldComponents, paths, components, imported)
    requires OperationOf(auth, registration).Some?
    requires Achieved(
      auth, decode, Contribution(auth, registration), components, imported, nextComponents, nextImported)
    requires forall v | v in Contribution(auth, registration) :: Followed(auth, decode, nextImported, v)
    requires registration.publicPath in paths ==> paths[registration.publicPath].Object?
    requires registration.verb !in ItemFields(paths, registration.publicPath)
    requires ParametersAgree(ItemFields(paths, registration.publicPath), SourceParameters(auth, registration))
    requires forall r | r in registry ::
      r.verb in METHODS && (r.verb, r.publicPath) != (registration.verb, registration.publicPath)
    requires registration.verb in METHODS
    ensures Merging(auth, decode, registry + [registration], oldPaths, oldComponents,
                    WithOperation(paths, registration, OperationOf(auth, registration).value, SourceParameters(auth, registration)),
                    nextComponents, nextImported)
  {
    hide Achieved, Followed, WithOperation, OperationOf, SourceParameters, PathsOnlyGrow, StandsIn, ParametersAgree, ItemsFit;
    var more := registry + [registration];
    var operation, parameters := OperationOf(auth, registration).value, SourceParameters(auth, registration);
    assert more[..|more| - 1] == registry;
    var origins := Contributions(auth, more);
    assert origins == Contributions(auth, registry) + Contribution(auth, registration);
    GrowingByOne(oldPaths, paths, registry, registration, operation, parameters);
    ItemsFitByOne(auth, oldPaths, paths, registry, registration, operation, parameters);
    forall r | r in more
      ensures StandsIn(auth, r, WithOperation(paths, registration, operation, parameters), origins)
    {
      if r in registry {
        StandingStays(auth, r, registration, paths, operation, parameters, Contributions(auth, registry), origins);
      } else {
        StandingAtFirst(auth, registration, paths, parameters, origins);
      }
    }
    AchievedFromMore(auth, decode, Contributions(auth, registry), origins, oldComponents, {}, components, imported);
    AchievedFromMore(
      auth, decode, Contribution(auth, registration), origins, components, imported, nextComponents, nextImported);
    AchievedComposes(auth, decode, origins, oldComponents, {}, components, imported, nextComponents, nextImported);
    ImportKeeps(
      auth, decode, Contribution(auth, registration), components, imported, nextComponents, nextImported);
    forall v | v in origins ensures Followed(auth, decode, nextImported, v) {
      if v in Contributions(auth, registry) {
        FollowedGrows(auth, decode, imported, nextImported, v);
      }
    }
  }

  lemma MergedIsReady(
    auth: Value, decode: Decoder, registry: Registry, oldPaths: map<string, Value>, oldComponents: map<string, Value>,
    paths: map<string, Value>, components: map<string, Value>, imported: set<Root>)
    requires Merging(auth, decode, registry, oldPaths, oldComponents, paths, components, imported)
    ensures ReadyToResolve(auth, decode, registry, paths, components, imported, Contributions(auth, registry))
  {
    hide StandsIn, Followed, Contributions, PathsOnlyGrow, Carries, ItemsFit;
    assert imported - {} == imported;
  }

  /** Once all registrations are merged, nothing was in the way. */
  lemma MergedWasNotObstructed(
    auth: Value, decode: Decoder, registry: Registry, oldPaths: map<string, Value>, oldComponents: map<string, Value>,
    paths: map<string, Value>, components: map<string, Value>, imported: set<Root>)
    requires Merging(auth, decode, registry, oldPaths, oldComponents, paths, components, imported)
    ensures !Obstructed(auth, decode, Contributions(auth, registry), oldComponents)
  {
    hide StandsIn, Followed, Contributions, PathsOnlyGrow, Carries, ItemsFit, OnlyAdds, Obstructed;
    assert imported - {} == imported;
    FollowedIsNotObstructed(auth, decode, Contributions(auth, registry), oldComponents, components, imported);
  }

  class ApiDocument {
    var paths: map<string, Value>
    var components: Option<map<string, Value>>

    constructor (paths: map<string, Value>, components: Option<map<string, Value>>)
      ensures this.paths == paths && this.components == components
    {
      this.paths := paths;
      this.components := components;
    }

    function Sections(): map<string, Value>
      reads this
    {
      if components.Some? then components.value else map[]
    }

    /**
     * `addRegisteredBetterAuthOpenApiOperations`: nothing changes on an error; on success the registered operations stand
     * in the paths, exactly the components they reach are imported, and all else is as it was.
     */
    method AddRegisteredOperations(auth: Value, decode: Decoder, registry: Registry)
      returns (result: Result<(), MergeError>)
      requires forall r | r in registry :: r.verb in METHODS
      modifies this
      ensures result.Err? ==> paths == old(paths) && components == old(components)
      ensures result.Ok? <==> old(CanMerge(auth, decode, registry, paths, Sections()))
      ensures result.Ok? ==> UniqueOperationIds(paths) && components.Some?
      ensures result.Ok? ==> paths == PathsAfter(auth, old(paths), registry)
      ensures result.Ok? ==> PathsOnlyGrow(old(paths), paths, registry)
      ensures result.Ok? ==> forall r | r in registry :: PublishesAdapted(auth, r, paths)
      ensures result.Ok? ==> ItemsFit(auth, old(paths), paths, registry)
      ensures result.Ok? ==> ComponentsMerged(auth, decode, registry, old(Sections()), Sections())
      ensures result.Err? ==> !result.error.ImportedReferenceDangles?
      ensures result.Err? && result.error.ImportFails? ==> !result.error.error.DanglingComponent?
    {
      hide Merging, Achieved, Followed, OperationOf, SourceParameters, WithOperation, PathsAfter, PathsOnlyGrow, StandsIn,
        ParametersAgree, Contributions, ReadyToResolve, ComponentsMerged, UniqueOperationIds, Carries, ItemsFit, CanAdd,
        Obstructed, Contribution, PublishesAdapted;
      var valid := ValidateRegistry(registry);
      if valid.Err? {
        return valid;
      }
      var nextPaths := paths;
      var importer := new Importer(Sections());
      NothingIsMerged(auth, decode, registry[..0], paths, Sections());
      for i := 0 to |registry|
        invariant fresh(importer) && paths == old(paths) && components == old(components)
        invariant forall j: nat | j < i :: CanAdd(auth, registry[..j], registry[j], paths)
        invariant Merging(
          auth, decode, registry[..i], paths, Sections(), nextPaths, importer.components, importer.imported)
      {
        var registration := registry[i];
        ghost var before, had := importer.components, importer.imported;
        var merged := AddOne(auth, decode, registration, nextPaths, importer, registry, i, paths, Sections());
        if merged.Err? {
          if Obstructed(auth, decode, Contribution(auth, registration), Sections()) {
            ObstacleForOne(auth, decode, registry, i, Sections());
          }
          return Err(merged.error);
        }
        nextPaths := merged.value;
      }
      assert registry[..|registry|] == registry;
      MergedIsExact(auth, decode, registry, paths, Sections(), nextPaths, importer.components, importer.imported);
      MergedWasNotObstructed(
        auth, decode, registry, paths, Sections(), nextPaths, importer.components, importer.imported);
      var unique := HasUniqueOperationIds(nextPaths);
      if !unique {
        return Err(OperationIdsClash);
      }
      MergedIsReady(auth, decode, registry, paths, Sections(), nextPaths, importer.components, importer.imported);
      var resolve := ImportedReferencesResolve(
        auth, decode, registry, nextPaths, importer.components, importer.imported, Contributions(auth, registry));
      if !resolve {
        return Err(ImportedReferenceDangles);
      }
      paths := nextPaths;
      components := Some(importer.components);
      result := Ok(());
    }
  }

  lemma MergedIsExact(
    auth: Value, decode: Decoder, registry: Registry, oldPaths: map<string, Value>, oldComponents: map<string, Value>,
    paths: map<string, Value>, components: map<string, Value>, imported: set<Root>)
    requires Merging(auth, decode, registry, oldPaths, oldComponents, paths, components, imported)
    ensures ComponentsMerged(auth, decode, registry, oldComponents, components)
    ensures paths == PathsAfter(auth, oldPaths, registry) && PathsOnlyGrow(oldPaths, paths, registry)
    ensures forall r | r in registry :: PublishesAdapted(auth, r, paths)
    ensures ItemsFit(auth, oldPaths, paths, registry)
  {
    forall r | r in registry ensures PublishesAdapted(auth, r, paths) {
      StandingIsAdapted(auth, r, paths, Contributions(auth, registry));
    }
    hide StandsIn, Followed, Contributions, PathsOnlyGrow, Carries, ComponentsMerged, Achieved, PathsAfter, ItemsFit;
    ImportIsExact(auth, decode, registry, oldComponents, components, imported);
  }

  /** One registration: read the source, import what it reaches, and add it to its path. */
  method AddOne(
    auth: Value, decode: Decoder, registration: Registration, paths: map<string, Value>, importer: Importer,
    ghost registry: Registry, ghost i: nat, ghost oldPaths: map<string, Value>, ghost oldComponents: map<string, Value>)
    returns (result: Result<map<string, Value>, MergeError>)
    requires i < |registry| && registry[i] == registration
    requires DistinctTargets(registry) && forall r | r in registry :: r.verb in METHODS
    requires Merging(
      auth, decode, registry[..i], oldPaths, oldComponents, paths, importer.components, importer.imported)
    modifies importer
    ensures result.Ok? ==> Merging(
      auth, decode, registry[..i + 1], oldPaths, oldComponents, result.value, importer.components, importer.imported)
    ensures result.Ok? ==> CanAdd(auth, registry[..i], registration, oldPaths)
    ensures result.Err? ==>
      !CanAdd(auth, registry[..i], registration, oldPaths)
      || Obstructed(auth, decode, Contribution(auth, registration), oldComponents)
    ensures result.Err? ==> !result.error.ImportedReferenceDangles?
    ensures result.Err? && result.error.ImportFails? ==> !result.error.error.DanglingComponent?
  {
    hide Merging, Achieved, Followed, WithOperation, StandsIn, ParametersAgree, Prepared, SourceOperation, Carries,
      SourceParameters, Obstructed, IsAvailable, HasFreeTarget, ParametersMatch, HasRoom, OnlyAdds;
    AvailableExactlyIf(auth, registration);
    var operation := SourceOperation(auth, registration);
    if operation.None? {
      return Err(SourceMissing(registration));
    }
    var parameters := SourceParameters(auth, registration);
    if parameters.Some? && !parameters.value.Array? {
      return Err(ParametersAreNoArray(registration));
    }
    var prepared := Prepared(operation.value, registration);
    if prepared.None? {
      return Err(OverrideFails(registration));
    }
    var values := [prepared.value];
    if parameters.Some? {
      values := values + [parameters.value];
    }
    assert values == Contribution(auth, registration);
    ghost var before, had := importer.components, importer.imported;
    MergingCarries(auth, decode, registry[..i], oldPaths, oldComponents, paths, before, had);
    MergingLeavesRoom(auth, decode, registry, i, oldPaths, oldComponents, paths, before, had);
    var imported := importer.Import(auth, decode, values, oldComponents);
    if imported.Err? {
      return Err(ImportFails(imported.error));
    }
    result := MergeOperation(paths, registration, prepared.value, parameters);
    if result.Ok? {
      RoomParts(paths, registration, parameters);
      assert registry[..i + 1] == registry[..i] + [registration];
      MergingByOne(auth, decode, registry[..i], registration, oldPaths, oldComponents, paths, before, had,
                   importer.components, importer.imported);
    }
  }

  lemma MergingCarries(
    auth: Value, decode: Decoder, registry: Registry, oldPaths: map<string, Value>, oldComponents: map<string, Value>,
    paths: map<string, Value>, components: map<string, Value>, imported: set<Root>)
    requires Merging(auth, decode, registry, oldPaths, oldComponents, paths, components, imported)
    ensures Carries(auth, components, imported) && OnlyAdds(oldComponents, components, imported)
  {
    hide Carries, StandsIn, PathsOnlyGrow, Followed, ItemsFit, OnlyAdds;
    assert imported - {} == imported;
  }

  lemma MergingLeavesRoom(
    auth: Value, decode: Decoder, registry: Registry, i: nat, oldPaths: map<string, Value>,
    oldComponents: map<string, Value>, paths: map<string, Value>, components: map<string, Value>, imported: set<Root>)
    requires i < |registry| && DistinctTargets(registry) && registry[i].verb in METHODS
    requires Merging(auth, decode, registry[..i], oldPaths, oldComponents, paths, components, imported)
    ensures HasRoom(paths, registry[i], SourceParameters(auth, registry[i])) <==>
      && HasFreeTarget(auth, oldPaths, registry[i])
      && forall r | r in registry[..i] :: ParametersMatch(auth, r, registry[i])
  {
    hide Carries, StandsIn, PathsOnlyGrow, Followed, ItemsFit, OnlyAdds, HasRoom, HasFreeTarget, ParametersMatch,
      SourceParameters;
    HasRoomExactlyIf(auth, oldPaths, paths, registry[..i], registry[i]);
  }

  lemma RoomParts(paths: map<string, Value>, registration: Registration, parameters: Option<Value>)
    requires HasRoom(paths, registration, parameters)
    ensures registration.publicPath in paths ==> paths[registration.publicPath].Object?
    ensures registration.verb !in ItemFields(paths, registration.publicPath)
    ensures ParametersAgree(ItemFields(paths, registration.publicPath), parameters)
  {
  }
}
