/** One registered operation: where it comes from, and what it is turned into before it is published. */
module OpenApiOperations {
  import opened Wrappers
  import opened OpenApiValues

  datatype Security = Public | Requirements(requirements: seq<Value>)

  /** A response schema that replaces the one of the source document. */
  datatype SchemaOverride = SchemaOverride(status: string, mediaType: string, schema: Value)

  datatype Registration = Registration(
    sourcePath: string, verb: string, publicPath: string, operationId: string, tags: seq<string>, security: Security,
    overrides: seq<SchemaOverride>)

  type Registry = seq<Registration>

  // One operation.

  function FieldOf(value: Value, name: string): Option<Value> {
    if value.Object? && name in value.fields then Some(value.fields[name]) else None
  }

  /** The source operation, when the source path item exists and holds an object under the verb. */
  function SourceOperation(auth: Value, registration: Registration): Option<Value> {
    match Resolve(auth, ["paths", registration.sourcePath])
    case None => None
    case Some(item) =>
      match FieldOf(item, registration.verb)
      case None => None
      case Some(operation) => if operation.Object? then Some(operation) else None
  }

  function SourceParameters(auth: Value, registration: Registration): Option<Value> {
    match Resolve(auth, ["paths", registration.sourcePath])
    case None => None
    case Some(item) => FieldOf(item, "parameters")
  }

  /** Setting the schema of one response representation; None when some step towards it is no object. */
  function WithSchema(operation: Value, change: SchemaOverride): Option<Value> {
    match FieldOf(operation, "responses")
    case None => None
    case Some(responses) =>
      match FieldOf(responses, change.status)
      case None => None
      case Some(response) =>
        match FieldOf(response, "content")
        case None => None
        case Some(content) =>
          match FieldOf(content, change.mediaType)
          case None => None
          case Some(representation) =>
            if !representation.Object? then None
            else
              var representation' := Object(representation.fields["schema" := change.schema]);
              var content' := Object(content.fields[change.mediaType := representation']);
              var response' := Object(response.fields["content" := content']);
              var responses' := Object(responses.fields[change.status := response']);
              Some(Object(operation.fields["responses" := responses']))
  }

  function WithSchemas(operation: Value, changes: seq<SchemaOverride>): Option<Value>
    decreases |changes|
  {
    if changes == [] then Some(operation)
    else
      match WithSchema(operation, changes[0])
      case None => None
      case Some(next) => WithSchemas(next, changes[1..])
  }

  function Strings(names: seq<string>): seq<Value> {
    seq(|names|, i requires 0 <= i < |names| => String(names[i]))
  }

  function SecurityValue(security: Security): Value {
    match security
    case Public => Array([])
    case Requirements(requirements) => Array(requirements)
  }

  /** The operation as it will stand in the target: overridden schemas, and its own id, tags and security. */
  function Prepared(operation: Value, registration: Registration): Option<Value> {
    match WithSchemas(operation, registration.overrides)
    case None => None
    case Some(next) =>
      if !next.Object? then None
      else Some(Object(next.fields["operationId" := String(registration.operationId)]
                                  ["tags" := Array(Strings(registration.tags))]
                                  ["security" := SecurityValue(registration.security)]))
  }

  /** The operation a registration contributes, when the source document has it in the expected form. */
  function OperationOf(auth: Value, registration: Registration): Option<Value> {
    match SourceOperation(auth, registration)
    case None => None
    case Some(operation) => Prepared(operation, registration)
  }

  // What an adapted operation is, place by place.

  /** The place of an overridden schema, and of the representation that holds it. */
  function LocationOf(change: SchemaOverride): seq<Step> {
    RepresentationOf(change) + [Field("schema")]
  }

  function RepresentationOf(change: SchemaOverride): seq<Step> {
    [Field("responses"), Field(change.status), Field("content"), Field(change.mediaType)]
  }

  /** Neither place lies inside the other. */
  predicate Apart(a: seq<Step>, b: seq<Step>) {
    !(a <= b) && !(b <= a)
  }

  predicate IsObjectAt(value: Value, path: seq<Step>) {
    match ValueAt(value, path)
    case Some(Object(_)) => true
    case _ => false
  }

  predicate IsLastOverride(registration: Registration, i: nat) {
    && i < |registration.overrides|
    && forall j | i < j < |registration.overrides| :: LocationOf(registration.overrides[j]) != LocationOf(registration.overrides[i])
  }

  predicate IsStrings(value: Value, names: seq<string>) {
    value.Array? && |value.items| == |names| && forall i | 0 <= i < |names| :: value.items[i] == String(names[i])
  }

  predicate IsSecurity(value: Value, security: Security) {
    match security
    case Public => value == Array([])
    case Requirements(requirements) => value == Array(requirements)
  }

  /** The path item of the source path is an object with this object under the verb. */
  ghost predicate IsSourceOperation(auth: Value, registration: Registration, operation: Value) {
    && operation.Object?
    && exists item | Resolve(auth, ["paths", registration.sourcePath]) == Some(item) ::
         ValueAt(item, [Field(registration.verb)]) == Some(operation)
  }

  /** Every overridden representation is there. */
  predicate IsOverridable(operation: Value, registration: Registration) {
    forall change | change in registration.overrides :: IsObjectAt(operation, RepresentationOf(change))
  }

  /** A place that the registration does not decide. */
  predicate IsOutside(registration: Registration, path: seq<Step>) {
    && Apart(path, [Field("operationId")]) && Apart(path, [Field("tags")]) && Apart(path, [Field("security")])
    && forall change | change in registration.overrides :: Apart(path, LocationOf(change))
  }

  /** Id, tags, security and overridden schemas are those of the registration; all else is as in the source. */
  ghost predicate IsAdapted(operation: Value, registration: Registration, adapted: Value) {
    && ValueAt(adapted, [Field("operationId")]) == Some(String(registration.operationId))
    && (exists tags | IsStrings(tags, registration.tags) :: ValueAt(adapted, [Field("tags")]) == Some(tags))
    && (exists security | IsSecurity(security, registration.security) :: ValueAt(adapted, [Field("security")]) == Some(security))
    && (forall i: nat | IsLastOverride(registration, i) ::
          ValueAt(adapted, LocationOf(registration.overrides[i])) == Some(registration.overrides[i].schema))
    && (forall path | IsOutside(registration, path) :: ValueAt(adapted, path) == ValueAt(operation, path))
  }

  // Setting one place.

  /** The value with another one under a path of keys; None when something on the way is no object. */
  function Put(value: Value, keys: seq<string>, added: Value): Option<Value>
    requires keys != []
    decreases |keys|
  {
    if !value.Object? then None
    else if |keys| == 1 then Some(Object(value.fields[keys[0] := added]))
    else if keys[0] !in value.fields then None
    else
      match Put(value.fields[keys[0]], keys[1..], added)
      case None => None
      case Some(inner) => Some(Object(value.fields[keys[0] := inner]))
  }

  function FieldsOf(keys: seq<string>): (path: seq<Step>)
    ensures |path| == |keys| && forall i | 0 <= i < |keys| :: path[i] == Field(keys[i])
  {
    seq(|keys|, i requires 0 <= i < |keys| => Field(keys[i]))
  }

  lemma ApartIsBelow(path: seq<Step>, other: seq<Step>)
    requires Apart(path, other)
    ensures path != []
  {
  }

  lemma ApartFurther(first: Step, path: seq<Step>, other: seq<Step>)
    ensures Apart([first] + path, [first] + other) ==> Apart(path, other)
  {
  }

  lemma FieldFound(value: Value, key: string, path: seq<Step>)
    requires value.Object? && key in value.fields && path != [] && path[0] == Field(key)
    ensures ValueAt(value, path) == ValueAt(value.fields[key], path[1..])
  {
  }

  lemma ApartFromOne(path: seq<Step>, step: Step)
    ensures Apart(path, [step]) <==> path != [] && path[0] != step
  {
    if path != [] && path[0] == step {
      assert [step] <= path;
    }
  }

  lemma {:induction false} PutSucceedsExactlyIf(value: Value, keys: seq<string>, last: string, added: Value)
    ensures Put(value, keys + [last], added).Some? <==> IsObjectAt(value, FieldsOf(keys))
    ensures Put(value, keys + [last], added).Some? ==>
      var next := Put(value, keys + [last], added).value;
      IsObjectAt(next, FieldsOf(keys)) && ValueAt(next, FieldsOf(keys + [last])) == Some(added)
    decreases |keys|
  {
    var all := keys + [last];
    assert FieldsOf(all)[1..] == FieldsOf(all[1..]);
    if keys != [] {
      assert all[0] == keys[0] && all[1..] == keys[1..] + [last];
      assert FieldsOf(keys)[1..] == FieldsOf(keys[1..]);
      if value.Object? && keys[0] in value.fields {
        PutSucceedsExactlyIf(value.fields[keys[0]], keys[1..], last, added);
      }
    }
  }

  lemma {:induction false} PutLeavesTheRest(value: Value, keys: seq<string>, added: Value, path: seq<Step>)
    requires keys != [] && Put(value, keys, added).Some? && Apart(path, FieldsOf(keys))
    ensures ValueAt(Put(value, keys, added).value, path) == ValueAt(value, path)
    decreases |keys|
  {
    hide ValueAt, Apart;
    var inner := if |keys| == 1 then added else Put(value.fields[keys[0]], keys[1..], added).value;
    assert Put(value, keys, added).value == Object(value.fields[keys[0] := inner]);
    ApartIsBelow(path, FieldsOf(keys));
    FieldSet(value.fields, keys[0], inner, path);
    if |keys| == 1 {
      assert FieldsOf(keys) == [Field(keys[0])];
      ApartFromOne(path, Field(keys[0]));
    } else if path[0] == Field(keys[0]) {
      FieldFound(value, keys[0], path);
      var rest := FieldsOf(keys)[1..];
      assert rest == FieldsOf(keys[1..]);
      assert path == [path[0]] + path[1..] && FieldsOf(keys) == [path[0]] + rest;
      ApartFurther(path[0], path[1..], rest);
      PutLeavesTheRest(value.fields[keys[0]], keys[1..], added, path[1..]);
    }
  }

  function KeysOf(change: SchemaOverride): seq<string> {
    ["responses", change.status, "content", change.mediaType]
  }

  lemma KeysLeadToPlaces(change: SchemaOverride)
    ensures FieldsOf(KeysOf(change)) == RepresentationOf(change)
    ensures FieldsOf(KeysOf(change) + ["schema"]) == LocationOf(change)
  {
  }

  lemma WithSchemaIsPut(operation: Value, change: SchemaOverride)
    ensures WithSchema(operation, change) == Put(operation, KeysOf(change) + ["schema"], change.schema)
  {
    assert (KeysOf(change) + ["schema"])[1..] == [change.status, "content", change.mediaType, "schema"];
    match FieldOf(operation, "responses") {
      case None =>
      case Some(responses) => ResponsesPut(responses, change);
    }
  }

  lemma ResponsesPut(responses: Value, change: SchemaOverride)
    ensures Put(responses, [change.status, "content", change.mediaType, "schema"], change.schema) ==
      match FieldOf(responses, change.status)
      case None => None
      case Some(response) =>
        match FieldOf(response, "content")
        case None => None
        case Some(content) =>
          match FieldOf(content, change.mediaType)
          case None => None
          case Some(representation) =>
            if !representation.Object? then None
            else
              var representation' := Object(representation.fields["schema" := change.schema]);
              var content' := Object(content.fields[change.mediaType := representation']);
              var response' := Object(response.fields["content" := content']);
              Some(Object(responses.fields[change.status := response']))
  {
    var in4, in3 := ["schema"], [change.mediaType, "schema"];
    var in2, in1 := ["content", change.mediaType, "schema"], [change.status, "content", change.mediaType, "schema"];
    assert in1[1..] == in2 && in2[1..] == in3 && in3[1..] == in4;
    match FieldOf(responses, change.status) {
      case None =>
      case Some(response) =>
        match FieldOf(response, "content") {
          case None => assert Put(response, in2, change.schema).None?;
          case Some(content) =>
            assert Put(content, in3, change.schema) ==
              match FieldOf(content, change.mediaType)
              case None => None
              case Some(representation) =>
                match Put(representation, in4, change.schema)
                case None => None
                case Some(inner) => Some(Object(content.fields[change.mediaType := inner]));
        }
    }
  }

  lemma WithSchemaExactly(operation: Value, change: SchemaOverride)
    ensures WithSchema(operation, change).Some? <==> IsObjectAt(operation, RepresentationOf(change))
    ensures WithSchema(operation, change).Some? ==>
      var next := WithSchema(operation, change).value;
      IsObjectAt(next, RepresentationOf(change)) && ValueAt(next, LocationOf(change)) == Some(change.schema)
  {
    hide WithSchema, Put, KeysOf, RepresentationOf, LocationOf, IsObjectAt, ValueAt, FieldsOf;
    WithSchemaIsPut(operation, change);
    KeysLeadToPlaces(change);
    PutSucceedsExactlyIf(operation, KeysOf(change), "schema", change.schema);
  }

  lemma WithSchemaLeavesTheRest(operation: Value, change: SchemaOverride, path: seq<Step>)
    requires WithSchema(operation, change).Some? && Apart(path, LocationOf(change))
    ensures ValueAt(WithSchema(operation, change).value, path) == ValueAt(operation, path)
  {
    hide WithSchema, Put, KeysOf, LocationOf, ValueAt, FieldsOf;
    WithSchemaIsPut(operation, change);
    KeysLeadToPlaces(change);
    PutLeavesTheRest(operation, KeysOf(change) + ["schema"], change.schema, path);
  }

  /** Two overridden representations are the same, or setting the schema of one does not touch the other. */
  lemma RepresentationsApart(one: SchemaOverride, other: SchemaOverride)
    ensures RepresentationOf(one) == RepresentationOf(other) || Apart(RepresentationOf(one), LocationOf(other))
    ensures LocationOf(one) == LocationOf(other) || Apart(LocationOf(one), LocationOf(other))
    ensures RepresentationOf(one) == RepresentationOf(other) <==> LocationOf(one) == LocationOf(other)
  {
    var a, b := RepresentationOf(one), RepresentationOf(other);
    assert LocationOf(one)[..4] == a && LocationOf(other)[..4] == b;
  }

  predicate AllOverridable(operation: Value, changes: seq<SchemaOverride>) {
    forall i | 0 <= i < |changes| :: IsObjectAt(operation, RepresentationOf(changes[i]))
  }

  lemma OverridableStays(operation: Value, change: SchemaOverride, other: SchemaOverride)
    requires WithSchema(operation, change).Some?
    ensures IsObjectAt(WithSchema(operation, change).value, RepresentationOf(other))
      <==> IsObjectAt(operation, RepresentationOf(other))
  {
    hide WithSchema, ValueAt, RepresentationOf, LocationOf;
    RepresentationsApart(other, change);
    WithSchemaExactly(operation, change);
    if RepresentationOf(other) != RepresentationOf(change) {
      WithSchemaLeavesTheRest(operation, change, RepresentationOf(other));
    }
  }

  lemma {:induction false} WithSchemasExactlyIf(operation: Value, changes: seq<SchemaOverride>)
    ensures WithSchemas(operation, changes).Some? <==> AllOverridable(operation, changes)
    decreases |changes|
  {
    hide WithSchema, IsObjectAt, RepresentationOf;
    if changes != [] {
      WithSchemaExactly(operation, changes[0]);
      match WithSchema(operation, changes[0]) {
        case None =>
        case Some(next) =>
          WithSchemasExactlyIf(next, changes[1..]);
          forall i | 0 < i < |changes|
            ensures IsObjectAt(next, RepresentationOf(changes[i])) <==> IsObjectAt(operation, RepresentationOf(changes[i]))
            ensures changes[i] == changes[1..][i - 1]
          {
            OverridableStays(operation, changes[0], changes[i]);
          }
          assert AllOverridable(operation, changes) <==> AllOverridable(next, changes[1..]);
      }
    }
  }

  lemma {:induction false} WithSchemasLeavesTheRest(operation: Value, changes: seq<SchemaOverride>, path: seq<Step>)
    requires WithSchemas(operation, changes).Some?
    requires forall i | 0 <= i < |changes| :: Apart(path, LocationOf(changes[i]))
    ensures ValueAt(WithSchemas(operation, changes).value, path) == ValueAt(operation, path)
    decreases |changes|
  {
    hide WithSchema, LocationOf, Apart, ValueAt;
    if changes != [] {
      WithSchemaLeavesTheRest(operation, changes[0], path);
      WithSchemasLeavesTheRest(WithSchema(operation, changes[0]).value, changes[1..], path);
    }
  }

  lemma {:induction false} LastOverrideStands(operation: Value, changes: seq<SchemaOverride>, i: nat)
    requires WithSchemas(operation, changes).Some? && i < |changes|
    requires forall j | i < j < |changes| :: LocationOf(changes[j]) != LocationOf(changes[i])
    ensures ValueAt(WithSchemas(operation, changes).value, LocationOf(changes[i])) == Some(changes[i].schema)
    decreases |changes|
  {
    hide WithSchema, LocationOf, Apart, ValueAt;
    var next, rest := WithSchema(operation, changes[0]).value, changes[1..];
    if i == 0 {
      WithSchemaExactly(operation, changes[0]);
      forall j | 0 <= j < |rest| ensures Apart(LocationOf(changes[0]), LocationOf(rest[j])) {
        assert rest[j] == changes[j + 1];
        RepresentationsApart(changes[0], rest[j]);
      }
      WithSchemasLeavesTheRest(next, rest, LocationOf(changes[0]));
    } else {
      forall j | i - 1 < j < |rest| ensures LocationOf(rest[j]) != LocationOf(rest[i - 1]) {
        assert rest[j] == changes[j + 1];
      }
      LastOverrideStands(next, rest, i - 1);
    }
  }

  lemma FieldSet(fields: map<string, Value>, key: string, added: Value, path: seq<Step>)
    requires path != []
    ensures ValueAt(Object(fields[key := added]), path) ==
      if path[0] == Field(key) then ValueAt(added, path[1..]) else ValueAt(Object(fields), path)
  {
  }

  /** Setting the three own fields. */
  lemma OwnFieldsSet(fields: map<string, Value>, id: Value, tags: Value, security: Value, path: seq<Step>)
    requires path != []
    ensures var value := Object(fields["operationId" := id]["tags" := tags]["security" := security]);
      ValueAt(value, path) ==
        if path[0] == Field("security") then ValueAt(security, path[1..])
        else if path[0] == Field("tags") then ValueAt(tags, path[1..])
        else if path[0] == Field("operationId") then ValueAt(id, path[1..])
        else ValueAt(Object(fields), path)
  {
    hide ValueAt;
    FieldSet(fields["operationId" := id]["tags" := tags], "security", security, path);
    FieldSet(fields["operationId" := id], "tags", tags, path);
    FieldSet(fields, "operationId", id, path);
  }

  /** An operation is adapted exactly if all overridden representations are there, and then as the registration says. */
  lemma PreparedExactly(operation: Value, registration: Registration)
    requires operation.Object?
    ensures Prepared(operation, registration).Some? <==> IsOverridable(operation, registration)
    ensures Prepared(operation, registration).Some? ==>
      IsAdapted(operation, registration, Prepared(operation, registration).value)
  {
    hide ValueAt, RepresentationOf, LocationOf, WithSchemas, IsObjectAt;
    WithSchemasExactlyIf(operation, registration.overrides);
    WithSchemasKeepsObjects(operation, registration.overrides);
    assert AllOverridable(operation, registration.overrides) <==> IsOverridable(operation, registration);
    if Prepared(operation, registration).Some? {
      PreparedIsAdapted(operation, registration);
    }
  }

  lemma {:induction false} WithSchemasKeepsObjects(operation: Value, changes: seq<SchemaOverride>)
    requires operation.Object?
    ensures WithSchemas(operation, changes).Some? ==> WithSchemas(operation, changes).value.Object?
    decreases |changes|
  {
    if changes != [] {
      match WithSchema(operation, changes[0])
      case None =>
      case Some(next) => WithSchemasKeepsObjects(next, changes[1..]);
    }
  }

  lemma PreparedIsAdapted(operation: Value, registration: Registration)
    requires operation.Object? && Prepared(operation, registration).Some?
    ensures IsAdapted(operation, registration, Prepared(operation, registration).value)
  {
    hide ValueAt, RepresentationOf, WithSchemas, LocationOf;
    var next, adapted := WithSchemas(operation, registration.overrides).value, Prepared(operation, registration).value;
    var id, tags := String(registration.operationId), Array(Strings(registration.tags));
    var security := SecurityValue(registration.security);
    forall path: seq<Step> | path != []
      ensures ValueAt(adapted, path) ==
        if path[0] == Field("security") then ValueAt(security, path[1..])
        else if path[0] == Field("tags") then ValueAt(tags, path[1..])
        else if path[0] == Field("operationId") then ValueAt(id, path[1..])
        else ValueAt(next, path)
    {
      OwnFieldsSet(next.fields, id, tags, security, path);
    }
    OwnPlaces(adapted, "operationId", id);
    OwnPlaces(adapted, "tags", tags);
    OwnPlaces(adapted, "security", security);
    assert IsStrings(tags, registration.tags) && IsSecurity(security, registration.security);
    forall i: nat | IsLastOverride(registration, i)
      ensures ValueAt(adapted, LocationOf(registration.overrides[i])) == Some(registration.overrides[i].schema)
    {
      SchemasAreInResponses(registration.overrides[i]);
      LastOverrideStands(operation, registration.overrides, i);
    }
    forall path | IsOutside(registration, path) ensures ValueAt(adapted, path) == ValueAt(operation, path) {
      assert path != [];
      OutsideIsNoOwnField(registration, path);
      WithSchemasLeavesTheRest(operation, registration.overrides, path);
    }
  }

  lemma OwnPlaces(value: Value, key: string, inner: Value)
    requires ValueAt(value, [Field(key)]) == ValueAt(inner, [Field(key)][1..])
    ensures ValueAt(value, [Field(key)]) == Some(inner)
  {
    assert [Field(key)][1..] == [];
  }

  lemma SchemasAreInResponses(change: SchemaOverride)
    ensures LocationOf(change) != [] && LocationOf(change)[0] == Field("responses")
  {
  }

  lemma OutsideIsNoOwnField(registration: Registration, path: seq<Step>)
    requires IsOutside(registration, path)
    ensures path != [] && path[0] != Field("operationId") && path[0] != Field("tags") && path[0] != Field("security")
  {
    ApartFromOne(path, Field("operationId"));
    ApartFromOne(path, Field("tags"));
    ApartFromOne(path, Field("security"));
  }

  lemma SourceOperationExactly(auth: Value, registration: Registration, operation: Value)
    ensures SourceOperation(auth, registration) == Some(operation) <==> IsSourceOperation(auth, registration, operation)
  {
    hide Resolve;
    forall item ensures ValueAt(item, [Field(registration.verb)]) == FieldOf(item, registration.verb) {
      var path := [Field(registration.verb)];
      assert path[1..] == [];
      assert FieldOf(item, registration.verb) == Into(item, path[0]);
    }
  }

  ghost predicate IsSourceParameters(auth: Value, registration: Registration, parameters: Value) {
    exists item | Resolve(auth, ["paths", registration.sourcePath]) == Some(item) ::
      ValueAt(item, [Field("parameters")]) == Some(parameters)
  }

  lemma SourceParametersExactly(auth: Value, registration: Registration)
    ensures forall parameters ::
      SourceParameters(auth, registration) == Some(parameters) <==> IsSourceParameters(auth, registration, parameters)
  {
    hide Resolve;
    forall item ensures ValueAt(item, [Field("parameters")]) == FieldOf(item, "parameters") {
      var path := [Field("parameters")];
      assert path[1..] == [];
      assert FieldOf(item, "parameters") == Into(item, path[0]);
    }
  }

  /** The source has the operation, in a form that all overrides apply to, and any path parameters are a list. */
  ghost predicate IsAvailable(auth: Value, registration: Registration) {
    && (exists operation | IsSourceOperation(auth, registration, operation) :: IsOverridable(operation, registration))
    && (forall parameters | IsSourceParameters(auth, registration, parameters) :: parameters.Array?)
  }

  lemma AvailableExactlyIf(auth: Value, registration: Registration)
    ensures IsAvailable(auth, registration) <==>
      && OperationOf(auth, registration).Some?
      && (SourceParameters(auth, registration).Some? ==> SourceParameters(auth, registration).value.Array?)
  {
    hide IsSourceOperation, IsOverridable, OperationOf, SourceParameters, IsSourceParameters;
    OperationExactly(auth, registration);
    SourceParametersExactly(auth, registration);
  }

  /** The source operation as the registration adapts it. */
  ghost predicate IsContributed(auth: Value, registration: Registration, adapted: Value) {
    exists operation | IsSourceOperation(auth, registration, operation) :: IsAdapted(operation, registration, adapted)
  }

  /** A registration contributes an operation exactly if its source has one with every overridden representation. */
  lemma OperationExactly(auth: Value, registration: Registration)
    ensures OperationOf(auth, registration).Some? <==>
      exists operation | IsSourceOperation(auth, registration, operation) :: IsOverridable(operation, registration)
    ensures OperationOf(auth, registration).Some? ==> IsContributed(auth, registration, OperationOf(auth, registration).value)
  {
    hide IsSourceOperation, SourceOperation, IsAdapted, IsOverridable, Prepared;
    forall operation ensures SourceOperation(auth, registration) == Some(operation) <==> IsSourceOperation(auth, registration, operation) {
      SourceOperationExactly(auth, registration, operation);
    }
    match SourceOperation(auth, registration) {
      case None =>
      case Some(operation) =>
        SourceIsObject(auth, registration);
        PreparedExactly(operation, registration);
    }
  }

  lemma SourceIsObject(auth: Value, registration: Registration)
    requires SourceOperation(auth, registration).Some?
    ensures SourceOperation(auth, registration).value.Object?
  {
  }
}
