/** Importing the components that a value refers to, and those they refer to, and so on. */
module OpenApiImport {
  import opened Wrappers
  import opened Text
  import opened OpenApiValues

  /** A component is named by its section and its key there. */
  type Root = (string, string)

  datatype ImportError =
    | InvalidPointer(reference: string)
    | ExternalReference(reference: string)
    | NotAComponent(reference: string)
    | DanglingReference(reference: string)
    | DanglingComponent(reference: string)
    | SectionIsNoObject(section: string)
    | Collision(section: string, name: string)

  /** The percent-decoder for one segment; None for a malformed escape. */
  type Decoder = string -> Option<string>

  function DecodeAll(decode: Decoder, parts: seq<string>): Option<seq<string>> {
    if parts == [] then Some([])
    else
      match (decode(parts[0]), DecodeAll(decode, parts[1..]))
      case (Some(first), Some(rest)) => Some([UnescapeSegment(first)] + rest)
      case (_, _) => None
  }

  /** `parseJsonPointer`, on the text after "#/". */
  function ParsePointer(decode: Decoder, reference: string): Option<seq<string>> {
    DecodeAll(decode, Split(if |reference| >= 2 then reference[2..] else "", '/'))
  }

  function EscapeAll(names: seq<string>): seq<string> {
    if names == [] then [] else [EscapeSegment(names[0])] + EscapeAll(names[1..])
  }

  lemma {:induction false} EscapedNamesDecode(decode: Decoder, names: seq<string>)
    requires forall part | part in EscapeAll(names) :: decode(part) == Some(part)
    ensures DecodeAll(decode, EscapeAll(names)) == Some(names)
    ensures forall part | part in EscapeAll(names) :: '/' !in part
    ensures |EscapeAll(names)| == |names|
  {
    if names != [] {
      assert EscapeAll(names)[1..] == EscapeAll(names[1..]);
      assert EscapeAll(names)[0] in EscapeAll(names);
      SegmentRoundTrip(names[0]);
      EscapedSegmentLacksSlash(names[0]);
      EscapedNamesDecode(decode, names[1..]);
      assert [names[0]] + names[1..] == names;
      assert decode(EscapeAll(names)[0]) == Some(EscapeSegment(names[0]));
    }
  }

  /** Reading a pointer undoes writing it, for every list of names that needs no percent-encoding. */
  lemma PointerRoundTrip(decode: Decoder, names: seq<string>)
    requires |names| >= 1 && forall part | part in EscapeAll(names) :: decode(part) == Some(part)
    ensures ParsePointer(decode, "#/" + Join(EscapeAll(names), '/')) == Some(names)
  {
    var text := Join(EscapeAll(names), '/');
    assert ("#/" + text)[2..] == text;
    EscapedNamesDecode(decode, names);
    SplitOfJoin(EscapeAll(names), '/');
  }

  /** `parseComponentReference`. */
  function ParseReference(decode: Decoder, reference: string): (r: Result<seq<string>, ImportError>)
    ensures r.Ok? ==> |r.value| >= 3 && r.value[0] == "components"
  {
    if !StartsWith(reference, "#/") then Err(ExternalReference(reference))
    else
      match ParsePointer(decode, reference)
      case None => Err(InvalidPointer(reference))
      case Some(segments) =>
        if |segments| < 3 || segments[0] != "components" then Err(NotAComponent(reference)) else Ok(segments)
  }

  function RootOf(segments: seq<string>): Root
    requires |segments| >= 3
  {
    (segments[1], segments[2])
  }

  function SourceOf(auth: Value, root: Root): Option<Value> {
    Resolve(auth, ["components", root.0, root.1])
  }

  /** Every component the source document could name. */
  function AllRoots(auth: Value): (roots: set<Root>)
    ensures forall root | SourceOf(auth, root).Some? :: root in roots
  {
    match Child(auth, "components")
    case None =>
      OnlyComponentsAreRoots(auth);
      {}
    case Some(components) =>
      OnlyComponentsAreRoots(auth);
      set section, name | section in ChildNames(components)
        && name in ChildNames(Child(components, section).value) :: (section, name)
  }

  lemma OnlyComponentsAreRoots(auth: Value)
    ensures forall root :: SourceOf(auth, root).Some? <==>
      (Child(auth, "components").Some? && Child(Child(auth, "components").value, root.0).Some?
       && Child(Child(Child(auth, "components").value, root.0).value, root.1).Some?)
  {
    forall root: Root
      ensures SourceOf(auth, root).Some? <==>
        (Child(auth, "components").Some? && Child(Child(auth, "components").value, root.0).Some?
         && Child(Child(Child(auth, "components").value, root.0).value, root.1).Some?)
    {
      assert ["components", root.0, root.1][1..] == [root.0, root.1];
      assert [root.0, root.1][1..] == [root.1];
      assert [root.1][1..] == [];
      match Child(auth, "components") {
        case None =>
        case Some(components) =>
          assert SourceOf(auth, root) == Resolve(components, [root.0, root.1]);
          match Child(components, root.0) {
            case None =>
            case Some(section) =>
              assert SourceOf(auth, root) == Resolve(section, [root.1]);
              match Child(section, root.1) {
                case None =>
                case Some(source) => assert SourceOf(auth, root) == Resolve(source, []);
              }
          }
      }
    }
  }

  /** A reference that resolves at all resolves in its component. */
  lemma RootOfResolvedReference(auth: Value, segments: seq<string>)
    requires |segments| >= 3 && segments[0] == "components" && Resolve(auth, segments).Some?
    ensures SourceOf(auth, RootOf(segments)).Some?
    ensures Resolve(auth, segments) == Resolve(SourceOf(auth, RootOf(segments)).value, segments[3..])
  {
    assert segments == ["components", segments[1], segments[2]] + segments[3..];
    ResolveInSteps(auth, ["components", segments[1], segments[2]], segments[3..]);
  }

  // Reachability.

  ghost predicate Refers(decode: Decoder, value: Value, root: Root) {
    exists r | Mentions(value, r) ::
      ParseReference(decode, r).Ok? && RootOf(ParseReference(decode, r).value) == root
  }

  ghost predicate LeadsTo(auth: Value, decode: Decoder, from: Root, to: Root) {
    SourceOf(auth, from).Some? && Refers(decode, SourceOf(auth, from).value, to)
  }

  /** Reached from one of the values by way of `steps` components. */
  ghost predicate ReachedIn(auth: Value, decode: Decoder, values: seq<Value>, root: Root, steps: nat)
    decreases steps
  {
    if steps == 0 then exists v | v in values :: Refers(decode, v, root)
    else exists via: Root :: ReachedIn(auth, decode, values, via, steps - 1) && LeadsTo(auth, decode, via, root)
  }

  ghost predicate Reachable(auth: Value, decode: Decoder, values: seq<Value>, root: Root) {
    exists steps: nat :: ReachedIn(auth, decode, values, root, steps)
  }

  lemma ReferredIsReachable(auth: Value, decode: Decoder, values: seq<Value>, value: Value, root: Root)
    requires value in values && Refers(decode, value, root)
    ensures Reachable(auth, decode, values, root)
  {
    assert ReachedIn(auth, decode, values, root, 0);
  }

  lemma {:induction false} ReachedThrough(
    auth: Value, decode: Decoder, values: seq<Value>, via: Root, root: Root, steps: nat)
    requires (exists v | v in values :: Refers(decode, v, via)) && SourceOf(auth, via).Some?
    requires ReachedIn(auth, decode, [SourceOf(auth, via).value], root, steps)
    ensures ReachedIn(auth, decode, values, root, steps + 1)
    decreases steps
  {
    hide Refers, SourceOf;
    if steps == 0 {
      assert ReachedIn(auth, decode, values, via, 0) && LeadsTo(auth, decode, via, root);
    } else {
      var last: Root :| ReachedIn(auth, decode, [SourceOf(auth, via).value], last, steps - 1) && LeadsTo(auth, decode, last, root);
      ReachedThrough(auth, decode, values, via, last, steps - 1);
    }
  }

  lemma ReachableThrough(auth: Value, decode: Decoder, values: seq<Value>, value: Value, via: Root, root: Root)
    requires value in values && Refers(decode, value, via) && SourceOf(auth, via).Some?
    requires Reachable(auth, decode, [SourceOf(auth, via).value], root)
    ensures Reachable(auth, decode, values, root)
  {
    hide Refers, SourceOf, ReachedIn;
    var steps: nat :| ReachedIn(auth, decode, [SourceOf(auth, via).value], root, steps);
    ReachedThrough(auth, decode, values, via, root, steps);
  }

  // What an import achieves.

  /** All references of a value parse, resolve in the source document, and have their components imported. */
  ghost predicate Followed(auth: Value, decode: Decoder, imported: set<Root>, value: Value) {
    forall r | Mentions(value, r) :: ReferenceFollowed(auth, decode, imported, r)
  }

  ghost predicate ReferenceFollowed(auth: Value, decode: Decoder, imported: set<Root>, reference: string) {
    var segments := ParseReference(decode, reference);
    segments.Ok? && Resolve(auth, segments.value).Some? && RootOf(segments.value) in imported
  }

  ghost predicate AllFollowed(auth: Value, decode: Decoder, imported: set<Root>, roots: set<Root>) {
    forall root | root in roots ::
      SourceOf(auth, root).Some? && Followed(auth, decode, imported, SourceOf(auth, root).value)
  }

  ghost predicate AllReachable(auth: Value, decode: Decoder, values: seq<Value>, roots: set<Root>) {
    forall root | root in roots :: Reachable(auth, decode, values, root)
  }

  /** Every imported component stands in the target as it does in the source. */
  ghost predicate Carries(auth: Value, components: map<string, Value>, imported: set<Root>) {
    forall root | root in imported ::
      && root.0 in components && components[root.0].Object? && root.1 in components[root.0].fields
      && SourceOf(auth, root) == Some(components[root.0].fields[root.1])
  }

  /** Nothing that was there has changed, and only imported components were added. */
  ghost predicate OnlyAdds(before: map<string, Value>, after: map<string, Value>, added: set<Root>) {
    && (forall section | section in before ::
          section in after && SectionOnlyGrows(before[section], after[section]))
    && (forall section | section in after && section !in before :: after[section].Object?)
    && (forall section, name |
          section in after && after[section].Object? && name in after[section].fields
          && !(section in before && before[section].Object? && name in before[section].fields) :: (section, name) in added)
  }

  ghost predicate SectionOnlyGrows(before: Value, after: Value) {
    if before.Object? && after.Object? then
      forall name | name in before.fields :: name in after.fields && after.fields[name] == before.fields[name]
    else before == after
  }

  lemma FollowedRefersToImported(auth: Value, decode: Decoder, imported: set<Root>, value: Value, root: Root)
    requires Followed(auth, decode, imported, value) && Refers(decode, value, root)
    ensures root in imported
  {
    var r :| Mentions(value, r) && ParseReference(decode, r).Ok? && RootOf(ParseReference(decode, r).value) == root;
    assert ReferenceFollowed(auth, decode, imported, r);
  }

  /** Once everything imported has been followed, everything reachable has been imported. */
  lemma {:induction false} ReachedIsImported(
    auth: Value, decode: Decoder, values: seq<Value>, imported: set<Root>, root: Root, steps: nat)
    requires AllFollowed(auth, decode, imported, imported)
    requires forall v | v in values :: Followed(auth, decode, imported, v)
    requires ReachedIn(auth, decode, values, root, steps)
    ensures root in imported
    decreases steps
  {
    hide Refers, SourceOf, Followed;
    if steps == 0 {
      var v :| v in values && Refers(decode, v, root);
      FollowedRefersToImported(auth, decode, imported, v, root);
    } else {
      var via: Root :| ReachedIn(auth, decode, values, via, steps - 1) && LeadsTo(auth, decode, via, root);
      ReachedIsImported(auth, decode, values, imported, via, steps - 1);
      FollowedRefersToImported(auth, decode, imported, SourceOf(auth, via).value, root);
    }
  }

  /** So what was imported is exactly what is reachable. */
  lemma ImportedIsReachable(auth: Value, decode: Decoder, values: seq<Value>, imported: set<Root>)
    requires AllFollowed(auth, decode, imported, imported) && AllReachable(auth, decode, values, imported)
    requires forall v | v in values :: Followed(auth, decode, imported, v)
    ensures forall root :: root in imported <==> Reachable(auth, decode, values, root)
  {
    hide Followed, AllFollowed, ReachedIn;
    forall root | Reachable(auth, decode, values, root) ensures root in imported {
      var steps: nat :| ReachedIn(auth, decode, values, root, steps);
      ReachedIsImported(auth, decode, values, imported, root, steps);
    }
  }

  // Growing.

  lemma FollowedGrows(auth: Value, decode: Decoder, before: set<Root>, after: set<Root>, value: Value)
    requires before <= after && Followed(auth, decode, before, value)
    ensures Followed(auth, decode, after, value)
  {
    forall r | Mentions(value, r) ensures ReferenceFollowed(auth, decode, after, r) {
      assert ReferenceFollowed(auth, decode, before, r);
    }
  }

  lemma AllFollowedGrows(auth: Value, decode: Decoder, before: set<Root>, after: set<Root>, roots: set<Root>)
    requires before <= after && AllFollowed(auth, decode, before, roots)
    ensures AllFollowed(auth, decode, after, roots)
  {
    forall root | root in roots ensures Followed(auth, decode, after, SourceOf(auth, root).value) {
      FollowedGrows(auth, decode, before, after, SourceOf(auth, root).value);
    }
  }

  lemma OnlyAddsComposes(
    a: map<string, Value>, b: map<string, Value>, c: map<string, Value>, first: set<Root>, second: set<Root>)
    requires OnlyAdds(a, b, first) && OnlyAdds(b, c, second)
    ensures OnlyAdds(a, c, first + second)
  {
    forall section | section in a ensures section in c && SectionOnlyGrows(a[section], c[section]) {
      assert SectionOnlyGrows(a[section], b[section]) && SectionOnlyGrows(b[section], c[section]);
    }
    forall section, name |
      section in c && c[section].Object? && name in c[section].fields
      && !(section in a && a[section].Object? && name in a[section].fields)
      ensures (section, name) in first + second
    {
      if section in b && b[section].Object? && name in b[section].fields {
        assert (section, name) in first;
      }
    }
  }

  /** What an import from `values` makes of the sections and of the set of imported components. */
  ghost predicate Achieved(
    auth: Value, decode: Decoder, values: seq<Value>, before: map<string, Value>, had: set<Root>,
    after: map<string, Value>, has: set<Root>)
  {
    && had <= has && Carries(auth, after, has)
    && AllFollowed(auth, decode, has, has - had)
    && AllReachable(auth, decode, values, has - had)
    && OnlyAdds(before, after, has - had)
  }

  lemma ImportKeeps(
    auth: Value, decode: Decoder, values: seq<Value>, before: map<string, Value>, had: set<Root>,
    after: map<string, Value>, has: set<Root>)
    requires Achieved(auth, decode, values, before, had, after, has)
    ensures had <= has && Carries(auth, after, has)
  {
  }

  lemma NothingIsAchieved(auth: Value, decode: Decoder, values: seq<Value>, components: map<string, Value>, imported: set<Root>)
    requires Carries(auth, components, imported)
    ensures Achieved(auth, decode, values, components, imported, components, imported)
  {
    assert imported - imported == {};
  }

  lemma AchievedComposes(
    auth: Value, decode: Decoder, values: seq<Value>, a: map<string, Value>, aHas: set<Root>, b: map<string, Value>,
    bHas: set<Root>, c: map<string, Value>, cHas: set<Root>)
    requires Achieved(auth, decode, values, a, aHas, b, bHas) && Achieved(auth, decode, values, b, bHas, c, cHas)
    ensures Achieved(auth, decode, values, a, aHas, c, cHas)
  {
    hide Followed, Carries, OnlyAdds, SourceOf, Reachable;
    assert cHas - aHas == (bHas - aHas) + (cHas - bHas);
    AllFollowedGrows(auth, decode, bHas, cHas, bHas - aHas);
    OnlyAddsComposes(a, b, c, bHas - aHas, cHas - bHas);
  }

  lemma ReferenceFollowedGrows(auth: Value, decode: Decoder, before: set<Root>, after: set<Root>, reference: string)
    requires before <= after && ReferenceFollowed(auth, decode, before, reference)
    ensures ReferenceFollowed(auth, decode, after, reference)
  {
  }

  lemma {:induction false} ReachedInMore(
    auth: Value, decode: Decoder, values: seq<Value>, more: seq<Value>, root: Root, steps: nat)
    requires (forall v | v in values :: v in more) && ReachedIn(auth, decode, values, root, steps)
    ensures ReachedIn(auth, decode, more, root, steps)
    decreases steps
  {
    hide Refers, SourceOf;
    if steps > 0 {
      var via: Root :| ReachedIn(auth, decode, values, via, steps - 1) && LeadsTo(auth, decode, via, root);
      ReachedInMore(auth, decode, values, more, via, steps - 1);
    }
  }

  lemma AchievedFromMore(
    auth: Value, decode: Decoder, values: seq<Value>, more: seq<Value>, before: map<string, Value>, had: set<Root>,
    after: map<string, Value>, has: set<Root>)
    requires (forall v | v in values :: v in more) && Achieved(auth, decode, values, before, had, after, has)
    ensures Achieved(auth, decode, more, before, had, after, has)
  {
    hide Carries, AllFollowed, OnlyAdds, ReachedIn;
    forall root | root in has - had ensures Reachable(auth, decode, more, root) {
      assert Reachable(auth, decode, values, root);
      var steps: nat :| ReachedIn(auth, decode, values, root, steps);
      ReachedInMore(auth, decode, values, more, root, steps);
    }
  }

  /** Placing a component and following it is one step of the import of a value that refers to it. */
  lemma RootIsAchieved(
    auth: Value, decode: Decoder, values: seq<Value>, value: Value, root: Root, before: map<string, Value>,
    had: set<Root>, placed: map<string, Value>, after: map<string, Value>, has: set<Root>)
    requires value in values && Refers(decode, value, root) && root !in had && SourceOf(auth, root).Some?
    requires OnlyAdds(before, placed, {root})
    requires Achieved(auth, decode, [SourceOf(auth, root).value], placed, had + {root}, after, has)
    requires Followed(auth, decode, has, SourceOf(auth, root).value)
    ensures Achieved(auth, decode, values, before, had, after, has)
  {
    hide Followed, Carries, OnlyAdds, SourceOf, Reachable, Refers;
    var later := has - (had + {root});
    assert has - had == {root} + later;
    OnlyAddsComposes(before, placed, after, {root}, later);
    ReferredIsReachable(auth, decode, values, value, root);
    forall other | other in later ensures Reachable(auth, decode, values, other) {
      ReachableThrough(auth, decode, values, value, root, other);
    }
  }

  // Placing one component.

  /** The section is absent or an object, and the name is free or holds an equal value. */
  predicate Fits(components: map<string, Value>, root: Root, source: Value) {
    root.0 in components ==>
      components[root.0].Object?
      && (root.1 in components[root.0].fields ==> components[root.0].fields[root.1] == source)
  }

  function Placed(components: map<string, Value>, root: Root, source: Value): map<string, Value>
    requires Fits(components, root, source)
  {
    var section := if root.0 in components then components[root.0].fields else map[];
    components[root.0 := Object(section[root.1 := source])]
  }

  lemma PlacingOnlyAdds(auth: Value, components: map<string, Value>, imported: set<Root>, root: Root, source: Value)
    requires Fits(components, root, source) && SourceOf(auth, root) == Some(source) && Carries(auth, components, imported)
    ensures OnlyAdds(components, Placed(components, root, source), {root})
    ensures Carries(auth, Placed(components, root, source), imported + {root})
  {
    hide SourceOf;
  }

  // What stands in the way of an import.

  /** The reference points into a component, and to something that is there. */
  ghost predicate IsSound(auth: Value, decode: Decoder, reference: string) {
    ParseReference(decode, reference).Ok? && Resolve(auth, ParseReference(decode, reference).value).Some?
  }

  ghost predicate HasUnsound(auth: Value, decode: Decoder, value: Value) {
    exists r | Mentions(value, r) :: !IsSound(auth, decode, r)
  }

  /** The component is there, but something else has its place or it holds a reference that is not sound. */
  ghost predicate Hinders(auth: Value, decode: Decoder, components: map<string, Value>, root: Root) {
    && SourceOf(auth, root).Some?
    && (!Fits(components, root, SourceOf(auth, root).value) || HasUnsound(auth, decode, SourceOf(auth, root).value))
  }

  /** A reference that is not sound, or a component without room, in the values or in anything reachable from them. */
  ghost predicate Obstructed(auth: Value, decode: Decoder, values: seq<Value>, components: map<string, Value>) {
    || (exists v | v in values :: HasUnsound(auth, decode, v))
    || (exists root | Reachable(auth, decode, values, root) :: Hinders(auth, decode, components, root))
  }

  lemma UnsoundObstructs(
    auth: Value, decode: Decoder, values: seq<Value>, value: Value, reference: string, components: map<string, Value>)
    requires value in values && Mentions(value, reference) && !IsSound(auth, decode, reference)
    ensures Obstructed(auth, decode, values, components)
  {
    assert HasUnsound(auth, decode, value);
  }

  /** A component without room now had none at the start either, unless it was imported since. */
  lemma NoRoomAtTheStart(
    auth: Value, start: map<string, Value>, components: map<string, Value>, imported: set<Root>, root: Root, source: Value)
    requires OnlyAdds(start, components, imported) && root !in imported && !Fits(components, root, source)
    ensures !Fits(start, root, source)
  {
    if root.0 in start {
      assert SectionOnlyGrows(start[root.0], components[root.0]);
    }
  }

  lemma NoRoomObstructs(
    auth: Value, decode: Decoder, values: seq<Value>, value: Value, root: Root, start: map<string, Value>)
    requires value in values && Refers(decode, value, root) && SourceOf(auth, root).Some?
    requires !Fits(start, root, SourceOf(auth, root).value)
    ensures Obstructed(auth, decode, values, start)
  {
    hide Fits, SourceOf, Refers;
    ReferredIsReachable(auth, decode, values, value, root);
    assert Hinders(auth, decode, start, root);
  }

  lemma ObstructedThrough(
    auth: Value, decode: Decoder, values: seq<Value>, value: Value, root: Root, start: map<string, Value>)
    requires value in values && Refers(decode, value, root) && SourceOf(auth, root).Some?
    requires Obstructed(auth, decode, [SourceOf(auth, root).value], start)
    ensures Obstructed(auth, decode, values, start)
  {
    hide Fits, SourceOf, Refers, Reachable, HasUnsound;
    var source := SourceOf(auth, root).value;
    if HasUnsound(auth, decode, source) {
      ReferredIsReachable(auth, decode, values, value, root);
      assert Hinders(auth, decode, start, root);
    } else {
      var other :| Reachable(auth, decode, [source], other) && Hinders(auth, decode, start, other);
      ReachableThrough(auth, decode, values, value, root, other);
    }
  }

  lemma ObstructedInMore(auth: Value, decode: Decoder, values: seq<Value>, more: seq<Value>, start: map<string, Value>)
    requires (forall v | v in values :: v in more) && Obstructed(auth, decode, values, start)
    ensures Obstructed(auth, decode, more, start)
  {
    hide HasUnsound, Hinders, ReachedIn;
    if root :| Reachable(auth, decode, values, root) && Hinders(auth, decode, start, root) {
      var steps: nat :| ReachedIn(auth, decode, values, root, steps);
      ReachedInMore(auth, decode, values, more, root, steps);
      assert Reachable(auth, decode, more, root);
    }
  }

  /** Where everything has been followed, nothing stood in the way. */
  lemma FollowedIsNotObstructed(
    auth: Value, decode: Decoder, values: seq<Value>, start: map<string, Value>, components: map<string, Value>,
    imported: set<Root>)
    requires Carries(auth, components, imported) && OnlyAdds(start, components, imported)
    requires AllFollowed(auth, decode, imported, imported)
    requires forall v | v in values :: Followed(auth, decode, imported, v)
    ensures !Obstructed(auth, decode, values, start)
  {
    hide SourceOf, ReachedIn, Mentions, OnlyAdds, Carries, Hinders;
    forall v | Followed(auth, decode, imported, v) ensures !HasUnsound(auth, decode, v) {
      forall r | Mentions(v, r) ensures IsSound(auth, decode, r) {
        assert ReferenceFollowed(auth, decode, imported, r);
      }
    }
    forall root | Reachable(auth, decode, values, root) ensures !Hinders(auth, decode, start, root) {
      var steps: nat :| ReachedIn(auth, decode, values, root, steps);
      ReachedIsImported(auth, decode, values, imported, root, steps);
      ImportedHadRoom(auth, decode, start, components, imported, root);
    }
  }

  lemma ImportedHadRoom(
    auth: Value, decode: Decoder, start: map<string, Value>, components: map<string, Value>, imported: set<Root>, root: Root)
    requires Carries(auth, components, imported) && OnlyAdds(start, components, imported) && root in imported
    requires SourceOf(auth, root).Some? ==> !HasUnsound(auth, decode, SourceOf(auth, root).value)
    ensures !Hinders(auth, decode, start, root)
  {
    hide SourceOf, HasUnsound;
    if root.0 in start {
      assert SectionOnlyGrows(start[root.0], components[root.0]);
    }
  }

  /** The component sections under construction, and the components imported so far. */
  class Importer {
    var components: map<string, Value>
    var imported: set<Root>

    constructor (components: map<string, Value>)
      ensures this.components == components && imported == {}
    {
      this.components := components;
      imported := {};
    }

    method Place(root: Root, source: Value) returns (result: Result<(), ImportError>)
      modifies this
      ensures result.Ok? <==> Fits(old(components), root, source)
      ensures result.Ok? ==>
        components == Placed(old(components), root, source) && imported == old(imported) + {root}
      ensures result.Err? ==> components == old(components) && imported == old(imported)
      ensures result.Err? ==> result.error.SectionIsNoObject? || result.error.Collision?
    {
      var section: map<string, Value> := map[];
      if root.0 in components {
        if !components[root.0].Object? {
          return Err(SectionIsNoObject(root.0));
        }
        section := components[root.0].fields;
      }
      if root.1 in section {
        JsonEqualIsEquality(section[root.1], source);
        if !JsonEqual(section[root.1], source) {
          return Err(Collision(root.0, root.1));
        }
      } else {
        section := section[root.1 := source];
      }
      ghost var placed := section[root.1 := source];
      assert section == placed;
      components := components[root.0 := Object(section)];
      imported := imported + {root};
      result := Ok(());
    }

    /** One reference: it must resolve; its component is placed unless it was, and then followed in turn. */
    method ImportReference(
      auth: Value, decode: Decoder, reference: string, ghost values: seq<Value>, ghost value: Value,
      ghost start: map<string, Value>)
      returns (result: Result<(), ImportError>)
      requires OnlyAdds(start, components, imported)
      requires Carries(auth, components, imported) && value in values && Mentions(value, reference)
      modifies this
      ensures result.Ok? ==> Achieved(auth, decode, values, old(components), old(imported), components, imported)
      ensures result.Ok? ==> ReferenceFollowed(auth, decode, imported, reference)
      ensures result.Ok? ==> OnlyAdds(start, components, imported)
      ensures result.Err? ==> Obstructed(auth, decode, values, start)
      ensures result.Err? ==> !result.error.DanglingComponent?
      decreases AllRoots(auth) - imported, 0
    {
      hide SourceOf, AllRoots, Carries, Followed, Reachable, OnlyAdds, Placed, Fits, Mentions, Resolve, Achieved, Obstructed;
      var parsed := ParseReference(decode, reference);
      if parsed.Err? {
        UnsoundObstructs(auth, decode, values, value, reference, start);
        return Err(parsed.error);
      }
      var segments := parsed.value;
      if Resolve(auth, segments).None? {
        UnsoundObstructs(auth, decode, values, value, reference, start);
        return Err(DanglingReference(reference));
      }
      RootOfResolvedReference(auth, segments);
      var root := RootOf(segments);
      NothingIsAchieved(auth, decode, values, components, imported);
      if root in imported {
        return Ok(());
      }
      var source := SourceOf(auth, root);
      if source.None? {
        return Err(DanglingComponent(reference));
      }
      ghost var before, had := components, imported;
      assert Refers(decode, value, root);
      result := Place(root, source.value);
      if result.Err? {
        NoRoomAtTheStart(auth, start, before, had, root, source.value);
        NoRoomObstructs(auth, decode, values, value, root, start);
        return;
      }
      ghost var placed := components;
      PlacingOnlyAdds(auth, before, had, root, source.value);
      OnlyAddsComposes(start, before, placed, had, {root});
      assert root in AllRoots(auth);
      result := Import(auth, decode, [source.value], start);
      if result.Err? {
        ObstructedThrough(auth, decode, values, value, root, start);
      } else {
        RootIsAchieved(auth, decode, values, value, root, before, had, placed, components, imported);
        ImportKeeps(auth, decode, [source.value], placed, had + {root}, components, imported);
      }
    }

    /** Every reference of one value, in any order. */
    method ImportValue(
      auth: Value, decode: Decoder, value: Value, ghost values: seq<Value>, ghost start: map<string, Value>)
      returns (result: Result<(), ImportError>)
      requires OnlyAdds(start, components, imported)
      requires Carries(auth, components, imported) && value in values
      modifies this
      ensures result.Ok? ==> Achieved(auth, decode, values, old(components), old(imported), components, imported)
      ensures result.Ok? ==> Followed(auth, decode, imported, value)
      ensures result.Ok? ==> OnlyAdds(start, components, imported)
      ensures result.Err? ==> Obstructed(auth, decode, values, start)
      ensures result.Err? ==> !result.error.DanglingComponent?
      decreases AllRoots(auth) - imported, 1
    {
      hide AllRoots, Carries, Achieved, References, Mentions, ReferenceFollowed, OnlyAdds, Obstructed;
      ReferencesExactly(value);
      NothingIsAchieved(auth, decode, values, components, imported);
      var pending := References(value);
      while pending != {}
        invariant pending <= References(value) && OnlyAdds(start, components, imported)
        invariant Carries(auth, components, imported) && old(imported) <= imported
        invariant Achieved(auth, decode, values, old(components), old(imported), components, imported)
        invariant forall r | r in References(value) - pending :: ReferenceFollowed(auth, decode, imported, r)
      {
        var reference :| reference in pending;
        ghost var before, had := components, imported;
        result := ImportReference(auth, decode, reference, values, value, start);
        if result.Err? {
          return;
        }
        pending := pending - {reference};
        ImportKeeps(auth, decode, values, before, had, components, imported);
        AchievedComposes(auth, decode, values, old(components), old(imported), before, had, components, imported);
        forall r | r in References(value) - pending ensures ReferenceFollowed(auth, decode, imported, r) {
          if r != reference {
            ReferenceFollowedGrows(auth, decode, had, imported, r);
          }
        }
      }
      result := Ok(());
    }

    /** `importReachableComponents`; it fails only over an obstacle that was there at the start. */
    method Import(auth: Value, decode: Decoder, values: seq<Value>, ghost start: map<string, Value>)
      returns (result: Result<(), ImportError>)
      requires OnlyAdds(start, components, imported)
      requires Carries(auth, components, imported)
      modifies this
      ensures result.Ok? ==> Achieved(auth, decode, values, old(components), old(imported), components, imported)
      ensures result.Ok? ==> forall v | v in values :: Followed(auth, decode, imported, v)
      ensures result.Ok? ==> OnlyAdds(start, components, imported)
      ensures result.Err? ==> Obstructed(auth, decode, values, start)
      ensures result.Err? ==> !result.error.DanglingComponent?
      decreases AllRoots(auth) - imported, 2
    {
      hide AllRoots, Carries, Achieved, Followed, OnlyAdds, Obstructed;
      NothingIsAchieved(auth, decode, values, components, imported);
      for i := 0 to |values|
        invariant OnlyAdds(start, components, imported)
        invariant Carries(auth, components, imported) && old(imported) <= imported
        invariant Achieved(auth, decode, values, old(components), old(imported), components, imported)
        invariant forall j | 0 <= j < i :: Followed(auth, decode, imported, values[j])
      {
        ghost var before, had := components, imported;
        result := ImportValue(auth, decode, values[i], values, start);
        if result.Err? {
          return;
        }
        ImportKeeps(auth, decode, values, before, had, components, imported);
        AchievedComposes(auth, decode, values, old(components), old(imported), before, had, components, imported);
        forall j | 0 <= j < i ensures Followed(auth, decode, imported, values[j]) {
          FollowedGrows(auth, decode, had, imported, values[j]);
        }
      }
      result := Ok(());
    }
  }
}
