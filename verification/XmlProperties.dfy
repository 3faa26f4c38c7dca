/** Property names of a PROPFIND request, each answered once. */
module XmlProperties {
  import opened XmlParser

  datatype PropertyName = PropertyName(namespace: string, name: string)

  /** The set key of a property: its namespace and its name, on two lines. */
  function KeyOf(property: PropertyName): string {
    property.namespace + ['\n'] + property.name
  }

  lemma LongerNamespaceDiffers(a: PropertyName, b: PropertyName)
    requires '\n' !in a.name && |a.namespace| < |b.namespace|
    ensures KeyOf(a) != KeyOf(b)
  {
    var at := |b.namespace|;
    assert KeyOf(b)[at] == '\n';
    if at < |KeyOf(a)| {
      assert KeyOf(a)[at] == a.name[at - |a.namespace| - 1] && KeyOf(a)[at] in a.name;
    }
  }

  /** Element names hold no line break, so the key tells properties apart whatever the namespaces hold. */
  lemma KeysAreDistinct(a: PropertyName, b: PropertyName)
    requires '\n' !in a.name && '\n' !in b.name
    ensures KeyOf(a) == KeyOf(b) <==> a == b
  {
    if |a.namespace| < |b.namespace| {
      LongerNamespaceDiffers(a, b);
    } else if |b.namespace| < |a.namespace| {
      LongerNamespaceDiffers(b, a);
    } else {
      assert KeyOf(a)[..|a.namespace|] == a.namespace && KeyOf(b)[..|b.namespace|] == b.namespace;
      assert KeyOf(a)[|a.namespace| + 1..] == a.name && KeyOf(b)[|b.namespace| + 1..] == b.name;
    }
  }

  /** The first occurrence of every property, in order. */
  function FirstOccurrences(properties: seq<PropertyName>): (r: seq<PropertyName>)
    ensures forall p :: p in r <==> p in properties
    ensures forall i, j | 0 <= i < j < |r| :: r[i] != r[j]
  {
    if properties == [] then []
    else
      var init, last := properties[..|properties| - 1], properties[|properties| - 1];
      assert properties == init + [last];
      var before := FirstOccurrences(init);
      if last in init then before else before + [last]
  }

  /** The place is the first at which its property stands. */
  predicate IsFirstPlace(properties: seq<PropertyName>, k: nat) {
    k < |properties| && forall j | 0 <= j < k :: properties[j] != properties[k]
  }

  /** What is kept stands in the order of those places, and all of them are kept. */
  lemma {:induction false} FirstPlacesInOrder(properties: seq<PropertyName>) returns (places: seq<nat>)
    ensures |places| == |FirstOccurrences(properties)|
    ensures forall i | 0 <= i < |places| ::
      IsFirstPlace(properties, places[i]) && FirstOccurrences(properties)[i] == properties[places[i]]
    ensures forall i, j | 0 <= i < j < |places| :: places[i] < places[j]
    ensures forall k: nat | IsFirstPlace(properties, k) :: k in places
    decreases |properties|
  {
    if properties == [] {
      places := [];
    } else {
      var n := |properties| - 1;
      var init, last := properties[..n], properties[n];
      assert properties == init + [last];
      places := FirstPlacesInOrder(init);
      ghost var before := places;
      forall k: nat ensures k < n ==> (IsFirstPlace(properties, k) <==> IsFirstPlace(init, k)) {
        FirstPlaceInPrefix(properties, n, k);
      }
      if last !in init {
        places := places + [n];
      } else {
        var j :| 0 <= j < |init| && init[j] == last;
        assert properties[j] == properties[n] && !IsFirstPlace(properties, n);
      }
      forall k: nat | IsFirstPlace(properties, k) ensures k in places {
        if k < n {
          assert k in before;
        }
      }
    }
  }

  lemma FirstPlaceInPrefix(properties: seq<PropertyName>, n: nat, k: nat)
    requires n < |properties|
    ensures k < n ==> (IsFirstPlace(properties, k) <==> IsFirstPlace(properties[..n], k))
  {
  }

  lemma OneMoreProperty(properties: seq<PropertyName>, i: nat)
    requires i < |properties|
    ensures var before := FirstOccurrences(properties[..i]);
      FirstOccurrences(properties[..i + 1]) == if properties[i] in properties[..i] then before else before + [properties[i]]
  {
    assert properties[..i + 1][..i] == properties[..i];
  }

  /** The key is that of one of the first properties. */
  predicate IsKeyAmong(key: string, properties: seq<PropertyName>, i: nat)
    requires i <= |properties|
  {
    exists j | 0 <= j < i :: KeyOf(properties[j]) == key
  }

  lemma KeyTellsOccurrence(properties: seq<PropertyName>, i: nat)
    requires i < |properties| && forall p | p in properties :: '\n' !in p.name
    ensures IsKeyAmong(KeyOf(properties[i]), properties, i) <==> properties[i] in properties[..i]
  {
    hide KeyOf;
    if IsKeyAmong(KeyOf(properties[i]), properties, i) {
      var j :| 0 <= j < i && KeyOf(properties[j]) == KeyOf(properties[i]);
      KeysAreDistinct(properties[j], properties[i]);
      assert properties[..i][j] == properties[i];
    }
  }

  /** `uniqueProperties`, which filters against a growing set of keys. */
  method UniqueProperties(properties: seq<PropertyName>) returns (unique: seq<PropertyName>)
    requires forall p | p in properties :: '\n' !in p.name
    ensures unique == FirstOccurrences(properties)
  {
    hide KeyOf, FirstOccurrences;
    var seen: set<string> := {};
    unique := [];
    var i := 0;
    NoProperties(properties[..0]);
    while i < |properties|
      invariant 0 <= i <= |properties|
      invariant unique == FirstOccurrences(properties[..i])
      invariant forall key :: key in seen <==> IsKeyAmong(key, properties, i)
    {
      var property := properties[i];
      OneMoreProperty(properties, i);
      KeyTellsOccurrence(properties, i);
      if KeyOf(property) !in seen {
        seen := seen + {KeyOf(property)};
        unique := unique + [property];
      }
      i := i + 1;
    }
    assert properties[..i] == properties;
  }

  lemma NoProperties(properties: seq<PropertyName>)
    requires properties == []
    ensures FirstOccurrences(properties) == []
  {
  }

  datatype Mode = AllProp | PropName | Prop

  const LIVE_NAMES: seq<string> := [
    "displayname", "creationdate", "getetag", "resourcetype", "getcontentlength", "getcontenttype", "getlastmodified",
    "supportedlock", "lockdiscovery"]

  function LiveProperties(): seq<PropertyName> {
    seq(|LIVE_NAMES|, i requires 0 <= i < |LIVE_NAMES| => PropertyName(DAV, LIVE_NAMES[i]))
  }

  /** `requestedProperties`: what was asked for by name, or every known property once, with any further includes. */
  function RequestedProperties(
    mode: Mode, named: seq<PropertyName>, dead: seq<PropertyName>, further: seq<PropertyName>): (r: seq<PropertyName>)
    ensures mode.Prop? ==> r == named
    ensures !mode.Prop? ==> forall i, j | 0 <= i < j < |r| :: r[i] != r[j]
    ensures mode.AllProp? ==> forall p :: p in r <==> (p in LiveProperties() || p in dead || p in further)
    ensures mode.PropName? ==> forall p :: p in r <==> (p in LiveProperties() || p in dead)
  {
    var all := LiveProperties() + dead;
    match mode
    case Prop => named
    case PropName => FirstOccurrences(all)
    case AllProp => FirstOccurrences(all + further)
  }
}
