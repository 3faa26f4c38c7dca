/** JSON values, structural equality, the references inside a value, and JSON pointers. */
module OpenApiValues {
  import opened Wrappers
  import opened Text

  /** An object is a finite map: the order of its keys plays no part. */
  datatype Value =
    | Null
    | Bool(b: bool)
    | Number(n: real)
    | String(s: string)
    | Array(items: seq<Value>)
    | Object(fields: map<string, Value>)

  // Equality.

  /** `jsonEqual`: by length and items, or by the number of keys and the value under each. */
  predicate JsonEqual(left: Value, right: Value)
    decreases left
  {
    if left.Array? || right.Array? then
      left.Array? && right.Array? && |left.items| == |right.items|
      && forall i | 0 <= i < |left.items| :: JsonEqual(left.items[i], right.items[i])
    else if left.Object? && right.Object? then
      |left.fields.Keys| == |right.fields.Keys|
      && forall key | key in left.fields :: key in right.fields && JsonEqual(left.fields[key], right.fields[key])
    else left == right
  }

  lemma SameSizeSubset<T>(a: set<T>, b: set<T>)
    requires a <= b && |a| == |b|
    ensures a == b
  {
    if a != b {
      var extra :| extra in b && extra !in a;
      SubsetIsSmaller(a, b - {extra});
    }
  }

  lemma {:induction false} SubsetIsSmaller<T>(a: set<T>, b: set<T>)
    requires a <= b
    ensures |a| <= |b|
  {
    if a != {} {
      var x :| x in a;
      SubsetIsSmaller(a - {x}, b - {x});
    }
  }

  lemma {:induction false} JsonEqualIsEquality(left: Value, right: Value)
    ensures JsonEqual(left, right) <==> left == right
    decreases left
  {
    if left.Array? && right.Array? {
      forall i | 0 <= i < |left.items| && i < |right.items|
        ensures JsonEqual(left.items[i], right.items[i]) <==> left.items[i] == right.items[i]
      {
        JsonEqualIsEquality(left.items[i], right.items[i]);
      }
    } else if left.Object? && right.Object? {
      forall key | key in left.fields && key in right.fields
        ensures JsonEqual(left.fields[key], right.fields[key]) <==> left.fields[key] == right.fields[key]
      {
        JsonEqualIsEquality(left.fields[key], right.fields[key]);
      }
      if JsonEqual(left, right) {
        SameSizeSubset(left.fields.Keys, right.fields.Keys);
        assert left.fields == right.fields;
      }
    }
  }

  // Places inside a value.

  /** A step into a value: to an item of an array, or to what an object has under a key. */
  datatype Step = Item(index: nat) | Field(key: string)

  function Into(value: Value, step: Step): Option<Value> {
    match step
    case Item(index) => if value.Array? && index < |value.items| then Some(value.items[index]) else None
    case Field(key) => if value.Object? && key in value.fields then Some(value.fields[key]) else None
  }

  function ValueAt(value: Value, path: seq<Step>): Option<Value>
    decreases |path|
  {
    if path == [] then Some(value)
    else
      match Into(value, path[0])
      case None => None
      case Some(inner) => ValueAt(inner, path[1..])
  }

  /** At the path stands an object whose `$ref` is this string. */
  ghost predicate RefersAt(value: Value, path: seq<Step>, reference: string) {
    match ValueAt(value, path)
    case Some(Object(fields)) => "$ref" in fields && fields["$ref"] == String(reference)
    case _ => false
  }

  /** Somewhere inside the value, however deep, stands an object that refers to this string. */
  ghost predicate Mentions(value: Value, reference: string) {
    exists path: seq<Step> :: RefersAt(value, path, reference)
  }

  // References.

  function OwnReference(value: Value): set<string> {
    if value.Object? && "$ref" in value.fields && value.fields["$ref"].String? then {value.fields["$ref"].s} else {}
  }

  /** Every `$ref` string anywhere in a value. */
  function References(value: Value): set<string>
    decreases value
  {
    match value
    case Array(items) => set i, r | 0 <= i < |items| && r in References(items[i]) :: r
    case Object(fields) => OwnReference(value) + set key, r | key in fields && r in References(fields[key]) :: r
    case _ => {}
  }

  lemma RefersWithin(value: Value, step: Step, inner: Value, reference: string)
    requires Into(value, step) == Some(inner) && Mentions(inner, reference)
    ensures Mentions(value, reference)
  {
    var path :| RefersAt(inner, path, reference);
    assert ([step] + path)[1..] == path;
    assert RefersAt(value, [step] + path, reference);
  }

  lemma {:induction false} CollectedIsMentioned(value: Value, reference: string)
    requires reference in References(value)
    ensures Mentions(value, reference)
    decreases value
  {
    match value {
      case Array(items) =>
        var i :| 0 <= i < |items| && reference in References(items[i]);
        CollectedIsMentioned(items[i], reference);
        RefersWithin(value, Item(i), items[i], reference);
      case Object(fields) =>
        if reference in OwnReference(value) {
          assert RefersAt(value, [], reference);
        } else {
          var key :| key in fields && reference in References(fields[key]);
          CollectedIsMentioned(fields[key], reference);
          RefersWithin(value, Field(key), fields[key], reference);
        }
    }
  }

  lemma {:induction false} MentionedIsCollected(value: Value, path: seq<Step>, reference: string)
    requires RefersAt(value, path, reference)
    ensures reference in References(value)
    decreases |path|
  {
    if path != [] {
      MentionedIsCollected(Into(value, path[0]).value, path[1..], reference);
    }
  }

  /** The references collected from a value are those of the objects inside it, at whatever depth, and no others. */
  lemma ReferencesExactly(value: Value)
    ensures forall reference :: reference in References(value) <==> Mentions(value, reference)
  {
    hide References, RefersAt;
    forall reference ensures reference in References(value) <==> Mentions(value, reference) {
      if reference in References(value) {
        CollectedIsMentioned(value, reference);
      }
      forall path | RefersAt(value, path, reference) ensures reference in References(value) {
        MentionedIsCollected(value, path, reference);
      }
    }
  }

  // Pointers.

  function Decimal(n: nat): string {
    if n < 10 then [('0' as int + n) as char] else Decimal(n / 10) + [('0' as int + n % 10) as char]
  }

  /** The item whose index is written like the name. */
  function ItemNamed(items: seq<Value>, name: string, from: nat): Option<Value>
    requires from <= |items|
    decreases |items| - from
  {
    if from == |items| then None
    else if Decimal(from) == name then Some(items[from])
    else ItemNamed(items, name, from + 1)
  }

  /** One step of a pointer: a field, an item by its index, or the length of an array. */
  function Child(value: Value, name: string): Option<Value> {
    match value
    case Object(fields) => if name in fields then Some(fields[name]) else None
    case Array(items) => if name == "length" then Some(Number(|items| as real)) else ItemNamed(items, name, 0)
    case _ => None
  }

  /** The finitely many names under which a value has a child. */
  function ChildNames(value: Value): (names: set<string>)
    ensures forall name :: name in names <==> Child(value, name).Some?
  {
    match value
    case Object(fields) => fields.Keys
    case Array(items) =>
      ItemNames(items);
      {"length"} + set i | 0 <= i < |items| :: Decimal(i)
    case _ => {}
  }

  predicate HasIndex(items: seq<Value>, name: string, from: nat) {
    exists i | from <= i < |items| :: Decimal(i) == name
  }

  lemma {:induction false} ItemIsNamed(items: seq<Value>, name: string, from: nat)
    requires from <= |items|
    ensures ItemNamed(items, name, from).Some? <==> HasIndex(items, name, from)
    decreases |items| - from
  {
    hide Decimal;
    if from < |items| {
      ItemIsNamed(items, name, from + 1);
      if Decimal(from) == name {
        assert HasIndex(items, name, from);
      } else if HasIndex(items, name, from) {
        var i :| from <= i < |items| && Decimal(i) == name;
        assert from + 1 <= i;
      }
    }
  }

  lemma ItemNames(items: seq<Value>)
    ensures forall name :: ItemNamed(items, name, 0).Some? <==> HasIndex(items, name, 0)
  {
    forall name ensures ItemNamed(items, name, 0).Some? <==> HasIndex(items, name, 0) {
      ItemIsNamed(items, name, 0);
    }
  }

  // What a pointer step reaches.

  function NameOf(step: Step): string {
    match step
    case Item(index) => Decimal(index)
    case Field(key) => key
  }

  /** The number a text of digits denotes. */
  function NumberIn(digits: string): int {
    if digits == [] then 0
    else NumberIn(digits[..|digits| - 1]) * 10 + (digits[|digits| - 1] as int - '0' as int)
  }

  lemma {:induction false} DecimalReadsBack(n: nat)
    ensures NumberIn(Decimal(n)) == n && Decimal(n) != []
    ensures forall c | c in Decimal(n) :: '0' <= c <= '9'
    decreases n
  {
    if n >= 10 {
      DecimalReadsBack(n / 10);
      var text := Decimal(n);
      assert text[..|text| - 1] == Decimal(n / 10);
    }
  }

  lemma {:induction false} NamedItemIsFound(items: seq<Value>, index: nat, from: nat)
    requires from <= index < |items|
    ensures ItemNamed(items, Decimal(index), from) == Some(items[index])
    decreases index - from
  {
    hide Decimal;
    DecimalReadsBack(from);
    DecimalReadsBack(index);
    if from < index {
      NamedItemIsFound(items, index, from + 1);
    }
  }

  lemma {:induction false} FoundItemIsNamed(items: seq<Value>, name: string, from: nat) returns (index: nat)
    requires from <= |items| && ItemNamed(items, name, from).Some?
    ensures index < |items| && ItemNamed(items, name, from) == Some(items[index]) && Decimal(index) == name
    decreases |items| - from
  {
    hide Decimal;
    if Decimal(from) == name {
      index := from;
    } else {
      index := FoundItemIsNamed(items, name, from + 1);
    }
  }

  /** A name leads to what an object has under it, to the item with that index in decimal, or to a length. */
  lemma ChildIsStep(value: Value, name: string, child: Value)
    ensures Child(value, name) == Some(child) <==>
      || (exists step | Into(value, step) == Some(child) :: NameOf(step) == name)
      || (value.Array? && name == "length" && child == Number(|value.items| as real))
  {
    hide Decimal;
    forall step | Into(value, step) == Some(child) && NameOf(step) == name ensures Child(value, name) == Some(child) {
      if step.Item? {
        DecimalReadsBack(step.index);
        assert Decimal(step.index)[0] in Decimal(step.index) && "length"[0] == 'l';
        NamedItemIsFound(value.items, step.index, 0);
      }
    }
    if Child(value, name) == Some(child) {
      if value.Object? {
        assert Into(value, Field(name)) == Some(child) && NameOf(Field(name)) == name;
      } else if name != "length" {
        var index := FoundItemIsNamed(value.items, name, 0);
        assert Into(value, Item(index)) == Some(child) && NameOf(Item(index)) == name;
      }
    }
  }

  /** `resolvePointer`. */
  function Resolve(value: Value, segments: seq<string>): Option<Value>
    decreases |segments|
  {
    if segments == [] then Some(value)
    else
      match Child(value, segments[0])
      case None => None
      case Some(child) => Resolve(child, segments[1..])
  }

  lemma {:induction false} ResolveInSteps(value: Value, first: seq<string>, rest: seq<string>)
    ensures Resolve(value, first + rest) ==
      match Resolve(value, first)
      case None => None
      case Some(mid) => Resolve(mid, rest)
    decreases |first|
  {
    if first == [] {
      assert first + rest == rest;
    } else {
      assert (first + rest)[0] == first[0] && (first + rest)[1..] == first[1..] + rest;
      match Child(value, first[0])
      case None =>
      case Some(child) => ResolveInSteps(child, first[1..], rest);
    }
  }

  // Spelling of pointer segments, section 4 of RFC 6901.

  function UnescapeSegment(segment: string): string {
    ReplaceAll(ReplaceAll(segment, "~1", "/"), "~0", "~")
  }

  function SegmentEscape(c: char): string {
    if c == '~' then "~0" else if c == '/' then "~1" else [c]
  }

  /** How a name is written as a segment. */
  function EscapeSegment(name: string): string {
    Substitute(name, SegmentEscape)
  }

  /** The intermediate form, in which slashes are plain but tildes are still written "~0". */
  function TildeEscape(c: char): string {
    if c == '~' then "~0" else [c]
  }

  lemma EscapedTildeStays(rest: string)
    ensures ReplaceAll("~0" + rest, "~1", "/") == "~0" + ReplaceAll(rest, "~1", "/")
  {
    var text := "~0" + rest;
    assert text[1..] == "0" + rest && text[1] == '0';
    PassOver("0", rest, "~1", "/");
    assert ["~"[0]] + ("0" + ReplaceAll(rest, "~1", "/")) == "~0" + ReplaceAll(rest, "~1", "/");
  }

  lemma {:induction false} SlashesComeBack(name: string)
    ensures ReplaceAll(Substitute(name, SegmentEscape), "~1", "/") == Substitute(name, TildeEscape)
  {
    if name != [] {
      hide ReplaceAll;
      var rest := Substitute(name[1..], SegmentEscape);
      SlashesComeBack(name[1..]);
      if name[0] == '/' {
        ReplaceAtFront("~1", rest, "/");
      } else if name[0] == '~' {
        EscapedTildeStays(rest);
      } else {
        PassOver([name[0]], rest, "~1", "/");
      }
    }
  }

  lemma {:induction false} TildesComeBack(name: string)
    ensures ReplaceAll(Substitute(name, TildeEscape), "~0", "~") == name
  {
    if name != [] {
      hide ReplaceAll;
      var rest := Substitute(name[1..], TildeEscape);
      TildesComeBack(name[1..]);
      if name[0] == '~' {
        ReplaceAtFront("~0", rest, "~");
      } else {
        PassOver([name[0]], rest, "~0", "~");
      }
    }
  }

  /** Reading a segment undoes writing it, for every name: the order of the two replacements matters. */
  lemma SegmentRoundTrip(name: string)
    ensures UnescapeSegment(EscapeSegment(name)) == name
  {
    SlashesComeBack(name);
    TildesComeBack(name);
  }

  lemma {:induction false} EscapedSegmentLacksSlash(name: string)
    ensures '/' !in EscapeSegment(name)
  {
    if name != [] {
      EscapedSegmentLacksSlash(name[1..]);
    }
  }
}
