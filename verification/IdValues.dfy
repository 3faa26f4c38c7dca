/** Value formats, the old-to-new map, and the substitution of mapped values in colon-separated keys. */
module IdValues {
  import opened IdRegistry
  import opened Text

  predicate IsBase62Char(c: char) {
    'A' <= c <= 'Z' || 'a' <= c <= 'z' || '0' <= c <= '9'
  }

  /** `GLOB '*[^A-Za-z0-9]*'`: some character lies outside the alphabet. The empty string does not match. */
  predicate HasForeignChar(value: string) {
    exists i | 0 <= i < |value| :: !IsBase62Char(value[i])
  }

  /** By their codes: the digits, the capitals and the small letters of ASCII. */
  predicate IsLetterOrDigit(c: char) {
    48 <= c as int <= 57 || 65 <= c as int <= 90 || 97 <= c as int <= 122
  }

  /** Empty, or with some character that is neither a letter nor a digit. */
  predicate IsMalformed(value: string) {
    value == "" || exists c | c in value :: !IsLetterOrDigit(c)
  }

  lemma MalformedExactlyIf(value: string)
    ensures IsMalformed(value) <==> value == "" || HasForeignChar(value)
  {
    if HasForeignChar(value) {
      var i :| 0 <= i < |value| && !IsBase62Char(value[i]);
      assert value[i] in value;
    }
  }

  /** The format every mapped value of a kind must have, as the generator and the JSON scan check it. */
  predicate MappedValueIsValid(kind: Kind, value: string) {
    match kind
    case ShareToken => |value| == 12 && value[0] == 's' && !HasForeignChar(value[1..])
    case ImageToken => |value| == 12 && value[0] == 'i' && !HasForeignChar(value[1..])
    case _ => value != "" && !HasForeignChar(value)
  }

  /** The SQL predicate that counts values of a wrong format, with SQLite's one-based `substr`. */
  predicate InvalidValue(kind: Kind, value: string, allowEmpty: bool) {
    var invalid :=
      match kind
      case ShareToken => |value| != 12 || Substr(value, 1, 1) != "s" || HasForeignChar(SubstrFrom(value, 2))
      case ImageToken => |value| != 12 || Substr(value, 1, 1) != "i" || HasForeignChar(SubstrFrom(value, 2))
      case _ => value == "" || HasForeignChar(value);
    if allowEmpty then value != "" && invalid else invalid
  }

  function SubstrFrom(value: string, start: nat): string
    requires start >= 1
  {
    if start - 1 <= |value| then value[start - 1..] else ""
  }

  function Substr(value: string, start: nat, length: nat): string
    requires start >= 1
  {
    var tail := SubstrFrom(value, start);
    if length <= |tail| then tail[..length] else tail
  }

  /** The SQL predicate and the pattern test reject the same values. */
  lemma FormatChecksAgree(kind: Kind, value: string)
    ensures InvalidValue(kind, value, false) <==> !MappedValueIsValid(kind, value)
    ensures InvalidValue(kind, value, true) <==> value != "" && !MappedValueIsValid(kind, value)
  {
    if |value| == 12 {
      assert value[0..][..1] == [value[0]];
      assert [value[0]] == "s" <==> value[0] == 's';
      assert [value[0]] == "i" <==> value[0] == 'i';
    }
  }

  lemma ValidValuesAreBase62(kind: Kind, value: string)
    requires MappedValueIsValid(kind, value)
    ensures value != "" && !HasForeignChar(value)
  {
    if kind == ShareToken || kind == ImageToken {
      forall i | 0 <= i < |value| ensures IsBase62Char(value[i]) {
        assert i > 0 ==> value[i] == value[1..][i - 1];
      }
    }
  }

  /** The map table as a function: (kind, old value) to new value. */
  type IdMap = map<(Kind, string), string>

  /** A value with its replacement under one kind, or itself when it has none. */
  function Renamed(m: IdMap, kind: Kind, value: string): string {
    if (kind, value) in m then m[(kind, value)] else value
  }

  ghost predicate NewValuesValid(m: IdMap) {
    forall key | key in m :: MappedValueIsValid(key.0, m[key])
  }

  ghost predicate NewValuesDistinct(m: IdMap) {
    forall a, b | a in m && b in m && m[a] == m[b] :: a == b
  }

  /** Only malformed values are mapped under the kinds that are not rotated. */
  ghost predicate UnrotatedOldValuesInvalid(m: IdMap) {
    forall key | key in m && !RotatesAll(key.0) :: !MappedValueIsValid(key.0, key.1)
  }

  ghost predicate RotatedOldAndNewDisjoint(m: IdMap) {
    forall a, b | a in m && b in m && a.0 == b.0 && RotatesAll(a.0) :: m[a] != b.1
  }

  ghost predicate WellFormedMap(m: IdMap) {
    && NewValuesValid(m)
    && UnrotatedOldValuesInvalid(m)
    && RotatedOldAndNewDisjoint(m)
  }

  /** For the kinds that are not rotated, the alphabet alone keeps old and new values apart. */
  lemma AlphabetSeparatesOldFromNew(m: IdMap)
    requires NewValuesValid(m) && UnrotatedOldValuesInvalid(m)
    ensures forall a, b | a in m && b in m && a.0 == b.0 && !RotatesAll(a.0) :: m[a] != b.1
  {
    forall a, b | a in m && b in m && a.0 == b.0 && !RotatesAll(a.0) ensures m[a] != b.1 {
      assert MappedValueIsValid(a.0, m[a]) && !MappedValueIsValid(b.0, b.1);
    }
  }

  lemma RenamingIsIdempotent(m: IdMap, kind: Kind, value: string)
    requires WellFormedMap(m)
    ensures Renamed(m, kind, Renamed(m, kind, value)) == Renamed(m, kind, value)
    ensures (kind, value) in m ==> (kind, m[(kind, value)]) !in m
  {
    AlphabetSeparatesOldFromNew(m);
    if (kind, value) in m {
      var next := (kind, m[(kind, value)]);
      assert next.1 == m[(kind, value)];
    }
  }

  // Colon-separated keys.

  function RenamedParts(m: IdMap, kind: Kind, parts: seq<string>): (r: seq<string>)
    ensures |r| == |parts|
  {
    seq(|parts|, i requires 0 <= i < |parts| => Renamed(m, kind, parts[i]))
  }

  /** `replaceSegments` over the mappings of one kind. */
  function ReplaceSegments(m: IdMap, kind: Kind, value: string): string {
    Join(RenamedParts(m, kind, Split(value, ':')), ':')
  }

  lemma RenamedPartsLackColons(m: IdMap, kind: Kind, value: string)
    requires NewValuesValid(m)
    ensures var parts := RenamedParts(m, kind, Split(value, ':')); |parts| >= 1 && forall part | part in parts :: ':' !in part
  {
    SplitPartsLackSeparator(value, ':');
    var before := Split(value, ':');
    var parts := RenamedParts(m, kind, before);
    forall part | part in parts ensures ':' !in part {
      var i :| 0 <= i < |parts| && parts[i] == part;
      assert before[i] in before;
      if (kind, before[i]) in m {
        ValidValuesAreBase62(kind, part);
      }
    }
  }

  /** The segments of the result are exactly the segments of the key, each renamed: none is split or merged. */
  lemma ReplaceSegmentsKeepsStructure(m: IdMap, kind: Kind, value: string)
    requires NewValuesValid(m)
    ensures Split(ReplaceSegments(m, kind, value), ':') == RenamedParts(m, kind, Split(value, ':'))
    ensures |Split(ReplaceSegments(m, kind, value), ':')| == |Split(value, ':')|
  {
    RenamedPartsLackColons(m, kind, value);
    SplitOfJoin(RenamedParts(m, kind, Split(value, ':')), ':');
  }

  lemma ReplaceSegmentsWithoutColon(m: IdMap, kind: Kind, value: string)
    requires ':' !in value
    ensures ReplaceSegments(m, kind, value) == Renamed(m, kind, value)
  {
    SplitOfFree(value, ':');
  }

  /** An opening word that is not mapped stays. */
  lemma ReplaceSegmentsAfterWord(m: IdMap, kind: Kind, word: string, rest: string)
    requires ':' !in word && (kind, word) !in m
    ensures ReplaceSegments(m, kind, word + [':'] + rest) == word + [':'] + ReplaceSegments(m, kind, rest)
  {
    SplitAtSeparator(word, rest, ':');
    var parts := Split(rest, ':');
    assert RenamedParts(m, kind, [word] + parts) == [word] + RenamedParts(m, kind, parts);
    assert ([word] + RenamedParts(m, kind, parts))[1..] == RenamedParts(m, kind, parts);
  }

  /** A colon is never rewritten away. */
  lemma ColonsStay(m: IdMap, kind: Kind, value: string)
    requires NewValuesValid(m) && ':' in value
    ensures ':' in ReplaceSegments(m, kind, value) && HasForeignChar(ReplaceSegments(m, kind, value))
  {
    var result := ReplaceSegments(m, kind, value);
    ReplaceSegmentsKeepsStructure(m, kind, value);
    if ':' !in result {
      SplitOfFree(result, ':');
      SplitOfFreeOnly(value, ':');
      assert false;
    }
    var i :| 0 <= i < |result| && result[i] == ':';
    assert !IsBase62Char(result[i]);
  }

  lemma ReplaceSegmentsIsIdempotent(m: IdMap, kind: Kind, value: string)
    requires WellFormedMap(m)
    ensures ReplaceSegments(m, kind, ReplaceSegments(m, kind, value)) == ReplaceSegments(m, kind, value)
  {
    ReplaceSegmentsKeepsStructure(m, kind, value);
    var once := RenamedParts(m, kind, Split(value, ':'));
    forall i | 0 <= i < |once| ensures Renamed(m, kind, once[i]) == once[i] {
      RenamingIsIdempotent(m, kind, Split(value, ':')[i]);
    }
    assert RenamedParts(m, kind, once) == once;
  }

  /** Both substitutions at once, the first kind taking precedence. */
  function ReplaceSegmentsOfEither(m: IdMap, first: Kind, second: Kind, value: string): string {
    var parts := Split(value, ':');
    Join(seq(|parts|, i requires 0 <= i < |parts| =>
      if (first, parts[i]) in m then m[(first, parts[i])] else Renamed(m, second, parts[i])), ':')
  }

  /** Rewriting one unrotated kind after another is one simultaneous substitution. */
  lemma SequentialIsSimultaneous(m: IdMap, first: Kind, second: Kind, value: string)
    requires WellFormedMap(m)
    requires first.RowId? && second.RowId?
    ensures ReplaceSegments(m, second, ReplaceSegments(m, first, value)) == ReplaceSegmentsOfEither(m, first, second, value)
  {
    ReplaceSegmentsKeepsStructure(m, first, value);
    var parts := Split(value, ':');
    var once := RenamedParts(m, first, parts);
    var both := seq(|parts|, i requires 0 <= i < |parts| =>
      if (first, parts[i]) in m then m[(first, parts[i])] else Renamed(m, second, parts[i]));
    forall i | 0 <= i < |parts| ensures Renamed(m, second, once[i]) == both[i] {
      if (first, parts[i]) in m {
        assert MappedValueIsValid(first, once[i]) && MappedValueIsValid(second, once[i]);
        assert (second, once[i]) !in m;
      }
    }
    assert RenamedParts(m, second, once) == both;
  }

  /** So a second pass over an opening key finds nothing stale. */
  lemma OpeningKeysAreSettled(m: IdMap, first: Kind, second: Kind, value: string)
    requires WellFormedMap(m)
    requires first.RowId? && second.RowId?
    ensures var once := ReplaceSegments(m, second, ReplaceSegments(m, first, value));
      ReplaceSegments(m, second, ReplaceSegments(m, first, once)) == once
  {
    ReplaceSegmentsKeepsStructure(m, first, value);
    ReplaceSegmentsKeepsStructure(m, second, ReplaceSegments(m, first, value));
    var parts := Split(value, ':');
    var once := RenamedParts(m, second, RenamedParts(m, first, parts));
    forall i | 0 <= i < |parts| ensures Renamed(m, first, once[i]) == once[i] {
      var half := Renamed(m, first, parts[i]);
      RenamingIsIdempotent(m, first, parts[i]);
      if (second, half) in m {
        assert MappedValueIsValid(second, once[i]) && MappedValueIsValid(first, once[i]);
        assert (first, once[i]) !in m;
      }
    }
    assert RenamedParts(m, first, once) == once;
    JoinOfSplit(Join(once, ':'), ':');
    ReplaceSegmentsIsIdempotent(m, second, ReplaceSegments(m, first, value));
  }

  /** A key that changes contains one of the new values. */
  lemma ChangedSegmentsIncludeNewValue(m: IdMap, kind: Kind, value: string)
    requires ReplaceSegments(m, kind, value) != value
    ensures exists key :: key in m && Includes(ReplaceSegments(m, kind, value), m[key])
  {
    var parts := Split(value, ':');
    var renamed := RenamedParts(m, kind, parts);
    JoinOfSplit(value, ':');
    assert renamed != parts;
    var i :| 0 <= i < |parts| && renamed[i] != parts[i];
    assert (kind, parts[i]) in m;
    JoinIncludesPart(renamed, ':', i);
  }
}
