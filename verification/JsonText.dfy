/** JSON documents with ordered object entries, and the text `JSON.stringify` prints for them. */
module JsonText {
  import opened Wrappers
  import opened Text

  datatype Json =
    | JsonNull
    | JsonBool(truth: bool)
    | JsonNumber(literal: string)
    | JsonString(text: string)
    | JsonArray(items: seq<Json>)
    | JsonObject(entries: seq<Entry>)

  datatype Entry = Entry(key: string, value: Json)

  const HEX_DIGITS: string := "0123456789abcdef"

  function EscapeChar(c: char): string {
    if c == '"' then ['\\', '"']
    else if c == '\\' then ['\\', '\\']
    else if c as int == 8 then ['\\', 'b']
    else if c as int == 9 then ['\\', 't']
    else if c as int == 10 then ['\\', 'n']
    else if c as int == 12 then ['\\', 'f']
    else if c as int == 13 then ['\\', 'r']
    else if c as int < 32 then
      ['\\', 'u', '0', '0', HEX_DIGITS[c as int / 16], HEX_DIGITS[c as int % 16]]
    else [c]
  }

  function Quote(s: string): string {
    ['"'] + Substitute(s, EscapeChar) + ['"']
  }

  function Stringify(value: Json): string
    decreases value, 1
  {
    match value
    case JsonNull => "null"
    case JsonBool(truth) => if truth then "true" else "false"
    case JsonNumber(literal) => literal
    case JsonString(text) => Quote(text)
    case JsonArray(items) => ['['] + StringifyItems(items) + [']']
    case JsonObject(entries) => ['{'] + StringifyEntries(entries) + ['}']
  }

  function StringifyItems(items: seq<Json>): string
    decreases items, 0
  {
    if |items| == 0 then []
    else if |items| == 1 then Stringify(items[0])
    else Stringify(items[0]) + [','] + StringifyItems(items[1..])
  }

  function StringifyEntries(entries: seq<Entry>): string
    decreases entries, 0
  {
    if |entries| == 0 then []
    else if |entries| == 1 then StringifyEntry(entries[0])
    else StringifyEntry(entries[0]) + [','] + StringifyEntries(entries[1..])
  }

  function StringifyEntry(entry: Entry): string
    decreases entry, 0
  {
    Quote(entry.key) + [':'] + Stringify(entry.value)
  }

  // Where an unescaped string shows up in the printed text.

  predicate PrintsVerbatim(s: string) {
    forall c | c in s :: EscapeChar(c) == [c]
  }

  lemma QuoteIncludes(s: string, part: string)
    requires PrintsVerbatim(part)
    requires Includes(s, part)
    ensures Includes(Quote(s), part)
  {
    SubstituteIncludes(s, part, EscapeChar);
    IncludesInContext(['"'], Substitute(s, EscapeChar), ['"'], part);
  }

  lemma {:induction false} ItemsInclude(items: seq<Json>, i: nat, part: string)
    requires i < |items|
    requires Includes(Stringify(items[i]), part)
    ensures Includes(StringifyItems(items), part)
  {
    if |items| > 1 {
      var rest := [','] + StringifyItems(items[1..]);
      if i == 0 {
        IncludesInContext([], Stringify(items[0]), rest, part);
        assert [] + Stringify(items[0]) + rest == StringifyItems(items);
      } else {
        ItemsInclude(items[1..], i - 1, part);
        IncludesInContext(Stringify(items[0]) + [','], StringifyItems(items[1..]), [], part);
        assert Stringify(items[0]) + [','] + StringifyItems(items[1..]) + [] == StringifyItems(items);
      }
    }
  }

  lemma {:induction false} EntriesInclude(entries: seq<Entry>, i: nat, part: string)
    requires i < |entries|
    requires Includes(StringifyEntry(entries[i]), part)
    ensures Includes(StringifyEntries(entries), part)
  {
    hide StringifyEntry;
    if |entries| > 1 {
      var first, rest := StringifyEntry(entries[0]), StringifyEntries(entries[1..]);
      assert StringifyEntries(entries) == first + [','] + rest;
      if i == 0 {
        IncludesInContext([], first, [','] + rest, part);
        assert [] + first + ([','] + rest) == first + [','] + rest;
      } else {
        EntriesInclude(entries[1..], i - 1, part);
        IncludesInContext(first + [','], rest, [], part);
        assert first + [','] + rest + [] == first + [','] + rest;
      }
    }
  }

  lemma ArrayIncludes(items: seq<Json>, i: nat, part: string)
    requires i < |items|
    requires Includes(Stringify(items[i]), part)
    ensures Includes(Stringify(JsonArray(items)), part)
  {
    ItemsInclude(items, i, part);
    IncludesInContext(['['], StringifyItems(items), [']'], part);
  }

  lemma ObjectIncludes(entries: seq<Entry>, i: nat, part: string)
    requires i < |entries|
    requires Includes(Stringify(entries[i].value), part)
    ensures Includes(Stringify(JsonObject(entries)), part)
  {
    var name := Quote(entries[i].key) + [':'];
    IncludesInContext(name, Stringify(entries[i].value), [], part);
    assert name + Stringify(entries[i].value) + [] == StringifyEntry(entries[i]);
    EntriesInclude(entries, i, part);
    IncludesInContext(['{'], StringifyEntries(entries), ['}'], part);
  }

  // Reading a document back.

  predicate IsNumberChar(c: char) {
    '0' <= c <= '9' || c == '-' || c == '+' || c == '.' || c == 'e' || c == 'E'
  }

  /** A number as it is printed: it begins with a digit or a minus sign. */
  predicate IsNumberText(literal: string) {
    && literal != [] && ('0' <= literal[0] <= '9' || literal[0] == '-')
    && forall c | c in literal :: IsNumberChar(c)
  }

  /** A document as it is parsed: its numbers are numbers. */
  predicate IsProper(value: Json)
    decreases value
  {
    match value
    case JsonNumber(literal) => IsNumberText(literal)
    case JsonArray(items) => forall i | 0 <= i < |items| :: IsProper(items[i])
    case JsonObject(entries) => forall i | 0 <= i < |entries| :: EntryIsProper(entries[i])
    case _ => true
  }

  predicate EntryIsProper(entry: Entry)
    decreases entry
  {
    IsProper(entry.value)
  }

  /** Nothing that could continue a number follows. */
  predicate Ends(rest: string) {
    rest == [] || !IsNumberChar(rest[0])
  }

  lemma HexDigitsDiffer(i: nat, j: nat)
    requires i < 16 && j < 16 && HEX_DIGITS[i] == HEX_DIGITS[j]
    ensures i == j
  {
  }

  lemma EscapeIsNoQuote(c: char)
    ensures EscapeChar(c) != [] && EscapeChar(c)[0] != '"'
    ensures |EscapeChar(c)| == 1 <==> c != '"' && c != '\\' && !(8 <= c as int <= 10) && !(12 <= c as int <= 13) && c as int >= 32
  {
  }

  /** An escape sequence says where it ends, and what it stands for. */
  lemma EscapesDiffer(a: char, b: char, r: string, s: string)
    requires EscapeChar(a) + r == EscapeChar(b) + s
    ensures a == b && r == s
  {
    var whole := EscapeChar(a) + r;
    EscapeIsNoQuote(a);
    EscapeIsNoQuote(b);
    assert whole[0] == EscapeChar(a)[0] == EscapeChar(b)[0];
    if whole[0] == '\\' {
      assert whole[1] == EscapeChar(a)[1] == EscapeChar(b)[1];
      if whole[1] == 'u' {
        assert whole[4] == EscapeChar(a)[4] == EscapeChar(b)[4];
        assert whole[5] == EscapeChar(a)[5] == EscapeChar(b)[5];
        HexDigitsDiffer(a as int / 16, b as int / 16);
        HexDigitsDiffer(a as int % 16, b as int % 16);
      }
    }
    assert |EscapeChar(a)| == |EscapeChar(b)|;
    assert whole[|EscapeChar(a)|..] == r && whole[|EscapeChar(b)|..] == s;
  }

  lemma {:induction false} EscapedTextsDiffer(a: string, b: string, r: string, s: string)
    requires Substitute(a, EscapeChar) + (['"'] + r) == Substitute(b, EscapeChar) + (['"'] + s)
    ensures a == b && r == s
    decreases |a|
  {
    hide EscapeChar;
    if a == [] || b == [] {
      OneIsEmpty(a, b, r, s);
    } else {
      var x, y := Substitute(a[1..], EscapeChar) + (['"'] + r), Substitute(b[1..], EscapeChar) + (['"'] + s);
      assert Substitute(a, EscapeChar) + (['"'] + r) == EscapeChar(a[0]) + x;
      assert Substitute(b, EscapeChar) + (['"'] + s) == EscapeChar(b[0]) + y;
      EscapesDiffer(a[0], b[0], x, y);
      EscapedTextsDiffer(a[1..], b[1..], r, s);
      assert a == [a[0]] + a[1..] && b == [b[0]] + b[1..];
    }
  }

  lemma FirstOfEscaped(a: string, r: string)
    requires a != []
    ensures (Substitute(a, EscapeChar) + r)[..1] != ['"']
  {
    hide EscapeChar;
    EscapeIsNoQuote(a[0]);
    var whole := Substitute(a, EscapeChar) + r;
    assert Substitute(a, EscapeChar) == EscapeChar(a[0]) + Substitute(a[1..], EscapeChar);
    assert whole[..1][0] == EscapeChar(a[0])[0];
  }

  lemma OneIsEmpty(a: string, b: string, r: string, s: string)
    requires a == [] || b == []
    requires Substitute(a, EscapeChar) + (['"'] + r) == Substitute(b, EscapeChar) + (['"'] + s)
    ensures a == b && r == s
  {
    hide EscapeChar;
    var whole := Substitute(a, EscapeChar) + (['"'] + r);
    if a != [] {
      FirstOfEscaped(a, ['"'] + r);
    }
    if b != [] {
      FirstOfEscaped(b, ['"'] + s);
    }
    assert [] + (['"'] + r) == ['"'] + r && [] + (['"'] + s) == ['"'] + s;
    assert (['"'] + r)[..1] == ['"'] && (['"'] + s)[..1] == ['"'];
    assert (['"'] + r)[1..] == r && (['"'] + s)[1..] == s;
  }

  lemma QuotesDiffer(a: string, b: string, r: string, s: string)
    requires Quote(a) + r == Quote(b) + s
    ensures a == b && r == s
  {
    var x, y := Substitute(a, EscapeChar) + (['"'] + r), Substitute(b, EscapeChar) + (['"'] + s);
    assert Quote(a) + r == ['"'] + x && Quote(b) + s == ['"'] + y;
    assert (['"'] + x)[1..] == x && (['"'] + y)[1..] == y;
    EscapedTextsDiffer(a, b, r, s);
  }

  lemma FirstIsKept(text: string, rest: string)
    ensures text == [] ==> text + rest == rest
    ensures text != [] ==> text + rest != [] && (text + rest)[0] == text[0] && text[0] in text
  {
  }

  /** Two parts, a separator between them, and what follows. */
  lemma Regroup(first: string, c: char, second: string, rest: string)
    ensures first + [c] + second + rest == first + ([c] + (second + rest))
  {
  }

  lemma {:induction false} NumbersDiffer(a: string, b: string, r: string, s: string)
    requires (forall c | c in a :: IsNumberChar(c)) && (forall c | c in b :: IsNumberChar(c))
    requires Ends(r) && Ends(s) && a + r == b + s
    ensures a == b && r == s
    decreases |a|
  {
    FirstIsKept(a, r);
    FirstIsKept(b, s);
    if a == [] || b == [] {
    } else {
      assert (a + r)[1..] == a[1..] + r && (b + s)[1..] == b[1..] + s;
      NumbersDiffer(a[1..], b[1..], r, s);
      assert a == [a[0]] + a[1..] && b == [b[0]] + b[1..];
    }
  }

  /** How a printed document begins, by its kind. */
  function Opening(value: Json): char
    requires IsProper(value)
  {
    match value
    case JsonNull => 'n'
    case JsonBool(truth) => if truth then 't' else 'f'
    case JsonNumber(_) => '0'
    case JsonString(_) => '"'
    case JsonArray(_) => '['
    case JsonObject(_) => '{'
  }

  lemma BeginsWithItsOpening(value: Json, rest: string)
    requires IsProper(value)
    ensures var text := Stringify(value) + rest;
      && text != [] && (text[0] == Opening(value) || (value.JsonNumber? && ('0' <= text[0] <= '9' || text[0] == '-')))
      && text[0] != ']' && text[0] != '}'
  {
    hide StringifyItems, StringifyEntries, Substitute;
  }

  /** A printed document says where it ends, and what it is. */
  lemma {:induction false} DocumentsDiffer(a: Json, b: Json, r: string, s: string)
    requires IsProper(a) && IsProper(b) && Ends(r) && Ends(s) && Stringify(a) + r == Stringify(b) + s
    ensures a == b && r == s
    decreases a, 1
  {
    hide Quote, IsNumberChar, StringifyItems, StringifyEntries;
    BeginsWithItsOpening(a, r);
    BeginsWithItsOpening(b, s);
    match a {
      case JsonNull => WordEnds("null", r, s);
      case JsonBool(truth) =>
        if truth {
          WordEnds("true", r, s);
        } else {
          WordEnds("false", r, s);
        }
      case JsonNumber(literal) => NumbersDiffer(literal, b.literal, r, s);
      case JsonString(text) => QuotesDiffer(text, b.text, r, s);
      case JsonArray(items) =>
        var x, y := StringifyItems(items) + ([']'] + r), StringifyItems(b.items) + ([']'] + s);
        assert Stringify(a) + r == ['['] + x && Stringify(b) + s == ['['] + y;
        assert (['['] + x)[1..] == x && (['['] + y)[1..] == y;
        ItemsDiffer(items, b.items, r, s);
      case JsonObject(entries) =>
        var x, y := StringifyEntries(entries) + (['}'] + r), StringifyEntries(b.entries) + (['}'] + s);
        assert Stringify(a) + r == ['{'] + x && Stringify(b) + s == ['{'] + y;
        assert (['{'] + x)[1..] == x && (['{'] + y)[1..] == y;
        EntriesDiffer(entries, b.entries, r, s);
    }
  }

  lemma WordEnds(word: string, r: string, s: string)
    requires word + r == word + s
    ensures r == s
  {
    assert (word + r)[|word|..] == r && (word + s)[|word|..] == s;
  }

  /** What follows the first item: a comma and the others, or the closing bracket. */
  function AfterItem(items: seq<Json>, rest: string): string
    requires items != []
  {
    if |items| == 1 then [']'] + rest else [','] + (StringifyItems(items[1..]) + ([']'] + rest))
  }

  lemma ItemsBegin(items: seq<Json>, rest: string)
    requires items != []
    ensures StringifyItems(items) + ([']'] + rest) == Stringify(items[0]) + AfterItem(items, rest)
    ensures Ends(AfterItem(items, rest))
  {
    hide Stringify;
    AfterItemEnds(items, rest);
    if |items| > 1 {
      Regroup(Stringify(items[0]), ',', StringifyItems(items[1..]), [']'] + rest);
    }
  }

  lemma AfterItemEnds(items: seq<Json>, rest: string)
    requires items != []
    ensures Ends(AfterItem(items, rest))
  {
    hide StringifyItems;
    assert ([']'] + rest)[0] == ']';
    assert AfterItem(items, rest)[0] == if |items| == 1 then ']' else ',';
  }

  lemma NoItemsBegin(rest: string)
    ensures StringifyItems([]) + ([']'] + rest) == [']'] + rest
  {
    assert [] + ([']'] + rest) == [']'] + rest;
  }

  lemma SomeItemsBegin(items: seq<Json>, rest: string)
    requires items != [] && IsProper(items[0])
    ensures (StringifyItems(items) + ([']'] + rest)) != [] && (StringifyItems(items) + ([']'] + rest))[0] != ']'
  {
    hide StringifyItems, Stringify, IsProper, AfterItem;
    ItemsBegin(items, rest);
    BeginsWithItsOpening(items[0], AfterItem(items, rest));
  }

  lemma {:induction false} ItemsDiffer(a: seq<Json>, b: seq<Json>, r: string, s: string)
    requires (forall i | 0 <= i < |a| :: IsProper(a[i])) && (forall i | 0 <= i < |b| :: IsProper(b[i]))
    requires StringifyItems(a) + ([']'] + r) == StringifyItems(b) + ([']'] + s)
    ensures a == b && r == s
    decreases a, 0
  {
    hide StringifyItems, Stringify, IsProper, Ends;
    NoItemsBegin(r);
    NoItemsBegin(s);
    if a != [] {
      SomeItemsBegin(a, r);
    }
    if b != [] {
      SomeItemsBegin(b, s);
    }
    if a != [] && b != [] {
      ItemsBegin(a, r);
      ItemsBegin(b, s);
      DocumentsDiffer(a[0], b[0], AfterItem(a, r), AfterItem(b, s));
      if |a| > 1 && |b| > 1 {
        WordEnds([','], StringifyItems(a[1..]) + ([']'] + r), StringifyItems(b[1..]) + ([']'] + s));
        ItemsDiffer(a[1..], b[1..], r, s);
      } else {
        assert AfterItem(a, r)[0] == AfterItem(b, s)[0];
        WordEnds([']'], r, s);
      }
      assert a == [a[0]] + a[1..] && b == [b[0]] + b[1..];
    } else {
      assert ([']'] + r)[0] == ']' && ([']'] + s)[0] == ']';
      WordEnds([']'], r, s);
    }
  }

  function AfterEntry(entries: seq<Entry>, rest: string): string
    requires entries != []
  {
    if |entries| == 1 then ['}'] + rest else [','] + (StringifyEntries(entries[1..]) + (['}'] + rest))
  }

  lemma EntriesBegin(entries: seq<Entry>, rest: string)
    requires entries != []
    ensures StringifyEntries(entries) + (['}'] + rest) ==
      Quote(entries[0].key) + ([':'] + (Stringify(entries[0].value) + AfterEntry(entries, rest)))
    ensures Ends(AfterEntry(entries, rest))
  {
    hide Stringify, Quote, StringifyEntry, AfterEntry;
    FirstEntryBegins(entries, rest);
    AfterEntryEnds(entries, rest);
    EntryInParts(entries[0]);
    Regroup(Quote(entries[0].key), ':', Stringify(entries[0].value), AfterEntry(entries, rest));
  }

  lemma EntryInParts(entry: Entry)
    ensures StringifyEntry(entry) == Quote(entry.key) + [':'] + Stringify(entry.value)
  {
    hide Quote, Stringify;
  }

  lemma FirstEntryBegins(entries: seq<Entry>, rest: string)
    requires entries != []
    ensures StringifyEntries(entries) + (['}'] + rest) == StringifyEntry(entries[0]) + AfterEntry(entries, rest)
  {
    hide StringifyEntry;
    if |entries| > 1 {
      Regroup(StringifyEntry(entries[0]), ',', StringifyEntries(entries[1..]), ['}'] + rest);
    }
  }

  lemma AfterEntryEnds(entries: seq<Entry>, rest: string)
    requires entries != []
    ensures Ends(AfterEntry(entries, rest))
  {
    hide StringifyEntries;
    assert (['}'] + rest)[0] == '}';
    assert AfterEntry(entries, rest)[0] == if |entries| == 1 then '}' else ',';
  }

  lemma NoEntriesBegin(rest: string)
    ensures StringifyEntries([]) + (['}'] + rest) == ['}'] + rest
  {
    assert [] + (['}'] + rest) == ['}'] + rest;
  }

  lemma SomeEntriesBegin(entries: seq<Entry>, rest: string)
    requires entries != []
    ensures (StringifyEntries(entries) + (['}'] + rest)) != [] && (StringifyEntries(entries) + (['}'] + rest))[0] == '"'
  {
    hide StringifyEntries, Stringify, AfterEntry;
    EntriesBegin(entries, rest);
    assert Quote(entries[0].key)[0] == '"';
  }

  lemma {:induction false} EntriesDiffer(a: seq<Entry>, b: seq<Entry>, r: string, s: string)
    requires (forall i | 0 <= i < |a| :: EntryIsProper(a[i])) && (forall i | 0 <= i < |b| :: EntryIsProper(b[i]))
    requires StringifyEntries(a) + (['}'] + r) == StringifyEntries(b) + (['}'] + s)
    ensures a == b && r == s
    decreases a, 0
  {
    hide StringifyEntries, Stringify, IsProper, Ends, Quote;
    NoEntriesBegin(r);
    NoEntriesBegin(s);
    if a != [] {
      SomeEntriesBegin(a, r);
    }
    if b != [] {
      SomeEntriesBegin(b, s);
    }
    if a != [] && b != [] {
      EntriesBegin(a, r);
      EntriesBegin(b, s);
      var x, y := Stringify(a[0].value) + AfterEntry(a, r), Stringify(b[0].value) + AfterEntry(b, s);
      QuotesDiffer(a[0].key, b[0].key, [':'] + x, [':'] + y);
      WordEnds([':'], x, y);
      assert EntryIsProper(a[0]) && EntryIsProper(b[0]) && a[0].value < a[0];
      DocumentsDiffer(a[0].value, b[0].value, AfterEntry(a, r), AfterEntry(b, s));
      if |a| > 1 && |b| > 1 {
        WordEnds([','], StringifyEntries(a[1..]) + (['}'] + r), StringifyEntries(b[1..]) + (['}'] + s));
        EntriesDiffer(a[1..], b[1..], r, s);
      } else {
        assert AfterEntry(a, r)[0] == AfterEntry(b, s)[0];
        WordEnds(['}'], r, s);
      }
      assert a == [a[0]] + a[1..] && b == [b[0]] + b[1..];
    } else {
      assert (['}'] + r)[0] == '}' && (['}'] + s)[0] == '}';
      WordEnds(['}'], r, s);
    }
  }

  /** Different documents are printed differently. */
  lemma StringifyIsInjective(a: Json, b: Json)
    requires IsProper(a) && IsProper(b) && Stringify(a) == Stringify(b)
    ensures a == b
  {
    hide Stringify, IsProper;
    assert Stringify(a) + [] == Stringify(a) && Stringify(b) + [] == Stringify(b);
    DocumentsDiffer(a, b, [], []);
  }

  /** A way of reading texts that undoes printing. */
  ghost predicate IsReader(read: string -> Option<Json>) {
    forall value | IsProper(value) :: read(Stringify(value)) == Some(value)
  }

  ghost function ReadPrinted(text: string): Option<Json> {
    if exists value | IsProper(value) :: Stringify(value) == text
    then
      var value :| IsProper(value) && Stringify(value) == text;
      Some(value)
    else None
  }

  /** There is one. */
  lemma PrintedIsRead()
    ensures IsReader(text => ReadPrinted(text))
  {
    hide Stringify, IsProper;
    forall value | IsProper(value) ensures ReadPrinted(Stringify(value)) == Some(value) {
      var other := ReadPrinted(Stringify(value)).value;
      StringifyIsInjective(value, other);
    }
  }
}
