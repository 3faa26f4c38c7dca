/** Strings as sequences of Unicode scalar values, with the string operations the modelled code relies on. */
module Text {

  predicate StartsWith(s: string, prefix: string) {
    prefix <= s
  }

  /** `s.includes(part)`. */
  predicate Includes(s: string, part: string) {
    exists at | 0 <= at <= |s| :: OccursAt(s, part, at)
  }

  predicate OccursAt(s: string, part: string, at: int) {
    0 <= at <= |s| - |part| && s[at..at + |part|] == part
  }

  lemma IncludesWithin(before: string, part: string, after: string)
    ensures Includes(before + part + after, part)
  {
    assert (before + part + after)[|before|..|before| + |part|] == part;
    assert OccursAt(before + part + after, part, |before|);
  }

  lemma IncludesInContext(before: string, s: string, after: string, part: string)
    requires Includes(s, part)
    ensures Includes(before + s + after, part)
  {
    var at :| 0 <= at <= |s| && OccursAt(s, part, at);
    var whole := before + s + after;
    assert whole[|before| + at..|before| + at + |part|] == s[at..at + |part|];
    assert OccursAt(whole, part, |before| + at);
  }

  /** `s.split(separator)` for a one-character separator. */
  function Split(s: string, separator: char): (parts: seq<string>)
    ensures |parts| >= 1
  {
    if s == [] then [[]]
    else
      var rest := Split(s[1..], separator);
      if s[0] == separator then [[]] + rest else [[s[0]] + rest[0]] + rest[1..]
  }

  /** `parts.join(separator)` for a one-character separator. */
  function Join(parts: seq<string>, separator: char): string {
    if |parts| == 0 then []
    else if |parts| == 1 then parts[0]
    else parts[0] + [separator] + Join(parts[1..], separator)
  }

  lemma {:induction false} JoinOfSplit(s: string, separator: char)
    ensures Join(Split(s, separator), separator) == s
  {
    if s != [] {
      JoinOfSplit(s[1..], separator);
      var rest := Split(s[1..], separator);
      if s[0] == separator {
        assert ([[]] + rest)[1..] == rest;
      } else {
        assert ([[s[0]] + rest[0]] + rest[1..])[1..] == rest[1..];
      }
    }
  }

  lemma {:induction false} SplitPartsLackSeparator(s: string, separator: char)
    ensures forall part | part in Split(s, separator) :: separator !in part
  {
    if s != [] {
      SplitPartsLackSeparator(s[1..], separator);
      assert Split(s[1..], separator)[0] in Split(s[1..], separator);
    }
  }

  lemma {:induction false} SplitOfFree(s: string, separator: char)
    requires separator !in s
    ensures Split(s, separator) == [s]
  {
    if s != [] {
      SplitOfFree(s[1..], separator);
      assert [s[0]] + s[1..] == s;
    }
  }

  lemma {:induction false} SplitOfFreeOnly(s: string, separator: char)
    requires |Split(s, separator)| == 1
    ensures separator !in s
  {
    if s != [] {
      assert |Split(s[1..], separator)| >= 1;
      SplitOfFreeOnly(s[1..], separator);
    }
  }

  lemma {:induction false} SplitAtSeparator(first: string, rest: string, separator: char)
    requires separator !in first
    ensures Split(first + [separator] + rest, separator) == [first] + Split(rest, separator)
  {
    var whole := first + [separator] + rest;
    if first == [] {
      assert whole[1..] == rest;
    } else {
      assert whole[1..] == first[1..] + [separator] + rest;
      SplitAtSeparator(first[1..], rest, separator);
      assert [first[0]] + first[1..] == first;
    }
  }

  lemma {:induction false} SplitOfJoin(parts: seq<string>, separator: char)
    requires |parts| >= 1
    requires forall part | part in parts :: separator !in part
    ensures Split(Join(parts, separator), separator) == parts
  {
    if |parts| == 1 {
      SplitOfFree(parts[0], separator);
    } else {
      SplitOfJoin(parts[1..], separator);
      SplitAtSeparator(parts[0], Join(parts[1..], separator), separator);
    }
  }

  lemma {:induction false} JoinIncludesPart(parts: seq<string>, separator: char, k: nat)
    requires k < |parts|
    ensures Includes(Join(parts, separator), parts[k])
  {
    if |parts| == 1 {
      IncludesWithin([], parts[0], []);
      assert [] + parts[0] + [] == parts[0];
    } else if k == 0 {
      IncludesWithin([], parts[0], [separator] + Join(parts[1..], separator));
      assert [] + parts[0] + ([separator] + Join(parts[1..], separator)) == Join(parts, separator);
    } else {
      JoinIncludesPart(parts[1..], separator, k - 1);
      IncludesInContext(parts[0] + [separator], Join(parts[1..], separator), [], parts[k]);
      assert parts[0] + [separator] + Join(parts[1..], separator) + [] == Join(parts, separator);
    }
  }

  /** `s.replaceAll(pattern, replacement)` for a non-empty literal pattern: leftmost matches, not overlapping. */
  function ReplaceAll(s: string, pattern: string, replacement: string): string
    requires pattern != []
  {
    if s == [] then []
    else if pattern <= s then replacement + ReplaceAll(s[|pattern|..], pattern, replacement)
    else [s[0]] + ReplaceAll(s[1..], pattern, replacement)
  }

  /** Text without the first character of the pattern is passed over. */
  lemma {:induction false} PassOver(text: string, rest: string, pattern: string, replacement: string)
    requires pattern != [] && pattern[0] !in text
    ensures ReplaceAll(text + rest, pattern, replacement) == text + ReplaceAll(rest, pattern, replacement)
  {
    if text == [] {
      assert text + rest == rest;
    } else {
      assert (text + rest)[0] == text[0] && (text + rest)[1..] == text[1..] + rest;
      PassOver(text[1..], rest, pattern, replacement);
      assert [text[0]] + (text[1..] + ReplaceAll(rest, pattern, replacement)) == text + ReplaceAll(rest, pattern, replacement);
    }
  }

  lemma ReplaceAtFront(pattern: string, rest: string, replacement: string)
    requires pattern != []
    ensures ReplaceAll(pattern + rest, pattern, replacement) == replacement + ReplaceAll(rest, pattern, replacement)
  {
    assert pattern <= pattern + rest && (pattern + rest)[|pattern|..] == rest;
  }

  /** Every character replaced by a string of its own. */
  function Substitute(s: string, image: char -> string): string {
    if s == [] then [] else image(s[0]) + Substitute(s[1..], image)
  }

  lemma {:induction false} SubstituteConcatenates(a: string, b: string, image: char -> string)
    ensures Substitute(a + b, image) == Substitute(a, image) + Substitute(b, image)
  {
    if a == [] {
      assert a + b == b;
    } else {
      assert (a + b)[0] == a[0] && (a + b)[1..] == a[1..] + b;
      SubstituteConcatenates(a[1..], b, image);
      var first, second, third := image(a[0]), Substitute(a[1..], image), Substitute(b, image);
      assert first + (second + third) == (first + second) + third;
    }
  }

  lemma {:induction false} SubstituteVerbatim(s: string, image: char -> string)
    requires forall c | c in s :: image(c) == [c]
    ensures Substitute(s, image) == s
  {
    if s != [] {
      SubstituteVerbatim(s[1..], image);
      assert s == [s[0]] + s[1..];
    }
  }

  /** A part that every character of which stands for itself still occurs after the substitution. */
  lemma SubstituteIncludes(s: string, part: string, image: char -> string)
    requires forall c | c in part :: image(c) == [c]
    requires Includes(s, part)
    ensures Includes(Substitute(s, image), part)
  {
    var at :| 0 <= at <= |s| && OccursAt(s, part, at);
    var before, after := s[..at], s[at + |part|..];
    assert s == before + part + after;
    SubstituteConcatenates(before + part, after, image);
    SubstituteConcatenates(before, part, image);
    SubstituteVerbatim(part, image);
    IncludesWithin(Substitute(before, image), part, Substitute(after, image));
  }

  /** `toLowerCase` on ASCII letters; the modelled inputs hold no other cased character. */
  function LowerChar(c: char): char {
    if 'A' <= c <= 'Z' then (c as int + 32) as char else c
  }

  function Lower(s: string): (r: string)
    ensures |r| == |s|
    ensures forall i | 0 <= i < |s| :: r[i] == LowerChar(s[i])
  {
    seq(|s|, i requires 0 <= i < |s| => LowerChar(s[i]))
  }

  /** White space and line terminators as `trim` and `\s` see them. */
  predicate IsSpace(c: char) {
    var code := c as int;
    || 9 <= code <= 13 || code == 0x20 || code == 0xa0 || code == 0x1680 || 0x2000 <= code <= 0x200a
    || code == 0x2028 || code == 0x2029 || code == 0x202f || code == 0x205f || code == 0x3000 || code == 0xfeff
  }

  function TrimStart(s: string): (r: string)
    ensures |r| <= |s|
  {
    if s != [] && IsSpace(s[0]) then TrimStart(s[1..]) else s
  }

  function TrimEnd(s: string): (r: string)
    ensures |r| <= |s|
  {
    if s != [] && IsSpace(s[|s| - 1]) then TrimEnd(s[..|s| - 1]) else s
  }

  /** `s.trim()`. */
  function Trim(s: string): string {
    TrimEnd(TrimStart(s))
  }

  predicate AllSpace(s: string) {
    forall i | 0 <= i < |s| :: IsSpace(s[i])
  }

  /** Trimming removes white space at both ends, and nothing else. */
  lemma TrimKeepsTheMiddle(s: string) returns (before: string, after: string)
    ensures s == before + Trim(s) + after && AllSpace(before) && AllSpace(after)
  {
    before := LeadingSpace(s);
    after := TrailingSpace(TrimStart(s));
  }

  lemma {:induction false} LeadingSpace(s: string) returns (before: string)
    ensures s == before + TrimStart(s) && AllSpace(before)
    decreases |s|
  {
    if s != [] && IsSpace(s[0]) {
      var rest := LeadingSpace(s[1..]);
      before := [s[0]] + rest;
      assert s == [s[0]] + s[1..];
    } else {
      before := [];
    }
  }

  lemma {:induction false} TrailingSpace(s: string) returns (after: string)
    ensures s == TrimEnd(s) + after && AllSpace(after)
    decreases |s|
  {
    if s != [] && IsSpace(s[|s| - 1]) {
      var rest := TrailingSpace(s[..|s| - 1]);
      after := rest + [s[|s| - 1]];
      assert s == s[..|s| - 1] + [s[|s| - 1]];
    } else {
      after := [];
    }
  }

  lemma {:induction false} TrimSkipsLeadingSpace(before: string, s: string)
    requires AllSpace(before)
    ensures Trim(before + s) == Trim(s)
    decreases |before|
  {
    if before == [] {
      assert before + s == s;
    } else {
      assert (before + s)[0] == before[0] && (before + s)[1..] == before[1..] + s;
      TrimSkipsLeadingSpace(before[1..], s);
    }
  }
}
