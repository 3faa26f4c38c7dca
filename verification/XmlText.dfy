/** Escaping and unescaping of XML text by chained replacements, and the lock owner that passes through both. */
module XmlText {
  import opened Text

  /** `escapeXml`. */
  function EscapeXml(value: string): string {
    ReplaceAll(ReplaceAll(ReplaceAll(ReplaceAll(ReplaceAll(value, "&", "&amp;"), "<", "&lt;"), ">", "&gt;"), "\"", "&quot;"),
               "'", "&apos;")
  }

  /** `unescapeXml`: the ampersand comes last. */
  function UnescapeXml(value: string): string {
    ReplaceAll(ReplaceAll(ReplaceAll(ReplaceAll(ReplaceAll(value, "&quot;", "\""), "&apos;", "'"), "&lt;", "<"),
                          "&gt;", ">"), "&amp;", "&")
  }

  // Escaping character by character.

  /** The entity of a character, for the characters that have one. */
  function Entity(c: char): string {
    if c == '&' then "&amp;"
    else if c == '<' then "&lt;"
    else if c == '>' then "&gt;"
    else if c == '"' then "&quot;"
    else if c == '\'' then "&apos;"
    else [c]
  }

  const ENTITY_CHARS: set<char> := {'&', '<', '>', '"', '\''}

  /** The characters of `escaped` are written as entities, the others as they are. */
  function Partly(value: string, escaped: set<char>): string {
    if value == [] then []
    else (if value[0] in escaped then Entity(value[0]) else [value[0]]) + Partly(value[1..], escaped)
  }

  predicate IsEntityChar(c: char) {
    c in ENTITY_CHARS
  }

  lemma EntityShape(c: char)
    requires IsEntityChar(c)
    ensures |Entity(c)| >= 4 && Entity(c)[0] == '&' && Entity(c)[|Entity(c)| - 1] == ';'
    ensures forall i | 0 < i < |Entity(c)| :: Entity(c)[i] !in ENTITY_CHARS
  {
  }

  lemma EntityAvoids(d: char, c: char)
    requires IsEntityChar(c) && IsEntityChar(d) && c != '&'
    ensures c !in Entity(d)
  {
    EntityShape(d);
    forall i | 0 <= i < |Entity(d)| ensures Entity(d)[i] != c {
      assert i == 0 || Entity(d)[i] !in ENTITY_CHARS;
    }
  }

  /** No entity is the beginning of another. */
  lemma EntitiesAreApart(c: char, d: char, rest: string)
    requires IsEntityChar(c) && IsEntityChar(d) && c != d
    ensures !(Entity(c) <= Entity(d) + rest)
  {
    var text := Entity(d) + rest;
    assert text[0] == Entity(d)[0] && text[1] == Entity(d)[1] && text[2] == Entity(d)[2] && text[3] == Entity(d)[3];
    assert Entity(c)[1] != text[1] || Entity(c)[2] != text[2];
  }

  /** An entity other than the pattern is passed over as well. */
  lemma EntityHasOneAmpersand(c: char)
    requires IsEntityChar(c)
    ensures '&' !in Entity(c)[1..]
  {
    hide Entity;
    EntityShape(c);
    assert forall i | 0 <= i < |Entity(c)[1..]| :: Entity(c)[1..][i] == Entity(c)[i + 1];
  }

  lemma PassOverEntity(d: char, rest: string, c: char)
    requires IsEntityChar(c) && IsEntityChar(d) && c != d
    ensures ReplaceAll(Entity(d) + rest, Entity(c), [c]) == Entity(d) + ReplaceAll(rest, Entity(c), [c])
  {
    hide Entity;
    var text := Entity(d) + rest;
    EntityShape(d);
    EntityShape(c);
    EntitiesAreApart(c, d, rest);
    assert text[1..] == Entity(d)[1..] + rest;
    EntityHasOneAmpersand(d);
    PassOver(Entity(d)[1..], rest, Entity(c), [c]);
    assert [text[0]] + (Entity(d)[1..] + ReplaceAll(rest, Entity(c), [c])) == Entity(d) + ReplaceAll(rest, Entity(c), [c]);
  }

  /** One replacement of `unescapeXml` brings one character back, as long as ampersands are still escaped. */
  lemma {:induction false} OneComesBack(value: string, escaped: set<char>, c: char)
    requires escaped <= ENTITY_CHARS && c in escaped && '&' in escaped
    ensures ReplaceAll(Partly(value, escaped), Entity(c), [c]) == Partly(value, escaped - {c})
  {
    hide Entity;
    if value != [] {
      var rest := Partly(value[1..], escaped);
      OneComesBack(value[1..], escaped, c);
      EntityShape(c);
      if value[0] == c {
        ReplaceAtFront(Entity(c), rest, [c]);
      } else if value[0] in escaped {
        PassOverEntity(value[0], rest, c);
      } else {
        PassOver([value[0]], rest, Entity(c), [c]);
      }
    }
  }

  /** One replacement of `escapeXml` escapes one character, once ampersands are done. */
  lemma {:induction false} OneIsEscaped(value: string, escaped: set<char>, c: char)
    requires escaped <= ENTITY_CHARS && IsEntityChar(c) && c !in escaped && (c == '&' ==> escaped == {})
    ensures ReplaceAll(Partly(value, escaped), [c], Entity(c)) == Partly(value, escaped + {c})
  {
    hide Entity;
    if value != [] {
      var rest := Partly(value[1..], escaped);
      OneIsEscaped(value[1..], escaped, c);
      if value[0] == c {
        ReplaceAtFront([c], rest, Entity(c));
      } else if value[0] in escaped {
        EntityAvoids(value[0], c);
        PassOver(Entity(value[0]), rest, [c], Entity(c));
      } else {
        PassOver([value[0]], rest, [c], Entity(c));
      }
    }
  }

  lemma {:induction false} NothingEscaped(value: string)
    ensures Partly(value, {}) == value
  {
    if value != [] {
      NothingEscaped(value[1..]);
    }
  }

  /** The five replacements amount to writing each character on its own. */
  lemma EscapeXmlByCharacter(value: string)
    ensures EscapeXml(value) == Partly(value, ENTITY_CHARS)
  {
    hide Partly, ReplaceAll;
    NothingEscaped(value);
    OneIsEscaped(value, {}, '&');
    OneIsEscaped(value, {'&'}, '<');
    OneIsEscaped(value, {'&', '<'}, '>');
    OneIsEscaped(value, {'&', '<', '>'}, '"');
    OneIsEscaped(value, {'&', '<', '>', '"'}, '\'');
    assert {} + {'&'} == {'&'} && {'&'} + {'<'} == {'&', '<'} && {'&', '<'} + {'>'} == {'&', '<', '>'};
    assert {'&', '<', '>'} + {'"'} == {'&', '<', '>', '"'} && {'&', '<', '>', '"'} + {'\''} == ENTITY_CHARS;
  }

  /** Unescaping undoes escaping, on every string. */
  lemma UnescapeUndoesEscape(value: string)
    ensures UnescapeXml(EscapeXml(value)) == value
  {
    hide Partly, ReplaceAll;
    EscapeXmlByCharacter(value);
    OneComesBack(value, ENTITY_CHARS, '"');
    OneComesBack(value, {'&', '<', '>', '\''}, '\'');
    OneComesBack(value, {'&', '<', '>'}, '<');
    OneComesBack(value, {'&', '>'}, '>');
    OneComesBack(value, {'&'}, '&');
    assert ENTITY_CHARS - {'"'} == {'&', '<', '>', '\''} && {'&', '<', '>', '\''} - {'\''} == {'&', '<', '>'};
    assert {'&', '<', '>'} - {'<'} == {'&', '>'} && {'&', '>'} - {'>'} == {'&'} && {'&'} - {'&'} == {};
    NothingEscaped(value);
  }

  lemma {:induction false} EscapedTextIsPlain(value: string, c: char)
    requires IsEntityChar(c) && c != '&'
    ensures c !in Partly(value, ENTITY_CHARS)
  {
    hide Entity;
    if value != [] {
      EscapedTextIsPlain(value[1..], c);
      if value[0] in ENTITY_CHARS {
        EntityAvoids(value[0], c);
      }
    }
  }

  // The lock owner.

  predicate IsNameStart(c: char) {
    'A' <= c <= 'Z' || 'a' <= c <= 'z' || c == '_'
  }

  predicate IsNameChar(c: char) {
    IsNameStart(c) || '0' <= c <= '9' || c == '.' || c == '-'
  }

  function AfterName(text: string): string {
    if text != [] && IsNameChar(text[0]) then AfterName(text[1..]) else text
  }

  /** What follows a name with an optional prefix. */
  function AfterQualifiedName(text: string): string {
    var rest := AfterName(text);
    if |rest| >= 2 && rest[0] == ':' && IsNameStart(rest[1]) then AfterName(rest[1..]) else rest
  }

  /** A tag opens here: space, a name, and then space, a slash or the end of the tag. */
  predicate TagFollows(text: string) {
    var name := TrimStart(text);
    && name != [] && IsNameStart(name[0])
    && var rest := AfterQualifiedName(name);
    rest != [] && (IsSpace(rest[0]) || rest[0] == '>' || rest[0] == '/')
  }

  predicate HasTag(value: string) {
    exists i | 0 <= i < |value| :: value[i] == '<' && TagFollows(value[i + 1..])
  }

  /** `ownerXml`: markup stays, text is escaped exactly once. */
  function OwnerXml(owner: string): string {
    if HasTag(owner) then owner else EscapeXml(UnescapeXml(owner))
  }

  // What counts as a tag.

  ghost predicate IsName(name: string) {
    name != "" && IsNameStart(name[0]) && AllNameChars(name)
  }

  predicate AllNameChars(text: string) {
    forall i | 0 <= i < |text| :: IsNameChar(text[i])
  }

  /** A name, or two with a colon between them. */
  ghost predicate IsQualifiedName(name: string) {
    IsName(name) || exists prefix, local | IsName(prefix) && IsName(local) :: name == prefix + ":" + local
  }

  predicate EndsName(rest: string) {
    rest != "" && (IsSpace(rest[0]) || rest[0] == '>' || rest[0] == '/')
  }

  /** After the angle bracket: perhaps space, a qualified name, and then space, a slash or the end of the tag. */
  ghost predicate OpensTag(text: string, gap: string, name: string, rest: string) {
    AllSpace(gap) && IsQualifiedName(name) && EndsName(rest) && text == gap + name + rest
  }

  /** Somewhere in the text a tag is opened. */
  ghost predicate ContainsTag(text: string) {
    exists before, gap, name, rest | OpensTag(gap + name + rest, gap, name, rest) :: text == before + "<" + (gap + name + rest)
  }

  lemma {:induction false} SpaceIsSkipped(gap: string, text: string)
    requires AllSpace(gap) && text != "" && !IsSpace(text[0])
    ensures TrimStart(gap + text) == text
    decreases |gap|
  {
    if gap == [] {
      assert gap + text == text;
    } else {
      assert (gap + text)[0] == gap[0] && (gap + text)[1..] == gap[1..] + text;
      SpaceIsSkipped(gap[1..], text);
    }
  }

  lemma {:induction false} NameIsSkipped(name: string, rest: string)
    requires AllNameChars(name) && (rest == "" || !IsNameChar(rest[0]))
    ensures AfterName(name + rest) == rest
    decreases |name|
  {
    if name == [] {
      assert name + rest == rest;
    } else {
      assert (name + rest)[0] == name[0] && (name + rest)[1..] == name[1..] + rest;
      NameIsSkipped(name[1..], rest);
    }
  }

  lemma {:induction false} NameInFront(text: string) returns (name: string)
    ensures AllNameChars(name) && text == name + AfterName(text)
    ensures text != "" && IsNameChar(text[0]) ==> name != "" && name[0] == text[0]
    decreases |text|
  {
    if text != [] && IsNameChar(text[0]) {
      var rest := NameInFront(text[1..]);
      name := [text[0]] + rest;
      assert text == [text[0]] + text[1..];
    } else {
      name := [];
    }
  }

  lemma QualifiedNameInFront(text: string) returns (name: string)
    requires text != "" && IsNameStart(text[0])
    ensures IsQualifiedName(name) && text == name + AfterQualifiedName(text)
  {
    var first := NameInFront(text);
    var rest := AfterName(text);
    if |rest| >= 2 && rest[0] == ':' && IsNameStart(rest[1]) {
      var second := NameInFront(rest[1..]);
      name := first + ":" + second;
      assert rest == [rest[0]] + rest[1..];
      assert IsName(first) && IsName(second);
    } else {
      name := first;
    }
  }

  lemma QualifiedNameIsSkipped(name: string, rest: string)
    requires IsQualifiedName(name) && EndsName(rest)
    ensures name != "" && IsNameStart(name[0]) && AfterQualifiedName(name + rest) == rest
  {
    if IsName(name) {
      NameIsSkipped(name, rest);
    } else {
      var prefix, local :| IsName(prefix) && IsName(local) && name == prefix + ":" + local;
      var more := ":" + local + rest;
      assert name + rest == prefix + more && more[1..] == local + rest && more[1] == local[0];
      NameIsSkipped(prefix, more);
      NameIsSkipped(local, rest);
    }
  }

  lemma TagFollowsExactlyIf(text: string)
    ensures TagFollows(text) <==> exists gap, name, rest :: OpensTag(text, gap, name, rest)
  {
    hide AfterQualifiedName, IsQualifiedName, TrimStart, IsSpace;
    if TagFollows(text) {
      var gap := LeadingSpace(text);
      var name := QualifiedNameInFront(TrimStart(text));
      var rest := AfterQualifiedName(TrimStart(text));
      assert gap + name + rest == gap + (name + rest);
      assert OpensTag(text, gap, name, rest);
    }
    if gap, name, rest :| OpensTag(text, gap, name, rest) {
      QualifiedNameIsSkipped(name, rest);
      NamesAreNoSpace(name[0]);
      assert gap + name + rest == gap + (name + rest);
      SpaceIsSkipped(gap, name + rest);
    }
  }

  lemma NamesAreNoSpace(c: char)
    requires IsNameStart(c)
    ensures !IsSpace(c)
  {
  }

  lemma HasTagExactlyIf(text: string)
    ensures HasTag(text) <==> ContainsTag(text)
  {
    hide TagFollows, IsQualifiedName, EndsName;
    if HasTag(text) {
      var i :| 0 <= i < |text| && text[i] == '<' && TagFollows(text[i + 1..]);
      TagFollowsExactlyIf(text[i + 1..]);
      var gap, name, rest :| OpensTag(text[i + 1..], gap, name, rest);
      assert text == text[..i] + "<" + (gap + name + rest);
    }
    if before, gap, name, rest :| OpensTag(gap + name + rest, gap, name, rest) && text == before + "<" + (gap + name + rest) {
      var i := |before|;
      assert text[i] == '<' && text[i + 1..] == gap + name + rest;
      TagFollowsExactlyIf(text[i + 1..]);
    }
  }

  /**
   * An owner with markup is written as it is; any other is unescaped and then written character by character, each of the
   * five special ones as its entity, so that it reads as before.
   */
  lemma OwnerXmlExactly(owner: string)
    ensures ContainsTag(owner) ==> OwnerXml(owner) == owner
    ensures !ContainsTag(owner) ==>
      OwnerXml(owner) == Partly(UnescapeXml(owner), ENTITY_CHARS) && UnescapeXml(OwnerXml(owner)) == UnescapeXml(owner)
  {
    hide EscapeXml, UnescapeXml, ContainsTag, HasTag;
    HasTagExactlyIf(owner);
    EscapeXmlByCharacter(UnescapeXml(owner));
    UnescapeUndoesEscape(UnescapeXml(owner));
  }

  /** Writing a lock owner again changes nothing, so an owner sent back by a client is stable (section 14.17 of RFC 4918). */
  lemma OwnerXmlIsIdempotent(owner: string)
    ensures OwnerXml(OwnerXml(owner)) == OwnerXml(owner)
  {
    hide EscapeXml, UnescapeXml, TagFollows;
    if !HasTag(owner) {
      var text := UnescapeXml(owner);
      EscapeXmlByCharacter(text);
      EscapedTextIsPlain(text, '<');
      assert !HasTag(EscapeXml(text));
      UnescapeUndoesEscape(text);
    }
  }
}
