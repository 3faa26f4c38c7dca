/** Reading IPv4 and IPv6 literals in URL hosts, and which of them are internal. */
module UrlSafety {
  import opened Wrappers
  import opened Text

  // Digits.

  predicate IsDigit(c: char) {
    '0' <= c <= '9'
  }

  predicate IsHexDigit(c: char) {
    IsDigit(c) || 'a' <= c <= 'f'
  }

  function HexDigitValue(c: char): (v: nat)
    requires IsHexDigit(c)
    ensures v < 16
  {
    if IsDigit(c) then c as int - '0' as int else c as int - 'a' as int + 10
  }

  function HexDigit(v: nat): (c: char)
    requires v < 16
    ensures IsHexDigit(c) && HexDigitValue(c) == v
  {
    if v < 10 then ('0' as int + v) as char else ('a' as int + v - 10) as char
  }

  predicate AllDigits(text: string) {
    forall i | 0 <= i < |text| :: IsDigit(text[i])
  }

  predicate AllHex(text: string) {
    forall i | 0 <= i < |text| :: IsHexDigit(text[i])
  }

  function DecimalValue(text: string): nat
    requires AllDigits(text)
  {
    if text == [] then 0 else DecimalValue(text[..|text| - 1]) * 10 + (text[|text| - 1] as int - '0' as int)
  }

  function HexValue(text: string): nat
    requires AllHex(text)
  {
    if text == [] then 0 else HexValue(text[..|text| - 1]) * 16 + HexDigitValue(text[|text| - 1])
  }

  /** `String(n)`, and `n.toString(16)`. */
  function PrintDecimal(n: nat): (text: string)
    ensures text != [] && AllDigits(text) && DecimalValue(text) == n
  {
    var digit := ('0' as int + n % 10) as char;
    if n < 10 then [digit]
    else
      var rest := PrintDecimal(n / 10);
      assert (rest + [digit])[..|rest|] == rest;
      rest + [digit]
  }

  function PrintHex(n: nat): (text: string)
    ensures text != [] && AllHex(text) && HexValue(text) == n
  {
    var digit := HexDigit(n % 16);
    if n < 16 then [digit]
    else
      var rest := PrintHex(n / 16);
      assert (rest + [digit])[..|rest|] == rest;
      rest + [digit]
  }

  lemma OctetsPrintShort(n: nat)
    requires n <= 255
    ensures |PrintDecimal(n)| <= 3
  {
    if n >= 100 {
      assert |PrintDecimal(n / 10)| == |PrintDecimal(n / 10 / 10)| + 1;
    }
  }

  lemma GroupsPrintShort(n: nat)
    requires n <= 0xffff
    ensures |PrintHex(n)| <= 4
  {
    if n >= 0x1000 {
      assert n / 16 >= 16 && n / 16 / 16 >= 16 && n / 16 / 16 / 16 < 16;
      assert |PrintHex(n / 16 / 16)| == |PrintHex(n / 16 / 16 / 16)| + 1;
      assert |PrintHex(n / 16)| == |PrintHex(n / 16 / 16)| + 1;
    } else if n >= 0x100 {
      assert |PrintHex(n / 16)| == |PrintHex(n / 16 / 16)| + 1;
    }
  }

  // IPv4.

  datatype Octets = Octets(a: nat, b: nat, c: nat, d: nat)
  {
    predicate Valid() {
      a <= 255 && b <= 255 && c <= 255 && d <= 255
    }
  }

  predicate IsDecimalPart(part: string) {
    1 <= |part| <= 3 && AllDigits(part)
  }

  function Ipv4Octets(host: string): (r: Option<Octets>)
    ensures r.Some? ==> r.value.Valid()
  {
    var parts := Split(host, '.');
    if |parts| != 4 || exists i | 0 <= i < 4 :: !IsDecimalPart(parts[i]) then None
    else
      var octets := Octets(DecimalValue(parts[0]), DecimalValue(parts[1]), DecimalValue(parts[2]), DecimalValue(parts[3]));
      if octets.Valid() then Some(octets) else None
  }

  predicate BlockedOctets(o: Octets) {
    || o.a == 0
    || o.a == 10
    || o.a == 127
    || (o.a == 169 && o.b == 254)
    || (o.a == 172 && 16 <= o.b <= 31)
    || (o.a == 192 && o.b == 168)
    || (o.a == 100 && 64 <= o.b <= 127)
  }

  predicate IsBlockedIpv4(host: string) {
    match Ipv4Octets(host)
    case None => false
    case Some(octets) => BlockedOctets(octets)
  }

  function Dotted(o: Octets): string {
    Join([PrintDecimal(o.a), PrintDecimal(o.b), PrintDecimal(o.c), PrintDecimal(o.d)], '.')
  }

  lemma DigitsHoldNo(text: string, separator: char)
    requires AllDigits(text) && !IsDigit(separator)
    ensures separator !in text
  {
  }

  /** Printing an address and reading it back gives the address. */
  lemma DottedRoundTrip(o: Octets)
    requires o.Valid()
    ensures Ipv4Octets(Dotted(o)) == Some(o)
  {
    hide PrintDecimal, Split, DecimalValue, Join;
    var parts := [PrintDecimal(o.a), PrintDecimal(o.b), PrintDecimal(o.c), PrintDecimal(o.d)];
    forall part | part in parts ensures '.' !in part && IsDecimalPart(part) {
      DigitsHoldNo(part, '.');
      OctetsPrintShort(o.a);
      OctetsPrintShort(o.b);
      OctetsPrintShort(o.c);
      OctetsPrintShort(o.d);
    }
    SplitOfJoin(parts, '.');
    forall i | 0 <= i < 4 ensures IsDecimalPart(parts[i]) {
      assert parts[i] in parts;
    }
  }

  // The blocked ranges as address blocks.

  function Address(o: Octets): nat {
    o.a * 0x100_0000 + o.b * 0x1_0000 + o.c * 0x100 + o.d
  }

  /** The address has the block's prefix; `size` is the number of addresses in the block. */
  predicate InBlock(address: nat, base: nat, size: nat)
    requires size > 0
  {
    base <= address < base + size
  }

  /** 0.0.0.0/8, 10.0.0.0/8, 127.0.0.0/8, 169.254.0.0/16, 172.16.0.0/12, 192.168.0.0/16 and 100.64.0.0/10. */
  predicate IsInternalAddress(address: nat) {
    || InBlock(address, 0, 0x100_0000) || InBlock(address, 0x0a00_0000, 0x100_0000)
    || InBlock(address, 0x7f00_0000, 0x100_0000) || InBlock(address, 0xa9fe_0000, 0x1_0000)
    || InBlock(address, 0xac10_0000, 0x10_0000) || InBlock(address, 0xc0a8_0000, 0x1_0000)
    || InBlock(address, 0x6440_0000, 0x40_0000)
  }

  /** The octet tests describe the seven blocks, and no other address. */
  lemma BlockedOctetsAreBlocks(o: Octets)
    requires o.Valid()
    ensures BlockedOctets(o) <==> IsInternalAddress(Address(o))
  {
  }

  // IPv6 text.

  /** `s.split('::')`. */
  function SplitDouble(s: string): (parts: seq<string>)
    ensures parts != []
    decreases |s|
  {
    if s == [] then [[]]
    else if "::" <= s then [[]] + SplitDouble(s[2..])
    else
      var rest := SplitDouble(s[1..]);
      [[s[0]] + rest[0]] + rest[1..]
  }

  predicate IsHexGroup(group: string) {
    1 <= |group| <= 4 && AllHex(group)
  }

  function GroupValue(group: string): nat {
    if AllHex(group) then HexValue(group) else 0
  }

  function GroupValues(groups: seq<string>): (values: seq<nat>)
    ensures |values| == |groups|
    ensures forall i | 0 <= i < |groups| :: values[i] == GroupValue(groups[i])
  {
    seq(|groups|, i requires 0 <= i < |groups| => GroupValue(groups[i]))
  }

  function ParseHalf(half: string): Option<seq<nat>> {
    if half == "" then Some([])
    else
      var groups := Split(half, ':');
      if exists i | 0 <= i < |groups| :: !IsHexGroup(groups[i]) then None else Some(GroupValues(groups))
  }

  /** `s.lastIndexOf(':') + 1`: where the part after the last colon begins, 0 when there is no colon. */
  function AfterLastColon(s: string): (at: nat)
    ensures at <= |s|
    ensures at > 0 ==> s[at - 1] == ':'
    ensures ':' !in s[at..]
  {
    if s == [] then 0
    else if s[|s| - 1] == ':' then |s|
    else
      var at := AfterLastColon(s[..|s| - 1]);
      assert s[at..] == s[..|s| - 1][at..] + [s[|s| - 1]];
      at
  }

  /** A dotted tail is rewritten as two groups. */
  function Normalized(host: string): Option<string> {
    if '.' !in host then Some(host)
    else
      var at := AfterLastColon(host);
      match Ipv4Octets(host[at..])
      case None => None
      case Some(o) =>
        if at == 0 then None
        else Some(host[..at] + PrintHex(o.a * 256 + o.b) + ":" + PrintHex(o.c * 256 + o.d))
  }

  function Zeros(n: nat): (zeros: seq<nat>)
    ensures |zeros| == n && forall i | 0 <= i < n :: zeros[i] == 0
  {
    seq(n, _ => 0)
  }

  function ParseGroups(text: string): Option<seq<nat>> {
    var halves := SplitDouble(text);
    if |halves| > 2 then None
    else
      match (ParseHalf(halves[0]), ParseHalf(if |halves| == 2 then halves[1] else ""))
      case (Some(left), Some(right)) =>
        if |halves| == 1 then (if |left| == 8 then Some(left) else None)
        else if |left| + |right| >= 8 then None
        else Some(left + Zeros(8 - |left| - |right|) + right)
      case (_, _) => None
  }

  function Ipv6Groups(host: string): Option<seq<nat>> {
    match Normalized(Lower(host))
    case None => None
    case Some(text) => ParseGroups(text)
  }

  // Spellings, section 2.2 of RFC 4291.

  /**
   * A spelling of eight groups: hexadecimal groups, at most one "::" standing for one or more zero groups, and perhaps
   * the last two groups as the text of a dotted address.
   */
  datatype Spelling = Spelling(left: seq<string>, right: Option<seq<string>>, dotted: Option<string>)

  ghost predicate AreHexGroups(groups: seq<string>) {
    forall i | 0 <= i < |groups| :: IsHexGroup(groups[i])
  }

  function TailOf(s: Spelling): seq<string> {
    match s.dotted
    case None => []
    case Some(address) => [address]
  }

  function TailGroups(address: string): seq<nat> {
    match Ipv4Octets(address)
    case None => []
    case Some(o) => [o.a * 256 + o.b, o.c * 256 + o.d]
  }

  ghost predicate Legal(s: Spelling) {
    && AreHexGroups(s.left) && (s.right.Some? ==> AreHexGroups(s.right.value))
    && (s.dotted.Some? ==> Ipv4Octets(s.dotted.value).Some?)
    && var count := |s.left| + (if s.right.Some? then |s.right.value| else 0) + (if s.dotted.Some? then 2 else 0);
    if s.right.Some? then count <= 7 else count == 8
  }

  function TextOf(s: Spelling): string {
    match s.right
    case None => Join(s.left + TailOf(s), ':')
    case Some(right) => Join(s.left, ':') + "::" + Join(right + TailOf(s), ':')
  }

  /** The eight groups that are spelled. */
  ghost function GroupsOf(s: Spelling): seq<nat>
    requires Legal(s)
  {
    var tail := if s.dotted.Some? then TailGroups(s.dotted.value) else [];
    match s.right
    case None => GroupValues(s.left) + tail
    case Some(right) =>
      GroupValues(s.left) + Zeros(8 - |s.left| - |right| - |tail|) + (GroupValues(right) + tail)
  }

  // Every legal spelling is read.

  predicate LacksColon(part: string) {
    part != "" && ':' !in part
  }

  ghost predicate AllLackColons(parts: seq<string>) {
    forall part | part in parts :: LacksColon(part)
  }

  ghost predicate NoDouble(text: string) {
    forall i | 0 <= i < |text| - 1 :: !(text[i] == ':' && text[i + 1] == ':')
  }

  lemma {:induction false} JoinedGroupsHoldNoDouble(parts: seq<string>)
    requires AllLackColons(parts)
    ensures var text := Join(parts, ':');
      NoDouble(text) && (parts != [] ==> text != "" && text[0] != ':' && text[|text| - 1] != ':')
    ensures parts == [] <==> Join(parts, ':') == ""
    decreases |parts|
  {
    if parts != [] {
      assert parts[0] in parts;
      if |parts| > 1 {
        JoinedGroupsHoldNoDouble(parts[1..]);
        var first, rest, text := parts[0], Join(parts[1..], ':'), Join(parts, ':');
        assert text == first + [':'] + rest;
        forall i | 0 <= i < |text| - 1 ensures !(text[i] == ':' && text[i + 1] == ':') {
          if i < |first| {
            assert text[i] == first[i] && first[i] in first;
          } else if i == |first| {
            assert text[i + 1] == rest[0];
          } else {
            assert text[i] == rest[i - |first| - 1] && text[i + 1] == rest[i - |first|];
          }
        }
        assert text[|text| - 1] == rest[|rest| - 1];
      } else {
        forall i | 0 <= i < |parts[0]| ensures parts[0][i] != ':' {
          assert parts[0][i] in parts[0];
        }
      }
    }
  }

  lemma {:induction false} SplitDoubleOfPlain(text: string)
    requires NoDouble(text)
    ensures SplitDouble(text) == [text]
    decreases |text|
  {
    if text != [] {
      assert !("::" <= text) by {
        if |text| >= 2 {
          assert !(text[0] == ':' && text[1] == ':');
        }
      }
      forall i | 0 <= i < |text[1..]| - 1 ensures !(text[1..][i] == ':' && text[1..][i + 1] == ':') {
        assert text[1..][i] == text[i + 1] && text[1..][i + 1] == text[i + 2];
      }
      SplitDoubleOfPlain(text[1..]);
      assert [text[0]] + text[1..] == text;
    }
  }

  lemma {:induction false} SplitDoubleAtDouble(before: string, after: string)
    requires NoDouble(before) && (before != "" ==> before[|before| - 1] != ':')
    ensures SplitDouble(before + "::" + after) == [before] + SplitDouble(after)
    decreases |before|
  {
    var text := before + "::" + after;
    if before == "" {
      assert text == "::" + after && text[2..] == after;
    } else {
      assert text[0] == before[0] && text[1..] == before[1..] + "::" + after;
      assert !("::" <= text) by {
        if |before| > 1 {
          assert text[1] == before[1] && !(before[0] == ':' && before[1] == ':');
        } else {
          assert text[0] != ':';
        }
      }
      forall i | 0 <= i < |before[1..]| - 1 ensures !(before[1..][i] == ':' && before[1..][i + 1] == ':') {
        assert before[1..][i] == before[i + 1] && before[1..][i + 1] == before[i + 2];
      }
      SplitDoubleAtDouble(before[1..], after);
      assert [before[0]] + before[1..] == before;
    }
  }

  lemma HexGroupsLackColons(groups: seq<string>)
    requires AreHexGroups(groups)
    ensures AllLackColons(groups)
  {
    forall group | group in groups ensures LacksColon(group) {
      var i :| 0 <= i < |groups| && groups[i] == group;
      assert IsHexGroup(groups[i]);
    }
  }

  lemma HalfIsRead(groups: seq<string>)
    requires AreHexGroups(groups)
    ensures ParseHalf(Join(groups, ':')) == Some(GroupValues(groups))
  {
    HexGroupsLackColons(groups);
    JoinedGroupsHoldNoDouble(groups);
    if groups != [] {
      assert forall part | part in groups :: ':' !in part by {
        forall part | part in groups ensures ':' !in part {
          assert LacksColon(part);
        }
      }
      SplitOfJoin(groups, ':');
    }
  }

  /** Hexadecimal text is read group by group. */
  lemma FullTextIsRead(groups: seq<string>)
    requires AreHexGroups(groups) && |groups| == 8
    ensures ParseGroups(Join(groups, ':')) == Some(GroupValues(groups))
  {
    hide Join, ParseHalf, IsHexGroup, Zeros;
    HexGroupsLackColons(groups);
    JoinedGroupsHoldNoDouble(groups);
    HalfIsRead(groups);
    SplitDoubleOfPlain(Join(groups, ':'));
    EmptyHalf();
  }

  lemma ElidedTextIsRead(left: seq<string>, right: seq<string>)
    requires AreHexGroups(left) && AreHexGroups(right) && |left| + |right| <= 7
    ensures ParseGroups(Join(left, ':') + "::" + Join(right, ':')) ==
      Some(GroupValues(left) + Zeros(8 - |left| - |right|) + GroupValues(right))
  {
    hide Join, ParseHalf, IsHexGroup, Zeros, SplitDouble, GroupValues;
    HexGroupsLackColons(left);
    JoinedGroupsHoldNoDouble(left);
    HalfIsRead(left);
    HexGroupsLackColons(right);
    JoinedGroupsHoldNoDouble(right);
    HalfIsRead(right);
    SplitDoubleAtDouble(Join(left, ':'), Join(right, ':'));
    SplitDoubleOfPlain(Join(right, ':'));
    assert |GroupValues(left)| == |left| && |GroupValues(right)| == |right|;
  }

  lemma EmptyHalf()
    ensures ParseHalf("") == Some([])
  {
  }

  // Dotted tails.

  lemma {:induction false} JoinAppends(parts: seq<string>, last: string)
    requires parts != []
    ensures Join(parts + [last], ':') == Join(parts, ':') + ":" + last
    decreases |parts|
  {
    if |parts| == 1 {
      assert (parts + [last])[1..] == [last];
    } else {
      assert (parts + [last])[1..] == parts[1..] + [last];
      JoinAppends(parts[1..], last);
    }
  }

  lemma {:induction false} LastColonBefore(before: string, tail: string)
    requires before != "" && before[|before| - 1] == ':' && ':' !in tail
    ensures AfterLastColon(before + tail) == |before|
    decreases |tail|
  {
    if tail == [] {
      assert before + tail == before;
    } else {
      var text := before + tail;
      assert text[|text| - 1] == tail[|tail| - 1] && tail[|tail| - 1] in tail;
      assert text[..|text| - 1] == before + tail[..|tail| - 1];
      LastColonBefore(before, tail[..|tail| - 1]);
    }
  }

  lemma {:induction false} ColonIsInSomePart(text: string, at: nat)
    requires at < |text| && text[at] == ':'
    ensures exists part | part in Split(text, '.') :: ':' in part
    decreases |text|
  {
    var rest := Split(text[1..], '.');
    if at == 0 {
      assert Split(text, '.')[0][0] == ':';
      assert Split(text, '.')[0] in Split(text, '.');
    } else {
      assert text[1..][at - 1] == ':';
      ColonIsInSomePart(text[1..], at - 1);
      var part :| part in rest && ':' in part;
      var i :| 0 <= i < |rest| && rest[i] == part;
      var parts := Split(text, '.');
      if text[0] == '.' {
        assert parts[i + 1] == part;
      } else if i == 0 {
        assert ':' in parts[0] by {
          assert parts[0] == [text[0]] + rest[0];
        }
        assert parts[0] in parts;
      } else {
        assert parts[i] == part;
      }
    }
  }

  lemma ColonsAreNoIpv4(text: string)
    requires ':' in text
    ensures Ipv4Octets(text).None?
  {
    var at :| 0 <= at < |text| && text[at] == ':';
    ColonIsInSomePart(text, at);
    var parts := Split(text, '.');
    var part :| part in parts && ':' in part;
    var i :| 0 <= i < |parts| && parts[i] == part;
    var k :| 0 <= k < |part| && part[k] == ':';
    assert !IsDigit(part[k]);
    assert !IsDecimalPart(parts[i]);
  }

  /** A dotted address has dots and no colons, and no letters. */
  lemma AddressText(address: string)
    requires Ipv4Octets(address).Some?
    ensures ':' !in address && '.' in address && Lower(address) == address
  {
    hide DecimalValue;
    if ':' in address {
      ColonsAreNoIpv4(address);
    }
    if '.' !in address {
      SplitOfFree(address, '.');
    }
    var parts := Split(address, '.');
    forall part | part in parts ensures AllDigits(part) {
      var i :| 0 <= i < |parts| && parts[i] == part;
      assert IsDecimalPart(parts[i]);
    }
    DigitsAreLower(parts, '.');
    JoinOfSplit(address, '.');
  }

  /** A dotted tail after a colon becomes two groups with the same values. */
  lemma AddressIsNormalized(before: string, address: string, o: Octets)
    requires before != "" && before[|before| - 1] == ':' && Ipv4Octets(address) == Some(o)
    ensures Normalized(before + address) ==
      Some(before + PrintHex(o.a * 256 + o.b) + ":" + PrintHex(o.c * 256 + o.d))
  {
    hide PrintHex, AfterLastColon, Ipv4Octets;
    var text := before + address;
    AddressText(address);
    LastColonBefore(before, address);
    assert text[|before|..] == address && text[..|before|] == before;
  }

  lemma DottedGroupsAreHex(o: Octets)
    requires o.Valid()
    ensures AreHexGroups([PrintHex(o.a * 256 + o.b), PrintHex(o.c * 256 + o.d)])
    ensures GroupValues([PrintHex(o.a * 256 + o.b), PrintHex(o.c * 256 + o.d)]) == [o.a * 256 + o.b, o.c * 256 + o.d]
  {
    hide PrintHex;
    GroupsPrintShort(o.a * 256 + o.b);
    GroupsPrintShort(o.c * 256 + o.d);
  }

  lemma {:induction false} HexTextIsPlain(groups: seq<string>)
    requires AreHexGroups(groups)
    ensures var text := Join(groups, ':'); '.' !in text && Lower(text) == text
    decreases |groups|
  {
    if groups != [] {
      assert IsHexGroup(groups[0]);
      assert Lower(groups[0]) == groups[0] && '.' !in groups[0];
      if |groups| > 1 {
        forall i | 0 <= i < |groups[1..]| ensures IsHexGroup(groups[1..][i]) {
          assert groups[1..][i] == groups[i + 1];
        }
        HexTextIsPlain(groups[1..]);
        LowerConcatenates(groups[0] + [':'], Join(groups[1..], ':'));
        LowerConcatenates(groups[0], [':']);
        assert Lower([':']) == [':'];
      }
    }
  }

  lemma LowerConcatenates(a: string, b: string)
    ensures Lower(a + b) == Lower(a) + Lower(b)
  {
  }

  lemma {:induction false} DigitsAreLower(parts: seq<string>, separator: char)
    requires LowerChar(separator) == separator && forall part | part in parts :: AllDigits(part)
    ensures Lower(Join(parts, separator)) == Join(parts, separator)
    decreases |parts|
  {
    if parts != [] {
      assert AllDigits(parts[0]);
      assert Lower(parts[0]) == parts[0];
      if |parts| > 1 {
        DigitsAreLower(parts[1..], separator);
        LowerConcatenates(parts[0] + [separator], Join(parts[1..], separator));
        LowerConcatenates(parts[0], [separator]);
      }
    }
  }

  lemma GroupValuesConcatenate(a: seq<string>, b: seq<string>)
    ensures GroupValues(a + b) == GroupValues(a) + GroupValues(b)
  {
  }

  lemma HexGroupsConcatenate(a: seq<string>, b: seq<string>)
    requires AreHexGroups(a) && AreHexGroups(b)
    ensures AreHexGroups(a + b)
  {
  }

  lemma {:induction false} JoinConcatenates(a: seq<string>, b: seq<string>)
    requires a != [] && b != []
    ensures Join(a + b, ':') == Join(a, ':') + ":" + Join(b, ':')
    decreases |a|
  {
    if |a| == 1 {
      assert (a + b)[1..] == b;
    } else {
      assert (a + b)[1..] == a[1..] + b;
      JoinConcatenates(a[1..], b);
    }
  }

  /** A prefix that ends with a colon, and a dotted tail. */
  lemma AddressIsLowered(before: string, address: string)
    requires Ipv4Octets(address).Some? && Lower(before) == before
    ensures Lower(before + address) == before + address
  {
    hide Ipv4Octets;
    AddressText(address);
    LowerConcatenates(before, address);
  }

  lemma TwoGroupsJoin(o: Octets)
    ensures var tail := [PrintHex(o.a * 256 + o.b), PrintHex(o.c * 256 + o.d)];
      Join(tail, ':') == PrintHex(o.a * 256 + o.b) + ":" + PrintHex(o.c * 256 + o.d)
  {
    var tail := [PrintHex(o.a * 256 + o.b), PrintHex(o.c * 256 + o.d)];
    assert tail[1..] == [PrintHex(o.c * 256 + o.d)];
  }

  lemma FullDottedIsRead(left: seq<string>, address: string, o: Octets)
    requires AreHexGroups(left) && |left| == 6 && Ipv4Octets(address) == Some(o)
    ensures Ipv6Groups(Join(left + [address], ':')) == Some(GroupValues(left) + [o.a * 256 + o.b, o.c * 256 + o.d])
  {
    hide Ipv4Octets, PrintHex, Join, Normalized, ParseGroups, Lower, IsHexGroup;
    var before := Join(left, ':') + ":";
    var tail := [PrintHex(o.a * 256 + o.b), PrintHex(o.c * 256 + o.d)];
    HexTextIsPlain(left);
    JoinAppends(left, address);
    assert Lower(before) == before by {
      LowerConcatenates(Join(left, ':'), ":");
      ColonIsLower();
    }
    AddressIsLowered(before, address);
    AddressIsNormalized(before, address, o);
    TwoGroupsJoin(o);
    JoinConcatenates(left, tail);
    assert before + PrintHex(o.a * 256 + o.b) + ":" + PrintHex(o.c * 256 + o.d) == before + Join(tail, ':');
    DottedGroupsAreHex(o);
    HexGroupsConcatenate(left, tail);
    FullTextIsRead(left + tail);
    GroupValuesConcatenate(left, tail);
  }

  lemma ColonIsLower()
    ensures Lower(":") == ":" && Lower("::") == "::"
  {
  }

  lemma ElidedDottedIsNormalized(left: seq<string>, right: seq<string>, address: string, o: Octets)
    requires AreHexGroups(left) && AreHexGroups(right) && Ipv4Octets(address) == Some(o)
    ensures Normalized(Lower(Join(left, ':') + "::" + Join(right + [address], ':'))) ==
      Some(Join(left, ':') + "::" + Join(right + [PrintHex(o.a * 256 + o.b), PrintHex(o.c * 256 + o.d)], ':'))
  {
    hide Ipv4Octets, PrintHex, Join, Normalized, Lower, IsHexGroup, ElidedPrefix;
    var tail := [PrintHex(o.a * 256 + o.b), PrintHex(o.c * 256 + o.d)];
    var before := ElidedPrefix(left, right);
    ElidedTextEndsDotted(left, right, address);
    ElidedPrefixIsLower(left, right);
    AddressIsLowered(before, address);
    AddressIsNormalized(before, address, o);
    TwoGroupsJoin(o);
    assert before + PrintHex(o.a * 256 + o.b) + ":" + PrintHex(o.c * 256 + o.d) == before + Join(tail, ':');
    ElidedTextEnds(left, right, tail);
  }

  lemma ElidedDottedIsRead(left: seq<string>, right: seq<string>, address: string, o: Octets)
    requires AreHexGroups(left) && AreHexGroups(right) && |left| + |right| <= 5 && Ipv4Octets(address) == Some(o)
    ensures Ipv6Groups(Join(left, ':') + "::" + Join(right + [address], ':')) ==
      Some(GroupValues(left) + Zeros(6 - |left| - |right|) + (GroupValues(right) + [o.a * 256 + o.b, o.c * 256 + o.d]))
  {
    hide Ipv4Octets, PrintHex, Join, Normalized, ParseGroups, Lower, IsHexGroup, Zeros, AreHexGroups, GroupValues;
    var tail := [PrintHex(o.a * 256 + o.b), PrintHex(o.c * 256 + o.d)];
    ElidedDottedIsNormalized(left, right, address, o);
    DottedGroupsAreHex(o);
    HexGroupsConcatenate(right, tail);
    ElidedTextIsRead(left, right + tail);
    GroupValuesConcatenate(right, tail);
  }

  /** Everything before the last groups. */
  function ElidedPrefix(left: seq<string>, right: seq<string>): string {
    Join(left, ':') + "::" + (if right == [] then "" else Join(right, ':') + ":")
  }

  lemma ElidedPrefixIsLower(left: seq<string>, right: seq<string>)
    requires AreHexGroups(left) && AreHexGroups(right)
    ensures var before := ElidedPrefix(left, right);
      Lower(before) == before && before != "" && before[|before| - 1] == ':'
  {
    hide Join, IsHexGroup, Lower;
    HexTextIsPlain(left);
    HexTextIsPlain(right);
    ColonIsLower();
    LowerConcatenates(Join(left, ':'), "::");
    LowerConcatenates(Join(right, ':'), ":");
    LowerConcatenates(Join(left, ':') + "::", Join(right, ':') + ":");
    assert Join(left, ':') + "::" + "" == Join(left, ':') + "::";
  }

  lemma ElidedTextEnds(left: seq<string>, right: seq<string>, tail: seq<string>)
    requires tail != []
    ensures ElidedPrefix(left, right) + Join(tail, ':') == Join(left, ':') + "::" + Join(right + tail, ':')
  {
    hide Join;
    if right == [] {
      assert right + tail == tail;
      assert Join(left, ':') + "::" + "" == Join(left, ':') + "::";
    } else {
      JoinConcatenates(right, tail);
      assert Join(left, ':') + "::" + (Join(right, ':') + ":") + Join(tail, ':') ==
        Join(left, ':') + "::" + (Join(right, ':') + ":" + Join(tail, ':'));
    }
  }

  lemma ElidedTextEndsDotted(left: seq<string>, right: seq<string>, last: string)
    ensures ElidedPrefix(left, right) + last == Join(left, ':') + "::" + Join(right + [last], ':')
  {
    assert Join([last], ':') == last;
    ElidedTextEnds(left, right, [last]);
  }

  /** `ipv6Groups` returns the original eight groups for every legal spelling of them. */
  lemma SpellingIsRead(s: Spelling)
    requires Legal(s)
    ensures Ipv6Groups(TextOf(s)) == Some(GroupsOf(s))
  {
    hide PrintHex, Join, ParseGroups, Lower, IsHexGroup, Zeros, Ipv4Octets;
    match (s.right, s.dotted) {
      case (None, None) =>
        assert s.left + [] == s.left && GroupValues(s.left) + [] == GroupValues(s.left);
        HexTextIsPlain(s.left);
        FullTextIsRead(s.left);
      case (None, Some(address)) => FullDottedIsRead(s.left, address, Ipv4Octets(address).value);
      case (Some(right), None) =>
        assert right + [] == right && GroupValues(right) + [] == GroupValues(right);
        ElidedTextIsPlain(s.left, right);
        ElidedTextIsRead(s.left, right);
      case (Some(right), Some(address)) => ElidedDottedIsRead(s.left, right, address, Ipv4Octets(address).value);
    }
  }

  lemma ElidedTextIsPlain(left: seq<string>, right: seq<string>)
    requires AreHexGroups(left) && AreHexGroups(right)
    ensures var text := Join(left, ':') + "::" + Join(right, ':'); '.' !in text && Lower(text) == text
  {
    hide Join, IsHexGroup;
    HexTextIsPlain(left);
    HexTextIsPlain(right);
    LowerConcatenates(Join(left, ':') + "::", Join(right, ':'));
    LowerConcatenates(Join(left, ':'), "::");
    ColonIsLower();
  }

  // Nothing but a legal spelling is read.

  lemma {:induction false} JoinOfSplitDouble(text: string)
    ensures var halves := SplitDouble(text);
      (|halves| == 1 ==> halves[0] == text) && (|halves| == 2 ==> text == halves[0] + "::" + halves[1])
    decreases |text|
  {
    if text != [] {
      if "::" <= text {
        JoinOfSplitDouble(text[2..]);
        assert text == "::" + text[2..] && [] + "::" + text[2..] == "::" + text[2..];
      } else {
        JoinOfSplitDouble(text[1..]);
        assert text == [text[0]] + text[1..];
        var rest := SplitDouble(text[1..]);
        if |rest| == 2 {
          assert [text[0]] + (rest[0] + "::" + rest[1]) == ([text[0]] + rest[0]) + "::" + rest[1];
        }
      }
    }
  }

  function GroupsIn(half: string): seq<string> {
    if half == "" then [] else Split(half, ':')
  }

  lemma ReadHalfIsSpelled(half: string)
    requires ParseHalf(half).Some?
    ensures AreHexGroups(GroupsIn(half)) && Join(GroupsIn(half), ':') == half
    ensures ParseHalf(half).value == GroupValues(GroupsIn(half))
  {
    hide IsHexGroup;
    JoinOfSplit(half, ':');
  }

  /** Text that is read is a spelling without a dotted tail. */
  lemma ReadGroupsAreSpelled(text: string) returns (s: Spelling)
    requires ParseGroups(text).Some?
    ensures Legal(s) && s.dotted.None? && TextOf(s) == text && GroupsOf(s) == ParseGroups(text).value
  {
    hide ParseHalf, IsHexGroup, SplitDouble, Join, GroupsIn, Zeros;
    var halves := SplitDouble(text);
    JoinOfSplitDouble(text);
    ReadHalfIsSpelled(halves[0]);
    var left := GroupsIn(halves[0]);
    assert left + [] == left && GroupValues(left) + [] == GroupValues(left);
    if |halves| == 1 {
      EmptyHalf();
      s := Spelling(left, None, None);
    } else {
      ReadHalfIsSpelled(halves[1]);
      var right := GroupsIn(halves[1]);
      assert right + [] == right && GroupValues(right) + [] == GroupValues(right);
      s := Spelling(left, Some(right), None);
    }
  }

  predicate EndsWithColon(text: string) {
    text != "" && text[|text| - 1] == ':'
  }

  /** The part after the last colon is determined. */
  lemma SameTail(a: string, u: string, b: string, v: string)
    requires EndsWithColon(a) && EndsWithColon(b) && ':' !in u && ':' !in v && a + u == b + v
    ensures a == b && u == v
  {
    LastColonBefore(a, u);
    LastColonBefore(b, v);
    assert (a + u)[..|a|] == a && (b + v)[..|b|] == b;
    assert (a + u)[|a|..] == u && (b + v)[|b|..] == v;
  }

  lemma HexGroupText(group: string)
    requires IsHexGroup(group)
    ensures group != "" && ':' !in group && !EndsWithColon(group)
  {
    forall i | 0 <= i < |group| ensures group[i] != ':' {
      assert IsHexDigit(group[i]);
    }
  }

  lemma DroppedGroups(groups: seq<string>)
    requires AreHexGroups(groups) && |groups| >= 2
    ensures AreHexGroups(groups[..|groups| - 2])
    ensures IsHexGroup(groups[|groups| - 2]) && IsHexGroup(groups[|groups| - 1])
    ensures groups == groups[..|groups| - 2] + [groups[|groups| - 2], groups[|groups| - 1]]
  {
    hide IsHexGroup;
  }

  /** What stands before the groups of a half, and what precedes a further group of it. */
  function UpTo(before: string, groups: seq<string>): string {
    if groups == [] then before else before + Join(groups, ':') + ":"
  }

  lemma UpToEnds(before: string, groups: seq<string>, next: string)
    ensures before + Join(groups + [next], ':') == UpTo(before, groups) + next
    ensures before == "" || EndsWithColon(before) ==> groups != [] || before != "" ==> EndsWithColon(UpTo(before, groups))
  {
    if groups == [] {
      assert groups + [next] == [next];
    } else {
      JoinAppends(groups, next);
      assert before + (Join(groups, ':') + ":" + next) == (before + Join(groups, ':') + ":") + next;
    }
  }

  predicate LeadsHalf(before: string) {
    before == "" || (|before| >= 2 && before[|before| - 2..] == "::")
  }

  lemma LeadEnds(before: string)
    requires LeadsHalf(before) && before != ""
    ensures EndsWithColon(before) && before[|before| - 2] == ':'
  {
    assert before[|before| - 2..][0] == ':' && before[|before| - 2..][1] == ':';
  }

  lemma HexGroupsDropLast(groups: seq<string>)
    requires AreHexGroups(groups) && groups != []
    ensures AreHexGroups(groups[..|groups| - 1]) && IsHexGroup(groups[|groups| - 1])
    ensures groups == groups[..|groups| - 1] + [groups[|groups| - 1]]
  {
    hide IsHexGroup;
  }

  /** The last group of a half is what follows the last colon. */
  lemma LastGroup(before: string, groups: seq<string>, text: string, last: string)
    requires AreHexGroups(groups) && LeadsHalf(before) && groups != [] && (before == "" ==> |groups| >= 2)
    requires EndsWithColon(text) && ':' !in last && before + Join(groups, ':') == text + last
    ensures groups[|groups| - 1] == last && UpTo(before, groups[..|groups| - 1]) == text
  {
    hide Join, IsHexGroup, UpTo, LeadsHalf;
    var init, group := groups[..|groups| - 1], groups[|groups| - 1];
    HexGroupsDropLast(groups);
    HexGroupText(group);
    if before != "" {
      LeadEnds(before);
    }
    UpToEnds(before, init, group);
    SameTail(UpTo(before, init), group, text, last);
  }

  lemma EndOfHalf(before: string, groups: seq<string>, text: string, high: string, low: string)
    requires LeadsHalf(before) && AreHexGroups(groups) && high != "" && low != ""
    requires !EndsWithColon(high) && !EndsWithColon(low)
    requires before == "" ==> |groups| >= 3
    requires before + Join(groups, ':') == (text + high + ":") + low
    ensures groups != []
  {
    hide Join, IsHexGroup, LeadsHalf;
    EmptyJoin();
    var whole := (text + high + ":") + low;
    assert whole[|whole| - 1] == low[|low| - 1];
    if before != "" {
      LeadEnds(before);
    }
  }

  lemma MoreThanOneGroup(before: string, text: string, high: string)
    requires LeadsHalf(before) && high != "" && !EndsWithColon(high) && before != ""
    ensures before != text + high + ":"
  {
    LeadEnds(before);
    var whole := text + high + ":";
    assert whole[|whole| - 2] == high[|high| - 1];
  }

  lemma WithoutColon(a: string, b: string)
    requires a + ":" == b + ":"
    ensures a == b
  {
    assert (a + ":")[..|a|] == a && (b + ":")[..|b|] == b;
  }

  /** If the text of a half ends like a normalized address, so do its groups. */
  lemma TailOfHalf(before: string, groups: seq<string>, text: string, high: string, low: string)
    requires AreHexGroups(groups) && IsHexGroup(high) && IsHexGroup(low) && LeadsHalf(before)
    requires before == "" ==> |groups| >= 3
    requires EndsWithColon(text) && before + Join(groups, ':') == text + high + ":" + low
    ensures |groups| >= 2 && groups == groups[..|groups| - 2] + [high, low]
    ensures UpTo(before, groups[..|groups| - 2]) == text
  {
    hide Join, IsHexGroup, LeadsHalf, EndsWithColon;
    HexGroupText(high);
    HexGroupText(low);
    EndOfHalf(before, groups, text, high, low);
    var n := |groups|;
    var init := groups[..n - 1];
    ColonEnds(text + high);
    LastGroup(before, groups, text + high + ":", low);
    HexGroupsDropLast(groups);
    if before != "" {
      MoreThanOneGroup(before, text, high);
    }
    assert init != [];
    WithoutColon(before + Join(init, ':'), text + high);
    LastGroup(before, init, text, high);
    assert init[..n - 2] == groups[..n - 2];
    DroppedGroups(groups);
  }

  lemma ColonEnds(text: string)
    ensures EndsWithColon(text + ":")
  {
  }

  lemma EmptyJoin()
    ensures Join([], ':') == ""
  {
  }

  /** Reading inverts writing: whatever is read is the text of a legal spelling of those groups. */
  lemma ReadTextIsSpelled(host: string) returns (s: Spelling)
    requires Ipv6Groups(host).Some?
    ensures Legal(s) && TextOf(s) == Lower(host) && GroupsOf(s) == Ipv6Groups(host).value
  {
    hide PrintHex, Join, ParseGroups, Lower, IsHexGroup, Ipv4Octets, Legal, TextOf, GroupsOf;
    var text := Lower(host);
    if '.' !in text {
      s := ReadGroupsAreSpelled(text);
    } else {
      var at := AfterLastColon(text);
      var address, before := text[at..], text[..at];
      var o := Ipv4Octets(address).value;
      var high, low := PrintHex(o.a * 256 + o.b), PrintHex(o.c * 256 + o.d);
      var plain := ReadGroupsAreSpelled(before + high + ":" + low);
      assert text == before + address;
      s := DottedSpelling(plain, before, address, o);
    }
  }

  /** A spelling whose last two groups print an address, with the address in their place. */
  lemma DottedSpelling(plain: Spelling, before: string, address: string, o: Octets) returns (s: Spelling)
    requires Legal(plain) && plain.dotted.None? && EndsWithColon(before) && Ipv4Octets(address) == Some(o)
    requires TextOf(plain) == before + PrintHex(o.a * 256 + o.b) + ":" + PrintHex(o.c * 256 + o.d)
    ensures Legal(s) && TextOf(s) == before + address && GroupsOf(s) == GroupsOf(plain)
  {
    hide Legal, TextOf, GroupsOf, PrintHex, Ipv4Octets;
    match plain.right {
      case None => s := DottedFull(plain, before, address, o);
      case Some(right) => s := DottedElided(plain, right, before, address, o);
    }
  }

  lemma AddressGroups(address: string, o: Octets, high: string, low: string)
    requires Ipv4Octets(address) == Some(o) && high == PrintHex(o.a * 256 + o.b) && low == PrintHex(o.c * 256 + o.d)
    ensures IsHexGroup(high) && IsHexGroup(low) && GroupValues([high, low]) == TailGroups(address)
  {
    hide PrintHex, Ipv4Octets, IsHexGroup;
    DottedGroupsAreHex(o);
    assert IsHexGroup([high, low][0]) && IsHexGroup([high, low][1]);
  }

  /** The groups of a half that ends in the print of an address. */
  lemma HalfOfAddress(lead: string, groups: seq<string>, before: string, address: string, o: Octets, high: string, low: string)
    requires AreHexGroups(groups) && Ipv4Octets(address) == Some(o) && EndsWithColon(before)
    requires LeadsHalf(lead) && (lead == "" ==> |groups| >= 3)
    requires high == PrintHex(o.a * 256 + o.b) && low == PrintHex(o.c * 256 + o.d)
    requires lead + Join(groups, ':') == before + high + ":" + low
    ensures |groups| >= 2 && AreHexGroups(groups[..|groups| - 2])
    ensures GroupValues(groups) == GroupValues(groups[..|groups| - 2]) + TailGroups(address)
    ensures lead + Join(groups[..|groups| - 2] + [address], ':') == before + address
  {
    hide PrintHex, Join, IsHexGroup, Ipv4Octets, GroupValues, UpTo, LeadsHalf, EndsWithColon, TailGroups;
    AddressGroups(address, o, high, low);
    TailOfHalf(lead, groups, before, high, low);
    DroppedGroups(groups);
    UpToEnds(lead, groups[..|groups| - 2], address);
    GroupValuesConcatenate(groups[..|groups| - 2], [high, low]);
  }

  lemma DottedFull(plain: Spelling, before: string, address: string, o: Octets) returns (s: Spelling)
    requires Legal(plain) && plain.dotted.None? && plain.right.None? && EndsWithColon(before) && Ipv4Octets(address) == Some(o)
    requires TextOf(plain) == before + PrintHex(o.a * 256 + o.b) + ":" + PrintHex(o.c * 256 + o.d)
    ensures Legal(s) && TextOf(s) == before + address && GroupsOf(s) == GroupsOf(plain)
  {
    hide PrintHex, Join, IsHexGroup, Ipv4Octets, Zeros, GroupValues, TailGroups;
    var groups := plain.left;
    assert groups + [] == groups && "" + Join(groups, ':') == Join(groups, ':');
    HalfOfAddress("", groups, before, address, o, PrintHex(o.a * 256 + o.b), PrintHex(o.c * 256 + o.d));
    var init := groups[..|groups| - 2];
    assert "" + Join(init + [address], ':') == Join(init + [address], ':');
    s := Spelling(init, None, Some(address));
    assert GroupsOf(plain) == GroupValues(groups) + [];
  }

  lemma DottedElided(plain: Spelling, right: seq<string>, before: string, address: string, o: Octets) returns (s: Spelling)
    requires Legal(plain) && plain.dotted.None? && plain.right == Some(right)
    requires EndsWithColon(before) && Ipv4Octets(address) == Some(o)
    requires TextOf(plain) == before + PrintHex(o.a * 256 + o.b) + ":" + PrintHex(o.c * 256 + o.d)
    ensures Legal(s) && TextOf(s) == before + address && GroupsOf(s) == GroupsOf(plain)
  {
    hide PrintHex, Join, IsHexGroup, Ipv4Octets, Zeros, GroupValues, TailGroups;
    var lead := Join(plain.left, ':') + "::";
    assert right + [] == right && lead[|lead| - 2..] == "::";
    HalfOfAddress(lead, right, before, address, o, PrintHex(o.a * 256 + o.b), PrintHex(o.c * 256 + o.d));
    s := Spelling(plain.left, Some(right[..|right| - 2]), Some(address));
    TwoGroups(address, o);
    assert GroupValues(right) + [] == GroupValues(right);
  }

  lemma TwoGroups(address: string, o: Octets)
    requires Ipv4Octets(address) == Some(o)
    ensures |TailGroups(address)| == 2
  {
  }

  /** A host is read as eight groups exactly if it is, but for letter case, the text of a legal spelling of them. */
  lemma ReadsExactlySpellings(host: string, groups: seq<nat>)
    ensures Ipv6Groups(host) == Some(groups)
      <==> exists s: Spelling | Legal(s) :: TextOf(s) == Lower(host) && GroupsOf(s) == groups
  {
    hide Ipv6Groups, Legal, TextOf, GroupsOf;
    if Ipv6Groups(host).Some? {
      var s := ReadTextIsSpelled(host);
    }
    forall s: Spelling | Legal(s) && TextOf(s) == Lower(host) ensures Ipv6Groups(host) == Some(GroupsOf(s)) {
      SpellingIsRead(s);
      LoweringTwice(host);
      CaseIsIgnored(host, TextOf(s));
    }
  }

  lemma LoweringTwice(text: string)
    ensures Lower(Lower(text)) == Lower(text)
  {
  }

  /** Letter case plays no part. */
  lemma CaseIsIgnored(a: string, b: string)
    requires Lower(a) == Lower(b)
    ensures Ipv6Groups(a) == Ipv6Groups(b)
  {
  }

  // IPv4 addresses inside IPv6 addresses.

  predicate AllZero(groups: seq<nat>) {
    forall i | 0 <= i < |groups| :: groups[i] == 0
  }

  /** The masks of sixteen-bit groups, as arithmetic: `g & 0xffc0`, `g & 0xfe00` and `g ^ 0xffff`. */
  function Masked(group: nat, size: nat): nat
    requires size > 0
  {
    group / size * size
  }

  function Obscured(group: nat): nat {
    if group <= 0xffff then 0xffff - group else 0
  }

  /** The two groups that hold an IPv4 address, by the first form that applies. */
  function EmbeddedGroups(groups: seq<nat>): Option<(nat, nat)>
    requires |groups| == 8
  {
    if groups[0] == 0x2002 then Some((groups[1], groups[2]))
    else if groups[0] == 0x64 && groups[1] == 0xff9b && AllZero(groups[2..6]) then Some((groups[6], groups[7]))
    else if groups[0] == 0x2001 && groups[1] == 0 then Some((Obscured(groups[6]), Obscured(groups[7])))
    else if AllZero(groups[..5]) && groups[5] == 0xffff then Some((groups[6], groups[7]))
    else if AllZero(groups[..4]) && groups[4] == 0xffff && groups[5] == 0 then Some((groups[6], groups[7]))
    else if AllZero(groups[..6]) && (groups[6] != 0 || groups[7] > 1) then Some((groups[6], groups[7]))
    else None
  }

  /** `embeddedIpv4`: the address printed in dotted form. */
  function EmbeddedIpv4(groups: seq<nat>): Option<string>
    requires |groups| == 8
  {
    match EmbeddedGroups(groups)
    case None => None
    case Some((high, low)) => Some(Dotted(Octets(high / 256, high % 256, low / 256, low % 256)))
  }

  predicate BlockedGroups(groups: seq<nat>)
    requires |groups| == 8
  {
    if AllZero(groups[..7]) && groups[7] <= 1 then true
    else if Masked(groups[0], 0x40) == 0xfe80 then true
    else if Masked(groups[0], 0x200) == 0xfc00 then true
    else
      match EmbeddedIpv4(groups)
      case None => false
      case Some(embedded) => IsBlockedIpv4(embedded)
  }

  predicate IsBlockedIpv6(host: string) {
    match Ipv6Groups(host)
    case None => false
    case Some(groups) => |groups| == 8 && BlockedGroups(groups)
  }

  predicate EndsWith(s: string, suffix: string) {
    |suffix| <= |s| && s[|s| - |suffix|..] == suffix
  }

  function Bare(host: string): string {
    if StartsWith(host, "[") && EndsWith(host, "]") && |host| >= 2 then host[1..|host| - 1] else host
  }

  predicate IsBlockedUrlHost(hostname: string) {
    var host := Lower(hostname);
    if host == "localhost" || EndsWith(host, ".localhost") then true
    else
      var bare := Bare(host);
      IsBlockedIpv4(bare) || (':' in bare && IsBlockedIpv6(bare))
  }

  /** The ways an IPv4 address is carried in eight groups; the parameters are the groups that are free. */
  datatype Form =
    | Mapped
    | Translated
    | Compatible
    | SixToFour(rest: seq<nat>)
    | Nat64
    | Teredo(middle: seq<nat>)

  predicate FormIsComplete(form: Form) {
    match form
    case SixToFour(rest) => |rest| == 5
    case Teredo(middle) => |middle| == 4
    case _ => true
  }

  function Carrying(form: Form, o: Octets): (groups: seq<nat>)
    requires FormIsComplete(form) && o.Valid()
    ensures |groups| == 8
  {
    var high, low := o.a * 256 + o.b, o.c * 256 + o.d;
    match form
    case Mapped => [0, 0, 0, 0, 0, 0xffff, high, low]
    case Translated => [0, 0, 0, 0, 0xffff, 0, high, low]
    case Compatible => [0, 0, 0, 0, 0, 0, high, low]
    case SixToFour(rest) => [0x2002, high, low] + rest
    case Nat64 => [0x64, 0xff9b, 0, 0, 0, 0, high, low]
    case Teredo(middle) => [0x2001, 0] + middle + [0xffff - high, 0xffff - low]
  }

  lemma GroupsAreTheirOctets(o: Octets)
    requires o.Valid()
    ensures var high, low := o.a * 256 + o.b, o.c * 256 + o.d;
      Octets(high / 256, high % 256, low / 256, low % 256) == o
      && Obscured(0xffff - high) == high && Obscured(0xffff - low) == low
  {
  }

  lemma CarriedGroupsAreFound(form: Form, o: Octets)
    requires FormIsComplete(form) && o.Valid()
    requires form.Compatible? ==> o.a * 256 + o.b != 0 || o.c * 256 + o.d > 1
    ensures EmbeddedGroups(Carrying(form, o)) == Some((o.a * 256 + o.b, o.c * 256 + o.d))
    ensures !(AllZero(Carrying(form, o)[..7]) && Carrying(form, o)[7] <= 1)
  {
    GroupsAreTheirOctets(o);
    var groups := Carrying(form, o);
    match form {
      case Mapped => assert groups[..7][5] == 0xffff;
      case Translated =>
        assert groups[..7][4] == 0xffff && groups[..5][4] == 0xffff;
      case Compatible =>
        assert AllZero(groups[..6]);
        assert groups[..7][6] == groups[6];
      case SixToFour(rest) => assert groups[..7][0] == 0x2002;
      case Nat64 =>
        assert AllZero(groups[2..6]);
        assert groups[..7][0] == 0x64;
      case Teredo(middle) => assert groups[..7][0] == 0x2001;
    }
  }

  lemma CarriersAreNotLocal(form: Form, o: Octets)
    requires FormIsComplete(form) && o.Valid()
    ensures Masked(Carrying(form, o)[0], 0x40) != 0xfe80 && Masked(Carrying(form, o)[0], 0x200) != 0xfc00
  {
  }

  /** An IPv4 address is classified the same in every form that carries it. */
  lemma EmbeddingKeepsTheClass(form: Form, o: Octets)
    requires FormIsComplete(form) && o.Valid()
    ensures BlockedGroups(Carrying(form, o)) <==> BlockedOctets(o)
  {
    hide EmbeddedGroups, Dotted, Ipv4Octets, Masked;
    if form.Compatible? && o.a * 256 + o.b == 0 && o.c * 256 + o.d <= 1 {
      assert AllZero(Carrying(form, o)[..7]);
    } else {
      CarriedGroupsAreFound(form, o);
      CarriersAreNotLocal(form, o);
      GroupsAreTheirOctets(o);
      DottedRoundTrip(o);
    }
  }

  /** The masks name fe80::/10 and fc00::/7. */
  lemma MasksAreBlocks(group: nat)
    requires group <= 0xffff
    ensures Masked(group, 0x40) == 0xfe80 <==> InBlock(group, 0xfe80, 0x40)
    ensures Masked(group, 0x200) == 0xfc00 <==> InBlock(group, 0xfc00, 0x200)
  {
  }

  // Whole hosts.

  lemma TextHasColon(s: Spelling)
    requires Legal(s)
    ensures ':' in TextOf(s)
  {
    hide Ipv4Octets, IsHexGroup;
    match s.right {
      case None =>
        var parts := s.left + TailOf(s);
        assert |parts| > 1;
        assert Join(parts, ':') == parts[0] + [':'] + Join(parts[1..], ':');
        assert TextOf(s)[|parts[0]|] == ':';
      case Some(_) => assert TextOf(s)[|Join(s.left, ':')|] == ':';
    }
  }

  lemma OtherLastCharacter(host: string, suffix: string)
    requires host != "" && suffix != "" && host[|host| - 1] != suffix[|suffix| - 1]
    ensures !EndsWith(host, suffix)
  {
    if |suffix| <= |host| {
      assert host[|host| - |suffix|..][|suffix| - 1] == host[|host| - 1];
    }
  }

  lemma BracketedHost(text: string)
    requires Lower(text) == text
    ensures Lower("[" + text + "]") == "[" + text + "]" && Bare("[" + text + "]") == text
    ensures "[" + text + "]" != "localhost" && !EndsWith("[" + text + "]", ".localhost")
  {
    var host := "[" + text + "]";
    LowerConcatenates("[" + text, "]");
    LowerConcatenates("[", text);
    assert Lower("[") == "[" && Lower("]") == "]";
    assert host[|host| - 1] == ']' && host[|host| - 1..] == "]" && host[1..|host| - 1] == text;
    assert host[0] == '[' && "localhost"[0] == 'l' && ".localhost"[9] == 't';
    OtherLastCharacter(host, ".localhost");
  }

  lemma DottedHost(o: Octets)
    requires o.Valid()
    ensures IsBlockedUrlHost(Dotted(o)) <==> BlockedOctets(o)
  {
    hide PrintDecimal, Ipv4Octets;
    DottedRoundTrip(o);
    AddressText(Dotted(o));
    DottedCharacters(o);
    var host := Dotted(o);
    assert host[0] in host && host[|host| - 1] in host;
    assert "localhost"[0] == 'l' && ".localhost"[9] == 't';
    OtherLastCharacter(host, ".localhost");
    assert Bare(host) == host;
  }

  predicate IsDigitOrDot(c: char) {
    IsDigit(c) || c == '.'
  }

  predicate DigitsAndDots(text: string) {
    forall c | c in text :: IsDigitOrDot(c)
  }

  lemma DottedCharacters(o: Octets)
    ensures Dotted(o) != "" && DigitsAndDots(Dotted(o))
  {
    hide PrintDecimal;
    var parts := [PrintDecimal(o.a), PrintDecimal(o.b), PrintDecimal(o.c), PrintDecimal(o.d)];
    JoinedDigits(parts);
    assert Join(parts, '.') == parts[0] + ['.'] + Join(parts[1..], '.');
  }

  lemma {:induction false} JoinedDigits(parts: seq<string>)
    requires forall part | part in parts :: AllDigits(part)
    ensures DigitsAndDots(Join(parts, '.'))
    decreases |parts|
  {
    if parts != [] {
      assert AllDigits(parts[0]);
      if |parts| > 1 {
        JoinedDigits(parts[1..]);
      }
    }
  }

  /** Groups are written in lower case here; upper case is read the same. */
  lemma SpellingIsLower(s: Spelling)
    requires Legal(s)
    ensures Lower(TextOf(s)) == TextOf(s)
  {
    hide Ipv4Octets, Join, Lower, IsHexGroup;
    match (s.right, s.dotted) {
      case (None, None) =>
        assert s.left + [] == s.left;
        HexTextIsPlain(s.left);
      case (None, Some(address)) =>
        HexTextIsPlain(s.left);
        JoinAppends(s.left, address);
        LowerConcatenates(Join(s.left, ':'), ":");
        ColonIsLower();
        AddressIsLowered(Join(s.left, ':') + ":", address);
      case (Some(right), None) =>
        assert right + [] == right;
        ElidedTextIsPlain(s.left, right);
      case (Some(right), Some(address)) =>
        ElidedTextEndsDotted(s.left, right, address);
        ElidedPrefixIsLower(s.left, right);
        AddressIsLowered(ElidedPrefix(s.left, right), address);
    }
  }

  /**
   * Whatever legal spelling of whatever carrying form a URL uses for an IPv4 address, its host is blocked exactly when
   * the dotted address is.
   */
  lemma CarriedHostIsBlockedLikeItsAddress(s: Spelling, form: Form, o: Octets)
    requires Legal(s)
    requires FormIsComplete(form) && o.Valid() && GroupsOf(s) == Carrying(form, o)
    ensures IsBlockedUrlHost("[" + TextOf(s) + "]") <==> IsBlockedUrlHost(Dotted(o))
  {
    hide TextOf, Dotted, GroupsOf, Ipv6Groups, Ipv4Octets, BlockedGroups, BlockedOctets, Bare, EndsWith, Carrying;
    var text := TextOf(s);
    SpellingIsRead(s);
    SpellingIsLower(s);
    BracketedHost(text);
    TextHasColon(s);
    ColonsAreNoIpv4(text);
    EmbeddingKeepsTheClass(form, o);
    DottedHost(o);
  }
}
