/** Which hosts a URL may not name: an independent description of the guard over every host. */
module UrlHosts {
  import opened Wrappers
  import opened Text
  import opened UrlSafety

  // Letter case.

  /** The same character, or a capital and its small letter. */
  predicate SameLetter(a: char, b: char) {
    || a == b
    || ('A' <= a <= 'Z' && b as int == a as int + 32)
    || ('A' <= b <= 'Z' && a as int == b as int + 32)
  }

  predicate DiffersOnlyInCase(a: string, b: string) {
    |a| == |b| && forall i | 0 <= i < |a| :: SameLetter(a[i], b[i])
  }

  lemma LowerAgreesExactlyIf(a: string, b: string)
    ensures Lower(a) == Lower(b) <==> DiffersOnlyInCase(a, b)
  {
    if Lower(a) == Lower(b) {
      forall i | 0 <= i < |a| ensures SameLetter(a[i], b[i]) {
        assert LowerChar(a[i]) == Lower(a)[i] == Lower(b)[i] == LowerChar(b[i]);
      }
    }
    if DiffersOnlyInCase(a, b) {
      forall i | 0 <= i < |a| ensures Lower(a)[i] == Lower(b)[i] {
        assert SameLetter(a[i], b[i]);
      }
    }
  }

  lemma LowerOnlyChangesCase(a: string)
    ensures DiffersOnlyInCase(a, Lower(a))
  {
    LoweringTwice(a);
    LowerAgreesExactlyIf(a, Lower(a));
  }

  // Dotted addresses.

  /** Four parts of one to three digits, each at most 255. */
  ghost predicate SpellsOctets(parts: seq<string>, o: Octets) {
    && |parts| == 4 && (forall i | 0 <= i < 4 :: 1 <= |parts[i]| <= 3 && AllDigits(parts[i]))
    && o == Octets(DecimalValue(parts[0]), DecimalValue(parts[1]), DecimalValue(parts[2]), DecimalValue(parts[3]))
    && o.Valid()
  }

  ghost predicate IsDottedText(text: string, o: Octets) {
    exists parts: seq<string> | SpellsOctets(parts, o) :: text == Join(parts, '.')
  }

  /** A text is read as an address exactly if it joins four decimal parts of those values. */
  lemma ReadsExactlyDotted(text: string, o: Octets)
    ensures Ipv4Octets(text) == Some(o) <==> IsDottedText(text, o)
  {
    hide Split, Join, DecimalValue;
    if Ipv4Octets(text) == Some(o) {
      JoinOfSplit(text, '.');
      assert SpellsOctets(Split(text, '.'), o);
    }
    forall parts | SpellsOctets(parts, o) && text == Join(parts, '.') ensures Ipv4Octets(text) == Some(o) {
      forall part | part in parts ensures '.' !in part {
        var i :| 0 <= i < 4 && parts[i] == part;
        assert IsDecimalPart(parts[i]);
        DigitsHoldNo(part, '.');
      }
      SplitOfJoin(parts, '.');
    }
  }

  // Groups.

  ghost predicate CarriesInternal(groups: seq<nat>, form: Form, o: Octets) {
    FormIsComplete(form) && o.Valid() && groups == Carrying(form, o) && IsInternalAddress(Address(o))
  }

  /** Unspecified, loopback, fe80::/10, fc00::/7, or a carrier of an internal IPv4 address. */
  ghost predicate AreInternalGroups(groups: seq<nat>) {
    || groups == [0, 0, 0, 0, 0, 0, 0, 0]
    || groups == [0, 0, 0, 0, 0, 0, 0, 1]
    || (|groups| == 8 && (InBlock(groups[0], 0xfe80, 0x40) || InBlock(groups[0], 0xfc00, 0x200)))
    || exists form, o :: CarriesInternal(groups, form, o)
  }

  predicate AreGroups(groups: seq<nat>) {
    |groups| == 8 && forall i | 0 <= i < 8 :: groups[i] <= 0xffff
  }

  function OctetsOf(high: nat, low: nat): (o: Octets)
    ensures high <= 0xffff && low <= 0xffff ==>
      o.Valid() && o.a * 256 + o.b == high && o.c * 256 + o.d == low
  {
    Octets(high / 256, high % 256, low / 256, low % 256)
  }

  /** The form that was found. */
  lemma FoundFormCarries(groups: seq<nat>, high: nat, low: nat) returns (form: Form)
    requires AreGroups(groups) && EmbeddedGroups(groups) == Some((high, low))
    ensures high <= 0xffff && low <= 0xffff
    ensures FormIsComplete(form) && groups == Carrying(form, OctetsOf(high, low))
  {
    hide OctetsOf;
    if groups[0] == 0x2002 {
      form := SixToFour(groups[3..]);
    } else if groups[0] == 0x64 && groups[1] == 0xff9b && AllZero(groups[2..6]) {
      form := Nat64;
      assert groups[2..6][0] == groups[2] && groups[2..6][1] == groups[3] && groups[2..6][2] == groups[4]
        && groups[2..6][3] == groups[5];
    } else if groups[0] == 0x2001 && groups[1] == 0 {
      form := Teredo(groups[2..6]);
    } else if AllZero(groups[..5]) && groups[5] == 0xffff {
      form := Mapped;
      FirstAreZero(groups, 5);
    } else if AllZero(groups[..4]) && groups[4] == 0xffff && groups[5] == 0 {
      form := Translated;
      FirstAreZero(groups, 4);
    } else {
      form := Compatible;
      FirstAreZero(groups, 6);
    }
  }

  lemma FirstAreZero(groups: seq<nat>, n: nat)
    requires n <= |groups| && AllZero(groups[..n])
    ensures forall i | 0 <= i < n :: groups[i] == 0
  {
    forall i | 0 <= i < n ensures groups[i] == 0 {
      assert groups[..n][i] == groups[i];
    }
  }

  lemma SmallestGroups(groups: seq<nat>)
    requires AreGroups(groups)
    ensures AllZero(groups[..7]) && groups[7] <= 1
      <==> groups == [0, 0, 0, 0, 0, 0, 0, 0] || groups == [0, 0, 0, 0, 0, 0, 0, 1]
  {
    if AllZero(groups[..7]) {
      FirstAreZero(groups, 7);
    }
  }

  /** The tests on eight groups block the internal groups, and no others. */
  lemma BlockedGroupsExactly(groups: seq<nat>)
    requires AreGroups(groups)
    ensures BlockedGroups(groups) <==> AreInternalGroups(groups)
  {
    hide Carrying, EmbeddedGroups, Ipv4Octets, Dotted, IsInternalAddress, Address, OctetsOf, Masked;
    SmallestGroups(groups);
    MasksAreBlocks(groups[0]);
    forall form, o | CarriesInternal(groups, form, o) ensures BlockedGroups(groups) {
      EmbeddingKeepsTheClass(form, o);
      BlockedOctetsAreBlocks(o);
    }
    match EmbeddedGroups(groups) {
      case None =>
      case Some((high, low)) =>
        var form := FoundFormCarries(groups, high, low);
        var o := OctetsOf(high, low);
        EmbeddingKeepsTheClass(form, o);
        BlockedOctetsAreBlocks(o);
        assert BlockedOctets(o) ==> CarriesInternal(groups, form, o);
    }
  }

  // Whole hosts.

  /** The text, bare or in brackets. */
  predicate Names(host: string, text: string) {
    host == text || host == "[" + text + "]"
  }

  ghost predicate IsLocalName(host: string) {
    host == "localhost" || exists name: string :: host == name + ".localhost"
  }

  ghost predicate IsInternalDotted(host: string, text: string, o: Octets) {
    Names(host, text) && IsDottedText(text, o) && IsInternalAddress(Address(o))
  }

  ghost predicate IsInternalSpelling(host: string, s: Spelling) {
    Legal(s) && Names(host, TextOf(s)) && AreInternalGroups(GroupsOf(s))
  }

  /** A local name, a dotted address in a blocked range, or a spelling of internal groups. */
  ghost predicate IsInternalHost(host: string) {
    || IsLocalName(host)
    || (exists text, o :: IsInternalDotted(host, text, o))
    || (exists s :: IsInternalSpelling(host, s))
  }

  lemma {:induction false} HexValueIsSmall(text: string)
    requires AllHex(text) && |text| <= 4
    ensures HexValue(text) < if |text| == 0 then 1 else if |text| == 1 then 16 else if |text| == 2 then 0x100
      else if |text| == 3 then 0x1000 else 0x10000
    decreases |text|
  {
    if text != [] {
      HexValueIsSmall(text[..|text| - 1]);
    }
  }

  lemma SpelledGroupsAreSmall(s: Spelling)
    requires Legal(s)
    ensures AreGroups(GroupsOf(s))
  {
    hide Ipv4Octets, HexValue;
    forall groups: seq<string>, i | AreHexGroups(groups) && 0 <= i < |groups| ensures GroupValues(groups)[i] <= 0xffff {
      assert IsHexGroup(groups[i]);
      HexValueIsSmall(groups[i]);
    }
  }

  lemma SpellingBeginsWithoutBracket(s: Spelling)
    requires Legal(s)
    ensures TextOf(s) != "" && TextOf(s)[0] != '['
  {
    hide Ipv4Octets;
    if s.left == [] {
      assert Join(s.left, ':') == "";
      assert TextOf(s)[0] == ':';
    } else {
      var first := s.left[0];
      assert IsHexGroup(first);
      assert first == Join(s.left, ':')[..|first|] && IsHexDigit(first[0]);
      assert TextOf(s)[0] == first[0] by {
        if s.right.None? {
          assert (s.left + TailOf(s))[0] == first;
        }
      }
    }
  }

  lemma BareName(host: string, text: string)
    requires Names(host, text) && text != "" && text[0] != '['
    ensures Bare(host) == text
  {
    if host != text {
      assert host[1..|host| - 1] == text && host[|host| - 1..] == "]" && host[..1] == "[";
    }
  }

  lemma NameOfBare(host: string)
    ensures Names(host, Bare(host))
  {
    if Bare(host) != host {
      assert host[|host| - 1..] == "]" && host[0] == '[';
      assert host == "[" + host[1..|host| - 1] + "]";
    }
  }

  lemma NameIsLower(host: string, text: string)
    requires Names(host, text) && Lower(text) == text
    ensures Lower(host) == host
  {
  }

  lemma InternalSpellingIsBlocked(host: string, s: Spelling)
    requires IsInternalSpelling(host, s)
    ensures IsBlockedUrlHost(host) && Lower(host) == host
  {
    hide Legal, TextOf, GroupsOf, Ipv6Groups, Ipv4Octets, BlockedGroups, AreInternalGroups, EndsWith, Names, Bare;
    SpellingIsRead(s);
    SpellingIsLower(s);
    SpellingBeginsWithoutBracket(s);
    BareName(host, TextOf(s));
    NameIsLower(host, TextOf(s));
    TextHasColon(s);
    SpelledGroupsAreSmall(s);
    BlockedGroupsExactly(GroupsOf(s));
  }

  lemma InternalDottedIsBlocked(host: string, text: string, o: Octets)
    requires IsInternalDotted(host, text, o)
    ensures IsBlockedUrlHost(host) && Lower(host) == host
  {
    hide Ipv4Octets, Ipv6Groups, EndsWith, Names, Bare, IsInternalAddress, Address;
    ReadsExactlyDotted(text, o);
    AddressText(text);
    DottedBeginsWithDigit(text, o);
    BareName(host, text);
    NameIsLower(host, text);
    BlockedOctetsAreBlocks(o);
  }

  lemma DottedBeginsWithDigit(text: string, o: Octets)
    requires IsDottedText(text, o)
    ensures text != "" && IsDigit(text[0]) && o.Valid()
  {
    hide DecimalValue;
    var parts: seq<string> :| SpellsOctets(parts, o) && text == Join(parts, '.');
    assert IsDecimalPart(parts[0]);
    assert text == parts[0] + ['.'] + Join(parts[1..], '.');
  }

  lemma LocalNamesExactly(host: string)
    ensures IsLocalName(host) <==> host == "localhost" || EndsWith(host, ".localhost")
  {
    if EndsWith(host, ".localhost") {
      assert host == host[..|host| - 10] + ".localhost";
    }
    forall name: string | host == name + ".localhost" ensures EndsWith(host, ".localhost") {
      assert host[|host| - 10..] == ".localhost";
    }
  }

  lemma LocalNameIsBlocked(host: string)
    requires IsLocalName(host)
    ensures IsBlockedUrlHost(host)
  {
    hide IsBlockedIpv4, IsBlockedIpv6, Bare, EndsWith, Lower, IsLocalName;
    LocalNamesExactly(host);
    SmallLocalNames();
    if EndsWith(host, ".localhost") {
      LowerKeepsSuffix(host, ".localhost");
    }
  }

  lemma SmallLocalNames()
    ensures Lower("localhost") == "localhost" && Lower(".localhost") == ".localhost"
  {
  }

  lemma LowerKeepsSuffix(host: string, suffix: string)
    requires EndsWith(host, suffix) && Lower(suffix) == suffix
    ensures EndsWith(Lower(host), suffix)
  {
    var at := |host| - |suffix|;
    forall i | 0 <= i < |suffix| ensures Lower(host)[at..][i] == suffix[i] {
      assert host[at..][i] == host[at + i] && Lower(suffix)[i] == LowerChar(suffix[i]);
    }
  }

  /** What the guard blocks among hosts without capitals is internal. */
  lemma BlockedLowerHostIsInternal(host: string)
    requires IsBlockedUrlHost(host) && Lower(host) == host
    ensures IsInternalHost(host)
  {
    hide Ipv4Octets, Ipv6Groups, EndsWith, Names, Bare, IsInternalAddress, Address, BlockedGroups, AreInternalGroups,
      Legal, TextOf, GroupsOf, IsLocalName, BlockedOctets;
    LocalNamesExactly(host);
    var bare := Bare(host);
    NameOfBare(host);
    if !IsLocalName(host) {
      if IsBlockedIpv4(bare) {
        var o := Ipv4Octets(bare).value;
        ReadsExactlyDotted(bare, o);
        BlockedOctetsAreBlocks(o);
        assert IsInternalDotted(host, bare, o);
      } else {
        var s := ReadTextIsSpelled(bare);
        SpelledGroupsAreSmall(s);
        BlockedGroupsExactly(GroupsOf(s));
        BareIsLower(host);
        assert IsInternalSpelling(host, s);
      }
    }
  }

  lemma BareIsLower(host: string)
    requires Lower(host) == host
    ensures Lower(Bare(host)) == Bare(host)
  {
    forall i | 0 <= i < |Bare(host)| ensures LowerChar(Bare(host)[i]) == Bare(host)[i] {
      var at := if Bare(host) == host then i else i + 1;
      assert Bare(host)[i] == host[at] == Lower(host)[at];
    }
  }

  /**
   * The guard over every host: blocked are, in any letter case, exactly localhost and its subdomains, the decimal
   * spellings of IPv4 addresses in the seven blocks, and the legal spellings of unspecified, loopback, fe80::/10 and
   * fc00::/7 addresses and of those that carry such an IPv4 address, all of them bare or in brackets.
   */
  lemma BlockedHostsExactly(hostname: string)
    ensures IsBlockedUrlHost(hostname) <==> exists host | DiffersOnlyInCase(hostname, host) :: IsInternalHost(host)
  {
    hide IsBlockedUrlHost, IsInternalHost, DiffersOnlyInCase, Lower;
    var lower := Lower(hostname);
    LowerOnlyChangesCase(hostname);
    LoweringTwice(hostname);
    CaseDoesNotMatter(hostname, lower);
    if IsBlockedUrlHost(hostname) {
      BlockedLowerHostIsInternal(lower);
    }
    forall host | DiffersOnlyInCase(hostname, host) && IsInternalHost(host) ensures IsBlockedUrlHost(hostname) {
      CaseDoesNotMatter(hostname, host);
      InternalHostIsBlocked(host);
    }
  }

  lemma CaseDoesNotMatter(a: string, b: string)
    requires DiffersOnlyInCase(a, b)
    ensures IsBlockedUrlHost(a) <==> IsBlockedUrlHost(b)
  {
    LowerAgreesExactlyIf(a, b);
  }

  lemma InternalHostIsBlocked(host: string)
    requires IsInternalHost(host)
    ensures IsBlockedUrlHost(host)
  {
    hide IsBlockedUrlHost, IsLocalName, IsInternalDotted, IsInternalSpelling;
    if IsLocalName(host) {
      LocalNameIsBlocked(host);
    }
    forall text, o | IsInternalDotted(host, text, o) ensures IsBlockedUrlHost(host) {
      InternalDottedIsBlocked(host, text, o);
    }
    forall s | IsInternalSpelling(host, s) ensures IsBlockedUrlHost(host) {
      InternalSpellingIsBlocked(host, s);
    }
  }

  /** In brackets, a legal spelling is blocked exactly if its groups are internal. */
  lemma SpelledHostIsBlockedExactlyIf(s: Spelling)
    requires Legal(s)
    ensures IsBlockedUrlHost("[" + TextOf(s) + "]") <==> AreInternalGroups(GroupsOf(s))
  {
    hide Legal, TextOf, GroupsOf, Ipv6Groups, Ipv4Octets, BlockedGroups, AreInternalGroups, EndsWith, Bare;
    SpellingIsRead(s);
    SpellingIsLower(s);
    BracketedHost(TextOf(s));
    TextHasColon(s);
    ColonsAreNoIpv4(TextOf(s));
    SpelledGroupsAreSmall(s);
    BlockedGroupsExactly(GroupsOf(s));
  }
}
