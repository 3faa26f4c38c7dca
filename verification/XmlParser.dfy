/** The element parser: a stack machine over a stream of tags with their positions in the source text. */
module XmlParser {
  import opened Wrappers

  const DAV: string := "DAV:"

  /** Namespace bindings in scope: prefix to namespace, with "" for the default. */
  type Namespaces = map<string, string>

  /** One match of the tag expression. A self-closing tag ends its element at once. */
  datatype Token =
    | Skip(start: nat, end: nat)
    | Close(prefix: string, name: string, start: nat, end: nat)
    | Open(prefix: string, name: string, bindings: seq<(string, string)>, selfClosing: bool, start: nat, end: nat)

  /** An element with its spans: the whole of it, and its body between the tags. */
  datatype Element = Element(
    namespace: string, name: string, prefix: string, start: nat, bodyStart: nat, bodyEnd: nat, end: nat,
    children: seq<Element>)

  /** An element whose closing tag has not been seen. */
  datatype Frame = Frame(
    namespace: string, name: string, prefix: string, start: nat, bodyStart: nat, namespaces: Namespaces,
    children: seq<Element>)

  datatype ParseError = InvalidXml

  // Namespaces.

  function Bind(namespaces: Namespaces, bindings: seq<(string, string)>): Namespaces
    decreases |bindings|
  {
    if bindings == [] then namespaces else Bind(namespaces[bindings[0].0 := bindings[0].1], bindings[1..])
  }

  /** An unbound prefix means no namespace; without a default binding, no prefix means DAV. */
  function NamespaceOf(namespaces: Namespaces, prefix: string): string {
    if prefix in namespaces then namespaces[prefix]
    else if prefix != "" || "" in namespaces then ""
    else DAV
  }

  // The stack machine.

  const BOTTOM: Frame := Frame("", "", "", 0, 0, map["D" := DAV], [])

  function Opened(token: Token, top: Frame): Frame
    requires token.Open?
  {
    var namespaces := Bind(top.namespaces, token.bindings);
    Frame(NamespaceOf(namespaces, token.prefix), token.name, token.prefix, token.start, token.end, namespaces, [])
  }

  function Closed(frame: Frame, bodyEnd: nat, end: nat): Element {
    Element(frame.namespace, frame.name, frame.prefix, frame.start, frame.bodyStart, bodyEnd, end, frame.children)
  }

  function WithChild(frame: Frame, child: Element): Frame {
    frame.(children := frame.children + [child])
  }

  /** One tag; None is a closing tag that matches nothing. The top of the stack is its last frame. */
  function Advance(stack: seq<Frame>, token: Token): (next: Option<seq<Frame>>)
    requires stack != []
    ensures next.Some? ==> next.value != []
  {
    var below, top := stack[..|stack| - 1], stack[|stack| - 1];
    match token
    case Skip(_, _) => Some(stack)
    case Close(prefix, name, start, end) =>
      if below == [] || top.prefix != prefix || top.name != name then None
      else Some(below[..|below| - 1] + [WithChild(below[|below| - 1], Closed(top, start, end))])
    case Open(_, _, _, selfClosing, _, end) =>
      var frame := Opened(token, top);
      if selfClosing then Some(below + [WithChild(top, Closed(frame, end, end))]) else Some(stack + [frame])
  }

  function Run(stack: seq<Frame>, tokens: seq<Token>): (end: Option<seq<Frame>>)
    requires stack != []
    ensures end.Some? ==> end.value != []
    decreases |tokens|
  {
    if tokens == [] then Some(stack)
    else
      match Advance(stack, tokens[0])
      case None => None
      case Some(next) => Run(next, tokens[1..])
  }

  /** What the end of the source demands: nothing is open, and there is exactly one root. */
  function Finish(stack: seq<Frame>): Result<Element, ParseError> {
    if |stack| != 1 || |stack[0].children| != 1 then Err(InvalidXml) else Ok(stack[0].children[0])
  }

  function Parsed(tokens: seq<Token>): Result<Element, ParseError> {
    match Run([BOTTOM], tokens)
    case None => Err(InvalidXml)
    case Some(stack) => Finish(stack)
  }

  lemma {:induction false} RunByOne(stack: seq<Frame>, tokens: seq<Token>, token: Token)
    requires stack != []
    ensures Run(stack, tokens + [token]) ==
      match Run(stack, tokens)
      case None => None
      case Some(next) => Advance(next, token)
    decreases |tokens|
  {
    if tokens == [] {
      assert ([token])[1..] == [];
      assert tokens + [token] == [token];
    } else {
      assert (tokens + [token])[0] == tokens[0] && (tokens + [token])[1..] == tokens[1..] + [token];
      match Advance(stack, tokens[0])
      case None =>
      case Some(next) => RunByOne(next, tokens[1..], token);
    }
  }

  lemma {:induction false} RunConcatenates(stack: seq<Frame>, first: seq<Token>, second: seq<Token>)
    requires stack != []
    ensures Run(stack, first + second) ==
      match Run(stack, first)
      case None => None
      case Some(next) => Run(next, second)
    decreases |first|
  {
    if first == [] {
      assert first + second == second;
    } else {
      assert (first + second)[0] == first[0] && (first + second)[1..] == first[1..] + second;
      match Advance(stack, first[0])
      case None =>
      case Some(next) => RunConcatenates(next, first[1..], second);
    }
  }

  /** `parseXmlElement`, from the matches of the tag expression. */
  method ParseXmlElement(tokens: seq<Token>) returns (result: Result<Element, ParseError>)
    ensures result == Parsed(tokens)
    ensures forall element :: result == Ok(element) <==> Stands(tokens, element)
  {
    forall element ensures Parsed(tokens) == Ok(element) <==> Stands(tokens, element) {
      ParserAcceptsWellNested(tokens, element);
    }
    var stack := [BOTTOM];
    var at := 0;
    while at < |tokens|
      invariant 0 <= at <= |tokens| && stack != []
      invariant Run([BOTTOM], tokens[..at]) == Some(stack)
    {
      var token := tokens[at];
      assert tokens[..at + 1] == tokens[..at] + [token];
      assert tokens == tokens[..at + 1] + tokens[at + 1..];
      RunByOne([BOTTOM], tokens[..at], token);
      RunConcatenates([BOTTOM], tokens[..at + 1], tokens[at + 1..]);
      at := at + 1;
      if token.Skip? {
        continue;
      }
      if token.Close? {
        var current := stack[|stack| - 1];
        stack := stack[..|stack| - 1];
        if stack == [] {
          return Err(InvalidXml);
        }
        if current.prefix != token.prefix || current.name != token.name {
          return Err(InvalidXml);
        }
        var element := Closed(current, token.start, token.end);
        stack := stack[..|stack| - 1] + [WithChild(stack[|stack| - 1], element)];
        continue;
      }
      var top := stack[|stack| - 1];
      var frame := Opened(token, top);
      if token.selfClosing {
        stack := stack[..|stack| - 1] + [WithChild(top, Closed(frame, token.end, token.end))];
      } else {
        stack := stack + [frame];
      }
    }
    assert tokens[..at] == tokens;
    result := Finish(stack);
  }

  // Trees of tags.

  /** What a well-nested stream consists of: skipped matches, and elements with what stands between their tags. */
  datatype Item =
    | Skipped(token: Token)
    | Leaf(open: Token)
    | Nest(open: Token, items: seq<Item>, close: Token)

  predicate WellNested(item: Item)
    decreases item
  {
    match item
    case Skipped(token) => token.Skip?
    case Leaf(open) => open.Open? && open.selfClosing
    case Nest(open, items, close) =>
      && open.Open? && !open.selfClosing && close.Close?
      && close.prefix == open.prefix && close.name == open.name
      && forall i | 0 <= i < |items| :: WellNested(items[i])
  }

  predicate AllWellNested(items: seq<Item>) {
    forall i | 0 <= i < |items| :: WellNested(items[i])
  }

  /** The tags of an item as they stand in the source. */
  function TagsOf(item: Item): seq<Token>
    decreases item
  {
    match item
    case Skipped(token) => [token]
    case Leaf(open) => [open]
    case Nest(open, items, close) => [open] + AllTags(items) + [close]
  }

  function AllTags(items: seq<Item>): seq<Token>
    decreases items
  {
    if items == [] then [] else TagsOf(items[0]) + AllTags(items[1..])
  }

  // What the tags around an element say about its namespace.

  /** The bindings written on the opening tags around an element and, last, on its own tag: outermost first. */
  type Scope = seq<seq<(string, string)>>

  ghost predicate BindsAt(scope: Scope, prefix: string, tag: nat, at: nat) {
    tag < |scope| && at < |scope[tag]| && scope[tag][at].0 == prefix
  }

  /** No later binding on the same tag, and no tag further in, binds the prefix again. */
  ghost predicate IsInnermost(scope: Scope, prefix: string, tag: nat, at: nat) {
    && BindsAt(scope, prefix, tag, at)
    && (forall later: nat | at < later :: !BindsAt(scope, prefix, tag, later))
    && (forall inner: nat, k: nat | tag < inner :: !BindsAt(scope, prefix, inner, k))
  }

  /** Where nothing binds them, D and no prefix at all mean DAV, and any other prefix means no namespace. */
  ghost predicate IsNamespace(scope: Scope, prefix: string, namespace: string) {
    || (exists tag: nat, at: nat | IsInnermost(scope, prefix, tag, at) :: namespace == scope[tag][at].1)
    || ((forall tag: nat, at: nat :: !BindsAt(scope, prefix, tag, at))
        && namespace == if prefix == "D" || prefix == "" then "DAV:" else "")
  }

  /** The value of the last binding of the prefix on one tag. */
  function LastBinding(bindings: seq<(string, string)>, prefix: string): (r: Option<string>)
    decreases |bindings|
  {
    if bindings == [] then None
    else
      var (bound, value) := bindings[|bindings| - 1];
      if bound == prefix then Some(value) else LastBinding(bindings[..|bindings| - 1], prefix)
  }

  /** Looking a prefix up from the inside out. */
  function Lookup(scope: Scope, prefix: string): string
    decreases |scope|
  {
    if scope == [] then (if prefix == "D" || prefix == "" then DAV else "")
    else
      match LastBinding(scope[|scope| - 1], prefix)
      case Some(value) => value
      case None => Lookup(scope[..|scope| - 1], prefix)
  }

  lemma {:induction false} LastBindingIsLast(bindings: seq<(string, string)>, prefix: string) returns (at: nat)
    ensures LastBinding(bindings, prefix).None? <==> forall i | 0 <= i < |bindings| :: bindings[i].0 != prefix
    ensures LastBinding(bindings, prefix).Some? ==>
      at < |bindings| && bindings[at] == (prefix, LastBinding(bindings, prefix).value)
      && forall i | at < i < |bindings| :: bindings[i].0 != prefix
    decreases |bindings|
  {
    at := 0;
    if bindings != [] {
      var last := |bindings| - 1;
      assert bindings == bindings[..last] + [bindings[last]];
      if bindings[last].0 == prefix {
        at := last;
      } else {
        at := LastBindingIsLast(bindings[..last], prefix);
        assert forall i | 0 <= i < last :: bindings[i] == bindings[..last][i];
      }
    }
  }

  /** The lookup finds the innermost binding, and the namespace an element has is unique. */
  lemma {:induction false} LookupIsNamespace(scope: Scope, prefix: string, namespace: string)
    ensures IsNamespace(scope, prefix, namespace) <==> namespace == Lookup(scope, prefix)
    decreases |scope|
  {
    if scope != [] {
      var last := |scope| - 1;
      var outer := scope[..last];
      var at := LastBindingIsLast(scope[last], prefix);
      if LastBinding(scope[last], prefix).Some? {
        BoundOnItself(scope, prefix, last, at, namespace);
      } else {
        LookupIsNamespace(outer, prefix, namespace);
        BoundFurtherOut(scope, prefix, last, namespace);
      }
    }
  }

  lemma BoundOnItself(scope: Scope, prefix: string, last: nat, at: nat, namespace: string)
    requires |scope| == last + 1 && BindsAt(scope, prefix, last, at)
    requires forall later: nat | at < later :: !BindsAt(scope, prefix, last, later)
    ensures IsNamespace(scope, prefix, namespace) <==> namespace == scope[last][at].1
  {
    hide BindsAt;
    assert IsInnermost(scope, prefix, last, at) by {
      forall inner: nat, k: nat | last < inner ensures !BindsAt(scope, prefix, inner, k) {
        BindingIsWithin(scope, prefix, inner, k);
      }
    }
    forall tag: nat, k: nat | IsInnermost(scope, prefix, tag, k) ensures tag == last && k == at {
      BindingIsWithin(scope, prefix, tag, k);
    }
  }

  lemma BindingIsWithin(scope: Scope, prefix: string, tag: nat, at: nat)
    ensures BindsAt(scope, prefix, tag, at) ==> tag < |scope|
  {
  }

  lemma BoundFurtherOut(scope: Scope, prefix: string, last: nat, namespace: string)
    requires |scope| == last + 1 && forall at: nat :: !BindsAt(scope, prefix, last, at)
    ensures IsNamespace(scope, prefix, namespace) <==> IsNamespace(scope[..last], prefix, namespace)
  {
    var outer := scope[..last];
    forall tag: nat, at: nat ensures BindsAt(scope, prefix, tag, at) <==> BindsAt(outer, prefix, tag, at) {
      assert tag < |outer| ==> scope[tag] == outer[tag];
    }
    hide BindsAt;
    forall tag: nat, at: nat ensures IsInnermost(scope, prefix, tag, at) <==> IsInnermost(outer, prefix, tag, at) {
    }
    forall tag: nat, at: nat | IsInnermost(outer, prefix, tag, at)
      ensures tag < |outer| && at < |outer[tag]| && scope[tag] == outer[tag]
    {
      BindingIsWithin(outer, prefix, tag, at);
    }
  }

  /** The bindings in scope as one map, the way the parser carries them. */
  function InScope(scope: Scope): Namespaces
    decreases |scope|
  {
    if scope == [] then BASE else Bind(InScope(scope[..|scope| - 1]), scope[|scope| - 1])
  }

  lemma {:induction false} BindKeepsTheLast(namespaces: Namespaces, bindings: seq<(string, string)>, prefix: string)
    ensures var bound, last := Bind(namespaces, bindings), LastBinding(bindings, prefix);
      && (prefix in bound <==> last.Some? || prefix in namespaces)
      && (prefix in bound ==> bound[prefix] == if last.Some? then last.value else namespaces[prefix])
    decreases |bindings|
  {
    if bindings != [] {
      var next := namespaces[bindings[0].0 := bindings[0].1];
      BindKeepsTheLast(next, bindings[1..], prefix);
      LastBindingOfRest(bindings, prefix);
    }
  }

  lemma {:induction false} LastBindingOfRest(bindings: seq<(string, string)>, prefix: string)
    requires bindings != []
    ensures LastBinding(bindings, prefix) ==
      if LastBinding(bindings[1..], prefix).Some? then LastBinding(bindings[1..], prefix)
      else if bindings[0].0 == prefix then Some(bindings[0].1) else None
    decreases |bindings|
  {
    var last := |bindings| - 1;
    if last > 0 {
      assert bindings[1..][|bindings[1..]| - 1] == bindings[last];
      if bindings[last].0 != prefix {
        assert bindings[..last][1..] == bindings[1..][..last - 1];
        LastBindingOfRest(bindings[..last], prefix);
      }
    }
  }

  lemma {:induction false} ScopeIsLookedUp(scope: Scope, prefix: string)
    ensures prefix in InScope(scope) ==> InScope(scope)[prefix] == Lookup(scope, prefix)
    ensures prefix !in InScope(scope) ==> Lookup(scope, prefix) == (if prefix == "" then DAV else "") && prefix != "D"
    decreases |scope|
  {
    if scope != [] {
      ScopeIsLookedUp(scope[..|scope| - 1], prefix);
      BindKeepsTheLast(InScope(scope[..|scope| - 1]), scope[|scope| - 1], prefix);
    }
  }

  /** The map of bindings in scope gives what the lookup gives. */
  lemma NamespaceIsLookedUp(scope: Scope, prefix: string)
    ensures NamespaceOf(InScope(scope), prefix) == Lookup(scope, prefix)
  {
    ScopeIsLookedUp(scope, prefix);
  }

  /** The element an item stands for among the tags around it; skips stand for nothing. */
  function Meaning(item: Item, around: Scope): seq<Element>
    requires WellNested(item)
    decreases item
  {
    match item
    case Skipped(_) => []
    case Leaf(open) =>
      var namespace := Lookup(around + [open.bindings], open.prefix);
      [Element(namespace, open.name, open.prefix, open.start, open.end, open.end, open.end, [])]
    case Nest(open, items, close) =>
      var namespace := Lookup(around + [open.bindings], open.prefix);
      [Element(namespace, open.name, open.prefix, open.start, open.end, close.start, close.end,
               AllMeaning(items, around + [open.bindings]))]
  }

  function AllMeaning(items: seq<Item>, around: Scope): seq<Element>
    requires AllWellNested(items)
    decreases items
  {
    if items == [] then [] else Meaning(items[0], around) + AllMeaning(items[1..], around)
  }

  /** The stream is that of well-nested items, and the element is their only one. */
  ghost predicate Stands(tokens: seq<Token>, element: Element) {
    exists items :: AllWellNested(items) && AllTags(items) == tokens && AllMeaning(items, []) == [element]
  }

  lemma {:induction false} ResolvedIsMeaning(item: Item, around: Scope)
    requires WellNested(item)
    ensures Resolved(item, InScope(around)) == Meaning(item, around)
    decreases item
  {
    if !item.Skipped? {
      var scope := around + [item.open.bindings];
      assert scope[..|scope| - 1] == around;
      NamespaceIsLookedUp(scope, item.open.prefix);
      if item.Nest? {
        AllResolvedIsMeaning(item.items, scope);
      }
    }
  }

  lemma {:induction false} AllResolvedIsMeaning(items: seq<Item>, around: Scope)
    requires AllWellNested(items)
    ensures AllResolved(items, InScope(around)) == AllMeaning(items, around)
    decreases items
  {
    if items != [] {
      ResolvedIsMeaning(items[0], around);
      AllResolvedIsMeaning(items[1..], around);
    }
  }

  /** The element an item stands for when these bindings are in scope. */
  function Resolved(item: Item, namespaces: Namespaces): seq<Element>
    requires WellNested(item)
    decreases item
  {
    match item
    case Skipped(_) => []
    case Leaf(open) =>
      var inner := Bind(namespaces, open.bindings);
      [Element(NamespaceOf(inner, open.prefix), open.name, open.prefix, open.start, open.end, open.end, open.end, [])]
    case Nest(open, items, close) =>
      var inner := Bind(namespaces, open.bindings);
      [Element(NamespaceOf(inner, open.prefix), open.name, open.prefix, open.start, open.end, close.start, close.end,
               AllResolved(items, inner))]
  }

  function AllResolved(items: seq<Item>, namespaces: Namespaces): seq<Element>
    requires AllWellNested(items)
    decreases items
  {
    if items == [] then [] else Resolved(items[0], namespaces) + AllResolved(items[1..], namespaces)
  }

  // Well-nested streams are parsed to their elements.

  function WithChildren(stack: seq<Frame>, more: seq<Element>): (r: seq<Frame>)
    requires stack != []
    ensures r != [] && |r| == |stack|
  {
    var top := stack[|stack| - 1];
    stack[..|stack| - 1] + [top.(children := top.children + more)]
  }

  lemma NoMoreChildren(stack: seq<Frame>)
    requires stack != []
    ensures WithChildren(stack, []) == stack
  {
    var top := stack[|stack| - 1];
    assert top.children + [] == top.children;
  }

  lemma MoreChildren(stack: seq<Frame>, a: seq<Element>, b: seq<Element>)
    requires stack != []
    ensures WithChildren(WithChildren(stack, a), b) == WithChildren(stack, a + b)
  {
    var top := stack[|stack| - 1];
    assert top.children + a + b == top.children + (a + b);
  }

  lemma {:induction false} RunOfItem(stack: seq<Frame>, item: Item, rest: seq<Token>)
    requires stack != [] && WellNested(item)
    ensures Run(stack, TagsOf(item) + rest) == Run(WithChildren(stack, Resolved(item, stack[|stack| - 1].namespaces)), rest)
    decreases item
  {
    var tags, top := TagsOf(item) + rest, stack[|stack| - 1];
    match item {
      case Skipped(token) =>
        assert tags[0] == token && tags[1..] == rest;
        NoMoreChildren(stack);
      case Leaf(open) =>
        assert tags[0] == open && tags[1..] == rest;
      case Nest(open, items, close) =>
        var inner := AllTags(items) + ([close] + rest);
        assert tags[0] == open && tags[1..] == inner;
        var frame := Opened(open, top);
        var deeper := stack + [frame];
        assert Advance(stack, open) == Some(deeper);
        RunOfItems(deeper, items, [close] + rest);
        var elements := AllResolved(items, frame.namespaces);
        var full := WithChildren(deeper, elements);
        assert deeper[..|deeper| - 1] == stack;
        assert full[..|full| - 1] == stack && full[|full| - 1] == frame.(children := elements);
        assert ([close] + rest)[1..] == rest;
        assert Advance(full, close).value == WithChildren(stack, Resolved(item, top.namespaces));
    }
  }

  lemma {:induction false} RunOfItems(stack: seq<Frame>, items: seq<Item>, rest: seq<Token>)
    requires stack != [] && AllWellNested(items)
    ensures Run(stack, AllTags(items) + rest) == Run(WithChildren(stack, AllResolved(items, stack[|stack| - 1].namespaces)), rest)
    decreases items
  {
    var namespaces := stack[|stack| - 1].namespaces;
    if items == [] {
      assert AllTags(items) + rest == rest;
      NoMoreChildren(stack);
    } else {
      var more := AllTags(items[1..]) + rest;
      assert AllTags(items) + rest == TagsOf(items[0]) + more;
      RunOfItem(stack, items[0], more);
      var first := Resolved(items[0], namespaces);
      var next := WithChildren(stack, first);
      RunOfItems(next, items[1..], rest);
      MoreChildren(stack, first, AllResolved(items[1..], namespaces));
    }
  }

  // Whatever is parsed was well nested.

  /** A recursive-descent reading: the items up to a closing tag that belongs further out, or to the end. */
  datatype Reading = Read(items: seq<Item>, rest: seq<Token>) | Unreadable

  function Items(tokens: seq<Token>): (r: Reading)
    ensures r.Read? ==> |r.rest| <= |tokens|
    decreases |tokens|
  {
    if tokens == [] || tokens[0].Close? then Read([], tokens)
    else if tokens[0].Skip? then Continued(Skipped(tokens[0]), Items(tokens[1..]))
    else if tokens[0].selfClosing then Continued(Leaf(tokens[0]), Items(tokens[1..]))
    else
      match Items(tokens[1..])
      case Unreadable => Unreadable
      case Read(inner, rest) =>
        if rest == [] || !rest[0].Close? || rest[0].prefix != tokens[0].prefix || rest[0].name != tokens[0].name then Unreadable
        else Continued(Nest(tokens[0], inner, rest[0]), Items(rest[1..]))
  }

  function Continued(item: Item, rest: Reading): Reading {
    match rest
    case Unreadable => Unreadable
    case Read(items, tokens) => Read([item] + items, tokens)
  }

  ghost predicate Reads(reading: Reading, tokens: seq<Token>) {
    reading.Read? ==>
      AllWellNested(reading.items) && tokens == AllTags(reading.items) + reading.rest
      && (reading.rest == [] || reading.rest[0].Close?)
  }

  lemma ContinuedReads(item: Item, reading: Reading, tokens: seq<Token>)
    requires WellNested(item) && Reads(reading, tokens)
    ensures Reads(Continued(item, reading), TagsOf(item) + tokens)
  {
    if reading.Read? {
      assert ([item] + reading.items)[1..] == reading.items;
      assert TagsOf(item) + (AllTags(reading.items) + reading.rest) == TagsOf(item) + AllTags(reading.items) + reading.rest;
    }
  }

  lemma NestReads(open: Token, inner: Reading, later: Reading, tokens: seq<Token>)
    requires open.Open? && !open.selfClosing && inner.Read? && inner.rest != [] && inner.rest[0].Close?
    requires inner.rest[0].prefix == open.prefix && inner.rest[0].name == open.name
    requires Reads(inner, tokens) && Reads(later, inner.rest[1..])
    ensures Reads(Continued(Nest(open, inner.items, inner.rest[0]), later), [open] + tokens)
  {
    hide WellNested, AllTags;
    var item := Nest(open, inner.items, inner.rest[0]);
    NestedItem(open, inner.items, inner.rest[0]);
    ContinuedReads(item, later, inner.rest[1..]);
    assert inner.rest == [inner.rest[0]] + inner.rest[1..];
    assert [open] + tokens == TagsOf(item) + inner.rest[1..];
  }

  lemma {:induction false} ItemsAreRead(tokens: seq<Token>)
    ensures Reads(Items(tokens), tokens)
    decreases |tokens|
  {
    hide WellNested, AllWellNested, TagsOf, AllTags, Continued;
    if tokens != [] && !tokens[0].Close? {
      var token := tokens[0];
      assert tokens == [token] + tokens[1..];
      ItemsAreRead(tokens[1..]);
      if token.Skip? {
        SimpleItem(token);
        ContinuedReads(Skipped(token), Items(tokens[1..]), tokens[1..]);
      } else if token.selfClosing {
        SimpleItem(token);
        ContinuedReads(Leaf(token), Items(tokens[1..]), tokens[1..]);
      } else if Items(tokens).Read? {
        var inner := Items(tokens[1..]);
        ItemsAreRead(inner.rest[1..]);
        NestReads(token, inner, Items(inner.rest[1..]), tokens[1..]);
      }
    } else {
      NothingRead(tokens);
    }
  }

  lemma NothingRead(tokens: seq<Token>)
    requires tokens == [] || tokens[0].Close?
    ensures Reads(Read([], tokens), tokens)
  {
    assert AllTags([]) + tokens == tokens;
  }

  lemma SimpleItem(token: Token)
    ensures token.Skip? ==> WellNested(Skipped(token)) && TagsOf(Skipped(token)) == [token]
    ensures token.Open? && token.selfClosing ==> WellNested(Leaf(token)) && TagsOf(Leaf(token)) == [token]
  {
  }

  lemma NestedItem(open: Token, items: seq<Item>, close: Token)
    requires open.Open? && !open.selfClosing && close.Close? && close.prefix == open.prefix && close.name == open.name
    requires AllWellNested(items)
    ensures WellNested(Nest(open, items, close))
    ensures TagsOf(Nest(open, items, close)) == [open] + AllTags(items) + [close]
  {
  }

  lemma ItemsAreWellNested(tokens: seq<Token>)
    requires Items(tokens).Read?
    ensures AllWellNested(Items(tokens).items) && tokens == AllTags(Items(tokens).items) + Items(tokens).rest
    ensures Items(tokens).rest == [] || Items(tokens).rest[0].Close?
  {
    ItemsAreRead(tokens);
  }

  /** On a stream that cannot be read the machine stops, or is left with an element still open. */
  lemma {:induction false} UnreadableFails(stack: seq<Frame>, tokens: seq<Token>)
    requires stack != [] && Items(tokens).Unreadable?
    ensures Run(stack, tokens).Some? ==> |Run(stack, tokens).value| > |stack|
    decreases |tokens|
  {
    var token := tokens[0];
    if token.Open? && !token.selfClosing {
      var deeper := Advance(stack, token).value;
      match Items(tokens[1..]) {
        case Unreadable => UnreadableFails(deeper, tokens[1..]);
        case Read(inner, rest) =>
          ItemsAreWellNested(tokens[1..]);
          RunOfItems(deeper, inner, rest);
          var full := WithChildren(deeper, AllResolved(inner, deeper[|deeper| - 1].namespaces));
          if rest != [] && rest[0].prefix == token.prefix && rest[0].name == token.name {
            UnreadableFails(Advance(full, rest[0]).value, rest[1..]);
          }
      }
    } else {
      UnreadableFails(Advance(stack, token).value, tokens[1..]);
    }
  }

  const BASE: Namespaces := map["D" := DAV]

  lemma ParsedOfItems(items: seq<Item>)
    requires AllWellNested(items)
    ensures var elements := AllMeaning(items, []);
      Parsed(AllTags(items)) == if |elements| == 1 then Ok(elements[0]) else Err(InvalidXml)
  {
    AllResolvedIsMeaning(items, []);
    var stack := [BOTTOM];
    assert AllTags(items) + [] == AllTags(items);
    RunOfItems(stack, items, []);
    assert BOTTOM.children + AllResolved(items, BASE) == AllResolved(items, BASE);
  }

  /**
   * The machine accepts exactly the well-nested streams with one root, and turns each into that root, where every
   * element has the namespace its prefix is bound to by the tags around it.
   */
  lemma ParserAcceptsWellNested(tokens: seq<Token>, element: Element)
    ensures Parsed(tokens) == Ok(element) <==> Stands(tokens, element)
  {
    if items :| AllWellNested(items) && AllTags(items) == tokens && AllMeaning(items, []) == [element] {
      ParsedOfItems(items);
    }
    if Parsed(tokens) == Ok(element) {
      match Items(tokens) {
        case Unreadable => UnreadableFails([BOTTOM], tokens);
        case Read(items, rest) =>
          ItemsAreWellNested(tokens);
          RunOfItems([BOTTOM], items, rest);
          if rest == [] {
            assert AllTags(items) == tokens;
            ParsedOfItems(items);
          }
      }
    }
  }

  // Spans.

  /** The tags follow one another between two positions. */
  predicate InOrder(from: nat, tokens: seq<Token>, to: nat)
    decreases |tokens|
  {
    if tokens == [] then from <= to
    else from <= tokens[0].start <= tokens[0].end && InOrder(tokens[0].end, tokens[1..], to)
  }

  lemma {:induction false} InOrderSplits(from: nat, first: seq<Token>, second: seq<Token>, to: nat) returns (mid: nat)
    requires InOrder(from, first + second, to)
    ensures InOrder(from, first, mid) && InOrder(mid, second, to)
    decreases |first|
  {
    if first == [] {
      assert first + second == second;
      mid := from;
    } else {
      assert (first + second)[0] == first[0] && (first + second)[1..] == first[1..] + second;
      mid := InOrderSplits(first[0].end, first[1..], second, to);
    }
  }

  lemma {:induction false} InOrderBounds(from: nat, tokens: seq<Token>, to: nat)
    requires InOrder(from, tokens, to)
    ensures from <= to
    decreases |tokens|
  {
    if tokens != [] {
      InOrderBounds(tokens[0].end, tokens[1..], to);
    }
  }

  /** The body lies inside the element, and the children lie one after another inside the body. */
  ghost predicate SpansNest(element: Element)
    decreases element
  {
    && element.start <= element.bodyStart <= element.bodyEnd <= element.end
    && SpansFollow(element.bodyStart, element.children, element.bodyEnd)
    && forall i | 0 <= i < |element.children| :: SpansNest(element.children[i])
  }

  ghost predicate SpansFollow(from: nat, elements: seq<Element>, to: nat)
    decreases |elements|
  {
    if elements == [] then from <= to
    else from <= elements[0].start <= elements[0].end && SpansFollow(elements[0].end, elements[1..], to)
  }

  lemma {:induction false} SpansWiden(lower: nat, from: nat, elements: seq<Element>, to: nat)
    requires lower <= from && SpansFollow(from, elements, to)
    ensures SpansFollow(lower, elements, to)
  {
  }

  lemma {:induction false} ItemSpans(from: nat, item: Item, namespaces: Namespaces, to: nat)
    requires WellNested(item) && InOrder(from, TagsOf(item), to)
    ensures SpansFollow(from, Resolved(item, namespaces), to)
    ensures forall e | e in Resolved(item, namespaces) :: SpansNest(e)
    decreases item
  {
    match item {
      case Skipped(_) => InOrderBounds(from, TagsOf(item), to);
      case Leaf(open) =>
        assert TagsOf(item)[1..] == [];
        var e := Resolved(item, namespaces)[0];
        assert Resolved(item, namespaces) == [e] && [e][1..] == [];
      case Nest(open, items, close) =>
        var tags := [open] + AllTags(items) + [close];
        assert tags[1..] == AllTags(items) + [close];
        var mid := InOrderSplits(open.end, AllTags(items), [close], to);
        assert [close][1..] == [];
        InOrderWiden(open.end, AllTags(items), mid, close.start);
        var inner := Bind(namespaces, open.bindings);
        InOrderBounds(open.end, AllTags(items), close.start);
        AllItemSpans(open.end, items, inner, close.start);
        var e := Resolved(item, namespaces)[0];
        assert Resolved(item, namespaces) == [e] && [e][1..] == [];
        assert forall i | 0 <= i < |e.children| :: e.children[i] in AllResolved(items, inner);
    }
  }

  lemma {:induction false} InOrderWiden(from: nat, tokens: seq<Token>, to: nat, upper: nat)
    requires InOrder(from, tokens, to) && to <= upper
    ensures InOrder(from, tokens, upper)
    decreases |tokens|
  {
    if tokens != [] {
      InOrderWiden(tokens[0].end, tokens[1..], to, upper);
    }
  }

  lemma {:induction false} SpansConcatenate(from: nat, a: seq<Element>, mid: nat, b: seq<Element>, to: nat)
    requires SpansFollow(from, a, mid) && SpansFollow(mid, b, to)
    ensures SpansFollow(from, a + b, to)
    decreases |a|
  {
    if a == [] {
      assert a + b == b;
      SpansWiden(from, mid, b, to);
    } else {
      assert (a + b)[0] == a[0] && (a + b)[1..] == a[1..] + b;
      SpansConcatenate(a[0].end, a[1..], mid, b, to);
    }
  }

  lemma {:induction false} AllItemSpans(from: nat, items: seq<Item>, namespaces: Namespaces, to: nat)
    requires AllWellNested(items) && InOrder(from, AllTags(items), to)
    ensures SpansFollow(from, AllResolved(items, namespaces), to)
    ensures forall e | e in AllResolved(items, namespaces) :: SpansNest(e)
    decreases items
  {
    if items != [] {
      var mid := InOrderSplits(from, TagsOf(items[0]), AllTags(items[1..]), to);
      ItemSpans(from, items[0], namespaces, mid);
      AllItemSpans(mid, items[1..], namespaces, to);
      SpansConcatenate(from, Resolved(items[0], namespaces), mid, AllResolved(items[1..], namespaces), to);
    }
  }

  /** In every parsed element the spans nest, all the way down, inside the source. */
  lemma ParsedSpansNest(tokens: seq<Token>, length: nat, element: Element)
    requires InOrder(0, tokens, length) && Parsed(tokens) == Ok(element)
    ensures SpansNest(element) && element.end <= length
  {
    ParserAcceptsWellNested(tokens, element);
    var items :| AllWellNested(items) && AllTags(items) == tokens && AllMeaning(items, []) == [element];
    AllResolvedIsMeaning(items, []);
    AllItemSpans(0, items, BASE, length);
    assert element in AllResolved(items, BASE);
    assert [element][1..] == [];
  }
}
