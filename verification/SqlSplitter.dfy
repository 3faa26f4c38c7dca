/** Splitting SQL text into statements: a quote-aware scan against a specification by quote parity. */
module SqlSplitter {
  import opened Wrappers
  import opened Text

  const QUOTE: char := '\''

  // The specification.

  function Quotes(text: string): nat {
    if text == [] then 0 else (if text[0] == QUOTE then 1 else 0) + Quotes(text[1..])
  }

  predicate Balanced(text: string) {
    Quotes(text) % 2 == 0
  }

  /** Whether a position is inside a literal: an odd number of quotes precedes it. */
  predicate QuotedAt(text: string, at: nat)
    requires at <= |text|
  {
    Quotes(text[..at]) % 2 == 1
  }

  /** The pieces between unquoted semicolons, one character at a time; every quote toggles. */
  function Cut(text: string, quoted: bool): (pieces: seq<string>)
    ensures pieces != []
  {
    if text == [] then [[]]
    else
      var rest := Cut(text[1..], quoted != (text[0] == QUOTE));
      if text[0] == ';' && !quoted then [[]] + rest else [[text[0]] + rest[0]] + rest[1..]
  }

  /** Trimmed pieces, without the empty ones. */
  function Kept(pieces: seq<string>): seq<string> {
    if pieces == [] then []
    else
      var statement := Trim(pieces[0]);
      (if statement == "" then [] else [statement]) + Kept(pieces[1..])
  }

  function Statements(sql: string): seq<string> {
    Kept(Cut(sql, false))
  }

  // The scan.

  datatype SplitError = UnterminatedString

  /** The text up to a position, and what the rest is cut into, make up the current piece and the later ones. */
  function Rejoined(before: string, rest: seq<string>): seq<string>
    requires rest != []
  {
    [before + rest[0]] + rest[1..]
  }

  lemma {:induction false} QuotesConcatenate(a: string, b: string)
    ensures Quotes(a + b) == Quotes(a) + Quotes(b)
  {
    if a == [] {
      assert a + b == b;
    } else {
      assert (a + b)[0] == a[0] && (a + b)[1..] == a[1..] + b;
      QuotesConcatenate(a[1..], b);
    }
  }

  lemma QuotesByOne(text: string, at: nat)
    requires at < |text|
    ensures Quotes(text[..at + 1]) == Quotes(text[..at]) + (if text[at] == QUOTE then 1 else 0)
  {
    assert text[..at + 1] == text[..at] + [text[at]];
    QuotesConcatenate(text[..at], [text[at]]);
    assert [text[at]][1..] == [];
  }

  lemma KeptByOne(before: string, rest: seq<string>)
    ensures Kept([before] + rest) == Kept([before]) + Kept(rest)
  {
    assert ([before] + rest)[1..] == rest && [before][1..] == [];
  }

  /** One character that is no cut moves into the current piece. */
  lemma CutByOne(sql: string, start: nat, index: nat, quoted: bool)
    requires start <= index < |sql| && !(sql[index] == ';' && !quoted)
    ensures Rejoined(sql[start..index], Cut(sql[index..], quoted)) ==
      Rejoined(sql[start..index + 1], Cut(sql[index + 1..], quoted != (sql[index] == QUOTE)))
  {
    assert sql[index..][0] == sql[index] && sql[index..][1..] == sql[index + 1..];
    var rest := Cut(sql[index + 1..], quoted != (sql[index] == QUOTE));
    assert sql[start..index + 1] == sql[start..index] + [sql[index]];
    assert sql[start..index] + ([sql[index]] + rest[0]) == sql[start..index + 1] + rest[0];
  }

  lemma CutAtSemicolon(sql: string, start: nat, index: nat)
    requires start <= index < |sql| && sql[index] == ';'
    ensures Rejoined(sql[start..index], Cut(sql[index..], false)) == [sql[start..index]] + Cut(sql[index + 1..], false)
  {
    assert sql[index..][0] == sql[index] && sql[index..][1..] == sql[index + 1..];
    assert sql[start..index] + [] == sql[start..index];
  }

  /**
   * `splitSqlStatements`. The scan skips a doubled quote inside a literal, but wherever it looks its flag is the parity
   * of the quotes so far; so it returns the specified statements, and fails exactly on an odd number of quotes.
   */
  method SplitSqlStatements(sql: string) returns (result: Result<seq<string>, SplitError>)
    ensures result.Ok? <==> Balanced(sql)
    ensures result.Ok? ==> result.value == Statements(sql)
  {
    hide Cut, Kept, Quotes, Trim;
    var statements: seq<string> := [];
    var start, index, quoted := 0, 0, false;
    ScanBegins(sql);
    while index < |sql|
      invariant 0 <= start <= index <= |sql|
      invariant quoted == QuotedAt(sql, index)
      invariant statements + Kept(Rejoined(sql[start..index], Cut(sql[index..], quoted))) == Statements(sql)
    {
      QuotesByOne(sql, index);
      if sql[index] == QUOTE {
        CutByOne(sql, start, index, quoted);
        if quoted && index + 1 < |sql| && sql[index + 1] == QUOTE {
          CutByOne(sql, start, index + 1, false);
          QuotesByOne(sql, index + 1);
          index := index + 2;
          continue;
        }
        quoted := !quoted;
        index := index + 1;
        continue;
      }
      if sql[index] != ';' || quoted {
        CutByOne(sql, start, index, quoted);
        index := index + 1;
        continue;
      }
      var statement := Trim(sql[start..index]);
      CutAtSemicolon(sql, start, index);
      KeptByOne(sql[start..index], Cut(sql[index + 1..], false));
      KeptOfOne(sql[start..index]);
      if statement != "" {
        statements := statements + [statement];
      }
      start := index + 1;
      index := index + 1;
      PieceBegins(sql, start);
    }
    ScanEnds(sql, start, quoted);
    KeptOfOne(sql[start..]);
    var trailing := Trim(sql[start..]);
    if trailing != "" {
      statements := statements + [trailing];
    }
    if quoted {
      return Err(UnterminatedString);
    }
    result := Ok(statements);
  }

  lemma ScanBegins(sql: string)
    ensures !QuotedAt(sql, 0) && [] + Kept(Rejoined(sql[0..0], Cut(sql[0..], false))) == Statements(sql)
  {
    assert sql[0..] == sql && sql[0..0] == [];
    var pieces := Cut(sql, false);
    assert [] + pieces[0] == pieces[0] && [pieces[0]] + pieces[1..] == pieces;
  }

  lemma PieceBegins(sql: string, start: nat)
    requires start <= |sql|
    ensures Rejoined(sql[start..start], Cut(sql[start..], false)) == Cut(sql[start..], false)
  {
    var pieces := Cut(sql[start..], false);
    assert sql[start..start] == [];
    assert [] + pieces[0] == pieces[0] && [pieces[0]] + pieces[1..] == pieces;
  }

  lemma KeptOfOne(piece: string)
    ensures Kept([piece]) == if Trim(piece) == "" then [] else [Trim(piece)]
  {
    assert [piece][1..] == [];
  }

  lemma ScanEnds(sql: string, start: nat, quoted: bool)
    requires start <= |sql|
    ensures Rejoined(sql[start..|sql|], Cut(sql[|sql|..], quoted)) == [sql[start..]]
    ensures QuotedAt(sql, |sql|) <==> !Balanced(sql)
  {
    assert sql[|sql|..] == [] && sql[..|sql|] == sql && sql[start..] + [] == sql[start..];
  }

  // What the pieces are.

  lemma {:induction false} JoinOfCut(text: string, quoted: bool)
    ensures Join(Cut(text, quoted), ';') == text
  {
    if text != [] {
      var rest := Cut(text[1..], quoted != (text[0] == QUOTE));
      JoinOfCut(text[1..], quoted != (text[0] == QUOTE));
      if text[0] == ';' && !quoted {
        assert ([[]] + rest)[1..] == rest;
      } else if |rest| > 1 {
        assert ([[text[0]] + rest[0]] + rest[1..])[1..] == rest[1..];
      }
    }
  }

  /** No piece holds a semicolon outside its literals, starting from the given state. */
  ghost predicate PieceIsWhole(piece: string, quoted: bool) {
    forall i | 0 <= i < |piece| && piece[i] == ';' :: (Quotes(piece[..i]) % 2 == 1) != quoted
  }

  lemma PieceGrows(c: char, piece: string, quoted: bool)
    requires PieceIsWhole(piece, quoted != (c == QUOTE)) && !(c == ';' && !quoted)
    ensures PieceIsWhole([c] + piece, quoted)
    ensures Quotes([c] + piece) == (if c == QUOTE then 1 else 0) + Quotes(piece)
  {
    var longer := [c] + piece;
    assert longer[1..] == piece;
    forall i | 0 <= i < |longer| && longer[i] == ';' ensures (Quotes(longer[..i]) % 2 == 1) != quoted {
      if i > 0 {
        assert longer[..i] == [c] + piece[..i - 1];
        assert (longer[..i])[1..] == piece[..i - 1];
        assert piece[i - 1] == ';';
      } else {
        assert longer[..0] == [];
      }
    }
  }

  /**
   * Every piece is whole, and a cut comes only outside a literal: the first piece starts in the given state, the others
   * outside, and together they hold an odd number of quotes or not.
   */
  ghost predicate PiecesFit(pieces: seq<string>, quoted: bool, odd: bool)
    requires pieces != []
    decreases |pieces|
  {
    && PieceIsWhole(pieces[0], quoted)
    && if |pieces| == 1 then (Quotes(pieces[0]) % 2 == 1) == odd
       else (Quotes(pieces[0]) % 2 == 1) == quoted && PiecesFit(pieces[1..], false, odd != quoted)
  }

  lemma FitAfterCut(rest: seq<string>, odd: bool)
    requires rest != [] && PiecesFit(rest, false, odd)
    ensures PiecesFit([[]] + rest, false, odd)
  {
    assert ([[]] + rest)[1..] == rest;
  }

  lemma FitGrows(c: char, rest: seq<string>, quoted: bool, odd: bool)
    requires rest != [] && PiecesFit(rest, quoted != (c == QUOTE), odd != (c == QUOTE)) && !(c == ';' && !quoted)
    ensures PiecesFit([[c] + rest[0]] + rest[1..], quoted, odd)
  {
    hide PieceIsWhole;
    PieceGrows(c, rest[0], quoted);
    var grown := [[c] + rest[0]] + rest[1..];
    assert grown[1..] == rest[1..];
    assert (odd != (c == QUOTE)) != (quoted != (c == QUOTE)) <==> odd != quoted;
  }

  lemma {:induction false} PiecesOfCutFit(text: string, quoted: bool)
    ensures PiecesFit(Cut(text, quoted), quoted, Quotes(text) % 2 == 1)
  {
    hide PiecesFit;
    if text == [] {
      NothingFits(quoted);
    } else {
      var next := quoted != (text[0] == QUOTE);
      var rest := Cut(text[1..], next);
      PiecesOfCutFit(text[1..], next);
      if text[0] == ';' && !quoted {
        FitAfterCut(rest, Quotes(text[1..]) % 2 == 1);
      } else {
        FitGrows(text[0], rest, quoted, Quotes(text) % 2 == 1);
      }
    }
  }

  lemma NothingFits(quoted: bool)
    ensures PiecesFit([[]], quoted, false)
  {
  }

  // Statements.

  /** A statement as a script holds it: trimmed, not empty, its literals closed, its semicolons inside them. */
  ghost predicate IsStatement(text: string) {
    text != "" && Trim(text) == text && Balanced(text) && PieceIsWhole(text, false)
  }

  lemma {:induction false} SpaceHoldsNoQuotes(space: string)
    requires AllSpace(space)
    ensures Quotes(space) == 0
  {
    if space != [] {
      assert IsSpace(space[0]);
      SpaceHoldsNoQuotes(space[1..]);
    }
  }

  lemma {:induction false} TrimIsIdempotent(text: string)
    ensures Trim(Trim(text)) == Trim(text)
  {
    TrimStartSettles(text);
    TrimEndSettles(TrimStart(text));
    TrimEndKeepsStart(TrimStart(text));
  }

  lemma {:induction false} TrimStartSettles(text: string)
    ensures TrimStart(text) == "" || !IsSpace(TrimStart(text)[0])
    decreases |text|
  {
    if text != [] && IsSpace(text[0]) {
      TrimStartSettles(text[1..]);
    }
  }

  lemma {:induction false} TrimEndSettles(text: string)
    ensures TrimEnd(text) == "" || !IsSpace(TrimEnd(text)[|TrimEnd(text)| - 1])
    decreases |text|
  {
    if text != [] && IsSpace(text[|text| - 1]) {
      TrimEndSettles(text[..|text| - 1]);
    }
  }

  lemma {:induction false} TrimEndKeepsStart(text: string)
    ensures TrimEnd(text) <= text
    decreases |text|
  {
    if text != [] && IsSpace(text[|text| - 1]) {
      TrimEndKeepsStart(text[..|text| - 1]);
    }
  }

  /** A trimmed part of a whole piece is whole. */
  lemma TrimmedPieceIsWhole(piece: string)
    requires PieceIsWhole(piece, false)
    ensures PieceIsWhole(Trim(piece), false) && Quotes(Trim(piece)) == Quotes(piece)
  {
    hide Trim, Quotes;
    var before, after := TrimKeepsTheMiddle(piece);
    var middle := Trim(piece);
    SpaceHoldsNoQuotes(before);
    SpaceHoldsNoQuotes(after);
    QuotesConcatenate(before + middle, after);
    QuotesConcatenate(before, middle);
    forall i | 0 <= i < |middle| && middle[i] == ';' ensures Quotes(middle[..i]) % 2 == 1 {
      var at := |before| + i;
      assert piece[at] == ';' && piece[..at] == before + middle[..i];
      QuotesConcatenate(before, middle[..i]);
    }
  }

  lemma {:induction false} KeptPiecesAreStatements(pieces: seq<string>)
    requires pieces != [] && PiecesFit(pieces, false, false)
    ensures forall statement | statement in Kept(pieces) :: IsStatement(statement)
    decreases |pieces|
  {
    hide PieceIsWhole, Trim, Quotes;
    TrimmedPieceIsWhole(pieces[0]);
    TrimIsIdempotent(pieces[0]);
    if |pieces| > 1 {
      KeptPiecesAreStatements(pieces[1..]);
    } else {
      assert pieces[1..] == [];
    }
  }

  /** What the scan returns are statements: trimmed, not empty, balanced, and without a semicolon outside a literal. */
  lemma OutputsAreStatements(sql: string)
    requires Balanced(sql)
    ensures forall statement | statement in Statements(sql) :: IsStatement(statement)
  {
    PiecesOfCutFit(sql, false);
    KeptPiecesAreStatements(Cut(sql, false));
  }

  // Splitting undoes joining.

  lemma {:induction false} WholeTextIsNotCut(text: string, rest: string, quoted: bool)
    requires PieceIsWhole(text, quoted)
    ensures Cut(text + rest, quoted) == Rejoined(text, Cut(rest, quoted != (Quotes(text) % 2 == 1)))
  {
    hide PieceIsWhole, Cut, Quotes;
    if text == [] {
      NoTextIsNotCut(rest, quoted);
    } else {
      var next := quoted != (text[0] == QUOTE);
      TailIsWhole(text, quoted);
      WholeTextIsNotCut(text[1..], rest, next);
      ParityOfTail(text, quoted);
      CutOneCharacter(text, rest, quoted, Cut(rest, next != (Quotes(text[1..]) % 2 == 1)));
    }
  }

  lemma NoTextIsNotCut(rest: string, quoted: bool)
    ensures Cut([] + rest, quoted) == Rejoined([], Cut(rest, quoted != (Quotes([]) % 2 == 1)))
  {
    hide Cut;
    assert [] + rest == rest;
    var pieces := Cut(rest, quoted);
    assert [] + pieces[0] == pieces[0] && [pieces[0]] + pieces[1..] == pieces;
  }

  lemma ParityOfTail(text: string, quoted: bool)
    requires text != []
    ensures ((quoted != (text[0] == QUOTE)) != (Quotes(text[1..]) % 2 == 1)) == (quoted != (Quotes(text) % 2 == 1))
  {
    var rest := Quotes(text[1..]);
    assert Quotes(text) == (if text[0] == QUOTE then 1 else 0) + rest;
    OneMoreIsOdd(rest);
  }

  lemma OneMoreIsOdd(n: nat)
    ensures (1 + n) % 2 == 1 <==> n % 2 != 1
  {
  }

  lemma CutOneCharacter(text: string, rest: string, quoted: bool, pieces: seq<string>)
    requires text != [] && pieces != [] && !(text[0] == ';' && !quoted)
    requires Cut(text[1..] + rest, quoted != (text[0] == QUOTE)) == Rejoined(text[1..], pieces)
    ensures Cut(text + rest, quoted) == Rejoined(text, pieces)
  {
    assert (text + rest)[0] == text[0] && (text + rest)[1..] == text[1..] + rest;
    assert Rejoined(text[1..], pieces)[1..] == pieces[1..];
    assert [text[0]] + (text[1..] + pieces[0]) == text + pieces[0];
  }

  lemma TailIsWhole(text: string, quoted: bool)
    requires text != [] && PieceIsWhole(text, quoted)
    ensures PieceIsWhole(text[1..], quoted != (text[0] == QUOTE)) && !(text[0] == ';' && !quoted)
  {
    assert text[..0] == [];
    forall i | 0 <= i < |text[1..]| && text[1..][i] == ';'
      ensures (Quotes(text[1..][..i]) % 2 == 1) != (quoted != (text[0] == QUOTE))
    {
      assert text[i + 1] == ';' && text[..i + 1][1..] == text[1..][..i];
    }
  }

  /** Statements each followed by a semicolon and white space, as the batch files hold them. */
  function Script(statements: seq<string>, gap: string, end: string): string {
    if statements == [] then []
    else statements[0] + ";" + GapAfter(statements, gap, end) + Script(statements[1..], gap, end)
  }

  function GapAfter(statements: seq<string>, gap: string, end: string): string {
    if |statements| == 1 then end else gap
  }

  lemma GapIsNotCut(gap: string, rest: string)
    requires AllSpace(gap)
    ensures Cut(gap + rest, false) == Rejoined(gap, Cut(rest, false))
  {
    SpaceHoldsNoQuotes(gap);
    forall i | 0 <= i < |gap| ensures gap[i] != ';' {
      assert IsSpace(gap[i]);
    }
    WholeTextIsNotCut(gap, rest, false);
  }

  lemma KeptSkipsLeadingSpace(gap: string, pieces: seq<string>)
    requires AllSpace(gap) && pieces != []
    ensures Kept(Rejoined(gap, pieces)) == Kept(pieces)
  {
    TrimSkipsLeadingSpace(gap, pieces[0]);
    assert Rejoined(gap, pieces)[1..] == pieces[1..];
  }

  /** Splitting a script of statements returns the statements, whatever white space separates them. */
  lemma {:induction false} SplitOfScript(statements: seq<string>, gap: string, end: string)
    requires AllSpace(gap) && AllSpace(end) && forall statement | statement in statements :: IsStatement(statement)
    ensures Statements(Script(statements, gap, end)) == statements
    decreases |statements|
  {
    hide IsStatement, Statements;
    if statements == [] {
      EmptyScript();
    } else {
      assert statements[0] in statements;
      FirstStatementIsRead(statements[0], GapAfter(statements, gap, end), Script(statements[1..], gap, end));
      SplitOfScript(statements[1..], gap, end);
    }
  }

  /** In particular a batch file is read back as its batch. */
  lemma BatchFileSplitsBack(batch: seq<string>)
    requires forall statement | statement in batch :: IsStatement(statement)
    ensures Statements(Script(batch, "\n\n", "\n")) == batch
  {
    assert AllSpace("\n\n") && AllSpace("\n");
    SplitOfScript(batch, "\n\n", "\n");
  }

  /** The statements joined by semicolons and white space: the last one has no terminator. */
  function JoinedScript(statements: seq<string>, gap: string, end: string): string {
    if statements == [] then end
    else if |statements| == 1 then statements[0] + end
    else statements[0] + ";" + gap + JoinedScript(statements[1..], gap, end)
  }

  lemma LeadingSpaceGoes(text: string)
    ensures text != "" && IsSpace(text[0]) ==> |TrimStart(text)| < |text|
  {
  }

  lemma StatementStartsPlainly(statement: string)
    requires statement != "" && Trim(statement) == statement
    ensures TrimStart(statement) == statement && TrimEnd(statement) == statement && !IsSpace(statement[0])
  {
    LeadingSpaceGoes(statement);
  }

  lemma {:induction false} TrimEndSkipsSpace(text: string, space: string)
    requires AllSpace(space)
    ensures TrimEnd(text + space) == TrimEnd(text)
    decreases |space|
  {
    if space == [] {
      assert text + space == text;
    } else {
      assert (text + space)[|text + space| - 1] == space[|space| - 1];
      assert (text + space)[..|text + space| - 1] == text + space[..|space| - 1];
      TrimEndSkipsSpace(text, space[..|space| - 1]);
    }
  }

  lemma LastStatementIsRead(statement: string, end: string)
    requires IsStatement(statement) && AllSpace(end)
    ensures Statements(statement + end) == [statement]
  {
    hide PieceIsWhole, Quotes, TrimEnd;
    StatementStartsPlainly(statement);
    TrimEndSkipsSpace(statement, end);
    assert (statement + end)[0] == statement[0];
    assert Trim(statement + end) == statement;
    WholeTextIsNotCut(statement, end, false);
    SpaceIsOnePiece(end);
    KeptOfOne(statement + end);
  }

  lemma SpaceIsOnePiece(space: string)
    requires AllSpace(space)
    ensures Cut(space, false) == [space]
  {
    assert space + [] == space;
    GapIsNotCut(space, []);
  }

  lemma SpaceHoldsNoStatement(space: string)
    requires AllSpace(space)
    ensures Statements(space) == []
  {
    hide Trim;
    SpaceIsOnePiece(space);
    assert space + [] == space;
    TrimSkipsLeadingSpace(space, []);
    NothingIsTrimmed();
    KeptOfOne(space);
  }

  lemma NothingIsTrimmed()
    ensures Trim([]) == []
  {
  }

  lemma FirstStatementIsRead(first: string, gap: string, rest: string)
    requires IsStatement(first) && AllSpace(gap)
    ensures Statements(first + ";" + gap + rest) == [first] + Statements(rest)
  {
    hide PieceIsWhole, Trim, Quotes;
    assert first + ";" + gap + rest == first + (";" + (gap + rest));
    assert (";" + (gap + rest))[0] == ';';
    WholeTextIsNotCut(first, ";" + (gap + rest), false);
    assert (";" + (gap + rest))[1..] == gap + rest;
    assert Cut(";" + (gap + rest), false) == [[]] + Cut(gap + rest, false);
    assert Rejoined(first, [[]] + Cut(gap + rest, false)) == [first] + Cut(gap + rest, false) by {
      assert first + [] == first && ([[]] + Cut(gap + rest, false))[1..] == Cut(gap + rest, false);
    }
    GapIsNotCut(gap, rest);
    KeptSkipsLeadingSpace(gap, Cut(rest, false));
    KeptByOne(first, Cut(gap + rest, false));
    KeptOfOne(first);
  }

  /** Splitting the join of statements returns the statements, whatever white space stands between and behind them. */
  lemma {:induction false} SplitOfJoinedScript(statements: seq<string>, gap: string, end: string)
    requires AllSpace(gap) && AllSpace(end) && forall statement | statement in statements :: IsStatement(statement)
    ensures Statements(JoinedScript(statements, gap, end)) == statements
    decreases |statements|
  {
    hide IsStatement, Statements;
    if statements == [] {
      SpaceHoldsNoStatement(end);
    } else {
      assert statements[0] in statements;
      if |statements| == 1 {
        LastStatementIsRead(statements[0], end);
      } else {
        FirstStatementIsRead(statements[0], gap, JoinedScript(statements[1..], gap, end));
        SplitOfJoinedScript(statements[1..], gap, end);
      }
    }
  }

  lemma EmptyScript()
    ensures Statements([]) == []
  {
    assert Cut([], false) == [[]];
    KeptOfOne([]);
  }

  // Literals.

  /** A literal as the builders write it: quotes around it, and every quote inside doubled. */
  function Literal(value: string): string {
    "'" + ReplaceAll(value, "'", "''") + "'"
  }

  lemma {:induction false} DoubledQuotes(value: string)
    ensures Balanced(ReplaceAll(value, "'", "''")) && PieceIsWhole(ReplaceAll(value, "'", "''"), true)
  {
    if value != [] {
      var rest := ReplaceAll(value[1..], "'", "''");
      DoubledQuotes(value[1..]);
      if value[0] == QUOTE {
        assert ReplaceAll(value, "'", "''") == "''" + rest;
        assert "''" + rest == ['\''] + (['\''] + rest);
        QuoteOpensOrCloses(rest, true);
        QuoteOpensOrCloses(['\''] + rest, false);
      } else {
        assert ReplaceAll(value, "'", "''") == [value[0]] + rest;
        PieceGrows(value[0], rest, true);
      }
    }
  }

  lemma QuoteOpensOrCloses(rest: string, quoted: bool)
    requires PieceIsWhole(rest, quoted)
    ensures PieceIsWhole([QUOTE] + rest, !quoted) && Quotes([QUOTE] + rest) == 1 + Quotes(rest)
  {
    PieceGrows(QUOTE, rest, !quoted);
  }

  /** A literal built by doubling is never split, whatever it holds: it ends up whole in one piece. */
  lemma LiteralIsNeverCut(before: string, value: string, after: string)
    requires Balanced(before) && PieceIsWhole(before, false)
    ensures Cut(before + Literal(value) + after, false) == Rejoined(before + Literal(value), Cut(after, false))
  {
    hide ReplaceAll;
    var inner := ReplaceAll(value, "'", "''");
    DoubledQuotes(value);
    LiteralIsWhole(inner);
    var literal := Literal(value);
    WholeTextsJoin(before, literal);
    WholeTextIsNotCut(before + literal, after, false);
  }

  lemma LiteralIsWhole(inner: string)
    requires Balanced(inner) && PieceIsWhole(inner, true)
    ensures Balanced("'" + inner + "'") && PieceIsWhole("'" + inner + "'", false)
  {
    assert "'" + inner + "'" == [QUOTE] + (inner + [QUOTE]);
    assert [QUOTE][1..] == [];
    QuotesConcatenate(inner, [QUOTE]);
    forall i | 0 <= i < |inner + [QUOTE]| && (inner + [QUOTE])[i] == ';'
      ensures (Quotes((inner + [QUOTE])[..i]) % 2 == 1) != true
    {
      assert (inner + [QUOTE])[..i] == inner[..i];
    }
    QuoteOpensOrCloses(inner + [QUOTE], true);
  }

  lemma WholeTextsJoin(a: string, b: string)
    requires Balanced(a) && PieceIsWhole(a, false) && Balanced(b) && PieceIsWhole(b, false)
    ensures Balanced(a + b) && PieceIsWhole(a + b, false)
  {
    hide Quotes;
    QuotesConcatenate(a, b);
    forall i | 0 <= i < |a + b| && (a + b)[i] == ';' ensures Quotes((a + b)[..i]) % 2 == 1 {
      if i < |a| {
        FirstHalfIsQuoted(a, b, i);
      } else {
        SecondHalfIsQuoted(a, b, i);
      }
    }
  }

  lemma FirstHalfIsQuoted(a: string, b: string, i: nat)
    requires PieceIsWhole(a, false) && i < |a| && (a + b)[i] == ';'
    ensures Quotes((a + b)[..i]) % 2 == 1
  {
    hide Quotes;
    assert (a + b)[..i] == a[..i] && a[i] == ';';
  }

  lemma SecondHalfIsQuoted(a: string, b: string, i: nat)
    requires Balanced(a) && PieceIsWhole(b, false) && |a| <= i < |a + b| && (a + b)[i] == ';'
    ensures Quotes((a + b)[..i]) % 2 == 1
  {
    hide Quotes;
    assert (a + b)[..i] == a + b[..i - |a|] && b[i - |a|] == ';';
    QuotesConcatenate(a, b[..i - |a|]);
  }

  // Batches.

  const BATCH_SIZE: nat := 8

  function Flatten(batches: seq<seq<string>>): seq<string> {
    if batches == [] then [] else Flatten(batches[..|batches| - 1]) + batches[|batches| - 1]
  }

  /** The batching loop of `applyD1`: the batches hold the statements in order, eight at a time. */
  method Batches(statements: seq<string>) returns (batches: seq<seq<string>>)
    ensures Flatten(batches) == statements
    ensures forall i | 0 <= i < |batches| :: 0 < |batches[i]| <= BATCH_SIZE
    ensures forall i | 0 <= i < |batches| - 1 :: |batches[i]| == BATCH_SIZE
  {
    batches := [];
    var index := 0;
    while index < |statements|
      invariant 0 <= index
      invariant Flatten(batches) == statements[..if index < |statements| then index else |statements|]
      invariant forall i | 0 <= i < |batches| :: 0 < |batches[i]| <= BATCH_SIZE
      invariant forall i | 0 <= i < |batches| - 1 :: |batches[i]| == BATCH_SIZE
      invariant batches != [] && index < |statements| ==> |batches[|batches| - 1]| == BATCH_SIZE
    {
      var end := if index + BATCH_SIZE < |statements| then index + BATCH_SIZE else |statements|;
      var batch := statements[index..end];
      assert statements[..end] == statements[..index] + batch;
      assert (batches + [batch])[..|batches|] == batches;
      batches := batches + [batch];
      index := index + BATCH_SIZE;
    }
    assert statements[..|statements|] == statements;
  }
}
