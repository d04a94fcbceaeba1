/** The lexer: a cursor over the source that appends tokens, proved against a description of
    token texts, longest match and trivia.
 */
module Lexer {

  datatype TokenType =
    | LeftParen | RightParen | LeftBracket | RightBracket | LeftBrace | RightBrace
    | Colon | Semicolon | Comma | Dot | Question
    | Plus | Minus | Star | Slash | PlusEqual | MinusEqual | StarEqual | SlashEqual
    | Bang | BangEqual | Equal | FatArrow | EqualEqual | Less | LessEqual | Greater | GreaterEqual
    | AmpersandAmpersand | Pipe | PipePipe
    | Identifier | Keyword(word: string) | Number | String
    | EndOfFile

  datatype Token = Token(kind: TokenType, lexeme: string, start: nat, end: nat)

  predicate IsDigit(c: char) {
    '0' <= c <= '9'
  }

  predicate IsAlpha(c: char) {
    'a' <= c <= 'z' || 'A' <= c <= 'Z' || c == '_'
  }

  predicate IsAlphaNumeric(c: char) {
    IsAlpha(c) || IsDigit(c)
  }

  predicate IsBlank(c: char) {
    c == ' ' || c == '\r' || c == '\t' || c == '\n'
  }

  predicate IsKeyword(text: string) {
    text in {
      "break", "continue", "for", "if", "impl", "operator", "import", "in", "as", "export", "else", "enum", "fun", "let",
      "match", "print", "private", "return", "struct", "while", "true", "false", "nil"}
  }

  function WordKind(text: string): TokenType {
    if IsKeyword(text) then Keyword(text) else Identifier
  }

  // -------------------------------------------------------------- runs of characters

  /** Where the run of digits that starts at `i` ends. */
  function DigitsEnd(s: string, i: nat): (e: nat)
    requires i <= |s|
    ensures i <= e <= |s| && (forall k :: i <= k < e ==> IsDigit(s[k])) && (e < |s| ==> !IsDigit(s[e]))
    decreases |s| - i
  {
    if i < |s| && IsDigit(s[i]) then DigitsEnd(s, i + 1) else i
  }

  function WordEnd(s: string, i: nat): (e: nat)
    requires i <= |s|
    ensures i <= e <= |s| && (forall k :: i <= k < e ==> IsAlphaNumeric(s[k])) && (e < |s| ==> !IsAlphaNumeric(s[e]))
    decreases |s| - i
  {
    if i < |s| && IsAlphaNumeric(s[i]) then WordEnd(s, i + 1) else i
  }

  /** The next occurrence of a character at or after `i`, or the end of the text. */
  function Find(s: string, c: char, i: nat): (e: nat)
    requires i <= |s|
    ensures i <= e <= |s| && (forall k :: i <= k < e ==> s[k] != c) && (e < |s| ==> s[e] == c)
    decreases |s| - i
  {
    if i < |s| && s[i] != c then Find(s, c, i + 1) else i
  }

  lemma {:induction false} FoundAt(s: string, c: char, i: nat, e: nat)
    requires i <= e <= |s| && (forall k :: i <= k < e ==> s[k] != c) && (e < |s| ==> s[e] == c)
    ensures Find(s, c, i) == e
    decreases e - i
  {
    if i < e {
      FoundAt(s, c, i + 1, e);
    }
  }

  /** A number: digits, and a fraction when a digit follows the dot. */
  function NumberEnd(s: string, i: nat): (e: nat)
    requires i <= |s|
    ensures i <= e <= |s|
  {
    var e := DigitsEnd(s, i);
    if e + 1 < |s| && s[e] == '.' && IsDigit(s[e + 1]) then DigitsEnd(s, e + 1) else e
  }

  // ------------------------------------------------------------------- one step

  datatype Scanned =
    | Found(kind: TokenType, end: nat)
    | Skipped(end: nat)          // a blank or a line comment
    | Rejected(end: nat)         // an error is recorded and scanning goes on

  predicate Next(s: string, i: nat, c: char) {
    i < |s| && s[i] == c
  }

  function Either(s: string, i: nat, c: char, longer: TokenType, shorter: TokenType): (r: Scanned)
    requires i <= |s|
    ensures r.Found? && i <= r.end <= |s|
  {
    if Next(s, i, c) then Found(longer, i + 1) else Found(shorter, i)
  }

  /** What starts at `i`: the longest token, trivia or an error. */
  function ScanAt(s: string, i: nat): (r: Scanned)
    requires i < |s|
    ensures i < r.end <= |s|
  {
    var c := s[i];
    if IsBlank(c) then Skipped(i + 1)
    else if IsDigit(c) then Found(Number, NumberEnd(s, i + 1))
    else if IsAlpha(c) then
      var e := WordEnd(s, i + 1);
      Found(WordKind(s[i..e]), e)
    else if c == '"' then
      var e := Find(s, '"', i + 1);
      if e == |s| then Rejected(e) else Found(String, e + 1)
    else if c == '/' && Next(s, i + 1, '/') then Skipped(Find(s, '\n', i + 2))
    else Symbol(s, i)
  }

  function Symbol(s: string, i: nat): (r: Scanned)
    requires i < |s|
    ensures i < r.end <= |s|
  {
    match s[i]
    case '(' => Found(LeftParen, i + 1)
    case ')' => Found(RightParen, i + 1)
    case '[' => Found(LeftBracket, i + 1)
    case ']' => Found(RightBracket, i + 1)
    case '{' => Found(LeftBrace, i + 1)
    case '}' => Found(RightBrace, i + 1)
    case ':' => Found(Colon, i + 1)
    case ';' => Found(Semicolon, i + 1)
    case ',' => Found(Comma, i + 1)
    case '.' => Found(Dot, i + 1)
    case '?' => Found(Question, i + 1)
    case '+' => Either(s, i + 1, '=', PlusEqual, Plus)
    case '-' => Either(s, i + 1, '=', MinusEqual, Minus)
    case '*' => Either(s, i + 1, '=', StarEqual, Star)
    case '/' => Either(s, i + 1, '=', SlashEqual, Slash)
    case '!' => Either(s, i + 1, '=', BangEqual, Bang)
    case '=' => if Next(s, i + 1, '=') then Found(EqualEqual, i + 2) else Either(s, i + 1, '>', FatArrow, Equal)
    case '<' => Either(s, i + 1, '=', LessEqual, Less)
    case '>' => Either(s, i + 1, '=', GreaterEqual, Greater)
    case '&' => if Next(s, i + 1, '&') then Found(AmpersandAmpersand, i + 2) else Rejected(i + 1)
    case '|' => Either(s, i + 1, '|', PipePipe, Pipe)
    case _ => Rejected(i + 1)
  }

  lemma SlashSymbol(s: string, i: nat)
    requires i < |s| && s[i] == '/'
    ensures Symbol(s, i) == Either(s, i + 1, '=', SlashEqual, Slash)
  {
  }

  // ------------------------------------------------------------------ whole sources

  /** The tokens from position `i` on. */
  function TokensFrom(s: string, i: nat): seq<Token>
    requires i <= |s|
    decreases |s| - i
  {
    if i == |s| then []
    else
      match ScanAt(s, i)
      case Found(kind, e) => [Token(kind, s[i..e], i, e)] + TokensFrom(s, e)
      case Skipped(e) => TokensFrom(s, e)
      case Rejected(e) => TokensFrom(s, e)
  }

  /** A line comment on its own. */
  predicate IsComment(text: string) {
    |text| >= 2 && text[0] == '/' && text[1] == '/' && forall k :: 0 <= k < |text| ==> text[k] != '\n'
  }

  /** The line comments from position `i` on. */
  function CommentsFrom(s: string, i: nat): seq<string>
    requires i <= |s|
    decreases |s| - i
  {
    if i == |s| then []
    else
      var e := ScanAt(s, i).end;
      (if ScanAt(s, i).Skipped? && s[i] == '/' then [s[i..e]] else []) + CommentsFrom(s, e)
  }

  /** No error from position `i` on. */
  predicate Clean(s: string, i: nat)
    requires i <= |s|
    decreases |s| - i
  {
    i == |s| || (!ScanAt(s, i).Rejected? && Clean(s, ScanAt(s, i).end))
  }

  /** Blanks and line comments, each comment up to its newline or the end of the source. */
  predicate Trivia(s: string, b: nat, e: nat)
    requires e <= |s|
    decreases e - b
  {
    b == e || (b < e && ScanAt(s, b).Skipped? && ScanAt(s, b).end <= e && Trivia(s, ScanAt(s, b).end, e))
  }

  /** The tokens lie in order and apart, hold their slices of the source, and leave only trivia between them. */
  predicate Tiles(s: string, cursor: nat, tokens: seq<Token>)
    requires cursor <= |s|
    decreases |tokens|
  {
    if tokens == [] then Trivia(s, cursor, |s|)
    else
      var t := tokens[0];
      && cursor <= t.start < t.end <= |s| && t.lexeme == s[t.start..t.end] && Trivia(s, cursor, t.start)
      && ScanAt(s, t.start) == Found(t.kind, t.end) && Tiles(s, t.end, tokens[1..])
  }

  lemma TilesSkip(s: string, i: nat, tokens: seq<Token>)
    requires i < |s| && ScanAt(s, i).Skipped? && Tiles(s, ScanAt(s, i).end, tokens)
    ensures Tiles(s, i, tokens)
  {
    hide ScanAt;
  }

  lemma {:induction false} TokensTile(s: string, i: nat)
    requires i <= |s| && Clean(s, i)
    ensures Tiles(s, i, TokensFrom(s, i))
    decreases |s| - i
  {
    hide ScanAt;
    if i < |s| {
      TokensTile(s, ScanAt(s, i).end);
      if ScanAt(s, i).Skipped? {
        TilesSkip(s, i, TokensFrom(s, ScanAt(s, i).end));
      } else {
        assert TokensFrom(s, i)[1..] == TokensFrom(s, ScanAt(s, i).end);
      }
    }
  }

  /** Only one token sequence tiles a source: the lexer's. */
  lemma {:induction false} TilesOnce(s: string, i: nat, tokens: seq<Token>)
    requires i <= |s| && Tiles(s, i, tokens)
    ensures Clean(s, i) && tokens == TokensFrom(s, i)
    decreases |s| - i
  {
    hide ScanAt;
    if i < |s| {
      if tokens != [] && tokens[0].start == i {
        TilesOnce(s, tokens[0].end, tokens[1..]);
        assert tokens == [tokens[0]] + tokens[1..];
      } else {
        TilesOnce(s, ScanAt(s, i).end, tokens);
      }
    }
  }

  class LexerState {
    const source: string
    var start: nat
    var current: nat
    var tokens: seq<Token>
    var errors: nat

    constructor (source: string)
      ensures this.source == source && current == 0 && tokens == [] && errors == 0
    {
      this.source := source;
      start, current, tokens, errors := 0, 0, [], 0;
    }

    function Peek(): char
      reads this
    {
      if current < |source| then source[current] else '\0'
    }

    function PeekNext(): char
      reads this
    {
      if current + 1 < |source| then source[current + 1] else '\0'
    }

    /** The cursor inside the token under way. */
    predicate Inside()
      reads this
    {
      start < current <= |source|
    }

    method Match(expected: char) returns (matched: bool)
      requires current <= |source|
      modifies this`current
      ensures matched == Next(source, old(current), expected)
      ensures current == if matched then old(current) + 1 else old(current)
    {
      if current >= |source| || source[current] != expected {
        return false;
      }
      current := current + 1;
      return true;
    }

    method AddToken(kind: TokenType)
      requires Inside()
      modifies this`tokens
      ensures tokens == old(tokens) + [Token(kind, source[start..current], start, current)]
    {
      tokens := tokens + [Token(kind, source[start..current], start, current)];
    }

    method NumberLiteral()
      requires Inside()
      modifies this`current, this`tokens
      ensures current == NumberEnd(source, old(current))
      ensures tokens == old(tokens) + Recorded(source, start, Found(Number, current))
    {
      while IsDigit(Peek())
        invariant start < current <= |source| && DigitsEnd(source, current) == DigitsEnd(source, old(current))
        invariant tokens == old(tokens)
        decreases |source| - current
      {
        current := current + 1;
      }
      if Peek() == '.' && IsDigit(PeekNext()) {
        current := current + 1;
        ghost var fraction := current;
        while IsDigit(Peek())
          invariant start < current <= |source| && DigitsEnd(source, current) == DigitsEnd(source, fraction)
          invariant tokens == old(tokens)
          decreases |source| - current
        {
          current := current + 1;
        }
      }
      AddToken(Number);
    }

    method Word()
      requires Inside()
      modifies this`current, this`tokens
      ensures current == WordEnd(source, old(current))
      ensures tokens == old(tokens) + Recorded(source, start, Found(WordKind(source[start..current]), current))
    {
      while IsAlphaNumeric(Peek())
        invariant start < current <= |source| && WordEnd(source, current) == WordEnd(source, old(current))
        invariant tokens == old(tokens)
        decreases |source| - current
      {
        current := current + 1;
      }
      AddToken(WordKind(source[start..current]));
    }

    method StringLiteral()
      requires Inside()
      modifies this`current, this`tokens, this`errors
      ensures
        var e := Find(source, '"', old(current));
        var r := if e == |source| then Rejected(e) else Found(String, e + 1);
        current == r.end && tokens == old(tokens) + Recorded(source, start, r) && errors == old(errors) + Errors(r)
    {
      while Peek() != '"' && current < |source|
        invariant start < current <= |source| && Find(source, '"', current) == Find(source, '"', old(current))
        invariant tokens == old(tokens) && errors == old(errors)
        decreases |source| - current
      {
        current := current + 1;
      }
      if current == |source| {
        errors := errors + 1;
        return;
      }
      current := current + 1;
      AddToken(String);
    }

    /** Skips a line comment up to its newline. */
    method Comment()
      requires Inside()
      modifies this`current
      ensures current == Find(source, '\n', old(current))
    {
      while Peek() != '\n' && current < |source|
        invariant start < current <= |source| && Find(source, '\n', current) == Find(source, '\n', old(current))
        decreases |source| - current
      {
        current := current + 1;
      }
    }

    /** Adds the longer token if the next character extends the one read. */
    method AddEither(expected: char, longer: TokenType, shorter: TokenType)
      requires Inside()
      modifies this`current, this`tokens
      ensures
        var r := Either(source, old(current), expected, longer, shorter);
        current == r.end && tokens == old(tokens) + Recorded(source, start, r)
    {
      var matched := Match(expected);
      AddToken(if matched then longer else shorter);
    }

    /** One token, one stretch of trivia or one error. */
    method ScanToken()
      requires start == current < |source|
      modifies this`current, this`tokens, this`errors
      ensures
        var r := ScanAt(source, start);
        current == r.end && tokens == old(tokens) + Recorded(source, start, r) && errors == old(errors) + Errors(r)
    {
      hide Symbol, IsKeyword, WordEnd, Find, NumberEnd;
      var c := source[current];
      current := current + 1;
      if c == '"' {
        StringLiteral();
      } else if IsBlank(c) {
      } else if IsDigit(c) {
        NumberLiteral();
      } else if IsAlpha(c) {
        Word();
      } else if c == '/' {
        var comment := Match('/');
        if comment {
          Comment();
        } else {
          SlashSymbol(source, start);
          AddEither('=', SlashEqual, Slash);
        }
      } else {
        ScanSymbol(c);
      }
    }

    method ScanSymbol(c: char)
      requires Inside() && current == start + 1 && source[start] == c
      modifies this`current, this`tokens, this`errors
      ensures
        var r := Symbol(source, start);
        current == r.end && tokens == old(tokens) + Recorded(source, start, r) && errors == old(errors) + Errors(r)
    {
      match c
      case '(' => AddToken(LeftParen);
      case ')' => AddToken(RightParen);
      case '[' => AddToken(LeftBracket);
      case ']' => AddToken(RightBracket);
      case '{' => AddToken(LeftBrace);
      case '}' => AddToken(RightBrace);
      case ':' => AddToken(Colon);
      case ';' => AddToken(Semicolon);
      case ',' => AddToken(Comma);
      case '.' => AddToken(Dot);
      case '?' => AddToken(Question);
      case '+' => AddEither('=', PlusEqual, Plus);
      case '-' => AddEither('=', MinusEqual, Minus);
      case '*' => AddEither('=', StarEqual, Star);
      case '/' => AddEither('=', SlashEqual, Slash);
      case '!' => AddEither('=', BangEqual, Bang);
      case '=' =>
        var equal := Match('=');
        if equal {
          AddToken(EqualEqual);
        } else {
          AddEither('>', FatArrow, Equal);
        }
      case '<' => AddEither('=', LessEqual, Less);
      case '>' => AddEither('=', GreaterEqual, Greater);
      case '&' =>
        var both := Match('&');
        if both {
          AddToken(AmpersandAmpersand);
        } else {
          errors := errors + 1;
        }
      case '|' => AddEither('|', PipePipe, Pipe);
      case _ => errors := errors + 1;
    }

    /** Scans the whole source; fails exactly when some position starts no token. */
    method ScanTokens() returns (ok: bool, result: seq<Token>)
      requires current == 0 && tokens == [] && errors == 0
      modifies this
      ensures ok == Clean(source, 0)
      ensures result == TokensFrom(source, 0) + [Token(EndOfFile, "", |source|, |source|)]
      ensures ok ==> Tiles(source, 0, result[..|result| - 1])
    {
      hide ScanAt;
      while current < |source|
        invariant current <= |source| && tokens + TokensFrom(source, current) == TokensFrom(source, 0)
        invariant Clean(source, 0) == (errors == 0 && Clean(source, current))
        decreases |source| - current
      {
        start := current;
        ScanToken();
      }
      tokens := tokens + [Token(EndOfFile, "", current, current)];
      ok, result := errors == 0, tokens;
      assert result[..|result| - 1] == TokensFrom(source, 0);
      if ok {
        TokensTile(source, 0);
      }
    }
  }

  /** The token that a step adds, if any. */
  function Recorded(s: string, start: nat, r: Scanned): seq<Token>
    requires start <= r.end <= |s|
  {
    if r.Found? then [Token(r.kind, s[start..r.end], start, r.end)] else []
  }

  function Errors(r: Scanned): nat {
    if r.Rejected? then 1 else 0
  }

  // --------------------------------------------------------------- lexemes on their own

  /** The same `n` characters at `i` in one text and at `j` in another. */
  predicate Same(s: string, i: nat, t: string, j: nat, n: nat) {
    i + n <= |s| && j + n <= |t| && s[i..i + n] == t[j..j + n]
  }

  lemma SameAt(s: string, i: nat, t: string, j: nat, n: nat, k: nat)
    requires Same(s, i, t, j, n) && k < n
    ensures t[j + k] == s[i + k]
  {
    assert s[i..i + n][k] == t[j..j + n][k];
  }

  lemma SamePart(s: string, i: nat, t: string, j: nat, n: nat, d: nat, m: nat)
    requires Same(s, i, t, j, n) && d + m <= n
    ensures Same(s, i + d, t, j + d, m)
  {
    var a, b := s[i + d..i + d + m], t[j + d..j + d + m];
    forall k | 0 <= k < m ensures a[k] == b[k] {
      SameAt(s, i, t, j, n, d + k);
    }
  }

  lemma {:induction false} DigitsLocal(s: string, i: nat, t: string, j: nat, n: nat)
    requires i <= |s| && n == DigitsEnd(s, i) - i && Same(s, i, t, j, n) && (j + n < |t| ==> !IsDigit(t[j + n]))
    ensures DigitsEnd(t, j) == j + n
    decreases n
  {
    if n > 0 {
      SameAt(s, i, t, j, n, 0);
      SamePart(s, i, t, j, n, 1, n - 1);
      DigitsLocal(s, i + 1, t, j + 1, n - 1);
    }
  }

  lemma {:induction false} WordLocal(s: string, i: nat, t: string, j: nat, n: nat)
    requires i <= |s| && n == WordEnd(s, i) - i && Same(s, i, t, j, n) && (j + n < |t| ==> !IsAlphaNumeric(t[j + n]))
    ensures WordEnd(t, j) == j + n
    decreases n
  {
    if n > 0 {
      SameAt(s, i, t, j, n, 0);
      SamePart(s, i, t, j, n, 1, n - 1);
      WordLocal(s, i + 1, t, j + 1, n - 1);
    }
  }

  lemma {:induction false} FindLocal(s: string, c: char, i: nat, t: string, j: nat, n: nat)
    requires i <= |s| && n == Find(s, c, i) - i && i + n < |s| && Same(s, i, t, j, n + 1)
    ensures Find(t, c, j) == j + n
    decreases n
  {
    SameAt(s, i, t, j, n + 1, 0);
    if n > 0 {
      SamePart(s, i, t, j, n + 1, 1, n);
      FindLocal(s, c, i + 1, t, j + 1, n - 1);
    }
  }

  /** The characters that would continue a lexeme of this kind; the dot of a fraction is treated apart. */
  predicate Extends(kind: TokenType, c: char) {
    match kind
    case Identifier => IsAlphaNumeric(c)
    case Keyword(_) => IsAlphaNumeric(c)
    case Number => IsDigit(c)
    case Plus => c == '='
    case Minus => c == '='
    case Star => c == '='
    case Slash => c == '=' || c == '/'
    case Bang => c == '='
    case Equal => c == '=' || c == '>'
    case Less => c == '='
    case Greater => c == '='
    case Pipe => c == '|'
    case _ => false
  }

  /** Nothing that starts at `e` continues the token before it. */
  predicate Stops(kind: TokenType, t: string, e: nat) {
    && (e < |t| ==> !Extends(kind, t[e]))
    && (kind == Number && e + 1 < |t| && t[e] == '.' ==> !IsDigit(t[e + 1]))
  }

  lemma NumberLocal(s: string, i: nat, t: string, j: nat, n: nat)
    requires i <= |s| && n == NumberEnd(s, i) - i && Same(s, i, t, j, n) && Stops(Number, t, j + n)
    ensures NumberEnd(t, j) == j + n
  {
    hide Same, DigitsEnd;
    var e := DigitsEnd(s, i);
    var m := e - i;
    SamePart(s, i, t, j, n, 0, m);
    if m < n {
      SameAt(s, i, t, j, n, m);
      DigitsLocal(s, i, t, j, m);
      FractionStarts(s, e);
      SameAt(s, i, t, j, n, m + 1);
      SamePart(s, i, t, j, n, m + 1, n - m - 1);
      DigitsLocal(s, e + 1, t, j + m + 1, n - m - 1);
    } else {
      DigitsLocal(s, i, t, j, m);
    }
  }

  lemma FractionStarts(s: string, e: nat)
    requires e + 1 < |s| && IsDigit(s[e + 1])
    ensures DigitsEnd(s, e + 1) > e + 1
  {
  }

  lemma SymbolLocal(s: string, i: nat, t: string, j: nat, n: nat)
    requires i < |s| && Symbol(s, i).Found? && n == Symbol(s, i).end - i
    requires Same(s, i, t, j, n) && Stops(Symbol(s, i).kind, t, j + n)
    requires !(s[i] == '/' && Next(s, i + 1, '/'))
    ensures Symbol(t, j) == Found(Symbol(s, i).kind, j + n)
    ensures !(t[j] == '/' && Next(t, j + 1, '/'))
  {
    hide Symbol, Stops;
    SymbolLength(s, i);
    SameAt(s, i, t, j, n, 0);
    if n == 1 {
      ShortSymbol(s, i, t, j);
    } else {
      SameAt(s, i, t, j, n, 1);
      LongSymbol(s, i, t, j);
    }
  }

  lemma SymbolLength(s: string, i: nat)
    requires i < |s| && Symbol(s, i).Found?
    ensures Symbol(s, i).end == i + 1 || Symbol(s, i).end == i + 2
  {
  }

  lemma ShortSymbol(s: string, i: nat, t: string, j: nat)
    requires i < |s| && j < |t| && t[j] == s[i] && Symbol(s, i).Found? && Symbol(s, i).end == i + 1
    requires Stops(Symbol(s, i).kind, t, j + 1)
    ensures Symbol(t, j) == Found(Symbol(s, i).kind, j + 1) && !(t[j] == '/' && Next(t, j + 1, '/'))
  {
  }

  lemma LongSymbol(s: string, i: nat, t: string, j: nat)
    requires i + 1 < |s| && j + 1 < |t| && t[j] == s[i] && t[j + 1] == s[i + 1]
    requires Symbol(s, i).Found? && Symbol(s, i).end == i + 2
    ensures Symbol(t, j) == Found(Symbol(s, i).kind, j + 2) && !(t[j] == '/' && Next(t, j + 1, '/'))
  {
  }

  lemma ScanWord(s: string, i: nat)
    requires i < |s| && IsAlpha(s[i])
    ensures ScanAt(s, i) == Found(WordKind(s[i..WordEnd(s, i + 1)]), WordEnd(s, i + 1))
  {
    hide WordKind, WordEnd;
  }

  lemma ScanString(s: string, i: nat)
    requires i < |s| && s[i] == '"'
    ensures ScanAt(s, i)
         == if Find(s, '"', i + 1) == |s| then Rejected(|s|) else Found(String, Find(s, '"', i + 1) + 1)
  {
    hide Find;
  }

  lemma WordStops(text: string, t: string, e: nat)
    requires Stops(WordKind(text), t, e) && e < |t|
    ensures !IsAlphaNumeric(t[e])
  {
    hide IsKeyword, IsAlphaNumeric;
  }

  lemma WordRelexed(s: string, i: nat, t: string, j: nat, n: nat)
    requires i < |s| && IsAlpha(s[i]) && n == WordEnd(s, i + 1) - i
    requires Same(s, i, t, j, n) && Stops(WordKind(s[i..i + n]), t, j + n)
    ensures ScanAt(t, j) == Found(WordKind(s[i..i + n]), j + n)
  {
    hide *;
    SameLength(s, i, t, j, n);
    SameAt(s, i, t, j, n, 0);
    if j + n < |t| {
      WordStops(s[i..i + n], t, j + n);
    }
    SamePart(s, i, t, j, n, 1, n - 1);
    WordLocal(s, i + 1, t, j + 1, n - 1);
    ScannedWord(t, j, j + n, s[i..i + n]);
  }

  lemma ScannedWord(t: string, j: nat, e: nat, text: string)
    requires j < e <= |t| && IsAlpha(t[j]) && WordEnd(t, j + 1) == e && t[j..e] == text
    ensures ScanAt(t, j) == Found(WordKind(text), e)
  {
    hide *;
    ScanWord(t, j);
  }

  lemma StringRelexed(s: string, i: nat, t: string, j: nat, n: nat)
    requires i < |s| && s[i] == '"' && i + 1 < i + n <= |s| && Find(s, '"', i + 1) == i + n - 1 && Same(s, i, t, j, n)
    ensures ScanAt(t, j) == Found(String, j + n)
  {
    hide *;
    SameAt(s, i, t, j, n, 0);
    SamePart(s, i, t, j, n, 1, n - 1);
    FindLocal(s, '"', i + 1, t, j + 1, n - 2);
    SameLength(s, i, t, j, n);
    ScanString(t, j);
  }

  lemma SameLength(s: string, i: nat, t: string, j: nat, n: nat)
    requires Same(s, i, t, j, n)
    ensures i + n <= |s| && j + n <= |t| && t[j..j + n] == s[i..i + n]
  {
  }

  lemma NumberRelexed(s: string, i: nat, t: string, j: nat, n: nat)
    requires i < |s| && IsDigit(s[i]) && n == NumberEnd(s, i + 1) - i
    requires Same(s, i, t, j, n) && Stops(Number, t, j + n)
    ensures ScanAt(t, j) == Found(Number, j + n)
  {
    hide NumberEnd;
    SameAt(s, i, t, j, n, 0);
    SamePart(s, i, t, j, n, 1, n - 1);
    NumberLocal(s, i + 1, t, j + 1, n - 1);
  }

  /** A token is read again, with the same kind, wherever its lexeme stands and nothing continues it. */
  lemma Relexed(s: string, i: nat, t: string, j: nat, n: nat)
    requires i < |s| && ScanAt(s, i).Found? && n == ScanAt(s, i).end - i
    requires Same(s, i, t, j, n) && Stops(ScanAt(s, i).kind, t, j + n)
    ensures ScanAt(t, j) == Found(ScanAt(s, i).kind, j + n)
  {
    hide Same, Stops, NumberEnd, WordEnd, Find, Symbol, WordKind;
    if IsDigit(s[i]) {
      NumberRelexed(s, i, t, j, n);
    } else if IsAlpha(s[i]) {
      WordRelexed(s, i, t, j, n);
    } else if s[i] == '"' {
      StringRelexed(s, i, t, j, n);
    } else {
      SymbolLocal(s, i, t, j, n);
      SameAt(s, i, t, j, n, 0);
    }
  }

  lemma BlankStops(kind: TokenType, t: string, e: nat)
    requires e < |t| ==> IsBlank(t[e])
    ensures Stops(kind, t, e)
  {
  }

  /** The same kinds and lexemes, wherever they stand. */
  predicate SameTokens(a: seq<Token>, b: seq<Token>) {
    |a| == |b| && forall k :: 0 <= k < |a| ==> a[k].kind == b[k].kind && a[k].lexeme == b[k].lexeme
  }
}
