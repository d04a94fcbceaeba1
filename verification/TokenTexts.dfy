/** The texts of the tokens, and longest match.

    What counts as a token is listed here apart from the scanner.  At every position the scanner finds
    the longest stretch of the source that is the text of a token, line comments excepted.
 */
module TokenTexts {
  import opened Lexer

  predicate Digit(c: char) {
    '0' <= c <= '9'
  }

  predicate Letter(c: char) {
    'a' <= c <= 'z' || 'A' <= c <= 'Z' || c == '_'
  }

  predicate Digits(text: string) {
    text != "" && forall k :: 0 <= k < |text| ==> Digit(text[k])
  }

  /** Digits, and perhaps a dot and more digits. */
  predicate NumberText(text: string) {
    || Digits(text)
    || exists k :: 0 <= k < |text| && text[k] == '.' && Digits(text[..k]) && Digits(text[k + 1..])
  }

  predicate WordText(text: string) {
    text != "" && Letter(text[0]) && forall k :: 0 <= k < |text| ==> Letter(text[k]) || Digit(text[k])
  }

  predicate StringText(text: string) {
    && |text| >= 2 && text[0] == '"' && text[|text| - 1] == '"'
    && forall k :: 0 < k < |text| - 1 ==> text[k] != '"'
  }

  const KEYWORDS := [
    "let", "fun", "struct", "enum", "impl", "operator", "match", "if", "else", "while", "for", "in", "break", "continue",
    "return", "print", "import", "export", "private", "as", "true", "false", "nil"]

  /** The text of a token that always has the same one, or nothing. */
  function FixedText(kind: TokenType): string {
    match kind
    case LeftParen => "("
    case RightParen => ")"
    case LeftBracket => "["
    case RightBracket => "]"
    case LeftBrace => "{"
    case RightBrace => "}"
    case Colon => ":"
    case Semicolon => ";"
    case Comma => ","
    case Dot => "."
    case Question => "?"
    case Plus => "+"
    case PlusEqual => "+="
    case Minus => "-"
    case MinusEqual => "-="
    case Star => "*"
    case StarEqual => "*="
    case Slash => "/"
    case SlashEqual => "/="
    case Bang => "!"
    case BangEqual => "!="
    case Equal => "="
    case EqualEqual => "=="
    case FatArrow => "=>"
    case Less => "<"
    case LessEqual => "<="
    case Greater => ">"
    case GreaterEqual => ">="
    case AmpersandAmpersand => "&&"
    case Pipe => "|"
    case PipePipe => "||"
    case _ => ""
  }

  /** The texts of a token. */
  predicate Spells(kind: TokenType, text: string) {
    match kind
    case Number => NumberText(text)
    case String => StringText(text)
    case Identifier => WordText(text) && text !in KEYWORDS
    case Keyword(word) => WordText(text) && text in KEYWORDS && text == word
    case _ => text != "" && text == FixedText(kind)
  }

  predicate SpelledAt(s: string, i: nat, kind: TokenType, e: nat) {
    i < e <= |s| && Spells(kind, s[i..e])
  }

  /** The only token with the longest token text at `i` ends at `e`. */
  ghost predicate LongestAt(s: string, i: nat, kind: TokenType, e: nat) {
    SpelledAt(s, i, kind, e) && forall k, f: nat :: SpelledAt(s, i, k, f) ==> f < e || (f == e && k == kind)
  }

  predicate CommentAt(s: string, i: nat) {
    i + 1 < |s| && s[i] == '/' && s[i + 1] == '/'
  }

  predicate BlankAt(s: string, i: nat) {
    i < |s| && s[i] in " \r\t\n"
  }

  // ------------------------------------------------------------- tokens by their starts

  lemma KeywordsAgree(word: string)
    ensures word in KEYWORDS <==> IsKeyword(word)
  {
  }

  lemma LettersAgree(c: char)
    ensures Digit(c) <==> IsDigit(c)
    ensures Letter(c) <==> IsAlpha(c)
  {
  }

  predicate IsFixed(kind: TokenType) {
    !kind.Number? && !kind.String? && !kind.Identifier? && !kind.Keyword?
  }

  /** Fixed texts are of one or two characters and start with no digit, letter, quote or blank. */
  lemma FixedShape(kind: TokenType)
    requires IsFixed(kind) && FixedText(kind) != ""
    ensures |FixedText(kind)| <= 2
    ensures
      var c := FixedText(kind)[0];
      !IsDigit(c) && !IsAlpha(c) && c != '"' && !IsBlank(c)
  {
  }

  /** The first character tells which sort of token there can be. */
  lemma SpelledStart(s: string, i: nat, kind: TokenType, e: nat)
    requires SpelledAt(s, i, kind, e)
    ensures !IsBlank(s[i])
    ensures IsDigit(s[i]) <==> kind.Number?
    ensures IsAlpha(s[i]) <==> kind.Identifier? || kind.Keyword?
    ensures s[i] == '"' <==> kind.String?
  {
    hide KEYWORDS, FixedText, IsDigit, IsAlpha, IsBlank, Digit, Letter, NumberText;
    var text := s[i..e];
    assert text[0] == s[i];
    StartsApart(s[i]);
    LettersAgree(s[i]);
    match kind
    case Number => NumberStart(text);
    case String =>
    case Identifier =>
    case Keyword(_) =>
    case _ => FixedShape(kind);
  }

  lemma StartsApart(c: char)
    ensures IsDigit(c) ==> !IsAlpha(c) && c != '"' && !IsBlank(c)
    ensures IsAlpha(c) ==> c != '"' && !IsBlank(c)
    ensures c == '"' ==> !IsBlank(c)
  {
  }

  lemma NumberStart(text: string)
    requires NumberText(text)
    ensures text != "" && Digit(text[0])
  {
    if !Digits(text) {
      var k :| 0 <= k < |text| && text[k] == '.' && Digits(text[..k]) && Digits(text[k + 1..]);
      assert text[..k][0] == text[0];
    }
  }

  // ---------------------------------------------------------------------- the four sorts

  lemma NumberLongest(s: string, i: nat)
    requires i < |s| && IsDigit(s[i])
    ensures LongestAt(s, i, Number, NumberEnd(s, i + 1))
  {
    hide Spells, NumberEnd, NumberText;
    var e := NumberEnd(s, i + 1);
    NumberSpelled(s, i);
    assert SpelledAt(s, i, Number, e) by {
      SpellsNumber(s[i..e]);
    }
    forall k, f: nat | SpelledAt(s, i, k, f) ensures f < e || (f == e && k == Number) {
      SpelledStart(s, i, k, f);
      SpellsNumber(s[i..f]);
      NumberNoLonger(s, i, f);
    }
  }

  lemma SpellsNumber(text: string)
    ensures Spells(Number, text) <==> NumberText(text)
  {
  }

  lemma NumberSpelled(s: string, i: nat)
    requires i < |s| && IsDigit(s[i])
    ensures NumberText(s[i..NumberEnd(s, i + 1)])
  {
    hide Digit;
    var d, e := DigitsEnd(s, i + 1), NumberEnd(s, i + 1);
    RunOfDigits(s, i, d);
    if d < e {
      FractionStarts(s, d);
      RunOfDigits(s, d + 1, e);
      var text, k := s[i..e], d - i;
      assert text[..k] == s[i..d] && text[k + 1..] == s[d + 1..e] && text[k] == '.';
    }
  }

  lemma RunOfDigits(s: string, i: nat, e: nat)
    requires i < e <= |s| && forall k :: i <= k < e ==> IsDigit(s[k])
    ensures Digits(s[i..e])
  {
    hide Digit, IsDigit;
    forall k | 0 <= k < e - i ensures Digit(s[i..e][k]) {
      LettersAgree(s[i + k]);
    }
  }

  lemma DigitsRun(s: string, i: nat, e: nat)
    requires i <= e <= |s| && Digits(s[i..e])
    ensures i < e && forall k :: i <= k < e ==> IsDigit(s[k])
  {
    hide Digit, IsDigit;
    forall k | i <= k < e ensures IsDigit(s[k]) {
      assert s[k] == s[i..e][k - i];
      LettersAgree(s[k]);
    }
  }

  lemma NumberNoLonger(s: string, i: nat, f: nat)
    requires i < f <= |s| && IsDigit(s[i]) && NumberText(s[i..f])
    ensures f <= NumberEnd(s, i + 1)
  {
    hide Digits;
    var text := s[i..f];
    if Digits(text) {
      DigitsRun(s, i, f);
    } else {
      var k :| 0 <= k < |text| && text[k] == '.' && Digits(text[..k]) && Digits(text[k + 1..]);
      assert text[..k] == s[i..i + k] && text[k + 1..] == s[i + k + 1..f] && s[i + k] == '.';
      DigitsRun(s, i, i + k);
      DigitsRun(s, i + k + 1, f);
    }
  }

  lemma WordLongest(s: string, i: nat)
    requires i < |s| && IsAlpha(s[i])
    ensures
      var e := WordEnd(s, i + 1);
      LongestAt(s, i, WordKind(s[i..e]), e)
  {
    hide Spells, WordEnd, WordKind, KEYWORDS;
    var e := WordEnd(s, i + 1);
    WordSpelled(s, i, e);
    forall k, f: nat | SpelledAt(s, i, k, f) ensures f < e || (f == e && k == WordKind(s[i..e])) {
      SpelledStart(s, i, k, f);
      WordOf(k, s[i..f]);
      WordNoLonger(s, i, f);
    }
  }

  lemma WordSpelled(s: string, i: nat, e: nat)
    requires i < e <= |s| && IsAlpha(s[i]) && forall k :: i < k < e ==> IsAlphaNumeric(s[k])
    ensures WordText(s[i..e]) && SpelledAt(s, i, WordKind(s[i..e]), e)
  {
    hide Letter, Digit, IsAlpha, IsDigit, KEYWORDS, IsKeyword;
    var text := s[i..e];
    forall k | 0 <= k < |text| ensures Letter(text[k]) || Digit(text[k]) {
      LettersAgree(s[i + k]);
    }
    LettersAgree(s[i]);
    KeywordsAgree(text);
  }

  /** A word has one kind. */
  lemma WordOf(kind: TokenType, text: string)
    requires (kind.Identifier? || kind.Keyword?) && Spells(kind, text)
    ensures kind == WordKind(text) && WordText(text)
  {
    hide KEYWORDS, IsKeyword, WordText;
    KeywordsAgree(text);
  }

  lemma WordNoLonger(s: string, i: nat, f: nat)
    requires i < f <= |s| && WordText(s[i..f])
    ensures f <= WordEnd(s, i + 1)
  {
    hide Letter, Digit, IsAlpha, IsDigit;
    forall k | i <= k < f ensures IsAlphaNumeric(s[k]) {
      assert s[k] == s[i..f][k - i];
      LettersAgree(s[k]);
    }
  }

  lemma StringLongest(s: string, i: nat)
    requires i < |s| && s[i] == '"'
    ensures
      var e := Find(s, '"', i + 1);
      if e < |s| then LongestAt(s, i, String, e + 1) else forall k, f: nat :: !SpelledAt(s, i, k, f)
  {
    hide Spells, Find;
    var e := Find(s, '"', i + 1);
    if e < |s| {
      assert SpelledAt(s, i, String, e + 1) by {
        StringSpelled(s, i, e);
      }
    }
    forall k, f: nat | SpelledAt(s, i, k, f) ensures e < |s| && f == e + 1 && k == String {
      SpelledStart(s, i, k, f);
      StringEnds(s, i, f, e);
    }
  }

  lemma StringSpelled(s: string, i: nat, e: nat)
    requires i < e < |s| && s[i] == '"' && s[e] == '"' && forall k :: i < k < e ==> s[k] != '"'
    ensures Spells(String, s[i..e + 1])
  {
  }

  lemma StringEnds(s: string, i: nat, f: nat, e: nat)
    requires i < f <= |s| && Spells(String, s[i..f]) && i < e <= |s|
    requires (forall k :: i < k < e ==> s[k] != '"') && (e < |s| ==> s[e] == '"')
    ensures e < |s| && f == e + 1
  {
    var text := s[i..f];
    assert forall k :: 0 <= k < |text| ==> text[k] == s[i + k];
    assert s[f - 1] == '"';
    assert forall k :: i < k < f - 1 ==> s[k] == text[k - i] != '"';
  }

  lemma SymbolLongest(s: string, i: nat)
    requires i < |s| && !IsDigit(s[i]) && !IsAlpha(s[i]) && s[i] != '"' && !IsBlank(s[i])
    ensures Symbol(s, i).Found? ==> LongestAt(s, i, Symbol(s, i).kind, Symbol(s, i).end)
    ensures !Symbol(s, i).Found? ==> forall k, f: nat :: !SpelledAt(s, i, k, f)
  {
    hide Spells, Symbol, FixedText;
    var r := Symbol(s, i);
    if r.Found? {
      SymbolSpelled(s, i);
    }
    forall k, f: nat | SpelledAt(s, i, k, f) ensures r.Found? && (f < r.end || (f == r.end && k == r.kind)) {
      SpelledStart(s, i, k, f);
      SpellsFixed(k, s[i..f]);
      FixedShape(k);
      SymbolNoLonger(s, i, k, f);
    }
  }

  lemma SpellsFixed(kind: TokenType, text: string)
    requires IsFixed(kind)
    ensures Spells(kind, text) <==> text != "" && text == FixedText(kind)
  {
  }

  lemma ShortText(s: string, i: nat)
    requires i < |s| && Symbol(s, i).Found? && Symbol(s, i).end == i + 1
    ensures IsFixed(Symbol(s, i).kind) && FixedText(Symbol(s, i).kind) == [s[i]]
  {
  }

  lemma LongText(s: string, i: nat)
    requires i < |s| && Symbol(s, i).Found? && Symbol(s, i).end == i + 2
    ensures IsFixed(Symbol(s, i).kind) && FixedText(Symbol(s, i).kind) == [s[i], s[i + 1]]
  {
  }

  lemma SymbolSpelled(s: string, i: nat)
    requires i < |s| && Symbol(s, i).Found?
    ensures SpelledAt(s, i, Symbol(s, i).kind, Symbol(s, i).end)
  {
    hide Symbol, FixedText, Spells;
    var r := Symbol(s, i);
    SymbolLength(s, i);
    if r.end == i + 1 {
      ShortText(s, i);
      assert s[i..r.end] == [s[i]];
    } else {
      LongText(s, i);
      assert s[i..r.end] == [s[i], s[i + 1]];
    }
    SpellsFixed(r.kind, s[i..r.end]);
  }

  lemma SymbolNoLonger(s: string, i: nat, kind: TokenType, f: nat)
    requires i < f <= |s| && IsFixed(kind) && s[i..f] == FixedText(kind) && f <= i + 2
    ensures
      var r := Symbol(s, i);
      r.Found? && (f < r.end || (f == r.end && kind == r.kind))
  {
    assert s[i] == FixedText(kind)[0];
    if f == i + 2 {
      assert s[i + 1] == FixedText(kind)[1];
    }
  }

  // ------------------------------------------------------------------------ longest match

  /** The scanner finds a token exactly when it is the longest at that place and no comment starts
      there; it skips exactly blanks and comments, each comment up to the end of its line; and it
      rejects exactly where nothing of this can be found. */
  lemma ScansLongest(s: string, i: nat)
    requires i < |s|
    ensures
      var r := ScanAt(s, i);
      && (r.Found? <==> !CommentAt(s, i) && exists k, e: nat :: SpelledAt(s, i, k, e))
      && (r.Found? ==> LongestAt(s, i, r.kind, r.end))
      && (r.Skipped? <==> BlankAt(s, i) || CommentAt(s, i))
      && (BlankAt(s, i) ==> r.end == i + 1)
      && (CommentAt(s, i) ==>
           (forall k :: i <= k < r.end ==> s[k] != '\n') && (r.end < |s| ==> s[r.end] == '\n'))
  {
    hide Symbol, NumberEnd, WordEnd, Find, Spells, WordKind, IsDigit, IsAlpha;
    StartsApart(s[i]);
    StartsApart('/');
    SlashPlain();
    if IsBlank(s[i]) {
      forall k, e: nat ensures !SpelledAt(s, i, k, e) {
        NotBlank(s, i, k, e);
      }
    } else if IsDigit(s[i]) {
      NumberLongest(s, i);
    } else if IsAlpha(s[i]) {
      WordLongest(s, i);
    } else if s[i] == '"' {
      StringLongest(s, i);
    } else if !CommentAt(s, i) {
      SymbolLongest(s, i);
      SymbolNotSkipped(s, i);
    }
  }

  lemma SlashPlain()
    ensures !IsDigit('/') && !IsAlpha('/') && !IsBlank('/')
  {
  }

  lemma NotBlank(s: string, i: nat, kind: TokenType, e: nat)
    requires i < |s| && IsBlank(s[i])
    ensures !SpelledAt(s, i, kind, e)
  {
    hide Spells, IsBlank;
    if SpelledAt(s, i, kind, e) {
      SpelledStart(s, i, kind, e);
    }
  }

  lemma SymbolNotSkipped(s: string, i: nat)
    requires i < |s|
    ensures !Symbol(s, i).Skipped?
  {
  }

  /** Every token of a source that lexes is the longest at its place. */
  lemma {:induction false} TokensLongest(s: string, cursor: nat, tokens: seq<Token>, k: nat)
    requires cursor <= |s| && Tiles(s, cursor, tokens) && k < |tokens|
    ensures
      var t := tokens[k];
      t.start < t.end <= |s| && t.lexeme == s[t.start..t.end] && LongestAt(s, t.start, t.kind, t.end) && !CommentAt(s, t.start)
    decreases k
  {
    hide ScanAt, LongestAt;
    if k == 0 {
      ScansLongest(s, tokens[0].start);
    } else {
      TokensLongest(s, tokens[0].end, tokens[1..], k - 1);
    }
  }
}
